/** The two players of a match (`PlayerSide` in app/lib/game.ts). */
module Sides {

  datatype Side = Dark | Light

  /** The other player: the ternary `side === 'dark' ? 'light' : 'dark'` used by
      the collision engine for the winner and for the colour of a captured cell. */
  function Opposite(s: Side): (o: Side)
    ensures o != s
  {
    if s == Dark then Light else Dark
  }

  lemma OppositeInvolution(s: Side)
    ensures Opposite(Opposite(s)) == s
  {
  }
}
