/** The input rules of app/lib/controller.ts that do not depend on the game: the key map,
    the gamepad snapshot with its dead zone and freshness rule, the side a newly connected
    gamepad receives, and the `GameController` record a gamepad is tracked by. The manager
    that applies these rules to a game is `Games.ControllerManager`. */
module Controllers {
  import opened Wrappers
  import opened Sides

  // ---------------------------------------------------------------------------------------
  // Movement and keys

  /** The two movement flags `setMovement(up, down)` receives. */
  datatype Movement = Movement(up: bool, down: bool)

  /** `String.prototype.toLowerCase` on ASCII: `A`..`Z` become `a`..`z`, everything else stays. */
  function LowerChar(c: char): (d: char)
    ensures 'A' <= c <= 'Z' ==> 'a' <= d <= 'z' && d as int == c as int - 'A' as int + 'a' as int
    ensures !('A' <= c <= 'Z') ==> d == c
  {
    if 'A' <= c <= 'Z' then (c as int - 'A' as int + 'a' as int) as char else c
  }

  function LowerKey(s: string): (r: string)
    ensures |r| == |s|
    ensures forall i :: 0 <= i < |s| ==> r[i] == LowerChar(s[i])
    ensures forall i :: 0 <= i < |s| ==> !('A' <= r[i] <= 'Z')
  {
    if s == [] then [] else [LowerChar(s[0])] + LowerKey(s[1..])
  }

  /** Lowercasing a key twice is lowercasing it once, so a key that was added lowercased is
      found again by a second lowercasing. */
  lemma LowerKeyIdempotent(s: string)
    ensures LowerKey(LowerKey(s)) == LowerKey(s)
  {
    var once := LowerKey(s);
    assert forall i :: 0 <= i < |once| ==> LowerChar(once[i]) == once[i];
  }

  /** `'W'` and `'w'` name the same key. */
  lemma ShiftedKeysAreLowered()
    ensures LowerKey("W") == "w" && LowerKey("O") == "o" && LowerKey("N") == "n"
  {
  }

  /** The keys of `setPaddleMovement`: `w`/`s` for the dark paddle, `o`/`l` for the light one. */
  function UpKey(side: Side): string {
    if side == Dark then "w" else "o"
  }

  function DownKey(side: Side): string {
    if side == Dark then "s" else "l"
  }

  /** `setPaddleMovement`: a paddle moves up iff its up key is held and down iff its down key is. */
  function KeyMovement(keys: set<string>, side: Side): (m: Movement)
    ensures m.up <==> UpKey(side) in keys
    ensures m.down <==> DownKey(side) in keys
  {
    Movement(UpKey(side) in keys, DownKey(side) in keys)
  }

  /** The four movement keys are distinct, so the two paddles never react to the same key. */
  lemma MovementKeysDistinct()
    ensures |{UpKey(Dark), DownKey(Dark), UpKey(Light), DownKey(Light)}| == 4
  {
    assert "w" != "s" && "w" != "o" && "w" != "l" && "s" != "o" && "s" != "l" && "o" != "l"
      by { assert "w"[0] == 'w' && "s"[0] == 's' && "o"[0] == 'o' && "l"[0] == 'l'; }
  }

  /** Holding a key of one paddle leaves the other paddle's flags as they were. */
  lemma KeyMovementIndependent(keys: set<string>, key: string, side: Side)
    requires key != UpKey(Opposite(side)) && key != DownKey(Opposite(side))
    ensures KeyMovement(keys + {key}, Opposite(side)) == KeyMovement(keys, Opposite(side))
    ensures KeyMovement(keys - {key}, Opposite(side)) == KeyMovement(keys, Opposite(side))
  {
  }

  /** `startContinuousMovement(key, paddle)`: up iff `key` is the up key of the paddle's side,
      down iff it is the down key. */
  function ContinuousMovement(key: string, side: Side): (m: Movement)
    ensures m.up <==> key == UpKey(side)
    ensures m.down <==> key == DownKey(side)
  {
    Movement(key == UpKey(side), key == DownKey(side))
  }

  /** A touch or a click moves a paddle in at most one direction. */
  lemma ContinuousMovementExclusive(key: string, side: Side)
    ensures !(ContinuousMovement(key, side).up && ContinuousMovement(key, side).down)
  {
    assert UpKey(side)[0] != DownKey(side)[0];
  }

  /** The keys `handleKeyDown` acts on besides recording them. */
  datatype Command = NewGame | TogglePause | ToggleGrid | NoCommand

  function KeyCommand(key: string): (c: Command)
    ensures c == NewGame <==> key == "n"
    ensures c == TogglePause <==> key == "p"
    ensures c == ToggleGrid <==> key == "g"
  {
    if key == "n" then NewGame
    else if key == "p" then TogglePause
    else if key == "g" then ToggleGrid
    else NoCommand
  }

  /** A key down followed by its key up restores a set that did not hold the key. */
  lemma PressThenRelease(keys: set<string>, key: string)
    requires LowerKey(key) !in keys
    ensures (keys + {LowerKey(key)}) - {LowerKey(key)} == keys
  {
  }

  // ---------------------------------------------------------------------------------------
  // Gamepads

  datatype ControllerState = Connected | Disconnected

  /** A snapshot of a browser gamepad: its index, its `connected` flag, its timestamp, the
      `pressed` flag of each button and the position of each axis. */
  datatype Gamepad = Gamepad(index: nat, connected: bool, timestamp: real, buttons: seq<bool>, axes: seq<real>)

  /** `buttons[8]` (pause) and `buttons[9]` (new game) of the standard mapping. */
  const PauseButton: nat := 8
  const NewGameButton: nat := 9

  /** Axis positions within this distance of the centre count as idle. */
  const DeadZone: real := 0.2

  /** The left and right vertical axes of the standard mapping. */
  const LeftVertical: nat := 1
  const RightVertical: nat := 3

  /** The source reads `buttons[8].pressed` and `buttons[9].pressed`, which throws on a pad with
      fewer buttons; the standard mapping has 17. */
  predicate HasCommandButtons(g: Gamepad) {
    |g.buttons| > NewGameButton
  }

  /** An axis the pad does not report is `undefined`, and every comparison with it is false. */
  function Axis(g: Gamepad, i: nat): Option<real> {
    if i < |g.axes| then Some(g.axes[i]) else None
  }

  predicate TiltedUp(a: Option<real>) {
    a.Some? && a.value < -DeadZone
  }

  predicate TiltedDown(a: Option<real>) {
    a.Some? && a.value > DeadZone
  }

  /** The paddle movement `update` derives from a pad: the right stick is checked first, then
      the left one. */
  function StickMovement(g: Gamepad): Movement {
    Movement(TiltedUp(Axis(g, RightVertical)) || TiltedUp(Axis(g, LeftVertical)),
             TiltedDown(Axis(g, RightVertical)) || TiltedDown(Axis(g, LeftVertical)))
  }

  /** Up iff either vertical stick is pushed up past the dead zone, down iff either is pushed
      down past it. */
  lemma StickMovementMeaning(g: Gamepad)
    ensures StickMovement(g).up <==> (exists a :: a in {LeftVertical, RightVertical} && a < |g.axes| && g.axes[a] < -0.2)
    ensures StickMovement(g).down <==> (exists a :: a in {LeftVertical, RightVertical} && a < |g.axes| && g.axes[a] > 0.2)
  {
    var m := StickMovement(g);
    assert m.up ==> exists a :: a in {LeftVertical, RightVertical} && a < |g.axes| && g.axes[a] < -0.2 by {
      if TiltedUp(Axis(g, RightVertical)) { assert RightVertical in {LeftVertical, RightVertical}; }
      else if TiltedUp(Axis(g, LeftVertical)) { assert LeftVertical in {LeftVertical, RightVertical}; }
    }
    assert m.down ==> exists a :: a in {LeftVertical, RightVertical} && a < |g.axes| && g.axes[a] > 0.2 by {
      if TiltedDown(Axis(g, RightVertical)) { assert RightVertical in {LeftVertical, RightVertical}; }
      else if TiltedDown(Axis(g, LeftVertical)) { assert LeftVertical in {LeftVertical, RightVertical}; }
    }
  }

  /** Sticks resting inside the dead zone move nothing. */
  lemma DeadZoneIsIdle(g: Gamepad)
    requires forall a :: 0 <= a < |g.axes| ==> -0.2 <= g.axes[a] <= 0.2
    ensures StickMovement(g) == Movement(false, false)
  {
  }

  /** A pad signals both directions at once only when its two sticks point opposite ways. */
  lemma BothDirectionsNeedBothSticks(g: Gamepad)
    requires StickMovement(g).up && StickMovement(g).down
    ensures RightVertical < |g.axes|
    ensures (g.axes[LeftVertical] < -0.2 && g.axes[RightVertical] > 0.2)
         || (g.axes[LeftVertical] > 0.2 && g.axes[RightVertical] < -0.2)
  {
  }

  /** The id of the controller of gamepad `index`: `'g' + index`. */
  function ControllerId(index: nat): string {
    "g" + Decimal(index)
  }

  function Digit(d: nat): (c: char)
    requires d < 10
    ensures '0' <= c <= '9'
  {
    ('0' as int + d) as char
  }

  /** `String(n)` for a whole number: its decimal digits without leading zeros. */
  function Decimal(n: nat): (s: string)
    ensures |s| > 0
    ensures forall i :: 0 <= i < |s| ==> '0' <= s[i] <= '9'
    decreases n
  {
    if n < 10 then [Digit(n)] else Decimal(n / 10) + [Digit(n % 10)]
  }

  /** Reading a decimal back: the inverse of `Decimal`. */
  function Value(s: string): nat
    requires forall i :: 0 <= i < |s| ==> '0' <= s[i] <= '9'
  {
    if s == [] then 0 else 10 * Value(s[..|s| - 1]) + (s[|s| - 1] as int - '0' as int)
  }

  lemma {:induction false} ValueOfDecimal(n: nat)
    ensures Value(Decimal(n)) == n
    decreases n
  {
    if n >= 10 {
      var s := Decimal(n / 10) + [Digit(n % 10)];
      assert s[..|s| - 1] == Decimal(n / 10);
      ValueOfDecimal(n / 10);
    }
  }

  /** Two different gamepads never share a controller id, so the registry keeps one entry per pad. */
  lemma ControllerIdInjective(i: nat, j: nat)
    requires ControllerId(i) == ControllerId(j)
    ensures i == j
  {
    assert ControllerId(i)[1..] == Decimal(i);
    assert ControllerId(j)[1..] == Decimal(j);
    ValueOfDecimal(i);
    ValueOfDecimal(j);
  }

  /** The side `handleGamepadConnected` picks from the sides of the registered controllers: dark
      for the first controller; for the second, the opposite of the first one's side, or none
      when the first has none; none for any further controller. */
  function AssignedSide(sides: seq<Option<Side>>): (s: Option<Side>)
    ensures |sides| == 0 ==> s == Some(Dark)
    ensures |sides| == 1 ==> s == (if sides[0].Some? then Some(Opposite(sides[0].value)) else None)
    ensures |sides| >= 2 ==> s.None?
    ensures s.Some? ==> forall k :: 0 <= k < |sides| ==> sides[k] != s
  {
    if |sides| == 0 then Some(Dark)
    else if |sides| == 1 && sides[0].Some? then Some(Opposite(sides[0].value))
    else None
  }

  /** Two controllers connected one after the other onto an empty registry get the two sides. */
  lemma FirstTwoPadsGetBothSides()
    ensures AssignedSide([]) == Some(Dark)
    ensures AssignedSide([AssignedSide([])]) == Some(Light)
  {
  }

  /** What the controller itself remembers between two readings. */
  datatype ControllerView = ControllerView(state: ControllerState, side: Option<Side>, lastTimestamp: real)

  /** The record `getGamepad` returns. */
  datatype Reading = Reading(gamepad: Gamepad, state: ControllerState, isUpdated: bool, side: Option<Side>)

  function StateOf(g: Gamepad): ControllerState {
    if g.connected then Connected else Disconnected
  }

  /** `getGamepad` given what the browser currently reports for the pad (`current`) and the
      snapshot the controller was created with (`stored`): the new controller state and the
      reading. A pad that is no longer reported disconnects the controller and drops its side;
      otherwise the reading is fresh iff the pad's timestamp is later than the last one seen,
      which it then replaces. */
  function Read(v: ControllerView, stored: Gamepad, current: Option<Gamepad>): (r: (ControllerView, Reading))
    ensures current.None? ==> (r.0 == v.(state := Disconnected, side := None)
                               && r.1 == Reading(stored, Disconnected, false, None))
    ensures current.Some? ==> r.0 == ControllerView(StateOf(current.value), v.side, current.value.timestamp)
    ensures current.Some? ==> r.1.gamepad == current.value && r.1.side == v.side && r.1.state == r.0.state
    ensures r.1.isUpdated <==> current.Some? && current.value.timestamp > v.lastTimestamp
  {
    if current.None? then
      var w := v.(state := Disconnected, side := None);
      (w, Reading(stored, w.state, false, w.side))
    else
      var g := current.value;
      var w := ControllerView(StateOf(g), v.side, g.timestamp);
      (w, Reading(g, w.state, g.timestamp > v.lastTimestamp, w.side))
  }

  /** Reading the same snapshot twice: the second reading is never fresh. */
  lemma RereadIsStale(v: ControllerView, stored: Gamepad, g: Gamepad)
    ensures !Read(Read(v, stored, Some(g)).0, stored, Some(g)).1.isUpdated
  {
  }

  /** Only a strictly newer timestamp makes a reading fresh, whatever the pad reports. */
  lemma FreshOnlyWhenNewer(v: ControllerView, stored: Gamepad, g: Gamepad)
    requires g.timestamp <= v.lastTimestamp
    ensures !Read(v, stored, Some(g)).1.isUpdated
    ensures Read(v, stored, Some(g)).0.side == v.side
  {
  }

  // ---------------------------------------------------------------------------------------
  // The gamepad passes of the manager

  /** What `navigator.getGamepads()[index]` yields: nothing for a pad the browser no longer lists. */
  function Current(pads: map<nat, Gamepad>, index: nat): Option<Gamepad> {
    if index in pads then Some(pads[index]) else None
  }

  predicate PadsHaveCommandButtons(pads: map<nat, Gamepad>) {
    forall i :: i in pads ==> HasCommandButtons(pads[i])
  }

  /** The progress of `ControllerManager.update` over the registry: the controllers' states,
      the last movement given to each paddle, whether pause was toggled, and whether the
      loop has returned. */
  datatype Poll = Poll(views: seq<ControllerView>, dark: Option<Movement>, light: Option<Movement>,
                       toggled: bool, halted: bool)

  /** One iteration of `update` for controller `k`: a controller without a side is skipped;
      otherwise it is read, and the loop returns on a stale, disconnected or sideless reading,
      toggles pause and returns when `buttons[8]` is held, and else moves the paddle of the
      controller's side by the sticks. */
  function PollStep(stored: seq<Gamepad>, pads: map<nat, Gamepad>, k: nat, p: Poll): (q: Poll)
    requires k < |stored| == |p.views| && PadsHaveCommandButtons(pads)
    ensures |q.views| == |p.views|
    ensures forall j :: 0 <= j < |p.views| && j != k ==> q.views[j] == p.views[j]
    ensures p.views[k].side.None? ==> q == p
    ensures q.toggled ==> p.toggled || q.halted
  {
    var v := p.views[k];
    if v.side.None? then p
    else
      var (w, r) := Read(v, stored[k], Current(pads, stored[k].index));
      PollReading(p.(views := p.views[k := w]), r)
  }

  /** What a reading of a controller with a side does to the pass. */
  function PollReading(p: Poll, r: Reading): (q: Poll)
    requires r.isUpdated ==> HasCommandButtons(r.gamepad)
    ensures q.views == p.views
    ensures q.toggled ==> p.toggled || q.halted
  {
    if r.state != Connected || !r.isUpdated || r.side.None? then p.(halted := true)
    else if r.gamepad.buttons[PauseButton] then p.(toggled := true, halted := true)
    else if r.side.value == Dark then p.(dark := Some(StickMovement(r.gamepad)))
    else p.(light := Some(StickMovement(r.gamepad)))
  }

  /** The rest of the pass from controller `k` on. */
  function PollFrom(stored: seq<Gamepad>, pads: map<nat, Gamepad>, k: nat, p: Poll): (q: Poll)
    requires k <= |stored| == |p.views| && PadsHaveCommandButtons(pads)
    ensures |q.views| == |p.views|
    decreases |stored| - k
  {
    if k == |stored| || p.halted then p
    else PollFrom(stored, pads, k + 1, PollStep(stored, pads, k, p))
  }

  /** The whole of `update`: nothing at all when gamepads are disabled. */
  function Polled(enabled: bool, stored: seq<Gamepad>, views: seq<ControllerView>, pads: map<nat, Gamepad>): (q: Poll)
    requires |stored| == |views| && PadsHaveCommandButtons(pads)
    ensures |q.views| == |views|
    ensures !q.toggled || q.halted
    ensures !enabled ==> q == Poll(views, None, None, false, false)
  {
    var start := Poll(views, None, None, false, false);
    if enabled then PollFromEnds(stored, pads, 0, start); PollFrom(stored, pads, 0, start) else start
  }

  /** A pass that toggles pause stops right there. */
  lemma {:induction false} PollFromEnds(stored: seq<Gamepad>, pads: map<nat, Gamepad>, k: nat, p: Poll)
    requires k <= |stored| == |p.views| && PadsHaveCommandButtons(pads)
    requires !p.toggled || p.halted
    ensures var q := PollFrom(stored, pads, k, p); !q.toggled || q.halted
    decreases |stored| - k
  {
    if k < |stored| && !p.halted {
      PollFromEnds(stored, pads, k + 1, PollStep(stored, pads, k, p));
    }
  }

  /** Controllers before `k` are not touched by the rest of the pass. */
  lemma {:induction false} PollFromKeepsEarlier(stored: seq<Gamepad>, pads: map<nat, Gamepad>, k: nat, p: Poll)
    requires k <= |stored| == |p.views| && PadsHaveCommandButtons(pads)
    ensures forall j :: 0 <= j < k ==> PollFrom(stored, pads, k, p).views[j] == p.views[j]
    decreases |stored| - k
  {
    if k < |stored| && !p.halted {
      PollFromKeepsEarlier(stored, pads, k + 1, PollStep(stored, pads, k, p));
    }
  }

  /** Controllers without a side are passed over. */
  lemma {:induction false} PollSkipsSideless(stored: seq<Gamepad>, pads: map<nat, Gamepad>, k: nat, m: nat, p: Poll)
    requires k <= m <= |stored| == |p.views| && PadsHaveCommandButtons(pads) && !p.halted
    requires forall j :: k <= j < m ==> p.views[j].side.None?
    ensures PollFrom(stored, pads, k, p) == PollFrom(stored, pads, m, p)
    decreases m - k
  {
    if k < m {
      PollSkipsSideless(stored, pads, k + 1, m, p);
    }
  }

  /** The freshness rule at work: a second `update` on the same gamepad snapshots moves no
      paddle and does not toggle pause, as long as the first controller with a side still has
      its pad. That controller has seen the pad's timestamp, so its reading is stale and the
      loop returns at once. */
  lemma SecondPollIsStale(stored: seq<Gamepad>, views: seq<ControllerView>, pads: map<nat, Gamepad>, first: nat)
    requires |stored| == |views| && PadsHaveCommandButtons(pads)
    requires first < |views| && views[first].side.Some?
    requires forall j :: 0 <= j < first ==> views[j].side.None?
    requires stored[first].index in pads
    ensures var again := Polled(true, stored, Polled(true, stored, views, pads).views, pads);
            again.dark.None? && again.light.None? && !again.toggled
  {
    var start := Poll(views, None, None, false, false);
    PollSkipsSideless(stored, pads, 0, first, start);
    var p1 := PollStep(stored, pads, first, start);
    var once := PollFrom(stored, pads, first + 1, p1);
    assert Polled(true, stored, views, pads) == once;
    PollFromKeepsEarlier(stored, pads, first + 1, p1);
    var w := once.views[first];
    assert w == p1.views[first];
    assert w.side == views[first].side && w.lastTimestamp == pads[stored[first].index].timestamp;
    var restart := Poll(once.views, None, None, false, false);
    PollSkipsSideless(stored, pads, 0, first, restart);
    var p2 := PollStep(stored, pads, first, restart);
    assert p2.halted && p2.dark.None? && p2.light.None? && !p2.toggled;
  }

  /** The progress of the interval check that runs while any gamepad is registered: the
      controllers' states, the command it found, and whether it has returned. */
  datatype Scan = Scan(views: seq<ControllerView>, action: Command, halted: bool)

  /** One iteration for controller `k`: a controller without a side is skipped; otherwise it is
      read, and the check returns on a stale or disconnected reading, on `buttons[8]` (pause) and
      on `buttons[9]` (new game), in that order of precedence. */
  function ScanStep(stored: seq<Gamepad>, pads: map<nat, Gamepad>, k: nat, s: Scan): (t: Scan)
    requires k < |stored| == |s.views| && PadsHaveCommandButtons(pads)
    ensures |t.views| == |s.views|
    ensures forall j :: 0 <= j < |s.views| && j != k ==> t.views[j] == s.views[j]
    ensures t.action == s.action || t.halted
  {
    var v := s.views[k];
    if v.side.None? then s
    else
      var (w, r) := Read(v, stored[k], Current(pads, stored[k].index));
      ScanReading(s.(views := s.views[k := w]), r)
  }

  /** What a reading of a controller with a side does to the check. */
  function ScanReading(s: Scan, r: Reading): (t: Scan)
    requires r.isUpdated ==> HasCommandButtons(r.gamepad)
    ensures t.views == s.views
    ensures t.action == s.action || t.halted
  {
    if r.state != Connected || !r.isUpdated then s.(halted := true)
    else if r.gamepad.buttons[PauseButton] then s.(action := TogglePause, halted := true)
    else if r.gamepad.buttons[NewGameButton] then s.(action := NewGame, halted := true)
    else s
  }

  function ScanFrom(stored: seq<Gamepad>, pads: map<nat, Gamepad>, k: nat, s: Scan): (t: Scan)
    requires k <= |stored| == |s.views| && PadsHaveCommandButtons(pads)
    ensures |t.views| == |s.views|
    decreases |stored| - k
  {
    if k == |stored| || s.halted then s
    else ScanFrom(stored, pads, k + 1, ScanStep(stored, pads, k, s))
  }

  /** The whole interval check, for a game that is not running. */
  function Scanned(stored: seq<Gamepad>, views: seq<ControllerView>, pads: map<nat, Gamepad>): (t: Scan)
    requires |stored| == |views| && PadsHaveCommandButtons(pads)
    ensures |t.views| == |views|
  {
    ScanFrom(stored, pads, 0, Scan(views, NoCommand, false))
  }

  /** The interval check only ever pauses, resumes or starts a new game, and a command it
      finds ends the check, like the `return` after `togglePause` and `newGame`. */
  lemma {:induction false} ScanFindsGamepadCommands(stored: seq<Gamepad>, pads: map<nat, Gamepad>, k: nat, s: Scan)
    requires k <= |stored| == |s.views| && PadsHaveCommandButtons(pads)
    requires s.action in {NoCommand, TogglePause, NewGame}
    ensures ScanFrom(stored, pads, k, s).action in {NoCommand, TogglePause, NewGame}
    ensures ScanFrom(stored, pads, k, s).action != s.action ==> ScanFrom(stored, pads, k, s).halted
    decreases |stored| - k
  {
    if k < |stored| && !s.halted {
      ScanFindsGamepadCommands(stored, pads, k + 1, ScanStep(stored, pads, k, s));
    }
  }

  /** Holding pause and new game together on the pad that is read first pauses: the new-game
      button is not looked at. */
  lemma PauseWinsOverNewGame(stored: seq<Gamepad>, views: seq<ControllerView>, pads: map<nat, Gamepad>)
    requires |stored| == |views| > 0 && PadsHaveCommandButtons(pads)
    requires views[0].side.Some? && stored[0].index in pads
    requires var g := pads[stored[0].index];
             g.connected && g.timestamp > views[0].lastTimestamp
             && g.buttons[PauseButton] && g.buttons[NewGameButton]
    ensures Scanned(stored, views, pads).action == TogglePause
  {
    var s0 := Scan(views, NoCommand, false);
    var s1 := ScanStep(stored, pads, 0, s0);
    assert s1.halted && s1.action == TogglePause;
    assert ScanFrom(stored, pads, 0, s0) == ScanFrom(stored, pads, 1, s1) == s1;
  }

  /** `GameController`: one gamepad, its connection state, its side and the last timestamp seen. */
  class GameController {
    const gamepad: Gamepad
    const id: string
    var state: ControllerState
    var side: Option<Side>
    var lastTimestamp: real

    function View(): ControllerView
      reads this
    {
      ControllerView(state, side, lastTimestamp)
    }

    constructor (gamepad: Gamepad, side: Option<Side>)
      ensures this.gamepad == gamepad && id == ControllerId(gamepad.index)
      ensures View() == ControllerView(StateOf(gamepad), side, 0.0)
    {
      this.gamepad := gamepad;
      id := ControllerId(gamepad.index);
      state := StateOf(gamepad);
      this.side := side;
      lastTimestamp := 0.0;
    }

    method SetState(state: ControllerState)
      modifies this`state
      ensures this.state == state
    {
      this.state := state;
    }

    method SetPlayerSide(side: Side)
      modifies this`side
      ensures this.side == Some(side)
    {
      this.side := Some(side);
    }

    /** `getGamepad`, with what `navigator.getGamepads()[index]` returns passed as `current`. */
    method GetGamepad(current: Option<Gamepad>) returns (r: Reading)
      modifies this
      ensures (View(), r) == Read(old(View()), gamepad, current)
    {
      if current.None? {
        state := Disconnected;
        side := None;
        return Reading(gamepad, state, false, side);
      }
      var g := current.value;
      state := if g.connected then Connected else Disconnected;
      var isUpdated := g.timestamp > lastTimestamp;
      lastTimestamp := g.timestamp;
      r := Reading(g, state, isUpdated, side);
    }
  }
}
