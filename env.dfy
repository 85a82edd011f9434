/** The environment helpers of app/lib/env.ts. `process.env` is a map field of an
    `Environment` object, so that the memo caches and the loaded files act on one state;
    file contents come in as strings (or `None` for a missing file). */
module Env {
  import opened Wrappers

  /** The three values `normalizeEnv` can return. */
  const EnvProduction: string := "production"
  const EnvDevelopment: string := "development"
  const EnvTest: string := "test"

  /** The keys `getNodeEnv` and `getAppEnv` use by default. */
  const NodeEnvKey: string := "NODE_ENV"
  const AppEnvKey: string := "APP_ENV"
  /** The variable naming the files the module loads when it is first imported. */
  const EnvFilesKey: string := "APP_ENV_FILES"

  /** The spellings of each class of environment name. */
  const ProductionNames: set<string> := {"production", "prd", "prod"}
  const DevelopmentNames: set<string> := {"development", "dev", "local", "stg", "stage"}

  /** `process.env[key]`: `undefined` when the variable is not set. */
  function Lookup(vars: map<string, string>, key: string): (v: Option<string>)
    ensures v.Some? <==> key in vars
    ensures v.Some? ==> v.value == vars[key]
  {
    if key in vars then Some(vars[key]) else None
  }

  /** The `switch` of `normalizeEnv` on the variable's value. */
  function Normalize(v: Option<string>): (r: string)
    ensures r == EnvProduction || r == EnvDevelopment || r == EnvTest
    ensures r == EnvProduction <==> v.Some? && v.value in ProductionNames
    ensures r == EnvTest <==> v == Some("test")
    ensures r == EnvDevelopment <==> v.None? || (v.value !in ProductionNames && v.value != "test")
  {
    if v.None? then EnvDevelopment
    else match v.value
      case "production" => EnvProduction
      case "prd" => EnvProduction
      case "prod" => EnvProduction
      case "development" => EnvDevelopment
      case "dev" => EnvDevelopment
      case "local" => EnvDevelopment
      case "stg" => EnvDevelopment
      case "stage" => EnvDevelopment
      case "test" => EnvTest
      case _ => EnvDevelopment
  }

  /** Every spelling listed for development maps there, as does every value not listed at all;
      normalising a normalised value changes nothing. */
  lemma NormalizeStable(v: Option<string>)
    ensures v.Some? && v.value in DevelopmentNames ==> Normalize(v) == EnvDevelopment
    ensures Normalize(Some(Normalize(v))) == Normalize(v)
  {
  }

  /** `getEnv(key, default)`: the value, unless it is unset or empty (both falsy). */
  function GetEnv(vars: map<string, string>, key: string, default: string): (r: string)
    ensures key in vars && vars[key] != "" ==> r == vars[key]
    ensures key !in vars || vars[key] == "" ==> r == default
  {
    var v := Lookup(vars, key);
    if v.None? || v.value == "" then default else v.value
  }

  // ---------------------------------------------------------------------------------------
  // Splitting text

  /** The position of the first `c` in `s`, if any. */
  function IndexOf(s: string, c: char): (r: Option<nat>)
    ensures r.None? <==> c !in s
    ensures r.Some? ==> r.value < |s| && s[r.value] == c && c !in s[..r.value]
  {
    if |s| == 0 then None
    else if s[0] == c then Some(0)
    else
      var t := IndexOf(s[1..], c);
      if t.None? then None
      else
        assert s[..t.value + 1] == [s[0]] + s[1..][..t.value];
        Some(t.value + 1)
  }

  /** `s.split(c)` for a one-character separator: the pieces between the separators, so
      there is always one piece more than there are separators. */
  function Split(s: string, c: char): (pieces: seq<string>)
    ensures |pieces| >= 1
    ensures forall k :: 0 <= k < |pieces| ==> c !in pieces[k]
    decreases |s|
  {
    var i := IndexOf(s, c);
    if i.None? then [s] else [s[..i.value]] + Split(s[i.value + 1..], c)
  }

  /** The pieces glued back together with `c`. */
  function Join(pieces: seq<string>, c: char): string
    requires |pieces| >= 1
  {
    if |pieces| == 1 then pieces[0] else pieces[0] + [c] + Join(pieces[1..], c)
  }

  /** Splitting loses nothing: joining the pieces gives the text back. */
  lemma {:induction false} JoinSplit(s: string, c: char)
    ensures Join(Split(s, c), c) == s
    decreases |s|
  {
    var i := IndexOf(s, c);
    if i.Some? {
      var head, rest := s[..i.value], s[i.value + 1..];
      var pieces := Split(rest, c);
      assert Split(s, c) == [head] + pieces;
      assert ([head] + pieces)[1..] == pieces;
      JoinSplit(rest, c);
      assert s == head + [c] + rest;
    }
  }

  /** The first separator of `head + [c] + rest` is the one right after a `c`-free `head`. */
  lemma FirstSeparator(head: string, c: char, rest: string)
    requires c !in head
    ensures var s := head + [c] + rest;
      IndexOf(s, c) == Some(|head|) && s[..|head|] == head && s[|head| + 1..] == rest
  {
    var s := head + [c] + rest;
    assert s[|head|] == c;
  }

  /** Splitting a join of pieces free of `c` gives the pieces back. */
  lemma {:induction false} SplitJoin(pieces: seq<string>, c: char)
    requires |pieces| >= 1 && forall k :: 0 <= k < |pieces| ==> c !in pieces[k]
    ensures Split(Join(pieces, c), c) == pieces
    decreases |pieces|
  {
    if |pieces| > 1 {
      var rest := Join(pieces[1..], c);
      assert Join(pieces, c) == pieces[0] + [c] + rest;
      FirstSeparator(pieces[0], c, rest);
      SplitJoin(pieces[1..], c);
      assert [pieces[0]] + pieces[1..] == pieces;
    }
  }

  // ---------------------------------------------------------------------------------------
  // The line rules of `loadEnvFile`

  /** The characters `String.prototype.trim` removes that the model knows about. */
  predicate IsSpace(ch: char) {
    ch == ' ' || ch == '\t' || ch == '\n' || ch == '\r' || ch == '\U{000B}' || ch == '\U{000C}'
    || ch == '\U{00A0}' || ch == '\U{FEFF}' || ch == '\U{2028}' || ch == '\U{2029}'
  }

  /** `line.trim() === ''`. */
  predicate IsBlank(line: string) {
    forall k :: 0 <= k < |line| ==> IsSpace(line[k])
  }

  /** A line that sets a variable: not blank, not a comment, and holding an `=`. */
  predicate IsAssignment(line: string) {
    !IsBlank(line) && !(|line| > 0 && line[0] == '#') && '=' in line
  }

  /** `const [key, value] = line.split('=', 2)`: the first two pieces, so the value stops at
      a second `=` and whatever follows it is dropped. */
  function Assignment(line: string): (kv: (string, string))
    requires '=' in line
    ensures |kv.0| < |line| && line[..|kv.0|] == kv.0 && line[|kv.0|] == '=' && '=' !in kv.0
    ensures var n := |kv.0| + 1 + |kv.1|;
            n <= |line| && line[|kv.0| + 1..n] == kv.1 && '=' !in kv.1 && (n == |line| || line[n] == '=')
  {
    var i := IndexOf(line, '=').value;
    var rest := line[i + 1..];
    var j := IndexOf(rest, '=');
    if j.None? then
      assert line[i + 1..|line|] == rest;
      (line[..i], rest)
    else
      var value := rest[..j.value];
      assert line[i + 1..i + 1 + j.value] == value;
      assert line[i + 1 + j.value] == rest[j.value];
      (line[..i], value)
  }

  /** A key and a value without `=` in them read back as themselves, whatever follows a second `=`. */
  lemma AssignmentOfWritten(key: string, value: string, tail: string)
    requires '=' !in key && '=' !in value
    ensures Assignment(key + "=" + value) == (key, value)
    ensures Assignment(key + "=" + value + "=" + tail) == (key, value)
  {
    var l1 := key + "=" + value;
    var l2 := l1 + "=" + tail;
    assert l1[..|key|] == key && l1[|key|] == '=' && l1[|key| + 1..] == value;
    AssignmentOf(l1, key, value);
    assert l2[..|key|] == key && l2[|key|] == '=' && l2[|key| + 1..|l1|] == value && l2[|l1|] == '=';
    AssignmentOf(l2, key, value);
  }

  /** A line that reads `key=value`, then an `=` or its end, assigns `value` to `key`. */
  lemma AssignmentOf(line: string, key: string, value: string)
    requires '=' !in key && '=' !in value
    requires |key| + 1 + |value| <= |line| && line[..|key|] == key && line[|key|] == '='
    requires line[|key| + 1..|key| + 1 + |value|] == value
    requires |key| + 1 + |value| == |line| || line[|key| + 1 + |value|] == '='
    ensures Assignment(line) == (key, value)
  {
    var kv := Assignment(line);
    LeadingPiece(line, key, kv.0);
    var rest := line[|key| + 1..];
    assert rest[..|value|] == value;
    assert rest[..|kv.1|] == kv.1;
    LeadingPiece(rest, value, kv.1);
  }

  /** Two `=`-free prefixes of a text that each run up to an `=` or to the end are the same. */
  lemma LeadingPiece(s: string, p1: string, p2: string)
    requires |p1| <= |s| && s[..|p1|] == p1 && '=' !in p1 && (|p1| == |s| || s[|p1|] == '=')
    requires |p2| <= |s| && s[..|p2|] == p2 && '=' !in p2 && (|p2| == |s| || s[|p2|] == '=')
    ensures p1 == p2
  {
  }

  /** One line of the `forEach`: an assignment writes `process.env[key] = value`. */
  function ApplyLine(vars: map<string, string>, line: string): (r: map<string, string>)
    ensures !IsAssignment(line) ==> r == vars
    ensures IsAssignment(line) ==> var kv := Assignment(line);
      Lookup(r, kv.0) == Some(kv.1) && forall k :: k != kv.0 ==> Lookup(r, k) == Lookup(vars, k)
  {
    if IsAssignment(line) then
      var kv := Assignment(line);
      vars[kv.0 := kv.1]
    else vars
  }

  /** The lines applied first to last. */
  function ApplyLines(vars: map<string, string>, lines: seq<string>): map<string, string>
    decreases |lines|
  {
    if lines == [] then vars else ApplyLines(ApplyLine(vars, lines[0]), lines[1..])
  }

  /** The value the last assignment to `key` among `lines` gives it, if there is one. */
  function LastValue(lines: seq<string>, key: string): (v: Option<string>)
    ensures v.Some? ==> exists k :: 0 <= k < |lines| && IsAssignment(lines[k]) && Assignment(lines[k]) == (key, v.value)
    decreases |lines|
  {
    if lines == [] then None
    else
      var last := lines[|lines| - 1];
      if IsAssignment(last) && Assignment(last).0 == key then Some(Assignment(last).1)
      else LastValue(lines[..|lines| - 1], key)
  }

  /** Applying one more line after a run of lines. */
  lemma {:induction false} ApplyLinesSnoc(vars: map<string, string>, lines: seq<string>, line: string)
    ensures ApplyLines(vars, lines + [line]) == ApplyLine(ApplyLines(vars, lines), line)
    decreases |lines|
  {
    if lines != [] {
      assert (lines + [line])[1..] == lines[1..] + [line];
      ApplyLinesSnoc(ApplyLine(vars, lines[0]), lines[1..], line);
    }
  }

  /** Later lines win: after loading, a key holds the value of its last assignment, and a key
      never assigned keeps what it had (set or not). */
  lemma {:induction false} LastWriterWins(vars: map<string, string>, lines: seq<string>, key: string)
    ensures var after := ApplyLines(vars, lines);
            && (LastValue(lines, key).Some? ==> key in after && after[key] == LastValue(lines, key).value)
            && (LastValue(lines, key).None? ==> Lookup(after, key) == Lookup(vars, key))
    decreases |lines|
  {
    if lines != [] {
      var init, last := lines[..|lines| - 1], lines[|lines| - 1];
      assert lines == init + [last];
      ApplyLinesSnoc(vars, init, last);
      LastWriterWins(vars, init, key);
    }
  }

  /** The text of an env file applied to the variables. */
  function LoadedText(vars: map<string, string>, text: string): map<string, string> {
    ApplyLines(vars, Split(text, '\n'))
  }

  /** Of two lines assigning the same key, the second wins. */
  lemma LaterLineWins(vars: map<string, string>, key: string, v1: string, v2: string)
    requires '=' !in key && '=' !in v1 && '=' !in v2
    requires '\n' !in key && '\n' !in v1 && '\n' !in v2
    requires |key| == 0 || key[0] != '#'
    ensures Lookup(LoadedText(vars, key + "=" + v1 + "\n" + key + "=" + v2), key) == Some(v2)
  {
    var l1, l2 := key + "=" + v1, key + "=" + v2;
    assert l1[|key|] == '=' && l2[|key|] == '=';
    assert !IsSpace('=');
    assert key + "=" + v1 + "\n" + key + "=" + v2 == Join([l1, l2], '\n');
    SplitJoin([l1, l2], '\n');
    AssignmentOfWritten(key, v1, "");
    AssignmentOfWritten(key, v2, "");
    assert IsAssignment(l2);
    LastWriterWins(vars, [l1, l2], key);
  }

  /** A blank line, a comment or a line without `=` in front of a text sets nothing. */
  lemma SkippedLine(vars: map<string, string>, skipped: string, text: string)
    requires '\n' !in skipped && !IsAssignment(skipped)
    ensures LoadedText(vars, skipped + "\n" + text) == LoadedText(vars, text)
  {
    var s := skipped + "\n" + text;
    assert s[..|skipped|] == skipped && s[|skipped|] == '\n';
    assert IndexOf(s, '\n') == Some(|skipped|);
    assert s[|skipped| + 1..] == text;
    assert Split(s, '\n') == [skipped] + Split(text, '\n');
    assert ([skipped] + Split(text, '\n'))[1..] == Split(text, '\n');
  }

  // ---------------------------------------------------------------------------------------
  // The module state

  /** `process.env` together with the two module-level caches. */
  class Environment {
    var vars: map<string, string>
    var nodeEnvCache: map<string, string>
    var appEnvCache: map<string, string>

    /** Every cached value is one `normalizeEnv` can return. */
    ghost predicate Valid()
      reads this
    {
      && (forall k :: k in nodeEnvCache ==> nodeEnvCache[k] in {EnvProduction, EnvDevelopment, EnvTest})
      && (forall k :: k in appEnvCache ==> appEnvCache[k] in {EnvProduction, EnvDevelopment, EnvTest})
    }

    /** The process starts with `vars`; the caches start empty. */
    constructor (vars: map<string, string>)
      ensures this.vars == vars && nodeEnvCache == map[] && appEnvCache == map[] && Valid()
    {
      this.vars := vars;
      nodeEnvCache := map[];
      appEnvCache := map[];
    }

    /** `process.env[key] = value`. */
    method SetVar(key: string, value: string)
      modifies this`vars
      ensures vars == old(vars)[key := value]
    {
      vars := vars[key := value];
    }

    /** `getNodeEnv(key)`: the cached value if there is one; otherwise the normalised value,
        which is cached for later calls. */
    method GetNodeEnv(key: string) returns (r: string)
      requires Valid()
      modifies this`nodeEnvCache
      ensures Valid() && key in nodeEnvCache && r == nodeEnvCache[key]
      ensures key in old(nodeEnvCache) ==> r == old(nodeEnvCache[key]) && nodeEnvCache == old(nodeEnvCache)
      ensures key !in old(nodeEnvCache) ==> r == Normalize(Lookup(vars, key)) && nodeEnvCache == old(nodeEnvCache)[key := r]
    {
      if key in nodeEnvCache {
        return nodeEnvCache[key];
      }
      r := Normalize(Lookup(vars, key));
      nodeEnvCache := nodeEnvCache[key := r];
    }

    /** `getAppEnv(key)`: the same memoisation with its own cache. */
    method GetAppEnv(key: string) returns (r: string)
      requires Valid()
      modifies this`appEnvCache
      ensures Valid() && key in appEnvCache && r == appEnvCache[key]
      ensures key in old(appEnvCache) ==> r == old(appEnvCache[key]) && appEnvCache == old(appEnvCache)
      ensures key !in old(appEnvCache) ==> r == Normalize(Lookup(vars, key)) && appEnvCache == old(appEnvCache)[key := r]
    {
      if key in appEnvCache {
        return appEnvCache[key];
      }
      r := Normalize(Lookup(vars, key));
      appEnvCache := appEnvCache[key := r];
    }

    /** The `forEach` of `loadEnvFile` over the lines of the file's text. */
    method LoadText(text: string)
      modifies this`vars
      ensures vars == LoadedText(old(vars), text)
    {
      var lines := Split(text, '\n');
      ghost var start := vars;
      for i := 0 to |lines|
        invariant vars == ApplyLines(start, lines[..i])
      {
        var line := lines[i];
        ApplyLinesSnoc(start, lines[..i], line);
        assert lines[..i + 1] == lines[..i] + [line];
        if IsBlank(line) || (|line| > 0 && line[0] == '#') || '=' !in line {
          continue;
        }
        var kv := Assignment(line);
        vars := vars[kv.0 := kv.1];
      }
      assert lines[..|lines|] == lines;
    }

    /** `loadEnvFile(file)` with `contents` the file's text, or `None` if it does not exist: an
        empty name or a missing file changes nothing. */
    method LoadEnvFile(file: string, contents: Option<string>)
      modifies this`vars
      ensures file == "" || contents.None? ==> vars == old(vars)
      ensures file != "" && contents.Some? ==> vars == LoadedText(old(vars), contents.value)
    {
      if file == "" {
        return;
      }
      if contents.None? {
        return;
      }
      LoadText(contents.value);
    }

    /** What the module does when it is loaded: the comma-separated files named by
        `APP_ENV_FILES` (none if it is unset or empty) are loaded in order, each looked up in
        `files`. */
    method LoadConfiguredFiles(files: map<string, string>)
      modifies this`vars
      ensures var names := if GetEnv(old(vars), EnvFilesKey, "") == "" then [] else Split(old(vars)[EnvFilesKey], ',');
              vars == LoadedFiles(old(vars), names, files)
    {
      var names: seq<string> := [];
      var v := Lookup(vars, EnvFilesKey);
      if v.Some? && v.value != "" {
        names := Split(v.value, ',');
      }
      ghost var start := vars;
      for i := 0 to |names|
        invariant vars == LoadedFiles(start, names[..i], files)
      {
        LoadedFilesSnoc(start, names[..i], names[i], files);
        assert names[..i + 1] == names[..i] + [names[i]];
        LoadEnvFile(names[i], Lookup(files, names[i]));
      }
      assert names[..|names|] == names;
    }
  }

  /** The files named, loaded in order; an empty name or a missing file is skipped. */
  function LoadedFiles(vars: map<string, string>, names: seq<string>, files: map<string, string>): map<string, string>
    decreases |names|
  {
    if names == [] then vars
    else
      var next := if names[0] == "" || names[0] !in files then vars else LoadedText(vars, files[names[0]]);
      LoadedFiles(next, names[1..], files)
  }

  lemma {:induction false} LoadedFilesSnoc(vars: map<string, string>, names: seq<string>, name: string, files: map<string, string>)
    ensures LoadedFiles(vars, names + [name], files)
         == (var before := LoadedFiles(vars, names, files);
             if name == "" || name !in files then before else LoadedText(before, files[name]))
    decreases |names|
  {
    if names != [] {
      assert (names + [name])[1..] == names[1..] + [name];
      var next := if names[0] == "" || names[0] !in files then vars else LoadedText(vars, files[names[0]]);
      LoadedFilesSnoc(next, names[1..], name, files);
    }
  }
}
