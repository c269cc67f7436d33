/**
 * The simulator's log backend (matrix/log/format.cpp, env.cpp,
 * backend.cpp): every event is kept in memory and, when a log file is
 * attached, also written to it as one formatted line. Minimum levels per
 * component come from the `WHIRL_LOG_LEVELS` environment variable, written
 * `Component=Level,Component=Level`.
 *
 * Levels are kept by their names: the logging library's conversions between
 * levels and strings are not part of this model.
 */
module Logging {
  import opened Wrappers
  import opened Strings

  type LevelName = string

  const DefaultMinLevel: LevelName := "Info"

  /** A captured log event. */
  datatype Event = Event(
    time: nat,
    step: nat,
    level: LevelName,
    actor: string,
    component: string,
    traceId: Option<string>,
    message: string)

  /** At most `width` characters: the whole string if it is shorter,
      otherwise its first `width` characters. */
  function LimitWidth(str: string, width: nat): (r: string)
    ensures |r| == if |str| < width then |str| else width
    ensures r == str[..|r|]
  {
    if |str| < width then str else str[..width]
  }

  /** A bracketed column: the text cut to `width` and padded on the right,
      so it is exactly `width` characters wide. */
  function Column(str: string, width: nat): (r: string)
    ensures |r| == width + 2
  {
    "[" + PadRight(LimitWidth(str, width), width) + "]"
  }

  /** A column shows the start of its text, then spaces, between brackets. */
  lemma ColumnShowsPrefix(str: string, width: nat)
    ensures var shown := LimitWidth(str, width); var r := Column(str, width);
      r[0] == '[' && r[width + 1] == ']' && r[1..1 + |shown|] == shown &&
      forall i :: 1 + |shown| <= i <= width ==> r[i] == ' '
  {
    var shown := LimitWidth(str, width);
    var padded := PadRight(shown, width);
    var r := Column(str, width);
    assert r[1..1 + |shown|] == padded[..|shown|];
    forall i | 1 + |shown| <= i <= width
      ensures r[i] == ' '
    {
      assert r[i] == padded[i - 1];
    }
  }

  /** The line header: global time and step number. */
  function Stamp(e: Event): string
  {
    "[T " + NatToString(e.time) + " | " + NatToString(e.step) + "]"
  }

  /** The stamp and the level, actor and component columns (7, 15 and 12
      wide), separated by tabs. */
  function Columns(e: Event): (r: string)
    ensures |r| == |Stamp(e)| + 3 + 9 + 17 + 14
    ensures r[..3] == "[T "
  {
    var stamp := Stamp(e);
    assert stamp[..3] == "[T ";
    var level := Column(e.level, 7);
    var actor := Column(e.actor, 15);
    var component := Column(e.component, 12);
    var r := stamp + "\t" + level + "\t" + actor + "\t" + component;
    assert r[..3] == stamp[..3];
    r
  }

  /** The bracketed trace id, after a tab, when there is one. */
  function TraceColumn(e: Event): (r: string)
    ensures r == [] <==> e.traceId.None?
  {
    if e.traceId.Some? then "\t" + "[" + e.traceId.value + "]" else ""
  }

  /** What follows the columns: the trace id, a tab and the message. */
  function Tail(e: Event): (r: string)
    ensures |r| == |TraceColumn(e)| + 1 + |e.message|
    ensures r[|r| - |e.message| - 1..] == "\t" + e.message
  {
    var t := "\t" + e.message;
    var r := TraceColumn(e) + t;
    assert r[|TraceColumn(e)|..] == t;
    r
  }

  /** `FormatLogEventTo`: the columns, the trace id when there is one, then
      the message after a tab. */
  function FormatLogEvent(e: Event): (line: string)
    ensures |line| == |Columns(e)| + |TraceColumn(e)| + 1 + |e.message|
    ensures line[..|Columns(e)|] == Columns(e)
    ensures line[..3] == "[T "
    ensures line[|line| - |e.message| - 1..] == "\t" + e.message
  {
    var fixed := Columns(e);
    var tail := Tail(e);
    ConcatParts(fixed, tail, 3, |e.message| + 1);
    fixed + tail
  }

  /** A concatenation starts with its first part and ends with its second:
      the first `k` elements of `a` and the last `m` of `b` are still there. */
  lemma ConcatParts(a: string, b: string, k: nat, m: nat)
    requires k <= |a| && m <= |b|
    ensures (a + b)[..|a|] == a && (a + b)[..k] == a[..k]
    ensures (a + b)[|a| + |b| - m..] == b[|b| - m..]
  {
    assert (a + b)[..k] == a[..k];
  }

  /** The trace-id column is there exactly when the event has a trace id:
      the line is longer than columns, tab and message by exactly the
      column's width. */
  lemma TraceColumnIffTraceId(e: Event)
    ensures e.traceId.Some? <==> |FormatLogEvent(e)| > |Columns(e)| + 1 + |e.message|
    ensures e.traceId.Some? ==> |FormatLogEvent(e)| == |Columns(e)| + |e.traceId.value| + 3 + 1 + |e.message|
  {
  }

  /** The pieces of `s` between occurrences of `sep`. */
  function Split(s: string, sep: char): (parts: seq<string>)
    ensures |parts| >= 1
    ensures forall i :: 0 <= i < |parts| ==> sep !in parts[i]
  {
    if s == [] then [[]]
    else
      var rest := Split(s[1..], sep);
      if s[0] == sep then [[]] + rest
      else [[s[0]] + rest[0]] + rest[1..]
  }

  function Join(parts: seq<string>, sep: char): string
    requires |parts| >= 1
  {
    if |parts| == 1 then parts[0] else parts[0] + [sep] + Join(parts[1..], sep)
  }

  /** Joining the pieces back with the separator gives the original. */
  lemma {:induction false} JoinSplit(s: string, sep: char)
    ensures Join(Split(s, sep), sep) == s
  {
    if s != [] {
      var rest := Split(s[1..], sep);
      JoinSplit(s[1..], sep);
      if s[0] == sep {
        assert Split(s, sep)[1..] == rest;
        assert s == [s[0]] + s[1..];
      } else {
        var parts := Split(s, sep);
        if |rest| == 1 {
          assert parts == [[s[0]] + rest[0]];
        } else {
          assert parts[1..] == rest[1..];
          assert Join(rest, sep) == rest[0] + [sep] + Join(rest[1..], sep);
        }
      }
    }
  }

  /** Why a level specification was refused: a component that is not
      exactly `name=level`. */
  datatype LevelsError = InvalidFormat(component: string)

  /** The levels map after the given components, in order; an existing entry
      is never overwritten, so the first occurrence of a component wins. */
  function LevelsOf(components: seq<string>): Result<map<string, LevelName>, LevelsError>
    decreases |components|
  {
    if components == [] then Success(map[])
    else
      match LevelsOf(components[..|components| - 1])
      case Failure(e) => Failure(e)
      case Success(levels) =>
        var last := components[|components| - 1];
        var parts := Split(last, '=');
        if |parts| != 2 then Failure(InvalidFormat(last))
        else if parts[0] in levels then Success(levels)
        else Success(levels[parts[0] := parts[1]])
  }

  predicate WellFormedComponent(c: string)
  {
    |Split(c, '=')| == 2
  }

  /** Parsing fails exactly when some component is not `name=level`. */
  lemma {:induction false} LevelsOfFailsIff(components: seq<string>)
    ensures LevelsOf(components).Failure? <==> exists i :: 0 <= i < |components| && !WellFormedComponent(components[i])
    decreases |components|
  {
    if components != [] {
      var init := components[..|components| - 1];
      LevelsOfFailsIff(init);
      if exists i :: 0 <= i < |init| && !WellFormedComponent(init[i]) {
        var i :| 0 <= i < |init| && !WellFormedComponent(init[i]);
        assert components[i] == init[i];
      }
      if exists i :: 0 <= i < |components| && !WellFormedComponent(components[i]) {
        var i :| 0 <= i < |components| && !WellFormedComponent(components[i]);
        if i < |init| {
          assert init[i] == components[i];
        }
      }
    }
  }

  /** The name given by the first component that mentions it decides its
      level; later components for the same name are ignored. */
  lemma {:induction false} FirstOccurrenceWins(components: seq<string>, i: nat)
    requires LevelsOf(components).Success?
    requires i < |components|
    requires forall j :: 0 <= j < i ==> Split(components[j], '=')[0] != Split(components[i], '=')[0]
    ensures |Split(components[i], '=')| == 2
    ensures Split(components[i], '=')[0] in LevelsOf(components).value
    ensures var parts := Split(components[i], '='); LevelsOf(components).value[parts[0]] == parts[1]
    decreases |components|
  {
    var init := components[..|components| - 1];
    var parts := Split(components[i], '=');
    if i == |components| - 1 {
      LevelsOfFailsIff(init);
      assert parts[0] !in LevelsOf(init).value by {
        LevelsKeys(init, parts[0]);
        forall j | 0 <= j < |init|
          ensures Split(init[j], '=')[0] != parts[0]
        {
          assert init[j] == components[j];
        }
      }
    } else {
      assert init[i] == components[i];
      assert LevelsOf(init).Success?;
      FirstOccurrenceWins(init, i);
      var last := components[|components| - 1];
      var lparts := Split(last, '=');
      assert LevelsOf(components).value == if lparts[0] in LevelsOf(init).value then LevelsOf(init).value
        else LevelsOf(init).value[lparts[0] := lparts[1]];
    }
  }

  /** Every name in the map comes from some component. */
  lemma {:induction false} LevelsKeys(components: seq<string>, name: string)
    requires LevelsOf(components).Success?
    ensures name in LevelsOf(components).value ==>
      exists j :: 0 <= j < |components| && Split(components[j], '=')[0] == name
    decreases |components|
  {
    if components != [] {
      var init := components[..|components| - 1];
      LevelsKeys(init, name);
      if name in LevelsOf(init).value {
        var j :| 0 <= j < |init| && Split(init[j], '=')[0] == name;
        assert components[j] == init[j];
      }
    }
  }

  /** Once a prefix of the components fails, the whole list fails with the
      same error. */
  lemma {:induction false} LevelsOfFailureSticks(components: seq<string>, k: nat)
    requires k <= |components| && LevelsOf(components[..k]).Failure?
    ensures LevelsOf(components) == LevelsOf(components[..k])
    decreases |components| - k
  {
    if k < |components| {
      var next := components[..k + 1];
      assert next[..k] == components[..k];
      assert LevelsOf(next) == LevelsOf(components[..k]);
      LevelsOfFailureSticks(components, k + 1);
    } else {
      assert components[..k] == components;
    }
  }

  /** `ParseLogLevels`: splits the specification on ',' and each component
      on '='; a component that does not give exactly two parts is refused. */
  method ParseLogLevels(levelsStr: string) returns (r: Result<map<string, LevelName>, LevelsError>)
    ensures r == LevelsOf(Split(levelsStr, ','))
  {
    var components := Split(levelsStr, ',');
    var levels: map<string, LevelName> := map[];
    var i := 0;
    while i < |components|
      invariant 0 <= i <= |components|
      invariant LevelsOf(components[..i]) == Success(levels)
    {
      assert components[..i + 1][..i] == components[..i];
      var parts := Split(components[i], '=');
      if |parts| != 2 {
        assert LevelsOf(components[..i + 1]) == Failure(InvalidFormat(components[i]));
        LevelsOfFailureSticks(components, i + 1);
        return Failure(InvalidFormat(components[i]));
      }
      if parts[0] !in levels {
        levels := levels[parts[0] := parts[1]];
      }
      i := i + 1;
    }
    assert components[..i] == components;
    r := Success(levels);
  }

  /** An unset variable, `None`, gives no levels at all. */
  method GetLogLevelsFromEnv(env: Option<string>) returns (r: Result<map<string, LevelName>, LevelsError>)
    ensures env.None? ==> r == Success(map[])
    ensures env.Some? ==> r == LevelsOf(Split(env.value, ','))
  {
    if env.None? {
      return Success(map[]);
    }
    r := ParseLogLevels(env.value);
  }

  class LogBackend {
    var levels: map<string, LevelName>
    var events: seq<Event>
    var filePath: Option<string>   // the attached file, opened for appending
    var file: Option<string>       // what this backend appended to it

    /** Reads the levels from the environment, once. A malformed value
        aborts the simulator. */
    constructor (env: Option<string>)
      requires env.Some? ==> LevelsOf(Split(env.value, ',')).Success?
      ensures levels == if env.None? then map[] else LevelsOf(Split(env.value, ',')).value
      ensures events == [] && file == None && filePath == None
    {
      var r := GetLogLevelsFromEnv(env);
      levels := r.value;
      events := [];
      file := None;
      filePath := None;
    }

    /** The configured minimum level of `component`, Info when it has none. */
    function GetMinLevelFor(component: string): (level: LevelName)
      reads this
      ensures component in levels ==> level == levels[component]
      ensures component !in levels ==> level == DefaultMinLevel
    {
      if component in levels then levels[component] else DefaultMinLevel
    }

    /** Keeps the event and, when a file is attached, writes its line. */
    method Write(e: Event)
      modifies this
      ensures events == old(events) + [e] && levels == old(levels) && filePath == old(filePath)
      ensures old(file).None? ==> file == None
      ensures old(file).Some? ==> file == Some(old(file).value + FormatLogEvent(e) + "\n")
    {
      events := events + [e];
      if file.Some? {
        file := Some(file.value + FormatLogEvent(e) + "\n");
      }
    }

    /** Attaches the file at `path`, opened for appending so that what it
        held is kept, and writes a separator line of 80 dashes. The model
        keeps only what this backend appends. */
    method AppendToFile(path: string)
      modifies this
      ensures filePath == Some(path)
      ensures file == Some(Repeat('-', 80) + "\n")
      ensures events == old(events) && levels == old(levels)
    {
      filePath := Some(path);
      file := Some(Repeat('-', 80) + "\n");
    }
  }

  /** Without `WHIRL_LOG_LEVELS` every component logs from Info up. */
  lemma DefaultLevelWithoutEnv(b: LogBackend, component: string)
    requires b.levels == map[]
    ensures b.GetMinLevelFor(component) == DefaultMinLevel
  {
  }
}
