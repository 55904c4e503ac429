/** The echo logger: a level filter over a fixed ranking of the eight
    syslog levels, a replaceable message formatter, and the text written to
    standard output, kept here as the sequence of emitted strings. */
module EchoLog {
  import opened Util

  /** The ranking table: 'debug' is the most verbose level, 'emergency' the least. */
  const Rankings: map<string, nat> := map[
    "debug" := 7, "info" := 6, "notice" := 5, "warning" := 4,
    "error" := 3, "critical" := 2, "alert" := 1, "emergency" := 0]

  /** The known levels from least to most verbose. */
  const Levels: seq<string> :=
    ["emergency", "alert", "critical", "error", "warning", "notice", "info", "debug"]

  /** A message's context array, as key/value pairs. */
  type Context = seq<(string, string)>

  /** `$rankings[$level] <= $rankings[$this->level]`. When the logger's own
      level is unknown its rank reads as null, and PHP compares an integer
      with null as booleans, so only rank 0 passes. */
  predicate RankPasses(rank: nat, threshold: string)
  {
    if threshold in Rankings then rank <= Rankings[threshold] else rank == 0
  }

  /** The filter of `log`: unknown message levels always pass, known ones
      pass when their rank does not exceed the logger's. */
  predicate Emits(level: string, threshold: string)
  {
    level !in Rankings || RankPasses(Rankings[level], threshold)
  }

  lemma RankingsFollowLevels()
    ensures |Levels| == 8 && Rankings.Keys == set l | l in Levels
    ensures forall i :: 0 <= i < |Levels| ==> Levels[i] in Rankings && Rankings[Levels[i]] == i
  {
  }

  /** A message whose level is not ranked is emitted whatever the threshold. */
  lemma UnrankedAlwaysEmitted(level: string, threshold: string)
    requires level !in Rankings
    ensures Emits(level, threshold)
  {
  }

  /** For a ranked message level and a ranked threshold, emission is exactly
      the rank comparison. */
  lemma RankedEmission(level: string, threshold: string)
    requires level in Rankings && threshold in Rankings
    ensures Emits(level, threshold) <==> Rankings[level] <= Rankings[threshold]
  {
  }

  /** Raising the threshold never silences a message. */
  lemma {:induction false} EmitsMonotone(level: string, t: string, t': string)
    requires Emits(level, t)
    requires t' in Rankings && (t in Rankings ==> Rankings[t] <= Rankings[t'])
    ensures Emits(level, t')
  {
  }

  /** A 'debug' logger emits every message. */
  lemma DebugEmitsEverything(level: string)
    ensures Emits(level, "debug")
  {
    if level in Rankings {
      RankingsFollowLevels();
      var i :| 0 <= i < |Levels| && Levels[i] == level;
    }
  }

  /** An 'emergency' logger emits, among the ranked levels, only 'emergency'. */
  lemma EmergencyEmitsOnlyEmergency(level: string)
    requires level in Rankings
    ensures Emits(level, "emergency") <==> level == "emergency"
  {
    RankingsFollowLevels();
    var i :| 0 <= i < |Levels| && Levels[i] == level;
  }

  /** A logger whose level is not ranked behaves like an 'emergency' logger. */
  lemma UnrankedThresholdIsEmergency(level: string, threshold: string)
    requires threshold !in Rankings
    ensures Emits(level, threshold) <==> Emits(level, "emergency")
  {
  }

  /** `strtoupper` on ASCII letters. */
  function Upper(s: string): (r: string)
    ensures |r| == |s|
    ensures forall i :: 0 <= i < |s| ==> r[i] == (if 'a' <= s[i] <= 'z' then (s[i] as int - 32) as char else s[i])
  {
    if |s| == 0 then "" else [if 'a' <= s[0] <= 'z' then (s[0] as int - 32) as char else s[0]] + Upper(s[1..])
  }

  /** The default formatter: `[date] LEVEL message`, then ` json(context)`
      when the context is not empty, then the end-of-line. The clock reading
      and the JSON encoder are parameters. */
  function DefaultFormat(level: string, message: string, context: Context,
                         now: string, json: Context -> string): (r: string)
  {
    "[" + now + "] " + Upper(level) + " " + message
      + (if |context| > 0 then " " + json(context) else "") + "\n"
  }

  lemma DefaultFormatLayout(level: string, message: string, context: Context,
                            now: string, json: Context -> string)
    ensures var r := DefaultFormat(level, message, context, now, json);
      var p := "[" + now + "] " + Upper(level) + " " + message;
      && p <= r
      && r[|p|..] == (if |context| > 0 then " " + json(context) else "") + "\n"
      && r[|r| - 1] == '\n'
      && (|context| == 0 ==> |r| == |now| + |level| + |message| + 5)
      && (|context| > 0 ==> |r| == |now| + |level| + |message| + |json(context)| + 6)
  {
  }

  /** The formatter the logger holds: the built-in one or a caller's callable. */
  datatype Formatter = Default | Custom(f: (string, string, Context) -> string)

  function Render(formatter: Formatter, level: string, message: string, context: Context,
                  now: string, json: Context -> string): string
  {
    match formatter
    case Default => DefaultFormat(level, message, context, now, json)
    case Custom(f) => f(level, message, context)
  }

  class Logger {
    var level: string
    var formatter: Formatter
    /** Everything written to standard output so far. */
    var output: seq<string>

    constructor (level: string)
      ensures this.level == level && formatter == Default && output == []
    {
      this.level := level;
      formatter := Default;
      output := [];
    }

    /** Emits one formatted message when the filter lets it through. */
    method Log(level: string, message: string, context: Context,
               now: string, json: Context -> string)
      modifies this`output
      ensures Emits(level, this.level) ==>
        output == old(output) + [Render(formatter, level, message, context, now, json)]
      ensures !Emits(level, this.level) ==> output == old(output)
    {
      if level !in Rankings || RankPasses(Rankings[level], this.level) {
        output := output + [Render(formatter, level, message, context, now, json)];
      }
    }

    method SetLevel(level: string)
      modifies this`level
      ensures this.level == level
      ensures formatter == old(formatter) && output == old(output)
    {
      this.level := level;
    }

    method SetMessageFormatter(formatter: Formatter)
      modifies this`formatter
      ensures this.formatter == formatter
      ensures level == old(level) && output == old(output)
    {
      this.formatter := formatter;
    }
  }
}
