/** The monitor's signal in plain figures, off the turn's history: core/confidence.py. */
module ConfidenceReads {
  import opened Text
  import opened Confidence
  import opened ConfidenceLaws

  // ---- what is seen of a result ----

  const MARKERS := ["missing required argument", "invalid json arguments", "empty_args", "unknown tool",
    "unexpected argument", "args_json_decode_error", "missing_required_args"]

  predicate Within(part: string, s: string) {
    exists i :: 0 <= i <= |s| && part <= s[i..]
  }

  lemma {:induction false} ContainsIsWithin(s: string, part: string)
    ensures Contains(s, part) <==> Within(part, s)
  {
    if part <= s {
      assert s[0..] == s;
    } else if s != "" {
      ContainsIsWithin(s[1..], part);
      assert forall i :: 0 <= i < |s| ==> s[1..][i..] == s[i + 1..];
      if Within(part, s) {
        var i :| 0 <= i <= |s| && part <= s[i..];
        assert s[0..] == s && i > 0 && s[1..][i - 1..] == s[i..];
      }
      if Within(part, s[1..]) {
        var i :| 0 <= i <= |s[1..]| && part <= s[1..][i..];
        assert part <= s[i + 1..];
      }
    } else {
      assert s[0..] == s;
    }
  }

  /** A result is an error or not as it is handed in; a schema error holds one of the markers in the
      first 400 characters, in any case; an empty one is no error and trimmed shorter than 20; and a
      repetition is neither and was seen before. */
  lemma {:induction false} SampleReads(log: seq<Event>, text: string, isError: bool)
    ensures var s := SampleOf(log, text, isError);
      var low := Lower(if |text| > 400 then text[..400] else text);
      && s.error == isError
      && (s.schema <==> isError && exists k :: 0 <= k < |MARKERS| && Within(MARKERS[k], low))
      && (s.empty <==> !isError && |Strip(text)| < 20)
      && (s.dup <==> !isError && |Strip(text)| >= 20 && exists i :: 0 <= i < |log| && log[i].Result? && log[i].text == text)
  {
    var low := Lower(if |text| > 400 then text[..400] else text);
    forall m | m in MARKERS ensures Contains(low, m) <==> Within(m, low) {
      ContainsIsWithin(low, m);
    }
    if text in Seen(log) {
      var e :| e in log && e.Result? && e.text == text;
      var i :| 0 <= i < |log| && log[i] == e;
    }
    assert MARKERS == SCHEMA_ERROR_MARKERS;
    assert forall k :: 0 <= k < |MARKERS| ==> MARKERS[k] in MARKERS;
    if exists m :: m in SCHEMA_ERROR_MARKERS && Contains(low, m) {
      var m :| m in SCHEMA_ERROR_MARKERS && Contains(low, m);
      var k :| 0 <= k < |MARKERS| && MARKERS[k] == m;
    }
  }

  // ---- the window ----

  /** The last samples, as many as the window holds, and two at least. */
  function Recent(c: Settings, log: seq<Event>): seq<Sample> {
    var all := Samples(log);
    var w := if c.window >= 2 then c.window else 2;
    if |all| <= w then all else all[|all| - w..]
  }

  function Tally(samples: seq<Sample>, kind: Sample -> bool): nat {
    if samples == [] then 0 else (if kind(samples[0]) then 1 else 0) + Tally(samples[1..], kind)
  }

  lemma {:induction false} CountIsTally(samples: seq<Sample>)
    ensures Count(Errors(samples)) == Tally(samples, (s: Sample) => s.error)
    ensures Count(Schemas(samples)) == Tally(samples, (s: Sample) => s.schema)
    ensures Count(Nulls(samples)) == Tally(samples, (s: Sample) => s.empty)
    ensures Count(Dups(samples)) == Tally(samples, (s: Sample) => s.dup)
  {
    if samples != [] {
      CountIsTally(samples[1..]);
      assert Errors(samples)[1..] == Errors(samples[1..]) && Schemas(samples)[1..] == Schemas(samples[1..]);
      assert Nulls(samples)[1..] == Nulls(samples[1..]) && Dups(samples)[1..] == Dups(samples[1..]);
    }
  }

  lemma {:induction false} WindowIsRecent(c: Settings, log: seq<Event>)
    ensures var s, w, r := Samples(log), Window(c), Recent(c, log);
      && Last(Errors(s), w) == Errors(r) && Last(Schemas(s), w) == Schemas(r)
      && Last(Nulls(s), w) == Nulls(r) && Last(Dups(s), w) == Dups(r)
  {
    LastOfEach(Samples(log), Window(c));
  }

  // ---- the signal ----

  /** A threshold is never below a millionth. */
  function AtLeastMillionth(t: real): real {
    if t > 0.000001 then t else 0.000001
  }

  lemma {:induction false} RatesOf(c: Settings, errors: seq<bool>, schemas: seq<bool>, nulls: seq<bool>,
                                   dups: seq<bool>,
                                   calls: seq<nat>, tokens: seq<nat>, since: nat)
    ensures var g, n := SignalOf(c, errors, schemas, nulls, dups, calls, tokens, since), |errors|;
      && g.errorRate == (if n == 0 then 0.0 else Rate(Count(errors), n))
      && g.nullRate == (if n == 0 then 0.0 else Rate(Count(nulls), n))
      && g.dupRate == (if n == 0 then 0.0 else Rate(Count(dups), n))
      && g.schemaShare == (if Count(errors) == 0 then 0.0 else Rate(Count(schemas), Count(errors)))
      && g.callRate == Mean(calls) && g.tokenRate == Mean(tokens)
  {
  }

  /** The rates are shares of the recent results; the schema share is of the recent errors. */
  lemma {:induction false} RatesRead(c: Settings, log: seq<Event>)
    ensures var g, r := SignalAfter(c, log), Recent(c, log);
      var errors := Tally(r, (s: Sample) => s.error);
      && Share(g.errorRate, errors, |r|) && Share(g.nullRate, Tally(r, (s: Sample) => s.empty), |r|)
      && Share(g.dupRate, Tally(r, (s: Sample) => s.dup), |r|)
      && Share(g.schemaShare, if errors == 0 then 0 else Tally(r, (s: Sample) => s.schema), errors)
  {
    var s, w, r, it := Samples(log), Window(c), Recent(c, log), Iterations(log);
    WindowIsRecent(c, log);
    CountIsTally(r);
    RatesOf(c, Last(Errors(s), w), Last(Schemas(s), w), Last(Nulls(s), w), Last(Dups(s), w),
            Last(Calls(it), w), Last(Tokens(it), w), Since(log));
    RateShares();
  }

  /** So many of so many; nothing of nothing. */
  predicate Share(x: real, n: nat, of: nat) {
    x * of as real == n as real && (of == 0 ==> x == 0.0)
  }

  lemma {:induction false} RateShares()
    ensures forall n: nat, of: nat :: of > 0 ==> Share(Rate(n, of), n, of)
  {
    forall n: nat, of: nat | of > 0 ensures Share(Rate(n, of), n, of) {
      Shares(n, of);
    }
  }

  lemma {:induction false} Shares(n: nat, of: nat)
    requires of > 0
    ensures Rate(n, of) * of as real == n as real
  {
  }

  /** Half a point is lost per rate that reaches its threshold, for the worst of the three alone. */
  predicate Scored(c: Settings, g: Signal) {
    var a, b, d := g.errorRate / AtLeastMillionth(c.errorThreshold), g.nullRate / AtLeastMillionth(c.nullThreshold),
                   g.dupRate / AtLeastMillionth(c.dupThreshold);
    && g.score >= 0.0 && (g.score == 0.0 || g.score == 1.0 - a / 2.0 || g.score == 1.0 - b / 2.0 || g.score == 1.0 - d / 2.0)
    && g.score >= 1.0 - a / 2.0 - b / 2.0 - d / 2.0
    && (g.score == 0.0 || (g.score <= 1.0 - a / 2.0 && g.score <= 1.0 - b / 2.0 && g.score <= 1.0 - d / 2.0))
    && (a < 2.0 && b < 2.0 && d < 2.0 ==> g.score > 0.0)
  }

  lemma {:induction false} ScoreOf(c: Settings, g: Signal, worst: real)
    requires g.errorRate >= 0.0 && g.nullRate >= 0.0 && g.dupRate >= 0.0
    requires worst == Max(Max(g.errorRate / Clamped(c.errorThreshold), g.nullRate / Clamped(c.nullThreshold)),
                          g.dupRate / Clamped(c.dupThreshold))
    requires g.score == Max(0.0, 1.0 - worst * 0.5)
    ensures Scored(c, g)
  {
    Nonnegative(g.errorRate, AtLeastMillionth(c.errorThreshold));
    Nonnegative(g.nullRate, AtLeastMillionth(c.nullThreshold));
    Nonnegative(g.dupRate, AtLeastMillionth(c.dupThreshold));
  }

  lemma {:induction false} Worst(c: Settings, errors: seq<bool>, schemas: seq<bool>, nulls: seq<bool>,
                                 dups: seq<bool>,
                                 calls: seq<nat>, tokens: seq<nat>, since: nat) returns (worst: real)
    ensures var g := SignalOf(c, errors, schemas, nulls, dups, calls, tokens, since);
      && worst == Max(Max(g.errorRate / Clamped(c.errorThreshold), g.nullRate / Clamped(c.nullThreshold)),
                      g.dupRate / Clamped(c.dupThreshold))
      && g.score == Max(0.0, 1.0 - worst * 0.5)
  {
    var g := SignalOf(c, errors, schemas, nulls, dups, calls, tokens, since);
    worst := Max(Max(g.errorRate / Clamped(c.errorThreshold), g.nullRate / Clamped(c.nullThreshold)),
                 g.dupRate / Clamped(c.dupThreshold));
    if errors == [] {
      assert worst == 0.0;
    }
  }

  lemma {:induction false} ScoreReads(c: Settings, log: seq<Event>)
    ensures Scored(c, SignalAfter(c, log))
  {
    var s, w, it := Samples(log), Window(c), Iterations(log);
    var worst := Worst(c, Last(Errors(s), w), Last(Schemas(s), w), Last(Nulls(s), w), Last(Dups(s), w),
                       Last(Calls(it), w), Last(Tokens(it), w), Since(log));
    RatesAreShares(c, log);
    ScoreOf(c, SignalAfter(c, log), worst);
  }

  lemma {:induction false} RatesAreShares(c: Settings, log: seq<Event>)
    ensures var g := SignalAfter(c, log); g.errorRate >= 0.0 && g.nullRate >= 0.0 && g.dupRate >= 0.0
  {
    RatesRead(c, log);
    var g, r := SignalAfter(c, log), Recent(c, log);
    if r != [] {
      ShareIsPositive(g.errorRate, Tally(r, (s: Sample) => s.error), |r|);
      ShareIsPositive(g.nullRate, Tally(r, (s: Sample) => s.empty), |r|);
      ShareIsPositive(g.dupRate, Tally(r, (s: Sample) => s.dup), |r|);
    }
  }

  lemma {:induction false} ShareIsPositive(x: real, n: nat, of: nat)
    requires Share(x, n, of)
    ensures x >= 0.0
  {
  }

  lemma {:induction false} Nonnegative(x: real, t: real)
    requires x >= 0.0 && t > 0.0
    ensures x / t >= 0.0
  {
  }

  /** It fires, once cooled down, when enough results are in and the score is too low; a sensitive one
      also at the first schema error. Errors count as schema-bound when half of them are schema errors
      and more than three in ten results are errors, or at the first one where it is sensitive. */
  lemma {:induction false} TriggerReads(c: Settings, log: seq<Event>)
    ensures var g, r := SignalAfter(c, log), Recent(c, log);
      var early := c.schemaSensitive && g.schemaShare > 0.0;
      && (g.triggered <==>
            Since(log) >= c.injectCooldown &&
            (early || (|r| >= 2 && 2 * |r| + 1 >= c.window && g.score < c.scoreThreshold)))
      && (g.schemaBound <==> early || (g.schemaShare >= 0.5 && g.errorRate > 0.3))
  {
    WindowIsRecent(c, log);
  }

  // ---- time and cost ----

  /** How many iterations have ended since the last intervention; before the first, 999 more. */
  lemma {:induction false} SinceReads(log: seq<Event>, rest: nat)
    requires rest <= |log| && forall i :: |log| - rest <= i < |log| ==> !log[i].Acknowledge?
    ensures Since(log) == Since(log[..|log| - rest]) + TicksIn(log, rest)
    ensures rest < |log| && log[|log| - rest - 1].Acknowledge? ==> Since(log) == TicksIn(log, rest)
    ensures rest == |log| ==> Since(log) == 999 + TicksIn(log, rest)
  {
    if rest > 0 {
      var n := |log| - 1;
      SinceReads(log[..n], rest - 1);
      assert log[..n][..n - (rest - 1)] == log[..|log| - rest];
    } else {
      assert log[..|log|] == log;
    }
  }

  /** Iterations that ended among the last events. */
  function TicksIn(log: seq<Event>, rest: nat): nat
    requires rest <= |log|
  {
    if rest == 0 then 0
    else (if log[|log| - 1].Tick? then 1 else 0) + TicksIn(log[..|log| - 1], rest - 1)
  }

  /** The iteration under way has a call per result since the last one ended, and a token per four
      characters of each. */
  lemma {:induction false} OpenReads(log: seq<Event>, text: string, isError: bool)
    ensures Open([]) == Iteration(0, 0) && Open(log + [Tick]) == Iteration(0, 0) && Open(log + [Acknowledge]) == Open(log)
    ensures var was, next := Open(log), Open(log + [Result(text, isError)]);
      next.calls == was.calls + 1 && 4 * next.tokens <= 4 * was.tokens + |text| < 4 * next.tokens + 4
  {
    ResultStep(log, text, isError);
    TickStep(log);
    AcknowledgeStep(log);
  }

  function Total(s: seq<nat>): nat {
    if s == [] then 0 else Total(s[..|s| - 1]) + s[|s| - 1]
  }

  lemma {:induction false} SumIsTotal(s: seq<nat>)
    ensures Sum(s) == Total(s)
  {
    if s != [] {
      SumIsTotal(s[1..]);
      TotalFromFront(s);
    }
  }

  lemma {:induction false} TotalFromFront(s: seq<nat>)
    requires s != []
    ensures Total(s) == s[0] + Total(s[1..])
  {
    var n := |s| - 1;
    if n == 0 {
      assert s[..0] == [] && s[1..] == [];
    } else {
      TotalFromFront(s[..n]);
      assert s[..n][1..] == s[1..][..n - 1];
    }
  }

  /** Calls and tokens per iteration are means over the recent iterations that ended. */
  lemma {:induction false} CostReads(c: Settings, log: seq<Event>)
    ensures var g, recent := SignalAfter(c, log), RecentIterations(c, log);
      Share(g.callRate, Total(Calls(recent)), |recent|) && Share(g.tokenRate, Total(Tokens(recent)), |recent|)
  {
    var s, it, w, recent := Samples(log), Iterations(log), Window(c), RecentIterations(c, log);
    assert Last(Calls(it), w) == Calls(recent) && Last(Tokens(it), w) == Tokens(recent);
    RatesOf(c, Last(Errors(s), w), Last(Schemas(s), w), Last(Nulls(s), w), Last(Dups(s), w),
            Last(Calls(it), w), Last(Tokens(it), w), Since(log));
    MeanIsShare(Calls(recent));
    MeanIsShare(Tokens(recent));
  }

  function RecentIterations(c: Settings, log: seq<Event>): seq<Iteration> {
    var all := Iterations(log);
    var w := if c.window >= 2 then c.window else 2;
    if |all| <= w then all else all[|all| - w..]
  }

  lemma {:induction false} MeanIsShare(s: seq<nat>)
    ensures Share(Mean(s), Total(s), |s|)
  {
    SumIsTotal(s);
    if s != [] {
      Shares(Sum(s), |s|);
    }
  }
}
