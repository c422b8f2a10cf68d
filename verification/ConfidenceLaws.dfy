/** What the monitor's signal can be, and how often it fires: core/confidence.py. */
module ConfidenceLaws {
  import opened Text
  import opened Confidence
  import Budget = ContextBudget

  /** A result is at most one of an error, empty, and a repetition; only errors are schema errors. */
  predicate Exclusive(x: Sample) {
    !(x.error && x.empty) && !(x.error && x.dup) && !(x.empty && x.dup) && (x.schema ==> x.error)
  }

  lemma {:induction false} SamplesExclusive(log: seq<Event>)
    ensures forall x :: x in Samples(log) ==> Exclusive(x)
  {
    if log != [] {
      SamplesExclusive(log[..|log| - 1]);
    }
  }

  lemma {:induction false} CountsOfExclusive(s: seq<Sample>)
    requires forall x :: x in s ==> Exclusive(x)
    ensures Count(Errors(s)) + Count(Nulls(s)) + Count(Dups(s)) <= |s|
    ensures Count(Schemas(s)) <= Count(Errors(s))
  {
    if s != [] {
      assert s[0] in s && forall x :: x in s[1..] ==> x in s;
      CountsOfExclusive(s[1..]);
      assert Errors(s)[1..] == Errors(s[1..]) && Nulls(s)[1..] == Nulls(s[1..]);
      assert Dups(s)[1..] == Dups(s[1..]) && Schemas(s)[1..] == Schemas(s[1..]);
    }
  }

  lemma {:induction false} LastOfEach(s: seq<Sample>, w: nat)
    ensures Last(Errors(s), w) == Errors(Last(s, w))
    ensures Last(Schemas(s), w) == Schemas(Last(s, w))
    ensures Last(Nulls(s), w) == Nulls(Last(s, w))
    ensures Last(Dups(s), w) == Dups(Last(s, w))
  {
  }

  /** What the four lists hold comes from one stretch of the history. */
  lemma {:induction false} WindowCounts(log: seq<Event>, w: nat)
    ensures var s := Samples(log);
      var e, z := Last(Errors(s), w), Last(Schemas(s), w);
      var n, d := Last(Nulls(s), w), Last(Dups(s), w);
      Count(e) + Count(n) + Count(d) <= |e| && Count(z) <= Count(e)
  {
    var s := Samples(log);
    SamplesExclusive(log);
    LastOfEach(s, w);
    assert forall x :: x in Last(s, w) ==> x in s;
    CountsOfExclusive(Last(s, w));
  }

  lemma {:induction false} QuotientSum(x: real, y: real, z: real, r: real)
    requires r > 0.0
    ensures x / r + y / r + z / r == (x + y + z) / r
  {
  }

  lemma {:induction false} Fraction(x: real, r: real)
    requires r > 0.0 && 0.0 <= x <= r
    ensures 0.0 <= x / r <= 1.0
  {
  }

  lemma {:induction false} RateBounds(a: nat, b: nat, c: nat, n: nat)
    requires n > 0 && a + b + c <= n
    ensures 0.0 <= Rate(a, n) && 0.0 <= Rate(b, n) && 0.0 <= Rate(c, n)
    ensures Rate(a, n) + Rate(b, n) + Rate(c, n) <= 1.0
  {
    QuotientSum(a as real, b as real, c as real, n as real);
    Fraction(a as real + b as real + c as real, n as real);
    Fraction(a as real, n as real);
    Fraction(b as real, n as real);
    Fraction(c as real, n as real);
  }

  /** In every state: the three rates are fractions summing to at most 1, so the waste rate is
      their plain sum without the cap; the score and the schema share lie between 0 and 1. */
  lemma {:induction false} SignalBounds(c: Settings, log: seq<Event>)
    ensures var g := SignalAfter(c, log);
      && g.errorRate >= 0.0 && g.nullRate >= 0.0 && g.dupRate >= 0.0
      && g.errorRate + g.nullRate + g.dupRate <= 1.0
      && WasteRate(g) == g.nullRate + g.dupRate <= 1.0 - g.errorRate
      && 0.0 <= g.score <= 1.0 && 0.0 <= g.schemaShare <= 1.0
  {
    var s, w := Samples(log), Window(c);
    var e, z := Last(Errors(s), w), Last(Schemas(s), w);
    WindowCounts(log, w);
    if |e| > 0 {
      var a, b, d := Count(e), Count(Last(Nulls(s), w)), Count(Last(Dups(s), w));
      RateBounds(a, b, d, |e|);
      if a > 0 {
        RateBounds(Count(z), 0, 0, a);
      }
      Quotient(Rate(a, |e|), c.errorThreshold);
    }
  }

  lemma {:induction false} Quotient(rate: real, threshold: real)
    requires rate >= 0.0
    ensures rate / Clamped(threshold) >= 0.0
  {
  }

  /** A result is counted as a repetition however long ago its text was seen, and whether that was
      an error or not: what left the window is not forgotten. */
  lemma {:induction false} RepeatedHoweverLongAgo(c: Settings, before: seq<Event>, isError: bool,
                                                  since: seq<Event>, text: string)
    requires |Strip(text)| >= NULL_RESULT_CHARS
    ensures var log := before + [Result(text, isError)] + since + [Result(text, false)];
      var dups := Last(Dups(Samples(log)), Window(c));
      dups != [] && dups[|dups| - 1]
  {
    var log := before + [Result(text, isError)] + since;
    assert log[|before|] == Result(text, isError) && log[|before|] in log;
    assert text in Seen(log);
    ResultStep(log, text, false);
  }

  /** What was not seen before in the turn is no repetition, whatever the window holds. */
  lemma {:induction false} FirstSightIsNoRepeat(log: seq<Event>, text: string, isError: bool)
    requires forall i :: 0 <= i < |log| && log[i].Result? ==> log[i].text != text
    ensures var samples := Samples(log + [Result(text, isError)]); !samples[|samples| - 1].dup
  {
    ResultStep(log, text, isError);
    forall e | e in log && e.Result? ensures e.text != text {
      var i :| 0 <= i < |log| && log[i] == e;
    }
  }

  // ---- how often it fires ----

  function Ticks(log: seq<Event>): nat {
    if log == [] then 0
    else Ticks(log[..|log| - 1]) + (if log[|log| - 1].Tick? then 1 else 0)
  }

  /** After an intervention the count of iterations is at most the ticks since then. */
  lemma {:induction false} SinceAtMostTicks(log: seq<Event>, i: nat)
    requires i < |log| && log[i] == Acknowledge
    ensures Since(log) <= Ticks(log) - Ticks(log[..i])
  {
    var n := |log| - 1;
    if i < n {
      assert log[..n][..i] == log[..i];
      SinceAtMostTicks(log[..n], i);
    }
  }

  lemma {:induction false} TriggeredIsCooled(c: Settings, log: seq<Event>)
    ensures SignalAfter(c, log).triggered ==> Since(log) >= c.injectCooldown
  {
  }

  /** After an acknowledged intervention no signal triggers for `injectCooldown` iterations. */
  lemma {:induction false} InterventionsAreSpaced(c: Settings, log: seq<Event>, i: nat)
    requires i < |log| && log[i] == Acknowledge
    ensures SignalAfter(c, log).triggered ==> Ticks(log) - Ticks(log[..i]) >= c.injectCooldown
  {
    TriggeredIsCooled(c, log);
    SinceAtMostTicks(log, i);
  }

  // ---- the budget it drives ----

  /** Whatever the turn has seen, its budget stays at or above three quarters of the base. */
  lemma {:induction false} MonitoredBudget(c: Settings, log: seq<Event>, b: Budget.Settings)
    ensures var g, base := SignalAfter(c, log), Budget.InputBudget(b);
      && Budget.HealthBudget(b, WasteRate(g)) >= Budget.Tightened(base, 0.75)
      && (g.errorRate >= 0.5 ==> Budget.HealthBudget(b, WasteRate(g)) == base)
  {
    SignalBounds(c, log);
    Budget.HealthBounds(b, WasteRate(SignalAfter(c, log)));
  }
}
