/** The sliding-window monitor of a turn's tool results: core/confidence.py. */
module Confidence {
  import opened Text

  const NULL_RESULT_CHARS := 20
  const CLASSIFY_SCAN_CHARS := 400
  const SCHEMA_DOMINANT_SHARE := 0.5
  const SCHEMA_ERROR_MARKERS := [
    "missing required argument", "invalid json arguments", "empty_args", "unknown tool",
    "unexpected argument", "args_json_decode_error", "missing_required_args"]

  predicate Contains(s: string, part: string) {
    part <= s || (s != "" && Contains(s[1..], part))
  }

  predicate SchemaError(text: string) {
    var low := Lower(if |text| > CLASSIFY_SCAN_CHARS then text[..CLASSIFY_SCAN_CHARS] else text);
    exists m :: m in SCHEMA_ERROR_MARKERS && Contains(low, m)
  }

  function MaxInt(a: int, b: int): int {
    if a < b then b else a
  }

  function Max(a: real, b: real): real {
    if a < b then b else a
  }

  function Min(a: real, b: real): real {
    if a < b then a else b
  }

  // ---- what a turn's history says, over its whole length ----

  datatype Event = Result(text: string, isError: bool) | Tick | Acknowledge

  datatype Sample = Sample(error: bool, schema: bool, empty: bool, dup: bool)

  datatype Iteration = Iteration(calls: nat, tokens: nat)

  function Seen(log: seq<Event>): set<string> {
    set e | e in log && e.Result? :: e.text
  }

  function SampleOf(log: seq<Event>, text: string, isError: bool): Sample {
    var empty := !isError && |Strip(text)| < NULL_RESULT_CHARS;
    Sample(isError, isError && SchemaError(text), empty,
           text in Seen(log) && !isError && !empty)
  }

  function Samples(log: seq<Event>): seq<Sample> {
    if log == [] then []
    else
      var init, e := log[..|log| - 1], log[|log| - 1];
      if e.Result? then Samples(init) + [SampleOf(init, e.text, e.isError)] else Samples(init)
  }

  /** The iteration under way. */
  function Open(log: seq<Event>): Iteration {
    if log == [] then Iteration(0, 0)
    else
      var init, e := log[..|log| - 1], log[|log| - 1];
      match e
      case Result(text, _) => Iteration(Open(init).calls + 1, Open(init).tokens + |text| / 4)
      case Tick => Iteration(0, 0)
      case Acknowledge => Open(init)
  }

  function Iterations(log: seq<Event>): seq<Iteration> {
    if log == [] then []
    else
      var init := log[..|log| - 1];
      if log[|log| - 1].Tick? then Iterations(init) + [Open(init)] else Iterations(init)
  }

  /** Iterations since the last intervention; before the first one, as good as long ago. */
  function Since(log: seq<Event>): nat {
    if log == [] then 999
    else
      var init := log[..|log| - 1];
      match log[|log| - 1]
      case Result(_, _) => Since(init)
      case Tick => Since(init) + 1
      case Acknowledge => 0
  }

  // ---- the signal ----

  datatype Settings = Settings(
    window: int,
    errorThreshold: real,
    nullThreshold: real,
    dupThreshold: real,
    scoreThreshold: real,
    injectCooldown: int,
    schemaSensitive: bool)

  function Window(c: Settings): nat {
    if c.window > 2 then c.window else 2
  }

  /** A threshold, kept away from zero. */
  function Clamped(threshold: real): real {
    Max(0.000001, threshold)
  }

  datatype Signal = Signal(
    score: real,
    errorRate: real,
    nullRate: real,
    dupRate: real,
    triggered: bool,
    callRate: real,
    tokenRate: real,
    schemaShare: real,
    schemaBound: bool)

  function WasteRate(s: Signal): real {
    Min(1.0, s.nullRate + s.dupRate)
  }

  /** The last n entries. */
  function Last<T>(s: seq<T>, n: nat): seq<T> {
    if |s| > n then s[|s| - n..] else s
  }

  function Count(s: seq<bool>): (n: nat)
    ensures n <= |s|
  {
    if s == [] then 0 else Count(s[1..]) + (if s[0] then 1 else 0)
  }

  function Errors(s: seq<Sample>): seq<bool> {
    seq(|s|, i requires 0 <= i < |s| => s[i].error)
  }

  function Schemas(s: seq<Sample>): seq<bool> {
    seq(|s|, i requires 0 <= i < |s| => s[i].schema)
  }

  function Nulls(s: seq<Sample>): seq<bool> {
    seq(|s|, i requires 0 <= i < |s| => s[i].empty)
  }

  function Dups(s: seq<Sample>): seq<bool> {
    seq(|s|, i requires 0 <= i < |s| => s[i].dup)
  }

  function Sum(s: seq<nat>): nat {
    if s == [] then 0 else s[0] + Sum(s[1..])
  }

  function Rate(n: nat, of: nat): real
    requires of > 0
  {
    n as real / of as real
  }

  function Mean(s: seq<nat>): real {
    if s == [] then 0.0 else Rate(Sum(s), |s|)
  }

  /** The computation of the signal from the lists the monitor keeps. */
  function SignalOf(c: Settings, errors: seq<bool>, schemas: seq<bool>, nulls: seq<bool>,
                    dups: seq<bool>, calls: seq<nat>, tokens: seq<nat>, since: nat): Signal {
    var n := |errors|;
    if n == 0 then Signal(1.0, 0.0, 0.0, 0.0, false, Mean(calls), Mean(tokens), 0.0, false)
    else
      var errorRate, nullRate, dupRate := Rate(Count(errors), n), Rate(Count(nulls), n), Rate(Count(dups), n);
      var share := if Count(errors) > 0 then Rate(Count(schemas), Count(errors)) else 0.0;
      var worst := Max(Max(errorRate / Clamped(c.errorThreshold),
                           nullRate / Clamped(c.nullThreshold)),
                       dupRate / Clamped(c.dupThreshold));
      var score := Max(0.0, 1.0 - worst * 0.5);
      var bound := (share >= SCHEMA_DOMINANT_SHARE && errorRate > 0.3)
                   || (c.schemaSensitive && share > 0.0);
      var cooled := since >= c.injectCooldown;
      var triggered := (n >= MaxInt(2, Window(c) / 2) && score < c.scoreThreshold && cooled)
                       || (c.schemaSensitive && share > 0.0 && cooled);
      Signal(score, errorRate, nullRate, dupRate, triggered, Mean(calls), Mean(tokens), share, bound)
  }

  function Calls(s: seq<Iteration>): seq<nat> {
    seq(|s|, i requires 0 <= i < |s| => s[i].calls)
  }

  function Tokens(s: seq<Iteration>): seq<nat> {
    seq(|s|, i requires 0 <= i < |s| => s[i].tokens)
  }

  /** The signal, as a function of the whole history. */
  function SignalAfter(c: Settings, log: seq<Event>): Signal {
    var s, it, w := Samples(log), Iterations(log), Window(c);
    SignalOf(c, Last(Errors(s), w), Last(Schemas(s), w), Last(Nulls(s), w), Last(Dups(s), w),
             Last(Calls(it), w), Last(Tokens(it), w), Since(log))
  }

  // ---- the monitor ----

  lemma {:induction false} LastAppend<T>(s: seq<T>, x: T, n: nat)
    requires n > 0
    ensures Last(Last(s, n) + [x], n) == Last(s + [x], n)
  {
  }

  lemma {:induction false} ResultStep(log: seq<Event>, text: string, isError: bool)
    ensures var more := log + [Result(text, isError)];
      && Samples(more) == Samples(log) + [SampleOf(log, text, isError)]
      && Seen(more) == Seen(log) + {text} && Since(more) == Since(log)
      && Open(more) == Iteration(Open(log).calls + 1, Open(log).tokens + |text| / 4)
      && Iterations(more) == Iterations(log)
  {
    assert (log + [Result(text, isError)])[..|log|] == log;
  }

  lemma {:induction false} TickStep(log: seq<Event>)
    ensures var more := log + [Tick];
      && Samples(more) == Samples(log) && Seen(more) == Seen(log)
      && Since(more) == Since(log) + 1 && Open(more) == Iteration(0, 0)
      && Iterations(more) == Iterations(log) + [Open(log)]
  {
    assert (log + [Tick])[..|log|] == log;
  }

  lemma {:induction false} AcknowledgeStep(log: seq<Event>)
    ensures var more := log + [Acknowledge];
      && Samples(more) == Samples(log) && Seen(more) == Seen(log)
      && Since(more) == 0 && Open(more) == Open(log) && Iterations(more) == Iterations(log)
  {
    assert (log + [Acknowledge])[..|log|] == log;
  }

  lemma {:induction false} Appended(s: seq<Sample>, x: Sample, w: nat)
    requires w > 0
    ensures Last(Last(Errors(s), w) + [x.error], w) == Last(Errors(s + [x]), w)
    ensures Last(Last(Schemas(s), w) + [x.schema], w) == Last(Schemas(s + [x]), w)
    ensures Last(Last(Nulls(s), w) + [x.empty], w) == Last(Nulls(s + [x]), w)
    ensures Last(Last(Dups(s), w) + [x.dup], w) == Last(Dups(s + [x]), w)
  {
    LastAppend(Errors(s), x.error, w);
    LastAppend(Schemas(s), x.schema, w);
    LastAppend(Nulls(s), x.empty, w);
    LastAppend(Dups(s), x.dup, w);
    assert Errors(s + [x]) == Errors(s) + [x.error];
    assert Schemas(s + [x]) == Schemas(s) + [x.schema];
    assert Nulls(s + [x]) == Nulls(s) + [x.empty];
    assert Dups(s + [x]) == Dups(s) + [x.dup];
  }

  lemma {:induction false} AppendedCost(it: seq<Iteration>, x: Iteration, w: nat)
    requires w > 0
    ensures Last(Last(Calls(it), w) + [x.calls], w) == Last(Calls(it + [x]), w)
    ensures Last(Last(Tokens(it), w) + [x.tokens], w) == Last(Tokens(it + [x]), w)
  {
    LastAppend(Calls(it), x.calls, w);
    LastAppend(Tokens(it), x.tokens, w);
    assert Calls(it + [x]) == Calls(it) + [x.calls];
    assert Tokens(it + [x]) == Tokens(it) + [x.tokens];
  }

  class ConfidenceMonitor {
    const settings: Settings
    const window: nat
    var errors: seq<bool>
    var schemaErrors: seq<bool>
    var nulls: seq<bool>
    var dups: seq<bool>
    var seen: set<string>
    var itersSinceLast: nat
    var callsThisIter: nat
    var tokensThisIter: nat
    var callsPerIter: seq<nat>
    var tokensPerIter: seq<nat>
    ghost var log: seq<Event>

    ghost predicate Keeps(s: seq<Sample>)
      reads this
    {
      && errors == Last(Errors(s), window) && schemaErrors == Last(Schemas(s), window)
      && nulls == Last(Nulls(s), window) && dups == Last(Dups(s), window)
    }

    ghost predicate KeepsCost(it: seq<Iteration>)
      reads this
    {
      callsPerIter == Last(Calls(it), window) && tokensPerIter == Last(Tokens(it), window)
    }

    /** Every list holds the last `window` entries of the full history, every counter its value. */
    ghost predicate Valid()
      reads this
    {
      && window == Window(settings)
      && Keeps(Samples(log)) && KeepsCost(Iterations(log))
      && seen == Seen(log) && itersSinceLast == Since(log)
      && Iteration(callsThisIter, tokensThisIter) == Open(log)
    }

    constructor (c: Settings)
      ensures Valid() && settings == c && log == []
    {
      settings, window := c, if c.window > 2 then c.window else 2;
      errors, schemaErrors, nulls, dups, seen := [], [], [], [], {};
      itersSinceLast, callsThisIter, tokensThisIter := 999, 0, 0;
      callsPerIter, tokensPerIter := [], [];
      log := [];
    }

    /** Adds one sample to the four lists and cuts all of them by the length of the first. */
    method Keep(x: Sample, ghost s: seq<Sample>)
      requires Keeps(s) && window > 0
      modifies this`errors, this`schemaErrors, this`nulls, this`dups
      ensures Keeps(s + [x])
    {
      Appended(s, x, window);
      errors := errors + [x.error];
      schemaErrors := schemaErrors + [x.schema];
      nulls := nulls + [x.empty];
      dups := dups + [x.dup];
      if |errors| > window {
        errors := errors[|errors| - window..];
        schemaErrors := schemaErrors[|schemaErrors| - window..];
        nulls := nulls[|nulls| - window..];
        dups := dups[|dups| - window..];
      }
    }

    method ObserveResult(text: string, isError: bool)
      requires Valid()
      modifies this
      ensures Valid() && log == old(log) + [Result(text, isError)]
    {
      var isNull := !isError && |Strip(text)| < NULL_RESULT_CHARS;
      var isDup := text in seen && !isError && !isNull;
      Keep(Sample(isError, isError && SchemaError(text), isNull, isDup), Samples(log));
      seen := seen + {text};
      callsThisIter := callsThisIter + 1;
      tokensThisIter := tokensThisIter + |text| / 4;
      ResultStep(log, text, isError);
      log := log + [Result(text, isError)];
    }

    method KeepCost(x: Iteration, ghost it: seq<Iteration>)
      requires KeepsCost(it) && window > 0
      modifies this`callsPerIter, this`tokensPerIter
      ensures KeepsCost(it + [x])
    {
      AppendedCost(it, x, window);
      callsPerIter := callsPerIter + [x.calls];
      tokensPerIter := tokensPerIter + [x.tokens];
      if |callsPerIter| > window {
        callsPerIter := callsPerIter[|callsPerIter| - window..];
        tokensPerIter := tokensPerIter[|tokensPerIter| - window..];
      }
    }

    method TickIter()
      requires Valid()
      modifies this
      ensures Valid() && log == old(log) + [Tick]
    {
      TickStep(log);
      KeepCost(Iteration(callsThisIter, tokensThisIter), Iterations(log));
      itersSinceLast := itersSinceLast + 1;
      callsThisIter, tokensThisIter := 0, 0;
      log := log + [Tick];
    }

    method CurrentSignal() returns (s: Signal)
      requires Valid()
      ensures s == SignalAfter(settings, log)
    {
      s := SignalOf(settings, errors, schemaErrors, nulls, dups, callsPerIter, tokensPerIter,
                    itersSinceLast);
    }

    method AcknowledgeIntervention()
      requires Valid()
      modifies this
      ensures Valid() && log == old(log) + [Acknowledge]
    {
      itersSinceLast := 0;
      AcknowledgeStep(log);
      log := log + [Acknowledge];
    }
  }
}
