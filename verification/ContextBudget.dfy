/** How many prompt tokens a turn may use: core/context_budget.py. */
module ContextBudget {

  const DEFAULT_CTX_WINDOW := 32768
  const PROMPT_OVERHEAD := 500
  const WASTE_FLOOR := 0.5
  const MAX_TIGHTEN := 0.25
  const MIN_TOKENS_PER_MSG := 250

  /** The [llm] settings read here; 0 stands for "not set" in each. */
  datatype Settings = Settings(
    ctxWindow: int,
    maxOutputTokens: int,
    compactionThreshold: real,
    messageThreshold: int)

  function Max(a: int, b: int): int {
    if a < b then b else a
  }

  function Min(a: int, b: int): int {
    if a < b then a else b
  }

  /** `int()` on a float: towards zero. */
  function Truncated(r: real): int {
    if r >= 0.0 then r.Floor else -((-r).Floor)
  }

  function EffectiveWindow(c: Settings): (n: int)
    ensures n > 0
  {
    if c.ctxWindow > 0 then c.ctxWindow else DEFAULT_CTX_WINDOW
  }

  function Reserve(c: Settings): int {
    Min(c.maxOutputTokens, EffectiveWindow(c) / 2)
  }

  function InputBudget(c: Settings): int {
    Max(1024, EffectiveWindow(c) - Reserve(c) - PROMPT_OVERHEAD)
  }

  /** The share of the budget kept at this rate of waste. */
  function Share(waste: real): real {
    var over := (waste - WASTE_FLOOR) / (1.0 - WASTE_FLOOR);
    1.0 - MAX_TIGHTEN * (if over < 1.0 then over else 1.0)
  }

  /** This share of the budget, in whole tokens. */
  function Tightened(budget: int, share: real): int {
    Truncated(budget as real * share)
  }

  function HealthBudget(c: Settings, waste: real): int {
    var budget := InputBudget(c);
    if waste <= WASTE_FLOOR then budget
    else Max(1024, Tightened(budget, Share(waste)))
  }

  function Configured(c: Settings): int {
    var threshold := if c.compactionThreshold == 0.0 then 0.75 else c.compactionThreshold;
    Truncated(EffectiveWindow(c) as real * threshold)
  }

  function TriggerBudget(c: Settings, waste: real): int {
    Max(1024, Min(HealthBudget(c, waste), Configured(c)))
  }

  /** Python's `//` by a positive number is Dafny's `/`. */
  function MessageCap(c: Settings): int {
    if c.messageThreshold > 0 then c.messageThreshold
    else Max(40, Configured(c) / MIN_TOKENS_PER_MSG)
  }

  // ---- laws ----

  /** The prompt, the reserve and the overhead fit the window exactly when the window leaves 1024
      tokens for the prompt; from 3047 tokens up every window does. */
  lemma {:induction false} BudgetFitsIff(c: Settings)
    ensures InputBudget(c) >= 1024
    ensures InputBudget(c) + Reserve(c) + PROMPT_OVERHEAD <= EffectiveWindow(c) <==>
            EffectiveWindow(c) - Reserve(c) >= 1024 + PROMPT_OVERHEAD
    ensures EffectiveWindow(c) >= 3047 ==>
            InputBudget(c) + Reserve(c) + PROMPT_OVERHEAD <= EffectiveWindow(c)
  {
  }

  lemma {:induction false} TightenedMonotone(budget: int, x: real, y: real)
    requires budget >= 0 && 0.0 <= x <= y
    ensures 0 <= Tightened(budget, x) <= Tightened(budget, y)
  {
    var b := budget as real;
    assert b * x <= b * y && 0.0 <= b * x;
  }

  lemma {:induction false} TightenedBelow(budget: int, x: real)
    requires budget > 0 && 0.0 <= x < 1.0
    ensures Tightened(budget, x) < budget
  {
    var b := budget as real;
    assert b * x < b && 0.0 <= b * x;
  }

  lemma {:induction false} ShareIsBetween(waste: real)
    requires waste > WASTE_FLOOR
    ensures 0.75 <= Share(waste) < 1.0
    ensures waste >= 1.0 ==> Share(waste) == 0.75
  {
  }

  lemma {:induction false} ShareIsAntitone(w: real, v: real)
    requires WASTE_FLOOR < w <= v
    ensures Share(v) <= Share(w)
  {
  }

  /** The adjusted budget lies between the larger of 1024 and three quarters of the base, reached
      at full waste, and the base; it is the base exactly when at most half is wasted or there is
      nothing to tighten. */
  lemma {:induction false} HealthBounds(c: Settings, waste: real)
    ensures var base := InputBudget(c);
      && Max(1024, Tightened(base, 0.75)) <= HealthBudget(c, waste) <= base
      && (waste >= 1.0 ==> HealthBudget(c, waste) == Max(1024, Tightened(base, 0.75)))
      && (HealthBudget(c, waste) == base <==> waste <= WASTE_FLOOR || base == 1024)
  {
    TightenedBelow(InputBudget(c), 0.75);
    if waste > WASTE_FLOOR {
      ShareIsBetween(waste);
      TightenedMonotone(InputBudget(c), 0.75, Share(waste));
      TightenedBelow(InputBudget(c), Share(waste));
    }
  }

  lemma {:induction false} HealthIsAntitone(c: Settings, w: real, v: real)
    requires w <= v
    ensures HealthBudget(c, v) <= HealthBudget(c, w)
  {
    if w <= WASTE_FLOOR {
      HealthBounds(c, v);
    } else {
      ShareIsAntitone(w, v);
      ShareIsBetween(v);
      TightenedMonotone(InputBudget(c), Share(v), Share(w));
    }
  }

  /** More waste never means a larger budget, neither before nor after the configured limit. */
  lemma {:induction false} BudgetIsAntitone(c: Settings, w: real, v: real)
    requires w <= v
    ensures HealthBudget(c, v) <= HealthBudget(c, w)
    ensures TriggerBudget(c, v) <= TriggerBudget(c, w)
  {
    HealthIsAntitone(c, w, v);
  }

  /** Compaction fires no later than either limit, but never below 1024 tokens. */
  lemma {:induction false} TriggerIsEarlierLimit(c: Settings, waste: real)
    ensures var t := TriggerBudget(c, waste);
      && 1024 <= t <= HealthBudget(c, waste)
      && (t == HealthBudget(c, waste) || t == Configured(c) || t == 1024)
      && (t <= Configured(c) <==> Configured(c) >= 1024)
  {
    HealthBounds(c, waste);
  }

  /** The derived message cap is a backstop only: once more messages than it are there, of at least
      250 tokens each, the token trigger has been passed as well. */
  lemma {:induction false} CapIsBackstop(c: Settings, waste: real, messages: int, tokens: int)
    requires c.messageThreshold <= 0
    requires messages > MessageCap(c) && tokens >= MIN_TOKENS_PER_MSG * messages
    ensures tokens > TriggerBudget(c, waste)
  {
    var cap := Configured(c) / MIN_TOKENS_PER_MSG;
    assert Configured(c) < MIN_TOKENS_PER_MSG * (cap + 1);
  }

  /** The budget in plain figures: what the window leaves after the reserve and 500 tokens, and 1024 at
      least; an unset window counts as 32768, and the reserve is at most half of it. */
  lemma {:induction false} BudgetReads(c: Settings)
    ensures var window := if c.ctxWindow > 0 then c.ctxWindow else 32768;
      var half := window / 2;
      var reserve := if c.maxOutputTokens < half then c.maxOutputTokens else half;
      InputBudget(c) == if window - reserve - 500 > 1024 then window - reserve - 500 else 1024
  {
  }

  /** It is tightened exactly when more than half of the results were wasted and it is above 1024: by a
      half of the waste over one half, down to three quarters. */
  lemma {:induction false} TighteningReads(c: Settings, waste: real)
    ensures var base, got := InputBudget(c), HealthBudget(c, waste);
      && (got < base <==> waste > 0.5 && base > 1024)
      && (0.5 < waste <= 1.0 ==>
            var exact := base as real * (1.25 - waste / 2.0);
            if exact < 1024.0 then got == 1024 else got as real <= exact < got as real + 1.0)
      && (waste >= 1.0 ==> got == HealthBudget(c, 1.0))
  {
    HealthBounds(c, waste);
    SharePlain(waste);
    if 0.5 < waste <= 1.0 {
      TightenedIs(InputBudget(c), 1.25 - waste / 2.0);
    }
  }

  lemma {:induction false} TightenedIs(budget: int, share: real)
    requires budget > 0 && share >= 0.0
    ensures Tightened(budget, share) as real <= budget as real * share < Tightened(budget, share) as real + 1.0
  {
    assert budget as real * share >= 0.0;
  }

  lemma {:induction false} SharePlain(waste: real)
    ensures 0.5 < waste <= 1.0 ==> Share(waste) == 1.25 - waste / 2.0
    ensures waste >= 1.0 ==> Share(waste) == Share(1.0)
  {
  }

  /** The configured limit is that share of the window, three quarters when unset, and the message cap
      is the one set, or one message per 250 tokens of it, and 40 at least. */
  lemma {:induction false} LimitsRead(c: Settings)
    requires c.compactionThreshold >= 0.0
    ensures var window := if c.ctxWindow > 0 then c.ctxWindow else 32768;
      var share := if c.compactionThreshold == 0.0 then 0.75 else c.compactionThreshold;
      && Configured(c) as real <= window as real * share < Configured(c) as real + 1.0
      && MessageCap(c) == if c.messageThreshold > 0 then c.messageThreshold
                          else if Configured(c) / 250 > 40 then Configured(c) / 250 else 40
  {
    var window := EffectiveWindow(c);
    assert window as real * c.compactionThreshold >= 0.0;
  }
}
