/** Permission rules from all config layers, merged for a first-match engine. */
module PermissionLayers {
  import opened Options

  /** `Malformed` is any other text; a policy that holds one does not start a session. */
  datatype Verdict = Allow | Ask | Deny | Malformed(text: string)

  datatype Rule = Rule(tool: string, match_: string, verdict: Verdict)

  /** The [permissions] table of one config file; an absent table contributes nothing. */
  datatype Table = Table(
    default: Option<Verdict>,
    builtin: Option<bool>,
    approveAll: Option<bool>,
    timeout: Option<real>,
    rules: seq<Rule>)

  datatype Layer = Layer(table: Option<Table>, project: bool)

  datatype Policy = Policy(default: Verdict, builtin: bool, approveAll: bool, timeout: real, rules: seq<Rule>)

  const FRESH := Policy(Allow, true, false, 300.0, [])

  // ---- merging ----

  function WithoutAllow(rules: seq<Rule>): seq<Rule> {
    if rules == [] then []
    else
      var rest, r := WithoutAllow(rules[..|rules| - 1]), rules[|rules| - 1];
      if r.verdict == Allow then rest else rest + [r]
  }

  /** A project layer's rules may only narrow. */
  function LayerRules(t: Table, project: bool): seq<Rule> {
    if project then WithoutAllow(t.rules) else t.rules
  }

  /** One layer on top of the ones before it: its scalars win, its rules go in front. */
  function Merged(p: Policy, layer: Layer): Policy {
    match layer.table
    case None => p
    case Some(t) =>
      var project := layer.project;
      Policy(
        if t.default.Some? && !t.default.value.Malformed? && !(project && t.default.value == Allow)
          then t.default.value else p.default,
        if t.builtin.Some? && !(project && !t.builtin.value) then t.builtin.value else p.builtin,
        if t.approveAll.Some? && !project then t.approveAll.value else p.approveAll,
        if t.timeout.Some? && !project then t.timeout.value else p.timeout,
        LayerRules(t, project) + p.rules)
  }

  function MergedAll(p: Policy, layers: seq<Layer>): Policy
    decreases |layers|
  {
    if layers == [] then p else MergedAll(Merged(p, layers[0]), layers[1..])
  }

  method FilterRules(t: Table, project: bool) returns (rules: seq<Rule>)
    ensures rules == LayerRules(t, project)
  {
    rules := [];
    for i := 0 to |t.rules|
      invariant rules == LayerRules(t.(rules := t.rules[..i]), project)
    {
      assert t.rules[..i + 1][..i] == t.rules[..i];
      if !(project && t.rules[i].verdict == Allow) {
        rules := rules + [t.rules[i]];
      }
    }
    assert t.rules[..|t.rules|] == t.rules;
  }

  /** Rules of each layer collected apart, then joined with the latest layer first. */
  function Joined(collected: seq<seq<Rule>>): seq<Rule> {
    if collected == [] then [] else collected[|collected| - 1] + Joined(collected[..|collected| - 1])
  }

  method MergePermissions(layers: seq<Layer>) returns (policy: Policy)
    ensures policy == MergedAll(FRESH, layers)
  {
    policy := FRESH;
    var collected: seq<seq<Rule>> := [];
    for i := 0 to |layers|
      invariant policy.rules == []
      invariant MergedAll(policy.(rules := Joined(collected)), layers[i..]) == MergedAll(FRESH, layers)
    {
      var layer := layers[i];
      assert layers[i..][0] == layer && layers[i..][1..] == layers[i + 1..];
      if layer.table.Some? {
        var t := layer.table.value;
        ghost var before := policy;
        if t.default.Some? && !t.default.value.Malformed? {
          if !(layer.project && t.default.value == Allow) {
            policy := policy.(default := t.default.value);
          }
        }
        if t.timeout.Some? && !layer.project {
          policy := policy.(timeout := t.timeout.value);
        }
        if t.approveAll.Some? && !layer.project {
          policy := policy.(approveAll := t.approveAll.value);
        }
        if t.builtin.Some? && !(layer.project && !t.builtin.value) {
          policy := policy.(builtin := t.builtin.value);
        }
        var rules := FilterRules(t, layer.project);
        assert (collected + [rules])[..|collected|] == collected;
        assert policy.(rules := Joined(collected + [rules])) == Merged(before.(rules := Joined(collected)), layer);
        collected := collected + [rules];
      }
    }
    policy := policy.(rules := Joined(collected));
  }

  // ---- deciding ----

  /** The verdict of the first rule that matches the call; `hit` says which rules do. */
  function FirstHit(rules: seq<Rule>, hit: Rule -> bool): Option<Verdict> {
    if rules == [] then None else if hit(rules[0]) then Some(rules[0].verdict) else FirstHit(rules[1..], hit)
  }

  /**
   * The rules as `evaluate` walks them: session grants and the rules file in front, the built-in
   * baseline behind, the default when none matches.
   */
  function Decide(front: seq<Rule>, p: Policy, baseline: seq<Rule>, hit: Rule -> bool): Verdict {
    var first := FirstHit(front + p.rules + (if p.builtin then baseline else []), hit);
    if first.Some? then first.value else if p.default.Malformed? then Ask else p.default
  }

  /** The latest layer with a matching rule decides, by its first match. */
  function LatestHit(layers: seq<Layer>, hit: Rule -> bool): Option<Verdict> {
    if layers == [] then None
    else
      var last := layers[|layers| - 1];
      var own := if last.table.Some? then FirstHit(LayerRules(last.table.value, last.project), hit) else None;
      if own.Some? then own else LatestHit(layers[..|layers| - 1], hit)
  }

  lemma {:induction false} FirstHitConcat(a: seq<Rule>, b: seq<Rule>, hit: Rule -> bool)
    ensures FirstHit(a + b, hit) == if FirstHit(a, hit).Some? then FirstHit(a, hit) else FirstHit(b, hit)
  {
    if a == [] {
      assert a + b == b;
    } else {
      FirstHitConcat(a[1..], b, hit);
      assert (a + b)[1..] == a[1..] + b;
    }
  }

  lemma {:induction false} MergedAllPush(p: Policy, layers: seq<Layer>, layer: Layer)
    ensures MergedAll(p, layers + [layer]) == Merged(MergedAll(p, layers), layer)
    decreases |layers|
  {
    if layers == [] {
      assert [] + [layer] == [layer] && [layer][1..] == [];
      assert MergedAll(p, [layer]) == MergedAll(Merged(p, layer), []);
    } else {
      MergedAllPush(Merged(p, layers[0]), layers[1..], layer);
      assert (layers + [layer])[1..] == layers[1..] + [layer];
    }
  }

  lemma {:induction false} MergedAllConcat(p: Policy, a: seq<Layer>, b: seq<Layer>)
    ensures MergedAll(p, a + b) == MergedAll(MergedAll(p, a), b)
    decreases |a|
  {
    if a == [] {
      assert a + b == b;
    } else {
      MergedAllConcat(Merged(p, a[0]), a[1..], b);
      assert (a + b)[1..] == a[1..] + b;
    }
  }

  /** Walking the merged list first to last is asking the layers latest to earliest. */
  lemma {:induction false} FirstMatchIsLatestLayer(layers: seq<Layer>, hit: Rule -> bool)
    ensures FirstHit(MergedAll(FRESH, layers).rules, hit) == LatestHit(layers, hit)
  {
    if layers != [] {
      var init, last := layers[..|layers| - 1], layers[|layers| - 1];
      assert layers == init + [last];
      FirstMatchIsLatestLayer(init, hit);
      MergedAllPush(FRESH, init, last);
      if last.table.Some? {
        FirstHitConcat(LayerRules(last.table.value, last.project), MergedAll(FRESH, init).rules, hit);
      }
    }
  }

  // ---- project layers ----

  predicate AllProject(layers: seq<Layer>) {
    forall i :: 0 <= i < |layers| ==> layers[i].project
  }

  lemma {:induction false} NoAllowLeft(rules: seq<Rule>)
    ensures forall r :: r in WithoutAllow(rules) ==> r.verdict != Allow
  {
    if rules != [] {
      NoAllowLeft(rules[..|rules| - 1]);
    }
  }

  lemma {:induction false} NoAllowHit(rules: seq<Rule>, hit: Rule -> bool)
    requires forall r :: r in rules ==> r.verdict != Allow
    ensures FirstHit(rules, hit) != Some(Allow)
  {
    if rules != [] {
      assert rules[0] in rules && forall r :: r in rules[1..] ==> r in rules;
      NoAllowHit(rules[1..], hit);
    }
  }

  /** What project layers can do to a policy: rules in front, a stricter default, the baseline on. */
  lemma {:induction false} ProjectEffect(p: Policy, layers: seq<Layer>) returns (added: seq<Rule>)
    requires AllProject(layers)
    ensures var q := MergedAll(p, layers);
            && q.rules == added + p.rules
            && (forall r :: r in added ==> r.verdict != Allow)
            && (q.default == p.default || q.default == Ask || q.default == Deny)
            && (p.builtin ==> q.builtin)
            && q.approveAll == p.approveAll && q.timeout == p.timeout
    decreases |layers|
  {
    if layers == [] {
      added := [];
    } else {
      var layer, next := layers[0], Merged(p, layers[0]);
      var rest := ProjectEffect(next, layers[1..]);
      if layer.table.None? {
        added := rest;
      } else {
        var own := LayerRules(layer.table.value, true);
        NoAllowLeft(layer.table.value.rules);
        added := rest + own;
        assert rest + (own + p.rules) == (rest + own) + p.rules;
      }
    }
  }

  /** Which of the three parts of the walk decides. */
  lemma {:induction false} DecideParts(front: seq<Rule>, p: Policy, added: seq<Rule>, rules: seq<Rule>,
                                       baseline: seq<Rule>, hit: Rule -> bool)
    requires p.rules == added + rules
    ensures var tail := if p.builtin then baseline else [];
            var a, b, c, e := FirstHit(front, hit), FirstHit(added, hit), FirstHit(rules, hit), FirstHit(tail, hit);
            Decide(front, p, baseline, hit) ==
            if a.Some? then a.value else if b.Some? then b.value else if c.Some? then c.value
            else if e.Some? then e.value else if p.default.Malformed? then Ask else p.default
  {
    FirstHitConcat(added, rules, hit);
    FirstHitConcat(front, p.rules, hit);
    FirstHitConcat(front + p.rules, if p.builtin then baseline else [], hit);
  }

  /**
   * A call is allowed with the repository's layers loaded exactly when the user's own policy allows
   * it and, unless a grant decides, no repository rule matches it and - where no user rule matches
   * either - the repository neither moved the default nor switched on a baseline rule that matches.
   */
  lemma {:induction false} AllowedWithProjectIff(front: seq<Rule>, user: seq<Layer>, project: seq<Layer>,
                              baseline: seq<Rule>, hit: Rule -> bool)
    requires AllProject(project)
    requires forall r :: r in baseline ==> r.verdict != Allow
    ensures var own, full := MergedAll(FRESH, user), MergedAll(FRESH, user + project);
            Decide(front, full, baseline, hit) == Allow <==>
            && Decide(front, own, baseline, hit) == Allow
            && (FirstHit(front, hit).None? ==>
                  && LatestHit(project, hit).None?
                  && (FirstHit(own.rules, hit).None? ==>
                        && full.default == own.default
                        && !(full.builtin && !own.builtin && FirstHit(baseline, hit).Some?)))
  {
    var own, full := MergedAll(FRESH, user), MergedAll(FRESH, user + project);
    MergedAllConcat(FRESH, user, project);
    var added := ProjectEffect(own, project);
    ProjectRules(own, project, added, hit);
    assert [] + own.rules == own.rules;
    DecideParts(front, own, [], own.rules, baseline, hit);
    DecideParts(front, full, added, own.rules, baseline, hit);
    NoAllowHit(added, hit);
    NoAllowHit(baseline, hit);
  }

  /** The rules project layers put in front decide as those layers alone would. */
  lemma {:induction false} ProjectRules(p: Policy, project: seq<Layer>, added: seq<Rule>, hit: Rule -> bool)
    requires MergedAll(p, project).rules == added + p.rules
    ensures FirstHit(added, hit) == LatestHit(project, hit)
  {
    RulesStack(p, project);
    RulesStack(FRESH, project);
    FirstMatchIsLatestLayer(project, hit);
    assert MergedAll(FRESH, project).rules + p.rules == added + p.rules;
    assert MergedAll(FRESH, project).rules == added by {
      assert |added| == |MergedAll(FRESH, project).rules|;
      assert (added + p.rules)[..|added|] == added;
      assert (MergedAll(FRESH, project).rules + p.rules)[..|added|] == MergedAll(FRESH, project).rules;
    }
  }

  lemma {:induction false} RulesStack(p: Policy, layers: seq<Layer>)
    ensures MergedAll(p, layers).rules == MergedAll(FRESH, layers).rules + p.rules
  {
    if layers == [] {
      assert [] + p.rules == p.rules;
    } else {
      var init, last := layers[..|layers| - 1], layers[|layers| - 1];
      assert layers == init + [last];
      RulesStack(p, init);
      MergedAllPush(p, init, last);
      MergedAllPush(FRESH, init, last);
      if last.table.Some? {
        var own := LayerRules(last.table.value, last.project);
        assert own + (MergedAll(FRESH, init).rules + p.rules) == (own + MergedAll(FRESH, init).rules) + p.rules;
      }
    }
  }

  /** A repository can never turn a refusal or a question into permission. */
  lemma {:induction false} ProjectNeverAllows(front: seq<Rule>, user: seq<Layer>, project: seq<Layer>,
                           baseline: seq<Rule>, hit: Rule -> bool)
    requires AllProject(project)
    requires forall r :: r in baseline ==> r.verdict != Allow
    ensures Decide(front, MergedAll(FRESH, user), baseline, hit) != Allow ==>
            Decide(front, MergedAll(FRESH, user + project), baseline, hit) != Allow
  {
    AllowedWithProjectIff(front, user, project, baseline, hit);
  }

  /** It can turn a refusal into a question: its `ask` rule sits in front of the user's `deny`. */
  lemma {:induction false} DenyCanBecomeAsk()
    ensures var deny, ask := Rule("run_argv", "", Deny), Rule("run_argv", "", Ask);
            var user := [Layer(Some(Table(None, None, None, None, [deny])), false)];
            var project := [Layer(Some(Table(None, None, None, None, [ask])), true)];
            && Decide([], MergedAll(FRESH, user), [], r => true) == Deny
            && Decide([], MergedAll(FRESH, user + project), [], r => true) == Ask
  {
    var deny, ask := Rule("run_argv", "", Deny), Rule("run_argv", "", Ask);
    var user := Layer(Some(Table(None, None, None, None, [deny])), false);
    var project := Layer(Some(Table(None, None, None, None, [ask])), true);
    MergedAllPush(FRESH, [], user);
    MergedAllPush(FRESH, [user], project);
    assert [] + [user] == [user];
    assert [ask][..0] == [] && WithoutAllow([ask]) == [ask];
    assert MergedAll(FRESH, [user]).rules == [deny];
    assert MergedAll(FRESH, [user, project]).rules == [ask, deny] by { assert [user] + [project] == [user, project]; }
  }

  /** Exactly when a call the user's policy denies stays denied. */
  lemma {:induction false} DenyKeptIff(front: seq<Rule>, user: seq<Layer>, project: seq<Layer>,
                    baseline: seq<Rule>, hit: Rule -> bool)
    requires AllProject(project)
    requires forall r :: r in baseline ==> r.verdict == Ask
    requires Decide(front, MergedAll(FRESH, user), baseline, hit) == Deny
    ensures var own, full := MergedAll(FRESH, user), MergedAll(FRESH, user + project);
            Decide(front, full, baseline, hit) == Deny <==>
            || FirstHit(front, hit).Some?
            || LatestHit(project, hit) == Some(Deny)
            || (LatestHit(project, hit).None? &&
                (FirstHit(own.rules, hit).Some? ||
                 (full.default == Deny && !(full.builtin && !own.builtin && FirstHit(baseline, hit).Some?))))
  {
    var own, full := MergedAll(FRESH, user), MergedAll(FRESH, user + project);
    MergedAllConcat(FRESH, user, project);
    var added := ProjectEffect(own, project);
    ProjectRules(own, project, added, hit);
    assert [] + own.rules == own.rules;
    DecideParts(front, own, [], own.rules, baseline, hit);
    DecideParts(front, full, added, own.rules, baseline, hit);
    OnlyAsks(baseline, hit);
  }

  lemma {:induction false} OnlyAsks(rules: seq<Rule>, hit: Rule -> bool)
    requires forall r :: r in rules ==> r.verdict == Ask
    ensures FirstHit(rules, hit).None? || FirstHit(rules, hit) == Some(Ask)
  {
    if rules != [] {
      assert rules[0] in rules && forall r :: r in rules[1..] ==> r in rules;
      OnlyAsks(rules[1..], hit);
    }
  }
}
