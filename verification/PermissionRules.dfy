/** Which rule of which config file decides a call: config/loader.py, security/permissions.py. */
module PermissionRules {
  import opened Options
  import opened PermissionLayers

  // ---- a layer's rules ----

  /** Increasing places in a list of n. */
  ghost predicate Picks(places: seq<nat>, n: nat) {
    && (forall k :: 0 <= k < |places| ==> places[k] < n)
    && (forall j, k :: 0 <= j < k < |places| ==> places[j] < places[k])
  }

  /** A project layer keeps exactly the rules that do not allow, in their order. */
  lemma {:induction false} KeptRules(rules: seq<Rule>) returns (places: seq<nat>)
    ensures Picks(places, |rules|) && |places| == |WithoutAllow(rules)|
    ensures forall k :: 0 <= k < |places| ==> WithoutAllow(rules)[k] == rules[places[k]]
    ensures forall i: nat :: i < |rules| ==> (i in places <==> rules[i].verdict != Allow)
  {
    if rules == [] {
      places := [];
    } else {
      var n := |rules| - 1;
      places := KeptRules(rules[..n]);
      if rules[n].verdict != Allow {
        places := places + [n];
      }
    }
  }

  /** The rules of a table that a layer brings in: a user's all, a project's but for those that allow. */
  lemma {:induction false} LayerKeeps(t: Table, project: bool) returns (places: seq<nat>)
    ensures Picks(places, |t.rules|) && |places| == |LayerRules(t, project)|
    ensures forall k :: 0 <= k < |places| ==> LayerRules(t, project)[k] == t.rules[places[k]]
    ensures forall i: nat :: i < |t.rules| ==> (i in places <==> !(project && t.rules[i].verdict == Allow))
  {
    if project {
      places := KeptRules(t.rules);
    } else {
      places := seq(|t.rules|, i => i);
      forall i: nat | i < |t.rules| ensures i in places {
        assert places[i] == i;
      }
    }
  }

  // ---- the deciding rule ----

  /** The call matches the rule, and the layer may bring that rule in. */
  predicate Counts(layer: Layer, r: Rule, hit: Rule -> bool) {
    hit(r) && !(layer.project && r.verdict == Allow)
  }

  /** No rule of the layer has a say in the call. */
  predicate Silent(layer: Layer, hit: Rule -> bool) {
    layer.table.Some? ==> forall r :: r in layer.table.value.rules ==> !Counts(layer, r, hit)
  }

  /** The layer's first rule with a say is its i-th. */
  predicate Speaks(layer: Layer, i: nat, hit: Rule -> bool) {
    && layer.table.Some? && i < |layer.table.value.rules|
    && Counts(layer, layer.table.value.rules[i], hit)
    && forall j :: 0 <= j < i ==> !Counts(layer, layer.table.value.rules[j], hit)
  }

  function Own(layer: Layer): seq<Rule> {
    if layer.table.Some? then LayerRules(layer.table.value, layer.project) else []
  }

  lemma {:induction false} FirstHitAt(rules: seq<Rule>, k: nat, hit: Rule -> bool)
    requires k <= |rules| && forall j :: 0 <= j < k ==> !hit(rules[j])
    ensures k < |rules| && hit(rules[k]) ==> FirstHit(rules, hit) == Some(rules[k].verdict)
    ensures k == |rules| ==> FirstHit(rules, hit) == None
  {
    if k > 0 {
      FirstHitAt(rules[1..], k - 1, hit);
    }
  }

  lemma {:induction false} PickedFirst(rules: seq<Rule>, own: seq<Rule>, places: seq<nat>, i: nat,
                                       hit: Rule -> bool)
    requires Picks(places, |rules|) && |places| == |own| && forall k :: 0 <= k < |own| ==> own[k] == rules[places[k]]
    requires i < |rules| && i in places && hit(rules[i])
    requires forall j: nat :: j < i && j in places ==> !hit(rules[j])
    ensures FirstHit(own, hit) == Some(rules[i].verdict)
  {
    var k: nat :| k < |places| && places[k] == i;
    forall j | 0 <= j < k ensures !hit(own[j]) {
      assert places[j] < i && places[j] in places;
    }
    FirstHitAt(own, k, hit);
  }

  lemma {:induction false} SpeaksFirst(layer: Layer, i: nat, hit: Rule -> bool)
    requires Speaks(layer, i, hit)
    ensures FirstHit(Own(layer), hit) == Some(layer.table.value.rules[i].verdict)
  {
    var t := layer.table.value;
    var places := LayerKeeps(t, layer.project);
    forall j: nat | j < i && j in places ensures !hit(t.rules[j]) {
      assert !Counts(layer, t.rules[j], hit);
    }
    PickedFirst(t.rules, Own(layer), places, i, hit);
  }

  lemma {:induction false} SilentHits(layer: Layer, hit: Rule -> bool)
    requires Silent(layer, hit)
    ensures FirstHit(Own(layer), hit) == None
  {
    if layer.table.Some? {
      var t := layer.table.value;
      var places := LayerKeeps(t, layer.project);
      forall j | 0 <= j < |places| ensures !hit(Own(layer)[j]) {
        assert places[j] in places && t.rules[places[j]] in t.rules;
        assert !Counts(layer, t.rules[places[j]], hit);
      }
      FirstHitAt(Own(layer), |places|, hit);
    }
  }

  lemma {:induction false} LatestOf(front: seq<Layer>, x: Layer, back: seq<Layer>, hit: Rule -> bool)
    requires forall l :: l in back ==> Silent(l, hit)
    ensures FirstHit(Own(x), hit).Some? ==> LatestHit(front + [x] + back, hit) == FirstHit(Own(x), hit)
    ensures Silent(x, hit) ==> LatestHit(front + [x] + back, hit) == LatestHit(front, hit)
    decreases |back|
  {
    var all := front + [x] + back;
    if back == [] {
      assert all[..|all| - 1] == front && all[|all| - 1] == x;
      if Silent(x, hit) {
        SilentHits(x, hit);
      }
    } else {
      var n := |back| - 1;
      assert all[..|all| - 1] == front + [x] + back[..n] && all[|all| - 1] == back[n];
      assert back[n] in back;
      SilentHits(back[n], hit);
      LatestOf(front, x, back[..n], hit);
    }
  }

  lemma {:induction false} AllSilent(layers: seq<Layer>, hit: Rule -> bool)
    requires forall l :: l in layers ==> Silent(l, hit)
    ensures LatestHit(layers, hit) == None
  {
    if layers != [] {
      var n := |layers| - 1;
      assert layers[n] in layers;
      SilentHits(layers[n], hit);
      AllSilent(layers[..n], hit);
    }
  }

  /** Where no session grant matches, the latest layer with a say decides, by its first rule that has
      one: the verdict is that rule's, as it stands in the file. */
  lemma {:induction false} FileRuleDecides(front: seq<Rule>, before: seq<Layer>, x: Layer, after: seq<Layer>,
                                           i: nat,
                        baseline: seq<Rule>, hit: Rule -> bool)
    requires forall r :: r in front ==> !hit(r)
    requires Speaks(x, i, hit) && forall l :: l in after ==> Silent(l, hit)
    ensures Decide(front, MergedAll(FRESH, before + [x] + after), baseline, hit) == x.table.value.rules[i].verdict
  {
    var p := MergedAll(FRESH, before + [x] + after);
    SpeaksFirst(x, i, hit);
    LatestOf(before, x, after, hit);
    FirstMatchIsLatestLayer(before + [x] + after, hit);
    FirstHitAt(front, |front|, hit);
    assert [] + p.rules == p.rules;
    DecideParts(front, p, [], p.rules, baseline, hit);
  }

  /** Where no rule of any file has a say, the built-in ones decide if they are on, by the first that
      matches, and otherwise the default. */
  lemma {:induction false} NoRuleDecides(front: seq<Rule>, layers: seq<Layer>, baseline: seq<Rule>, k: nat,
                                         hit: Rule -> bool)
    requires forall r :: r in front ==> !hit(r)
    requires forall l :: l in layers ==> Silent(l, hit)
    requires k <= |baseline| && (forall j :: 0 <= j < k ==> !hit(baseline[j])) && (k < |baseline| ==> hit(baseline[k]))
    ensures var p := MergedAll(FRESH, layers);
      Decide(front, p, baseline, hit) ==
      if p.builtin && k < |baseline| then baseline[k].verdict else p.default
  {
    var p := MergedAll(FRESH, layers);
    AllSilent(layers, hit);
    FirstMatchIsLatestLayer(layers, hit);
    FirstHitAt(front, |front|, hit);
    FirstHitAt(baseline, k, hit);
    assert [] + p.rules == p.rules;
    DecideParts(front, p, [], p.rules, baseline, hit);
    DefaultIsVerdict(layers);
  }

  /** The first session grant that matches goes before everything. */
  lemma {:induction false} GrantDecides(front: seq<Rule>, p: Policy, baseline: seq<Rule>, k: nat,
                                        hit: Rule -> bool)
    requires k < |front| && hit(front[k]) && forall j :: 0 <= j < k ==> !hit(front[j])
    ensures Decide(front, p, baseline, hit) == front[k].verdict
  {
    FirstHitAt(front, k, hit);
    assert [] + p.rules == p.rules;
    DecideParts(front, p, [], p.rules, baseline, hit);
  }

  // ---- the scalars ----

  /** A policy's default is never a text that is not a verdict. */
  lemma {:induction false} DefaultIsVerdict(layers: seq<Layer>)
    ensures !MergedAll(FRESH, layers).default.Malformed?
  {
    if layers != [] {
      var n := |layers| - 1;
      assert layers == layers[..n] + [layers[n]];
      DefaultIsVerdict(layers[..n]);
      MergedAllPush(FRESH, layers[..n], layers[n]);
    }
  }

  /** Which of the layers set a scalar for good: the latest that may, or none. */
  ghost predicate Latest<T(!new)>(layers: seq<Layer>, sets: Layer -> Option<T>, otherwise: T, result: T) {
    || ((forall l :: l in layers ==> sets(l).None?) && result == otherwise)
    || exists k :: 0 <= k < |layers| && sets(layers[k]) == Some(result) && forall j :: k < j < |layers| ==> sets(layers[j]).None?
  }

  function DefaultIn(l: Layer): Option<Verdict> {
    match l.table
    case Some(Table(Some(Ask), _, _, _, _)) => Some(Ask)
    case Some(Table(Some(Deny), _, _, _, _)) => Some(Deny)
    case Some(Table(Some(Allow), _, _, _, _)) => if l.project then None else Some(Allow)
    case _ => None
  }

  function BuiltinIn(l: Layer): Option<bool> {
    match l.table
    case Some(Table(_, Some(true), _, _, _)) => Some(true)
    case Some(Table(_, Some(false), _, _, _)) => if l.project then None else Some(false)
    case _ => None
  }

  function ApproveAllIn(l: Layer): Option<bool> {
    if l.project || l.table.None? then None else l.table.value.approveAll
  }

  function TimeoutIn(l: Layer): Option<real> {
    if l.project || l.table.None? then None else l.table.value.timeout
  }

  lemma {:induction false} LatestPush<T(!new)>(layers: seq<Layer>, l: Layer, sets: Layer -> Option<T>,
                                        otherwise: T, was: T, now: T)
    requires Latest(layers, sets, otherwise, was)
    requires now == if sets(l).Some? then sets(l).value else was
    ensures Latest(layers + [l], sets, otherwise, now)
  {
    var all := layers + [l];
    if sets(l).Some? {
      assert all[|layers|] == l;
    } else if k :| 0 <= k < |layers| && sets(layers[k]) == Some(was) && forall j :: k < j < |layers| ==> sets(layers[j]).None? {
      assert sets(all[k]) == Some(was);
      assert forall j :: k < j < |all| ==> all[j] == (if j < |layers| then layers[j] else l);
    }
  }

  /** The four scalars are those of the latest layer that may set them; a project may ask and deny by
      default and switch the built-in rules on, and nothing else. Unset: allow, on, off, 300 s. */
  lemma {:induction false} ScalarsAreTheLatest(layers: seq<Layer>)
    ensures var p := MergedAll(FRESH, layers);
      && Latest(layers, DefaultIn, Allow, p.default) && Latest(layers, BuiltinIn, true, p.builtin)
      && Latest(layers, ApproveAllIn, false, p.approveAll) && Latest(layers, TimeoutIn, 300.0, p.timeout)
  {
    if layers != [] {
      var n := |layers| - 1;
      var was, now := MergedAll(FRESH, layers[..n]), MergedAll(FRESH, layers);
      assert layers == layers[..n] + [layers[n]];
      ScalarsAreTheLatest(layers[..n]);
      MergedAllPush(FRESH, layers[..n], layers[n]);
      LatestPush(layers[..n], layers[n], DefaultIn, Allow, was.default, now.default);
      LatestPush(layers[..n], layers[n], BuiltinIn, true, was.builtin, now.builtin);
      LatestPush(layers[..n], layers[n], ApproveAllIn, false, was.approveAll, now.approveAll);
      LatestPush(layers[..n], layers[n], TimeoutIn, 300.0, was.timeout, now.timeout);
    }
  }
}
