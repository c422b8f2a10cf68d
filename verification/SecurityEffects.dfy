/** What a setting of [security] permits in use, and when a repository layer loosens it:
    config/loader.py against security/policy.py, security/runner.py, security/fs.py and
    tools/shell/main.py. */
module SecurityEffects {
  import opened Options
  import opened SecurityLayers

  // ---- what the consumers make of a value ----

  /** `not allow or x in allow`: an empty allow-list restricts nothing. */
  predicate Lets(allow: Value, x: string) {
    !Truthy(allow) || x in Members(allow)
  }

  const RLIMITS := {"cpu_seconds", "rss_mb", "nproc", "fsize_mb", "nofile"}

  /** The bound in force; None where there is none. `setrlimit` takes a negative one for no limit; the
      wall clock does not go through it. */
  function Enforced(field: string, v: Value): Option<real>
    requires v.Num?
  {
    if field in RLIMITS && v.n < 0.0 then None else Some(v.n)
  }

  predicate AtMost(a: Option<real>, b: Option<real>) {
    b.None? || (a.Some? && a.value <= b.value)
  }

  /** An empty deny list denies nothing, the globs added from elsewhere included. */
  ghost predicate Denied(field: string, v: Value, d: Defaults, extra: set<string>, hits: string -> bool) {
    var globs := DenyMembers(field, v, d);
    globs != {} && exists g :: g in globs + extra && hits(g)
  }

  predicate NetworkOn(v: Value) {
    v.Str? && v.text == "on"
  }

  /** Nothing is permitted under `v` that was not permitted under `base`. */
  ghost predicate Tightens(field: string, base: Value, v: Value, d: Defaults)
    requires OrderOf(field) == Some(SaferLower) ==> base.Num? && v.Num?
  {
    match OrderOf(field)
    case None => v == base
    case Some(SaferTrue) => Truthy(base) ==> Truthy(v)
    case Some(SaferFalse) => Truthy(v) ==> Truthy(base)
    case Some(SaferLower) => AtMost(Enforced(field, v), Enforced(field, base))
    case Some(Network) => NetworkOn(v) ==> NetworkOn(base)
    case Some(SaferSubset) => forall x :: Lets(v, x) ==> Lets(base, x)
    case Some(SaferSuperset) =>
      forall extra: set<string>, hits: string -> bool ::
        Denied(field, base, d, extra, hits) ==> Denied(field, v, d, extra, hits)
  }

  // ---- where the clamp's order and the effect part ----

  /** The setting restricts in a way that a value further along the clamp's order can lift. */
  predicate Restricts(field: string, base: Value) {
    match OrderOf(field)
    case Some(SaferSubset) => Truthy(base)
    case Some(SaferLower) => field in RLIMITS && base.Num? && base.n >= 0.0
    case _ => false
  }

  /** The value lifts such a restriction. */
  predicate Lifts(field: string, v: Value) {
    match OrderOf(field)
    case Some(SaferSubset) => !Truthy(v)
    case Some(SaferLower) => v.Num? && v.n < 0.0
    case _ => false
  }

  lemma {:induction false} LongerThanAll(names: set<string>) returns (x: string)
    ensures forall n :: n in names ==> |n| < |x|
  {
    if names == {} {
      x := "";
    } else {
      var n :| n in names;
      var rest := LongerThanAll(names - {n});
      x := if |rest| > |n| then rest else n + "x";
    }
  }

  /** A value past another one in the clamp's order tightens exactly when it does not lift. */
  lemma {:induction false} TightensIff(field: string, base: Value, v: Value, d: Defaults)
    requires AsStrict(field, base, v, d)
    requires OrderOf(field) == Some(SaferLower) ==> base.Num? && v.Num?
    ensures Tightens(field, base, v, d) <==> !(Restricts(field, base) && Lifts(field, v))
  {
    match OrderOf(field)
    case Some(SaferSubset) =>
      if Truthy(base) && !Truthy(v) {
        var x := LongerThanAll(Members(base));
        assert Lets(v, x) && !Lets(base, x);
      }
    case Some(SaferSuperset) =>
      forall extra: set<string>, hits: string -> bool | Denied(field, base, d, extra, hits)
        ensures Denied(field, v, d, extra, hits)
      {
        var g :| g in DenyMembers(field, base, d) + extra && hits(g);
        assert g in DenyMembers(field, v, d) + extra;
      }
    case _ =>
  }

  // ---- all layers ----

  /** The type the field is declared with, where it matters here. */
  predicate Declared(field: string, v: Value) {
    && (OrderOf(field) == Some(SaferLower) ==> v.Num?)
    && (OrderOf(field) == Some(SaferSubset) ==> v.List?)
  }

  /** The values that lift a restriction and are not ignored for their type. */
  predicate LiftsAs(field: string, v: Value) {
    match OrderOf(field)
    case Some(SaferSubset) => v == List([]) || v == Null
    case Some(SaferLower) => v.Num? && v.n < 0.0
    case _ => false
  }

  predicate LayerLifts(layer: Section, field: string) {
    field in layer && LiftsAs(field, layer[field])
  }

  /** A value as it can be once layers are loaded: of its type, or lifted for good. */
  predicate Loadable(field: string, v: Value) {
    && (OrderOf(field) == Some(SaferLower) ==> v.Num?)
    && (OrderOf(field) == Some(SaferSubset) ==> v.List? || !Truthy(v))
  }

  lemma {:induction false} TruthyHasMembers(v: Value)
    requires Truthy(v) && AsSet(v).Some?
    ensures AsSet(v).value != {}
  {
    match v
    case Str(text, _) => assert [text[0]] in Chars(text);
    case List(items) => assert items[0] in Elements(items);
    case Table(keys) =>
  }

  /** One layer lifts a restriction exactly when it holds such a value, and none comes back. */
  lemma {:induction false} LayerLiftsIff(config: Section, layer: Section, d: Defaults, field: string)
    requires Clamped(config, layer, d).Some? && field in config && Loadable(field, config[field])
    requires OrderOf(field) in {Some(SaferLower), Some(SaferSubset)}
    ensures var next := MergedSection(config, Clamped(config, layer, d).value);
      && field in next && Loadable(field, next[field])
      && (Lifts(field, next[field]) <==> Lifts(field, config[field]) || LayerLifts(layer, field))
  {
    if field in layer {
      assert Judged(config, layer, field, d) != Raises;
      if Truthy(layer[field]) && AsSet(layer[field]).Some? {
        TruthyHasMembers(layer[field]);
      }
    }
  }

  lemma {:induction false} LoadedLiftsIff(base: Section, layers: seq<Section>, d: Defaults, field: string)
    requires Loaded(base, layers, d).Some? && field in base && Loadable(field, base[field])
    requires OrderOf(field) in {Some(SaferLower), Some(SaferSubset)}
    ensures var config := Loaded(base, layers, d).value;
      && field in config && Loadable(field, config[field])
      && (Lifts(field, config[field]) <==>
            Lifts(field, base[field]) || exists l :: l in layers && LayerLifts(l, field))
    decreases |layers|
  {
    if layers != [] {
      LayerLiftsIff(base, layers[0], d, field);
      LoadedLiftsIff(MergedSection(base, Clamped(base, layers[0], d).value), layers[1..], d, field);
      assert layers == [layers[0]] + layers[1..];
    }
  }

  /**
   * After any number of repository layers, a field permits nothing that the user's own setting did
   * not, exactly unless the user's setting is a non-empty allow-list and some layer empties it, or
   * a resource limit and some layer makes it negative.
   */
  lemma {:induction false} ProjectLayersTightenIff(base: Section, layers: seq<Section>, d: Defaults,
                                                   field: string)
    requires Loaded(base, layers, d).Some? && field in base && Declared(field, base[field])
    ensures var config := Loaded(base, layers, d).value;
      && field in config && (OrderOf(field) == Some(SaferLower) ==> config[field].Num?)
      && (Tightens(field, base[field], config[field], d) <==>
            !(Restricts(field, base[field]) && exists l :: l in layers && LayerLifts(l, field)))
  {
    var config := Loaded(base, layers, d).value;
    ProjectLayersMoveOneWay(base, layers, d, field);
    if OrderOf(field) in {Some(SaferLower), Some(SaferSubset)} {
      LoadedLiftsIff(base, layers, d, field);
    }
    TightensIff(field, base[field], config[field], d);
  }

  // ---- inputs that show it ----

  lemma {:induction false} OneSetting(base: Section, layer: Section, d: Defaults, field: string)
    requires layer.Keys == {field} && Judged(base, layer, field, d) == Yes
    ensures Clamped(base, layer, d) == Some(layer)
  {
    var kept := map f | f in layer && Judged(base, layer, f, d) == Yes :: layer[f];
    assert forall f :: f in layer <==> f == field;
    assert kept == layer;
    assert !(exists f :: f in layer && Judged(base, layer, f, d) == Raises);
  }

  /** The user lets only git be run. An empty list from a repository passes the clamp, and then
      anything may be. */
  lemma {:induction false} EmptyAllowListLifts(d: Defaults)
    ensures Loaded(map["argv_allow" := List(["git"])], [map["argv_allow" := List([])]], d) ==
            Some(map["argv_allow" := List([])])
    ensures !Lets(List(["git"]), "curl") && Lets(List([]), "curl")
  {
    var base, layer := map["argv_allow" := List(["git"])], map["argv_allow" := List([])];
    assert Judged(base, layer, "argv_allow", d) == Yes;
    OneSetting(base, layer, d, "argv_allow");
    assert [layer][1..] == [];
    assert MergedSection(base, layer) == layer;
  }

  /** A negative processor limit passes the clamp as a lower one, and is none. */
  lemma {:induction false} NegativeLimitLifts(d: Defaults)
    ensures Loaded(map["cpu_seconds" := Num(20.0)], [map["cpu_seconds" := Num(-1.0)]], d) ==
            Some(map["cpu_seconds" := Num(-1.0)])
    ensures Enforced("cpu_seconds", Num(20.0)) == Some(20.0) && Enforced("cpu_seconds", Num(-1.0)) == None
  {
    var base, layer := map["cpu_seconds" := Num(20.0)], map["cpu_seconds" := Num(-1.0)];
    assert Judged(base, layer, "cpu_seconds", d) == Yes;
    OneSetting(base, layer, d, "cpu_seconds");
    assert [layer][1..] == [];
    assert MergedSection(base, layer) == layer;
  }
}
