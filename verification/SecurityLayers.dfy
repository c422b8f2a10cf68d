/** Repository config layers may only tighten [security]: config/loader.py. */
module SecurityLayers {
  import opened Options

  /** A parsed config value. `num` is what `float()` reads off a string, if anything. */
  datatype Value =
    | Null
    | Bool(b: bool)
    | Num(n: real)
    | Str(text: string, num: Option<real>)
    | List(items: seq<string>)
    | Table(keys: set<string>)

  type Section = map<string, Value>

  const SAFER_TRUE := {"require_sandbox", "redact_tool_output", "airgap", "guard_tool_injection"}
  const SAFER_FALSE := {"follow_symlinks"}
  const SAFER_LOWER := {"cpu_seconds", "wall_seconds", "rss_mb", "nproc", "fsize_mb", "nofile"}
  const SAFER_SUBSET := {"env_allow", "argv_allow"}
  const SAFER_SUPERSET := {"env_deny_patterns", "write_deny_globs", "read_deny_globs"}

  /** Which order a field is governed by, if any. */
  datatype Order = SaferTrue | SaferFalse | SaferLower | Network | SaferSubset | SaferSuperset

  function OrderOf(field: string): Option<Order> {
    if field in SAFER_TRUE then Some(SaferTrue)
    else if field in SAFER_FALSE then Some(SaferFalse)
    else if field in SAFER_LOWER then Some(SaferLower)
    else if field == "network" then Some(Network)
    else if field in SAFER_SUBSET then Some(SaferSubset)
    else if field in SAFER_SUPERSET then Some(SaferSuperset)
    else None
  }

  /** The built-in deny globs that stand in for a missing list. */
  datatype Defaults = Defaults(writeDeny: set<string>, readDeny: set<string>)

  // ---- Python's view of a value ----

  predicate Truthy(v: Value) {
    match v
    case Null => false
    case Bool(b) => b
    case Num(n) => n != 0.0
    case Str(text, _) => text != ""
    case List(items) => items != []
    case Table(keys) => keys != {}
  }

  /** `float(v)`; None where it raises. */
  function AsFloat(v: Value): Option<real> {
    match v
    case Bool(b) => Some(if b then 1.0 else 0.0)
    case Num(n) => Some(n)
    case Str(_, num) => num
    case _ => None
  }

  function Chars(text: string): set<string> {
    set i | 0 <= i < |text| :: [text[i]]
  }

  function Elements(items: seq<string>): set<string> {
    set x | x in items
  }

  /** `set(v)`; None where it raises. */
  function AsSet(v: Value): Option<set<string>> {
    match v
    case Str(text, _) => Some(Chars(text))
    case List(items) => Some(Elements(items))
    case Table(keys) => Some(keys)
    case _ => None
  }

  /** `set(v or [])` */
  function SetOrEmpty(v: Value): Option<set<string>> {
    if Truthy(v) then AsSet(v) else Some({})
  }

  /** The deny list a field stands for: a missing list of globs means the built-in ones. */
  function ResolvedDeny(field: string, v: Value, d: Defaults): Option<set<string>> {
    if v != Null then AsSet(v)
    else if field == "write_deny_globs" then Some(d.writeDeny)
    else if field == "read_deny_globs" then Some(d.readDeny)
    else Some({})
  }

  function TypeTag(v: Value): nat {
    match v
    case Null => 0
    case Bool(_) => 1
    case Num(_) => 2
    case Str(_, _) => 3
    case List(_) => 4
    case Table(_) => 5
  }

  predicate TypeCompatible(current: Value, v: Value) {
    current == Null || v == Null || TypeTag(current) == TypeTag(v)
  }

  // ---- clamping and merging one layer ----

  datatype Answer = Yes | No | Raises

  function Within(a: Option<set<string>>, b: Option<set<string>>): Answer {
    if a.None? || b.None? then Raises else if a.value <= b.value then Yes else No
  }

  function YesIf(b: bool): Answer {
    if b then Yes else No
  }

  /** Is `v` at least as strict as `current` for the field? */
  function Narrows(field: string, current: Value, v: Value, d: Defaults): Answer {
    match OrderOf(field)
    case None => No
    case Some(SaferTrue) => YesIf(Truthy(current) ==> Truthy(v))
    case Some(SaferFalse) => YesIf(Truthy(v) ==> Truthy(current))
    case Some(SaferLower) =>
      YesIf(AsFloat(v).Some? && AsFloat(current).Some? && AsFloat(v).value <= AsFloat(current).value)
    case Some(Network) => YesIf((v.Str? && v.text == "off") || v == current)
    case Some(SaferSubset) => Within(SetOrEmpty(v), SetOrEmpty(current))
    case Some(SaferSuperset) => Within(ResolvedDeny(field, current, d), SetOrEmpty(v))
  }

  function Lookup(s: Section, field: string): Value {
    if field in s then s[field] else Null
  }

  function Judged(config: Section, layer: Section, field: string, d: Defaults): Answer
    requires field in layer
  {
    Narrows(field, Lookup(config, field), layer[field], d)
  }

  /** What the clamp leaves of a project layer's section; None when a comparison raises. */
  function Clamped(config: Section, layer: Section, d: Defaults): Option<Section> {
    if exists f :: f in layer && Judged(config, layer, f, d) == Raises then None
    else Some(map f | f in layer && Judged(config, layer, f, d) == Yes :: layer[f])
  }

  function MergedValue(current: Value, v: Value): Value {
    if current.Table? && v.Table? then Table(current.keys + v.keys)
    else if TypeCompatible(current, v) then v
    else current
  }

  /** Unknown keys are skipped, and so are values of the wrong type. */
  function MergedSection(config: Section, layer: Section): Section {
    map f | f in config :: if f in layer then MergedValue(config[f], layer[f]) else config[f]
  }

  method Clamp(config: Section, layer: Section, d: Defaults) returns (clamped: Option<Section>)
    ensures clamped == Clamped(config, layer, d)
  {
    var kept := layer;
    var todo := layer.Keys;
    while todo != {}
      invariant todo <= layer.Keys && kept.Keys <= layer.Keys
      invariant forall f :: f in kept ==> kept[f] == layer[f]
      invariant forall f :: f in layer && f !in todo ==> Judged(config, layer, f, d) != Raises
      invariant forall f :: f in layer ==> (f in kept <==> f in todo || Judged(config, layer, f, d) == Yes)
    {
      var f :| f in todo;
      todo := todo - {f};
      var answer := Judged(config, layer, f, d);
      if answer == Raises {
        return None;
      }
      if answer == No {
        kept := kept - {f};
      }
    }
    clamped := Some(kept);
    assert kept == map f | f in layer && Judged(config, layer, f, d) == Yes :: layer[f];
  }

  method Merge(config: Section, layer: Section) returns (merged: Section)
    ensures merged == MergedSection(config, layer)
  {
    merged := config;
    var todo := layer.Keys;
    while todo != {}
      invariant todo <= layer.Keys && merged.Keys == config.Keys
      invariant forall f :: f in config ==>
                  merged[f] == if f in layer && f !in todo then MergedValue(config[f], layer[f]) else config[f]
    {
      var f :| f in todo;
      todo := todo - {f};
      if f in merged {
        merged := merged[f := MergedValue(merged[f], layer[f])];
      }
    }
  }

  /** All project layers in turn, each clamped against what is merged so far. */
  function Loaded(config: Section, layers: seq<Section>, d: Defaults): Option<Section>
    decreases |layers|
  {
    if layers == [] then Some(config)
    else
      match Clamped(config, layers[0], d)
      case None => None
      case Some(kept) => Loaded(MergedSection(config, kept), layers[1..], d)
  }

  method LoadProjectLayers(base: Section, layers: seq<Section>, d: Defaults) returns (config: Option<Section>)
    ensures config == Loaded(base, layers, d)
  {
    var merged := base;
    for i := 0 to |layers|
      invariant Loaded(merged, layers[i..], d) == Loaded(base, layers, d)
    {
      assert layers[i..][0] == layers[i] && layers[i..][1..] == layers[i + 1..];
      var kept := Clamp(merged, layers[i], d);
      if kept.None? {
        return None;
      }
      merged := Merge(merged, kept.value);
    }
    config := Some(merged);
  }

  // ---- the clamp's own order ----

  /** The members of a list-like value; a value that is not one counts as empty. */
  function Members(v: Value): set<string> {
    if AsSet(v).Some? then AsSet(v).value else {}
  }

  function DenyMembers(field: string, v: Value, d: Defaults): set<string> {
    if ResolvedDeny(field, v, d).Some? then ResolvedDeny(field, v, d).value else {}
  }

  /** Is `v` as strict as `base` in the order the clamp compares by? There an empty allow-list is the
      strictest; what the settings come to in use is another matter. Ungoverned fields must not move. */
  predicate AsStrict(field: string, base: Value, v: Value, d: Defaults) {
    match OrderOf(field)
    case None => v == base
    case Some(SaferTrue) => Truthy(base) ==> Truthy(v)
    case Some(SaferFalse) => Truthy(v) ==> Truthy(base)
    case Some(SaferLower) =>
      v == base || (AsFloat(v).Some? && AsFloat(base).Some? && AsFloat(v).value <= AsFloat(base).value)
    case Some(Network) => v == base || (v.Str? && v.text == "off")
    case Some(SaferSubset) => Members(v) <= Members(base)
    case Some(SaferSuperset) => DenyMembers(field, base, d) <= DenyMembers(field, v, d)
  }

  lemma {:induction false} AsStrictTransitive(field: string, a: Value, b: Value, c: Value, d: Defaults)
    requires AsStrict(field, a, b, d) && AsStrict(field, b, c, d)
    ensures AsStrict(field, a, c, d)
  {
  }

  /** A value the clamp lets through moves the field only one way in that order, however it is typed. */
  lemma {:induction false} AcceptedIsAsStrict(field: string, current: Value, v: Value, d: Defaults)
    requires Narrows(field, current, v, d) == Yes
    ensures AsStrict(field, current, MergedValue(current, v), d)
  {
  }

  lemma {:induction false} LayerIsAsStrict(config: Section, layer: Section, d: Defaults, field: string)
    requires Clamped(config, layer, d).Some? && field in config
    ensures var next := MergedSection(config, Clamped(config, layer, d).value);
            next.Keys == config.Keys && AsStrict(field, config[field], next[field], d)
  {
    var kept := Clamped(config, layer, d).value;
    if field in kept {
      AcceptedIsAsStrict(field, config[field], layer[field], d);
    }
  }

  /**
   * However many repository layers are loaded, and whatever they hold, every governed field ends at
   * or past the user's own setting in the clamp's order, every other field as the user left it.
   */
  lemma {:induction false} ProjectLayersMoveOneWay(base: Section, layers: seq<Section>, d: Defaults,
                                                   field: string)
    requires Loaded(base, layers, d).Some? && field in base
    ensures var config := Loaded(base, layers, d).value;
            config.Keys == base.Keys && AsStrict(field, base[field], config[field], d)
    decreases |layers|
  {
    if layers != [] {
      var next := MergedSection(base, Clamped(base, layers[0], d).value);
      LayerIsAsStrict(base, layers[0], d, field);
      ProjectLayersMoveOneWay(next, layers[1..], d, field);
      AsStrictTransitive(field, base[field], next[field], Loaded(base, layers, d).value[field], d);
    }
  }

  /** A missing deny list is not an empty one: a layer that empties it is refused. */
  lemma {:induction false} EmptyDenyListIsRefused(config: Section, d: Defaults)
    requires "write_deny_globs" in config && config["write_deny_globs"] == Null && d.writeDeny != {}
    ensures var layer := map["write_deny_globs" := List([])];
            Clamped(config, layer, d) == Some(map[])
  {
    var layer := map["write_deny_globs" := List([])];
    assert Narrows("write_deny_globs", Null, List([]), d) == No;
  }
}
