/** What a repository layer makes of each [security] setting, by name: config/loader.py. */
module SecurityNames {
  import opened Options
  import opened SecurityLayers
  import opened SecurityEffects

  // ---- any number of layers ----

  /** The protections that are switched on stay on. */
  lemma {:induction false} SwitchesStayOn(base: Section, layers: seq<Section>, d: Defaults, f: string)
    requires Loaded(base, layers, d).Some? && f in base && base[f] == Bool(true)
    requires f in {"require_sandbox", "redact_tool_output", "airgap", "guard_tool_injection"}
    ensures var config := Loaded(base, layers, d).value; f in config && config[f] == Bool(true)
    decreases |layers|
  {
    if layers != [] {
      SwitchesStayOn(MergedSection(base, Clamped(base, layers[0], d).value), layers[1..], d, f);
    }
  }

  /** Links are not followed where the user does not want them followed. */
  lemma {:induction false} LinksStayUnfollowed(base: Section, layers: seq<Section>, d: Defaults, f: string)
    requires Loaded(base, layers, d).Some? && f == "follow_symlinks" && f in base
    requires base[f] == Bool(false) || base[f] == Null
    ensures var config := Loaded(base, layers, d).value;
      f in config && match config[f]
                     case Null => true
                     case Bool(b) => !b
                     case Num(n) => n == 0.0
                     case Str(text, _) => text == ""
                     case List(items) => items == []
                     case Table(keys) => keys == {}
  {
    ProjectLayersMoveOneWay(base, layers, d, f);
  }

  /** No limit rises. */
  lemma {:induction false} LimitsDoNotRise(base: Section, layers: seq<Section>, d: Defaults, f: string)
    requires Loaded(base, layers, d).Some? && f in base && base[f].Num?
    requires f in {"cpu_seconds", "wall_seconds", "rss_mb", "nproc", "fsize_mb", "nofile"}
    ensures var config := Loaded(base, layers, d).value;
      f in config && config[f].Num? && config[f].n <= base[f].n
    decreases |layers|
  {
    if layers != [] {
      LayerLowers(base, layers[0], d, f);
      LimitsDoNotRise(MergedSection(base, Clamped(base, layers[0], d).value), layers[1..], d, f);
    }
  }

  lemma {:induction false} LayerLowers(config: Section, layer: Section, d: Defaults, f: string)
    requires Clamped(config, layer, d).Some? && f in config && config[f].Num?
    requires f in {"cpu_seconds", "wall_seconds", "rss_mb", "nproc", "fsize_mb", "nofile"}
    ensures var next := MergedSection(config, Clamped(config, layer, d).value);
      f in next && next[f].Num? && next[f].n <= config[f].n
  {
  }

  /** Of the limits, those handed to the kernel are lifted by a negative value; the wall clock is not. */
  lemma {:induction false} NegativeLimits(f: string, mine: real, theirs: real, d: Defaults)
    requires theirs <= mine
    ensures f in {"cpu_seconds", "rss_mb", "nproc", "fsize_mb", "nofile"} ==>
      (Tightens(f, Num(mine), Num(theirs), d) <==> mine < 0.0 || theirs >= 0.0)
    ensures f == "wall_seconds" ==> Tightens(f, Num(mine), Num(theirs), d)
  {
  }

  /** The network setting is left alone or switched off. */
  lemma {:induction false} NetworkOnlyGoesOff(base: Section, layers: seq<Section>, d: Defaults)
    requires Loaded(base, layers, d).Some? && "network" in base
    ensures var config := Loaded(base, layers, d).value;
      && "network" in config
      && (config["network"] == base["network"] || (config["network"].Str? && config["network"].text == "off"))
  {
    ProjectLayersMoveOneWay(base, layers, d, "network");
  }

  /** The entry is in the list, however the list is written. */
  predicate Holds(v: Value, x: string) {
    match v
    case List(items) => x in items
    case Str(text, _) => |x| == 1 && x[0] in text
    case Table(keys) => x in keys
    case _ => false
  }

  lemma {:induction false} HoldsIsMember(v: Value, x: string)
    ensures Holds(v, x) <==> x in Members(v)
  {
    if v.Str? && Holds(v, x) {
      var i :| 0 <= i < |v.text| && v.text[i] == x[0];
      assert x == [v.text[i]];
    }
  }

  /** Entries only leave an allow-list. */
  lemma {:induction false} AllowListsShrink(base: Section, layers: seq<Section>, d: Defaults, f: string,
                                            x: string)
    requires Loaded(base, layers, d).Some? && f in base && f in {"env_allow", "argv_allow"}
    ensures var config := Loaded(base, layers, d).value;
      f in config && (Holds(config[f], x) ==> Holds(base[f], x))
  {
    ProjectLayersMoveOneWay(base, layers, d, f);
    StrictAllows(f, base[f], Loaded(base, layers, d).value[f], d, x);
  }

  lemma {:induction false} StrictAllows(f: string, mine: Value, v: Value, d: Defaults, x: string)
    requires AsStrict(f, mine, v, d) && f in {"env_allow", "argv_allow"}
    ensures Holds(v, x) ==> Holds(mine, x)
  {
    HoldsIsMember(mine, x);
    HoldsIsMember(v, x);
  }

  /** The pattern is in force; where no list is set, the built-in globs are. */
  predicate Denies(f: string, v: Value, d: Defaults, x: string) {
    if v != Null then Holds(v, x)
    else (f == "write_deny_globs" && x in d.writeDeny) || (f == "read_deny_globs" && x in d.readDeny)
  }

  /** Patterns only join a deny list. */
  lemma {:induction false} DenyListsGrow(base: Section, layers: seq<Section>, d: Defaults, f: string, x: string)
    requires Loaded(base, layers, d).Some? && f in base && Denies(f, base[f], d, x)
    requires f in {"env_deny_patterns", "write_deny_globs", "read_deny_globs"}
    ensures var config := Loaded(base, layers, d).value; f in config && Denies(f, config[f], d, x)
  {
    ProjectLayersMoveOneWay(base, layers, d, f);
    StrictDenies(f, base[f], Loaded(base, layers, d).value[f], d, x);
  }

  lemma {:induction false} StrictDenies(f: string, mine: Value, v: Value, d: Defaults, x: string)
    requires AsStrict(f, mine, v, d) && f in {"env_deny_patterns", "write_deny_globs", "read_deny_globs"}
    ensures Denies(f, mine, d, x) ==> Denies(f, v, d, x)
  {
    DeniesIsMember(f, mine, d, x);
    DeniesIsMember(f, v, d, x);
  }

  lemma {:induction false} DeniesIsMember(f: string, v: Value, d: Defaults, x: string)
    ensures Denies(f, v, d, x) <==> x in DenyMembers(f, v, d)
  {
    HoldsIsMember(v, x);
  }

  const GOVERNED := {
    "require_sandbox", "redact_tool_output", "airgap", "guard_tool_injection", "follow_symlinks",
    "cpu_seconds", "wall_seconds", "rss_mb", "nproc", "fsize_mb", "nofile", "network",
    "env_allow", "argv_allow", "env_deny_patterns", "write_deny_globs", "read_deny_globs"}

  /** Every other setting, the grant ceiling among them, stays the user's. */
  lemma {:induction false} OthersStay(base: Section, layers: seq<Section>, d: Defaults, f: string)
    requires Loaded(base, layers, d).Some? && f in base && f !in GOVERNED
    ensures var config := Loaded(base, layers, d).value; f in config && config[f] == base[f]
  {
    ProjectLayersMoveOneWay(base, layers, d, f);
  }

  // ---- one layer: what passes and what does not ----

  /** A value of the field's type as the user has it, one of the same type in the layer, and what is
      loaded: the stricter one, or the user's where neither is. */
  predicate OneLayer(f: string, mine: Value, theirs: Value, loaded: Value) {
    match mine
    case Bool(x) =>
      theirs.Bool? ==>
        && (f in {"require_sandbox", "redact_tool_output", "airgap", "guard_tool_injection"} ==>
              loaded == Bool(x || theirs.b))
        && (f == "follow_symlinks" ==> loaded == Bool(x && theirs.b))
    case Num(x) =>
      theirs.Num? && f in {"cpu_seconds", "wall_seconds", "rss_mb", "nproc", "fsize_mb", "nofile"} ==>
        loaded == if theirs.n <= x then theirs else mine
    case Str(x, _) =>
      theirs.Str? && f == "network" ==> loaded == if theirs.text == "off" then theirs else mine
    case List(xs) =>
      theirs.List? ==>
        && (f in {"env_allow", "argv_allow"} ==>
              loaded == if forall x :: x in theirs.items ==> x in xs then theirs else mine)
        && (f in {"env_deny_patterns", "write_deny_globs", "read_deny_globs"} ==>
              loaded == if forall x :: x in xs ==> x in theirs.items then theirs else mine)
    case _ => true
  }

  lemma {:induction false} LoadedOnce(base: Section, layer: Section, d: Defaults)
    ensures Loaded(base, [layer], d) ==
            match Clamped(base, layer, d)
            case None => None
            case Some(kept) => Some(MergedSection(base, kept))
  {
    assert [layer][1..] == [];
  }

  /** What becomes of one field: the layer's value if it passes, the user's otherwise. */
  lemma {:induction false} OneField(base: Section, layer: Section, d: Defaults, f: string)
    requires Loaded(base, [layer], d).Some? && f in base && f in layer
    requires base[f] == Null || TypeTag(base[f]) == TypeTag(layer[f]) != 5
    ensures var config, verdict := Loaded(base, [layer], d).value, Narrows(f, base[f], layer[f], d);
      f in config && verdict != Raises && config[f] == if verdict == Yes then layer[f] else base[f]
  {
    LoadedOnce(base, layer, d);
    assert Judged(base, layer, f, d) != Raises;
  }

  /** A repository's value is loaded exactly when it is at least as strict as the user's; whatever else
      the layer holds, and as long as nothing in it makes the comparison raise. */
  lemma {:induction false} OneLayerIsExact(base: Section, layer: Section, d: Defaults, f: string)
    requires Loaded(base, [layer], d).Some? && f in base && f in layer
    ensures var config := Loaded(base, [layer], d).value;
      f in config && OneLayer(f, base[f], layer[f], config[f])
  {
    if TypeTag(base[f]) == TypeTag(layer[f]) != 5 {
      OneField(base, layer, d, f);
      Stricter(f, base[f], layer[f], d);
    } else {
      LoadedOnce(base, layer, d);
    }
  }

  lemma {:induction false} Stricter(f: string, mine: Value, theirs: Value, d: Defaults)
    requires Narrows(f, mine, theirs, d) != Raises
    ensures OneLayer(f, mine, theirs, if Narrows(f, mine, theirs, d) == Yes then theirs else mine)
  {
    if mine.List? && theirs.List? {
      ListsCompare(mine, theirs);
    }
  }

  lemma {:induction false} ListsCompare(v: Value, w: Value)
    requires v.List? && w.List?
    ensures SetOrEmpty(v) == Some(Elements(v.items)) && AsSet(v) == SetOrEmpty(v)
    ensures SetOrEmpty(w) == Some(Elements(w.items)) && AsSet(w) == SetOrEmpty(w)
    ensures Elements(v.items) <= Elements(w.items) <==> forall x :: x in v.items ==> x in w.items
    ensures Elements(w.items) <= Elements(v.items) <==> forall x :: x in w.items ==> x in v.items
  {
    assert v.items == [] ==> Elements(v.items) == {};
    assert w.items == [] ==> Elements(w.items) == {};
    if Elements(v.items) <= Elements(w.items) {
      forall x | x in v.items ensures x in w.items {
        assert x in Elements(v.items);
      }
    }
    if Elements(w.items) <= Elements(v.items) {
      forall x | x in w.items ensures x in v.items {
        assert x in Elements(w.items);
      }
    }
  }

  /** Where no globs are set, a layer's list is loaded exactly when it keeps all the built-in ones. */
  lemma {:induction false} UnsetGlobsAreTheBuiltIn(base: Section, layer: Section, d: Defaults, f: string)
    requires Loaded(base, [layer], d).Some? && f in base && f in layer && base[f] == Null && layer[f].List?
    requires f in {"write_deny_globs", "read_deny_globs"}
    ensures var builtIn := if f == "write_deny_globs" then d.writeDeny else d.readDeny;
      var config := Loaded(base, [layer], d).value;
      f in config && config[f] == if forall x :: x in builtIn ==> x in layer[f].items then layer[f] else Null
  {
    OneField(base, layer, d, f);
    ListsCompare(layer[f], layer[f]);
  }

  /** A layer of lists and scalars of the declared types never makes it raise. */
  predicate Typed(f: string, v: Value) {
    f in {"env_allow", "argv_allow", "env_deny_patterns", "write_deny_globs", "read_deny_globs"} ==>
      v.List? || v == Null
  }

  lemma {:induction false} TypedLayersLoad(base: Section, layer: Section, d: Defaults)
    requires forall f :: f in base ==> Typed(f, base[f])
    requires forall f :: f in layer ==> Typed(f, layer[f])
    ensures Loaded(base, [layer], d).Some?
  {
    LoadedOnce(base, layer, d);
    forall f | f in layer ensures Judged(base, layer, f, d) != Raises {
      assert Typed(f, Lookup(base, f)) && Typed(f, layer[f]);
    }
  }
}
