/** What the skill store keeps over whole runs of saves, rollbacks and deletions: skills.py. */
module SkillRuns {
  import opened Options
  import opened Text
  import opened SkillFile
  import opened SkillFences
  import opened SkillStore

  datatype Op =
    | Save(name: string, content: string, description: Option<string>, origin: string, now: string)
    | Rollback(name: string, version: int, now: string)
    | Delete(name: string)

  /** Neither an origin nor a time handed in holds a line break. Descriptions and bodies may. */
  predicate CleanOp(op: Op) {
    match op
    case Save(_, _, _, origin, now) => OneLine(origin) && OneLine(now)
    case Rollback(_, _, now) => OneLine(now)
    case Delete(_) => true
  }

  function Outcome(sh: Shelf, op: Op): (Shelf, Result<Meta>) {
    match op
    case Save(name, content, description, origin, now) =>
      Saved(sh, name, content, description, origin, now)
    case Rollback(name, version, now) => RolledBack(sh, name, version, now)
    case Delete(name) => (Deleted(sh, name).0, Err(NoArchive))
  }

  function After(ops: seq<Op>): Shelf {
    if ops == [] then EMPTY else Outcome(After(ops[..|ops| - 1]), ops[|ops| - 1]).0
  }

  /** One skill's account: the metadata saved since it was last deleted, and the highest number
      its archive has reached. */
  datatype Ledger = Ledger(saves: seq<Meta>, top: nat)

  function Raised(l: Ledger): nat {
    if |l.saves| > l.top then |l.saves| else l.top
  }

  function BookedSave(l: Ledger, r: Result<Meta>, slug: string): Ledger {
    if r.Ok? && r.value.name == slug then Ledger(l.saves + [r.value], Raised(l)) else l
  }

  function Booked(l: Ledger, sh: Shelf, op: Op, slug: string): Ledger {
    if !op.Delete? then BookedSave(l, Outcome(sh, op).1, slug)
    else if Normalize(op.name) == slug then Ledger([], Raised(l))
    else l
  }

  function LedgerOf(ops: seq<Op>, slug: string): Ledger {
    if ops == [] then Ledger([], 0)
    else
      var init := ops[..|ops| - 1];
      Booked(LedgerOf(init, slug), After(init), ops[|ops| - 1], slug)
  }

  /** A description handed to a save of the skill leaves the version written readable. */
  predicate ReadableOp(sh: Shelf, op: Op, slug: string) {
    var r := Outcome(sh, op).1;
    op.Save? && op.description.Some? && r.Ok? && r.value.name == slug ==> VersionReads(r.value)
  }

  ghost predicate ReadableRun(ops: seq<Op>, slug: string) {
    ops == [] ||
    (var init := ops[..|ops| - 1];
     ReadableRun(init, slug) && ReadableOp(After(init), ops[|ops| - 1], slug))
  }

  // ---- the invariant ----

  predicate GoodSave(m: Meta, slug: string, version: int) {
    && m.name == slug && m.version == version && OthersOneLine(m) && VersionReads(m)
    && Trimmed(m.body) && m.body != ""
  }

  function Texts(saves: seq<Meta>): seq<string> {
    seq(|saves|, i requires 0 <= i < |saves| => Render(saves[i]))
  }

  /** The archive has exactly the numbers up to `top`, and the first n texts under theirs. */
  ghost predicate InArchive(archive: map<(string, int), string>, slug: string, texts: seq<string>,
                            n: nat, top: nat)
    requires n <= |texts|
  {
    && n <= top
    && (forall v :: (slug, v) in archive <==> 1 <= v <= top)
    && (forall v :: 1 <= v <= n ==> archive[(slug, v)] == texts[v - 1])
  }

  /** The last text is current, every earlier one is archived under its own number. */
  ghost predicate Kept(sh: Shelf, slug: string, texts: seq<string>, top: nat) {
    && (slug in sh.current <==> texts != [])
    && (texts != [] ==> sh.current[slug] == texts[|texts| - 1])
    && InArchive(sh.archive, slug, texts, if texts == [] then 0 else |texts| - 1, top)
  }

  ghost predicate GoodSaves(saves: seq<Meta>, slug: string) {
    forall i :: 0 <= i < |saves| ==> GoodSave(saves[i], slug, i + 1)
  }

  /** The files hold what the ledger says. */
  ghost predicate Shelved(sh: Shelf, slug: string, l: Ledger) {
    GoodSaves(l.saves, slug) && Kept(sh, slug, Texts(l.saves), l.top)
  }

  lemma {:induction false} CurrentVersionIff(sh: Shelf, slug: string, m: Meta)
    requires OthersOneLine(m) && slug in sh.current && sh.current[slug] == Render(m)
    ensures Current(sh, slug).version == m.version <==> VersionReads(m)
  {
    VersionReadsIff(m, slug);
  }

  lemma {:induction false} CurrentReads(sh: Shelf, slug: string, l: Ledger)
    requires Shelved(sh, slug, l) && l.saves != []
    ensures slug in sh.current && Current(sh, slug).version == |l.saves|
  {
    var last := l.saves[|l.saves| - 1];
    assert GoodSave(last, slug, |l.saves|);
    assert sh.current[slug] == Texts(l.saves)[|l.saves| - 1];
    CurrentVersionIff(sh, slug, last);
  }

  function Stored(sh: Shelf, slug: string, texts: seq<string>): Shelf
    requires texts != []
  {
    sh.(archive := sh.archive[(slug, |texts|) := texts[|texts| - 1]])
  }

  lemma {:induction false} StoredInArchive(sh: Shelf, slug: string, texts: seq<string>, top: nat)
    requires texts != [] && Kept(sh, slug, texts, top)
    ensures InArchive(Stored(sh, slug, texts).archive, slug, texts, |texts|,
                      if |texts| > top then |texts| else top)
  {
    var r := Stored(sh, slug, texts);
    forall v ensures (slug, v) in r.archive <==> v == |texts| || (slug, v) in sh.archive {
    }
  }

  lemma {:induction false} WrittenKept(sh: Shelf, slug: string, texts: seq<string>, top: nat, text: string)
    requires InArchive(sh.archive, slug, texts, |texts|, top)
    ensures Kept(sh.(current := sh.current[slug := text]), slug, texts + [text], top)
  {
  }

  /** A description taken over from a file is a single line. */
  lemma {:induction false} KeptDescriptionReads(sh: Shelf, slug: string, body: string, origin: string,
                                                now: string)
    requires Plain(slug)
    ensures VersionReads(NextMeta(sh, slug, body, None, origin, now))
  {
    if slug in sh.current {
      ReadIsPlain(sh.current[slug], slug);
    }
    OneLineShows(NextMeta(sh, slug, body, None, origin, now).description);
  }

  lemma {:induction false} NextIsGood(sh: Shelf, slug: string, l: Ledger, body: string,
                   description: Option<string>, origin: string, now: string)
    requires Shelved(sh, slug, l) && Plain(slug)
    requires OneLine(origin) && OneLine(now)
    requires description.Some? ==> VersionReads(NextMeta(sh, slug, body, description, origin, now))
    requires Trimmed(body) && body != ""
    ensures GoodSave(NextMeta(sh, slug, body, description, origin, now), slug, |l.saves| + 1)
  {
    if description.None? {
      KeptDescriptionReads(sh, slug, body, origin, now);
    }
    if slug in sh.current {
      CurrentReads(sh, slug, l);
      ReadIsPlain(sh.current[slug], slug);
    }
  }

  lemma {:induction false} SavesGrow(saves: seq<Meta>, m: Meta, slug: string)
    requires GoodSaves(saves, slug) && GoodSave(m, slug, |saves| + 1)
    ensures GoodSaves(saves + [m], slug)
  {
  }

  lemma {:induction false} WriteKeeps(sh: Shelf, l: Ledger, slug: string, meta: Meta)
    requires Shelved(sh, slug, l) && GoodSave(meta, slug, |l.saves| + 1)
    ensures var kept := if slug in sh.current then Archived(sh, slug) else sh;
      Shelved(kept.(current := kept.current[slug := Render(meta)]), slug,
              Ledger(l.saves + [meta], Raised(l)))
  {
    var texts := Texts(l.saves);
    assert Texts(l.saves + [meta]) == texts + [Render(meta)];
    SavesGrow(l.saves, meta, slug);
    if l.saves != [] {
      CurrentReads(sh, slug, l);
      StoredInArchive(sh, slug, texts, l.top);
      WrittenKept(Stored(sh, slug, texts), slug, texts, Raised(l), Render(meta));
    } else {
      assert texts == [];
      WrittenKept(sh, slug, [], l.top, Render(meta));
    }
  }

  lemma {:induction false} SaveWrites(sh: Shelf, l: Ledger, op: Op, slug: string)
    requires op.Save? && CleanOp(op) && ReadableOp(sh, op, slug)
    requires Normalize(op.name) == slug && Shelved(sh, slug, l)
    requires slug != "" && Strip(op.content) != ""
    ensures Shelved(Outcome(sh, op).0, slug, Booked(l, sh, op, slug))
  {
    var body := Strip(op.content);
    SlugShape(op.name);
    StripTrims(op.content);
    NextIsGood(sh, slug, l, body, op.description, op.origin, op.now);
    WriteKeeps(sh, l, slug, NextMeta(sh, slug, body, op.description, op.origin, op.now));
  }

  /** Nothing of a skill depends on the files of another. */
  lemma {:induction false} OthersKept(sh: Shelf, r: Shelf, slug: string, other: string, texts: seq<string>,
                                      top: nat)
    requires slug != other && Kept(sh, slug, texts, top)
    requires r.current - {other} == sh.current - {other}
    requires forall k: (string, int) :: k.0 != other ==>
               (k in r.archive <==> k in sh.archive) && (k in sh.archive ==> r.archive[k] == sh.archive[k])
    ensures Kept(r, slug, texts, top)
  {
    assert slug in r.current <==> slug in r.current - {other};
    assert slug in sh.current <==> slug in sh.current - {other};
    if slug in sh.current {
      assert (r.current - {other})[slug] == (sh.current - {other})[slug];
    }
  }

  lemma {:induction false} SaveElsewhere(sh: Shelf, texts: seq<string>, top: nat, op: Op, slug: string)
    requires op.Save? && Normalize(op.name) != slug && Kept(sh, slug, texts, top)
    ensures Kept(Outcome(sh, op).0, slug, texts, top)
    ensures var r := Outcome(sh, op).1; r.Ok? ==> r.value.name != slug
  {
    OthersKept(sh, Outcome(sh, op).0, slug, Normalize(op.name), texts, top);
  }

  lemma {:induction false} SaveKeepsShelved(sh: Shelf, l: Ledger, op: Op, slug: string)
    requires op.Save? && CleanOp(op) && ReadableOp(sh, op, slug) && Shelved(sh, slug, l)
    ensures Shelved(Outcome(sh, op).0, slug, Booked(l, sh, op, slug))
  {
    if Normalize(op.name) != slug {
      SaveElsewhere(sh, Texts(l.saves), l.top, op, slug);
    } else if slug != "" && Strip(op.content) != "" {
      SaveWrites(sh, l, op, slug);
    }
  }

  lemma {:induction false} DeleteKeepsShelved(sh: Shelf, l: Ledger, op: Op, slug: string)
    requires op.Delete? && Shelved(sh, slug, l)
    ensures Shelved(Outcome(sh, op).0, slug, Booked(l, sh, op, slug))
  {
    var name := Normalize(op.name);
    if name != slug {
      OthersKept(sh, Outcome(sh, op).0, slug, name, Texts(l.saves), l.top);
    } else if l.saves != [] {
      CurrentReads(sh, slug, l);
      StoredInArchive(sh, slug, Texts(l.saves), l.top);
      assert Texts([]) == [];
    }
  }

  /** A rollback is the save of what the archive holds. */
  function AsSave(sh: Shelf, op: Op): Op
    requires op.Rollback? && (Normalize(op.name), op.version) in sh.archive
  {
    var slug := Normalize(op.name);
    var was := Parsed(sh.archive[(slug, op.version)], ArchiveStem(op.version));
    Save(slug, was.body, Some(was.description), "rollback", op.now)
  }

  lemma {:induction false} StemIsOneLine(version: int)
    ensures Plain(ArchiveStem(version)) && ArchiveStem(version) != ""
  {
    var t, r := ArchiveStem(version), IntText(version);
    IntIsPlain(version);
    IndexAbsent(r, '\n');
    IndexAbsent(t, '\n');
    assert t[|t| - 1] == r[|r| - 1];
  }

  lemma {:induction false} RollbackIsOneLine()
    ensures OneLine("rollback")
  {
    IndexAbsent("rollback", '\n');
  }

  lemma {:induction false} AsSaveIsReadable(sh: Shelf, op: Op, slug: string)
    requires op.Rollback? && CleanOp(op) && (Normalize(op.name), op.version) in sh.archive
    ensures CleanOp(AsSave(sh, op)) && ReadableOp(sh, AsSave(sh, op), slug)
  {
    var save := AsSave(sh, op);
    ReadIsPlain(sh.archive[(Normalize(op.name), op.version)], ArchiveStem(op.version));
    StemIsOneLine(op.version);
    RollbackIsOneLine();
    OneLineShows(save.description.value);
    if Outcome(sh, save).1.Ok? {
      SavedDescription(sh, save);
    }
  }

  lemma {:induction false} SavedDescription(sh: Shelf, op: Op)
    requires op.Save? && op.description.Some? && Outcome(sh, op).1.Ok?
    ensures Outcome(sh, op).1.value.description == op.description.value
  {
  }

  lemma {:induction false} RollbackIsSave(sh: Shelf, op: Op)
    requires op.Rollback? && (Normalize(op.name), op.version) in sh.archive
    ensures Outcome(sh, op) == Outcome(sh, AsSave(sh, op))
    ensures forall l, slug :: Booked(l, sh, op, slug) == Booked(l, sh, AsSave(sh, op), slug)
  {
  }

  lemma {:induction false} RollbackKeepsShelved(sh: Shelf, l: Ledger, op: Op, slug: string)
    requires op.Rollback? && CleanOp(op) && Shelved(sh, slug, l)
    ensures Shelved(Outcome(sh, op).0, slug, Booked(l, sh, op, slug))
  {
    if (Normalize(op.name), op.version) in sh.archive {
      AsSaveIsReadable(sh, op, slug);
      RollbackIsSave(sh, op);
      SaveKeepsShelved(sh, l, AsSave(sh, op), slug);
    } else {
      assert Outcome(sh, op) == (sh, Err(NoArchive));
    }
  }

  lemma {:induction false} StepKeepsShelved(sh: Shelf, l: Ledger, op: Op, slug: string)
    requires CleanOp(op) && ReadableOp(sh, op, slug) && Shelved(sh, slug, l)
    ensures Shelved(Outcome(sh, op).0, slug, Booked(l, sh, op, slug))
  {
    match op
    case Save(_, _, _, _, _) => SaveKeepsShelved(sh, l, op, slug);
    case Delete(_) => DeleteKeepsShelved(sh, l, op, slug);
    case Rollback(_, _, _) => RollbackKeepsShelved(sh, l, op, slug);
  }

  lemma {:induction false} RunKeepsShelved(ops: seq<Op>, slug: string)
    requires (forall op :: op in ops ==> CleanOp(op)) && ReadableRun(ops, slug)
    ensures Shelved(After(ops), slug, LedgerOf(ops, slug))
  {
    if ops != [] {
      var n := |ops| - 1;
      assert ops[n] in ops && forall op :: op in ops[..n] ==> op in ops;
      RunKeepsShelved(ops[..n], slug);
      StepKeepsShelved(After(ops[..n]), LedgerOf(ops[..n], slug), ops[n], slug);
    }
  }
}
