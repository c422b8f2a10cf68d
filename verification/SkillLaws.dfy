/** What versioning promises its callers, and where it does not hold: skills.py. */
module SkillLaws {
  import opened Options
  import opened Text
  import opened SkillFile
  import opened SkillFences
  import opened SkillStore
  import opened SkillRuns

  ghost predicate CleanRun(ops: seq<Op>) {
    forall op :: op in ops ==> CleanOp(op)
  }

  /** Every description saved for the skill leaves its version readable. */
  ghost predicate SoundRun(ops: seq<Op>, slug: string) {
    CleanRun(ops) && ReadableRun(ops, slug)
  }

  predicate Deletes(op: Op, slug: string) {
    op.Delete? && Normalize(op.name) == slug
  }

  lemma {:induction false} ShelvedMeans(sh: Shelf, slug: string, l: Ledger)
    requires Shelved(sh, slug, l)
    ensures forall i :: 0 <= i < |l.saves| ==> GoodSave(l.saves[i], slug, i + 1)
    ensures slug in sh.current <==> l.saves != []
    ensures l.saves != [] ==> sh.current[slug] == Render(l.saves[|l.saves| - 1])
  {
    if l.saves != [] {
      assert Texts(l.saves)[|l.saves| - 1] == Render(l.saves[|l.saves| - 1]);
    }
  }

  lemma {:induction false} ArchiveMeans(sh: Shelf, slug: string, l: Ledger)
    requires Shelved(sh, slug, l)
    ensures forall v :: 1 <= v < |l.saves| ==>
              (slug, v) in sh.archive && sh.archive[(slug, v)] == Render(l.saves[v - 1])
  {
    forall v | 1 <= v < |l.saves|
      ensures (slug, v) in sh.archive && sh.archive[(slug, v)] == Render(l.saves[v - 1])
    {
      ArchivedText(sh, slug, l, v);
    }
  }

  lemma {:induction false} ArchivedText(sh: Shelf, slug: string, l: Ledger, v: int)
    requires Shelved(sh, slug, l) && 1 <= v < |l.saves|
    ensures (slug, v) in sh.archive && sh.archive[(slug, v)] == Render(l.saves[v - 1])
  {
    KeptText(sh, slug, Texts(l.saves), l.top, v);
  }

  lemma {:induction false} KeptText(sh: Shelf, slug: string, texts: seq<string>, top: nat, v: int)
    requires Kept(sh, slug, texts, top) && 1 <= v < |texts|
    ensures (slug, v) in sh.archive && sh.archive[(slug, v)] == texts[v - 1]
  {
  }

  /** Since its last deletion a skill's saves are numbered 1, 2, 3, ...; the last is current and each
      earlier one lies in the archive under its own number, as it was written. */
  lemma {:induction false} SavesAreNumbered(ops: seq<Op>, slug: string)
    requires SoundRun(ops, slug)
    ensures var saves, sh := LedgerOf(ops, slug).saves, After(ops);
      && (forall i :: 0 <= i < |saves| ==> saves[i].name == slug && saves[i].version == i + 1)
      && (slug in sh.current <==> saves != [])
      && (saves != [] ==> sh.current[slug] == Render(saves[|saves| - 1]))
      && (forall v :: 1 <= v < |saves| ==>
            (slug, v) in sh.archive && sh.archive[(slug, v)] == Render(saves[v - 1]))
  {
    RunKeepsShelved(ops, slug);
    ShelvedMeans(After(ops), slug, LedgerOf(ops, slug));
    ArchiveMeans(After(ops), slug, LedgerOf(ops, slug));
  }

  lemma {:induction false} BookedGrows(l: Ledger, sh: Shelf, op: Op, slug: string)
    requires !Deletes(op, slug)
    ensures l.saves <= Booked(l, sh, op, slug).saves
  {
  }

  lemma {:induction false} LastBooked(ops: seq<Op>, op: Op, slug: string)
    ensures LedgerOf(ops + [op], slug) == Booked(LedgerOf(ops, slug), After(ops), op, slug)
  {
    assert (ops + [op])[..|ops|] == ops;
  }

  lemma {:induction false} SavesOnlyGrow(ops: seq<Op>, more: seq<Op>, slug: string)
    requires forall op :: op in more ==> !Deletes(op, slug)
    ensures LedgerOf(ops, slug).saves <= LedgerOf(ops + more, slug).saves
  {
    if more == [] {
      assert ops + more == ops;
    } else {
      var n := |more| - 1;
      var most := ops + more[..n];
      assert ops + more == most + [more[n]] && more[n] in more;
      assert forall op :: op in more[..n] ==> op in more;
      SavesOnlyGrow(ops, more[..n], slug);
      LastBooked(most, more[n], slug);
      BookedGrows(LedgerOf(most, slug), After(most), more[n], slug);
    }
  }

  lemma {:induction false} SoundPrefix(ops: seq<Op>, more: seq<Op>, slug: string)
    requires SoundRun(ops + more, slug)
    ensures SoundRun(ops, slug)
  {
    if more == [] {
      assert ops + more == ops;
    } else {
      var n := |more| - 1;
      assert (ops + more)[..|ops + more| - 1] == ops + more[..n];
      assert forall op :: op in ops + more[..n] ==> op in ops + more;
      SoundPrefix(ops, more[..n], slug);
    }
  }

  /** Until the skill is deleted, no archived version is ever written over. */
  lemma {:induction false} ArchiveIsKept(ops: seq<Op>, more: seq<Op>, slug: string, v: int)
    requires SoundRun(ops + more, slug)
    requires forall op :: op in more ==> !Deletes(op, slug)
    requires 1 <= v < |LedgerOf(ops, slug).saves|
    ensures (slug, v) in After(ops).archive && (slug, v) in After(ops + more).archive
    ensures After(ops + more).archive[(slug, v)] == After(ops).archive[(slug, v)]
  {
    SoundPrefix(ops, more, slug);
    SavesOnlyGrow(ops, more, slug);
    SavesAreNumbered(ops, slug);
    SavesAreNumbered(ops + more, slug);
  }

  // ---- what deletion does to the archive ----

  /** Some deletion found the skill with at least v versions. */
  ghost predicate DeletedAt(ops: seq<Op>, slug: string, v: int) {
    exists k :: 0 <= k < |ops| && DeletedThere(ops, k, slug, v)
  }

  ghost predicate DeletedThere(ops: seq<Op>, k: nat, slug: string, v: int)
    requires k < |ops|
  {
    Deletes(ops[k], slug) && v <= |LedgerOf(ops[..k], slug).saves|
  }

  lemma {:induction false} DeletedEarlier(ops: seq<Op>, n: nat, k: nat, slug: string, v: int)
    requires k < n <= |ops|
    ensures DeletedThere(ops[..n], k, slug, v) == DeletedThere(ops, k, slug, v)
  {
    assert ops[..n][..k] == ops[..k];
  }

  lemma {:induction false} DeletedAtStep(ops: seq<Op>, slug: string, v: int)
    requires ops != []
    ensures var n := |ops| - 1;
      DeletedAt(ops, slug, v) <==> DeletedAt(ops[..n], slug, v) || DeletedThere(ops, n, slug, v)
  {
    var n := |ops| - 1;
    forall k | 0 <= k < n ensures DeletedThere(ops[..n], k, slug, v) == DeletedThere(ops, k, slug, v) {
      DeletedEarlier(ops, n, k, slug, v);
    }
  }

  lemma {:induction false} BookedTop(l: Ledger, sh: Shelf, op: Op, slug: string)
    ensures var r := Booked(l, sh, op, slug);
      if Deletes(op, slug) then r == Ledger([], Raised(l))
      else r == l || (|r.saves| == |l.saves| + 1 && r.top == Raised(l))
  {
  }

  lemma {:induction false} TopMeans(ops: seq<Op>, slug: string, v: int)
    requires v >= 1
    ensures var l := LedgerOf(ops, slug);
      v <= l.top <==> v < |l.saves| || DeletedAt(ops, slug, v)
  {
    if ops != [] {
      var n := |ops| - 1;
      TopMeans(ops[..n], slug, v);
      DeletedAtStep(ops, slug, v);
      BookedTop(LedgerOf(ops[..n], slug), After(ops[..n]), ops[n], slug);
      TopStep(LedgerOf(ops[..n], slug), LedgerOf(ops, slug), Deletes(ops[n], slug),
              DeletedAt(ops[..n], slug, v), v);
    }
  }

  lemma {:induction false} TopStep(l: Ledger, r: Ledger, deletes: bool, before: bool, v: int)
    requires v >= 1 && (v <= l.top <==> v < |l.saves| || before)
    requires if deletes then r == Ledger([], Raised(l))
             else r == l || (|r.saves| == |l.saves| + 1 && r.top == Raised(l))
    ensures v <= r.top <==> v < |r.saves| || before || (deletes && v <= |l.saves|)
  {
  }

  /** The next save of a skill writes over an archived version exactly when the skill was deleted
      at a time when it had at least as many versions as it has now. */
  lemma {:induction false} SaveOverwritesIff(ops: seq<Op>, slug: string)
    requires SoundRun(ops, slug) && slug in After(ops).current
    ensures (slug, Current(After(ops), slug).version) in After(ops).archive <==>
            DeletedAt(ops, slug, |LedgerOf(ops, slug).saves|)
  {
    var l := LedgerOf(ops, slug);
    RunKeepsShelved(ops, slug);
    CurrentReads(After(ops), slug, l);
    TopMeans(ops, slug, |l.saves|);
  }

  // ---- what the archive holds ----

  /** The step archives the current version of the skill, if there is one. */
  predicate Replaces(sh: Shelf, op: Op, slug: string) {
    Deletes(op, slug) || (!op.Delete? && Outcome(sh, op).1.Ok? && Outcome(sh, op).1.value.name == slug)
  }

  /** The last of the saves may be archived under its number. */
  function WithLast(rest: map<int, Meta>, saves: seq<Meta>, replaced: bool): map<int, Meta> {
    if saves != [] && replaced then rest[|saves| := saves[|saves| - 1]] else rest
  }

  /** Per number, the last save that was archived under it, deletions or not. */
  function ArchivedSaves(ops: seq<Op>, slug: string): map<int, Meta> {
    if ops == [] then map[]
    else
      var n := |ops| - 1;
      WithLast(ArchivedSaves(ops[..n], slug), LedgerOf(ops[..n], slug).saves, Replaces(After(ops[..n]), ops[n], slug))
  }

  /** The archive's files of the skill are these saves as they were printed. */
  ghost predicate Holds(archive: map<(string, int), string>, slug: string, saves: map<int, Meta>) {
    && (forall v :: (slug, v) in archive <==> v in saves)
    && (forall v :: v in saves ==> archive[(slug, v)] == Render(saves[v]) && GoodSave(saves[v], slug, v))
  }

  /** What a step does to the archive, as far as the skill is concerned. */
  ghost predicate OnlyAdds(sh: Shelf, next: Shelf, op: Op, slug: string) {
    if slug in sh.current && Replaces(sh, op, slug) then
      next.archive == sh.archive[(slug, Current(sh, slug).version) := sh.current[slug]]
    else
      forall v :: ((slug, v) in next.archive <==> (slug, v) in sh.archive) &&
        ((slug, v) in sh.archive ==> next.archive[(slug, v)] == sh.archive[(slug, v)])
  }

  lemma {:induction false} SaveOnlyAdds(sh: Shelf, op: Op, slug: string)
    requires op.Save?
    ensures OnlyAdds(sh, Outcome(sh, op).0, op, slug)
  {
  }

  lemma {:induction false} StepOnlyAdds(sh: Shelf, op: Op, slug: string)
    ensures OnlyAdds(sh, Outcome(sh, op).0, op, slug)
  {
    match op
    case Save(_, _, _, _, _) => SaveOnlyAdds(sh, op, slug);
    case Delete(_) =>
    case Rollback(_, _, _) =>
      if (Normalize(op.name), op.version) in sh.archive {
        RollbackIsSave(sh, op);
        SaveOnlyAdds(sh, AsSave(sh, op), slug);
      }
  }

  lemma {:induction false} HoldsMore(archive: map<(string, int), string>, slug: string, saves: map<int,
                                     Meta>, v: int, m: Meta)
    requires Holds(archive, slug, saves) && GoodSave(m, slug, v)
    ensures Holds(archive[(slug, v) := Render(m)], slug, saves[v := m])
  {
  }

  lemma {:induction false} ArchiveStep(sh: Shelf, l: Ledger, op: Op, slug: string, saves: map<int, Meta>)
    requires Shelved(sh, slug, l) && Holds(sh.archive, slug, saves)
    ensures Holds(Outcome(sh, op).0.archive, slug, WithLast(saves, l.saves, Replaces(sh, op, slug)))
  {
    StepOnlyAdds(sh, op, slug);
    ShelvedMeans(sh, slug, l);
    if l.saves != [] && Replaces(sh, op, slug) {
      CurrentReads(sh, slug, l);
      HoldsMore(sh.archive, slug, saves, |l.saves|, l.saves[|l.saves| - 1]);
    }
  }

  lemma {:induction false} ArchiveHolds(ops: seq<Op>, slug: string)
    requires SoundRun(ops, slug)
    ensures Holds(After(ops).archive, slug, ArchivedSaves(ops, slug))
    ensures ArchivedSaves(ops, slug) != map[] ==> Plain(slug) && slug != ""
  {
    if ops != [] {
      var n := |ops| - 1;
      assert ops == ops[..n] + [ops[n]];
      SoundPrefix(ops[..n], [ops[n]], slug);
      ArchiveHolds(ops[..n], slug);
      RunKeepsShelved(ops[..n], slug);
      ArchiveStep(After(ops[..n]), LedgerOf(ops[..n], slug), ops[n], slug, ArchivedSaves(ops[..n], slug));
      if LedgerOf(ops[..n], slug).saves != [] {
        NamedIsPlain(ops[..n], slug);
      }
    }
  }

  lemma {:induction false} BookedSaves(l: Ledger, sh: Shelf, op: Op, slug: string)
    ensures var next := Booked(l, sh, op, slug).saves;
      if Deletes(op, slug) then next == []
      else if Replaces(sh, op, slug) then |next| == |l.saves| + 1 && next[..|l.saves|] == l.saves
      else next == l.saves
  {
  }

  lemma {:induction false} LatestStep(saves: seq<Meta>, next: seq<Meta>, rest: map<int, Meta>,
                                      replaced: bool, v: int)
    requires 1 <= v < |next|
    requires if replaced then |next| == |saves| + 1 && next[..|saves|] == saves else next == saves
    requires v < |saves| ==> v in rest && rest[v] == saves[v - 1]
    ensures var more := WithLast(rest, saves, replaced); v in more && more[v] == next[v - 1]
  {
    assert replaced ==> next[..|saves|][v - 1] == next[v - 1];
  }

  /** Since the last deletion these are the saves themselves. */
  lemma {:induction false} LatestSavesAreArchived(ops: seq<Op>, slug: string, v: int)
    requires 1 <= v < |LedgerOf(ops, slug).saves|
    ensures v in ArchivedSaves(ops, slug) && ArchivedSaves(ops, slug)[v] == LedgerOf(ops, slug).saves[v - 1]
  {
    var n := |ops| - 1;
    var sh, l := After(ops[..n]), LedgerOf(ops[..n], slug);
    BookedSaves(l, sh, ops[n], slug);
    if v < |l.saves| {
      LatestSavesAreArchived(ops[..n], slug, v);
    }
    LatestStep(l.saves, LedgerOf(ops, slug).saves, ArchivedSaves(ops[..n], slug), Replaces(sh, ops[n], slug), v);
  }

  // ---- rollback ----

  /** What an archived save reads as. */
  lemma {:induction false} ArchiveReads(sh: Shelf, saves: map<int, Meta>, slug: string, v: int)
    requires Holds(sh.archive, slug, saves) && v in saves
    ensures (slug, v) in sh.archive
    ensures var was, m := saves[v], ArchivedAt(sh, slug, v);
      && (m.body == was.body <==> !Hides(was.description))
      && Strip(m.body) == m.body && m.body != ""
      && (m.description == was.description <==> Plain(was.description) && was.description != "")
  {
    var was, stem := saves[v], ArchiveStem(v);
    StemIsOneLine(v);
    BodyReadsIff(was, stem);
    DescriptionReadsIff(was, stem);
    ReadIsPlain(Render(was), stem);
    StripTrims(Parsed(Render(was), stem).body);
  }

  /** What a rollback saves, and under which name. */
  lemma {:induction false} RollbackSaves(sh: Shelf, saves: map<int, Meta>, name: string, v: int, now: string)
    requires Holds(sh.archive, Normalize(name), saves) && v in saves && Normalize(name) != ""
    ensures (Normalize(name), v) in sh.archive
    ensures var was, r := ArchivedAt(sh, Normalize(name), v), RolledBack(sh, name, v, now).1;
      r == Ok(NextMeta(sh, Normalize(Normalize(name)), was.body, Some(was.description), "rollback", now))
  {
    ArchiveReads(sh, saves, Normalize(name), v);
    NormalizeAgain(name);
  }

  /** The number a save gets. */
  lemma {:induction false} NextVersion(sh: Shelf, slug: string, l: Ledger, body: string,
                                       description: Option<string>,
                    origin: string, now: string)
    requires Shelved(sh, slug, l)
    ensures NextMeta(sh, slug, body, description, origin, now).version == |l.saves| + 1
  {
    ShelvedMeans(sh, slug, l);
    if l.saves != [] {
      CurrentReads(sh, slug, l);
    }
  }

  /** Rolling back saves any archived version again, those from before a deletion too, under the
      number after the last save, which is 1 after a deletion. The body comes back as it was exactly
      when the description did not close the front matter, the description exactly when it was a
      trimmed single line and not empty. */
  lemma {:induction false} RollbackMakesNewVersion(ops: seq<Op>, name: string, v: int, now: string)
    requires SoundRun(ops, Normalize(name)) && v in ArchivedSaves(ops, Normalize(name))
    requires !EndsInDash(Normalize(name))
    ensures var r, was := RolledBack(After(ops), name, v, now).1, ArchivedSaves(ops, Normalize(name))[v];
      && r.Ok? && r.value.name == Normalize(name) && r.value.origin == "rollback"
      && r.value.version == |LedgerOf(ops, Normalize(name)).saves| + 1
      && (r.value.body == was.body <==> !Hides(was.description))
      && (r.value.description == was.description <==> Plain(was.description) && was.description != "")
  {
    var slug := Normalize(name);
    var sh, saves := After(ops), ArchivedSaves(ops, slug);
    RunKeepsShelved(ops, slug);
    ArchiveHolds(ops, slug);
    NormalizeAgain(name);
    ArchiveReads(sh, saves, slug, v);
    RollbackSaves(sh, saves, name, v, now);
    var was := ArchivedAt(sh, slug, v);
    NextVersion(sh, slug, LedgerOf(ops, slug), was.body, Some(was.description), "rollback", now);
  }

  /** A rollback of an archived version of the skill always saves; it saves that skill, and not
      another one, exactly when the normalized name does not end in a dash. */
  lemma {:induction false} RollbackHitsItsSkillIff(ops: seq<Op>, name: string, v: int, now: string)
    requires SoundRun(ops, Normalize(name)) && v in ArchivedSaves(ops, Normalize(name))
    ensures var r := RolledBack(After(ops), name, v, now).1;
      r.Ok? && (r.value.name == Normalize(name) <==> !EndsInDash(Normalize(name)))
  {
    ArchiveHolds(ops, Normalize(name));
    NormalizeAgain(name);
    RollbackSaves(After(ops), ArchivedSaves(ops, Normalize(name)), name, v, now);
  }

  /** Such names exist: 63 letters, a dash and one more letter. */
  lemma {:induction false} CutNameEndsInDash(name: string)
    requires name == seq(63, i => 'a') + "-b"
    ensures EndsInDash(Normalize(name)) && Normalize(Normalize(name)) != Normalize(name)
  {
    assert AllSafe(name);
    SafeIsPlain(name);
    NormalizeAgain(name);
    assert name[63] == '-' && name[64] == 'b' && name[0] == 'a';
  }

  // ---- the history ----

  lemma {:induction false} AscendingRange(s: seq<int>, n: nat)
    requires Ascending(s)
    requires forall v :: v in s <==> 1 <= v <= n
    ensures |s| == n && forall i :: 0 <= i < n ==> s[i] == i + 1
  {
    if s == [] {
      var nothing := n in s;
    } else {
      var last := |s| - 1;
      assert s[last] in s && n in s;
      assert s[last] == n;
      assert forall v :: v in s[..last] <==> v in s && v != n;
      AscendingRange(s[..last], n - 1);
    }
  }

  lemma {:induction false} NoDeletionAtAll(ops: seq<Op>, slug: string, v: int)
    requires forall op :: op in ops ==> !Deletes(op, slug)
    ensures !DeletedAt(ops, slug, v)
  {
    forall k | 0 <= k < |ops| ensures !DeletedThere(ops, k, slug, v) {
      assert ops[k] in ops;
    }
  }

  /** Without deletions the archive ends right below the current version. */
  lemma {:induction false} TopWithoutDeletion(ops: seq<Op>, slug: string)
    requires SoundRun(ops, slug) && forall op :: op in ops ==> !Deletes(op, slug)
    ensures var l := LedgerOf(ops, slug); l.saves != [] ==> l.top == |l.saves| - 1
  {
    var l := LedgerOf(ops, slug);
    RunKeepsShelved(ops, slug);
    NoDeletionAtAll(ops, slug, l.top);
    if l.top >= 1 {
      TopMeans(ops, slug, l.top);
    }
  }

  lemma {:induction false} SavedIsSlug(sh: Shelf, op: Op, slug: string)
    requires var r := Outcome(sh, op).1; r.Ok? && r.value.name == slug
    ensures Plain(slug) && slug != ""
  {
    SlugShape(op.name);
    SlugShape(Normalize(op.name));
  }

  /** Only real names are saved under. */
  lemma {:induction false} NamedIsPlain(ops: seq<Op>, slug: string)
    requires LedgerOf(ops, slug).saves != []
    ensures Plain(slug) && slug != ""
  {
    var n := |ops| - 1;
    if LedgerOf(ops[..n], slug).saves != [] {
      NamedIsPlain(ops[..n], slug);
    } else {
      SavedIsSlug(After(ops[..n]), ops[n], slug);
    }
  }

  lemma {:induction false} VersionsAreRange(ops: seq<Op>, slug: string, versions: seq<int>, out: seq<Meta>)
    requires SoundRun(ops, slug) && forall op :: op in ops ==> !Deletes(op, slug)
    requires LedgerOf(ops, slug).saves != [] && Ascending(versions)
    requires forall v :: v in versions <==> (slug, v) in After(ops).archive
    requires IsHistory(After(ops), slug, versions, out)
    ensures |versions| == |LedgerOf(ops, slug).saves| - 1
    ensures forall i :: 0 <= i < |versions| ==> versions[i] == i + 1
  {
    RunKeepsShelved(ops, slug);
    TopWithoutDeletion(ops, slug);
    AscendingRange(versions, |LedgerOf(ops, slug).saves| - 1);
  }

  /** The history of a skill that was never deleted is everything ever saved under its name, in
      order; whatever was saved in a form that survives printing is read back as it was. */
  lemma {:induction false} HistoryIsAllSaves(ops: seq<Op>, slug: string, versions: seq<int>, out: seq<Meta>,
                                             i: nat)
    requires SoundRun(ops, slug) && forall op :: op in ops ==> !Deletes(op, slug)
    requires Ascending(versions)
    requires forall v :: v in versions <==> (slug, v) in After(ops).archive
    requires IsHistory(After(ops), slug, versions, out)
    requires i < |LedgerOf(ops, slug).saves|
    ensures |out| == |LedgerOf(ops, slug).saves|
    ensures var m := LedgerOf(ops, slug).saves[i];
      Faithful(m) ==> out[i] == m.(name := out[i].name)
  {
    var saves := LedgerOf(ops, slug).saves;
    VersionsAreRange(ops, slug, versions, out);
    SavesAreNumbered(ops, slug);
    EachAt(ReadFile, FilesOf(After(ops), slug, versions), i);
    if i < |saves| - 1 {
      StemIsOneLine(i + 1);
      SkillRoundTrip(saves[i], ArchiveStem(i + 1));
    } else {
      NamedIsPlain(ops, slug);
      SkillRoundTrip(saves[i], slug);
    }
  }

  // ---- numbering over runs of any descriptions ----

  /** A save as the store makes it, its description being whatever it is. */
  predicate AnySave(m: Meta, slug: string) {
    m.name == slug && OthersOneLine(m) && Trimmed(m.body) && m.body != ""
  }

  /** The number after this list of saves: one more than the last one reads. */
  function NumberAfter(saves: seq<Meta>, slug: string): int {
    if saves == [] then 1 else Parsed(Render(saves[|saves| - 1]), slug).version + 1
  }

  /** The saves follow each other. */
  ghost predicate Succeed(saves: seq<Meta>, slug: string) {
    saves == [] ||
    (var n := |saves| - 1;
     AnySave(saves[n], slug) && saves[n].version == NumberAfter(saves[..n], slug) &&
     Succeed(saves[..n], slug))
  }

  ghost predicate CurrentIsLast(sh: Shelf, slug: string, saves: seq<Meta>) {
    && (slug in sh.current <==> saves != [])
    && (saves != [] ==> sh.current[slug] == Render(saves[|saves| - 1]))
  }

  lemma {:induction false} SavedMeta(sh: Shelf, op: Op, slug: string)
    requires op.Save? && CleanOp(op) && Outcome(sh, op).1.Ok? && Outcome(sh, op).1.value.name == slug
    ensures var m, next := Outcome(sh, op).1.value, Outcome(sh, op).0;
      && AnySave(m, slug) && slug in next.current && next.current[slug] == Render(m)
      && m.version == (if slug in sh.current then Parsed(sh.current[slug], slug).version + 1 else 1)
  {
    SlugShape(op.name);
    StripTrims(op.content);
    if slug in sh.current {
      ReadIsPlain(sh.current[slug], slug);
    }
  }

  lemma {:induction false} SucceedPush(saves: seq<Meta>, m: Meta, slug: string)
    requires Succeed(saves, slug) && AnySave(m, slug) && m.version == NumberAfter(saves, slug)
    ensures Succeed(saves + [m], slug)
  {
    assert (saves + [m])[..|saves|] == saves;
  }

  lemma {:induction false} SaveSucceeds(sh: Shelf, saves: seq<Meta>, op: Op, slug: string)
    requires op.Save? && CleanOp(op) && Succeed(saves, slug) && CurrentIsLast(sh, slug, saves)
    ensures var r, next := Outcome(sh, op).1, Outcome(sh, op).0;
      if r.Ok? && r.value.name == slug
      then Succeed(saves + [r.value], slug) && CurrentIsLast(next, slug, saves + [r.value])
      else CurrentIsLast(next, slug, saves)
  {
    var r := Outcome(sh, op).1;
    if r.Ok? && r.value.name == slug {
      SavedMeta(sh, op, slug);
      SucceedPush(saves, r.value, slug);
    }
  }

  lemma {:induction false} StepSucceeds(sh: Shelf, l: Ledger, op: Op, slug: string)
    requires CleanOp(op) && Succeed(l.saves, slug) && CurrentIsLast(sh, slug, l.saves)
    ensures var next := Booked(l, sh, op, slug).saves;
      Succeed(next, slug) && CurrentIsLast(Outcome(sh, op).0, slug, next)
  {
    match op
    case Save(_, _, _, _, _) => SaveSucceeds(sh, l.saves, op, slug);
    case Delete(_) =>
    case Rollback(_, _, _) =>
      if (Normalize(op.name), op.version) in sh.archive {
        RollbackSucceeds(sh, l, op, slug);
      }
  }

  lemma {:induction false} RollbackSucceeds(sh: Shelf, l: Ledger, op: Op, slug: string)
    requires op.Rollback? && CleanOp(op) && (Normalize(op.name), op.version) in sh.archive
    requires Succeed(l.saves, slug) && CurrentIsLast(sh, slug, l.saves)
    ensures var next := Booked(l, sh, op, slug).saves;
      Succeed(next, slug) && CurrentIsLast(Outcome(sh, op).0, slug, next)
  {
    AsSaveIsReadable(sh, op, slug);
    RollbackIsSave(sh, op);
    SaveSucceeds(sh, l.saves, AsSave(sh, op), slug);
  }

  lemma {:induction false} RunSucceeds(ops: seq<Op>, slug: string)
    requires CleanRun(ops)
    ensures Succeed(LedgerOf(ops, slug).saves, slug)
    ensures CurrentIsLast(After(ops), slug, LedgerOf(ops, slug).saves)
  {
    if ops != [] {
      var n := |ops| - 1;
      assert ops[n] in ops && forall op :: op in ops[..n] ==> op in ops;
      RunSucceeds(ops[..n], slug);
      StepSucceeds(After(ops[..n]), LedgerOf(ops[..n], slug), ops[n], slug);
    }
  }

  /** Since the last deletion saves are numbered 1, 2, 3, ... exactly when every one of them but the
      last leaves its version readable: no line of its description but the first is a fence, or the
      fields in front of that line give the same version. */
  lemma {:induction false} NumberedIff(ops: seq<Op>, slug: string)
    requires CleanRun(ops)
    ensures var saves := LedgerOf(ops, slug).saves;
      saves != [] ==> (Numbered(saves) <==> AllRead(saves[..|saves| - 1]))
  {
    RunSucceeds(ops, slug);
    SucceedNumbered(LedgerOf(ops, slug).saves, slug);
  }

  lemma {:induction false} NumberAfterIff(saves: seq<Meta>, slug: string)
    requires Succeed(saves, slug) && saves != []
    ensures NumberAfter(saves, slug) == saves[|saves| - 1].version + 1 <==> VersionReads(saves[|saves| - 1])
  {
    VersionReadsIff(saves[|saves| - 1], slug);
  }

  ghost predicate Numbered(saves: seq<Meta>) {
    forall i :: 0 <= i < |saves| ==> saves[i].version == i + 1
  }

  /** Each of them leaves its version readable. */
  predicate AllRead(saves: seq<Meta>) {
    saves == [] || (VersionReads(saves[|saves| - 1]) && AllRead(saves[..|saves| - 1]))
  }

  lemma {:induction false} NumberedStep(saves: seq<Meta>)
    requires saves != []
    ensures Numbered(saves) <==> Numbered(saves[..|saves| - 1]) && saves[|saves| - 1].version == |saves|
  {
    var n := |saves| - 1;
    assert forall i :: 0 <= i < n ==> saves[..n][i] == saves[i];
  }

  lemma {:induction false} SucceedNumbered(saves: seq<Meta>, slug: string)
    requires Succeed(saves, slug)
    ensures saves != [] ==> (Numbered(saves) <==> AllRead(saves[..|saves| - 1]))
  {
    if saves != [] {
      var n := |saves| - 1;
      var init := saves[..n];
      NumberedStep(saves);
      if n > 0 {
        SucceedNumbered(init, slug);
        NumberAfterIff(init, slug);
        NumberedStep(init);
      }
    }
  }

  // ---- what a save takes over from the one before ----

  /** The file of the save before, if there is one. */
  ghost predicate Follows(sh: Shelf, slug: string, prev: Option<Meta>) {
    match prev
    case None => slug !in sh.current
    case Some(m) => slug in sh.current && sh.current[slug] == Render(m) && OthersOneLine(m)
  }

  /** A save has its own body, origin and time; the description is the one given, or else that of the
      save before, or else the name; the time of creation is that of the save before, or else now. */
  lemma {:induction false} SaveTakesOver(sh: Shelf, op: Op, slug: string, prev: Option<Meta>)
    requires op.Save? && Outcome(sh, op).1.Ok? && Outcome(sh, op).1.value.name == slug && Follows(sh, slug, prev)
    ensures var m := Outcome(sh, op).1.value;
      && m.body == Strip(op.content) && m.origin == op.origin && m.updated == op.now
      && (op.description.Some? ==> m.description == op.description.value)
      && (prev.None? ==> m.created == op.now && m.version == 1 && (op.description.None? ==> m.description == slug))
      && (prev.Some? && op.description.None? && Plain(prev.value.description) && prev.value.description != "" ==>
            m.description == prev.value.description)
      && (prev.Some? && !Hides(prev.value.description) ==>
            m.created == if Strip(prev.value.created) == "" then op.now else Strip(prev.value.created))
  {
    SlugShape(op.name);
    if prev.Some? {
      FileReads(prev.value, slug);
    }
  }

  lemma {:induction false} FileReads(m: Meta, slug: string)
    requires OthersOneLine(m) && Plain(slug)
    ensures Plain(m.description) && m.description != "" && slug != "" ==> Parsed(Render(m), slug).description == m.description
    ensures !Hides(m.description) ==> Parsed(Render(m), slug).created == Strip(m.created)
  {
    if slug != "" {
      DescriptionReadsIff(m, slug);
    }
    if !Hides(m.description) {
      ShownReads(m, slug);
    }
  }

  /** The times handed in are trimmed and not empty. */
  predicate Timed(ops: seq<Op>) {
    forall op :: op in ops ==> op.Delete? || (Plain(op.now) && op.now != "")
  }

  ghost predicate SameCreation(saves: seq<Meta>) {
    forall i :: 0 <= i < |saves| ==> saves[i].created == saves[0].updated
  }

  lemma {:induction false} StepKeepsCreation(sh: Shelf, l: Ledger, op: Op, slug: string)
    requires op.Save? && CleanOp(op) && Plain(op.now) && op.now != ""
    requires Succeed(l.saves, slug) && CurrentIsLast(sh, slug, l.saves) && SameCreation(l.saves)
    requires l.saves != [] ==>
               !Hides(l.saves[|l.saves| - 1].description) && Plain(l.saves[0].updated) && l.saves[0].updated != ""
    ensures SameCreation(Booked(l, sh, op, slug).saves)
    ensures Booked(l, sh, op, slug).saves != [] ==>
              Booked(l, sh, op, slug).saves[0].updated == if l.saves == [] then op.now else l.saves[0].updated
  {
    var r := Outcome(sh, op).1;
    if r.Ok? && r.value.name == slug {
      var prev := if l.saves == [] then None else Some(l.saves[|l.saves| - 1]);
      LastFollows(sh, slug, l.saves);
      SaveTakesOver(sh, op, slug, prev);
      CreationPush(l.saves, r.value, op.now);
    }
  }

  lemma {:induction false} LastFollows(sh: Shelf, slug: string, saves: seq<Meta>)
    requires Succeed(saves, slug) && CurrentIsLast(sh, slug, saves)
    ensures Follows(sh, slug, if saves == [] then None else Some(saves[|saves| - 1]))
  {
  }

  lemma {:induction false} CreationPush(saves: seq<Meta>, m: Meta, now: string)
    requires SameCreation(saves) && m.updated == now
    requires if saves == [] then m.created == now
             else m.created == if Strip(saves[|saves| - 1].created) == "" then now else Strip(saves[|saves| - 1].created)
    requires saves != [] ==> Plain(saves[0].updated) && saves[0].updated != ""
    ensures SameCreation(saves + [m]) && (saves + [m])[0].updated == if saves == [] then now else saves[0].updated
  {
    if saves != [] {
      StripTrims(saves[|saves| - 1].created);
    }
  }

  ghost predicate AllShown(saves: seq<Meta>) {
    forall i :: 0 <= i < |saves| ==> !Hides(saves[i].description)
  }

  /** Since the last deletion every save bears the time of the first one as its time of creation. */
  lemma {:induction false} CreationIsKept(ops: seq<Op>, slug: string)
    requires CleanRun(ops) && Timed(ops) && AllShown(LedgerOf(ops, slug).saves)
    ensures var saves := LedgerOf(ops, slug).saves;
      SameCreation(saves) && (saves != [] ==> Plain(saves[0].updated) && saves[0].updated != "")
  {
    if ops != [] {
      var n := |ops| - 1;
      var sh, l, op := After(ops[..n]), LedgerOf(ops[..n], slug), ops[n];
      assert op in ops && forall o :: o in ops[..n] ==> o in ops;
      ShownBefore(l, sh, op, slug);
      if !Deletes(op, slug) {
        CreationIsKept(ops[..n], slug);
        RunSucceeds(ops[..n], slug);
        if op.Save? {
          StepKeepsCreation(sh, l, op, slug);
        } else if op.Rollback? && (Normalize(op.name), op.version) in sh.archive {
          AsSaveIsReadable(sh, op, slug);
          RollbackIsSave(sh, op);
          StepKeepsCreation(sh, l, AsSave(sh, op), slug);
        }
      }
    }
  }

  lemma {:induction false} ShownBefore(l: Ledger, sh: Shelf, op: Op, slug: string)
    ensures AllShown(Booked(l, sh, op, slug).saves) && !Deletes(op, slug) ==> AllShown(l.saves)
  {
    if !Deletes(op, slug) {
      BookedGrows(l, sh, op, slug);
      ShownPrefix(l.saves, Booked(l, sh, op, slug).saves);
    }
  }

  lemma {:induction false} ShownPrefix(a: seq<Meta>, b: seq<Meta>)
    requires a <= b
    ensures AllShown(b) ==> AllShown(a)
  {
    assert forall i :: 0 <= i < |a| ==> a[i] == b[i];
  }

  // ---- refusals ----

  /** Whether a save, a rollback or a deletion does anything, and what is said of it if not. */
  lemma {:induction false} RefusalsRead(sh: Shelf, name: string, content: string, description: Option<string>,
                                        origin: string, now: string, version: int)
    ensures var slug, r := Normalize(name), Saved(sh, name, content, description, origin, now);
      && (slug == "" ==> r == (sh, Err(InvalidName)))
      && (slug != "" && Strip(content) == "" ==> r == (sh, Err(EmptyContent)))
      && (slug != "" && Strip(content) != "" ==> r.1.Ok? && r.1.value.name == slug && slug in r.0.current)
    ensures (Normalize(name), version) !in sh.archive ==> RolledBack(sh, name, version, now) == (sh, Err(NoArchive))
    ensures var slug, r := Normalize(name), Deleted(sh, name);
      && (r.1 <==> slug in sh.current) && slug !in r.0.current && (slug !in sh.current ==> r.0 == sh)
      && r.0.current == sh.current - {slug}
  {
  }
}
