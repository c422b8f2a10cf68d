/** Runs that show where the session's comments promise more than the code keeps. */
module CheckpointWitnesses {
  import opened Options
  import opened Journal
  import opened CheckpointStore
  import opened Mirror
  import opened CheckpointSession
  import opened CheckpointInvariant
  import opened CheckpointRuns
  import opened CheckpointLimits
  import opened Revisions

  // ---- the marker is not the journal's length ----

  ghost predicate Uses(journal: seq<Entry>, n: nat) {
    exists e :: e in journal && e.num == n
  }

  /** Every number handed out is still journaled. */
  ghost predicate NoGap(s: State) {
    forall n: nat :: 1 <= n <= s.num ==> Uses(s.journal, n)
  }

  lemma {:induction false} EarlierNums(journal: seq<Entry>, e: Entry)
    requires Ordered(journal) && journal != [] && e in journal[..|journal| - 1]
    ensures e in journal && e.num < journal[|journal| - 1].num
  {
    var i :| 0 <= i < |journal| - 1 && journal[..|journal| - 1][i] == e;
  }

  lemma {:induction false} UsesLast(journal: seq<Entry>, k: nat)
    requires Ordered(journal) && journal != []
    ensures var n := |journal| - 1;
      Uses(journal, k) <==> k == journal[n].num || Uses(journal[..n], k)
    ensures k >= journal[|journal| - 1].num ==> !Uses(journal[..|journal| - 1], k)
  {
    var n := |journal| - 1;
    assert journal == journal[..n] + [journal[n]];
    if e :| e in journal[..n] && e.num == k {
      EarlierNums(journal, e);
    }
    if k == journal[n].num {
      assert journal[n] in journal;
    }
  }

  lemma {:induction false} FullRange(journal: seq<Entry>, k: nat)
    requires Ordered(journal)
    requires forall i :: 0 <= i < |journal| ==> 1 <= journal[i].num <= k
    ensures |journal| <= k
    ensures |journal| == k <==> forall n: nat :: 1 <= n <= k ==> Uses(journal, n)
  {
    if journal == [] {
      var top := Uses(journal, k);
    } else {
      var n := |journal| - 1;
      var last: nat := journal[n].num;
      FullRange(journal[..n], last - 1);
      UsesLast(journal, k);
      forall m: nat | 1 <= m <= k
        ensures Uses(journal, m) <==> m == last || Uses(journal[..n], m)
      {
        UsesLast(journal, m);
      }
      var top := Uses(journal, k);
    }
  }

  /** A new checkpoint's marker is the journal's length exactly when the numbering has no gap. */
  lemma {:induction false} MarkerIsLengthIff(s: State, title: string, auto: bool, now: real)
    requires Core(s)
    ensures |Created(s, title, auto, now).cps| == |s.cps| + 1
    ensures Created(s, title, auto, now).cps[|s.cps|].mark == |s.journal| <==> NoGap(s)
  {
    assert forall i :: 0 <= i < |s.journal| ==> s.journal[i] in s.journal;
    CreatedMeans(s, title, auto, now);
    FullRange(s.journal, s.num);
  }

  /** Every rollback that undoes something leaves such a gap. */
  lemma {:induction false} RollbackLeavesGap(s: State, c: Checkpoint, blocked: set<Path>, now: real)
    requires Core(s) && c in s.cps && After(s.journal, c.mark) != []
    ensures !NoGap(RolledBack(s, c.id, blocked, now))
  {
    var next := RolledBack(s, c.id, blocked, now);
    FindMeans(s.cps, c.id);
    AfterMembers(s.journal, c.mark);
    var e := After(s.journal, c.mark)[0];
    assert e in After(s.journal, c.mark);
    assert !Uses(next.journal, s.num) by {
      assert forall x :: x in next.journal ==> x.num <= c.mark < e.num <= s.num;
    }
  }

  // ---- a refused undo ----

  /** A file is made after the checkpoint; removing it is refused once. Rolling back again, with
      nothing in the way, no longer removes it, though the checkpoint never had it. */
  lemma {:induction false} RefusedUndoIsLost()
    ensures var refused := RolledBack(EDITED, CpName(1), {"f"}, 3.0);
      && "f" !in MARKED.files
      && "f" !in RolledBack(EDITED, CpName(1), {}, 3.0).files
      && "f" in RolledBack(refused, CpName(1), {}, 4.0).files
  {
    MarkedIsSound();
    EditedIsSound();
    var c :| c in EDITED.cps && c.id == CpName(1) && c.mark == 0;
    FindMeans(EDITED.cps, c.id);
    var refused := RolledBack(EDITED, c.id, {"f"}, 3.0);
    MarkedUpToMeans(EDITED.cps, c.mark);
    FindMeans(refused.cps, c.id);
    AllUndone(EDITED.journal);
    RollbackMeans(EDITED, c.id, {"f"}, 3.0, "f");
    RollbackMeans(EDITED, c.id, {}, 3.0, "f");
    RollbackMeans(refused, c.id, {}, 4.0, "f");
    OneInWindow(EDITED.journal, "f");
  }

  lemma {:induction false} OneInWindow(journal: seq<Entry>, p: Path)
    requires |journal| == 1 && journal[0].num >= 1 && journal[0].path == p
    ensures After(journal, 0) == journal && FirstFor(journal, p) == Some(journal[0])
  {
    assert journal[..0] == [];
  }

  // ---- a chain that nobody else broke ----

  /** A rollback whose undo is refused while an older edit stays journaled. */
  lemma {:induction false} RefusedUndoUnlinks(s: State, c: Checkpoint, back: Op, p: Path)
    requires Core(s) && back.Rollback? && Find(s.cps, back.id) == Some(c) && p in back.blocked
    requires Linked(s, 0, p) && Get(s.files, p) != Target(s, c, p)
    requires LastFor(After(UpTo(s.journal, c.mark), 0), p).Some?
    ensures !Linked(Step(s, back), 0, p)
  {
    StepLinkedIff(s, back, 0, p);
  }

  /** The state after an edit that follows a checkpoint. */
  lemma {:induction false} EditAfterMark(s: State, c: Checkpoint, op: Op)
    requires Core(s) && c in s.cps && c.mark == s.num && op.Edit? && op.hashed && Linked(s, 0, op.path)
    requires !Stale(s, op.path)
    ensures var next := Step(s, op);
      && Core(next) && Find(next.cps, c.id) == Some(c) && Linked(next, 0, op.path)
      && Get(next.files, op.path) == Some(op.content) && Target(next, c, op.path) == Get(s.files, op.path)
  {
    EditAfterMarkTarget(s, c, op);
    EditedMeans(s, op.path, op.content, op.hashed, op.pinned, op.actor, op.now);
    StepLinkedIff(s, op, 0, op.path);
    StepKeepsCore(s, op);
    EditKeepsMarkers(s, op, c);
    FindMeans(Step(s, op).cps, c.id);
  }

  lemma {:induction false} EditAfterMarkTarget(s: State, c: Checkpoint, op: Op)
    requires Core(s) && c in s.cps && c.mark == s.num && op.Edit? && !Stale(s, op.path)
    ensures Target(Step(s, op), c, op.path) == Get(s.files, op.path)
  {
    EditKeepsTarget(s, op, c, op.path);
    NothingAfter(s.journal, c.mark);
  }

  /** One agent edits a file with a checkpoint in between; rolling back to it while the file may not
      be written leaves a chain that does not end in what is on disk. */
  lemma {:induction false} RefusedUndoBreaks(s: State, c: Checkpoint, op: Op, back: Op)
    requires Core(s) && c in s.cps && c.mark == s.num == 1 && |s.journal| == 1 && s.journal[0].num == 1
    requires op.Edit? && op.hashed && s.journal[0].path == op.path && Linked(s, 0, op.path)
    requires op.path in s.files && s.files[op.path] != op.content
    requires back.Rollback? && back.id == c.id && op.path in back.blocked
    ensures Linked(Step(s, op), 0, op.path) && !Linked(Step(Step(s, op), back), 0, op.path)
  {
    EditAfterMark(s, c, op);
    KeptAfterEdit(s, op);
    RefusedUndoUnlinks(Step(s, op), c, back, op.path);
  }

  lemma {:induction false} KeptAfterEdit(s: State, op: Op)
    requires s.num == 1 && |s.journal| == 1 && s.journal[0].num == 1
    requires op.Edit? && s.journal[0].path == op.path
    ensures LastFor(After(UpTo(Step(s, op).journal, 1), 0), op.path).Some?
  {
    EditedMeans(s, op.path, op.content, op.hashed, op.pinned, op.actor, op.now);
    assert Step(s, op).journal[..1] == s.journal;
    KeptOne(s.journal, Step(s, op).journal, op.path);
  }

  /** Such a run. */
  lemma {:induction false} RefusedUndoBreaksChain(op: Op, back: Op)
    requires op == Edit("f", "y", true, None, None, 4.0)
    requires back == Rollback(CpName(2), {"f"}, 5.0)
    ensures var s := Step(Created(EDITED, "b", false, 3.0), op);
      Linked(s, 0, "f") && !Linked(Step(s, back), 0, "f")
  {
    MarkedIsSound();
    EditedIsSound();
    CreatedMeans(EDITED, "b", false, 3.0);
    StepLinkedIff(MARKED, Edit("f", "x", true, None, None, 2.0), 0, "f");
    var s := Created(EDITED, "b", false, 3.0);
    RefusedUndoBreaks(s, s.cps[|s.cps| - 1], op, back);
  }

  lemma {:induction false} KeptOne(journal: seq<Entry>, longer: seq<Entry>, p: Path)
    requires |journal| == 1 && journal[0].num == 1 && journal[0].path == p
    requires |longer| == 2 && longer[..1] == journal && longer[1].num > 1
    ensures LastFor(After(UpTo(longer, 1), 0), p).Some?
  {
    assert journal[..0] == [];
    assert UpTo(longer, 1) == UpTo(longer[..1], 1) == journal;
  }

  // ---- a wrong report ----

  /** A file that exists at the checkpoint is edited, taken back, removed by others and written anew. */
  const EXISTING := MARKED.(files := map["f" := "w"])
  const REWRITTEN := Run(EXISTING, [
    Edit("f", "x", true, None, None, 2.0), TakeBack("f"), Outside("f", None), Edit("f", "y", true, None, None, 3.0)])

  /** The same from any state with an empty journal. */
  lemma {:induction false} EditVanishEdit(s: State, c: Checkpoint, ops: seq<Op>, p: Path)
    requires Core(s) && s.interval == 0 && s.journal == [] && c in s.cps && p in s.files
    requires |ops| == 4 && ops[0].Edit? && ops[0].path == p && ops[3].Edit? && ops[3].path == p
    requires ops[1] == TakeBack(p) && ops[2] == Outside(p, None)
    ensures var end := Run(s, ops);
      && Find(end.cps, c.id) == Some(c) && |After(end.journal, 0)| == 2
      && (var w := After(end.journal, 0);
          w[0].path == p && w[0].before == Some(s.files[p]) && w[1].path == p && w[1].before == None)
  {
    var a := Step(s, ops[0]);
    var b := Step(Step(a, ops[1]), ops[2]);
    PlainEdit(s, ops[0]);
    PlainEdit(b, ops[3]);
    FindMeans(s.cps, c.id);
    AllAfter(Step(b, ops[3]).journal, 0);
    RunFour(s, ops);
  }

  lemma {:induction false} RunFour(s: State, ops: seq<Op>)
    requires |ops| == 4
    ensures Run(s, ops) == Step(Step(Step(Step(s, ops[0]), ops[1]), ops[2]), ops[3])
  {
    var a, b, c := ops[1..], ops[2..], ops[3..];
    assert a[1..] == b && b[1..] == c && c[1..] == [];
    var x := Step(s, ops[0]);
    var y := Step(x, ops[1]);
    var z := Step(y, ops[2]);
    assert Run(Step(z, ops[3]), []) == Step(z, ops[3]);
    assert Run(z, c) == Step(z, ops[3]) && Run(y, b) == Run(z, c) && Run(x, a) == Run(y, b);
  }

  lemma {:induction false} RewrittenIsSound()
    ensures Find(REWRITTEN.cps, CpName(1)).Some? && Find(REWRITTEN.cps, CpName(1)).value.mark == 0
    ensures |After(REWRITTEN.journal, 0)| == 2
    ensures var w := After(REWRITTEN.journal, 0);
      w[0].path == "f" && w[0].before == Some("w") && w[1].path == "f" && w[1].before == None
  {
    MarkedIsSound();
    EditVanishEdit(EXISTING, EXISTING.cps[0], [Edit("f", "x", true, None, None, 2.0), TakeBack("f"),
                   Outside("f", None), Edit("f", "y", true, None, None, 3.0)], "f");
  }

  /** The report then says it was deleted, while the rollback puts it back. */
  lemma {:induction false} DeletedReportIsWrong()
    ensures "f" in ReportOf(REWRITTEN, CpName(1), {}).deleted
    ensures "f" in RolledBack(REWRITTEN, CpName(1), {}, 4.0).files
  {
    RewrittenIsSound();
    var w := After(REWRITTEN.journal, 0);
    assert w[1] in w;
    FirstOfTwo(w, "f");
    DeletedReportIff(REWRITTEN, CpName(1), {}, 4.0, "f");
    RollbackMeans(REWRITTEN, CpName(1), {}, 4.0, "f");
  }

  lemma {:induction false} FirstOfTwo(w: seq<Entry>, p: Path)
    requires |w| == 2 && w[0].path == p
    ensures FirstFor(w, p) == Some(w[0])
  {
    assert w[..1] == [w[0]] && w[..1][..0] == [];
    assert FirstFor(w[..1], p) == Some(w[0]);
  }

  // ---- a stale pre-image ----

  /** A file is created and edited, and a rollback removes it: what was noted of it stays. */
  lemma {:induction false} CreateEditBack(s: State, c: Checkpoint, one: Op, two: Op, back: Op)
    requires Core(s) && s.interval == 0 && c in s.cps && c.mark == s.num
    requires one.Edit? && two.Edit? && two.path == one.path && one.path !in s.files && one.path !in s.undo
    requires back.Rollback? && back.id == c.id && back.blocked == {}
    ensures var next := Step(Step(Step(s, one), two), back);
      && Core(next) && c in next.cps && c.mark <= next.num && next.interval == 0 && next.files == s.files
      && Stale(next, one.path) && next.undo[one.path] == one.content
  {
    var a := Step(s, one);
    var b := Step(a, two);
    PlainEdit(s, one);
    PlainEdit(a, two);
    assert c in b.cps;
    StepKeepsCore(b, back);
    FindMeans(b.cps, c.id);
    MarkedUpToMeans(b.cps, c.mark);
    assert c in Step(b, back).cps;
    TwoEditsUndone(s, c, one, two, back);
  }

  lemma {:induction false} TwoEditsUndone(s: State, c: Checkpoint, one: Op, two: Op, back: Op)
    requires Core(s) && s.interval == 0 && c in s.cps && c.mark == s.num
    requires one.Edit? && two.Edit? && two.path == one.path && one.path !in s.files && one.path !in s.undo
    requires back.Rollback? && back.id == c.id && back.blocked == {}
    ensures Step(Step(Step(s, one), two), back).files == s.files
  {
    var ops := [one, two];
    var b := Step(Step(s, one), two);
    PlainEdit(s, one);
    PlainEdit(Step(s, one), two);
    assert ops[1..] == [two] && [two][1..] == [];
    assert Run(b, []) == b && Run(Step(s, one), [two]) == b && Run(s, ops) == b;
    forall p: Path
      ensures Unmoved(s, ops, c.mark, p)
    {
      assert Unmoved(b, [], c.mark, p) && !Moves(Step(s, one), two, c.mark, p) && !Moves(s, one, c.mark, p);
      assert Unmoved(Step(s, one), [two], c.mark, p);
    }
    CheckpointRestoresWholeTree(s, c, ops, back.now);
  }

  /** Creating it again journals what was noted; so rolling back once more puts that there. */
  lemma {:induction false} CreatedAgain(s: State, c: Checkpoint, op: Op, now: real)
    requires Core(s) && s.interval == 0 && c in s.cps && c.mark <= s.num && After(s.journal, c.mark) == []
    requires op.Edit? && Stale(s, op.path)
    ensures Get(RolledBack(Step(s, op), c.id, {}, now).files, op.path) == Some(s.undo[op.path])
  {
    var e := EditEntry(s, op.path, op.content, op.hashed, op.pinned, op.actor, op.now);
    PlainEdit(s, op);
    BackIsTarget(Step(s, op), c, now, op.path);
    EditTarget(s, e, s.files[op.path := op.content], c.mark, op.path);
  }

  lemma {:induction false} StaleRun(s: State, c: Checkpoint, one: Op, two: Op, back: Op, three: Op, now: real)
    requires Core(s) && s.interval == 0 && c in s.cps && c.mark == s.num
    requires one.Edit? && two.Edit? && two.path == one.path && one.path !in s.files && one.path !in s.undo
    requires back.Rollback? && back.id == c.id && back.blocked == {} && three.Edit? && three.path == one.path
    ensures var next := Step(Step(Step(Step(s, one), two), back), three);
      Get(RolledBack(next, c.id, {}, now).files, one.path) == Some(one.content)
  {
    CreateEditBack(s, c, one, two, back);
    PlainEdit(s, one);
    PlainEdit(Step(s, one), two);
    NothingLeftAfter(Step(Step(s, one), two), c, back);
    CreatedAgain(Step(Step(Step(s, one), two), back), c, three, now);
  }

  /** One agent, a checkpoint and nothing but edits and rollbacks: a file the checkpoint never had
      comes back. */
  lemma {:induction false} StalePreImage(one: Op, two: Op, back: Op, three: Op)
    requires one == Edit("f", "x", true, None, None, 2.0) && two == Edit("f", "y", true, None, None, 3.0)
    requires back == Rollback(CpName(1), {}, 4.0) && three == Edit("f", "z", true, None, None, 5.0)
    ensures "f" !in MARKED.files
    ensures var s := Step(Step(Step(Step(MARKED, one), two), back), three);
      Get(RolledBack(s, CpName(1), {}, 6.0).files, "f") == Some("x")
  {
    MarkedIsSound();
    StaleRun(MARKED, MARKED.cps[0], one, two, back, three, 6.0);
  }

  lemma {:induction false} NothingLeftAfter(s: State, c: Checkpoint, back: Op)
    requires Core(s) && c in s.cps && back.Rollback? && back.id == c.id
    ensures After(Step(s, back).journal, c.mark) == []
  {
    FindMeans(s.cps, c.id);
    NothingLeft(s.journal, c.mark, c.mark);
  }

  // ---- writes of the agent that are not journaled ----

  /** A Python file written over by text that does not parse, or an edit taken back, with no edit
      journaled since the checkpoint: rolling back leaves it as it is. */
  lemma {:induction false} UnjournaledWriteStays(s: State, c: Checkpoint, op: Op, now: real, p: Path)
    requires Core(s) && c in s.cps && c.mark == s.num && (op.Break? || op.TakeBack?) && Bypasses(s, op, p)
    ensures Get(RolledBack(Step(s, op), c.id, {}, now).files, p) == Get(Step(s, op).files, p) != Get(s.files, p)
  {
    NothingAfter(s.journal, c.mark);
    StepKeepsCore(s, op);
    BackIsTarget(Step(s, op), c, now, p);
  }

  lemma {:induction false} BrokenFileStays(op: Op)
    requires op == Break("f", "(")
    ensures Get(EXISTING.files, "f") == Some("w")
    ensures Get(RolledBack(Step(EXISTING, op), CpName(1), {}, 2.0).files, "f") == Some("(")
  {
    MarkedIsSound();
    UnjournaledWriteStays(EXISTING, EXISTING.cps[0], op, 2.0, "f");
  }

  // ---- a clock that runs back ----

  /** A session that forgets what is older than a day. */
  const AGED := FRESH.(maxAgeDays := 1.0)

  lemma {:induction false} AgedIsSound()
    ensures WellFormed(AGED) && AGED.persist
  {
    MarkedIsSound();
  }

  /** Three edits of one file, the second one stamped early. */
  const EDITS := [Edit("f", "x", true, None, None, 1000000.0), Edit("f", "y", true, None, None, 5.0),
                  Edit("f", "z", true, None, None, 1000001.0)]

  lemma {:induction false} NextEdit(s: State, op: Op, p: Path)
    requires WellFormed(s) && s.interval == 0 && op.Edit? && op.hashed && op.path == p && op.now != 0.0
    requires Linked(s, 0, p) && !Stale(s, p)
    ensures var next := Step(s, op);
      && WellFormed(next) && next.interval == 0 && Linked(next, 0, p) && !Stale(next, p)
      && next.files == s.files[p := op.content] && next.num == s.num + 1 && next.cps == s.cps
      && next.persist == s.persist && next.maxAgeDays == s.maxAgeDays
      && |next.journal| == |s.journal| + 1 && next.journal[..|s.journal|] == s.journal
      && (var e := next.journal[|s.journal|];
          e.path == p && e.before == Get(s.files, p) && Age(e) == op.now && e.num == next.num)
  {
    PlainEdit(s, op);
    StepKeepsWellFormed(s, op);
    StepLinkedIff(s, op, 0, p);
  }

  /** Three edits of the path, of which the middle one is past the cap. */
  ghost predicate MiddleIsOld(w: seq<Entry>, cutoff: real, p: Path) {
    && |w| == 3 && (forall i :: 0 <= i < 3 ==> w[i].path == p && w[i].num >= 1)
    && w[1].before != w[2].before
    && Age(w[0]) >= cutoff && Age(w[1]) < cutoff && Age(w[2]) >= cutoff
  }

  /** A restart prunes it: the chain of the path is broken, though nobody else wrote it and no undo
      was refused. */
  lemma {:induction false} MiddlePruned(s: State, now: real, sameProcess: bool, p: Path)
    requires WellFormed(s) && s.persist && s.maxAgeDays > 0.0 && Linked(s, 0, p)
    requires MiddleIsOld(s.journal, now - s.maxAgeDays * SECONDS_PER_DAY, p)
    ensures !Linked(SetUp(s, now, sameProcess), 0, p)
  {
    ForgetsMiddle(s, now, Get(s.files, p), p);
    RestartLinkedIff(s, now, sameProcess, 0, p);
  }

  lemma {:induction false} ForgetsMiddle(s: State, now: real, there: Option<Content>, p: Path)
    requires s.persist && s.maxAgeDays > 0.0
    requires MiddleIsOld(s.journal, now - s.maxAgeDays * SECONDS_PER_DAY, p)
    ensures Forgets(s, now, 0, there, p)
  {
    AllCounted(s.journal, now - s.maxAgeDays * SECONDS_PER_DAY, p);
    LosesMiddle(s.journal, now - s.maxAgeDays * SECONDS_PER_DAY, there, p);
  }

  lemma {:induction false} AllCounted(w: seq<Entry>, cutoff: real, p: Path)
    requires MiddleIsOld(w, cutoff, p)
    ensures After(w, 0) == w
  {
    AllAfter(w, 0);
  }

  lemma {:induction false} UndoneFirst(e: Entry, rest: seq<Entry>, there: Option<Content>, p: Path)
    requires e.path == p
    ensures Undone([e] + rest, there, p) == e.before
  {
    FirstForConcat([e], rest, p);
    FirstForOne(e, p);
  }

  lemma {:induction false} YoungerPair(x: Entry, y: Entry, cutoff: real)
    requires Age(x) < cutoff && Age(y) >= cutoff
    ensures Younger([x] + [y], cutoff) == [y] + []
  {
    YoungerCons(x, [y], cutoff);
    YoungerCons(y, [], cutoff);
    assert [y] + [] == [y];
  }

  lemma {:induction false} LosesMiddle(w: seq<Entry>, cutoff: real, there: Option<Content>, p: Path)
    requires MiddleIsOld(w, cutoff, p)
    ensures PruneCuts(w, cutoff, there, p)
  {
    assert w[1..] == [w[1]] + [w[2]];
    YoungerPair(w[1], w[2], cutoff);
    UndoneFirst(w[1], [w[2]], there, p);
    UndoneFirst(w[2], [], there, p);
    assert LosesNext(w, 0, cutoff, there, p);
  }

  lemma {:induction false} TwoEdits(s: State, one: Op, two: Op, p: Path)
    requires WellFormed(s) && s.interval == 0 && s.journal == [] && Linked(s, 0, p) && !Stale(s, p)
    requires one.Edit? && one.hashed && one.path == p && one.now != 0.0
    requires two.Edit? && two.hashed && two.path == p && two.now != 0.0
    ensures var next := Step(Step(s, one), two);
      && WellFormed(next) && next.interval == 0 && Linked(next, 0, p) && !Stale(next, p)
      && Get(next.files, p) == Some(two.content) && next.cps == s.cps && next.persist == s.persist && next.maxAgeDays == s.maxAgeDays
      && |next.journal| == 2 && next.journal[0].path == next.journal[1].path == p
      && next.journal[1].before == Some(one.content)
      && Age(next.journal[0]) == one.now && Age(next.journal[1]) == two.now
      && next.num == next.journal[1].num
  {
    var a := Step(s, one);
    NextEdit(s, one, p);
    NextEdit(a, two, p);
    assert Step(a, two).journal[..1][0] == a.journal[0];
  }

  /** A third edit, stamped like the first. */
  lemma {:induction false} ThirdEdit(s: State, op: Op, now: real, p: Path)
    requires WellFormed(s) && s.interval == 0 && Linked(s, 0, p) && !Stale(s, p) && |s.journal| == 2
    requires s.journal[0].path == s.journal[1].path == p && s.journal[1].before != Get(s.files, p)
    requires op.Edit? && op.hashed && op.path == p && op.now != 0.0
    requires var cutoff := now - s.maxAgeDays * SECONDS_PER_DAY;
      Age(s.journal[0]) >= cutoff && Age(s.journal[1]) < cutoff && op.now >= cutoff
    ensures var next := Step(s, op);
      && WellFormed(next) && Linked(next, 0, p) && next.persist == s.persist && next.maxAgeDays == s.maxAgeDays
      && MiddleIsOld(next.journal, now - s.maxAgeDays * SECONDS_PER_DAY, p)
  {
    NextEdit(s, op, p);
    assert s.journal[0] in s.journal && s.journal[1] in s.journal;
    ThirdIsLate(s.journal, Step(s, op).journal, now - s.maxAgeDays * SECONDS_PER_DAY, p);
  }

  lemma {:induction false} ThirdIsLate(two: seq<Entry>, w: seq<Entry>, cutoff: real, p: Path)
    requires |two| == 2 && two[0].path == two[1].path == p && two[0].num >= 1 && two[1].num >= 1
    requires Age(two[0]) >= cutoff && Age(two[1]) < cutoff
    requires |w| == 3 && w[..2] == two && w[2].path == p && w[2].num >= 1
    requires Age(w[2]) >= cutoff && two[1].before != w[2].before
    ensures MiddleIsOld(w, cutoff, p)
  {
    assert w[0] == two[0] && w[1] == two[1];
  }

  lemma {:induction false} PrunedChainBreaks(b: State, s: State)
    requires b == Step(Step(AGED, EDITS[0]), EDITS[1]) && s == Step(b, EDITS[2])
    ensures Linked(s, 0, "f") && !Linked(SetUp(s, 1000002.0, false), 0, "f")
  {
    AgedIsSound();
    TwoEdits(AGED, EDITS[0], EDITS[1], "f");
    ThirdEdit(b, EDITS[2], 1000002.0, "f");
    MiddlePruned(s, 1000002.0, false, "f");
  }

  /** A restart prunes the last edit and keeps an older one: a marker that was within the journal is
      ahead of the numbering. */
  lemma {:induction false} NewestPruned(s: State, now: real, c: Checkpoint)
    requires WellFormed(s) && s.persist && s.maxAgeDays > 0.0 && |s.journal| == 2
    requires c in s.cps && c.mark == s.journal[1].num
    requires var cutoff := now - s.maxAgeDays * SECONDS_PER_DAY;
      Age(s.journal[0]) >= cutoff && Age(s.journal[1]) < cutoff
    ensures c.mark <= LastSeq(s.journal) && !NoMarkerAhead(Restarted(s, now))
  {
    var cutoff, w := now - s.maxAgeDays * SECONDS_PER_DAY, s.journal;
    assert w == [w[0]] + [w[1]];
    LoadReturnsJournal(s.disk, w);
    YoungerCons(w[0], [w[1]], cutoff);
    YoungerCons(w[1], [], cutoff);
    assert [w[1]] + [] == [w[1]];
    RestartStrandsNoMarkerIff(s, now);
  }

  lemma {:induction false} EarlyStampStrands(b: State, title: string)
    requires b == Step(Step(AGED, EDITS[0]), EDITS[1])
    ensures var s := Created(b, title, false, 6.0);
      && (forall c :: c in s.cps ==> c.mark <= LastSeq(s.journal))
      && !NoMarkerAhead(Restarted(s, 1000002.0))
  {
    AgedIsSound();
    TwoEdits(AGED, EDITS[0], EDITS[1], "f");
    CreatedMeans(b, title, false, 6.0);
    CreatedKeeps(b, title, false, 6.0);
    var s := Created(b, title, false, 6.0);
    NewestPruned(s, 1000002.0, s.cps[0]);
  }
}
