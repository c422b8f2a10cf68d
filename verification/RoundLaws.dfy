/** A round of a live session, seen through its changeset. */
module RoundLaws {
  import opened Options
  import opened Journal
  import opened Sorting
  import opened CheckpointSession
  import opened CheckpointInvariant
  import opened CheckpointRuns
  import opened Revisions
  import opened Changesets
  import opened ChangesetLaws
  import CheckpointStore

  /** A round in which every journaled edit of `p` is `me`'s. Anything else may happen to `p`: rollbacks
      of whatever depth, taking edits back, and writes by others. */
  ghost predicate OwnRound(ops: seq<Op>, me: Option<string>, p: Path) {
    forall op :: op in ops ==>
      && !op.Restart?
      && (op.Edit? && op.path == p ==> op.actor == me)
  }

  // ---- the row, in terms of the end of the round ----

  /** When one actor made every edit of `p`, its entries begin and end where the window's do. */
  lemma {:induction false} MineSpans(window: seq<Entry>, me: Option<string>, p: Path)
    requires forall e :: e in window && e.path == p ==> e.actor == me
    ensures var mine := MineOf(window, me, p);
            && (mine == [] <==> FirstFor(window, p).None?) && (mine == [] <==> LastFor(window, p).None?)
            && (mine != [] ==> Some(mine[0]) == FirstFor(window, p) && Some(mine[|mine| - 1]) == LastFor(window, p))
  {
    if window != [] {
      var n := |window| - 1;
      assert window == window[..n] + [window[n]];
      MineSpans(window[..n], me, p);
    }
  }

  lemma {:induction false} MineOrdered(window: seq<Entry>, me: Option<string>, p: Path)
    requires Ordered(window)
    ensures Ordered(MineOf(window, me, p))
  {
    if window != [] {
      var n := |window| - 1;
      MineOrdered(window[..n], me, p);
      MineOfMeans(window[..n], me, p);
      forall e | e in MineOf(window[..n], me, p)
        ensures e.num < window[n].num
      {
        var i :| 0 <= i < n && window[..n][i] == e;
      }
    }
  }

  lemma {:induction false} MineIsSorted(window: seq<Entry>, me: Option<string>, p: Path)
    requires Ordered(window)
    ensures Mine(window, me, p) == MineOf(window, me, p)
  {
    MineOrdered(window, me, p);
    SortIdentity(MineOf(window, me, p), CheckpointStore.ByNum);
  }

  lemma {:induction false} NoStrangers(window: seq<Entry>, me: Option<string>, p: Path)
    requires forall e :: e in window && e.path == p ==> e.actor == me
    ensures OthersOf(window, me, p) == []
  {
    if window != [] {
      var n := |window| - 1;
      assert window == window[..n] + [window[n]];
      NoStrangers(window[..n], me, p);
    }
  }

  /** The tree as the collector reads it, all files being text. */
  function TreeOf(files: Files): Path -> OnDisk {
    p => if p in files then Text(files[p]) else Gone
  }

  /** The collector's view of everything after the marker. */
  function RoundSince(s: State, mark: nat, me: Option<string>): Round {
    Round(After(s.journal, mark), me, TreeOf(s.files))
  }

  /** A path only this actor edited is diffed from its oldest pre-image, with its last hash known. */
  lemma {:induction false} ItemSpans(window: seq<Entry>, files: Files, me: Option<string>, p: Path,
                                     differ: Differ)
    requires Ordered(window) && p in MyPaths(window, me)
    requires forall e :: e in window && e.path == p ==> e.actor == me
    ensures FirstFor(window, p).Some? && LastFor(window, p).Some?
    ensures Round(window, me, TreeOf(files)).ItemFor(p, differ) ==
            MakeItem(p, FirstFor(window, p).value.before, LastFor(window, p).value.afterSha, [],
                     TreeOf(files)(p), differ)
  {
    MineSpans(window, me, p);
    MineIsSorted(window, me, p);
    MineOfMeans(window, me, p);
    NoStrangers(window, me, p);
  }

  // ---- what the row starts from, step by step ----

  /** What rolling the window back would put at `p`: what its row, if any, starts from. */
  function Opening(s: State, mark: int, p: Path): Option<Content> {
    Restored(s.files, s.journal, mark, p)
  }

  /** What the step makes the row start from, if it changes that: a rollback that leaves none of the
      window's entries for `p`, or, where there are none, a journaled creation with a stale pre-image
      or a write that is not journaled. */
  function Sets(s: State, op: Op, mark: int, p: Path): Option<Option<Content>> {
    match op
    case Edit(path, _, _, _, _, _) =>
      if path == p && Stale(s, p) && FirstFor(After(s.journal, mark), p).None? then Some(PreImage(s, p)) else None
    case Rollback(id, _, _) =>
      (match Find(s.cps, id)
       case None => None
       case Some(c) =>
         if FirstFor(After(UpTo(s.journal, c.mark), mark), p).None? then Some(Get(Step(s, op).files, p)) else None)
    case _ =>
      if Bypasses(s, op, p) && FirstFor(After(s.journal, mark), p).None? then Some(Get(Step(s, op).files, p)) else None
  }

  lemma {:induction false} RollbackOpening(s: State, op: Op, c: Checkpoint, mark: nat, p: Path)
    requires Core(s) && op.Rollback? && Find(s.cps, op.id) == Some(c)
    ensures Opening(Step(s, op), mark, p) == Otherwise(Sets(s, op, mark, p), Opening(s, mark, p))
  {
    if mark <= c.mark {
      WindowSplits(s.journal, mark, c.mark);
      FirstForConcat(After(UpTo(s.journal, c.mark), mark), After(s.journal, c.mark), p);
    } else {
      NothingLeft(s.journal, mark, c.mark);
    }
  }

  /** Only such a step moves what the row starts from. */
  lemma {:induction false} StepOpening(s: State, op: Op, mark: nat, p: Path)
    requires Core(s) && mark <= s.num && !op.Restart?
    ensures Opening(Step(s, op), mark, p) == Otherwise(Sets(s, op, mark, p), Opening(s, mark, p))
  {
    match op
    case Edit(path, content, hashed, pinned, actor, now) =>
      EditedMeans(s, path, content, hashed, pinned, actor, now);
      PreImageIsRightIff(s, path);
      EditTarget(s, EditEntry(s, path, content, hashed, pinned, actor, now), s.files[path := content], mark, p);
    case Rollback(id, _, _) =>
      var found := Find(s.cps, id);
      if found.Some? {
        RollbackOpening(s, op, found.value, mark, p);
      }
    case _ =>
  }

  /** A rollback that does not go below the window's opening moves nothing, if it undoes `p`. */
  lemma {:induction false} ShallowRollbackKeeps(s: State, op: Op, c: Checkpoint, mark: nat, p: Path)
    requires Core(s) && op.Rollback? && Find(s.cps, op.id) == Some(c)
    requires mark <= c.mark && p !in op.blocked
    ensures Opening(Step(s, op), mark, p) == Opening(s, mark, p)
  {
    CutBackTarget(s, c, op.blocked, op.now, mark, p);
  }

  /** One that goes below it makes the row start from what that checkpoint held, or, where the undo is
      refused, from what is there. */
  lemma {:induction false} DeepRollbackResets(s: State, op: Op, c: Checkpoint, mark: int, p: Path)
    requires Core(s) && op.Rollback? && Find(s.cps, op.id) == Some(c) && c.mark < mark
    ensures Sets(s, op, mark, p) == Some(if p in op.blocked then Get(s.files, p) else Target(s, c, p))
  {
    NothingLeft(s.journal, mark, c.mark);
    RollbackMeans(s, op.id, op.blocked, op.now, p);
  }

  /** What the last such step of the run made the row start from, if there was one. */
  function LastSet(s: State, ops: seq<Op>, mark: int, p: Path): Option<Option<Content>>
    decreases |ops|
  {
    if ops == [] then None
    else
      var later := LastSet(Step(s, ops[0]), ops[1..], mark, p);
      if later.Some? then later else Sets(s, ops[0], mark, p)
  }

  lemma {:induction false} StepKeepsRound(s: State, ops: seq<Op>, me: Option<string>, p: Path)
    requires Core(s) && OwnRound(ops, me, p) && ops != []
    ensures Core(Step(s, ops[0])) && s.num <= Step(s, ops[0]).num && OwnRound(ops[1..], me, p)
  {
    assert ops[0] in ops && forall op :: op in ops[1..] ==> op in ops;
    StepKeepsCore(s, ops[0]);
    StepKeepsNum(s, ops[0]);
  }

  lemma {:induction false} RunOpening(s: State, ops: seq<Op>, me: Option<string>, mark: nat, p: Path)
    requires Core(s) && mark <= s.num && OwnRound(ops, me, p)
    ensures Opening(Run(s, ops), mark, p) == Otherwise(LastSet(s, ops, mark, p), Opening(s, mark, p))
    decreases |ops|
  {
    if ops != [] {
      assert ops[0] in ops;
      StepKeepsRound(s, ops, me, p);
      StepOpening(s, ops[0], mark, p);
      RunOpening(Step(s, ops[0]), ops[1..], me, mark, p);
    }
  }

  /** A rollback to a checkpoint older than the window. */
  predicate GoesBelow(s: State, op: Op, mark: int) {
    op.Rollback? && Find(s.cps, op.id).Some? && Find(s.cps, op.id).value.mark < mark
  }

  /** What the last rollback below the window's opening left at `p`, if there was one. */
  function LastBelow(s: State, ops: seq<Op>, mark: int, p: Path): Option<Option<Content>>
    decreases |ops|
  {
    if ops == [] then None
    else
      var later := LastBelow(Step(s, ops[0]), ops[1..], mark, p);
      if later.Some? then later
      else if GoesBelow(s, ops[0], mark) then Some(Get(Step(s, ops[0]).files, p))
      else None
  }

  lemma {:induction false} StepBelow(s: State, op: Op, mark: nat, p: Path)
    requires Core(s) && mark <= s.num && !op.Restart? && !Disturbs(s, op, p)
    ensures Opening(Step(s, op), mark, p) ==
            if GoesBelow(s, op, mark) then Get(Step(s, op).files, p) else Opening(s, mark, p)
  {
    StepOpening(s, op, mark, p);
    if op.Rollback? && Find(s.cps, op.id).Some? {
      var c := Find(s.cps, op.id).value;
      if c.mark < mark {
        DeepRollbackResets(s, op, c, mark, p);
      } else {
        ShallowRollbackKeeps(s, op, c, mark, p);
      }
    }
  }

  /** Where every step leaves `p` to the journal, only rollbacks below the window's opening count. */
  lemma {:induction false} RunBelow(s: State, ops: seq<Op>, me: Option<string>, mark: nat, p: Path)
    requires Core(s) && mark <= s.num && OwnRound(ops, me, p)
    requires Undisturbed(s, ops, p)
    ensures Opening(Run(s, ops), mark, p) == Otherwise(LastBelow(s, ops, mark, p), Opening(s, mark, p))
    decreases |ops|
  {
    if ops != [] {
      assert ops[0] in ops;
      StepKeepsRound(s, ops, me, p);
      StepBelow(s, ops[0], mark, p);
      RunBelow(Step(s, ops[0]), ops[1..], me, mark, p);
    }
  }

  // ---- who wrote the window ----

  ghost predicate AllMine(s: State, mark: int, me: Option<string>, p: Path) {
    forall e :: e in After(s.journal, mark) && e.path == p ==> e.actor == me
  }

  lemma {:induction false} StepKeepsMine(s: State, op: Op, mark: int, me: Option<string>, p: Path)
    requires Core(s) && mark <= s.num && OwnRound([op], me, p) && AllMine(s, mark, me, p)
    ensures AllMine(Step(s, op), mark, me, p)
  {
    assert op in [op];
    match op
    case Edit(path, content, hashed, pinned, actor, now) =>
      EditedMeans(s, path, content, hashed, pinned, actor, now);
      AfterAppend(s.journal, EditEntry(s, path, content, hashed, pinned, actor, now), mark);
    case Rollback(id, blocked, now) =>
      if Find(s.cps, id).Some? {
        var cut := Find(s.cps, id).value.mark;
        AfterMembers(s.journal, cut);
        AfterMembers(s.journal, mark);
        AfterMembers(UpTo(s.journal, cut), mark);
      }
    case _ =>
  }

  lemma {:induction false} RunKeepsMine(s: State, ops: seq<Op>, mark: int, me: Option<string>, p: Path)
    requires Core(s) && mark <= s.num && OwnRound(ops, me, p) && AllMine(s, mark, me, p)
    ensures Core(Run(s, ops)) && AllMine(Run(s, ops), mark, me, p)
    decreases |ops|
  {
    if ops != [] {
      assert ops[0] in ops;
      StepKeepsRound(s, ops, me, p);
      StepKeepsMine(s, ops[0], mark, me, p);
      RunKeepsMine(Step(s, ops[0]), ops[1..], mark, me, p);
    }
  }

  // ---- the theorems ----

  /** The row the changeset shows for `p` at the end of such a round. */
  lemma {:induction false} RoundRow(s: State, ops: seq<Op>, me: Option<string>, p: Path,
                 differ: Differ, limits: Limits, turn: int, f: FileChange)
    returns (item: Item, left: int)
    requires Core(s) && OwnRound(ops, me, p)
    requires f in Collected(RoundSince(Run(s, ops), s.num, me), differ, limits, turn).files && f.path == p
    ensures var end := Run(s, ops);
      && LastFor(After(end.journal, s.num), p).Some?
      && item == MakeItem(p, Opening(end, s.num, p), LastFor(After(end.journal, s.num), p).value.afterSha, [],
                          TreeOf(end.files)(p), differ)
      && f == Change(item, limits, left)
  {
    var end := Run(s, ops);
    NothingAfter(s.journal, s.num);
    RunKeepsMine(s, ops, s.num, me, p);
    AfterOrdered(end.journal, s.num);
    left := CollectedRow(RoundSince(end, s.num, me), differ, limits, turn, f);
    ItemSpans(After(end.journal, s.num), end.files, me, p, differ);
    item := RoundSince(end, s.num, me).ItemFor(p, differ);
  }

  /** Its status: against what undoing the window would leave, not against what the round found. */
  lemma {:induction false} RoundRowStatus(s: State, ops: seq<Op>, me: Option<string>, p: Path,
                       differ: Differ, limits: Limits, turn: int, f: FileChange)
    requires Core(s) && OwnRound(ops, me, p)
    requires f in Collected(RoundSince(Run(s, ops), s.num, me), differ, limits, turn).files && f.path == p
    ensures f.status == if p !in Run(s, ops).files then Deleted
                        else if Opening(Run(s, ops), s.num, p).None? then Added else Modified
  {
    var item, left := RoundRow(s, ops, me, p, differ, limits, turn, f);
  }

  /** A path whose last edit is the round's last step is listed. */
  lemma {:induction false} LastEditIsListed(s: State, op: Op, mark: nat, differ: Differ, limits: Limits,
                                            turn: int)
    requires Core(s) && op.Edit? && mark <= s.num
    ensures Lists(Collected(RoundSince(Step(s, op), mark, op.actor), differ, limits, turn).files, op.path)
  {
    var e := EditEntry(s, op.path, op.content, op.hashed, op.pinned, op.actor, op.now);
    var r := RoundSince(Step(s, op), mark, op.actor);
    EditedMeans(s, op.path, op.content, op.hashed, op.pinned, op.actor, op.now);
    AfterAppend(s.journal, e, mark);
    assert e in r.window;
    CollectedPaths(r, differ, limits, turn, op.path);
  }

  /**
   * Open a window, let a round happen in which every journaled edit of `p` is this agent's, and
   * collect. The row of `p` diffs the content at window open exactly when no step made it start from
   * something else, or the last one that did made it start from that very content.
   */
  lemma {:induction false} RoundRowIsExactIff(s: State, ops: seq<Op>, me: Option<string>, p: Path,
                           differ: Differ, limits: Limits, turn: int, f: FileChange)
    requires Core(s) && OwnRound(ops, me, p)
    requires f in Collected(RoundSince(Run(s, ops), s.num, me), differ, limits, turn).files && f.path == p
    ensures p in MyPaths(After(Run(s, ops).journal, s.num), me)
    ensures RoundSince(Run(s, ops), s.num, me).ItemFor(p, differ).before == Get(s.files, p) <==>
            Otherwise(LastSet(s, ops, s.num, p), Get(s.files, p)) == Get(s.files, p)
  {
    var _ := CollectedRow(RoundSince(Run(s, ops), s.num, me), differ, limits, turn, f);
    RoundItem(s, ops, me, p, differ);
    NothingAfter(s.journal, s.num);
    RunOpening(s, ops, me, s.num, p);
  }

  /** In a round whose steps leave `p` to the journal: exactly when no rollback went below the window's opening, or
      what the last such rollback put at `p` is the content at window open. */
  lemma {:induction false} RoundRowIsExactUnlessBelow(s: State, ops: seq<Op>, me: Option<string>, p: Path,
                                   differ: Differ, limits: Limits, turn: int, f: FileChange)
    requires Core(s) && OwnRound(ops, me, p) && Undisturbed(s, ops, p)
    requires f in Collected(RoundSince(Run(s, ops), s.num, me), differ, limits, turn).files && f.path == p
    ensures p in MyPaths(After(Run(s, ops).journal, s.num), me)
    ensures RoundSince(Run(s, ops), s.num, me).ItemFor(p, differ).before == Get(s.files, p) <==>
            Otherwise(LastBelow(s, ops, s.num, p), Get(s.files, p)) == Get(s.files, p)
  {
    var _ := CollectedRow(RoundSince(Run(s, ops), s.num, me), differ, limits, turn, f);
    RoundItem(s, ops, me, p, differ);
    NothingAfter(s.journal, s.num);
    RunBelow(s, ops, me, s.num, p);
  }

  lemma {:induction false} RoundItem(s: State, ops: seq<Op>, me: Option<string>, p: Path, differ: Differ)
    requires Core(s) && OwnRound(ops, me, p) && p in MyPaths(After(Run(s, ops).journal, s.num), me)
    ensures RoundSince(Run(s, ops), s.num, me).ItemFor(p, differ).before == Opening(Run(s, ops), s.num, p)
  {
    var end := Run(s, ops);
    NothingAfter(s.journal, s.num);
    RunKeepsMine(s, ops, s.num, me, p);
    AfterOrdered(end.journal, s.num);
    ItemSpans(After(end.journal, s.num), end.files, me, p, differ);
  }

  // ---- the foreign flag ----

  ghost predicate AllKnown(s: State, mark: int, p: Path) {
    forall e :: e in After(s.journal, mark) && e.path == p ==> e.afterSha.Some?
  }

  lemma {:induction false} StepKeepsKnown(s: State, op: Op, mark: int, p: Path)
    requires Core(s) && mark <= s.num && !op.Restart? && !Breaks(s, op, mark, p) && AllKnown(s, mark, p)
    ensures AllKnown(Step(s, op), mark, p)
  {
    match op
    case Edit(path, content, hashed, pinned, actor, now) =>
      EditedMeans(s, path, content, hashed, pinned, actor, now);
      AfterAppend(s.journal, EditEntry(s, path, content, hashed, pinned, actor, now), mark);
    case Rollback(id, blocked, now) =>
      if Find(s.cps, id).Some? {
        var cut := Find(s.cps, id).value.mark;
        AfterMembers(s.journal, cut);
        AfterMembers(s.journal, mark);
        AfterMembers(UpTo(s.journal, cut), mark);
      }
    case _ =>
  }

  lemma {:induction false} RunKeepsLinked(s: State, ops: seq<Op>, me: Option<string>, mark: int, p: Path)
    requires Core(s) && mark <= s.num && OwnRound(ops, me, p) && Unbroken(s, ops, mark, p)
    requires Linked(s, mark, p) && AllKnown(s, mark, p)
    ensures Linked(Run(s, ops), mark, p) && AllKnown(Run(s, ops), mark, p)
    decreases |ops|
  {
    if ops != [] {
      assert ops[0] in ops;
      StepKeepsRound(s, ops, me, p);
      StepLinkedIff(s, ops[0], mark, p);
      StepKeepsKnown(s, ops[0], mark, p);
      RunKeepsLinked(Step(s, ops[0]), ops[1..], me, mark, p);
    }
  }

  lemma {:induction false} LastForMember(window: seq<Entry>, p: Path)
    ensures LastFor(window, p).Some? ==> LastFor(window, p).value in window && LastFor(window, p).value.path == p
  {
    if window != [] {
      LastForMember(window[..|window| - 1], p);
    }
  }

  /** A round that does not break the chain of `p` does not flag it. */
  lemma {:induction false} OwnRoundIsNotFlagged(s: State, ops: seq<Op>, me: Option<string>, p: Path,
                             differ: Differ, limits: Limits, turn: int, f: FileChange)
    requires Core(s) && OwnRound(ops, me, p) && Unbroken(s, ops, s.num, p)
    requires f in Collected(RoundSince(Run(s, ops), s.num, me), differ, limits, turn).files && f.path == p
    ensures !f.foreignEdit
  {
    var end := Run(s, ops);
    var item, left := RoundRow(s, ops, me, p, differ, limits, turn, f);
    NothingAfter(s.journal, s.num);
    RunKeepsLinked(s, ops, me, s.num, p);
    var window := After(end.journal, s.num);
    LastForMember(window, p);
    RunKeepsCore(s, ops);
    AfterMembers(end.journal, s.num);
    ChainedIff(window, Get(end.files, p), p);
  }
}
