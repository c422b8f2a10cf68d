/** What a rollback gives back, over every run of a session. */
module CheckpointRuns {
  import opened Options
  import opened Journal
  import opened CheckpointStore
  import opened Mirror
  import opened CheckpointSession
  import opened CheckpointInvariant

  /** The content a rollback to `c` would put at `p` now. */
  function Target(s: State, c: Checkpoint, p: Path): Option<Content> {
    Restored(s.files, s.journal, c.mark, p)
  }

  /** The file is gone, yet the tools still hold what they once found there. */
  predicate Stale(s: State, p: Path) {
    p !in s.files && p in s.undo
  }

  /** The step changes what is at `p` and journals nothing. */
  predicate Bypasses(s: State, op: Op, p: Path) {
    (op.Outside? || op.Break? || op.TakeBack?) && Get(Step(s, op).files, p) != Get(s.files, p)
  }

  /** A restart prunes the oldest entry of `p` after the marker, and what is then the oldest one, or
      the file itself, says something else. */
  predicate Prunes(s: State, now: real, mark: nat, p: Path) {
    s.persist && s.maxAgeDays > 0.0 &&
    var cutoff := now - s.maxAgeDays * SECONDS_PER_DAY;
    match FirstFor(After(s.journal, mark), p)
    case None => false
    case Some(e) => Age(e) < cutoff && Restored(s.files, Younger(s.journal, cutoff), mark, p) != e.before
  }

  /** The step changes what undoing everything after the marker would put at `p`. Where the journal
      has no entry of `p` after the marker: a journaled creation with a stale pre-image, a write that
      is not journaled, or any edit while the marker is ahead of the numbering. Where it is left with
      none: a refused undo. And a restart that prunes the entry that matters. */
  predicate Moves(s: State, op: Op, mark: nat, p: Path) {
    match op
    case Edit(path, content, _, _, _, _) =>
      path == p && FirstFor(After(s.journal, mark), p).None? &&
      if mark <= s.num then Stale(s, p) else Get(s.files, p) != Some(content)
    case Rollback(id, blocked, _) =>
      (match Find(s.cps, id)
       case None => false
       case Some(c) =>
         p in blocked && FirstFor(After(UpTo(s.journal, c.mark), mark), p).None? && Get(s.files, p) != Target(s, c, p))
    case Restart(now, _) => Prunes(s, now, mark, p)
    case _ => Bypasses(s, op, p) && FirstFor(After(s.journal, mark), p).None?
  }

  /** The step can move the target of some checkpoint. */
  predicate Disturbs(s: State, op: Op, p: Path) {
    || Bypasses(s, op, p)
    || (op.Rollback? && p in op.blocked)
    || (op.Edit? && op.path == p && Stale(s, p))
  }

  // ---- one step ----

  /** A rollback puts each path it may write at its target, and leaves each it may not. */
  lemma {:induction false} RollbackMeans(s: State, id: string, blocked: set<Path>, now: real, p: Path)
    requires Find(s.cps, id).Some?
    ensures Get(RolledBack(s, id, blocked, now).files, p) ==
            if p in blocked then Get(s.files, p) else Target(s, Find(s.cps, id).value, p)
  {
    var c := Find(s.cps, id).value;
    ReplayMeans(s.files, After(s.journal, c.mark), blocked, p);
  }

  /** Rolling back to a live checkpoint with nothing in the way puts each path at its target. */
  lemma {:induction false} BackIsTarget(s: State, c: Checkpoint, now: real, p: Path)
    requires Core(s) && c in s.cps
    ensures Get(RolledBack(s, c.id, {}, now).files, p) == Target(s, c, p)
  {
    FindMeans(s.cps, c.id);
    RollbackMeans(s, c.id, {}, now, p);
  }

  function EditEntry(s: State, path: Path, content: Content, hashed: bool, pinned: Option<string>,
                     actor: Option<string>, now: real): Entry {
    EntryOf(s, path, PreImage(s, path), if hashed then Some(Sha(content)) else None, pinned, actor, now)
  }

  /** An automatic checkpoint may follow, but touches neither the tree nor the journal. */
  lemma {:induction false} EditedMeans(s: State, path: Path, content: Content, hashed: bool,
                                       pinned: Option<string>,
                    actor: Option<string>, now: real)
    ensures var next := Edited(s, path, content, hashed, pinned, actor, now);
            && next.files == s.files[path := content] && next.undo == Noted(s, path)
            && next.journal == s.journal + [EditEntry(s, path, content, hashed, pinned, actor, now)]
            && next.num == s.num + 1
  {
  }

  /** The pre-image an edit journals is what is on disk exactly unless it is stale. */
  lemma {:induction false} PreImageIsRightIff(s: State, p: Path)
    ensures PreImage(s, p) == Get(s.files, p) <==> p in s.files || p !in s.undo
  {
  }

  /** The journal's first entry for a path after the marker decides; later ones change nothing. */
  lemma {:induction false} EditTarget(s: State, e: Entry, files: Files, mark: nat, p: Path)
    requires mark < e.num
    requires p != e.path ==> Get(files, p) == Get(s.files, p)
    ensures Restored(files, s.journal + [e], mark, p) ==
            if p == e.path && FirstFor(After(s.journal, mark), p).None? then e.before
            else Restored(s.files, s.journal, mark, p)
  {
    AfterAppend(s.journal, e, mark);
    var window := After(s.journal, mark);
    assert (window + [e])[..|window|] == window;
  }

  /** An edit keeps what an earlier marker would restore at its path exactly when the journal has an
      entry for the path after the marker already, or the pre-image is right. */
  lemma {:induction false} EditKeepsTargetIff(s: State, op: Op, mark: nat)
    requires op.Edit? && mark <= s.num
    ensures Restored(Step(s, op).files, Step(s, op).journal, mark, op.path) ==
            Restored(s.files, s.journal, mark, op.path) <==>
            FirstFor(After(s.journal, mark), op.path).Some? || PreImage(s, op.path) == Get(s.files, op.path)
  {
    EditedMeans(s, op.path, op.content, op.hashed, op.pinned, op.actor, op.now);
    EditTarget(s, EditEntry(s, op.path, op.content, op.hashed, op.pinned, op.actor, op.now),
               s.files[op.path := op.content], mark, op.path);
  }

  /**
   * The target of an earlier marker at `p` after rolling back to a later one. It moves only where
   * the undo was refused, nothing older is journaled, and the content differs.
   */
  lemma {:induction false} CutBackTarget(s: State, c: Checkpoint, blocked: set<Path>, now: real, mark: nat,
                                         p: Path)
    requires Ordered(s.journal) && mark <= c.mark
    ensures var next := CutBack(s, c, blocked, now);
            Restored(next.files, next.journal, mark, p) == Restored(s.files, s.journal, mark, p) <==>
            || p !in blocked
            || FirstFor(After(UpTo(s.journal, c.mark), mark), p).Some?
            || Get(s.files, p) == Target(s, c, p)
  {
    WindowSplits(s.journal, mark, c.mark);
    FirstForConcat(After(UpTo(s.journal, c.mark), mark), After(s.journal, c.mark), p);
    ReplayMeans(s.files, After(s.journal, c.mark), blocked, p);
  }

  /** No entry after the marker is past the age cap at a restart. */
  ghost predicate WindowYoung(s: State, now: real, mark: int) {
    s.maxAgeDays <= 0.0 ||
    forall e :: e in s.journal && e.num > mark ==> Age(e) >= now - s.maxAgeDays * SECONDS_PER_DAY
  }

  /** What a restart leaves of the journal. */
  function Remembered(s: State, now: real): seq<Entry> {
    if !s.persist then []
    else if s.maxAgeDays > 0.0 then Younger(s.journal, now - s.maxAgeDays * SECONDS_PER_DAY)
    else s.journal
  }

  lemma {:induction false} RestartedJournal(s: State, now: real, sameProcess: bool)
    requires WellFormed(s)
    ensures SetUp(s, now, sameProcess).files == s.files && SetUp(s, now, sameProcess).journal == Remembered(s, now)
  {
    if s.persist {
      RestartMeans(s, now);
      LoadReturnsJournal(s.disk, s.journal);
    }
  }

  lemma {:induction false} FirstYoung(window: seq<Entry>, cutoff: real, p: Path)
    ensures FirstFor(window, p).None? ==> FirstFor(Younger(window, cutoff), p).None?
    ensures FirstFor(window, p).Some? && Age(FirstFor(window, p).value) >= cutoff ==>
              FirstFor(Younger(window, cutoff), p) == FirstFor(window, p)
  {
    if window != [] {
      var n := |window| - 1;
      var rest := Younger(window[..n], cutoff);
      FirstYoung(window[..n], cutoff, p);
      assert (rest + [window[n]])[..|rest|] == rest;
    }
  }

  /** A restart keeps what a checkpoint restores exactly unless it prunes the entry that matters. */
  lemma {:induction false} RestartKeepsTargetIff(s: State, now: real, sameProcess: bool, c: Checkpoint, p: Path)
    requires WellFormed(s) && s.persist
    ensures Target(SetUp(s, now, sameProcess), c, p) == Target(s, c, p) <==> !Prunes(s, now, c.mark, p)
  {
    RestartedJournal(s, now, sameProcess);
    RememberedTargetIff(s, SetUp(s, now, sameProcess), now, c, p);
  }

  lemma {:induction false} RememberedTargetIff(s: State, next: State, now: real, c: Checkpoint, p: Path)
    requires s.persist && next.files == s.files && next.journal == Remembered(s, now)
    ensures Target(next, c, p) == Target(s, c, p) <==> !Prunes(s, now, c.mark, p)
  {
    OldFirstDecides(s, now - s.maxAgeDays * SECONDS_PER_DAY, c.mark, p);
  }

  /** Only the age of the first entry after the marker can matter. */
  lemma {:induction false} OldFirstDecides(s: State, cutoff: real, mark: nat, p: Path)
    ensures var first := FirstFor(After(s.journal, mark), p);
      first.None? || Age(first.value) >= cutoff ==>
        Restored(s.files, Younger(s.journal, cutoff), mark, p) == Restored(s.files, s.journal, mark, p)
  {
    YoungerAfter(s.journal, cutoff, mark);
    FirstYoung(After(s.journal, mark), cutoff, p);
  }

  lemma {:induction false} YoungWindowStays(s: State, now: real, mark: nat, p: Path)
    requires WindowYoung(s, now, mark)
    ensures !Prunes(s, now, mark, p)
  {
    FirstForMember(After(s.journal, mark), p);
    AfterMembers(s.journal, mark);
  }

  lemma {:induction false} EditKeepsTarget(s: State, op: Op, c: Checkpoint, p: Path)
    requires Core(s) && op.Edit?
    ensures Target(Step(s, op), c, p) == Target(s, c, p) <==> !Moves(s, op, c.mark, p)
  {
    var e := EditEntry(s, op.path, op.content, op.hashed, op.pinned, op.actor, op.now);
    EditedMeans(s, op.path, op.content, op.hashed, op.pinned, op.actor, op.now);
    if c.mark <= s.num {
      EditTarget(s, e, s.files[op.path := op.content], c.mark, p);
    } else {
      AfterAppend(s.journal, e, c.mark);
      NothingAfter(s.journal, c.mark);
    }
  }

  /** What a surviving checkpoint would restore at `p` stays the same over a step exactly unless the
      step moves it. */
  lemma {:induction false} StepKeepsTargetIff(s: State, op: Op, c: Checkpoint, p: Path)
    requires Core(s) && (op.Restart? ==> Durable(s)) && c in Step(s, op).cps
    ensures Target(Step(s, op), c, p) == Target(s, c, p) <==> !Moves(s, op, c.mark, p)
  {
    match op
    case Edit(_, _, _, _, _, _) => EditKeepsTarget(s, op, c, p);
    case Rollback(id, blocked, now) =>
      var found := Find(s.cps, id);
      if found.Some? {
        MarkedUpToMeans(s.cps, found.value.mark);
        CutBackTarget(s, found.value, blocked, now, c.mark, p);
      }
    case Restart(now, sameProcess) => RestartKeepsTargetIff(s, now, sameProcess, c, p);
    case _ =>
  }

  /** A step that leaves `p` to the journal moves no checkpoint's target there. */
  lemma {:induction false} UndisturbedStays(s: State, op: Op, mark: nat, p: Path)
    requires !Disturbs(s, op, p) && !op.Restart? && mark <= s.num
    ensures !Moves(s, op, mark, p)
  {
  }

  /** Only a restart lowers the numbering. */
  lemma {:induction false} StepKeepsNum(s: State, op: Op)
    requires !op.Restart?
    ensures s.num <= Step(s, op).num
  {
  }

  /** Only a restart can leave a marker beyond the journal. */
  lemma {:induction false} StepKeepsNoMarkerAhead(s: State, op: Op)
    requires Core(s) && NoMarkerAhead(s) && !op.Restart?
    ensures NoMarkerAhead(Step(s, op))
  {
    match op
    case Edit(path, content, hashed, pinned, actor, now) =>
      var t := s.(files := s.files[path := content], undo := Noted(s, path));
      var sha := if hashed then Some(Sha(content)) else None;
      RecordedMeans(t, path, PreImage(s, path), sha, pinned, actor, now);
      var r := Recorded(t, path, PreImage(s, path), sha, pinned, actor, now);
      if s.interval != 0 && s.pending + 1 >= s.interval {
        LastCreated(r.(pending := 0), AutoTitle(s.interval), true, now);
      }
    case Mark(title, now) => LastCreated(s, title, false, now);
    case Rollback(id, blocked, now) =>
      var found := Find(s.cps, id);
      if found.Some? {
        MarkedUpToMeans(s.cps, found.value.mark);
      }
    case _ =>
  }

  lemma {:induction false} LastCreated(s: State, title: string, auto: bool, now: real)
    requires Core(s)
    ensures var next := Created(s, title, auto, now);
            && |next.cps| == |s.cps| + 1 && next.num == s.num && next.cps[|s.cps|].mark == s.num
            && forall c :: c in next.cps ==> c in s.cps || c == next.cps[|s.cps|]
  {
    CreatedMeans(s, title, auto, now);
    var next := Created(s, title, auto, now);
    assert next.cps == next.cps[..|s.cps|] + [next.cps[|s.cps|]];
  }

  // ---- whole runs ----

  function Run(s: State, ops: seq<Op>): State
    decreases |ops|
  {
    if ops == [] then s else Run(Step(s, ops[0]), ops[1..])
  }

  ghost predicate Restarts(ops: seq<Op>) {
    exists op :: op in ops && op.Restart?
  }

  /** What a session that is going to be restarted needs: a disk equal to memory, and no edit or
      checkpoint stamped with a time of zero. Without persistence, or without a restart, nothing. */
  ghost predicate Recoverable(s: State, ops: seq<Op>) {
    s.persist && Restarts(ops) ==> Durable(s) && forall op :: op in ops ==> Stamps(op)
  }

  /** No restart of the run prunes an entry the checkpoint needs, or leaves it ahead of the
      numbering. */
  ghost predicate Admissible(s: State, ops: seq<Op>, c: Checkpoint)
    decreases |ops|
  {
    ops != [] ==>
      && (ops[0].Restart? ==> WindowYoung(s, ops[0].now, c.mark) && c.mark <= Step(s, ops[0]).num)
      && Admissible(Step(s, ops[0]), ops[1..], c)
  }

  /** The checkpoint is alive before, between and after all the steps. */
  predicate Lives(s: State, ops: seq<Op>, c: Checkpoint)
    decreases |ops|
  {
    c in s.cps && (ops != [] ==> Lives(Step(s, ops[0]), ops[1..], c))
  }

  lemma {:induction false} StepKeepsRecoverable(s: State, ops: seq<Op>)
    requires Core(s) && Recoverable(s, ops) && ops != []
    ensures ops[0].Restart? ==> Durable(s)
    ensures Core(Step(s, ops[0])) && Recoverable(Step(s, ops[0]), ops[1..])
  {
    var op := ops[0];
    assert op in ops && forall o :: o in ops[1..] ==> o in ops;
    assert op.Restart? ==> Durable(s);
    StepKeepsCore(s, op);
    if s.persist && Restarts(ops) {
      StepKeepsWellFormed(s, op);
    }
  }

  lemma {:induction false} RunKeepsCore(s: State, ops: seq<Op>)
    requires Core(s) && Recoverable(s, ops)
    ensures Core(Run(s, ops))
    decreases |ops|
  {
    if ops != [] {
      StepKeepsRecoverable(s, ops);
      RunKeepsCore(Step(s, ops[0]), ops[1..]);
    }
  }

  lemma {:induction false} RunKeepsWellFormed(s: State, ops: seq<Op>)
    requires WellFormed(s) && (s.persist ==> forall op :: op in ops ==> Stamps(op))
    ensures WellFormed(Run(s, ops))
    decreases |ops|
  {
    if ops != [] {
      assert ops[0] in ops && forall op :: op in ops[1..] ==> op in ops;
      StepKeepsCore(s, ops[0]);
      StepKeepsWellFormed(s, ops[0]);
      RunKeepsWellFormed(Step(s, ops[0]), ops[1..]);
    }
  }

  /** No step of the run moves the target of the marker at `p`. */
  predicate Unmoved(s: State, ops: seq<Op>, mark: nat, p: Path)
    decreases |ops|
  {
    ops != [] ==> !Moves(s, ops[0], mark, p) && Unmoved(Step(s, ops[0]), ops[1..], mark, p)
  }

  /** Every step leaves `p` to the journal. */
  predicate Undisturbed(s: State, ops: seq<Op>, p: Path)
    decreases |ops|
  {
    ops != [] ==> !Disturbs(s, ops[0], p) && Undisturbed(Step(s, ops[0]), ops[1..], p)
  }

  lemma {:induction false} UndisturbedIsUnmoved(s: State, ops: seq<Op>, c: Checkpoint, p: Path)
    requires Undisturbed(s, ops, p) && c.mark <= s.num && Admissible(s, ops, c)
    ensures Unmoved(s, ops, c.mark, p)
    decreases |ops|
  {
    if ops != [] {
      if ops[0].Restart? {
        YoungWindowStays(s, ops[0].now, c.mark, p);
      } else {
        UndisturbedStays(s, ops[0], c.mark, p);
        StepKeepsNum(s, ops[0]);
      }
      UndisturbedIsUnmoved(Step(s, ops[0]), ops[1..], c, p);
    }
  }

  /** What the tools have noted is of files that are there. */
  predicate Fresh(s: State) {
    forall p :: p in s.undo ==> p in s.files
  }

  /** The agent edits and takes checkpoints, and the session may be set up again. */
  predicate EditsOnly(ops: seq<Op>) {
    forall op :: op in ops ==> op.Edit? || op.Mark? || op.Attempt? || op.Restart?
  }

  lemma {:induction false} StepKeepsFresh(s: State, op: Op)
    requires Fresh(s) && EditsOnly([op])
    ensures Fresh(Step(s, op))
  {
    assert op in [op];
    if op.Edit? {
      EditedMeans(s, op.path, op.content, op.hashed, op.pinned, op.actor, op.now);
    }
  }

  /** Without rollbacks in it such a run disturbs nothing. */
  lemma {:induction false} EditsDisturbNothing(s: State, ops: seq<Op>, p: Path)
    requires Fresh(s) && EditsOnly(ops)
    ensures Undisturbed(s, ops, p) && Fresh(Run(s, ops))
    decreases |ops|
  {
    if ops != [] {
      assert ops[0] in ops && forall op :: op in ops[1..] ==> op in ops;
      StepKeepsFresh(s, ops[0]);
      EditsDisturbNothing(Step(s, ops[0]), ops[1..], p);
    }
  }

  lemma {:induction false} RunKeepsTarget(s: State, ops: seq<Op>, c: Checkpoint, p: Path)
    requires Core(s) && Recoverable(s, ops) && Lives(s, ops, c) && Unmoved(s, ops, c.mark, p)
    ensures c in Run(s, ops).cps
    ensures Target(Run(s, ops), c, p) == Target(s, c, p)
    decreases |ops|
  {
    if ops != [] {
      StepKeepsRecoverable(s, ops);
      StepKeepsTargetIff(s, ops[0], c, p);
      RunKeepsTarget(Step(s, ops[0]), ops[1..], c, p);
    }
  }

  /**
   * Take a checkpoint - by hand or by the every-N-edits timer - then let anything happen: edits,
   * further checkpoints, rollbacks to others, writes by others elsewhere, crashes and restarts with
   * pruning. As long as the checkpoint is alive, rolling back to it puts `p` exactly where it was
   * when the checkpoint was taken, unless some step moves its target. Without a restart this asks
   * nothing of the clock or the disk.
   */
  lemma {:induction false} CheckpointRestoresItsMoment(s: State, c: Checkpoint, ops: seq<Op>, now: real,
                                                       p: Path)
    requires Core(s) && Recoverable(s, ops)
    requires c.mark == s.num && Lives(s, ops, c) && Unmoved(s, ops, c.mark, p)
    ensures Get(RolledBack(Run(s, ops), c.id, {}, now).files, p) == Get(s.files, p)
  {
    NothingAfter(s.journal, c.mark);
    RunKeepsTarget(s, ops, c, p);
    RunKeepsCore(s, ops);
    BackIsTarget(Run(s, ops), c, now, p);
  }

  /** Rolling back to the checkpoint would give `p` that content at every moment of the run. */
  predicate Holds(s: State, ops: seq<Op>, c: Checkpoint, p: Path, there: Option<Content>)
    decreases |ops|
  {
    && Get(RolledBack(s, c.id, {}, 0.0).files, p) == there
    && (ops != [] ==> Holds(Step(s, ops[0]), ops[1..], c, p, there))
  }

  lemma {:induction false} HoldsIff(s: State, ops: seq<Op>, c: Checkpoint, p: Path)
    requires Core(s) && Recoverable(s, ops) && Lives(s, ops, c)
    ensures Holds(s, ops, c, p, Target(s, c, p)) <==> Unmoved(s, ops, c.mark, p)
    decreases |ops|
  {
    BackIsTarget(s, c, 0.0, p);
    if ops != [] {
      var op, next := ops[0], Step(s, ops[0]);
      StepKeepsRecoverable(s, ops);
      StepKeepsTargetIff(s, op, c, p);
      BackIsTarget(next, c, 0.0, p);
      if !Moves(s, op, c.mark, p) {
        HoldsIff(next, ops[1..], c, p);
      }
    }
  }

  /** At every moment of the run the checkpoint gives `p` back as it was when it was taken, exactly
      when no step moves its target there. */
  lemma {:induction false} CheckpointHoldsIff(s: State, c: Checkpoint, ops: seq<Op>, p: Path)
    requires Core(s) && Recoverable(s, ops) && c.mark == s.num && Lives(s, ops, c)
    ensures Holds(s, ops, c, p, Get(s.files, p)) <==> Unmoved(s, ops, c.mark, p)
  {
    NothingAfter(s.journal, c.mark);
    HoldsIff(s, ops, c, p);
  }

  /** Where no step moves anything, the whole tree comes back, created and deleted files included. */
  lemma {:induction false} CheckpointRestoresWholeTree(s: State, c: Checkpoint, ops: seq<Op>, now: real)
    requires Core(s) && Recoverable(s, ops)
    requires c.mark == s.num && Lives(s, ops, c) && forall p: Path :: Unmoved(s, ops, c.mark, p)
    ensures RolledBack(Run(s, ops), c.id, {}, now).files == s.files
  {
    var files := RolledBack(Run(s, ops), c.id, {}, now).files;
    forall p: Path
      ensures Get(files, p) == Get(s.files, p)
    {
      CheckpointRestoresItsMoment(s, c, ops, now, p);
    }
    SameTree(files, s.files);
  }

  /** In particular when the agent only edits, with any restarts in between. */
  lemma {:induction false} EditsAreUndone(s: State, c: Checkpoint, ops: seq<Op>, now: real)
    requires Core(s) && Recoverable(s, ops) && Admissible(s, ops, c)
    requires c.mark == s.num && Lives(s, ops, c) && Fresh(s) && EditsOnly(ops)
    ensures RolledBack(Run(s, ops), c.id, {}, now).files == s.files
  {
    forall p: Path
      ensures Unmoved(s, ops, c.mark, p)
    {
      EditsDisturbNothing(s, ops, p);
      UndisturbedIsUnmoved(s, ops, c, p);
    }
    CheckpointRestoresWholeTree(s, c, ops, now);
  }

  lemma {:induction false} SameTree(a: Files, b: Files)
    requires forall p: Path :: Get(a, p) == Get(b, p)
    ensures a == b
  {
    forall p: Path
      ensures p in a <==> p in b
      ensures p in a ==> a[p] == b[p]
    {
      assert Get(a, p) == Get(b, p);
    }
  }

  /** The clock does not run back at any edit of the run, and no restart leaves the checkpoint ahead
      of the numbering. */
  ghost predicate Steady(s: State, ops: seq<Op>, c: Checkpoint)
    decreases |ops|
  {
    ops != [] ==>
      && Timely(s, ops[0]) && (ops[0].Restart? ==> c.mark <= Step(s, ops[0]).num)
      && Steady(Step(s, ops[0]), ops[1..], c)
  }

  /** With such a clock no restart prunes what a surviving checkpoint needs. */
  lemma {:induction false} SteadyClockIsAdmissible(s: State, ops: seq<Op>, c: Checkpoint)
    requires WellFormed(s) && Aging(s.journal) && Recoverable(s, ops)
    requires Steady(s, ops, c) && Lives(s, ops, c)
    ensures Admissible(s, ops, c)
    decreases |ops|
  {
    if ops != [] {
      var op := ops[0];
      StepKeepsRecoverable(s, ops);
      StepKeepsAging(s, op);
      if op.Restart? && s.persist {
        RestartMeans(s, op.now);
        PruneKeepsWindows(s.disk, s.journal, s.maxAgeDays, op.now, c);
        PruneWindow(s.disk, s.journal, s.maxAgeDays, op.now, c.mark);
      }
      if Restarts(ops[1..]) {
        assert op in ops && forall o :: o in ops[1..] ==> o in ops;
        StepKeepsWellFormed(s, op);
        SteadyClockIsAdmissible(Step(s, op), ops[1..], c);
      } else {
        NoRestartIsAdmissible(Step(s, op), ops[1..], c);
      }
    }
  }

  lemma {:induction false} NoRestartIsAdmissible(s: State, ops: seq<Op>, c: Checkpoint)
    requires !Restarts(ops)
    ensures Admissible(s, ops, c)
    decreases |ops|
  {
    if ops != [] {
      assert ops[0] in ops && forall o :: o in ops[1..] ==> o in ops;
      NoRestartIsAdmissible(Step(s, ops[0]), ops[1..], c);
    }
  }

  /** At any point of a run, what is on disk reads back as the journal in memory. */
  lemma {:induction false} RunLoadsItsJournal(s: State, ops: seq<Op>)
    requires WellFormed(s) && forall op :: op in ops ==> Stamps(op)
    requires Run(s, ops).persist
    ensures LoadJournal(Run(s, ops).disk) == Run(s, ops).journal
    ensures LoadMarkers(Run(s, ops).disk.markers) == Listed(Run(s, ops).cps)
  {
    RunKeepsWellFormed(s, ops);
    var end := Run(s, ops);
    LoadReturnsJournal(end.disk, end.journal);
    ListedSorted(end.cps);
    LoadMarkersIdentity(end.disk.markers);
  }

  // ---- rollbacks compose ----

  /** Rewriting a mirrored disk for part of its journal adds no blob and depends on no clock. */
  lemma {:induction false} RewriteSettles(d: Disk, journal: seq<Entry>, now: real, later: real)
    requires Addressed(d.blobs) && AllCanonical(journal)
    requires Referenced(journal) <= d.blobs.Keys
    ensures Rewritten(d, journal, now).blobs == d.blobs
    ensures LinesOf(journal, now) == LinesOf(journal, later)
  {
    StoreBlobsGrow(d.blobs, journal);
    assert StoreBlobs(d.blobs, journal) == d.blobs;
    forall i | 0 <= i < |journal|
      ensures RecordOf(journal[i], now) == RecordOf(journal[i], later)
    {
      assert journal[i] in journal;
    }
  }

  /** The disk a composed rollback leaves is the one the direct rollback leaves. */
  lemma {:induction false} RewritesCompose(s: State, early: int, late: int, t1: real, t2: real, t3: real)
    requires WellFormed(s) && s.persist && early <= late
    ensures Rewritten(Rewritten(s.disk, UpTo(s.journal, late), t1), UpTo(s.journal, early), t2) ==
            Rewritten(s.disk, UpTo(s.journal, early), t3)
  {
    UpToKeeps(s.journal, late);
    UpToKeeps(s.journal, early);
    ReferencedResolve(s.disk, s.journal);
    AfterMembers(s.journal, late);
    AfterMembers(s.journal, early);
    RewriteSettles(s.disk, UpTo(s.journal, late), t1, t1);
    RewriteSettles(Rewritten(s.disk, UpTo(s.journal, late), t1), UpTo(s.journal, early), t2, t3);
    RewriteSettles(s.disk, UpTo(s.journal, early), t3, t2);
  }

  /**
   * Going back to a later checkpoint and then to an earlier one ends in the very same state - tree,
   * journal, checkpoints, and a disk that was in order - as going straight to the earlier one.
   */
  lemma {:induction false} RollbacksCompose(s: State, early: string, late: string, blocked: set<Path>,
                                            t1: real, t2: real, t3: real)
    requires Core(s)
    requires Find(s.cps, early).Some? && Find(s.cps, late).Some?
    requires Find(s.cps, early).value.mark <= Find(s.cps, late).value.mark
    ensures var both := RolledBack(RolledBack(s, late, blocked, t1), early, blocked, t2);
            var once := RolledBack(s, early, blocked, t3);
            both.(disk := s.disk) == once.(disk := s.disk) && (Durable(s) ==> both == once)
  {
    var a, b := Find(s.cps, early).value, Find(s.cps, late).value;
    var mid := RolledBack(s, late, blocked, t1);
    FindMeans(s.cps, early);
    MarkedUpToMeans(s.cps, b.mark);
    FindMeans(mid.cps, early);
    assert Find(mid.cps, early) == Some(a);
    MarkedTwice(s.cps, a.mark, b.mark);
    CutTwice(s.journal, a.mark, b.mark);
    WindowSplits(s.journal, a.mark, b.mark);
    ReplayConcat(s.files, After(mid.journal, a.mark), After(s.journal, b.mark), blocked);
    if s.persist && Durable(s) {
      RewritesCompose(s, a.mark, b.mark, t1, t2, t3);
    }
  }

  /** Repeating a rollback changes nothing. */
  lemma {:induction false} RollbackIsIdempotent(s: State, id: string, blocked: set<Path>, t1: real, t2: real)
    requires Core(s)
    ensures var once := RolledBack(s, id, blocked, t1);
            var twice := RolledBack(once, id, blocked, t2);
            twice.(disk := s.disk) == once.(disk := s.disk) && (Durable(s) ==> twice == once)
  {
    if Find(s.cps, id).Some? {
      RollbacksCompose(s, id, id, blocked, t1, t2, t1);
    }
  }
}
