/** Where the promises of a session end: exact conditions, and inputs that show them. */
module CheckpointLimits {
  import opened Options
  import opened Journal
  import opened CheckpointStore
  import opened Mirror
  import opened CheckpointSession
  import opened CheckpointInvariant
  import opened CheckpointRuns

  // ---- markers beyond the journal ----

  /** An edit that changes a file is undone by a checkpoint exactly when its marker is not ahead, and
      the edit is not one whose stale pre-image the checkpoint would restore. */
  lemma {:induction false} MarkerAheadMissesEdits(s: State, op: Op, c: Checkpoint, now: real)
    requires Core(s) && op.Edit?
    requires c in s.cps && Get(s.files, op.path) != Some(op.content)
    ensures (Get(RolledBack(Step(s, op), c.id, {}, now).files, op.path) ==
             Get(RolledBack(s, c.id, {}, now).files, op.path)) <==>
            c.mark <= s.num && !Moves(s, op, c.mark, op.path)
  {
    StepKeepsCore(s, op);
    EditKeepsMarkers(s, op, c);
    BackIsTarget(s, c, now, op.path);
    BackIsTarget(Step(s, op), c, now, op.path);
    EditKeepsTarget(s, op, c, op.path);
    if c.mark > s.num {
      NothingAfter(s.journal, c.mark);
    }
  }

  lemma {:induction false} EditKeepsMarkers(s: State, op: Op, c: Checkpoint)
    requires Core(s) && op.Edit? && c in s.cps
    ensures c in Step(s, op).cps
  {
    var t := s.(files := s.files[op.path := op.content], undo := Noted(s, op.path));
    var sha := if op.hashed then Some(Sha(op.content)) else None;
    RecordedMeans(t, op.path, PreImage(s, op.path), sha, op.pinned, op.actor, op.now);
    var r := Recorded(t, op.path, PreImage(s, op.path), sha, op.pinned, op.actor, op.now);
    if s.interval != 0 && s.pending + 1 >= s.interval {
      CreatedMeans(r.(pending := 0), AutoTitle(s.interval), true, op.now);
      PrefixContains(s.cps, Step(s, op).cps, c);
    }
  }

  /** An edit of a session without automatic checkpoints. */
  lemma {:induction false} PlainEdit(s: State, op: Op)
    requires Core(s) && s.interval == 0 && op.Edit?
    ensures var next := Step(s, op);
      && Core(next) && next.files == s.files[op.path := op.content] && next.undo == Noted(s, op.path)
      && next.journal ==
         s.journal + [EditEntry(s, op.path, op.content, op.hashed, op.pinned, op.actor, op.now)]
      && next.num == s.num + 1 && next.cps == s.cps && next.interval == 0
      && next.persist == s.persist && next.maxAgeDays == s.maxAgeDays
  {
    StepKeepsCore(s, op);
  }

  lemma {:induction false} PrefixContains(part: seq<Checkpoint>, whole: seq<Checkpoint>, c: Checkpoint)
    requires c in part && |part| <= |whole| && whole[..|part|] == part
    ensures c in whole
  {
    assert whole == part + whole[|part|..];
  }

  /** With a forward clock, pruning never drops the newest entry while keeping an older one. */
  lemma {:induction false} YoungestSurvives(journal: seq<Entry>, cutoff: real)
    requires Aging(journal) && Younger(journal, cutoff) != []
    ensures journal != [] && LastSeq(Younger(journal, cutoff)) == LastSeq(journal)
  {
    var n := |journal| - 1;
    var e := Younger(journal, cutoff)[0];
    YoungerMembers(journal, cutoff);
    assert e in Younger(journal, cutoff);
    var i :| 0 <= i <= n && journal[i] == e;
    assert Age(journal[n]) >= cutoff;
  }

  lemma {:induction false} NewestSurvives(s: State, now: real)
    requires WellFormed(s) && s.persist && Aging(s.journal)
    requires Survivors(s.disk, s.maxAgeDays, now) != []
    ensures s.journal != []
    ensures LastSeq(Survivors(s.disk, s.maxAgeDays, now)) == LastSeq(s.journal)
  {
    LoadReturnsJournal(s.disk, s.journal);
    if s.maxAgeDays > 0.0 {
      YoungestSurvives(s.journal, now - s.maxAgeDays * SECONDS_PER_DAY);
    }
  }

  lemma {:induction false} FirstAtMostLast(s: State, now: real)
    requires WellFormed(s) && s.persist
    ensures var kept := Survivors(s.disk, s.maxAgeDays, now); kept != [] ==> kept[0].num <= LastSeq(kept)
  {
    RestartMeans(s, now);
    RestartKeeps(s, now);
    var kept := Survivors(s.disk, s.maxAgeDays, now);
    HighestNumIsLast(kept);
    assert kept != [] ==> kept[0] in kept;
  }

  /** A listed marker past the first kept edit's number outlives a prune. */
  lemma {:induction false} PrunedKeepsMarker(d: Disk, maxAgeDays: real, now: real, c: Checkpoint)
    requires c in d.markers && LoadMarkers(d.markers) == d.markers
    requires var kept := Survivors(d, maxAgeDays, now);
      if kept == [] then LoadJournal(d) == [] else c.mark >= kept[0].num - 1
    ensures c in Pruned(d, maxAgeDays, now).markers
  {
    var kept := Survivors(d, maxAgeDays, now);
    if kept != [] {
      MarkersFromMembers(d.markers, kept[0].num - 1);
    }
  }

  /** A marker past every kept edit outlives a prune that keeps some edit or drops none. */
  lemma {:induction false} AheadSurvives(s: State, now: real, c: Checkpoint)
    requires WellFormed(s) && s.persist && c in s.cps
    requires c.mark > LastSeq(Survivors(s.disk, s.maxAgeDays, now))
    requires s.journal == [] || Survivors(s.disk, s.maxAgeDays, now) != []
    ensures c in Pruned(s.disk, s.maxAgeDays, now).markers
  {
    var kept := Survivors(s.disk, s.maxAgeDays, now);
    LoadReturnsJournal(s.disk, s.journal);
    ListedSorted(s.cps);
    LoadMarkersIdentity(s.disk.markers);
    FirstAtMostLast(s, now);
    PrunedKeepsMarker(s.disk, s.maxAgeDays, now, c);
  }

  /**
   * Exactly when a restart leaves every marker within reach: no live marker is past the last edit
   * that survives, or pruning emptied the journal and dropped all markers with it.
   */
  lemma {:induction false} RestartStrandsNoMarkerIff(s: State, now: real)
    requires WellFormed(s) && s.persist
    ensures var kept := Survivors(s.disk, s.maxAgeDays, now);
            NoMarkerAhead(Restarted(s, now)) <==>
            (s.journal != [] && kept == []) || forall c :: c in s.cps ==> c.mark <= LastSeq(kept)
  {
    var next := Restarted(s, now);
    var kept := Survivors(s.disk, s.maxAgeDays, now);
    RestartMeans(s, now);
    LoadReturnsJournal(s.disk, s.journal);
    if s.journal == [] || kept != [] {
      forall c | c in s.cps && c.mark > LastSeq(kept)
        ensures c in next.cps
      {
        AheadSurvives(s, now, c);
      }
    } else {
      assert next.cps == [];
    }
  }

  /** With a clock that does not run back the last edit survives if any does, so the markers past the
      last journaled edit are the ones that are stranded. */
  lemma {:induction false} ForwardClockStrandsNoMarkerIff(s: State, now: real)
    requires WellFormed(s) && s.persist && Aging(s.journal)
    ensures NoMarkerAhead(Restarted(s, now)) <==>
            || (s.journal != [] && Survivors(s.disk, s.maxAgeDays, now) == [])
            || forall c :: c in s.cps ==> c.mark <= LastSeq(s.journal)
  {
    RestartStrandsNoMarkerIff(s, now);
    if Survivors(s.disk, s.maxAgeDays, now) != [] {
      NewestSurvives(s, now);
    } else {
      LoadReturnsJournal(s.disk, s.journal);
    }
  }

  /**
   * Numbers are not reused after a rollback (gaps stay), but a restart counts from the journal.
   * So any rollback that undoes something, then a checkpoint, then a restart before the next edit
   * leaves that checkpoint ahead of the journal, unless pruning empties the journal.
   */
  lemma {:induction false} RollbackCheckpointRestartStrands(s: State, c: Checkpoint, title: string, t1: real,
                                                            t2: real, t3: real)
    requires WellFormed(s) && s.persist
    requires c in s.cps && c.mark < LastSeq(s.journal) && t2 != 0.0
    ensures var marked := Created(RolledBack(s, c.id, {}, t1), title, false, t2);
            !NoMarkerAhead(Restarted(marked, t3)) <==>
            marked.journal == [] || Survivors(marked.disk, s.maxAgeDays, t3) != []
  {
    var cut := RolledBack(s, c.id, {}, t1);
    FindMeans(s.cps, c.id);
    CutBackKeeps(s, c, {}, t1);
    UpToKeeps(s.journal, c.mark);
    CreatedMeans(cut, title, false, t2);
    CreatedKeeps(cut, title, false, t2);
    var marked := Created(cut, title, false, t2);
    AfterMembers(s.journal, c.mark);
    HighestNumIsLast(s.journal);
    assert s.journal[|s.journal| - 1] in s.journal;
    HighestNumIsLast(marked.journal);
    RestartMeans(marked, t3);
    SurvivorsAreEntries(marked, t3);
    LoadReturnsJournal(marked.disk, marked.journal);
    var kept := Survivors(marked.disk, marked.maxAgeDays, t3);
    assert kept != [] ==> kept[|kept| - 1] in kept;
    assert marked.cps[|cut.cps|] in marked.cps;
    RestartStrandsNoMarkerIff(marked, t3);
  }

  /** A fresh session over an empty store that keeps everything. */
  const FRESH := State(map[], map[], [], 0, [], 0, 0, 0, true, 0.0, Disk([], [], map[]))

  const MARKED := Created(FRESH, "a", false, 1.0)

  lemma {:induction false} MarkedIsSound()
    ensures WellFormed(MARKED) && NoMarkerAhead(MARKED) && MARKED.persist && MARKED.journal == []
    ensures MARKED.num == 0 && |MARKED.cps| == 1 && MARKED.cps[0].id == CpName(1) && MARKED.cps[0].mark == 0
    ensures MARKED.files == map[]
  {
    CreatedMeans(FRESH, "a", false, 1.0);
    CreatedKeeps(FRESH, "a", false, 1.0);
    LastCreated(FRESH, "a", false, 1.0);
  }

  /** A checkpoint, then one edit. */
  const EDITED := Step(MARKED, Edit("f", "x", true, None, None, 2.0))

  lemma {:induction false} EditedIsSound()
    ensures WellFormed(EDITED) && NoMarkerAhead(EDITED) && EDITED.persist && Aging(EDITED.journal)
    ensures LastSeq(EDITED.journal) == 1 && |EDITED.journal| == 1 && EDITED.num == 1
    ensures EDITED.journal[0].path == "f" && EDITED.journal[0].before == None
    ensures EDITED.files == map["f" := "x"]
    ensures exists c :: c in EDITED.cps && c.id == CpName(1) && c.mark == 0
  {
    var op := Edit("f", "x", true, None, None, 2.0);
    MarkedIsSound();
    FirstEdit(MARKED, op);
    EditedMeans(MARKED, op.path, op.content, op.hashed, op.pinned, op.actor, op.now);
    assert MARKED.cps[0] in EDITED.cps;
  }

  lemma {:induction false} FirstEdit(s: State, op: Op)
    requires WellFormed(s) && NoMarkerAhead(s) && s.journal == [] && op.Edit? && Stamps(op)
    ensures WellFormed(Step(s, op)) && NoMarkerAhead(Step(s, op)) && Step(s, op).persist == s.persist
    ensures |Step(s, op).journal| == 1 && LastSeq(Step(s, op).journal) == s.num + 1
    ensures forall c :: c in s.cps ==> c in Step(s, op).cps
  {
    StepKeepsWellFormed(s, op);
    StepKeepsCore(s, op);
    StepKeepsNoMarkerAhead(s, op);
    EditedMeans(s, op.path, op.content, op.hashed, op.pinned, op.actor, op.now);
    forall c | c in s.cps
      ensures c in Step(s, op).cps
    {
      EditKeepsMarkers(s, op, c);
    }
  }

  /** The shortest stranding run goes on with a rollback, a checkpoint and a restart. */
  lemma {:induction false} StrandedMarker()
    ensures var marked := Created(RolledBack(EDITED, CpName(1), {}, 3.0), "b", false, 4.0);
            !NoMarkerAhead(Restarted(marked, 5.0))
  {
    EditedIsSound();
    var c :| c in EDITED.cps && c.id == CpName(1) && c.mark == 0;
    RollbackCheckpointRestartStrands(EDITED, c, "b", 3.0, 4.0, 5.0);
    FindMeans(EDITED.cps, c.id);
    AllUndone(EDITED.journal);
  }

  lemma {:induction false} AllUndone(journal: seq<Entry>)
    requires |journal| == 1 && LastSeq(journal) == 1
    ensures UpTo(journal, 0) == []
  {
  }

  // ---- the rollback report ----

  /** At `p`, no journaled edit found the file gone after an earlier one wrote it. */
  ghost predicate NoVanish(s: State, p: Path) {
    && (forall a, b :: a in s.journal && b in s.journal && a.path == p && b.path == p && a.num < b.num ==>
          b.before.Some?)
    && (forall a :: a in s.journal && a.path == p ==> p in s.files)
  }

  lemma {:induction false} StepKeepsNoVanish(s: State, op: Op, p: Path)
    requires Core(s) && (op.Restart? ==> Durable(s)) && NoVanish(s, p)
    ensures NoVanish(Step(s, op), p) <==> !(op == Outside(p, None) && exists e :: e in s.journal && e.path == p)
  {
    match op
    case Edit(path, content, hashed, pinned, actor, now) =>
      EditedMeans(s, path, content, hashed, pinned, actor, now);
    case Rollback(id, blocked, now) =>
      if Find(s.cps, id).Some? {
        RollbackKeepsNoVanish(s, id, blocked, now, p);
      }
    case Restart(now, _) =>
      if s.persist {
        RestartMeans(s, now);
        SurvivorsAreEntries(s, now);
      }
    case _ =>
  }

  lemma {:induction false} RollbackKeepsNoVanish(s: State, id: string, blocked: set<Path>, now: real, p: Path)
    requires Core(s) && NoVanish(s, p) && Find(s.cps, id).Some?
    ensures NoVanish(RolledBack(s, id, blocked, now), p)
  {
    var mark := Find(s.cps, id).value.mark;
    RollbackMeans(s, id, blocked, now, p);
    AfterMembers(s.journal, mark);
    FirstForMember(After(s.journal, mark), p);
  }

  lemma {:induction false} RunKeepsNoVanish(s: State, ops: seq<Op>, p: Path)
    requires Core(s) && Recoverable(s, ops) && NoVanish(s, p)
    requires Outside(p, None) !in ops
    ensures NoVanish(Run(s, ops), p)
    decreases |ops|
  {
    if ops != [] {
      assert ops[0] in ops;
      StepKeepsRecoverable(s, ops);
      StepKeepsNoVanish(s, ops[0], p);
      RunKeepsNoVanish(Step(s, ops[0]), ops[1..], p);
    }
  }

  /** The undo of `p` meets the gate: its first entry undone is refused where there is something to
      write, and one that finds nothing to remove counts as done. */
  lemma {:induction false} DeletedMeans(s: State, id: string, blocked: set<Path>, p: Path)
    requires Find(s.cps, id).Some?
    ensures p in ReportOf(s, id, blocked).deleted <==>
            (p in blocked ==> p !in s.files) &&
            exists e :: e in After(s.journal, Find(s.cps, id).value.mark) && e.path == p && e.before.None?
  {
  }

  /**
   * "deleted" is the truth about a touched path exactly unless its undo is allowed, the file existed
   * at the checkpoint and some later edit found it gone; or its undo is refused, nothing is there,
   * and no edit found it gone.
   */
  lemma {:induction false} DeletedReportIff(s: State, id: string, blocked: set<Path>, now: real, p: Path)
    requires Find(s.cps, id).Some?
    requires var window := After(s.journal, Find(s.cps, id).value.mark); FirstFor(window, p).Some?
    ensures var window := After(s.journal, Find(s.cps, id).value.mark);
            var found := exists e :: e in window && e.path == p && e.before.None?;
            (p in ReportOf(s, id, blocked).deleted <==> p !in RolledBack(s, id, blocked, now).files) <==>
            if p in blocked then p in s.files || found
            else FirstFor(window, p).value.before.Some? ==> !found
  {
    var window := After(s.journal, Find(s.cps, id).value.mark);
    RollbackMeans(s, id, blocked, now, p);
    FirstForMember(window, p);
    DeletedMeans(s, id, blocked, p);
  }

  /**
   * When nobody else removed `p`, the report is right about the rollback: a path edited since the checkpoint is listed
   * once, under "deleted" when the rollback left no file there and under "restored" otherwise.
   */
  lemma {:induction false} ReportIsTrue(s: State, id: string, now: real, p: Path)
    requires Core(s) && NoVanish(s, p)
    requires Find(s.cps, id).Some?
    ensures var touched := exists e :: e in After(s.journal, Find(s.cps, id).value.mark) && e.path == p;
            && (p in ReportOf(s, id, {}).deleted <==> touched && p !in RolledBack(s, id, {}, now).files)
            && (p in ReportOf(s, id, {}).restored <==> touched && p in RolledBack(s, id, {}, now).files)
  {
    var mark := Find(s.cps, id).value.mark;
    var window := After(s.journal, mark);
    RollbackMeans(s, id, {}, now, p);
    AfterMembers(s.journal, mark);
    AfterOrdered(s.journal, mark);
    NoneOnlyFirst(window, p);
  }

  /** So it is right about the moment of the checkpoint, where no step moved what it would restore. */
  lemma {:induction false} ReportTellsTheMoment(s: State, c: Checkpoint, ops: seq<Op>, p: Path)
    requires Core(s) && Recoverable(s, ops)
    requires c.mark == s.num && Lives(s, ops, c) && Unmoved(s, ops, c.mark, p)
    requires NoVanish(s, p) && Outside(p, None) !in ops
    ensures var end := Run(s, ops);
            var touched := exists e :: e in After(end.journal, c.mark) && e.path == p;
            var report := ReportOf(end, c.id, {});
            && report.Done? && (p in report.deleted <==> touched && p !in s.files)
            && (p in report.restored <==> touched && p in s.files)
  {
    var end := Run(s, ops);
    RunKeepsCore(s, ops);
    RunKeepsNoVanish(s, ops, p);
    RunKeepsTarget(s, ops, c, p);
    FindMeans(end.cps, c.id);
    ReportIsTrue(end, c.id, 0.0, p);
    CheckpointRestoresItsMoment(s, c, ops, 0.0, p);
  }

  /** Without a vanished file in between, only the oldest edit of a path can have created it. */
  lemma {:induction false} NoneOnlyFirst(window: seq<Entry>, p: Path)
    requires Ordered(window)
    requires forall a, b :: a in window && b in window && a.path == p && b.path == p && a.num < b.num ==> b.before.Some?
    ensures FirstFor(window, p).Some? <==> exists e :: e in window && e.path == p
    ensures (exists e :: e in window && e.path == p && e.before.None?) <==>
            FirstFor(window, p).Some? && FirstFor(window, p).value.before.None?
  {
    FirstForMember(window, p);
    if FirstFor(window, p).Some? {
      FirstIsOldestIn(window, p);
    }
  }

  lemma {:induction false} FirstIsOldestIn(window: seq<Entry>, p: Path)
    requires Ordered(window) && FirstFor(window, p).Some?
    ensures forall e :: e in window && e.path == p && e != FirstFor(window, p).value ==>
                        FirstFor(window, p).value.num < e.num
  {
    var n := |window| - 1;
    assert window == window[..n] + [window[n]];
    FirstForMember(window[..n], p);
    if FirstFor(window[..n], p).Some? {
      FirstIsOldestIn(window[..n], p);
      var i :| 0 <= i < n && window[..n][i] == FirstFor(window[..n], p).value;
    }
  }

  // ---- automatic checkpoints ----

  /** The every-N-edits counter on its own: checkpoints made, and edits since the last one. */
  function Ticks(pending: nat, interval: nat, edits: nat): (nat, nat)
    requires pending < interval
    decreases edits
  {
    if edits == 0 then (0, pending)
    else if pending + 1 < interval then Ticks(pending + 1, interval, edits - 1)
    else
      var rest := Ticks(0, interval, edits - 1);
      (1 + rest.0, rest.1)
  }

  lemma {:induction false} TicksCount(pending: nat, interval: nat, edits: nat)
    requires pending < interval
    ensures var t := Ticks(pending, interval, edits);
            t.1 < interval && pending + edits == t.0 * interval + t.1
    decreases edits
  {
    if edits == 0 {
    } else if pending + 1 < interval {
      TicksCount(pending + 1, interval, edits - 1);
    } else {
      TicksCount(0, interval, edits - 1);
      var rest := Ticks(0, interval, edits - 1);
      assert (1 + rest.0) * interval == interval + rest.0 * interval;
    }
  }

  lemma {:induction false} EditTicks(s: State, op: Op)
    requires s.pending < s.interval && op.Edit?
    ensures var next := Step(s, op);
            && next.interval == s.interval
            && next.pending == (if s.pending + 1 < s.interval then s.pending + 1 else 0)
            && next.counter == s.counter + (if s.pending + 1 < s.interval then 0 else 1)
  {
  }

  lemma {:induction false} RunTicks(s: State, ops: seq<Op>)
    requires s.pending < s.interval
    requires forall op :: op in ops ==> op.Edit?
    ensures var end := Run(s, ops);
            && end.counter == s.counter + Ticks(s.pending, s.interval, |ops|).0
            && end.pending == Ticks(s.pending, s.interval, |ops|).1
    decreases |ops|
  {
    if ops != [] {
      var next, rest := Step(s, ops[0]), ops[1..];
      assert ops[0] in ops && forall op :: op in rest ==> op in ops;
      EditTicks(s, ops[0]);
      RunTicks(next, rest);
    }
  }

  /**
   * While the agent only edits, every `interval`-th edit issues exactly one checkpoint, so fewer
   * than `interval` edits are ever uncovered.
   */
  lemma {:induction false} AutoCadence(s: State, ops: seq<Op>)
    requires s.pending < s.interval
    requires forall op :: op in ops ==> op.Edit?
    ensures var end := Run(s, ops);
            && end.pending < s.interval
            && s.pending + |ops| == (end.counter - s.counter) * s.interval + end.pending
  {
    RunTicks(s, ops);
    TicksCount(s.pending, s.interval, |ops|);
  }
}
