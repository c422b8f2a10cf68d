/** Rounds whose changeset shows something else than what happened in them. */
module RoundWitnesses {
  import opened Options
  import opened Journal
  import opened CheckpointSession
  import opened CheckpointInvariant
  import opened CheckpointRuns
  import opened CheckpointLimits
  import opened CheckpointWitnesses
  import opened Revisions
  import opened Changesets
  import opened ChangesetLaws
  import opened RoundLaws

  // ---- a stale pre-image ----

  lemma {:induction false} StaleOpening(s: State, op: Op)
    requires Core(s) && op.Edit? && Stale(s, op.path)
    ensures op.path in Step(s, op).files && Opening(Step(s, op), s.num, op.path) == Some(s.undo[op.path])
  {
    NothingAfter(s.journal, s.num);
    EditedMeans(s, op.path, op.content, op.hashed, op.pinned, op.actor, op.now);
    StepOpening(s, op, s.num, op.path);
  }

  /** A round that creates such a file shows it as modified, from the stale text. */
  lemma {:induction false} StaleRow(s: State, op: Op, differ: Differ, limits: Limits,
                                    turn: int) returns (f: FileChange)
    requires Core(s) && op.Edit? && Stale(s, op.path)
    ensures f in Collected(RoundSince(Run(s, [op]), s.num, op.actor), differ, limits, turn).files
    ensures f.path == op.path && f.status == Modified
    ensures Opening(Run(s, [op]), s.num, op.path) == Some(s.undo[op.path])
  {
    assert [op][1..] == [] && Run(Step(s, op), []) == Step(s, op);
    LastEditIsListed(s, op, s.num, differ, limits, turn);
    f :| f in Collected(RoundSince(Run(s, [op]), s.num, op.actor), differ, limits, turn).files && f.path == op.path;
    StaleOpening(s, op);
    RoundRowStatus(s, [op], op.actor, op.path, differ, limits, turn, f);
  }

  // ---- a round that rolls back past its opening ----

  /** A rollback below the opening, then an edit: the row starts from what the checkpoint held, or
      from the stale text where that is nothing. */
  lemma {:induction false} RollBackThenEdit(s: State, c: Checkpoint, back: Op, again: Op)
    requires Core(s) && back.Rollback? && Find(s.cps, back.id) == Some(c) && c.mark < s.num
    requires again.Edit? && again.path !in back.blocked
    ensures Opening(Run(s, [back, again]), s.num, again.path) ==
            if Stale(Step(s, back), again.path) then Some(s.undo[again.path]) else Target(s, c, again.path)
  {
    var p, next := again.path, Step(s, back);
    DeepRollbackResets(s, back, c, s.num, p);
    assert [back, again][1..] == [again] && [again][1..] == [];
    StepKeepsCore(s, back);
    NothingLeft(s.journal, s.num, c.mark);
    StepOpening(s, back, s.num, p);
    StepOpening(next, again, s.num, p);
    assert Run(Step(next, again), []) == Step(next, again) && Run(next, [again]) == Step(next, again);
  }

  /** A round opens on a file, rolls back to before it and writes it anew: its row says "added", from
      the missing file of the checkpoint. */
  lemma {:induction false} DeepRollbackShowsInRow(differ: Differ, limits: Limits,
                                                  turn: int) returns (f: FileChange)
    ensures var ops := [Rollback(CpName(1), {}, 3.0), Edit("f", "y", true, None, None, 4.0)];
      var end := Run(EDITED, ops);
      && Get(EDITED.files, "f") == Some("x") && Opening(end, EDITED.num, "f") == None
      && f in Collected(RoundSince(end, EDITED.num, None), differ, limits, turn).files
      && f.path == "f" && f.status == Added
      && "f" in MyPaths(After(end.journal, EDITED.num), None)
      && RoundSince(end, EDITED.num, None).ItemFor("f", differ).before == None
  {
    EditedIsSound();
    var c :| c in EDITED.cps && c.id == CpName(1) && c.mark == 0;
    FindMeans(EDITED.cps, c.id);
    OneInWindow(EDITED.journal, "f");
    var back, again := Rollback(CpName(1), {}, 3.0), Edit("f", "y", true, None, None, 4.0);
    RollBackThenEdit(EDITED, c, back, again);
    f := RowAfterBack(EDITED, back, again, differ, limits, turn);
  }

  lemma {:induction false} RowAfterBack(s: State, back: Op, again: Op, differ: Differ, limits: Limits,
                                        turn: int)
    returns (f: FileChange)
    requires Core(s) && back.Rollback? && again.Edit? && Opening(Run(s, [back, again]), s.num, again.path) == None
    ensures var end := Run(s, [back, again]);
      && f in Collected(RoundSince(end, s.num, again.actor), differ, limits, turn).files
      && f.path == again.path && f.status == Added
      && again.path in MyPaths(After(end.journal, s.num), again.actor)
      && RoundSince(end, s.num, again.actor).ItemFor(again.path, differ).before == None
  {
    var ops, next := [back, again], Step(s, back);
    assert ops[1..] == [again] && [again][1..] == [];
    assert Run(Step(next, again), []) == Step(next, again) && Run(next, [again]) == Step(next, again);
    StepKeepsCore(s, back);
    StepKeepsNum(s, back);
    LastEditIsListed(next, again, s.num, differ, limits, turn);
    var end := Run(s, ops);
    f :| f in Collected(RoundSince(end, s.num, again.actor), differ, limits, turn).files && f.path == again.path;
    EditedMeans(next, again.path, again.content, again.hashed, again.pinned, again.actor, again.now);
    RoundRowStatus(s, ops, again.actor, again.path, differ, limits, turn, f);
    var _ := CollectedRow(RoundSince(end, s.num, again.actor), differ, limits, turn, f);
    RoundItem(s, ops, again.actor, again.path, differ);
  }
}
