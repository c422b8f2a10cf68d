/** Undoing to the newest automatic checkpoint: `rollback_last_auto` in core/checkpoint.py. */
module AutoRollback {
  import opened Options
  import opened Sorting
  import opened Journal
  import opened CheckpointSession
  import opened CheckpointInvariant

  predicate Behind(c: Checkpoint, num: nat) {
    c.auto && c.mark < num
  }

  lemma {:induction false} LastAutoMeans(listed: seq<Checkpoint>, num: nat)
    requires Sorted(listed, ByMark)
    ensures LastAuto(listed, num).None? <==> forall c :: c in listed ==> !Behind(c, num)
    ensures LastAuto(listed, num).Some? ==>
      var last := LastAuto(listed, num).value;
      && last in listed && Behind(last, num)
      && forall c :: c in listed && Behind(c, num) ==> c.mark <= last.mark
  {
    if listed != [] {
      var n := |listed| - 1;
      assert listed == listed[..n] + [listed[n]];
      assert forall c :: c in listed <==> c in listed[..n] || c == listed[n];
      LastAutoMeans(listed[..n], num);
      if Behind(listed[n], num) {
        assert LastAuto(listed, num) == Some(listed[n]);
      }
      forall c | c in listed ensures c.mark <= listed[n].mark {
        var i :| 0 <= i < |listed| && listed[i] == c;
        assert i < n ==> ByMark(listed[i], listed[n]);
      }
    }
  }

  /** There is one to undo to exactly when some automatic checkpoint lies below the numbering; it is
      then one with the highest such marker. */
  lemma {:induction false} LatestAutoMeans(s: State)
    ensures LatestAuto(s.cps, s.num).None? <==> forall c :: c in s.cps ==> !Behind(c, s.num)
    ensures LatestAuto(s.cps, s.num).Some? ==>
      var last := LatestAuto(s.cps, s.num).value;
      && last in s.cps && Behind(last, s.num)
      && forall c :: c in s.cps && Behind(c, s.num) ==> c.mark <= last.mark
  {
    ListedSorted(s.cps);
    LastAutoMeans(Listed(s.cps), s.num);
  }

  /** It need not have an edit after it: that is so exactly when the journal reaches past it, since
      a rollback trims the journal but never lowers the numbering. */
  lemma {:induction false} LatestAutoHasEditsIff(s: State)
    requires Core(s) && LatestAuto(s.cps, s.num).Some?
    ensures var last := LatestAuto(s.cps, s.num).value;
      After(s.journal, last.mark) != [] <==> last.mark < LastSeq(s.journal)
  {
    var last := LatestAuto(s.cps, s.num).value;
    AfterMembers(s.journal, last.mark);
    HighestNumIsLast(s.journal);
    if s.journal != [] {
      assert s.journal[|s.journal| - 1] in s.journal;
    }
    if After(s.journal, last.mark) != [] {
      assert After(s.journal, last.mark)[0] in After(s.journal, last.mark);
    }
  }

  /** So undoing twice in a row is undoing once: the second time finds a checkpoint at the same
      marker again, and changes neither tree nor journal nor checkpoints. */
  lemma {:induction false} UndoingAgainStays(s: State, blocked: set<Path>, t1: real, t2: real)
    requires Core(s) && LatestAuto(s.cps, s.num).Some?
    ensures var last := LatestAuto(s.cps, s.num).value;
      var next := RolledBack(s, last.id, blocked, t1);
      && LatestAuto(next.cps, next.num).Some?
      && (var same := LatestAuto(next.cps, next.num).value;
          var again := RolledBack(next, same.id, blocked, t2);
          && same.mark == last.mark && After(next.journal, same.mark) == []
          && again.files == next.files && again.journal == next.journal && again.cps == next.cps)
  {
    var last := LatestAuto(s.cps, s.num).value;
    var next := RolledBack(s, last.id, blocked, t1);
    LatestAutoMeans(s);
    FindMeans(s.cps, last.id);
    MarkedUpToMeans(s.cps, last.mark);
    LatestAutoMeans(next);
    assert last in next.cps && Behind(last, next.num);
    var same := LatestAuto(next.cps, next.num).value;
    FindMeans(next.cps, same.id);
    CutTwice(s.journal, last.mark, last.mark);
    MarkedTwice(s.cps, last.mark, last.mark);
    WindowSplits(s.journal, last.mark, last.mark);
    assert |After(next.journal, last.mark)| == 0;
  }
}
