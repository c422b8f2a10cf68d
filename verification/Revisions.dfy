/** The journal as a revision chain per path: core/checkpoint.py. */
module Revisions {
  import opened Options
  import opened Journal
  import opened CheckpointStore
  import opened Mirror
  import opened CheckpointSession
  import opened CheckpointInvariant
  import opened CheckpointRuns

  // ---- chains ----

  /** Each edit of `p` left what the next one found, and the last left what is there `now`. */
  ghost predicate Chained(window: seq<Entry>, now: Option<Content>, p: Path)
    decreases |window|
  {
    window == [] ||
    (var n := |window| - 1;
     var e := window[n];
     if e.path == p then e.afterSha == ShaOf(now) && Chained(window[..n], e.before, p)
     else Chained(window[..n], now, p))
  }

  /** The newest entry of the window that touched `p`. */
  function LastFor(window: seq<Entry>, p: Path): Option<Entry> {
    if window == [] then None
    else if window[|window| - 1].path == p then Some(window[|window| - 1])
    else LastFor(window[..|window| - 1], p)
  }

  /** What undoing the window leaves at `p`. */
  function Undone(window: seq<Entry>, now: Option<Content>, p: Path): Option<Content> {
    match FirstFor(window, p)
    case Some(e) => e.before
    case None => now
  }

  predicate Consecutive(window: seq<Entry>, i: nat, j: nat, p: Path) {
    && i < j < |window| && window[i].path == p && window[j].path == p
    && forall k :: i < k < j ==> window[k].path != p
  }

  /** Consecutive edits of `p`: the hash the one left is the hash the next one found. */
  ghost predicate LinksUp(window: seq<Entry>, p: Path) {
    forall i: nat, j: nat :: Consecutive(window, i, j, p) ==> window[i].afterSha == window[j].beforeSha
  }

  lemma {:induction false} LastForAt(window: seq<Entry>, p: Path, j: nat)
    requires j <= |window|
    ensures var l := LastFor(window[..j], p);
      && (l.None? <==> forall k :: 0 <= k < j ==> window[k].path != p)
      && (l.Some? ==> exists i: nat :: i < j && window[i] == l.value && window[i].path == p &&
                        forall k :: i < k < j ==> window[k].path != p)
  {
    if j > 0 {
      assert window[..j][..j - 1] == window[..j - 1];
      LastForAt(window, p, j - 1);
      if window[j - 1].path == p {
        assert window[..j][j - 1] == window[j - 1];
      }
    }
  }

  /** Whether the entry at j links to the one before it. */
  lemma {:induction false} LinkAt(window: seq<Entry>, p: Path, j: nat)
    requires j < |window| && window[j].path == p
    ensures (forall i: nat :: Consecutive(window, i, j, p) ==> window[i].afterSha == window[j].beforeSha) <==>
            var l := LastFor(window[..j], p);
            l.Some? ==> l.value.afterSha == window[j].beforeSha
  {
    LastForAt(window, p, j);
  }

  lemma {:induction false} LinksUpStep(window: seq<Entry>, p: Path)
    requires window != []
    ensures var n := |window| - 1;
      LinksUp(window, p) <==>
        LinksUp(window[..n], p) &&
        forall i: nat :: Consecutive(window, i, n, p) ==> window[i].afterSha == window[n].beforeSha
  {
    var n := |window| - 1;
    forall i: nat, j: nat | j < n
      ensures Consecutive(window[..n], i, j, p) == Consecutive(window, i, j, p)
    {
      assert forall k :: 0 <= k < n ==> window[..n][k] == window[k];
    }
    if LinksUp(window[..n], p) {
      forall i: nat, j: nat | Consecutive(window, i, j, p) && j < n
        ensures window[i].afterSha == window[j].beforeSha
      {
        assert Consecutive(window[..n], i, j, p);
      }
    }
    if LinksUp(window, p) {
      forall i: nat, j: nat | Consecutive(window[..n], i, j, p)
        ensures window[..n][i].afterSha == window[..n][j].beforeSha
      {
        assert Consecutive(window, i, j, p);
      }
    }
  }

  /** The chain is what the journal is said to satisfy, together with its link to the disk. */
  lemma {:induction false} ChainedIff(window: seq<Entry>, now: Option<Content>, p: Path)
    requires Hashed(window)
    ensures Chained(window, now, p) <==>
            LinksUp(window, p) &&
            (LastFor(window, p).Some? ==> LastFor(window, p).value.afterSha == ShaOf(now))
    decreases |window|
  {
    if window != [] {
      var n := |window| - 1;
      var e := window[n];
      assert e in window && forall x :: x in window[..n] ==> x in window;
      LinksUpStep(window, p);
      if e.path == p {
        LinkAt(window, p, n);
        ChainedIff(window[..n], e.before, p);
      } else {
        ChainedIff(window[..n], now, p);
      }
    }
  }

  lemma {:induction false} ChainPush(window: seq<Entry>, e: Entry, now: Option<Content>, p: Path)
    ensures Chained(window + [e], now, p) <==>
            if e.path == p then e.afterSha == ShaOf(now) && Chained(window, e.before, p)
            else Chained(window, now, p)
  {
    assert (window + [e])[..|window|] == window;
  }

  /** A chain falls apart into the chain of its later part and that of its earlier part. */
  lemma {:induction false} ChainCut(a: seq<Entry>, b: seq<Entry>, now: Option<Content>, p: Path)
    ensures Chained(a + b, now, p) <==> Chained(b, now, p) && Chained(a, Undone(b, now, p), p)
    decreases |b|
  {
    if b == [] {
      assert a + b == a;
    } else {
      var n := |b| - 1;
      assert a + b == (a + b[..n]) + [b[n]] && b == b[..n] + [b[n]];
      ChainPush(a + b[..n], b[n], now, p);
      ChainPush(b[..n], b[n], now, p);
      ChainCut(a, b[..n], if b[n].path == p then b[n].before else now, p);
    }
  }

  /** A chain leads to one content only, unless it holds no edit of the path. */
  lemma {:induction false} ChainNow(window: seq<Entry>, x: Option<Content>, y: Option<Content>, p: Path)
    requires Chained(window, x, p)
    ensures Chained(window, y, p) <==> LastFor(window, p).None? || x == y
    decreases |window|
  {
    if window != [] && window[|window| - 1].path != p {
      ChainNow(window[..|window| - 1], x, y, p);
    }
  }

  // ---- steps ----

  /** The entries after the marker form a chain that ends in what is on disk. */
  ghost predicate Linked(s: State, mark: int, p: Path) {
    Chained(After(s.journal, mark), Get(s.files, p), p)
  }

  /** A pruned entry of `p` stood between a kept one and what comes after it: undoing the kept
      entries that follow the kept one no longer leads to where it left off. */
  ghost predicate PruneCuts(window: seq<Entry>, cutoff: real, now: Option<Content>, p: Path) {
    exists i :: 0 <= i < |window| && LosesNext(window, i, cutoff, now, p)
  }

  predicate LosesNext(window: seq<Entry>, i: nat, cutoff: real, now: Option<Content>, p: Path)
    requires i < |window|
  {
    && window[i].path == p && Age(window[i]) >= cutoff
    && Undone(Younger(window[i + 1..], cutoff), now, p) != Undone(window[i + 1..], now, p)
  }

  /** A restart prunes such an entry. */
  ghost predicate Forgets(s: State, now: real, mark: int, there: Option<Content>, p: Path) {
    s.persist && s.maxAgeDays > 0.0 &&
    PruneCuts(After(s.journal, mark), now - s.maxAgeDays * SECONDS_PER_DAY, there, p)
  }

  /** Does the step break the chain of `p`? An edit whose hash is unknown or whose pre-image is stale,
      a write that is not journaled, a refused undo that leaves something else than the chain says,
      or a restart that prunes an entry out of the chain's middle. */
  ghost predicate Breaks(s: State, op: Op, mark: int, p: Path) {
    match op
    case Edit(path, _, hashed, _, _, _) =>
      path == p && (!hashed || (Stale(s, p) && LastFor(After(s.journal, mark), p).Some?))
    case Rollback(id, blocked, _) =>
      (match Find(s.cps, id)
       case None => false
       case Some(c) =>
         p in blocked && Get(s.files, p) != Target(s, c, p) &&
         LastFor(After(UpTo(s.journal, c.mark), mark), p).Some?)
    case Restart(now, _) => Forgets(s, now, mark, Get(s.files, p), p)
    case _ => Bypasses(s, op, p) && LastFor(After(s.journal, mark), p).Some?
  }

  lemma {:induction false} EditLinkedIff(s: State, op: Op, mark: int, p: Path)
    requires op.Edit? && mark <= s.num && Linked(s, mark, p)
    ensures Linked(Step(s, op), mark, p) <==> !Breaks(s, op, mark, p)
  {
    EditedMeans(s, op.path, op.content, op.hashed, op.pinned, op.actor, op.now);
    var e := EditEntry(s, op.path, op.content, op.hashed, op.pinned, op.actor, op.now);
    AfterAppend(s.journal, e, mark);
    ChainPush(After(s.journal, mark), e, Get(Step(s, op).files, p), p);
    PreImageIsRightIff(s, p);
    ChainNow(After(s.journal, mark), Get(s.files, p), e.before, p);
  }

  lemma {:induction false} RollbackLinkedIff(s: State, op: Op, mark: int, p: Path)
    requires Core(s) && op.Rollback? && Linked(s, mark, p)
    ensures Linked(Step(s, op), mark, p) <==> !Breaks(s, op, mark, p)
  {
    var found := Find(s.cps, op.id);
    if found.Some? {
      var c := found.value;
      var kept, cut := After(UpTo(s.journal, c.mark), mark), After(s.journal, c.mark);
      RollbackMeans(s, op.id, op.blocked, op.now, p);
      if mark <= c.mark {
        WindowSplits(s.journal, mark, c.mark);
        ChainCut(kept, cut, Get(s.files, p), p);
        ChainNow(kept, Undone(cut, Get(s.files, p), p), Get(Step(s, op).files, p), p);
      } else {
        NothingLeft(s.journal, mark, c.mark);
      }
    }
  }

  /** A cut below the marker leaves none of its window. */
  lemma {:induction false} NothingLeft(journal: seq<Entry>, mark: int, cut: int)
    requires cut <= mark
    ensures After(UpTo(journal, cut), mark) == []
  {
    AfterMembers(journal, cut);
    NothingAfter(UpTo(journal, cut), mark);
  }

  lemma {:induction false} AllAfter(journal: seq<Entry>, mark: int)
    requires forall e :: e in journal ==> e.num > mark
    ensures After(journal, mark) == journal
  {
    if journal != [] {
      var n := |journal| - 1;
      assert journal == journal[..n] + [journal[n]] && journal[n] in journal;
      AllAfter(journal[..n], mark);
    }
  }

  lemma {:induction false} YoungerCons(e: Entry, rest: seq<Entry>, cutoff: real)
    ensures Younger([e] + rest, cutoff) == if Age(e) >= cutoff then [e] + Younger(rest, cutoff) else Younger(rest, cutoff)
  {
    YoungerConcat([e], rest, cutoff);
    assert [e][..0] == [];
    assert Younger([], cutoff) == [];
  }

  lemma {:induction false} YoungerConcat(a: seq<Entry>, b: seq<Entry>, cutoff: real)
    ensures Younger(a + b, cutoff) == Younger(a, cutoff) + Younger(b, cutoff)
  {
    if b == [] {
      assert a + b == a;
    } else {
      var n := |b| - 1;
      assert (a + b)[..|a + b| - 1] == a + b[..n];
      YoungerConcat(a, b[..n], cutoff);
    }
  }

  lemma {:induction false} FirstForOne(e: Entry, p: Path)
    ensures FirstFor([e], p) == if e.path == p then Some(e) else None
    ensures forall now :: Chained([e], now, p) <==> (e.path == p ==> e.afterSha == ShaOf(now))
  {
    assert [e][..0] == [] && FirstFor([], p) == None;
  }

  /** One entry in front: it must have left what undoing the rest leads to. */
  lemma {:induction false} ChainCons(e: Entry, rest: seq<Entry>, now: Option<Content>, p: Path)
    ensures Chained([e] + rest, now, p) <==>
            Chained(rest, now, p) && (e.path == p ==> e.afterSha == ShaOf(Undone(rest, now, p)))
  {
    ChainCut([e], rest, now, p);
    FirstForOne(e, p);
  }

  lemma {:induction false} PruneCutsCons(e: Entry, rest: seq<Entry>, cutoff: real, now: Option<Content>,
                                         p: Path)
    ensures PruneCuts([e] + rest, cutoff, now, p) <==>
            PruneCuts(rest, cutoff, now, p) || LosesNext([e] + rest, 0, cutoff, now, p)
  {
    var all := [e] + rest;
    assert all[1..] == rest;
    forall i | 0 <= i < |rest|
      ensures LosesNext(all, i + 1, cutoff, now, p) == LosesNext(rest, i, cutoff, now, p)
    {
      assert all[i + 1] == rest[i] && all[i + 2..] == rest[i + 1..];
    }
    if PruneCuts(rest, cutoff, now, p) {
      var i :| 0 <= i < |rest| && LosesNext(rest, i, cutoff, now, p);
      assert LosesNext(all, i + 1, cutoff, now, p);
    }
    if i :| 1 <= i < |all| && LosesNext(all, i, cutoff, now, p) {
      assert LosesNext(rest, i - 1, cutoff, now, p);
    }
  }

  /** A chain outlives pruning by age exactly when no entry is pruned out of its middle to another
      effect than its neighbours have. */
  lemma {:induction false} PrunedChainIff(window: seq<Entry>, cutoff: real, now: Option<Content>, p: Path)
    requires Chained(window, now, p)
    ensures Chained(Younger(window, cutoff), now, p) <==> !PruneCuts(window, cutoff, now, p)
    decreases |window|
  {
    if window != [] {
      var e, rest := window[0], window[1..];
      assert window == [e] + rest;
      ChainCons(e, rest, now, p);
      PrunedChainIff(rest, cutoff, now, p);
      YoungerCons(e, rest, cutoff);
      ChainCons(e, Younger(rest, cutoff), now, p);
      PruneCutsCons(e, rest, cutoff, now, p);
    }
  }

  /** With time stamps in order the entries pruned are the oldest, and no chain is cut. */
  lemma {:induction false} AgingCutsNothing(journal: seq<Entry>, cutoff: real, now: Option<Content>, p: Path)
    requires Aging(journal)
    ensures !PruneCuts(journal, cutoff, now, p)
  {
    forall i | 0 <= i < |journal|
      ensures !LosesNext(journal, i, cutoff, now, p)
    {
      if Age(journal[i]) >= cutoff {
        assert forall j :: i <= j < |journal| ==> Age(journal[i]) <= Age(journal[j]);
        YoungerAll(journal[i + 1..], cutoff);
      }
    }
  }

  lemma {:induction false} RememberedChainIff(s: State, now: real, mark: int, there: Option<Content>, p: Path)
    requires Chained(After(s.journal, mark), there, p)
    ensures Chained(After(Remembered(s, now), mark), there, p) <==> !Forgets(s, now, mark, there, p)
  {
    var cutoff := now - s.maxAgeDays * SECONDS_PER_DAY;
    YoungerAfter(s.journal, cutoff, mark);
    PrunedChainIff(After(s.journal, mark), cutoff, there, p);
  }

  lemma {:induction false} RestartLinkedIff(s: State, now: real, sameProcess: bool, mark: int, p: Path)
    requires WellFormed(s) && Linked(s, mark, p)
    ensures Linked(SetUp(s, now, sameProcess), mark, p) <==> !Forgets(s, now, mark, Get(s.files, p), p)
  {
    RestartedJournal(s, now, sameProcess);
    RememberedChainIff(s, now, mark, Get(s.files, p), p);
  }

  /** One step keeps the chain exactly when it is none of the breaking ones. */
  lemma {:induction false} StepLinkedIff(s: State, op: Op, mark: int, p: Path)
    requires Core(s) && Linked(s, mark, p)
    requires op.Edit? ==> mark <= s.num
    requires op.Restart? ==> Durable(s)
    ensures Linked(Step(s, op), mark, p) <==> !Breaks(s, op, mark, p)
  {
    match op
    case Edit(_, _, _, _, _, _) => EditLinkedIff(s, op, mark, p);
    case Rollback(_, _, _) => RollbackLinkedIff(s, op, mark, p);
    case Restart(now, sameProcess) => RestartLinkedIff(s, now, sameProcess, mark, p);
    case _ => ChainNow(After(s.journal, mark), Get(s.files, p), Get(Step(s, op).files, p), p);
  }

  // ---- runs ----

  ghost predicate StaysLinked(s: State, ops: seq<Op>, mark: int, p: Path)
    decreases |ops|
  {
    Linked(s, mark, p) && (ops != [] ==> StaysLinked(Step(s, ops[0]), ops[1..], mark, p))
  }

  ghost predicate Unbroken(s: State, ops: seq<Op>, mark: int, p: Path)
    decreases |ops|
  {
    ops != [] ==> !Breaks(s, ops[0], mark, p) && Unbroken(Step(s, ops[0]), ops[1..], mark, p)
  }

  /** Over every run the chain of a path holds at every moment exactly when no step breaks it. */
  lemma {:induction false} ChainHoldsIff(s: State, ops: seq<Op>, p: Path)
    requires Core(s) && Recoverable(s, ops) && Linked(s, 0, p)
    ensures StaysLinked(s, ops, 0, p) <==> Unbroken(s, ops, 0, p)
    decreases |ops|
  {
    if ops != [] {
      StepKeepsRecoverable(s, ops);
      StepLinkedIff(s, ops[0], 0, p);
      if Linked(Step(s, ops[0]), 0, p) {
        ChainHoldsIff(Step(s, ops[0]), ops[1..], p);
      }
    }
  }

  /** While it holds, the journal satisfies what is said of it, and its last hash is the disk's. */
  lemma {:induction false} LinkedMeans(s: State, p: Path)
    requires Core(s)
    ensures Linked(s, 0, p) <==>
            LinksUp(s.journal, p) &&
            (LastFor(s.journal, p).Some? ==> LastFor(s.journal, p).value.afterSha == ShaOf(Get(s.files, p)))
  {
    AllAfter(s.journal, 0);
    ChainedIff(s.journal, Get(s.files, p), p);
  }
}
