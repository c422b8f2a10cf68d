/** The incremental session rollup against the batch one. */
module RollupAgreement {
  import opened Changesets
  import opened Rollups

  /** No two logged rounds carry the same turn. */
  ghost predicate DistinctTurns(log: seq<RoundRef>) {
    forall i, j :: 0 <= i < j < |log| && log[i].cs.turn != 0 ==> log[i].cs.turn != log[j].cs.turn
  }

  /** No untagged, non-empty round object is offered twice. */
  ghost predicate NoUntaggedTwice(offers: seq<RoundRef>) {
    forall i, j :: 0 <= i < j < |offers| && offers[i].id == offers[j].id ==>
                     offers[j].cs.turn != 0 || Empty(offers[j])
  }

  /** Every object read from the log is new, and has something in it. */
  ghost predicate FreshLog(log: seq<RoundRef>) {
    && (forall r :: r in log ==> !Empty(r))
    && (forall i, j :: 0 <= i < j < |log| ==> log[i].id != log[j].id)
  }

  /** One identity, one object. */
  ghost predicate OneObject(offers: seq<RoundRef>) {
    forall a, b :: a in offers && b in offers && a.id == b.id ==> a == b
  }

  lemma {:induction false} TakeAllPush(rounds: seq<RoundRef>, more: seq<RoundRef>, r: RoundRef)
    ensures TakeAll(rounds, more + [r]) == Take(TakeAll(rounds, more), r)
    decreases |more|
  {
    if more == [] {
      assert [] + [r] == [r] && [r][1..] == [];
      assert TakeAll(rounds, [r]) == TakeAll(Take(rounds, r), []);
    } else {
      TakeAllPush(Take(rounds, more[0]), more[1..], r);
      assert (more + [r])[1..] == more[1..] + [r];
    }
  }

  lemma {:induction false} KeepAllPush(rounds: seq<RoundRef>, more: seq<RoundRef>, r: RoundRef)
    ensures KeepAll(rounds, more + [r]) == Keep(KeepAll(rounds, more), r)
    decreases |more|
  {
    if more == [] {
      assert [] + [r] == [r] && [r][1..] == [];
      assert KeepAll(rounds, [r]) == KeepAll(Keep(rounds, r), []);
    } else {
      KeepAllPush(Keep(rounds, more[0]), more[1..], r);
      assert (more + [r])[1..] == more[1..] + [r];
    }
  }

  lemma {:induction false} TurnOf(rounds: seq<RoundRef>, r: RoundRef)
    ensures r in rounds && r.cs.turn != 0 ==> r.cs.turn in Turns(rounds)
    ensures r.cs.turn in Turns(rounds) ==> exists i :: 0 <= i < |rounds| && rounds[i].cs.turn == r.cs.turn != 0
  {
    if r.cs.turn in Turns(rounds) {
      var q :| q in rounds && q.cs.turn != 0 && q.cs.turn == r.cs.turn;
      var i :| 0 <= i < |rounds| && rounds[i] == q;
    }
  }

  /** The batch rollup merges the log as it is, then each live round that lists a file and whose turn, if
      it has one, is not merged yet. */
  lemma {:induction false} BatchTakes(log: seq<RoundRef>, extra: seq<RoundRef>, r: RoundRef)
    ensures KeepAll(log, []) == log
    ensures var sofar := KeepAll(log, extra);
      KeepAll(log, extra + [r]) ==
      if |r.cs.files| > 0 && (r.cs.turn == 0 || forall q :: q in sofar ==> q.cs.turn != r.cs.turn) then sofar + [r]
      else sofar
  {
    KeepAllPush(log, extra, r);
    TurnOf(KeepAll(log, extra), r);
  }

  /** The incremental one takes a round on the same terms, and no object twice. */
  lemma {:induction false} IncrementalTakes(offers: seq<RoundRef>, r: RoundRef)
    ensures TakeAll([], []) == []
    ensures var sofar := TakeAll([], offers);
      TakeAll([], offers + [r]) ==
      if |r.cs.files| > 0 && (forall q :: q in sofar ==> q.id != r.id) &&
         (r.cs.turn == 0 || forall q :: q in sofar ==> q.cs.turn != r.cs.turn) then sofar + [r]
      else sofar
  {
    TakeAllPush([], offers, r);
    TurnOf(TakeAll([], offers), r);
  }

  lemma {:induction false} IdsPush(rounds: seq<RoundRef>, r: RoundRef)
    ensures Ids(rounds + [r]) == Ids(rounds) + {r.id}
  {
  }

  ghost predicate LogInStep(log: seq<RoundRef>, taken: seq<RoundRef>) {
    && Turns(taken) == Turns(log)
    && Ids(taken) <= Ids(log)
    && if DistinctTurns(log) then taken == log else |taken| < |log|
  }

  lemma {:induction false} LogStep(log: seq<RoundRef>, taken: seq<RoundRef>, r: RoundRef)
    requires LogInStep(log, taken) && !Empty(r) && r.id !in Ids(log)
    ensures LogInStep(log + [r], Take(taken, r))
  {
    TurnsPush(log, r);
    TurnsPush(taken, r);
    IdsPush(log, r);
    IdsPush(taken, r);
    DistinctPush(log, r);
  }

  /** Taking the log keeps all of it exactly when its turns are distinct. */
  lemma {:induction false} LogTaken(log: seq<RoundRef>)
    requires FreshLog(log)
    ensures LogInStep(log, TakeAll([], log))
  {
    if log != [] {
      var init, r := log[..|log| - 1], log[|log| - 1];
      assert log == init + [r];
      assert forall q :: q in init ==> q in log;
      LogTaken(init);
      TakeAllPush([], init, r);
      LogStep(init, TakeAll([], init), r);
    }
  }

  lemma {:induction false} DistinctPush(init: seq<RoundRef>, r: RoundRef)
    ensures DistinctTurns(init + [r]) <==> DistinctTurns(init) && r.cs.turn !in Turns(init)
  {
    var log := init + [r];
    TurnOf(init, r);
    assert forall i :: 0 <= i < |init| ==> log[i] == init[i];
    if r.cs.turn in Turns(init) {
      var i :| 0 <= i < |init| && init[i].cs.turn == r.cs.turn != 0;
      assert log[i].cs.turn == log[|init|].cs.turn;
    }
    if DistinctTurns(init) && r.cs.turn !in Turns(init) {
      forall i, j | 0 <= i < j < |log| && log[i].cs.turn != 0
        ensures log[i].cs.turn != log[j].cs.turn
      {
        TurnOf(init, log[i]);
        if j == |init| { assert log[i] in init; }
      }
    }
  }

  lemma {:induction false} UntaggedPush(init: seq<RoundRef>, r: RoundRef)
    ensures NoUntaggedTwice(init + [r]) <==>
            NoUntaggedTwice(init) && (r.id !in Ids(init) || r.cs.turn != 0 || Empty(r))
  {
    var offers := init + [r];
    assert forall i :: 0 <= i < |init| ==> offers[i] == init[i];
    if NoUntaggedTwice(offers) && r.id in Ids(init) {
      var q :| q in init && q.id == r.id;
      var i :| 0 <= i < |init| && init[i] == q;
      assert offers[i].id == offers[|init|].id;
    }
    if NoUntaggedTwice(init) && (r.id !in Ids(init) || r.cs.turn != 0 || Empty(r)) {
      forall i, j | 0 <= i < j < |offers| && offers[i].id == offers[j].id
        ensures offers[j].cs.turn != 0 || Empty(offers[j])
      {
        if j == |init| { assert init[i] in init; }
      }
    }
  }

  /** What both rollups know after the same offers, and how far apart they are. */
  ghost predicate InStep(t0: seq<RoundRef>, b0: seq<RoundRef>, offers: seq<RoundRef>,
                         t: seq<RoundRef>, b: seq<RoundRef>) {
    && Turns(t) == Turns(b)
    && Ids(t) <= Ids(t0) + Ids(offers)
    && (forall r :: r in offers && r.cs.turn == 0 && !Empty(r) ==> r.id in Ids(t))
    && (forall q :: q in t ==> q in t0 || q in offers)
    && if t0 == b0 && NoUntaggedTwice(offers) then t == b else |t| < |b|
  }

  lemma {:induction false} StepTogether(t0: seq<RoundRef>, b0: seq<RoundRef>, init: seq<RoundRef>, r: RoundRef,
                     t: seq<RoundRef>, b: seq<RoundRef>)
    requires InStep(t0, b0, init, t, b)
    requires OneObject(init + [r]) && r.id !in Ids(t0)
    ensures InStep(t0, b0, init + [r], Take(t, r), Keep(b, r))
  {
    var offers := init + [r];
    assert r in offers && forall q :: q in init ==> q in offers;
    IdsPush(init, r);
    IdsPush(t, r);
    UntaggedPush(init, r);
    TurnsPush(t, r);
    TurnsPush(b, r);
    if r.id in Ids(t) {
      SameObject(t0, init, t, r);
      TurnOf(t, r);
    } else if r.cs.turn == 0 && !Empty(r) {
      OfferedBefore(init, t, r);
    }
  }

  /** An object already held under this identity is this object, offered before. */
  lemma {:induction false} SameObject(t0: seq<RoundRef>, init: seq<RoundRef>, t: seq<RoundRef>, r: RoundRef)
    requires OneObject(init + [r]) && r.id !in Ids(t0) && r.id in Ids(t)
    requires forall q :: q in t ==> q in t0 || q in init
    ensures r in t && r.id in Ids(init)
  {
    var q :| q in t && q.id == r.id;
    assert q in t0 ==> q.id in Ids(t0);
    assert q in init + [r] && r in init + [r];
  }

  lemma {:induction false} OfferedBefore(init: seq<RoundRef>, t: seq<RoundRef>, r: RoundRef)
    requires OneObject(init + [r]) && r.id !in Ids(t) && r.cs.turn == 0 && !Empty(r)
    requires forall q :: q in init && q.cs.turn == 0 && !Empty(q) ==> q.id in Ids(t)
    ensures r.id !in Ids(init)
  {
    forall q | q in init
      ensures q.id != r.id
    {
      assert q in init + [r] && r in init + [r];
    }
  }

  lemma {:induction false} OffersTaken(t0: seq<RoundRef>, b0: seq<RoundRef>, offers: seq<RoundRef>)
    requires Turns(t0) == Turns(b0) && (t0 == b0 || |t0| < |b0|)
    requires OneObject(offers) && Ids(offers) !! Ids(t0)
    ensures InStep(t0, b0, offers, TakeAll(t0, offers), KeepAll(b0, offers))
  {
    if offers != [] {
      var init, r := offers[..|offers| - 1], offers[|offers| - 1];
      assert offers == init + [r];
      assert forall q :: q in init ==> q in offers;
      assert r.id in Ids(offers);
      assert Ids(init) <= Ids(offers);
      OffersTaken(t0, b0, init);
      TakeAllPush(t0, init, r);
      KeepAllPush(b0, init, r);
      StepTogether(t0, b0, init, r, TakeAll(t0, init), KeepAll(b0, init));
    }
  }

  /**
   * The rollup fed one round at a time holds the very rounds the batch rollup merges exactly when
   * the log has no turn twice and no untagged round is offered twice.
   */
  lemma {:induction false} RollupsAgreeIff(log: seq<RoundRef>, offers: seq<RoundRef>)
    requires FreshLog(log) && OneObject(offers) && Ids(offers) !! Ids(log)
    ensures TakeAll(TakeAll([], log), offers) == KeepAll(log, offers) <==>
            DistinctTurns(log) && NoUntaggedTwice(offers)
  {
    LogTaken(log);
    OffersTaken(TakeAll([], log), log, offers);
  }

  /** Hence the same changeset. */
  lemma {:induction false} RollupsMergeAlike(log: seq<RoundRef>, offers: seq<RoundRef>)
    requires FreshLog(log) && OneObject(offers) && Ids(offers) !! Ids(log)
    requires DistinctTurns(log) && NoUntaggedTwice(offers)
    ensures Merged(Changes(TakeAll(TakeAll([], log), offers))) == Merged(Changes(KeepAll(log, offers)))
  {
    RollupsAgreeIff(log, offers);
  }

  /**
   * A session watched round by round: `logs[i]` is what the log holds at the i-th call. Only the
   * first call reads it.
   */
  method WatchSession(logs: seq<seq<RoundRef>>, offers: seq<RoundRef>) returns (total: Changeset)
    requires |logs| == |offers| + 1
    ensures total == Merged(Changes(TakeAll(TakeAll([], logs[0]), offers)))
  {
    var rollup := new Rollup();
    for i := 0 to |offers|
      invariant rollup.Valid() && fresh(rollup)
      invariant i > 0 ==> rollup.loaded
      invariant TakeAll(rollup.Known(logs[0]), offers[i..]) == TakeAll(TakeAll([], logs[0]), offers)
    {
      assert offers[i..][0] == offers[i] && offers[i..][1..] == offers[i + 1..];
      rollup.Add(logs[i], offers[i]);
    }
    total := rollup.Total(logs[|offers|]);
  }
}
