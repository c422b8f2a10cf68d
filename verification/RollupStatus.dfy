/** When the order of the rounds decides a merged row's status: core/changeset.py. */
module RollupStatus {
  import opened Options
  import opened Journal
  import opened Changesets
  import opened ChangesetLaws
  import opened Rollups
  import opened RollupLaws

  /** The status a round gives the path, if it lists it. */
  function StatusIn(r: Changeset, p: Path): Option<Status> {
    match LastAt(r.files, p)
    case Some(f) => Some(f.status)
    case None => None
  }

  /** The statuses of one path, round by round. */
  function Statuses(rounds: seq<Changeset>, p: Path): seq<Status> {
    if rounds == [] then []
    else
      var n := |rounds| - 1;
      var rest := Statuses(rounds[..n], p);
      match StatusIn(rounds[n], p)
      case Some(s) => rest + [s]
      case None => rest
  }

  /** As `collect` makes them. */
  ghost predicate EachPathOnce(rounds: seq<Changeset>) {
    forall r :: r in rounds ==> DistinctPaths(r.files)
  }

  function MergedStatusOf(rounds: seq<Changeset>, p: Path): Option<Status> {
    match RowOf(AllFiles(rounds), p)
    case Some(row) => Some(row.change.status)
    case None => None
  }

  // ---- first and last round decide ----

  lemma {:induction false} FirstAtConcat(a: seq<FileChange>, b: seq<FileChange>, p: Path)
    ensures FirstAt(a + b, p) == if FirstAt(a, p).Some? then FirstAt(a, p) else FirstAt(b, p)
    ensures LastAt(a + b, p) == if LastAt(b, p).Some? then LastAt(b, p) else LastAt(a, p)
  {
    if b == [] {
      assert a + b == a;
    } else {
      var n := |b| - 1;
      FirstAtConcat(a, b[..n], p);
      assert (a + b)[..|a + b| - 1] == a + b[..n];
    }
  }

  lemma {:induction false} LastAtMember(fs: seq<FileChange>, p: Path)
    ensures LastAt(fs, p).Some? ==> exists i :: 0 <= i < |fs| && fs[i] == LastAt(fs, p).value && fs[i].path == p
    ensures LastAt(fs, p).None? ==> forall i :: 0 <= i < |fs| ==> fs[i].path != p
    ensures FirstAt(fs, p).Some? ==> exists i :: 0 <= i < |fs| && fs[i] == FirstAt(fs, p).value && fs[i].path == p
    ensures FirstAt(fs, p).Some? <==> LastAt(fs, p).Some?
  {
    if fs != [] {
      var n := |fs| - 1;
      LastAtMember(fs[..n], p);
      assert forall i :: 0 <= i < n ==> fs[..n][i] == fs[i];
    }
  }

  lemma {:induction false} OneRow(fs: seq<FileChange>, p: Path)
    requires DistinctPaths(fs)
    ensures FirstAt(fs, p) == LastAt(fs, p)
  {
    LastAtMember(fs, p);
  }

  function StatusOf(f: Option<FileChange>): Option<Status> {
    match f
    case Some(c) => Some(c.status)
    case None => None
  }

  function HeadOf(ss: seq<Status>): Option<Status> {
    if ss == [] then None else Some(ss[0])
  }

  function TailOf(ss: seq<Status>): Option<Status> {
    if ss == [] then None else Some(ss[|ss| - 1])
  }

  lemma {:induction false} EndsOfStatuses(rounds: seq<Changeset>, p: Path)
    requires EachPathOnce(rounds)
    ensures HeadOf(Statuses(rounds, p)) == StatusOf(FirstAt(AllFiles(rounds), p))
    ensures TailOf(Statuses(rounds, p)) == StatusOf(LastAt(AllFiles(rounds), p))
  {
    if rounds != [] {
      var n := |rounds| - 1;
      assert rounds[n] in rounds && forall r :: r in rounds[..n] ==> r in rounds;
      EndsOfStatuses(rounds[..n], p);
      FirstAtConcat(AllFiles(rounds[..n]), rounds[n].files, p);
      OneRow(rounds[n].files, p);
    }
  }

  lemma {:induction false} StatusFromEnds(rounds: seq<Changeset>, p: Path)
    requires EachPathOnce(rounds) && Statuses(rounds, p) != []
    ensures var ss := Statuses(rounds, p);
      MergedStatusOf(rounds, p) == Some(StatusAfter(ss[0], ss[|ss| - 1]))
  {
    MergedStatus(AllFiles(rounds), p);
    EndsOfStatuses(rounds, p);
  }

  // ---- permutations ----

  lemma {:induction false} StatusesConcat(a: seq<Changeset>, b: seq<Changeset>, p: Path)
    ensures Statuses(a + b, p) == Statuses(a, p) + Statuses(b, p)
  {
    if b == [] {
      assert a + b == a;
    } else {
      var n := |b| - 1;
      StatusesConcat(a, b[..n], p);
      assert (a + b)[..|a + b| - 1] == a + b[..n];
    }
  }

  function OneStatus(r: Changeset, p: Path): seq<Status> {
    match StatusIn(r, p)
    case Some(s) => [s]
    case None => []
  }

  lemma {:induction false} StatusesOfOne(r: Changeset, p: Path)
    ensures Statuses([r], p) == OneStatus(r, p)
  {
    assert [r][..0] == [];
    assert Statuses([r][..0], p) == [];
  }

  lemma {:induction false} StatusesAround(a: seq<Changeset>, r: Changeset, b: seq<Changeset>, p: Path)
    ensures Statuses(a + [r] + b, p) == Statuses(a, p) + OneStatus(r, p) + Statuses(b, p)
  {
    StatusesConcat(a + [r], b, p);
    StatusesConcat(a, [r], p);
    StatusesOfOne(r, p);
  }

  lemma {:induction false} StatusesPush(a: seq<Changeset>, r: Changeset, p: Path)
    ensures Statuses(a + [r], p) == Statuses(a, p) + OneStatus(r, p)
  {
    StatusesConcat(a, [r], p);
    StatusesOfOne(r, p);
  }

  lemma {:induction false} StatusesPermute(a: seq<Changeset>, b: seq<Changeset>, p: Path)
    requires multiset(a) == multiset(b)
    ensures multiset(Statuses(a, p)) == multiset(Statuses(b, p))
  {
    if a == [] {
      assert |multiset(b)| == 0;
    } else {
      var init, x := a[..|a| - 1], a[|a| - 1];
      assert a == init + [x] && x in multiset(b);
      var pre, post := Extract(b, x);
      assert multiset(init) == multiset(a) - multiset{x};
      StatusesPermute(init, pre + post, p);
      StatusesConcat(pre, post, p);
      StatusesAround(pre, x, post, p);
      StatusesPush(init, x, p);
      MultisetShuffle(Statuses(pre, p), OneStatus(x, p), Statuses(post, p), Statuses(init, p));
    }
  }

  /** The round that gives the k-th status. */
  lemma {:induction false} RoundAt(rounds: seq<Changeset>, p: Path, k: nat) returns (i: nat)
    requires k < |Statuses(rounds, p)|
    ensures i < |rounds| && StatusIn(rounds[i], p) == Some(Statuses(rounds, p)[k])
    ensures |Statuses(rounds[..i], p)| == k
  {
    var n := |rounds| - 1;
    if k < |Statuses(rounds[..n], p)| {
      i := RoundAt(rounds[..n], p, k);
      assert rounds[..n][..i] == rounds[..i];
    } else {
      i := n;
    }
  }

  lemma {:induction false} TakeOne<T>(xs: seq<T>, i: nat)
    requires i < |xs|
    ensures multiset(xs) == multiset(xs[..i] + xs[i + 1..]) + multiset{xs[i]}
  {
    assert xs == xs[..i] + [xs[i]] + xs[i + 1..];
  }

  /** A sequence without its i-th and j-th elements. */
  lemma {:induction false} TakeTwo<T>(xs: seq<T>, i: nat, j: nat) returns (middle: seq<T>)
    requires i < |xs| && j < |xs| && i != j
    ensures multiset([xs[i]] + middle + [xs[j]]) == multiset(xs)
  {
    var rest, k := xs[..i] + xs[i + 1..], if j < i then j else j - 1;
    TakeOne(xs, i);
    TakeOne(rest, k);
    assert rest[k] == xs[j];
    middle := rest[..k] + rest[k + 1..];
  }

  /** Any two rounds that list the path can be put first and last. */
  lemma {:induction false} Reordered(rounds: seq<Changeset>, p: Path, i: nat,
                                     j: nat) returns (other: seq<Changeset>)
    requires i < |rounds| && j < |rounds| && i != j
    requires StatusIn(rounds[i], p).Some? && StatusIn(rounds[j], p).Some?
    ensures multiset(other) == multiset(rounds)
    ensures var ss := Statuses(other, p);
      |ss| >= 2 && ss[0] == StatusIn(rounds[i], p).value && ss[|ss| - 1] == StatusIn(rounds[j], p).value
  {
    var middle := TakeTwo(rounds, i, j);
    other := [rounds[i]] + middle + [rounds[j]];
    StatusesPush([rounds[i]] + middle, rounds[j], p);
    StatusesConcat([rounds[i]], middle, p);
    StatusesOfOne(rounds[i], p);
  }

  // ---- the condition ----

  /** All alike, or nothing deleted and at most one plain modification. */
  predicate OrderFree(ss: multiset<Status>) {
    (forall a, b :: a in ss && b in ss ==> a == b) || (Deleted !in ss && ss[Modified] <= 1)
  }

  lemma {:induction false} TwoOf(ss: seq<Status>, s: Status) returns (i: nat, j: nat)
    requires multiset(ss)[s] >= 2
    ensures i < j < |ss| && ss[i] == s && ss[j] == s
  {
    var n := |ss| - 1;
    assert ss == ss[..n] + [ss[n]];
    if ss[n] == s {
      j := n;
      assert s in multiset(ss[..n]);
      i :| 0 <= i < n && ss[i] == s;
    } else {
      i, j := TwoOf(ss[..n], s);
    }
  }

  lemma {:induction false} CountTwice(ss: seq<Status>, s: Status, i: nat, j: nat)
    requires i < j < |ss| && ss[i] == s && ss[j] == s
    ensures multiset(ss)[s] >= 2
  {
    assert ss == ss[..j] + [s] + ss[j + 1..];
    assert ss[..j] == ss[..i] + [s] + ss[i + 1..j];
  }

  /** Under the condition the ends do not matter. */
  lemma {:induction false} EndsAgree(ss: seq<Status>, tt: seq<Status>)
    requires ss != [] && multiset(ss) == multiset(tt) && OrderFree(multiset(ss))
    ensures tt != []
    ensures StatusAfter(ss[0], ss[|ss| - 1]) == StatusAfter(tt[0], tt[|tt| - 1])
  {
    assert |ss| == |multiset(ss)| == |tt|;
    var n := |ss| - 1;
    assert ss[0] in multiset(ss) && ss[n] in multiset(ss) && tt[0] in multiset(tt) && tt[n] in multiset(tt);
    if !(forall a, b :: a in multiset(ss) && b in multiset(ss) ==> a == b) {
      if n == 0 {
        assert ss == [ss[0]];
        assert multiset(ss) == multiset{ss[0]};
      } else {
        AddedAtAnEnd(ss);
        AddedAtAnEnd(tt);
      }
    }
  }

  lemma {:induction false} AddedAtAnEnd(ss: seq<Status>)
    requires |ss| >= 2 && Deleted !in multiset(ss) && multiset(ss)[Modified] <= 1
    ensures StatusAfter(ss[0], ss[|ss| - 1]) == Added
  {
    var n := |ss| - 1;
    assert ss[0] in multiset(ss) && ss[n] in multiset(ss);
    if ss[0] == Modified && ss[n] == Modified {
      CountTwice(ss, Modified, 0, n);
    }
  }

  /** Otherwise two orders give two statuses. */
  lemma {:induction false} TwoOrders(rounds: seq<Changeset>, p: Path) returns (a: seq<Changeset>,
                                     b: seq<Changeset>)
    requires EachPathOnce(rounds) && !OrderFree(multiset(Statuses(rounds, p)))
    ensures multiset(a) == multiset(rounds) && multiset(b) == multiset(rounds)
    ensures MergedStatusOf(a, p) != MergedStatusOf(b, p)
  {
    var ss := Statuses(rounds, p);
    var x, y :| x in multiset(ss) && y in multiset(ss) && x != y;
    if Deleted in multiset(ss) {
      var kept := if x == Deleted then y else x;
      assert Deleted in ss && kept in ss;
      var u :| 0 <= u < |ss| && ss[u] == Deleted;
      var v :| 0 <= v < |ss| && ss[v] == kept;
      a := EndingIn(rounds, p, v, u);
      b := EndingIn(rounds, p, u, v);
    } else {
      var u, v := TwoOf(ss, Modified);
      assert Added in ss;
      var w :| 0 <= w < |ss| && ss[w] == Added;
      a := EndingIn(rounds, p, u, v);
      b := EndingIn(rounds, p, w, u);
    }
  }

  /** An order of the rounds that starts with the u-th status and ends with the v-th. */
  lemma {:induction false} EndingIn(rounds: seq<Changeset>, p: Path, u: nat,
                                    v: nat) returns (other: seq<Changeset>)
    requires EachPathOnce(rounds)
    requires u < |Statuses(rounds, p)| && v < |Statuses(rounds, p)| && u != v
    ensures multiset(other) == multiset(rounds)
    ensures MergedStatusOf(other, p) == Some(StatusAfter(Statuses(rounds, p)[u], Statuses(rounds, p)[v]))
  {
    var i := RoundAt(rounds, p, u);
    var j := RoundAt(rounds, p, v);
    other := Reordered(rounds, p, i, j);
    forall r | r in other ensures r in rounds {
      assert r in multiset(other);
    }
    StatusFromEnds(other, p);
  }

  /** Every order of the rounds gives a path the same merged status exactly when its statuses are all
      alike, or none is "deleted" and at most one "modified". */
  lemma {:induction false} StatusIsOrderFreeIff(rounds: seq<Changeset>, p: Path)
    requires EachPathOnce(rounds) && Statuses(rounds, p) != []
    ensures (forall other: seq<Changeset> :: multiset(other) == multiset(rounds) ==>
               MergedStatusOf(other, p) == MergedStatusOf(rounds, p)) <==>
            OrderFree(multiset(Statuses(rounds, p)))
  {
    if OrderFree(multiset(Statuses(rounds, p))) {
      forall other: seq<Changeset> | multiset(other) == multiset(rounds)
        ensures MergedStatusOf(other, p) == MergedStatusOf(rounds, p)
      {
        forall r | r in other ensures r in rounds {
          assert r in multiset(other);
        }
        StatusesPermute(rounds, other, p);
        EndsAgree(Statuses(rounds, p), Statuses(other, p));
        StatusFromEnds(rounds, p);
        StatusFromEnds(other, p);
      }
    } else {
      var a, b := TwoOrders(rounds, p);
    }
  }
}
