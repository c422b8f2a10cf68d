/** What merging rounds conserves, what order of rounds cannot change, and which rollups agree. */
module RollupLaws {
  import opened Options
  import opened Journal
  import opened Sorting
  import opened Changesets
  import opened Rollups
  import opened ChangesetLaws

  // ---- per-path sums ----

  function AddedAt(fs: seq<FileChange>, p: Path): int {
    if fs == [] then 0
    else AddedAt(fs[..|fs| - 1], p) + if fs[|fs| - 1].path == p then fs[|fs| - 1].added else 0
  }

  function RemovedAt(fs: seq<FileChange>, p: Path): int {
    if fs == [] then 0
    else RemovedAt(fs[..|fs| - 1], p) + if fs[|fs| - 1].path == p then fs[|fs| - 1].removed else 0
  }

  /** What the merged row of a path says, read off all its rounds. */
  lemma {:induction false} MergedFileMeans(fs: seq<FileChange>, p: Path)
    ensures RowOf(fs, p).Some? <==> exists f :: f in fs && f.path == p
    ensures RowOf(fs, p).Some? ==>
              var m := RowOf(fs, p).value.change;
              && m.path == p && m.diff == None
              && m.added == AddedAt(fs, p) && m.removed == RemovedAt(fs, p)
              && (m.foreignEdit <==> exists f :: f in fs && f.path == p && f.foreignEdit)
    ensures RowOf(fs, p).None? ==> AddedAt(fs, p) == 0 && RemovedAt(fs, p) == 0
  {
    if fs != [] {
      MergedFileMeans(fs[..|fs| - 1], p);
      assert fs == fs[..|fs| - 1] + [fs[|fs| - 1]];
    }
  }

  /** First and last change of a path. */
  function FirstAt(fs: seq<FileChange>, p: Path): Option<FileChange> {
    if fs == [] then None
    else
      var rest, f := FirstAt(fs[..|fs| - 1], p), fs[|fs| - 1];
      if rest.Some? then rest else if f.path == p then Some(f) else None
  }

  function LastAt(fs: seq<FileChange>, p: Path): Option<FileChange> {
    if fs == [] then None
    else if fs[|fs| - 1].path == p then Some(fs[|fs| - 1])
    else LastAt(fs[..|fs| - 1], p)
  }

  /** A file the session created stays "added" until its last round deletes it. */
  lemma {:induction false} MergedStatus(fs: seq<FileChange>, p: Path)
    ensures RowOf(fs, p).Some? <==> FirstAt(fs, p).Some?
    ensures FirstAt(fs, p).Some? <==> LastAt(fs, p).Some?
    ensures RowOf(fs, p).Some? ==>
              && RowOf(fs, p).value.first == FirstAt(fs, p).value.status
              && RowOf(fs, p).value.change.binary == LastAt(fs, p).value.binary
              && RowOf(fs, p).value.change.status ==
                 StatusAfter(FirstAt(fs, p).value.status, LastAt(fs, p).value.status)
  {
    if fs != [] {
      MergedStatus(fs[..|fs| - 1], p);
    }
  }

  /** The status in so many words: deleted when the last round says so, else added when the first one
      did, else what the last one says. */
  lemma {:induction false} MergedStatusReads(fs: seq<FileChange>, p: Path)
    requires RowOf(fs, p).Some?
    ensures FirstAt(fs, p).Some? && LastAt(fs, p).Some?
    ensures var status, first, last := RowOf(fs, p).value.change.status, FirstAt(fs, p).value.status, LastAt(fs, p).value.status;
      && (status == Deleted <==> last == Deleted)
      && (status == Added <==> last != Deleted && (first == Added || last == Added))
      && (status == Modified <==> last == Modified && first != Added)
  {
    MergedStatus(fs, p);
  }

  lemma {:induction false} FirstAndLastAre(fs: seq<FileChange>, p: Path, i: nat)
    requires i < |fs| && fs[i].path == p
    ensures (forall j :: 0 <= j < i ==> fs[j].path != p) ==> FirstAt(fs, p) == Some(fs[i])
    ensures (forall j :: i < j < |fs| ==> fs[j].path != p) ==> LastAt(fs, p) == Some(fs[i])
  {
    var n := |fs| - 1;
    if i < n {
      FirstAndLastAre(fs[..n], p, i);
      assert forall j :: i < j < n ==> fs[..n][j] == fs[j];
    } else if forall j :: 0 <= j < i ==> fs[j].path != p {
      NotAmong(fs[..n], p);
    }
  }

  lemma {:induction false} NotAmong(fs: seq<FileChange>, p: Path)
    requires forall j :: 0 <= j < |fs| ==> fs[j].path != p
    ensures FirstAt(fs, p) == None
  {
    if fs != [] {
      NotAmong(fs[..|fs| - 1], p);
    }
  }

  lemma {:induction false} AddActorsMeans(actors: seq<string>, more: seq<string>)
    ensures forall a :: a in AddActors(actors, more) <==> a in actors || a in more
  {
    if more != [] {
      AddActorsMeans(actors, more[..|more| - 1]);
      assert more == more[..|more| - 1] + [more[|more| - 1]];
    }
  }

  /** The strangers named in a merged row are those some flagged round names. */
  lemma {:induction false} MergedActors(fs: seq<FileChange>, p: Path, a: string)
    requires RowOf(fs, p).Some?
    ensures a in RowOf(fs, p).value.change.foreignActors <==>
            exists f :: f in fs && f.path == p && f.foreignEdit && a in f.foreignActors
  {
    var n := |fs| - 1;
    var rest, f := RowOf(fs[..n], p), fs[n];
    assert fs == fs[..n] + [f];
    MergedFileMeans(fs[..n], p);
    if rest.Some? {
      MergedActors(fs[..n], p, a);
      AddActorsMeans(rest.value.change.foreignActors, f.foreignActors);
    } else {
      AddActorsMeans([], f.foreignActors);
    }
  }

  /** A merged changeset is shown inline up to 3 files and 80 lines, listed up to 50 files, and counted
      beyond; it keeps no diff and is not a round. */
  lemma {:induction false} MergedReads(rounds: seq<Changeset>)
    ensures var cs := Merged(rounds);
      && cs.turn == 0 && !cs.truncated && (forall f :: f in cs.files ==> f.diff == None && !f.truncated)
      && (cs.tier == Inline <==> |cs.files| <= 3 && TotalAdded(cs.files) + TotalRemoved(cs.files) <= 80)
      && (cs.tier == Count <==> cs.tier != Inline && |cs.files| > 50)
  {
    var fs := AllFiles(rounds);
    var files, paths := MergedFiles(fs), PathsOf(fs);
    SortMembers(files, ByChurn);
    PathsOfMeans(fs);
    forall f | f in files ensures f.diff == None && !f.truncated {
      var i :| 0 <= i < |files| && files[i] == f;
      assert paths[i] in paths;
      MergedBare(fs, paths[i]);
    }
  }

  lemma {:induction false} MergedBare(fs: seq<FileChange>, p: Path)
    ensures RowOf(fs, p).Some? ==> RowOf(fs, p).value.change.diff == None && !RowOf(fs, p).value.change.truncated
  {
    if fs != [] {
      MergedBare(fs[..|fs| - 1], p);
    }
  }

  // ---- conservation ----

  function SumAdded(paths: seq<Path>, fs: seq<FileChange>): int {
    if paths == [] then 0 else AddedAt(fs, paths[0]) + SumAdded(paths[1..], fs)
  }

  function SumRemoved(paths: seq<Path>, fs: seq<FileChange>): int {
    if paths == [] then 0 else RemovedAt(fs, paths[0]) + SumRemoved(paths[1..], fs)
  }

  ghost predicate DistinctSeq(paths: seq<Path>) {
    forall i, j :: 0 <= i < j < |paths| ==> paths[i] != paths[j]
  }

  lemma {:induction false} SumPush(paths: seq<Path>, fs: seq<FileChange>, f: FileChange)
    requires DistinctSeq(paths)
    ensures SumAdded(paths, fs + [f]) == SumAdded(paths, fs) + if f.path in paths then f.added else 0
    ensures SumRemoved(paths, fs + [f]) == SumRemoved(paths, fs) + if f.path in paths then f.removed else 0
  {
    if paths != [] {
      SumPush(paths[1..], fs, f);
      assert (fs + [f])[..|fs|] == fs;
      assert paths == [paths[0]] + paths[1..];
    }
  }

  lemma {:induction false} SumAppend(paths: seq<Path>, p: Path, fs: seq<FileChange>)
    ensures SumAdded(paths + [p], fs) == SumAdded(paths, fs) + AddedAt(fs, p)
    ensures SumRemoved(paths + [p], fs) == SumRemoved(paths, fs) + RemovedAt(fs, p)
  {
    if paths == [] {
      assert [p][1..] == [];
    } else {
      SumAppend(paths[1..], p, fs);
      assert (paths + [p])[1..] == paths[1..] + [p];
    }
  }

  lemma {:induction false} TotalPush(fs: seq<FileChange>, f: FileChange)
    ensures TotalAdded(fs + [f]) == TotalAdded(fs) + f.added
    ensures TotalRemoved(fs + [f]) == TotalRemoved(fs) + f.removed
  {
    if fs == [] {
      assert [f][1..] == [];
    } else {
      TotalPush(fs[1..], f);
      assert (fs + [f])[1..] == fs[1..] + [f];
    }
  }

  lemma {:induction false} SumsAreTotals(fs: seq<FileChange>)
    ensures SumAdded(PathsOf(fs), fs) == TotalAdded(fs)
    ensures SumRemoved(PathsOf(fs), fs) == TotalRemoved(fs)
  {
    if fs != [] {
      var init, f := fs[..|fs| - 1], fs[|fs| - 1];
      assert fs == init + [f];
      SumsAreTotals(init);
      TotalPush(init, f);
      PathsOfMeans(init);
      SumPush(PathsOf(init), init, f);
      if f.path !in PathsOf(init) {
        SumAppend(PathsOf(init), f.path, fs);
        MergedFileMeans(init, f.path);
      }
    }
  }

  lemma {:induction false} MergedTotals(files: seq<FileChange>, paths: seq<Path>, fs: seq<FileChange>)
    requires |files| == |paths|
    requires forall i :: 0 <= i < |paths| ==>
               files[i].added == AddedAt(fs, paths[i]) && files[i].removed == RemovedAt(fs, paths[i])
    ensures TotalAdded(files) == SumAdded(paths, fs)
    ensures TotalRemoved(files) == SumRemoved(paths, fs)
  {
    if files != [] {
      MergedTotals(files[1..], paths[1..], fs);
    }
  }

  lemma {:induction false} MergedRows(fs: seq<FileChange>)
    ensures var files, paths := MergedFiles(fs), PathsOf(fs);
            forall i :: 0 <= i < |paths| ==>
              && files[i].path == paths[i]
              && files[i].added == AddedAt(fs, paths[i]) && files[i].removed == RemovedAt(fs, paths[i])
    ensures DistinctPaths(MergedFiles(fs))
  {
    PathsOfMeans(fs);
    forall i | 0 <= i < |PathsOf(fs)|
      ensures MergedFiles(fs)[i].path == PathsOf(fs)[i]
      ensures MergedFiles(fs)[i].added == AddedAt(fs, PathsOf(fs)[i])
      ensures MergedFiles(fs)[i].removed == RemovedAt(fs, PathsOf(fs)[i])
    {
      assert PathsOf(fs)[i] in PathsOf(fs);
      MergedFileMeans(fs, PathsOf(fs)[i]);
    }
  }

  /** No line counted in a round is lost or counted twice, and the list is ranked, each path once. */
  lemma {:induction false} MergeConserves(rounds: seq<Changeset>)
    ensures TotalAdded(Merged(rounds).files) == TotalAdded(AllFiles(rounds))
    ensures TotalRemoved(Merged(rounds).files) == TotalRemoved(AllFiles(rounds))
    ensures Ranked(Merged(rounds).files)
  {
    var fs := AllFiles(rounds);
    var files := MergedFiles(fs);
    MergedRows(fs);
    MergedTotals(files, PathsOf(fs), fs);
    SumsAreTotals(fs);
    SortTotals(files);
    ByChurnTotal();
    SortSorted(files, ByChurn);
    SortDistinct(files);
  }

  // ---- order of rounds ----

  /** What of a row does not depend on the order of the rounds. */
  datatype Brief = Brief(path: Path, added: int, removed: int)

  function BriefOf(f: FileChange): Brief {
    Brief(f.path, f.added, f.removed)
  }

  function Briefs(files: seq<FileChange>): seq<Brief> {
    seq(|files|, i requires 0 <= i < |files| => BriefOf(files[i]))
  }

  /** The ranking, made strict on briefs. */
  predicate BriefLe(a: Brief, b: Brief) {
    var x, y := a.added + a.removed, b.added + b.removed;
    x > y || (x == y && (if a.path == b.path then a.added <= b.added else StrLe(a.path, b.path)))
  }

  lemma {:induction false} BriefLeOrders()
    ensures TotalPreorder(BriefLe) && Antisymmetric(BriefLe)
  {
    forall a: Brief, b: Brief
      ensures BriefLe(a, b) || BriefLe(b, a)
      ensures BriefLe(a, b) && BriefLe(b, a) ==> a == b
    {
      StrLeTotal(a.path, b.path);
    }
    forall a: Brief, b: Brief, c: Brief | BriefLe(a, b) && BriefLe(b, c)
      ensures BriefLe(a, c)
    {
      if a.added + a.removed == c.added + c.removed {
        BriefLeChain(a, b, c);
      }
    }
  }

  lemma {:induction false} BriefLeChain(a: Brief, b: Brief, c: Brief)
    requires BriefLe(a, b) && BriefLe(b, c)
    requires a.added + a.removed == b.added + b.removed == c.added + c.removed
    ensures BriefLe(a, c)
  {
    StrLeTotal(a.path, b.path);
    StrLeTotal(b.path, c.path);
    if a.path != b.path && b.path != c.path {
      StrLeTransitive(a.path, b.path, c.path);
    }
  }

  lemma {:induction false} RankedBriefs(files: seq<FileChange>)
    requires Ranked(files)
    ensures Sorted(Briefs(files), BriefLe)
  {
    forall i, j | 0 <= i < j < |files|
      ensures BriefLe(Briefs(files)[i], Briefs(files)[j])
    {
      assert ByChurn(files[i], files[j]) && files[i].path != files[j].path;
    }
  }

  // Sums and membership do not see the order of the changes.

  lemma {:induction false} Extract<T>(b: seq<T>, x: T) returns (pre: seq<T>, post: seq<T>)
    requires x in b
    ensures b == pre + [x] + post
    ensures multiset(pre + post) == multiset(b) - multiset{x}
  {
    var k :| 0 <= k < |b| && b[k] == x;
    pre, post := b[..k], b[k + 1..];
    assert b == pre + [x] + post;
  }

  lemma {:induction false} SumsConcat(a: seq<FileChange>, b: seq<FileChange>, p: Path)
    ensures AddedAt(a + b, p) == AddedAt(a, p) + AddedAt(b, p)
    ensures RemovedAt(a + b, p) == RemovedAt(a, p) + RemovedAt(b, p)
  {
    if b == [] {
      assert a + b == a;
    } else {
      SumsConcat(a, b[..|b| - 1], p);
      assert (a + b)[..|a + b| - 1] == a + b[..|b| - 1];
    }
  }

  lemma {:induction false} SumsPermute(a: seq<FileChange>, b: seq<FileChange>, p: Path)
    requires multiset(a) == multiset(b)
    ensures AddedAt(a, p) == AddedAt(b, p) && RemovedAt(a, p) == RemovedAt(b, p)
  {
    if a == [] {
      assert |multiset(b)| == 0;
    } else {
      var init, x := a[..|a| - 1], a[|a| - 1];
      assert a == init + [x];
      assert x in multiset(b);
      var pre, post := Extract(b, x);
      assert multiset(init) == multiset(a) - multiset{x};
      SumsPermute(init, pre + post, p);
      SumsConcat(pre, post, p);
      SumsConcat(pre + [x], post, p);
      SumsConcat(pre, [x], p);
      SumsConcat(init, [x], p);
    }
  }

  lemma {:induction false} AllFilesConcat(a: seq<Changeset>, b: seq<Changeset>)
    ensures AllFiles(a + b) == AllFiles(a) + AllFiles(b)
  {
    if b == [] {
      assert a + b == a;
    } else {
      var init, x := b[..|b| - 1], b[|b| - 1];
      AllFilesConcat(a, init);
      AllFilesPush(a + init, x);
      assert b == init + [x] && a + b == (a + init) + [x];
      Assoc(AllFiles(a), AllFiles(init), x.files);
    }
  }

  lemma {:induction false} Assoc<T>(a: seq<T>, b: seq<T>, c: seq<T>)
    ensures a + b + c == a + (b + c)
  {
  }

  lemma {:induction false} AllFilesPermute(a: seq<Changeset>, b: seq<Changeset>)
    requires multiset(a) == multiset(b)
    ensures multiset(AllFiles(a)) == multiset(AllFiles(b))
  {
    if a == [] {
      assert |multiset(b)| == 0;
    } else {
      var init, x := a[..|a| - 1], a[|a| - 1];
      assert a == init + [x];
      assert x in multiset(b);
      var pre, post := Extract(b, x);
      assert multiset(init) == multiset(a) - multiset{x};
      AllFilesPermute(init, pre + post);
      AllFilesConcat(pre, post);
      AllFilesConcat(pre + [x], post);
      AllFilesPush(pre, x);
      AllFilesPush(init, x);
      MultisetShuffle(AllFiles(pre), x.files, AllFiles(post), AllFiles(init));
    }
  }

  lemma {:induction false} AllFilesPush(rounds: seq<Changeset>, x: Changeset)
    ensures AllFiles(rounds + [x]) == AllFiles(rounds) + x.files
  {
    assert (rounds + [x])[..|rounds|] == rounds;
  }

  lemma {:induction false} MultisetShuffle<T>(pre: seq<T>, mid: seq<T>, post: seq<T>, rest: seq<T>)
    requires multiset(rest) == multiset(pre + post)
    ensures multiset(rest + mid) == multiset((pre + mid) + post)
  {
  }

  /** Which briefs a merged changeset holds: each touched path with its sums. */
  lemma {:induction false} MergedBriefs(rounds: seq<Changeset>, b: Brief)
    ensures var fs := AllFiles(rounds);
            b in Briefs(Merged(rounds).files) <==>
            Lists(fs, b.path) && b == Brief(b.path, AddedAt(fs, b.path), RemovedAt(fs, b.path))
  {
    var fs := AllFiles(rounds);
    var files, paths := MergedFiles(fs), PathsOf(fs);
    MergedRows(fs);
    SortMembers(files, ByChurn);
    PathsOfMeans(fs);
    MergedFileMeans(fs, b.path);
    var sorted := Merged(rounds).files;
    if b in Briefs(sorted) {
      var i :| 0 <= i < |sorted| && Briefs(sorted)[i] == b;
      assert sorted[i] in files;
      var k :| 0 <= k < |files| && files[k] == sorted[i];
      assert paths[k] in paths;
    }
    if Lists(fs, b.path) && b == Brief(b.path, AddedAt(fs, b.path), RemovedAt(fs, b.path)) {
      assert b.path in paths;
      var k :| 0 <= k < |paths| && paths[k] == b.path;
      assert BriefOf(files[k]) == b;
      assert files[k] in sorted;
      var i :| 0 <= i < |sorted| && sorted[i] == files[k];
      assert Briefs(sorted)[i] == b;
    }
  }

  lemma {:induction false} DistinctCounts<T>(xs: seq<T>, x: T)
    requires forall i, j :: 0 <= i < j < |xs| ==> xs[i] != xs[j]
    ensures multiset(xs)[x] == if x in xs then 1 else 0
  {
    if xs != [] {
      DistinctCounts(xs[1..], x);
      assert xs == [xs[0]] + xs[1..];
    }
  }

  lemma {:induction false} SameMembersSameMultiset<T>(xs: seq<T>, ys: seq<T>)
    requires forall i, j :: 0 <= i < j < |xs| ==> xs[i] != xs[j]
    requires forall i, j :: 0 <= i < j < |ys| ==> ys[i] != ys[j]
    requires forall x :: x in xs <==> x in ys
    ensures multiset(xs) == multiset(ys)
  {
    forall x: T
      ensures multiset(xs)[x] == multiset(ys)[x]
    {
      DistinctCounts(xs, x);
      DistinctCounts(ys, x);
    }
  }

  /**
   * In whatever order the rounds come, the merged changeset lists the same paths in the same order
   * with the same counts, at the same tier.
   */
  lemma {:induction false} MergeIgnoresRoundOrder(a: seq<Changeset>, b: seq<Changeset>)
    requires multiset(a) == multiset(b)
    ensures Briefs(Merged(a).files) == Briefs(Merged(b).files)
    ensures Merged(a).tier == Merged(b).tier
  {
    AllFilesPermute(a, b);
    MergeConserves(a);
    MergeConserves(b);
    var x, y := Briefs(Merged(a).files), Briefs(Merged(b).files);
    forall brief: Brief
      ensures brief in x <==> brief in y
    {
      MergedBriefs(a, brief);
      MergedBriefs(b, brief);
      SumsPermute(AllFiles(a), AllFiles(b), brief.path);
      ListsPermute(AllFiles(a), AllFiles(b), brief.path);
    }
    SameMembersSameMultiset(x, y);
    BriefLeOrders();
    RankedBriefs(Merged(a).files);
    RankedBriefs(Merged(b).files);
    OrderDecidesPlaces(x, y, BriefLe);
    BriefTotals(Merged(a).files, Merged(b).files);
  }

  lemma {:induction false} ListsPermute(a: seq<FileChange>, b: seq<FileChange>, p: Path)
    requires multiset(a) == multiset(b)
    ensures Lists(a, p) <==> Lists(b, p)
  {
    forall f: FileChange
      ensures f in a <==> f in b
    {
      assert f in a <==> f in multiset(a);
      assert f in b <==> f in multiset(b);
    }
  }

  lemma {:induction false} BriefTotals(a: seq<FileChange>, b: seq<FileChange>)
    requires Briefs(a) == Briefs(b)
    ensures |a| == |b| && TotalAdded(a) == TotalAdded(b) && TotalRemoved(a) == TotalRemoved(b)
  {
    assert |Briefs(a)| == |a| && |Briefs(b)| == |b|;
    if a != [] {
      assert Briefs(a)[0] == BriefOf(a[0]) && Briefs(b)[0] == BriefOf(b[0]);
      assert Briefs(a[1..]) == Briefs(a)[1..] && Briefs(b[1..]) == Briefs(b)[1..];
      BriefTotals(a[1..], b[1..]);
    }
  }

  /** The status of a row does depend on the order. */
  lemma {:induction false} StatusDependsOnOrder()
    ensures var made := FileChange("f", 1, 0, Added, None, false, false, false, []);
            var gone := made.(added := 0, removed := 1, status := Deleted);
            && RowOf([made, gone], "f").value.change.status == Deleted
            && RowOf([gone, made], "f").value.change.status == Added
  {
    var made := FileChange("f", 1, 0, Added, None, false, false, false, []);
    var gone := made.(added := 0, removed := 1, status := Deleted);
    MergedStatus([made, gone], "f");
    MergedStatus([gone, made], "f");
    assert [made, gone][..1] == [made] && [gone, made][..1] == [gone];
    assert [made][..0] == [] && [gone][..0] == [];
  }
}
