/** What a round's changeset and a session's rollup promise. */
module ChangesetLaws {
  import opened Options
  import opened Journal
  import opened Sorting
  import opened Changesets

  // ---- order ----

  lemma {:induction false} ByChurnTotal()
    ensures TotalPreorder(ByChurn)
  {
    forall a: FileChange, b: FileChange
      ensures ByChurn(a, b) || ByChurn(b, a)
    {
      StrLeTotal(a.path, b.path);
    }
    forall a: FileChange, b: FileChange, c: FileChange | ByChurn(a, b) && ByChurn(b, c)
      ensures ByChurn(a, c)
    {
      if a.Churn() == b.Churn() == c.Churn() {
        StrLeTransitive(a.path, b.path, c.path);
      }
    }
  }

  ghost predicate DistinctPaths(files: seq<FileChange>) {
    forall i, j :: 0 <= i < j < |files| ==> files[i].path != files[j].path
  }

  /** Biggest change first, ties by path, no path twice. */
  ghost predicate Ranked(files: seq<FileChange>) {
    Sorted(files, ByChurn) && DistinctPaths(files)
  }

  lemma {:induction false} SortDistinct(files: seq<FileChange>)
    requires DistinctPaths(files)
    ensures DistinctPaths(Sort(files, ByChurn))
  {
    if files != [] {
      SortDistinct(files[1..]);
      SortMembers(files[1..], ByChurn);
      InsertDistinct(files[0], Sort(files[1..], ByChurn));
    }
  }

  lemma {:induction false} InsertDistinct(f: FileChange, files: seq<FileChange>)
    requires DistinctPaths(files)
    requires forall g :: g in files ==> g.path != f.path
    ensures DistinctPaths(Insert(f, files, ByChurn))
  {
    if files != [] && !ByChurn(f, files[0]) {
      assert files == [files[0]] + files[1..];
      InsertDistinct(f, files[1..]);
      InsertMultiset(f, files[1..], ByChurn);
      var rest := Insert(f, files[1..], ByChurn);
      forall g | g in rest
        ensures g.path != files[0].path
      {
        assert g in multiset(rest);
        assert g == f || g in files[1..];
        assert files[0] in files;
      }
    }
  }

  // ---- totals ----

  lemma {:induction false} InsertTotals(f: FileChange, files: seq<FileChange>)
    ensures TotalAdded(Insert(f, files, ByChurn)) == f.added + TotalAdded(files)
    ensures TotalRemoved(Insert(f, files, ByChurn)) == f.removed + TotalRemoved(files)
  {
    if files == [] || ByChurn(f, files[0]) {
      assert ([f] + files)[1..] == files;
    } else {
      InsertTotals(f, files[1..]);
      var rest := Insert(f, files[1..], ByChurn);
      assert ([files[0]] + rest)[1..] == rest;
    }
  }

  lemma {:induction false} SortTotals(files: seq<FileChange>)
    ensures TotalAdded(Sort(files, ByChurn)) == TotalAdded(files)
    ensures TotalRemoved(Sort(files, ByChurn)) == TotalRemoved(files)
  {
    if files != [] {
      SortTotals(files[1..]);
      InsertTotals(files[0], Sort(files[1..], ByChurn));
    }
  }

  // ---- collecting a round ----

  /** Row `i` is item `i` charged to some remaining budget. */
  lemma {:induction false} RowMeans(items: seq<Item>, limits: Limits, budget: int, i: nat) returns (left: int)
    requires i < |items|
    ensures Rows(items, limits, budget)[i] == Change(items[i], limits, left)
  {
    var f := Change(items[0], limits, budget);
    if i == 0 {
      left := budget;
    } else {
      left := RowMeans(items[1..], limits, budget - Cost(f), i - 1);
    }
  }

  lemma {:induction false} RowsFitBudget(items: seq<Item>, limits: Limits, budget: int)
    ensures budget >= 0 ==> KeptBytes(Rows(items, limits, budget)) <= budget
    ensures budget < 0 ==> KeptBytes(Rows(items, limits, budget)) == 0
  {
    if items != [] {
      var f := Change(items[0], limits, budget);
      var rest := Rows(items[1..], limits, budget - Cost(f));
      RowsFitBudget(items[1..], limits, budget - Cost(f));
      assert ([f] + rest)[1..] == rest;
    }
  }

  lemma {:induction false} InsertKept(f: FileChange, files: seq<FileChange>)
    ensures KeptBytes(Insert(f, files, ByChurn)) == Cost(f) + KeptBytes(files)
  {
    if files == [] || ByChurn(f, files[0]) {
      assert ([f] + files)[1..] == files;
    } else {
      InsertKept(f, files[1..]);
      var rest := Insert(f, files[1..], ByChurn);
      assert ([files[0]] + rest)[1..] == rest;
    }
  }

  lemma {:induction false} SortKept(files: seq<FileChange>)
    ensures KeptBytes(Sort(files, ByChurn)) == KeptBytes(files)
  {
    if files != [] {
      SortKept(files[1..]);
      InsertKept(files[0], Sort(files[1..], ByChurn));
    }
  }

  /** The changeset's rows are the collected rows in another order. */
  lemma {:induction false} CollectedAre(r: Round, differ: Differ, limits: Limits, turn: int)
    ensures forall f :: f in Collected(r, differ, limits, turn).files <==>
                        f in Rows(r.Items(differ), limits, limits.maxTotalBytes)
  {
    SortMembers(Rows(r.Items(differ), limits, limits.maxTotalBytes), ByChurn);
  }

  /** The row the changeset shows for an edited path, whatever budget it met. */
  lemma {:induction false} CollectedRow(r: Round, differ: Differ, limits: Limits, turn: int,
                                        f: FileChange) returns (left: int)
    requires f in Collected(r, differ, limits, turn).files
    ensures f.path in MyPaths(r.window, r.me)
    ensures f == Change(r.ItemFor(f.path, differ), limits, left)
  {
    var items := r.Items(differ);
    var rows := Rows(items, limits, limits.maxTotalBytes);
    CollectedAre(r, differ, limits, turn);
    var i :| 0 <= i < |rows| && rows[i] == f;
    left := RowMeans(items, limits, limits.maxTotalBytes, i);
    assert items[i] == r.ItemFor(MyPaths(r.window, r.me)[i], differ);
  }

  predicate Lists(files: seq<FileChange>, p: Path) {
    exists f :: f in files && f.path == p
  }

  predicate EditedBy(window: seq<Entry>, me: Option<string>, p: Path) {
    exists e :: e in window && e.actor == me && e.path == p
  }

  lemma {:induction false} RowPaths(r: Round, differ: Differ, limits: Limits)
    ensures var rows, paths := Rows(r.Items(differ), limits, limits.maxTotalBytes), MyPaths(r.window, r.me);
            |rows| == |paths| && forall i :: 0 <= i < |rows| ==> rows[i].path == paths[i]
  {
    var items := r.Items(differ);
    forall i | 0 <= i < |items|
      ensures Rows(items, limits, limits.maxTotalBytes)[i].path == MyPaths(r.window, r.me)[i]
    {
      var _ := RowMeans(items, limits, limits.maxTotalBytes, i);
    }
  }

  /** Biggest change first, no path twice. */
  lemma {:induction false} CollectedRanked(r: Round, differ: Differ, limits: Limits, turn: int)
    ensures Ranked(Collected(r, differ, limits, turn).files)
  {
    var rows := Rows(r.Items(differ), limits, limits.maxTotalBytes);
    ByChurnTotal();
    SortSorted(rows, ByChurn);
    RowPaths(r, differ, limits);
    MyPathsMeans(r.window, r.me);
    SortDistinct(rows);
  }

  /** Exactly the paths this actor edited in the window. */
  lemma {:induction false} CollectedPaths(r: Round, differ: Differ, limits: Limits, turn: int, p: Path)
    ensures Lists(Collected(r, differ, limits, turn).files, p) <==> EditedBy(r.window, r.me, p)
  {
    var rows, paths := Rows(r.Items(differ), limits, limits.maxTotalBytes), MyPaths(r.window, r.me);
    CollectedAre(r, differ, limits, turn);
    RowPaths(r, differ, limits);
    MyPathsMeans(r.window, r.me);
    if p in paths {
      var i :| 0 <= i < |paths| && paths[i] == p;
      assert rows[i] in rows;
      assert Lists(Collected(r, differ, limits, turn).files, p);
    }
    if Lists(Collected(r, differ, limits, turn).files, p) {
      var f :| f in rows && f.path == p;
      var i :| 0 <= i < |rows| && rows[i] == f;
      assert paths[i] == p;
    }
  }

  /** Kept diffs fit the round's budget, and each fits the per-file cap. */
  lemma {:induction false} CollectedDiffsFit(r: Round, differ: Differ, limits: Limits, turn: int)
    ensures var files := Collected(r, differ, limits, turn).files;
            && KeptBytes(files) <= (if limits.maxTotalBytes >= 0 then limits.maxTotalBytes else 0)
            && forall f :: f in files && f.diff.Some? ==> f.diff.value.bytes <= limits.maxDiffBytes && !f.truncated
  {
    var rows := Rows(r.Items(differ), limits, limits.maxTotalBytes);
    RowsFitBudget(r.Items(differ), limits, limits.maxTotalBytes);
    SortKept(rows);
    forall f | f in Collected(r, differ, limits, turn).files && f.diff.Some?
      ensures f.diff.value.bytes <= limits.maxDiffBytes && !f.truncated
    {
      var _ := CollectedRow(r, differ, limits, turn, f);
    }
  }

  /**
   * Exactly when a file is flagged as edited by somebody else: another named actor has an entry for
   * it, or it is gone, or its text is not what this actor's last edit is known to have left.
   */
  lemma {:induction false} ForeignIff(r: Round, differ: Differ, limits: Limits, turn: int, f: FileChange)
    requires f in Collected(r, differ, limits, turn).files
    ensures f.path in MyPaths(r.window, r.me)
    ensures var last := r.ItemFor(f.path, differ).lastSha;
            f.foreignEdit <==>
            || (exists e :: e in r.window && e.path == f.path && e.actor.Some? && e.actor != r.me)
            || r.tree(f.path).Gone?
            || (r.tree(f.path).Text? && last.Some? && last != Some(Sha(r.tree(f.path).content)))
  {
    var _ := CollectedRow(r, differ, limits, turn, f);
    OthersOfMeans(r.window, r.me, f.path);
    var others := OthersOf(r.window, r.me, f.path);
    if others != [] {
      assert others[0] in others;
    }
    if exists e :: e in r.window && e.path == f.path && e.actor.Some? && e.actor != r.me {
      var e :| e in r.window && e.path == f.path && e.actor.Some? && e.actor != r.me;
      assert e.actor.value in others;
    }
  }
}
