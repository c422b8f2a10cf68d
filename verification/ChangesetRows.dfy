/** What each row of a round's changeset says, told on the journal window and the tree:
    core/changeset.py. */
module ChangesetRows {
  import opened Options
  import opened Journal
  import opened Sorting
  import opened Changesets
  import opened ChangesetLaws
  import CheckpointStore

  // ---- this actor's edits of a path ----

  predicate Edits(e: Entry, me: Option<string>, p: Path) {
    e.actor == me && e.path == p
  }

  /** This actor edited q before ever editing p. */
  ghost predicate EditedFirst(window: seq<Entry>, me: Option<string>, q: Path, p: Path) {
    exists i :: 0 <= i < |window| && Edits(window[i], me, q) && forall j :: 0 <= j <= i ==> !Edits(window[j], me, p)
  }

  lemma {:induction false} EditedFirstPush(window: seq<Entry>, e: Entry, me: Option<string>, q: Path, p: Path)
    ensures EditedFirst(window + [e], me, q, p) <==>
            EditedFirst(window, me, q, p) ||
            (Edits(e, me, q) && !Edits(e, me, p) && !EditedBy(window, me, p))
  {
    var all := window + [e];
    assert forall i :: 0 <= i < |window| ==> all[i] == window[i];
    if EditedFirst(all, me, q, p) {
      var i :| 0 <= i < |all| && Edits(all[i], me, q) && forall j :: 0 <= j <= i ==> !Edits(all[j], me, p);
      assert i == |window| ==> forall x :: x in window ==> !Edits(x, me, p);
    }
    if Edits(e, me, q) && !Edits(e, me, p) && !EditedBy(window, me, p) {
      forall j | 0 <= j <= |window| ensures !Edits(all[j], me, p) {
        assert j < |window| ==> window[j] in window;
      }
      assert Edits(all[|window|], me, q);
    }
  }

  /** Paths are collected in the order of their first edits. */
  lemma {:induction false} PathsInOrder(window: seq<Entry>, me: Option<string>, i: nat, j: nat)
    requires i < |MyPaths(window, me)| && j < |MyPaths(window, me)|
    ensures EditedFirst(window, me, MyPaths(window, me)[i], MyPaths(window, me)[j]) <==> i < j
  {
    var n := |window| - 1;
    var rest, e := MyPaths(window[..n], me), window[n];
    var paths := MyPaths(window, me);
    assert window == window[..n] + [e];
    MyPathsMeans(window[..n], me);
    EditedFirstPush(window[..n], e, me, paths[i], paths[j]);
    if i < |rest| && j < |rest| {
      PathsInOrder(window[..n], me, i, j);
      assert paths[j] in rest;
    } else if i < |rest| {
      assert paths[i] in rest && paths[j] !in rest;
      OnlyOneEdited(window[..n], me, paths[i], paths[j]);
    } else {
      assert paths[i] !in rest && paths[i] == e.path && e.actor == me;
      assert j < |rest| ==> paths[j] in rest && EditedBy(window[..n], me, paths[j]);
      NotYetEdited(window[..n], me, paths[i], paths[j]);
    }
  }

  lemma {:induction false} OnlyOneEdited(window: seq<Entry>, me: Option<string>, q: Path, p: Path)
    requires EditedBy(window, me, q) && !EditedBy(window, me, p)
    ensures EditedFirst(window, me, q, p)
  {
    var x :| x in window && x.actor == me && x.path == q;
    var i :| 0 <= i < |window| && window[i] == x;
    forall j | 0 <= j <= i ensures !Edits(window[j], me, p) {
      assert window[j] in window;
    }
    assert Edits(window[i], me, q);
  }

  lemma {:induction false} NotYetEdited(window: seq<Entry>, me: Option<string>, q: Path, p: Path)
    requires !EditedBy(window, me, q)
    ensures !EditedFirst(window, me, q, p)
  {
    forall i | 0 <= i < |window| ensures !Edits(window[i], me, q) {
      assert window[i] in window;
    }
  }

  // ---- the budget ----

  /** Bytes of the kept diffs of the paths edited before p. */
  ghost function Spent(files: seq<FileChange>, window: seq<Entry>, me: Option<string>, p: Path): int {
    if files == [] then 0
    else
      (if EditedFirst(window, me, files[0].path, p) && files[0].diff.Some? then files[0].diff.value.bytes else 0)
      + Spent(files[1..], window, me, p)
  }

  lemma {:induction false} InsertSpent(f: FileChange, files: seq<FileChange>, window: seq<Entry>,
                                       me: Option<string>, p: Path)
    ensures Spent(Insert(f, files, ByChurn), window, me, p) == Spent([f], window, me, p) + Spent(files, window, me, p)
  {
    assert [f][1..] == [];
    if files == [] || ByChurn(f, files[0]) {
      assert ([f] + files)[1..] == files;
    } else {
      InsertSpent(f, files[1..], window, me, p);
      var rest := Insert(f, files[1..], ByChurn);
      assert ([files[0]] + rest)[1..] == rest;
    }
  }

  lemma {:induction false} SortSpent(files: seq<FileChange>, window: seq<Entry>, me: Option<string>, p: Path)
    ensures Spent(Sort(files, ByChurn), window, me, p) == Spent(files, window, me, p)
  {
    if files != [] {
      SortSpent(files[1..], window, me, p);
      InsertSpent(files[0], Sort(files[1..], ByChurn), window, me, p);
      assert [files[0]][1..] == [];
    }
  }

  lemma {:induction false} SpentFrom(files: seq<FileChange>, i: nat, k: nat, window: seq<Entry>,
                                     me: Option<string>, p: Path)
    requires i <= k <= |files|
    requires forall j :: i <= j < |files| ==> (EditedFirst(window, me, files[j].path, p) <==> j < k)
    ensures Spent(files[i..], window, me, p) == KeptBytes(files[i..k])
    decreases |files| - i
  {
    if i < |files| {
      assert files[i..][1..] == files[i + 1..];
      if i < k {
        assert files[i..k][1..] == files[i + 1..k];
        SpentFrom(files, i + 1, k, window, me, p);
      } else {
        assert files[i..k] == [];
        SpentFrom(files, i + 1, i + 1, window, me, p) by {
          assert forall j :: i + 1 <= j < |files| ==> !EditedFirst(window, me, files[j].path, p);
        }
      }
    } else {
      assert files[i..] == [] && files[i..k] == [];
    }
  }

  // ---- the rows ----

  /** The i-th row is charged to what the kept diffs before it left of the budget. */
  lemma {:induction false} RowAt(items: seq<Item>, limits: Limits, budget: int, i: nat)
    requires i < |items|
    ensures var rows := Rows(items, limits, budget);
      rows[i] == Change(items[i], limits, budget - KeptBytes(rows[..i]))
  {
    var f := Change(items[0], limits, budget);
    var rest := Rows(items[1..], limits, budget - Cost(f));
    if i > 0 {
      RowAt(items[1..], limits, budget - Cost(f), i - 1);
      KeptCons(f, rest, i - 1);
    }
  }

  lemma {:induction false} KeptCons(f: FileChange, rest: seq<FileChange>, i: nat)
    requires i <= |rest|
    ensures KeptBytes(([f] + rest)[..i + 1]) == Cost(f) + KeptBytes(rest[..i])
  {
    assert ([f] + rest)[..i + 1] == [f] + rest[..i];
    assert ([f] + rest[..i])[1..] == rest[..i];
  }

  lemma {:induction false} OldestFirst(window: seq<Entry>, me: Option<string>, p: Path)
    requires p in MyPaths(window, me)
    ensures var es := Mine(window, me, p);
      && es[0] in window && Edits(es[0], me, p) && es[|es| - 1] in window && Edits(es[|es| - 1], me, p)
      && forall e :: e in window && Edits(e, me, p) ==> es[0].num <= e.num <= es[|es| - 1].num
  {
    var all, es := MineOf(window, me, p), Mine(window, me, p);
    MineOfMeans(window, me, p);
    ByNumTotal();
    SortSorted(all, CheckpointStore.ByNum);
    SortMembers(all, CheckpointStore.ByNum);
    assert es[0] in all && es[|es| - 1] in all;
    forall e | e in window && Edits(e, me, p)
      ensures es[0].num <= e.num <= es[|es| - 1].num
    {
      assert e in es;
      var k :| 0 <= k < |es| && es[k] == e;
      assert k > 0 ==> CheckpointStore.ByNum(es[0], es[k]);
      assert k < |es| - 1 ==> CheckpointStore.ByNum(es[k], es[|es| - 1]);
    }
  }

  lemma {:induction false} ByNumTotal()
    ensures TotalPreorder(CheckpointStore.ByNum)
  {
  }

  /** The text a row is diffed from. */
  function Base(before: Option<Content>): Content {
    match before
    case Some(text) => text
    case None => ""
  }

  /** A file that is text: counts and diff are those of its oldest pre-image against the disk; the diff
      is kept unless it is over the file cap or over what the paths edited before it left. */
  ghost predicate TextRow(f: FileChange, d: Diff, created: bool, limits: Limits, left: int) {
    && f.added == d.added && f.removed == d.removed && !f.binary
    && f.status == (if created then Added else Modified)
    && (f.diff == None || f.diff == Some(d))
    && (f.diff == None <==> d.bytes > limits.maxDiffBytes || d.bytes > left)
    && (f.truncated <==> f.diff == None)
  }

  /** One that is gone or not text: all lines of the pre-image removed, and no diff. */
  ghost predicate BareRow(f: FileChange, lines: nat, status: Status) {
    f.added == 0 && f.removed == lines && f.status == status && f.diff == None && !f.truncated
  }

  /** What a row says of a file's text, by what the tree holds. */
  ghost predicate RowIs(f: FileChange, onDisk: OnDisk, before: Option<Content>, differ: Differ, limits: Limits, left: int) {
    match onDisk
    case Text(now) => TextRow(f, differ.unified(f.path, Base(before), now), before.None?, limits, left)
    case Gone => BareRow(f, differ.lineCount(Base(before)), Deleted) && !f.binary
    case Binary => BareRow(f, differ.lineCount(Base(before)), Modified) && f.binary
  }

  lemma {:induction false} ChangeReads(p: Path, before: Option<Content>, lastSha: Option<Digest>,
                                       others: seq<string>,
                    onDisk: OnDisk, differ: Differ, limits: Limits, left: int)
    ensures var f := Change(MakeItem(p, before, lastSha, others, onDisk, differ), limits, left);
      && f.path == p && f.foreignActors == others && RowIs(f, onDisk, before, differ, limits, left)
      && (f.foreignEdit <==>
            || others != [] || onDisk.Gone?
            || (onDisk.Text? && lastSha.Some? && lastSha != Some(Sha(onDisk.content))))
  {
  }

  /** Row i belongs to the i-th edited path. */
  lemma {:induction false} ItemOfRow(r: Round, differ: Differ, limits: Limits, i: nat)
    requires i < |r.Items(differ)|
    ensures var rows := Rows(r.Items(differ), limits, limits.maxTotalBytes);
      rows[i].path in MyPaths(r.window, r.me) && r.Items(differ)[i] == r.ItemFor(rows[i].path, differ)
  {
    RowPaths(r, differ, limits);
    ItemAt(r, differ, i);
  }

  lemma {:induction false} RowIndex(r: Round, differ: Differ, limits: Limits, turn: int,
                                    f: FileChange) returns (i: nat)
    requires f in Collected(r, differ, limits, turn).files
    ensures i < |r.Items(differ)| && Rows(r.Items(differ), limits, limits.maxTotalBytes)[i] == f
  {
    CollectedAre(r, differ, limits, turn);
    var rows := Rows(r.Items(differ), limits, limits.maxTotalBytes);
    i :| 0 <= i < |rows| && rows[i] == f;
  }

  lemma {:induction false} RowPlace(r: Round, differ: Differ, limits: Limits, turn: int, f: FileChange)
    returns (items: seq<Item>, i: nat)
    requires f in Collected(r, differ, limits, turn).files
    ensures i < |items| && Rows(items, limits, limits.maxTotalBytes)[i] == f
    ensures f.path in MyPaths(r.window, r.me) && items[i] == r.ItemFor(f.path, differ)
    ensures KeptBytes(Rows(items, limits, limits.maxTotalBytes)[..i]) ==
            Spent(Collected(r, differ, limits, turn).files, r.window, r.me, f.path)
  {
    items := r.Items(differ);
    i := RowIndex(r, differ, limits, turn, f);
    ItemOfRow(r, differ, limits, i);
    BudgetLeft(r, differ, limits, turn, i);
  }

  /** The row of an item somewhere in the list. */
  lemma {:induction false} RowOfItem(items: seq<Item>, i: nat, limits: Limits, f: FileChange, p: Path,
                                     before: Option<Content>,
                                     lastSha: Option<Digest>, others: seq<string>, onDisk: OnDisk, differ: Differ)
    requires i < |items| && items[i] == MakeItem(p, before, lastSha, others, onDisk, differ)
    requires Rows(items, limits, limits.maxTotalBytes)[i] == f
    ensures f.path == p && f.foreignActors == others
    ensures RowIs(f, onDisk, before, differ, limits,
                  limits.maxTotalBytes - KeptBytes(Rows(items, limits, limits.maxTotalBytes)[..i]))
    ensures f.foreignEdit <==>
            || others != [] || onDisk.Gone?
            || (onDisk.Text? && lastSha.Some? && lastSha != Some(Sha(onDisk.content)))
  {
    var left := limits.maxTotalBytes - KeptBytes(Rows(items, limits, limits.maxTotalBytes)[..i]);
    RowAt(items, limits, limits.maxTotalBytes, i);
    ChangeReads(p, before, lastSha, others, onDisk, differ, limits, left);
  }

  /** Whose entries a path's item is made of. */
  lemma {:induction false} ItemIs(r: Round, differ: Differ, p: Path) returns (first: Entry, last: Entry,
                                  others: seq<string>)
    requires p in MyPaths(r.window, r.me)
    ensures r.ItemFor(p, differ) == MakeItem(p, first.before, last.afterSha, others, r.tree(p), differ)
    ensures first in r.window && last in r.window && Edits(first, r.me, p) && Edits(last, r.me, p)
    ensures forall e :: e in r.window && Edits(e, r.me, p) ==> first.num <= e.num <= last.num
    ensures forall a :: a in others <==>
              exists e :: e in r.window && e.path == p && e.actor == Some(a) && e.actor != r.me
  {
    var es := Mine(r.window, r.me, p);
    OldestFirst(r.window, r.me, p);
    OthersOfMeans(r.window, r.me, p);
    first, last, others := es[0], es[|es| - 1], OthersOf(r.window, r.me, p);
  }

  /** Every row of the changeset, without the functions that make it; `left` is what the kept diffs of
      the paths edited before it left of the budget. */
  lemma {:induction false} RowReads(r: Round, differ: Differ, limits: Limits, turn: int, f: FileChange)
    returns (first: Entry, last: Entry, left: int)
    requires f in Collected(r, differ, limits, turn).files
    ensures first in r.window && last in r.window && Edits(first, r.me, f.path) && Edits(last, r.me, f.path)
    ensures forall e :: e in r.window && Edits(e, r.me, f.path) ==> first.num <= e.num <= last.num
    ensures left == limits.maxTotalBytes - Spent(Collected(r, differ, limits, turn).files, r.window, r.me, f.path)
    ensures RowIs(f, r.tree(f.path), first.before, differ, limits, left)
    ensures f.foreignEdit <==>
            || f.foreignActors != [] || r.tree(f.path).Gone?
            || (r.tree(f.path).Text? && last.afterSha.Some? && last.afterSha != Some(Sha(r.tree(f.path).content)))
    ensures forall a :: a in f.foreignActors <==>
              exists e :: e in r.window && e.path == f.path && e.actor == Some(a) && e.actor != r.me
  {
    var items, i := RowPlace(r, differ, limits, turn, f);
    var others;
    first, last, others := ItemIs(r, differ, f.path);
    RowOfItem(items, i, limits, f, f.path, first.before, last.afterSha, others, r.tree(f.path), differ);
    left := limits.maxTotalBytes - KeptBytes(Rows(items, limits, limits.maxTotalBytes)[..i]);
  }

  lemma {:induction false} BudgetLeft(r: Round, differ: Differ, limits: Limits, turn: int, i: nat)
    requires i < |Rows(r.Items(differ), limits, limits.maxTotalBytes)|
    ensures var rows := Rows(r.Items(differ), limits, limits.maxTotalBytes);
      Spent(Collected(r, differ, limits, turn).files, r.window, r.me, rows[i].path) == KeptBytes(rows[..i])
  {
    var rows, paths := Rows(r.Items(differ), limits, limits.maxTotalBytes), MyPaths(r.window, r.me);
    RowPaths(r, differ, limits);
    SortSpent(rows, r.window, r.me, rows[i].path);
    forall j | 0 <= j < |rows|
      ensures EditedFirst(r.window, r.me, rows[j].path, rows[i].path) <==> j < i
    {
      PathsInOrder(r.window, r.me, j, i);
    }
    SpentFrom(rows, 0, i, r.window, r.me, rows[i].path);
    assert rows[0..] == rows && rows[0..i] == rows[..i];
  }

  // ---- the whole ----

  function Lines(files: seq<FileChange>): int {
    if files == [] then 0 else files[0].added + files[0].removed + Lines(files[1..])
  }

  lemma {:induction false} LinesAreTotals(files: seq<FileChange>)
    ensures Lines(files) == TotalAdded(files) + TotalRemoved(files)
  {
    if files != [] {
      LinesAreTotals(files[1..]);
    }
  }

  lemma {:induction false} AnyTruncatedMeans(files: seq<FileChange>)
    ensures AnyTruncated(files) <==> exists f :: f in files && f.truncated
  {
    if files != [] {
      AnyTruncatedMeans(files[1..]);
      assert files == [files[0]] + files[1..];
    }
  }

  /** The tier: inline up to so many files and lines, listed up to so many files, else counted. */
  lemma {:induction false} WholeReads(r: Round, differ: Differ, limits: Limits, turn: int)
    ensures var cs := Collected(r, differ, limits, turn);
      && cs.turn == turn && (cs.truncated <==> exists f :: f in cs.files && f.truncated)
      && (cs.tier == Inline <==> |cs.files| <= limits.inlineMaxFiles && Lines(cs.files) <= limits.inlineMaxLines)
      && (cs.tier == Count <==> cs.tier != Inline && |cs.files| > limits.listMaxFiles)
  {
    var rows := Rows(r.Items(differ), limits, limits.maxTotalBytes);
    CollectedAre(r, differ, limits, turn);
    LinesAreTotals(Collected(r, differ, limits, turn).files);
    AnyTruncatedMeans(rows);
  }
}
