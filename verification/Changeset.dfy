/** What a round changed: core/changeset.py over the edit journal. */
module Changesets {
  import opened Options
  import opened Journal
  import opened Sorting
  import CheckpointStore

  datatype Status = Added | Modified | Deleted

  datatype Tier = Inline | List | Count

  /** A unified diff with its size in bytes and the line counts read off it. */
  datatype Diff = Diff(text: string, bytes: nat, added: nat, removed: nat)

  /** What a path holds on disk when the round ends. */
  datatype OnDisk = Gone | Binary | Text(content: Content)

  datatype FileChange = FileChange(
    path: Path,
    added: int,
    removed: int,
    status: Status,
    diff: Option<Diff>,
    binary: bool,
    truncated: bool,
    foreignEdit: bool,
    foreignActors: seq<string>)
  {
    function Churn(): int {
      added + removed
    }
  }

  datatype Changeset = Changeset(turn: int, files: seq<FileChange>, tier: Tier, truncated: bool)

  datatype Limits = Limits(
    inlineMaxFiles: int,
    inlineMaxLines: int,
    listMaxFiles: int,
    maxDiffBytes: int,
    maxTotalBytes: int)

  const DEFAULT_LIMITS := Limits(3, 80, 50, 262144, 4194304)

  function PickTier(fileCount: int, churn: int, limits: Limits): Tier {
    if fileCount <= limits.inlineMaxFiles && churn <= limits.inlineMaxLines then Inline
    else if fileCount <= limits.listMaxFiles then List
    else Count
  }

  /** Biggest change first, then by path. */
  predicate ByChurn(a: FileChange, b: FileChange) {
    a.Churn() > b.Churn() || (a.Churn() == b.Churn() && StrLe(a.path, b.path))
  }

  function TotalAdded(files: seq<FileChange>): int {
    if files == [] then 0 else files[0].added + TotalAdded(files[1..])
  }

  function TotalRemoved(files: seq<FileChange>): int {
    if files == [] then 0 else files[0].removed + TotalRemoved(files[1..])
  }

  // ---- collecting one round ----

  /** This actor's entries for one path, oldest first. */
  function MineOf(window: seq<Entry>, me: Option<string>, p: Path): seq<Entry> {
    if window == [] then []
    else
      var rest, e := MineOf(window[..|window| - 1], me, p), window[|window| - 1];
      if e.path == p && e.actor == me then rest + [e] else rest
  }

  /** The paths this actor edited, in order of first edit. */
  function MyPaths(window: seq<Entry>, me: Option<string>): seq<Path> {
    if window == [] then []
    else
      var rest, e := MyPaths(window[..|window| - 1], me), window[|window| - 1];
      if e.actor == me && e.path !in rest then rest + [e.path] else rest
  }

  /** The other named actors who edited a path. */
  function OthersOf(window: seq<Entry>, me: Option<string>, p: Path): seq<string> {
    if window == [] then []
    else
      var rest, e := OthersOf(window[..|window| - 1], me, p), window[|window| - 1];
      if e.path == p && e.actor != me && e.actor.Some? && e.actor.value !in rest then rest + [e.actor.value] else rest
  }

  /** Somebody else touched the file: another actor in the window, or a write after our last one. */
  predicate Foreign(onDisk: OnDisk, lastSha: Option<Digest>, others: seq<string>) {
    || others != []
    || onDisk.Gone?
    || (onDisk.Text? && lastSha.Some? && Sha(onDisk.content) != lastSha.value)
  }

  function OrEmpty(c: Option<Content>): Content {
    if c.Some? then c.value else ""
  }

  /** What the collector knows about one edited path. */
  datatype Item = Item(
    path: Path,
    before: Option<Content>,      // pre-image of this actor's first edit in the window
    lastSha: Option<Digest>,      // what this actor's last edit left, when known
    others: seq<string>,
    onDisk: OnDisk,
    diff: Diff,                   // from that pre-image to what is on disk, when that is text
    lines: nat)                   // in that pre-image

  /** Text functions taken as given: the unified diff, and the number of lines. */
  datatype Differ = Differ(unified: (Path, Content, Content) -> Diff, lineCount: Content -> nat)

  function MakeItem(p: Path, before: Option<Content>, lastSha: Option<Digest>, others: seq<string>,
                    onDisk: OnDisk, differ: Differ): Item {
    var base := OrEmpty(before);
    Item(p, before, lastSha, others, onDisk,
         differ.unified(p, base, if onDisk.Text? then onDisk.content else ""), differ.lineCount(base))
  }

  /** One row of the changeset, with the diff budget left before it. */
  function Change(item: Item, limits: Limits, budget: int): FileChange {
    var foreign := Foreign(item.onDisk, item.lastSha, item.others);
    match item.onDisk
    case Gone =>
      FileChange(item.path, 0, item.lines, Deleted, None, false, false, foreign, item.others)
    case Binary =>
      FileChange(item.path, 0, item.lines, Modified, None, true, false, foreign, item.others)
    case Text(_) =>
      var d := item.diff;
      var over := d.bytes > limits.maxDiffBytes || d.bytes > budget;
      FileChange(item.path, d.added, d.removed, if item.before.None? then Added else Modified,
                 if over then None else Some(d), false, over, foreign, item.others)
  }

  function Cost(f: FileChange): nat {
    if f.diff.Some? then f.diff.value.bytes else 0
  }

  predicate AnyTruncated(files: seq<FileChange>) {
    files != [] && (files[0].truncated || AnyTruncated(files[1..]))
  }

  function KeptBytes(files: seq<FileChange>): nat {
    if files == [] then 0 else Cost(files[0]) + KeptBytes(files[1..])
  }

  /** One row per item; a kept diff leaves less of the budget to the rows after it. */
  function Rows(items: seq<Item>, limits: Limits, budget: int): (rows: seq<FileChange>)
    ensures |rows| == |items|
  {
    if items == [] then []
    else
      var f := Change(items[0], limits, budget);
      [f] + Rows(items[1..], limits, budget - Cost(f))
  }

  lemma {:induction false} MyPathsMeans(window: seq<Entry>, me: Option<string>)
    ensures forall p :: p in MyPaths(window, me) <==> exists e :: e in window && e.actor == me && e.path == p
    ensures forall i, j :: 0 <= i < j < |MyPaths(window, me)| ==> MyPaths(window, me)[i] != MyPaths(window, me)[j]
  {
    if window != [] {
      var n := |window| - 1;
      MyPathsMeans(window[..n], me);
      assert window == window[..n] + [window[n]];
    }
  }

  lemma {:induction false} MineOfMeans(window: seq<Entry>, me: Option<string>, p: Path)
    ensures forall e :: e in MineOf(window, me, p) <==> e in window && e.actor == me && e.path == p
    ensures MineOf(window, me, p) != [] <==> p in MyPaths(window, me)
  {
    if window != [] {
      var n := |window| - 1;
      MineOfMeans(window[..n], me, p);
      assert window == window[..n] + [window[n]];
    }
  }

  lemma {:induction false} OthersOfMeans(window: seq<Entry>, me: Option<string>, p: Path)
    ensures forall a :: a in OthersOf(window, me, p) <==>
                        exists e :: e in window && e.path == p && e.actor == Some(a) && e.actor != me
  {
    if window != [] {
      var n := |window| - 1;
      OthersOfMeans(window[..n], me, p);
      assert window == window[..n] + [window[n]];
    }
  }

  function Mine(window: seq<Entry>, me: Option<string>, p: Path): (entries: seq<Entry>)
    ensures p in MyPaths(window, me) ==> entries != []
  {
    MineOfMeans(window, me, p);
    SortMultiset(MineOf(window, me, p), CheckpointStore.ByNum);
    Sort(MineOf(window, me, p), CheckpointStore.ByNum)
  }

  /** The round as the collector sees it: the journal window, the actor, the tree. */
  datatype Round = Round(window: seq<Entry>, me: Option<string>, tree: Path -> OnDisk)
  {
    function ItemFor(p: Path, differ: Differ): Item
      requires p in MyPaths(window, me)
    {
      var entries := Mine(window, me, p);
      MakeItem(p, entries[0].before, entries[|entries| - 1].afterSha, OthersOf(window, me, p), tree(p), differ)
    }

    function Items(differ: Differ): seq<Item> {
      var paths := MyPaths(window, me);
      seq(|paths|, i requires 0 <= i < |paths| => ItemFor(paths[i], differ))
    }
  }

  function Collected(r: Round, differ: Differ, limits: Limits, turn: int): Changeset {
    var rows := Rows(r.Items(differ), limits, limits.maxTotalBytes);
    var files := Sort(rows, ByChurn);
    Changeset(turn, files, PickTier(|files|, TotalAdded(files) + TotalRemoved(files), limits),
              AnyTruncated(rows))
  }

  function Lookup<T>(m: map<Path, seq<T>>, p: Path): seq<T> {
    if p in m then m[p] else []
  }

  lemma {:induction false} AttributeStep(window: seq<Entry>, e: Entry, me: Option<string>, p: Path)
    ensures MineOf(window + [e], me, p) ==
            if e.path == p && e.actor == me then MineOf(window, me, p) + [e] else MineOf(window, me, p)
    ensures var so := OthersOf(window, me, p);
            OthersOf(window + [e], me, p) ==
            if e.path == p && e.actor != me && e.actor.Some? && e.actor.value !in so then so + [e.actor.value] else so
  {
    assert (window + [e])[..|window|] == window;
  }

  lemma {:induction false} MyPathsPush(window: seq<Entry>, e: Entry, me: Option<string>)
    ensures var rest := MyPaths(window, me);
            MyPaths(window + [e], me) == if e.actor == me && e.path !in rest then rest + [e.path] else rest
  {
    assert (window + [e])[..|window|] == window;
  }

  ghost predicate Filed(window: seq<Entry>, me: Option<string>,
                        mine: map<Path, seq<Entry>>, others: map<Path, seq<string>>) {
    forall p ::
      Lookup(mine, p) == MineOf(window, me, p) && Lookup(others, p) == OthersOf(window, me, p)
  }

  /** One journal entry, filed under its path as ours or as somebody else's. */
  method File(window: seq<Entry>, e: Entry, me: Option<string>, mine: map<Path, seq<Entry>>, others: map<Path, seq<string>>)
    returns (mine': map<Path, seq<Entry>>, others': map<Path, seq<string>>)
    requires Filed(window, me, mine, others)
    ensures Filed(window + [e], me, mine', others')
    ensures mine'.Keys == if e.actor == me then mine.Keys + {e.path} else mine.Keys
  {
    mine', others' := mine, others;
    if e.actor == me {
      mine' := mine[e.path := Lookup(mine, e.path) + [e]];
    } else if e.actor.Some? {
      var so := Lookup(others, e.path);
      if e.actor.value !in so {
        others' := others[e.path := so + [e.actor.value]];
      }
    }
    forall p: Path
      ensures Lookup(mine', p) == MineOf(window + [e], me, p)
      ensures Lookup(others', p) == OthersOf(window + [e], me, p)
    {
      AttributeStep(window, e, me, p);
    }
  }

  /** Whose edit was this: the first loop of `collect`. */
  method Attribute(window: seq<Entry>, me: Option<string>)
    returns (order: seq<Path>, mine: map<Path, seq<Entry>>, others: map<Path, seq<string>>)
    ensures order == MyPaths(window, me)
    ensures Filed(window, me, mine, others)
  {
    order, mine, others := [], map[], map[];
    for i := 0 to |window|
      invariant order == MyPaths(window[..i], me)
      invariant mine.Keys == set p | p in order
      invariant Filed(window[..i], me, mine, others)
    {
      var e := window[i];
      assert window[..i + 1] == window[..i] + [e];
      MyPathsPush(window[..i], e, me);
      if e.actor == me && e.path !in mine {
        order := order + [e.path];
      }
      mine, others := File(window[..i], e, me, mine, others);
    }
    assert window[..|window|] == window;
  }

  /** One file of the second loop: flags first, then the diff against what is left of the budget. */
  method Describe(item: Item, limits: Limits, budget: int) returns (f: FileChange, left: int)
    ensures f == Change(item, limits, budget)
    ensures left == budget - Cost(f)
  {
    left := budget;
    f := FileChange(item.path, 0, 0, Modified, None, item.onDisk.Binary?, false, false, item.others);
    if item.onDisk.Text? && item.lastSha.Some? {
      f := f.(foreignEdit := Sha(item.onDisk.content) != item.lastSha.value);
    } else if item.onDisk.Gone? {
      f := f.(foreignEdit := true);
    }
    if item.others != [] {
      f := f.(foreignEdit := true);
    }
    if !item.onDisk.Text? {
      f := f.(status := if item.onDisk.Gone? then Deleted else Modified,
              removed := item.lines);
      return;
    }
    if item.before.None? {
      f := f.(status := Added);
    }
    var d := item.diff;
    f := f.(added := d.added, removed := d.removed);
    if d.bytes > limits.maxDiffBytes || d.bytes > budget {
      f := f.(truncated := true);
    } else {
      f := f.(diff := Some(d));
      left := budget - d.bytes;
    }
  }

  lemma {:induction false} RowsStep(items: seq<Item>, i: nat, limits: Limits, budget: int)
    requires i < |items|
    ensures var f := Change(items[i], limits, budget);
            Rows(items[i..], limits, budget) == [f] + Rows(items[i + 1..], limits, budget - Cost(f))
  {
    assert items[i..][1..] == items[i + 1..];
  }

  lemma {:induction false} TruncatedPush(files: seq<FileChange>, f: FileChange)
    ensures AnyTruncated(files + [f]) == (AnyTruncated(files) || f.truncated)
  {
    if files != [] {
      TruncatedPush(files[1..], f);
      assert (files + [f])[1..] == files[1..] + [f];
    }
  }

  lemma {:induction false} Shift(all: seq<FileChange>, done: seq<FileChange>, f: FileChange,
                                 rest: seq<FileChange>)
    requires all == done + ([f] + rest)
    ensures all == (done + [f]) + rest
  {
  }

  /** The second loop of `collect`. */
  method CollectRows(items: seq<Item>, limits: Limits)
    returns (files: seq<FileChange>, truncated: bool)
    ensures files == Rows(items, limits, limits.maxTotalBytes)
    ensures truncated == AnyTruncated(files)
  {
    files, truncated := [], false;
    var budget := limits.maxTotalBytes;
    ghost var all := Rows(items, limits, budget);
    ghost var rest := all;
    for i := 0 to |items|
      invariant rest == Rows(items[i..], limits, budget)
      invariant all == files + rest
      invariant truncated == AnyTruncated(files)
    {
      RowsStep(items, i, limits, budget);
      var f, left := Describe(items[i], limits, budget);
      TruncatedPush(files, f);
      rest := Rows(items[i + 1..], limits, left);
      Shift(all, files, f, rest);
      truncated := truncated || f.truncated;
      files, budget := files + [f], left;
    }
  }

  /** Read each edited path once, after all of the journal window was attributed. */
  lemma {:induction false} ItemAt(r: Round, differ: Differ, i: nat)
    requires i < |MyPaths(r.window, r.me)|
    ensures |r.Items(differ)| == |MyPaths(r.window, r.me)|
    ensures r.Items(differ)[i] == r.ItemFor(MyPaths(r.window, r.me)[i], differ)
    ensures r.Items(differ)[..i + 1] == r.Items(differ)[..i] + [r.ItemFor(MyPaths(r.window, r.me)[i], differ)]
  {
  }

  method Inspect(r: Round, differ: Differ) returns (items: seq<Item>)
    ensures items == r.Items(differ)
  {
    var order, mine, others := Attribute(r.window, r.me);
    items := [];
    for i := 0 to |order|
      invariant items == r.Items(differ)[..i]
    {
      var p := order[i];
      var entries := Sort(Lookup(mine, p), CheckpointStore.ByNum);
      assert entries == Mine(r.window, r.me, p);
      var item := MakeItem(p, entries[0].before, entries[|entries| - 1].afterSha, Lookup(others, p), r.tree(p), differ);
      ItemAt(r, differ, i);
      items := items + [item];
    }
  }

  method Collect(r: Round, differ: Differ, limits: Limits, turn: int) returns (cs: Changeset)
    ensures cs == Collected(r, differ, limits, turn)
  {
    var items := Inspect(r, differ);
    var files, truncated := CollectRows(items, limits);
    files := Sort(files, ByChurn);
    cs := Changeset(turn, files, PickTier(|files|, TotalAdded(files) + TotalRemoved(files), limits), truncated);
  }
}
