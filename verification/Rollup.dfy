/** A whole session's changeset: `merge_changesets` and the rollups of core/changeset.py. */
module Rollups {
  import opened Options
  import opened Journal
  import opened Sorting
  import opened Changesets

  // ---- merging rounds ----

  /** A merged file with the status it had when the session first touched it. */
  datatype Row = Row(change: FileChange, first: Status)

  function AddActors(actors: seq<string>, more: seq<string>): seq<string> {
    if more == [] then actors
    else
      var rest, a := AddActors(actors, more[..|more| - 1]), more[|more| - 1];
      if a in rest then rest else rest + [a]
  }

  function Fresh(f: FileChange): Row {
    Row(FileChange(f.path, 0, 0, f.status, None, f.binary, false, false, []), f.status)
  }

  /** Status is measured from the session start, not from the last round. */
  function StatusAfter(first: Status, latest: Status): Status {
    if latest == Deleted then Deleted else if first == Added then Added else latest
  }

  function Absorb(row: Row, f: FileChange): Row {
    var m := row.change;
    row.(change := m.(
      added := m.added + f.added,
      removed := m.removed + f.removed,
      status := StatusAfter(row.first, f.status),
      binary := f.binary,
      foreignEdit := m.foreignEdit || f.foreignEdit,
      foreignActors := if f.foreignEdit then AddActors(m.foreignActors, f.foreignActors) else m.foreignActors))
  }

  /** Everything the session did to one path, oldest first. */
  function RowOf(fs: seq<FileChange>, p: Path): Option<Row> {
    if fs == [] then None
    else
      var rest, f := RowOf(fs[..|fs| - 1], p), fs[|fs| - 1];
      if f.path != p then rest
      else if rest.None? then Some(Absorb(Fresh(f), f))
      else Some(Absorb(rest.value, f))
  }

  /** The paths, in order of first appearance. */
  function PathsOf(fs: seq<FileChange>): seq<Path> {
    if fs == [] then []
    else
      var rest, p := PathsOf(fs[..|fs| - 1]), fs[|fs| - 1].path;
      if p in rest then rest else rest + [p]
  }

  function AllFiles(rounds: seq<Changeset>): seq<FileChange> {
    if rounds == [] then [] else AllFiles(rounds[..|rounds| - 1]) + rounds[|rounds| - 1].files
  }

  lemma {:induction false} PathsOfMeans(fs: seq<FileChange>)
    ensures forall p :: p in PathsOf(fs) <==> RowOf(fs, p).Some?
    ensures forall i, j :: 0 <= i < j < |PathsOf(fs)| ==> PathsOf(fs)[i] != PathsOf(fs)[j]
  {
    if fs != [] {
      PathsOfMeans(fs[..|fs| - 1]);
    }
  }

  function MergedFile(fs: seq<FileChange>, p: Path): FileChange
    requires RowOf(fs, p).Some?
  {
    RowOf(fs, p).value.change
  }

  function MergedFiles(fs: seq<FileChange>): (files: seq<FileChange>)
    ensures |files| == |PathsOf(fs)|
  {
    PathsOfMeans(fs);
    var paths := PathsOf(fs);
    seq(|paths|, i requires 0 <= i < |paths| => assert paths[i] in paths; MergedFile(fs, paths[i]))
  }

  function Merged(rounds: seq<Changeset>): Changeset {
    var files := Sort(MergedFiles(AllFiles(rounds)), ByChurn);
    Changeset(0, files, PickTier(|files|, TotalAdded(files) + TotalRemoved(files), DEFAULT_LIMITS), false)
  }

  /** The rows so far, by path. */
  ghost predicate Tallied(fs: seq<FileChange>, rows: map<Path, Row>) {
    forall p :: RowOf(fs, p) == if p in rows then Some(rows[p]) else None
  }

  method Tally(fs: seq<FileChange>, rows: map<Path, Row>, f: FileChange) returns (rows': map<Path, Row>)
    requires Tallied(fs, rows)
    ensures Tallied(fs + [f], rows')
  {
    var row := if f.path in rows then rows[f.path] else Fresh(f);
    rows' := rows[f.path := Absorb(row, f)];
    assert (fs + [f])[..|fs|] == fs;
  }

  lemma {:induction false} PathsOfPush(fs: seq<FileChange>, f: FileChange)
    ensures PathsOf(fs + [f]) == if f.path in PathsOf(fs) then PathsOf(fs) else PathsOf(fs) + [f.path]
  {
    assert (fs + [f])[..|fs|] == fs;
  }

  /** Both loops of `merge_changesets`, over all rounds' files in turn. */
  method TallyAll(fs: seq<FileChange>) returns (order: seq<Path>, rows: map<Path, Row>)
    ensures order == PathsOf(fs) && Tallied(fs, rows)
  {
    order, rows := [], map[];
    for i := 0 to |fs|
      invariant order == PathsOf(fs[..i])
      invariant Tallied(fs[..i], rows)
    {
      assert fs[..i + 1] == fs[..i] + [fs[i]];
      PathsOfPush(fs[..i], fs[i]);
      PathsOfMeans(fs[..i]);
      if fs[i].path !in rows {
        order := order + [fs[i].path];
      }
      rows := Tally(fs[..i], rows, fs[i]);
    }
    assert fs[..|fs|] == fs;
  }

  method MergeChangesets(rounds: seq<Changeset>) returns (merged: Changeset)
    ensures merged == Merged(rounds)
  {
    var all: seq<FileChange> := [];
    for i := 0 to |rounds|
      invariant all == AllFiles(rounds[..i])
    {
      assert rounds[..i + 1][..i] == rounds[..i];
      all := all + rounds[i].files;
    }
    assert rounds[..|rounds|] == rounds;
    var order, rows := TallyAll(all);
    PathsOfMeans(all);
    var files: seq<FileChange> := [];
    for i := 0 to |order|
      invariant files == MergedFiles(all)[..i]
    {
      assert order[i] in order;
      files := files + [rows[order[i]].change];
    }
    assert files == MergedFiles(all);
    files := Sort(files, ByChurn);
    merged := Changeset(0, files, PickTier(|files|, TotalAdded(files) + TotalRemoved(files), DEFAULT_LIMITS), false);
  }

  // ---- rolling up a session ----

  /** A changeset object: `id` tells objects apart, as `is` does. */
  datatype RoundRef = RoundRef(id: nat, cs: Changeset)

  predicate Empty(r: RoundRef) {
    r.cs.files == []
  }

  function Turns(rounds: seq<RoundRef>): set<int> {
    set r | r in rounds && r.cs.turn != 0 :: r.cs.turn
  }

  function Ids(rounds: seq<RoundRef>): set<nat> {
    set r | r in rounds :: r.id
  }

  /** The incremental rule: skip an empty round, an object seen before, a turn seen before. */
  function Take(rounds: seq<RoundRef>, r: RoundRef): seq<RoundRef> {
    if Empty(r) || r.id in Ids(rounds) || r.cs.turn in Turns(rounds) then rounds
    else rounds + [r]
  }

  function TakeAll(rounds: seq<RoundRef>, more: seq<RoundRef>): seq<RoundRef>
    decreases |more|
  {
    if more == [] then rounds else TakeAll(Take(rounds, more[0]), more[1..])
  }

  /** The batch rule for a live round: skip an empty one or a turn seen before. */
  function Keep(rounds: seq<RoundRef>, r: RoundRef): seq<RoundRef> {
    if Empty(r) || r.cs.turn in Turns(rounds) then rounds else rounds + [r]
  }

  function KeepAll(rounds: seq<RoundRef>, more: seq<RoundRef>): seq<RoundRef>
    decreases |more|
  {
    if more == [] then rounds else KeepAll(Keep(rounds, more[0]), more[1..])
  }

  function Changes(rounds: seq<RoundRef>): seq<Changeset> {
    seq(|rounds|, i requires 0 <= i < |rounds| => rounds[i].cs)
  }

  /** `session_rollup`: the whole log, then the live rounds it does not have yet. */
  method SessionRollup(log: seq<RoundRef>, extra: seq<RoundRef>) returns (merged: Changeset)
    ensures merged == Merged(Changes(KeepAll(log, extra)))
  {
    var rounds := log;
    var seen := Turns(log);
    for i := 0 to |extra|
      invariant KeepAll(rounds, extra[i..]) == KeepAll(log, extra)
      invariant seen == Turns(rounds)
    {
      var r := extra[i];
      assert extra[i..][0] == r && extra[i..][1..] == extra[i + 1..];
      TurnsPush(rounds, r);
      if !Empty(r) && !(r.cs.turn != 0 && r.cs.turn in seen) {
        if r.cs.turn != 0 {
          seen := seen + {r.cs.turn};
        }
        rounds := rounds + [r];
      }
    }
    merged := MergeChangesets(Changes(rounds));
  }

  lemma {:induction false} TurnsPush(rounds: seq<RoundRef>, r: RoundRef)
    ensures Turns(rounds + [r]) == Turns(rounds) + if r.cs.turn != 0 then {r.cs.turn} else {}
    ensures 0 !in Turns(rounds)
  {
  }

  /** A session's rounds, accumulated once and merged on demand. */
  class Rollup {
    var rounds: seq<RoundRef>
    var seen: set<int>
    var loaded: bool

    ghost predicate Valid()
      reads this
    {
      seen == Turns(rounds)
    }

    /** The rounds once the log has been read, at its first use. */
    ghost function Known(log: seq<RoundRef>): seq<RoundRef>
      reads this
    {
      if loaded then rounds else TakeAll(rounds, log)
    }

    constructor ()
      ensures Valid() && rounds == [] && !loaded
    {
      rounds, seen, loaded := [], {}, false;
    }

    method TakeRound(r: RoundRef)
      requires Valid()
      modifies this`rounds, this`seen
      ensures Valid() && rounds == Take(old(rounds), r)
    {
      TurnsPush(rounds, r);
      if Empty(r) || r.id in Ids(rounds) {
        return;
      }
      if r.cs.turn != 0 {
        if r.cs.turn in seen {
          return;
        }
        seen := seen + {r.cs.turn};
      }
      rounds := rounds + [r];
    }

    /** Reads the log exactly once; `log` is what it holds at that moment. */
    method Load(log: seq<RoundRef>)
      requires Valid()
      modifies this
      ensures Valid() && loaded && rounds == old(Known(log))
    {
      if loaded {
        return;
      }
      loaded := true;
      ghost var was := rounds;
      for i := 0 to |log|
        invariant Valid() && loaded
        invariant TakeAll(rounds, log[i..]) == TakeAll(was, log)
      {
        assert log[i..][0] == log[i] && log[i..][1..] == log[i + 1..];
        TakeRound(log[i]);
      }
    }

    method Add(log: seq<RoundRef>, r: RoundRef)
      requires Valid()
      modifies this
      ensures Valid() && loaded && rounds == Take(old(Known(log)), r)
    {
      Load(log);
      TakeRound(r);
    }

    method Total(log: seq<RoundRef>) returns (merged: Changeset)
      requires Valid()
      modifies this
      ensures Valid() && loaded && rounds == old(Known(log))
      ensures merged == Merged(Changes(rounds))
    {
      Load(log);
      merged := MergeChangesets(Changes(rounds));
    }
  }
}
