/**
 * The write-through disk mirror of core/checkpoint_store.py: journal lines, marker list and
 * content-addressed pre-image blobs.
 */
module CheckpointStore {
  import opened Options
  import opened Journal
  import opened Sorting

  /** One line of journal.jsonl. */
  datatype Record = Record(
    num: nat,
    path: Path,
    ts: Option<real>,
    blob: Option<Digest>,
    actor: Option<string>,
    afterSha: Option<Digest>,
    pinned: Option<string>)

  /** `Junk` is a line that does not decode, or lacks a sequence number or a path. */
  datatype Line = Junk | Good(record: Record)

  datatype Disk = Disk(lines: seq<Line>, markers: seq<Checkpoint>, blobs: map<Digest, Content>)

  const SECONDS_PER_DAY := 86400.0

  // ---- writing ----

  /** `entry.get("ts") or time.time()`: zero counts as missing. */
  function Stamp(ts: Option<real>, now: real): real {
    if ts.Some? && ts.value != 0.0 then ts.value else now
  }

  function RecordOf(e: Entry, now: real): Record {
    Record(e.num, e.path, Some(Stamp(e.ts, now)), ShaOf(e.before), e.actor, e.afterSha, e.pinned)
  }

  function StoreBlob(blobs: map<Digest, Content>, before: Option<Content>): map<Digest, Content> {
    match before
    case None => blobs
    case Some(text) => if Sha(text) in blobs then blobs else blobs[Sha(text) := text]
  }

  function StoreBlobs(blobs: map<Digest, Content>, journal: seq<Entry>): map<Digest, Content> {
    if journal == [] then blobs
    else
      var n := |journal| - 1;
      StoreBlob(StoreBlobs(blobs, journal[..n]), journal[n].before)
  }

  function LinesOf(journal: seq<Entry>, now: real): (lines: seq<Line>)
    ensures |lines| == |journal|
  {
    seq(|journal|, i requires 0 <= i < |journal| => Good(RecordOf(journal[i], now)))
  }

  function Appended(d: Disk, e: Entry, now: real): Disk {
    d.(blobs := StoreBlob(d.blobs, e.before), lines := d.lines + [Good(RecordOf(e, now))])
  }

  function Rewritten(d: Disk, journal: seq<Entry>, now: real): Disk {
    d.(blobs := StoreBlobs(d.blobs, journal), lines := LinesOf(journal, now))
  }

  // ---- reading ----

  /** An entry that cannot be restored is dropped rather than kept as a lie. */
  function Decode(blobs: map<Digest, Content>, line: Line): Option<Entry> {
    match line
    case Junk => None
    case Good(r) =>
      if r.blob.None? then Some(Entry(r.num, r.path, None, r.ts, r.actor, None, r.afterSha, r.pinned))
      else if r.blob.value in blobs then
        Some(Entry(r.num, r.path, Some(blobs[r.blob.value]), r.ts, r.actor, r.blob, r.afterSha, r.pinned))
      else None
  }

  function DecodeAll(blobs: map<Digest, Content>, lines: seq<Line>): seq<Entry> {
    if lines == [] then []
    else
      var n := |lines| - 1;
      var rest := DecodeAll(blobs, lines[..n]);
      var e := Decode(blobs, lines[n]);
      if e.Some? then rest + [e.value] else rest
  }

  predicate ByNum(a: Entry, b: Entry) {
    a.num <= b.num
  }

  function LoadJournal(d: Disk): seq<Entry> {
    Sort(DecodeAll(d.blobs, d.lines), ByNum)
  }

  /** Marker items without an id are dropped. */
  function LoadMarkers(markers: seq<Checkpoint>): seq<Checkpoint> {
    if markers == [] then []
    else
      var n := |markers| - 1;
      var rest := LoadMarkers(markers[..n]);
      if markers[n].id != "" then rest + [markers[n]] else rest
  }

  // ---- pruning ----

  /** `float(e.get("ts") or 0)` */
  function Age(e: Entry): real {
    if e.ts.Some? then e.ts.value else 0.0
  }

  function Younger(journal: seq<Entry>, cutoff: real): seq<Entry> {
    if journal == [] then []
    else
      var n := |journal| - 1;
      var rest := Younger(journal[..n], cutoff);
      if Age(journal[n]) >= cutoff then rest + [journal[n]] else rest
  }

  function MarkersFrom(markers: seq<Checkpoint>, least: int): seq<Checkpoint> {
    if markers == [] then []
    else
      var n := |markers| - 1;
      var rest := MarkersFrom(markers[..n], least);
      if markers[n].mark >= least then rest + [markers[n]] else rest
  }

  function Survivors(d: Disk, maxAgeDays: real, now: real): seq<Entry> {
    if maxAgeDays > 0.0 then Younger(LoadJournal(d), now - maxAgeDays * SECONDS_PER_DAY)
    else LoadJournal(d)
  }

  /** The disk once old entries, and the markers whose window they were, are gone. */
  function Aged(d: Disk, maxAgeDays: real, now: real): Disk {
    var kept := Survivors(d, maxAgeDays, now);
    if |kept| == |LoadJournal(d)| then d
    else
      Rewritten(d, kept, now).(
        markers := if kept == [] then [] else MarkersFrom(LoadMarkers(d.markers), kept[0].num - 1))
  }

  function Referenced(journal: seq<Entry>): set<Digest> {
    set e | e in journal && e.before.Some? :: Sha(e.before.value)
  }

  function Collected(blobs: map<Digest, Content>, referenced: set<Digest>): map<Digest, Content> {
    map d | d in blobs && d in referenced :: blobs[d]
  }

  function Pruned(d: Disk, maxAgeDays: real, now: real): Disk {
    var aged := Aged(d, maxAgeDays, now);
    aged.(blobs := Collected(aged.blobs, Referenced(Survivors(d, maxAgeDays, now))))
  }

  // ---- the store itself ----

  class Store {
    var lines: seq<Line>
    var markers: seq<Checkpoint>
    var blobs: map<Digest, Content>

    ghost function Contents(): Disk
      reads this
    {
      Disk(lines, markers, blobs)
    }

    constructor ()
      ensures Contents() == Disk([], [], map[])
    {
      lines, markers, blobs := [], [], map[];
    }

    /** Identical pre-images collapse to one blob. */
    method WriteBlob(content: Content) returns (digest: Digest)
      modifies this`blobs
      ensures digest == Sha(content)
      ensures blobs == StoreBlob(old(blobs), Some(content))
    {
      digest := Sha(content);
      if digest !in blobs {
        blobs := blobs[digest := content];
      }
    }

    method ReadBlob(digest: Digest) returns (content: Option<Content>)
      ensures content == if digest in blobs then Some(blobs[digest]) else None
    {
      content := if digest in blobs then Some(blobs[digest]) else None;
    }

    method WriteRecord(e: Entry, now: real) returns (record: Record)
      modifies this`blobs
      ensures record == RecordOf(e, now)
      ensures blobs == StoreBlob(old(blobs), e.before)
    {
      var blob: Option<Digest> := None;
      if e.before.Some? {
        var digest := WriteBlob(e.before.value);
        blob := Some(digest);
      }
      record := Record(e.num, e.path, Some(Stamp(e.ts, now)), blob, e.actor, e.afterSha, e.pinned);
    }

    method AppendEntry(e: Entry, now: real)
      modifies this`blobs, this`lines
      ensures Contents() == Appended(old(Contents()), e, now)
    {
      var record := WriteRecord(e, now);
      lines := lines + [Good(record)];
    }

    method SaveCheckpoints(checkpoints: seq<Checkpoint>)
      modifies this`markers
      ensures Contents() == old(Contents()).(markers := checkpoints)
    {
      markers := checkpoints;
    }

    method Load() returns (journal: seq<Entry>, checkpoints: seq<Checkpoint>)
      ensures journal == LoadJournal(Contents())
      ensures checkpoints == LoadMarkers(markers)
    {
      journal := [];
      for i := 0 to |lines|
        invariant journal == DecodeAll(blobs, lines[..i])
      {
        assert lines[..i + 1][..i] == lines[..i];
        if lines[i].Good? {
          var r := lines[i].record;
          var before: Option<Content> := None;
          if r.blob.Some? {
            before := ReadBlob(r.blob.value);
          }
          if r.blob.None? || before.Some? {
            journal := journal + [Entry(r.num, r.path, before, r.ts, r.actor, r.blob, r.afterSha, r.pinned)];
          }
        }
      }
      assert lines[..|lines|] == lines;
      journal := Sort(journal, ByNum);
      checkpoints := [];
      for i := 0 to |markers|
        invariant checkpoints == LoadMarkers(markers[..i])
      {
        assert markers[..i + 1][..i] == markers[..i];
        if markers[i].id != "" {
          checkpoints := checkpoints + [markers[i]];
        }
      }
      assert markers[..|markers|] == markers;
    }

    method RewriteJournal(journal: seq<Entry>, now: real)
      modifies this`blobs, this`lines
      ensures Contents() == Rewritten(old(Contents()), journal, now)
    {
      var records: seq<Line> := [];
      for i := 0 to |journal|
        invariant records == LinesOf(journal[..i], now)
        invariant blobs == StoreBlobs(old(blobs), journal[..i])
        invariant lines == old(lines)
      {
        assert journal[..i + 1][..i] == journal[..i];
        var record := WriteRecord(journal[i], now);
        records := records + [Good(record)];
      }
      assert journal[..|journal|] == journal;
      lines := records;
    }

    /** First half of a prune: entries past the age cap go, with the markers they served. */
    method DropOld(maxAgeDays: real, now: real) returns (journal: seq<Entry>, dropped: nat)
      modifies this
      ensures Contents() == Aged(old(Contents()), maxAgeDays, now)
      ensures journal == Survivors(old(Contents()), maxAgeDays, now)
      ensures dropped + |journal| == |LoadJournal(old(Contents()))|
    {
      var checkpoints;
      journal, checkpoints := Load();
      dropped := 0;
      if maxAgeDays > 0.0 {
        var kept := Younger(journal, now - maxAgeDays * SECONDS_PER_DAY);
        YoungerShorter(journal, now - maxAgeDays * SECONDS_PER_DAY);
        dropped := |journal| - |kept|;
        if dropped > 0 {
          checkpoints := if kept == [] then [] else MarkersFrom(checkpoints, kept[0].num - 1);
          journal := kept;
          RewriteJournal(journal, now);
          SaveCheckpoints(checkpoints);
        }
      }
    }

    /** Second half: every blob nothing refers to any more is deleted. */
    method CollectBlobs(referenced: set<Digest>) returns (deleted: nat)
      modifies this`blobs
      ensures blobs == Collected(old(blobs), referenced)
      ensures |blobs| + deleted == |old(blobs)|
    {
      deleted := 0;
      ghost var all := blobs;
      var todo := blobs.Keys;
      while todo != {}
        invariant todo <= blobs.Keys <= all.Keys
        invariant forall d :: d in blobs ==> blobs[d] == all[d]
        invariant forall d :: d in all ==> (d in blobs <==> d in todo || d in referenced)
        invariant |blobs| + deleted == |all|
      {
        var digest :| digest in todo;
        todo := todo - {digest};
        if digest !in referenced {
          var rest := blobs - {digest};
          assert blobs.Keys == rest.Keys + {digest};
          blobs := rest;
          deleted := deleted + 1;
        }
      }
    }

    method Prune(maxAgeDays: real, now: real) returns (dropped: nat, deleted: nat)
      modifies this
      ensures Contents() == Pruned(old(Contents()), maxAgeDays, now)
      ensures dropped + |Survivors(old(Contents()), maxAgeDays, now)| == |LoadJournal(old(Contents()))|
      ensures |blobs| + deleted == |Aged(old(Contents()), maxAgeDays, now).blobs|
    {
      var journal;
      journal, dropped := DropOld(maxAgeDays, now);
      var referenced: set<Digest> := {};
      for i := 0 to |journal|
        invariant referenced == Referenced(journal[..i])
      {
        assert journal[..i + 1] == journal[..i] + [journal[i]];
        if journal[i].before.Some? {
          referenced := referenced + {Sha(journal[i].before.value)};
        }
      }
      assert journal[..|journal|] == journal;
      deleted := CollectBlobs(referenced);
    }
  }

  lemma {:induction false} YoungerShorter(journal: seq<Entry>, cutoff: real)
    ensures |Younger(journal, cutoff)| <= |journal|
    ensures |Younger(journal, cutoff)| == |journal| ==> Younger(journal, cutoff) == journal
  {
    if journal != [] {
      var n := |journal| - 1;
      YoungerShorter(journal[..n], cutoff);
    }
  }
}
