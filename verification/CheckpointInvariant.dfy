/** What every step of a session keeps true, restarts and pruning included. */
module CheckpointInvariant {
  import opened Options
  import opened Text
  import opened Sorting
  import opened Journal
  import opened CheckpointStore
  import opened Mirror
  import opened CheckpointSession

  /** One thing that can happen to a session or to its working tree. */
  datatype Op =
    | Edit(path: Path, content: Content, hashed: bool, pinned: Option<string>, actor: Option<string>, now: real)
    | Mark(title: string, now: real)
    | Rollback(id: string, blocked: set<Path>, now: real)
    | Outside(path: Path, after: Option<Content>)      // somebody else's write or delete
    | Break(path: Path, content: Content)              // an unparsable text over a Python file
    | TakeBack(path: Path)                             // `undo_file`
    | Attempt(path: Path, kept: bool)                  // a call that wrote nothing
    | Restart(now: real, sameProcess: bool)

  /** The session is set up again; a new process knows nothing of what the tools had noted. */
  function SetUp(s: State, now: real, sameProcess: bool): State {
    var next := Restarted(s, now);
    if sameProcess then next else next.(undo := map[])
  }

  function Step(s: State, op: Op): State {
    match op
    case Edit(path, content, hashed, pinned, actor, now) => Edited(s, path, content, hashed, pinned, actor, now)
    case Mark(title, now) => Created(s, title, false, now)
    case Rollback(id, blocked, now) => RolledBack(s, id, blocked, now)
    case Outside(path, after) => s.(files := Put(s.files, path, after))
    case Break(path, content) => Broke(s, path, content)
    case TakeBack(path) => TakenBack(s, path)
    case Attempt(path, kept) => Attempted(s, path, kept)
    case Restart(now, sameProcess) => SetUp(s, now, sameProcess)
  }

  // ---- the invariant ----

  /** The pre-image of every entry goes by its digest. */
  ghost predicate Hashed(journal: seq<Entry>) {
    forall e :: e in journal ==> e.beforeSha == ShaOf(e.before)
  }

  ghost predicate JournalOk(s: State) {
    Ordered(s.journal) && Hashed(s.journal) && forall e :: e in s.journal ==> 1 <= e.num <= s.num
  }

  ghost predicate UniqueIds(cps: seq<Checkpoint>) {
    forall i, j :: 0 <= i < j < |cps| ==> cps[i].id != cps[j].id
  }

  ghost predicate MarkersOk(s: State) {
    UniqueIds(s.cps) && forall c :: c in s.cps ==> CpNumber(c.id) <= s.counter
  }

  /** What holds in memory, whatever the clock and the disk do. */
  ghost predicate Core(s: State) {
    JournalOk(s) && MarkersOk(s)
  }

  /** A marker that is read back as it was written. */
  ghost predicate Proper(c: Checkpoint) {
    c.id != "" && c.title != "" && c.ts != 0.0
  }

  /** With persistence, the disk holds what memory does, in a form that reads back. */
  ghost predicate Durable(s: State) {
    s.persist ==>
      && AllCanonical(s.journal) && Mirrors(s.disk, s.journal)
      && s.disk.markers == Listed(s.cps) && forall c :: c in s.cps ==> Proper(c)
  }

  ghost predicate WellFormed(s: State) {
    Core(s) && Durable(s)
  }

  /** No live marker lies beyond the last sequence number handed out. */
  predicate NoMarkerAhead(s: State) {
    forall c :: c in s.cps ==> c.mark <= s.num
  }

  /** A time of zero is taken for a missing one on the way to disk. */
  predicate Stamps(op: Op) {
    (op.Edit? || op.Mark?) ==> op.now != 0.0
  }

  /** The clock has not run back since the last journaled edit. */
  ghost predicate Timely(s: State, op: Op) {
    op.Edit? ==> forall e :: e in s.journal ==> Age(e) <= op.now
  }

  // ---- checkpoint lists ----

  lemma {:induction false} AssignMeans(cps: seq<Checkpoint>, c: Checkpoint)
    requires forall d :: d in cps ==> d.id != c.id
    ensures Assign(cps, c) == cps + [c]
    ensures UniqueIds(cps) ==> UniqueIds(cps + [c])
  {
    if cps != [] {
      assert cps == [cps[0]] + cps[1..];
      assert forall d :: d in cps[1..] ==> d in cps;
      AssignMeans(cps[1..], c);
      assert cps + [c] == [cps[0]] + (cps[1..] + [c]);
      assert cps[0] in cps;
    }
  }

  lemma {:induction false} FindMeans(cps: seq<Checkpoint>, id: string)
    ensures Find(cps, id).Some? ==> Find(cps, id).value in cps && Find(cps, id).value.id == id
    ensures UniqueIds(cps) ==> forall c :: c in cps && c.id == id ==> Find(cps, id) == Some(c)
  {
    if cps != [] {
      assert cps == [cps[0]] + cps[1..];
      FindMeans(cps[1..], id);
      if UniqueIds(cps) && cps[0].id == id {
        forall c | c in cps && c.id == id
          ensures c == cps[0]
        {
          var i :| 0 <= i < |cps| && cps[i] == c;
        }
      }
    }
  }

  lemma {:induction false} MarkedUpToMeans(cps: seq<Checkpoint>, mark: int)
    ensures forall c :: c in MarkedUpTo(cps, mark) <==> c in cps && c.mark <= mark
    ensures UniqueIds(cps) ==> UniqueIds(MarkedUpTo(cps, mark))
  {
    if cps != [] {
      assert cps == [cps[0]] + cps[1..];
      MarkedUpToMeans(cps[1..], mark);
      if UniqueIds(cps) {
        assert UniqueIds(cps[1..]);
        forall c | c in cps[1..]
          ensures c.id != cps[0].id
        {
          var i :| 0 <= i < |cps[1..]| && cps[1..][i] == c;
          assert cps[i + 1] == c;
        }
      }
    }
  }

  lemma {:induction false} MarkedTwice(cps: seq<Checkpoint>, early: int, late: int)
    requires early <= late
    ensures MarkedUpTo(MarkedUpTo(cps, late), early) == MarkedUpTo(cps, early)
  {
    if cps != [] {
      MarkedTwice(cps[1..], early, late);
      var rest := MarkedUpTo(cps[1..], late);
      assert ([cps[0]] + rest)[1..] == rest;
    }
  }

  lemma {:induction false} ListedUnique(cps: seq<Checkpoint>)
    requires UniqueIds(cps)
    ensures UniqueIds(Listed(cps))
  {
    if cps != [] {
      assert cps == [cps[0]] + cps[1..];
      ListedUnique(cps[1..]);
      SortMembers(cps[1..], ByMark);
      InsertUnique(cps[0], Listed(cps[1..]));
    }
  }

  lemma {:induction false} InsertUnique(c: Checkpoint, cps: seq<Checkpoint>)
    requires UniqueIds(cps)
    requires forall d :: d in cps ==> d.id != c.id
    ensures UniqueIds(Insert(c, cps, ByMark))
  {
    if cps != [] && !ByMark(c, cps[0]) {
      assert cps == [cps[0]] + cps[1..];
      InsertUnique(c, cps[1..]);
      InsertMultiset(c, cps[1..], ByMark);
      var rest := Insert(c, cps[1..], ByMark);
      forall d | d in rest
        ensures d.id != cps[0].id
      {
        assert d in multiset(rest);
        assert d == c || d in cps[1..];
        assert cps[0] in cps;
      }
    }
  }

  lemma {:induction false} ListedSorted(cps: seq<Checkpoint>)
    ensures Sorted(Listed(cps), ByMark)
    ensures forall c :: c in Listed(cps) <==> c in cps
  {
    SortSorted(cps, ByMark);
    SortMembers(cps, ByMark);
  }

  lemma {:induction false} PushKeeps(markers: seq<Checkpoint>, c: Checkpoint)
    requires UniqueIds(markers) && Sorted(markers, ByMark)
    requires forall d :: d in markers ==> d.id != c.id && d.mark <= c.mark
    ensures UniqueIds(markers + [c]) && Sorted(markers + [c], ByMark)
  {
  }

  lemma {:induction false} LastIsApart(markers: seq<Checkpoint>, d: Checkpoint)
    requires UniqueIds(markers) && Sorted(markers, ByMark) && markers != []
    requires d in markers[..|markers| - 1]
    ensures d.id != markers[|markers| - 1].id && d.mark <= markers[|markers| - 1].mark
  {
    var n := |markers| - 1;
    var i :| 0 <= i < n && markers[..n][i] == d;
    assert ByMark(markers[i], markers[n]);
  }

  lemma {:induction false} MarkersFromKeeps(markers: seq<Checkpoint>, least: int)
    requires UniqueIds(markers) && Sorted(markers, ByMark)
    ensures UniqueIds(MarkersFrom(markers, least)) && Sorted(MarkersFrom(markers, least), ByMark)
  {
    if markers != [] {
      var n := |markers| - 1;
      MarkersFromKeeps(markers[..n], least);
      MarkersFromMembers(markers[..n], least);
      forall d | d in MarkersFrom(markers[..n], least)
        ensures d.id != markers[n].id && d.mark <= markers[n].mark
      {
        LastIsApart(markers, d);
      }
      PushKeeps(MarkersFrom(markers[..n], least), markers[n]);
    }
  }

  lemma {:induction false} LoadMarkersIdentity(markers: seq<Checkpoint>)
    requires forall c :: c in markers ==> c.id != ""
    ensures LoadMarkers(markers) == markers
  {
    if markers != [] {
      var n := |markers| - 1;
      assert markers == markers[..n] + [markers[n]];
      LoadMarkersIdentity(markers[..n]);
    }
  }

  /** Proper markers come back from disk as they were saved. */
  lemma {:induction false} ReviveIdentity(markers: seq<Checkpoint>, now: real)
    requires UniqueIds(markers)
    requires forall c :: c in markers ==> Proper(c)
    ensures ReviveAll(markers, now) == markers
  {
    if markers != [] {
      var n := |markers| - 1;
      assert markers == markers[..n] + [markers[n]];
      ReviveIdentity(markers[..n], now);
      assert Proper(markers[n]);
      assert Revived(markers[n], now) == markers[n];
      AssignMeans(markers[..n], markers[n]);
    }
  }

  // ---- names ----

  lemma {:induction false} NameNumber(n: nat)
    ensures CpNumber(CpName(n)) == n
    ensures CpName(n) != ""
  {
    var id := CpName(n);
    assert id[2..] == Decimal(n);
    assert id[..2] == "cp";
    NumeralOfDecimal(n);
  }

  lemma {:induction false} HighestNumberBounds(cps: seq<Checkpoint>)
    ensures forall c :: c in cps ==> CpNumber(c.id) <= HighestNumber(cps)
  {
    if cps != [] {
      assert cps == [cps[0]] + cps[1..];
      HighestNumberBounds(cps[1..]);
    }
  }

  /** Digits behind "cp". */
  predicate Generated(id: string) {
    |id| >= 3 && id[0] == 'c' && id[1] == 'p' && forall i :: 2 <= i < |id| ==> '0' <= id[i] <= '9'
  }

  lemma {:induction false} OtherIdsCountNothing(id: string)
    ensures !Generated(id) ==> CpNumber(id) == 0
  {
    if |id| > 2 && id[..2] == "cp" && AllDigits(id[2..]) {
      forall i | 2 <= i < |id| ensures '0' <= id[i] <= '9' {
        assert id[2..][i - 2] == id[i];
      }
      assert id[..2][0] == id[0] && id[..2][1] == id[1];
    }
  }

  lemma {:induction false} HighestIsAttained(cps: seq<Checkpoint>)
    ensures HighestNumber(cps) > 0 ==> exists c :: c in cps && Generated(c.id) && CpNumber(c.id) == HighestNumber(cps)
  {
    if cps != [] {
      HighestIsAttained(cps[1..]);
      OtherIdsCountNothing(cps[0].id);
      assert cps == [cps[0]] + cps[1..];
    }
  }

  lemma {:induction false} HighestNumBounds(journal: seq<Entry>)
    ensures forall e :: e in journal ==> e.num <= HighestNum(journal)
    ensures HighestNum(journal) > 0 ==> exists e :: e in journal && e.num == HighestNum(journal)
  {
    if journal != [] {
      var n := |journal| - 1;
      HighestNumBounds(journal[..n]);
      assert journal == journal[..n] + [journal[n]];
    }
  }

  /** Set up again, a session numbers on from the highest number in its journal, from none where there
      is none; without persistence nothing is left to go on from. */
  lemma {:induction false} NumberingGoesOn(s: State, now: real)
    ensures var r := Restarted(s, now);
      && (forall e :: e in r.journal ==> e.num <= r.num) && (r.num > 0 ==> exists e :: e in r.journal && e.num == r.num)
      && r.files == s.files && (!s.persist ==> r.journal == [] && r.cps == [] && r.disk == s.disk)
  {
    HighestNumBounds(Restarted(s, now).journal);
  }

  /** Set up again, a session counts on from the highest number in a generated id, from none where
      there is no such id; no edit is pending, and the settings stay. */
  lemma {:induction false} CountingGoesOn(s: State, now: real)
    ensures var r := Restarted(s, now);
      && (forall n: nat, c :: c in r.cps && c.id == CpName(n) ==> n <= r.counter)
      && (r.counter > 0 ==> exists c :: c in r.cps && Generated(c.id) && CpNumber(c.id) == r.counter)
      && r.pending == 0 && r.interval == s.interval && r.persist == s.persist && r.maxAgeDays == s.maxAgeDays
  {
    var r := Restarted(s, now);
    HighestNumberBounds(r.cps);
    HighestIsAttained(r.cps);
    forall n: nat, c | c in r.cps && c.id == CpName(n) ensures n <= r.counter {
      NameNumber(n);
    }
  }

  /** A generated id is new, restored checkpoints of earlier processes included. */
  lemma {:induction false} NewIdIsFresh(s: State)
    requires MarkersOk(s)
    ensures forall c :: c in s.cps ==> c.id != CpName(s.counter + 1)
  {
    NameNumber(s.counter + 1);
  }

  // ---- every step keeps the invariant ----

  lemma {:induction false} HighestNumIsLast(journal: seq<Entry>)
    requires Ordered(journal)
    ensures HighestNum(journal) == LastSeq(journal)
    ensures forall e :: e in journal ==> e.num <= HighestNum(journal)
  {
    if journal != [] {
      var n := |journal| - 1;
      assert journal == journal[..n] + [journal[n]];
      HighestNumIsLast(journal[..n]);
    }
  }

  /** A checkpoint is appended with the current number under a new id; all else stays. */
  lemma {:induction false} CreatedMeans(s: State, title: string, auto: bool, now: real)
    requires Core(s)
    ensures var next := Created(s, title, auto, now);
            && Core(next)
            && next.files == s.files && next.journal == s.journal && next.num == s.num
            && |next.cps| == |s.cps| + 1 && next.cps[..|s.cps|] == s.cps
            && next.cps[|s.cps|].id == CpName(s.counter + 1)
            && next.cps[|s.cps|].mark == s.num && next.cps[|s.cps|].auto == auto
            && next.cps[|s.cps|].ts == now && next.cps[|s.cps|].title != ""
  {
    NameNumber(s.counter + 1);
    NewIdIsFresh(s);
    var next := Created(s, title, auto, now);
    var c := Checkpoint(CpName(s.counter + 1), TitleOr(Strip(title), CpName(s.counter + 1)), s.num, now,
                        |Touched(s.journal)|, auto);
    AssignMeans(s.cps, c);
    assert next.cps == s.cps + [c];
  }

  lemma {:induction false} CreatedKeeps(s: State, title: string, auto: bool, now: real)
    requires WellFormed(s) && (s.persist ==> now != 0.0)
    ensures WellFormed(Created(s, title, auto, now))
  {
    CreatedMeans(s, title, auto, now);
    var next := Created(s, title, auto, now);
    NameNumber(s.counter + 1);
    assert next.cps == s.cps + [next.cps[|s.cps|]];
    assert s.persist ==> Proper(next.cps[|s.cps|]);
  }

  /** It counts the distinct paths journaled so far, and is called what it was asked to be, trimmed, or
      by its id. */
  lemma {:induction false} CreatedReads(s: State, title: string, auto: bool, now: real, paths: set<Path>)
    requires Core(s) && forall p :: p in paths <==> exists e :: e in s.journal && e.path == p
    ensures var next := Created(s, title, auto, now);
      |next.cps| == |s.cps| + 1 &&
      var c := next.cps[|s.cps|];
      && c.files == |paths| && next.counter == s.counter + 1 && next.pending == s.pending
      && c.title == if Strip(title) == "" then "cp" + Decimal(s.counter + 1) else Strip(title)
  {
    CreatedMeans(s, title, auto, now);
    NameNumber(s.counter + 1);
    NewIdIsFresh(s);
    var c := Checkpoint(CpName(s.counter + 1), TitleOr(Strip(title), CpName(s.counter + 1)), s.num, now,
                        |Touched(s.journal)|, auto);
    AssignMeans(s.cps, c);
    assert Touched(s.journal) == paths;
  }

  /** The edit that fills the interval makes a checkpoint of its own, marked behind it; any other counts
      one up, and none does where no interval is set. */
  lemma {:induction false} EditMakesCheckpoint(s: State, op: Op)
    requires Core(s) && op.Edit?
    ensures var next := Step(s, op);
      if s.interval > 0 && s.pending + 1 >= s.interval then
        |next.cps| == |s.cps| + 1 && next.pending == 0 &&
        var c := next.cps[|s.cps|];
        && c.auto && c.mark == s.num + 1 && c.ts == op.now
        && c.title == "auto after " + Decimal(s.interval) + " edits"
      else next.cps == s.cps && next.pending == if s.interval > 0 then s.pending + 1 else s.pending
  {
    var t := s.(files := s.files[op.path := op.content], undo := Noted(s, op.path));
    var sha := if op.hashed then Some(Sha(op.content)) else None;
    RecordedMeans(t, op.path, PreImage(s, op.path), sha, op.pinned, op.actor, op.now);
    var r := Recorded(t, op.path, PreImage(s, op.path), sha, op.pinned, op.actor, op.now);
    if s.interval > 0 && s.pending + 1 >= s.interval {
      CreatedMeans(r.(pending := 0), AutoTitle(s.interval), true, op.now);
      TitleIs(r.(pending := 0), s.interval, op.now);
    }
  }

  lemma {:induction false} TitleIs(s: State, interval: nat, now: real)
    requires Core(s)
    ensures var next := Created(s, AutoTitle(interval), true, now);
      |next.cps| == |s.cps| + 1 && next.cps[|s.cps|].title == "auto after " + Decimal(interval) + " edits"
  {
    CreatedReads(s, AutoTitle(interval), true, now, Touched(s.journal));
    StripTrims(AutoTitle(interval));
    var title := AutoTitle(interval);
    assert title[0] == 'a' && title[|title| - 1] == " edits"[5];
  }

  /** A marker that is read back keeps all but an empty title, which becomes its id, and a stamp of zero,
      which becomes now. */
  lemma {:induction false} RevivedReads(markers: seq<Checkpoint>, now: real, i: nat)
    requires UniqueIds(markers) && i < |markers|
    ensures |ReviveAll(markers, now)| == |markers|
    ensures var m, c := markers[i], ReviveAll(markers, now)[i];
      && c.id == m.id && c.mark == m.mark && c.files == m.files && c.auto == m.auto
      && c.title == (if m.title == "" then m.id else m.title) && c.ts == (if m.ts == 0.0 then now else m.ts)
  {
    ReviveInPlace(markers, now);
  }

  lemma {:induction false} ReviveInPlace(markers: seq<Checkpoint>, now: real)
    requires UniqueIds(markers)
    ensures ReviveAll(markers, now) == seq(|markers|, i requires 0 <= i < |markers| => Revived(markers[i], now))
  {
    if markers != [] {
      var n := |markers| - 1;
      var front := ReviveAll(markers[..n], now);
      ReviveInPlace(markers[..n], now);
      forall d | d in front ensures d.id != markers[n].id {
        var i :| 0 <= i < n && front[i] == d;
        assert markers[i].id != markers[n].id;
      }
      AssignMeans(front, Revived(markers[n], now));
    }
  }

  /** The entry an edit records. */
  function EntryOf(s: State, path: Path, before: Option<Content>, afterSha: Option<Digest>,
                   pinned: Option<string>, actor: Option<string>, now: real): Entry {
    Entry(s.num + 1, path, before, Some(now), actor, ShaOf(before), afterSha, pinned)
  }

  lemma {:induction false} RecordedMeans(s: State, path: Path, before: Option<Content>,
                                         afterSha: Option<Digest>,
                      pinned: Option<string>, actor: Option<string>, now: real)
    requires Core(s)
    ensures var next := Recorded(s, path, before, afterSha, pinned, actor, now);
            && Core(next) && next.num == s.num + 1
            && next.journal == s.journal + [EntryOf(s, path, before, afterSha, pinned, actor, now)]
  {
    var e := EntryOf(s, path, before, afterSha, pinned, actor, now);
    var next := Recorded(s, path, before, afterSha, pinned, actor, now);
    assert next.journal == s.journal + [e];
  }

  lemma {:induction false} RecordedKeeps(s: State, path: Path, before: Option<Content>,
                                         afterSha: Option<Digest>,
                      pinned: Option<string>, actor: Option<string>, now: real)
    requires WellFormed(s) && (s.persist ==> now != 0.0)
    ensures WellFormed(Recorded(s, path, before, afterSha, pinned, actor, now))
  {
    RecordedMeans(s, path, before, afterSha, pinned, actor, now);
    if s.persist {
      AppendMirrors(s.disk, s.journal, EntryOf(s, path, before, afterSha, pinned, actor, now), now);
    }
  }

  lemma {:induction false} UpToKeeps(journal: seq<Entry>, mark: int)
    requires Ordered(journal)
    ensures UpTo(journal, mark) <= journal
    ensures Ordered(UpTo(journal, mark))
    ensures Hashed(journal) ==> Hashed(UpTo(journal, mark))
    ensures Aging(journal) ==> Aging(UpTo(journal, mark))
    ensures AllCanonical(journal) ==> AllCanonical(UpTo(journal, mark))
  {
    MarkerCuts(journal, mark);
    AfterMembers(journal, mark);
  }

  lemma {:induction false} CutBackCore(s: State, c: Checkpoint, blocked: set<Path>, now: real)
    requires Core(s)
    ensures Core(CutBack(s, c, blocked, now))
  {
    UpToKeeps(s.journal, c.mark);
    AfterMembers(s.journal, c.mark);
    MarkedUpToMeans(s.cps, c.mark);
  }

  lemma {:induction false} CutBackKeeps(s: State, c: Checkpoint, blocked: set<Path>, now: real)
    requires WellFormed(s)
    ensures WellFormed(CutBack(s, c, blocked, now))
  {
    CutBackCore(s, c, blocked, now);
    UpToKeeps(s.journal, c.mark);
    MarkedUpToMeans(s.cps, c.mark);
    if s.persist {
      RewriteMirrors(s.disk, UpTo(s.journal, c.mark), now);
    }
  }

  /** What a restart restores: the unpruned journal, and the surviving markers unchanged. */
  lemma {:induction false} RestartMeans(s: State, now: real)
    requires WellFormed(s) && s.persist
    ensures var next := Restarted(s, now);
            && next.journal == Survivors(s.disk, s.maxAgeDays, now)
            && next.num == LastSeq(next.journal)
            && next.disk == Pruned(s.disk, s.maxAgeDays, now)
            && next.cps == next.disk.markers
            && next.files == s.files
            && Sorted(next.cps, ByMark) && UniqueIds(next.cps)
            && (forall c :: c in next.cps ==> c in s.cps)
  {
    PruneMirrors(s.disk, s.journal, s.maxAgeDays, now);
    var disk := Pruned(s.disk, s.maxAgeDays, now);
    ListedSorted(s.cps);
    ListedUnique(s.cps);
    LoadMarkersIdentity(s.disk.markers);
    MarkersOf(s, now);
    LoadMarkersIdentity(disk.markers);
    ReviveIdentity(disk.markers, now);
    HighestNumIsLast(LoadJournal(disk));
  }

  /** The markers a prune leaves are some of the listed ones, still in order. */
  lemma {:induction false} MarkersOf(s: State, now: real)
    requires s.persist && UniqueIds(s.disk.markers) && Sorted(s.disk.markers, ByMark)
    requires LoadMarkers(s.disk.markers) == s.disk.markers
    ensures var markers := Pruned(s.disk, s.maxAgeDays, now).markers;
            && UniqueIds(markers) && Sorted(markers, ByMark)
            && forall c :: c in markers ==> c in s.disk.markers
  {
    var kept := Survivors(s.disk, s.maxAgeDays, now);
    if kept != [] {
      MarkersFromKeeps(s.disk.markers, kept[0].num - 1);
      MarkersFromMembers(s.disk.markers, kept[0].num - 1);
    }
  }

  lemma {:induction false} RestartKeeps(s: State, now: real)
    requires WellFormed(s)
    ensures WellFormed(Restarted(s, now))
  {
    if s.persist {
      var next := Restarted(s, now);
      RestartMeans(s, now);
      PruneMirrors(s.disk, s.journal, s.maxAgeDays, now);
      HighestNumIsLast(next.journal);
      SurvivorsAreEntries(s, now);
      HighestNumberBounds(next.cps);
      SortIdentity(next.cps, ByMark);
    }
  }

  lemma {:induction false} SurvivorsAreEntries(s: State, now: real)
    requires WellFormed(s) && s.persist
    ensures forall e :: e in Survivors(s.disk, s.maxAgeDays, now) ==> e in s.journal
  {
    LoadReturnsJournal(s.disk, s.journal);
    YoungerMembers(s.journal, now - s.maxAgeDays * SECONDS_PER_DAY);
  }

  /** Every step keeps memory in order; only a restart looks at the disk. */
  lemma {:induction false} StepKeepsCore(s: State, op: Op)
    requires Core(s) && (op.Restart? ==> Durable(s))
    ensures Core(Step(s, op)) && Step(s, op).persist == s.persist
  {
    match op
    case Edit(path, content, hashed, pinned, actor, now) =>
      var t := s.(files := s.files[path := content], undo := Noted(s, path));
      var sha := if hashed then Some(Sha(content)) else None;
      RecordedMeans(t, path, PreImage(s, path), sha, pinned, actor, now);
      var r := Recorded(t, path, PreImage(s, path), sha, pinned, actor, now);
      if s.interval != 0 && s.pending + 1 >= s.interval {
        CreatedMeans(r.(pending := 0), AutoTitle(s.interval), true, now);
      }
    case Mark(title, now) => CreatedMeans(s, title, false, now);
    case Rollback(id, blocked, now) =>
      var found := Find(s.cps, id);
      if found.Some? {
        CutBackCore(s, found.value, blocked, now);
      }
    case Outside(_, _) =>
    case Break(_, _) =>
    case TakeBack(_) =>
    case Attempt(_, _) =>
    case Restart(now, _) => RestartKeeps(s, now);
  }

  /** With stamps other than zero, every step keeps the disk equal to memory as well. */
  lemma {:induction false} StepKeepsWellFormed(s: State, op: Op)
    requires WellFormed(s) && (s.persist ==> Stamps(op))
    ensures WellFormed(Step(s, op))
  {
    match op
    case Edit(path, content, hashed, pinned, actor, now) =>
      var t := s.(files := s.files[path := content], undo := Noted(s, path));
      var sha := if hashed then Some(Sha(content)) else None;
      RecordedKeeps(t, path, PreImage(s, path), sha, pinned, actor, now);
      var r := Recorded(t, path, PreImage(s, path), sha, pinned, actor, now);
      if s.interval != 0 && s.pending + 1 >= s.interval {
        CreatedKeeps(r.(pending := 0), AutoTitle(s.interval), true, now);
      }
    case Mark(title, now) => CreatedKeeps(s, title, false, now);
    case Rollback(id, blocked, now) =>
      var found := Find(s.cps, id);
      if found.Some? {
        CutBackKeeps(s, found.value, blocked, now);
      }
    case Outside(_, _) =>
    case Break(_, _) =>
    case TakeBack(_) =>
    case Attempt(_, _) =>
    case Restart(now, _) => RestartKeeps(s, now);
  }

  /** With a clock that does not run back, time stamps stay in the order of the edits. */
  lemma {:induction false} StepKeepsAging(s: State, op: Op)
    requires Core(s) && Aging(s.journal) && Timely(s, op) && (op.Restart? ==> Durable(s))
    ensures Aging(Step(s, op).journal)
  {
    match op
    case Edit(path, content, hashed, pinned, actor, now) =>
      assert Step(s, op).journal[..|s.journal|] == s.journal;
    case Mark(title, now) =>
    case Rollback(id, blocked, now) =>
      var found := Find(s.cps, id);
      if found.Some? {
        UpToKeeps(s.journal, found.value.mark);
      }
    case Outside(_, _) =>
    case Break(_, _) =>
    case TakeBack(_) =>
    case Attempt(_, _) =>
    case Restart(now, _) =>
      if s.persist {
        RestartMeans(s, now);
        PruneMirrors(s.disk, s.journal, s.maxAgeDays, now);
      }
  }
}
