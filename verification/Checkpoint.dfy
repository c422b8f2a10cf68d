/** Session-wide checkpoint and rollback: core/checkpoint.py over its disk mirror, under the tools
    that write files: tools/files and tools/edit_file. */
module CheckpointSession {
  import opened Options
  import opened Text
  import opened Sorting
  import opened Journal
  import opened CheckpointStore

  /** Everything a session consists of, the working tree and the disk included. */
  datatype State = State(
    files: Files,
    undo: Files,                  // per path, what the tools last found in the file they wrote over
    journal: seq<Entry>,
    num: nat,                     // the last sequence number handed out
    cps: seq<Checkpoint>,         // live checkpoints, in the dictionary's insertion order
    counter: nat,
    pending: nat,                 // edits since the last automatic checkpoint
    interval: nat,                // 0: no automatic checkpoints
    persist: bool,
    maxAgeDays: real,
    disk: Disk)

  predicate ByMark(a: Checkpoint, b: Checkpoint) {
    a.mark <= b.mark
  }

  function Listed(cps: seq<Checkpoint>): seq<Checkpoint> {
    Sort(cps, ByMark)
  }

  function Find(cps: seq<Checkpoint>, id: string): Option<Checkpoint> {
    if cps == [] then None else if cps[0].id == id then Some(cps[0]) else Find(cps[1..], id)
  }

  /** Dictionary assignment: a known id keeps its place. */
  function Assign(cps: seq<Checkpoint>, c: Checkpoint): seq<Checkpoint> {
    if cps == [] then [c]
    else if cps[0].id == c.id then [c] + cps[1..]
    else [cps[0]] + Assign(cps[1..], c)
  }

  /** The live checkpoints a rollback to the marker leaves. */
  function MarkedUpTo(cps: seq<Checkpoint>, mark: int): seq<Checkpoint> {
    if cps == [] then []
    else
      var rest := MarkedUpTo(cps[1..], mark);
      if cps[0].mark <= mark then [cps[0]] + rest else rest
  }

  // ---- names ----

  function CpName(n: nat): string {
    "cp" + Decimal(n)
  }

  /** The number in a generated id, 0 for any other id. */
  function CpNumber(id: string): nat {
    if |id| > 2 && id[..2] == "cp" && AllDigits(id[2..]) then Numeral(id[2..]) else 0
  }

  function HighestNumber(cps: seq<Checkpoint>): nat {
    if cps == [] then 0
    else
      var rest := HighestNumber(cps[1..]);
      if CpNumber(cps[0].id) > rest then CpNumber(cps[0].id) else rest
  }

  function TitleOr(title: string, id: string): string {
    if title == "" then id else title
  }

  function Touched(journal: seq<Entry>): set<Path> {
    set e | e in journal :: e.path
  }

  function HighestNum(journal: seq<Entry>): nat {
    if journal == [] then 0
    else
      var n := |journal| - 1;
      var rest := HighestNum(journal[..n]);
      if journal[n].num > rest then journal[n].num else rest
  }

  // ---- steps ----

  function Saved(s: State): State {
    if s.persist then s.(disk := s.disk.(markers := Listed(s.cps))) else s
  }

  function Created(s: State, title: string, auto: bool, now: real): State {
    var id := CpName(s.counter + 1);
    var c := Checkpoint(id, TitleOr(Strip(title), id), s.num, now, |Touched(s.journal)|, auto);
    Saved(s.(counter := s.counter + 1, cps := Assign(s.cps, c)))
  }

  function Recorded(s: State, path: Path, before: Option<Content>, afterSha: Option<Digest>,
                    pinned: Option<string>, actor: Option<string>, now: real): State {
    var e := Entry(s.num + 1, path, before, Some(now), actor, ShaOf(before), afterSha, pinned);
    s.(num := s.num + 1,
       journal := s.journal + [e],
       disk := if s.persist then Appended(s.disk, e, now) else s.disk)
  }

  function AutoTitle(interval: nat): string {
    "auto after " + Decimal(interval) + " edits"
  }

  function MaybeAuto(s: State, now: real): State {
    if s.interval == 0 then s
    else if s.pending + 1 < s.interval then s.(pending := s.pending + 1)
    else Created(s.(pending := 0), AutoTitle(s.interval), true, now)
  }

  function Journaled(s: State, path: Path, before: Option<Content>, afterSha: Option<Digest>,
                     pinned: Option<string>, actor: Option<string>, now: real): State {
    MaybeAuto(Recorded(s, path, before, afterSha, pinned, actor, now), now)
  }

  // ---- the tools ----

  /** A tool notes what it finds. Of a file that is not there it notes nothing, and what was noted
      of the path before stays. */
  function Noted(s: State, path: Path): Files {
    if path in s.files then s.undo[path := s.files[path]] else s.undo
  }

  /** What an edit of the path gives to the journal as its pre-image. */
  function PreImage(s: State, path: Path): Option<Content> {
    Get(Noted(s, path), path)
  }

  /** A write of the agent that is journaled. */
  function Edited(s: State, path: Path, content: Content, hashed: bool, pinned: Option<string>,
                  actor: Option<string>, now: real): State {
    Journaled(s.(files := s.files[path := content], undo := Noted(s, path)), path, PreImage(s, path),
              if hashed then Some(Sha(content)) else None, pinned, actor, now)
  }

  /** A Python file is written over by text that does not parse: an error, and no journal entry. */
  function Broke(s: State, path: Path, content: Content): State {
    if path in s.files then s.(files := s.files[path := content], undo := Noted(s, path)) else s
  }

  /** `undo_file`: what was noted is written back and forgotten, and not journaled. */
  function TakenBack(s: State, path: Path): State {
    if path in s.undo then s.(files := s.files[path := s.undo[path]], undo := s.undo - {path}) else s
  }

  /** A call that got as far as the note and wrote nothing: a patch that does not apply, a refused
      write or a dry run, which keep it, or an edit over the size limit, which drops it. */
  function Attempted(s: State, path: Path, kept: bool): State {
    if path !in s.files then s
    else if kept then s.(undo := Noted(s, path))
    else s.(undo := s.undo - {path})
  }

  // ---- rollback ----

  /** Undo everything after the checkpoint's marker, then forget it. */
  function CutBack(s: State, c: Checkpoint, blocked: set<Path>, now: real): State {
    var kept := UpTo(s.journal, c.mark);
    Saved(s.(files := Replay(s.files, After(s.journal, c.mark), blocked),
             journal := kept,
             cps := MarkedUpTo(s.cps, c.mark),
             pending := 0,
             disk := if s.persist then Rewritten(s.disk, kept, now) else s.disk))
  }

  function RolledBack(s: State, id: string, blocked: set<Path>, now: real): State {
    match Find(s.cps, id)
    case None => s
    case Some(c) => CutBack(s, c, blocked, now)
  }

  /** A marker as the new process reads it; a zero time stamp or empty title is filled in. */
  function Revived(c: Checkpoint, now: real): Checkpoint {
    c.(title := TitleOr(c.title, c.id), ts := if c.ts != 0.0 then c.ts else now)
  }

  function ReviveAll(markers: seq<Checkpoint>, now: real): seq<Checkpoint> {
    if markers == [] then []
    else
      var n := |markers| - 1;
      Assign(ReviveAll(markers[..n], now), Revived(markers[n], now))
  }

  /** What a new process starts from. */
  function Restarted(s: State, now: real): State {
    var empty := s.(journal := [], num := 0, cps := [], counter := 0, pending := 0);
    if !s.persist then empty
    else
      var disk := Pruned(s.disk, s.maxAgeDays, now);
      var journal := LoadJournal(disk);
      var cps := ReviveAll(LoadMarkers(disk.markers), now);
      empty.(journal := journal, num := HighestNum(journal), cps := cps,
             counter := HighestNumber(cps), disk := disk)
  }

  // ---- the rollback report ----

  /** A path the gate refuses fails only where the replay must touch the disk. */
  predicate Refused(files: Files, e: Entry, blocked: set<Path>) {
    e.path in blocked && (e.before.Some? || e.path in files)
  }

  function Rewrites(files: Files, window: seq<Entry>, blocked: set<Path>): set<Path> {
    set e | e in window && e.before.Some? && !Refused(files, e, blocked) :: e.path
  }

  function Deletions(files: Files, window: seq<Entry>, blocked: set<Path>): set<Path> {
    set e | e in window && e.before.None? && !Refused(files, e, blocked) :: e.path
  }

  function Failures(files: Files, window: seq<Entry>, blocked: set<Path>): seq<Path> {
    if window == [] then []
    else
      var n := |window| - 1;
      var rest := Failures(files, window[..n], blocked);
      if Refused(files, window[n], blocked) then [window[n].path] + rest else rest
  }

  lemma {:induction false} UndoFramesBlocked(files: Files, e: Entry, blocked: set<Path>)
    ensures forall p :: p in blocked ==> (p in Undo(files, e, blocked) <==> p in files)
  {
  }

  /** How each list grows as the replay steps back over `window[i]`. */
  lemma {:induction false} ReportExtends(files: Files, window: seq<Entry>, i: nat, blocked: set<Path>)
    requires i < |window|
    ensures var e := window[i];
            var failed := Refused(files, e, blocked);
            && Rewrites(files, window[i..], blocked) ==
               Rewrites(files, window[i + 1..], blocked) + (if !failed && e.before.Some? then {e.path} else {})
            && Deletions(files, window[i..], blocked) ==
               Deletions(files, window[i + 1..], blocked) + (if !failed && e.before.None? then {e.path} else {})
            && window[..i + 1][..i] == window[..i]
            && Failures(files, window[..i + 1], blocked) ==
               if failed then [e.path] + Failures(files, window[..i], blocked) else Failures(files, window[..i], blocked)
  {
    assert window[i..] == [window[i]] + window[i + 1..];
    assert window[..i + 1][..i] == window[..i];
  }

  datatype Report =
    | Unknown(id: string)
    | Done(id: string, title: string, restored: set<Path>, deleted: set<Path>, reverted: nat, errors: seq<Path>)

  function ReportOf(s: State, id: string, blocked: set<Path>): Report {
    match Find(s.cps, id)
    case None => Unknown(id)
    case Some(c) =>
      var window := After(s.journal, c.mark);
      var deleted := Deletions(s.files, window, blocked);
      Done(c.id, c.title, Rewrites(s.files, window, blocked) - deleted, deleted, |window|,
           Failures(s.files, window, blocked))
  }

  /** The newest automatic checkpoint that has edits after it. */
  function LatestAuto(cps: seq<Checkpoint>, num: nat): Option<Checkpoint> {
    var listed := Listed(cps);
    LastAuto(listed, num)
  }

  function LastAuto(listed: seq<Checkpoint>, num: nat): Option<Checkpoint> {
    if listed == [] then None
    else
      var n := |listed| - 1;
      if listed[n].auto && listed[n].mark < num then Some(listed[n]) else LastAuto(listed[..n], num)
  }

  // ---- the session object ----

  class Session {
    var files: Files
    var undo: Files
    var journal: seq<Entry>
    var num: nat
    var cps: seq<Checkpoint>
    var counter: nat
    var pending: nat
    var interval: nat
    var persist: bool
    var maxAgeDays: real
    const store: Store

    ghost function Model(): State
      reads this, store
    {
      State(files, undo, journal, num, cps, counter, pending, interval, persist, maxAgeDays, store.Contents())
    }

    constructor (files: Files, interval: nat, persist: bool, maxAgeDays: real, store: Store)
      ensures this.store == store
      ensures Model() == State(files, map[], [], 0, [], 0, 0, interval, persist, maxAgeDays, store.Contents())
    {
      this.files, this.interval, this.persist, this.maxAgeDays, this.store := files, interval, persist, maxAgeDays, store;
      undo, journal, num, cps, counter, pending := map[], [], 0, [], 0, 0;
    }

    method ListCheckpoints() returns (listed: seq<Checkpoint>)
      ensures listed == Listed(cps)
    {
      listed := Sort(cps, ByMark);
    }

    method SaveCheckpoints()
      modifies store
      ensures Model() == Saved(old(Model()))
    {
      if persist {
        var listed := ListCheckpoints();
        store.SaveCheckpoints(listed);
      }
    }

    method CreateCheckpoint(title: string, auto: bool, now: real) returns (c: Checkpoint)
      modifies this, store
      ensures Model() == Created(old(Model()), title, auto, now)
      ensures c.mark == num && c.id == CpName(counter)
    {
      counter := counter + 1;
      var id := CpName(counter);
      c := Checkpoint(id, TitleOr(Strip(title), id), num, now, |Touched(journal)|, auto);
      cps := Assign(cps, c);
      SaveCheckpoints();
    }

    method MaybeAutoCheckpoint(now: real)
      modifies this, store
      ensures Model() == MaybeAuto(old(Model()), now)
    {
      if interval == 0 {
        return;
      }
      pending := pending + 1;
      if pending < interval {
        return;
      }
      pending := 0;
      var _ := CreateCheckpoint(AutoTitle(interval), true, now);
    }

    method AppendToJournal(e: Entry, now: real)
      modifies this`num, this`journal, store
      ensures Model() == old(Model()).(
        num := e.num,
        journal := old(journal) + [e],
        disk := if persist then Appended(old(store.Contents()), e, now) else old(store.Contents()))
    {
      num := e.num;
      journal := journal + [e];
      if persist {
        store.AppendEntry(e, now);
      }
    }

    method JournalRecord(path: Path, before: Option<Content>, afterSha: Option<Digest>,
                         pinned: Option<string>, actor: Option<string>, now: real)
      modifies this, store
      ensures Model() == Journaled(old(Model()), path, before, afterSha, pinned, actor, now)
    {
      var e := Entry(num + 1, path, before, Some(now), actor, ShaOf(before), afterSha, pinned);
      AppendToJournal(e, now);
      MaybeAutoCheckpoint(now);
    }

    /** A tool's write over whatever is there. `parses` is what the parser says of a Python file;
        `hashed` whether the written file could be read again. */
    method WriteFile(path: Path, content: Content, parses: bool, hashed: bool, pinned: Option<string>,
                     actor: Option<string>, now: real) returns (ok: bool)
      modifies this, store
      ensures ok == (path !in old(files) || parses)
      ensures Model() == if ok then Edited(old(Model()), path, content, hashed, pinned, actor, now)
                         else Broke(old(Model()), path, content)
    {
      var isNew := path !in files;
      if !isNew {
        undo := undo[path := files[path]];
      }
      files := files[path := content];
      if !isNew && !parses {
        return false;
      }
      JournalRecord(path, Get(undo, path), if hashed then Some(Sha(content)) else None, pinned, actor, now);
      ok := true;
    }

    method UndoFile(path: Path, blocked: set<Path>) returns (ok: bool)
      modifies this`files, this`undo
      ensures ok == (path in old(undo) && path !in blocked)
      ensures Model() == if ok then TakenBack(old(Model()), path) else old(Model())
    {
      if path !in undo || path in blocked {
        return false;
      }
      files := files[path := undo[path]];
      undo := undo - {path};
      ok := true;
    }

    method EditsSince(id: string) returns (n: nat)
      ensures n == match Find(cps, id) case None => 0 case Some(c) => |After(journal, c.mark)|
    {
      n := 0;
      var found := Find(cps, id);
      if found.Some? {
        for i := 0 to |journal|
          invariant n == |After(journal[..i], found.value.mark)|
        {
          AfterAppend(journal[..i], journal[i], found.value.mark);
          assert journal[..i + 1] == journal[..i] + [journal[i]];
          if journal[i].num > found.value.mark {
            n := n + 1;
          }
        }
        assert journal[..|journal|] == journal;
      }
    }

    /** Undo one edit; `failed` when the gate refuses the write or the unlink. */
    method UndoEdit(e: Entry, blocked: set<Path>) returns (failed: bool)
      modifies this`files
      ensures files == Undo(old(files), e, blocked)
      ensures failed == Refused(old(files), e, blocked)
    {
      failed := false;
      if e.before.None? {
        if e.path in files {
          if e.path in blocked {
            failed := true;
          } else {
            files := files - {e.path};
          }
        } else {
          assert files - {e.path} == files;
        }
      } else if e.path in blocked {
        failed := true;
      } else {
        files := files[e.path := e.before.value];
      }
    }

    /** Undo the window, newest edit first; a refused path is reported and skipped. */
    method Revert(window: seq<Entry>, blocked: set<Path>)
      returns (restored: set<Path>, deleted: set<Path>, errors: seq<Path>)
      modifies this`files
      ensures files == Replay(old(files), window, blocked)
      ensures restored == Rewrites(old(files), window, blocked)
      ensures deleted == Deletions(old(files), window, blocked)
      ensures errors == Failures(old(files), window, blocked)
    {
      restored, deleted, errors := {}, {}, [];
      ghost var was := files;
      var i := |window|;
      assert window[..i] == window;
      while i > 0
        invariant 0 <= i <= |window|
        invariant Replay(files, window[..i], blocked) == Replay(was, window, blocked)
        invariant forall p :: p in blocked ==> (p in files <==> p in was)
        invariant restored == Rewrites(was, window[i..], blocked)
        invariant deleted == Deletions(was, window[i..], blocked)
        invariant Failures(was, window, blocked) == errors + Failures(was, window[..i], blocked)
      {
        i := i - 1;
        var e := window[i];
        ReportExtends(was, window, i, blocked);
        ghost var now := files;
        var failed := UndoEdit(e, blocked);
        UndoFramesBlocked(now, e, blocked);
        assert failed == Refused(was, e, blocked);
        if failed {
          ghost var rest := Failures(was, window[..i], blocked);
          assert errors + ([e.path] + rest) == (errors + [e.path]) + rest;
          errors := errors + [e.path];
        } else if e.before.None? {
          deleted := deleted + {e.path};
        } else {
          restored := restored + {e.path};
        }
      }
    }

    method RollbackTo(id: string, blocked: set<Path>, now: real) returns (report: Report)
      modifies this, store
      ensures Model() == RolledBack(old(Model()), id, blocked, now)
      ensures report == ReportOf(old(Model()), id, blocked)
    {
      var found := Find(cps, id);
      if found.None? {
        return Unknown(id);
      }
      var c := found.value;
      var window := After(journal, c.mark);
      var restored, deleted, errors := Revert(window, blocked);
      pending := 0;
      journal := UpTo(journal, c.mark);
      cps := MarkedUpTo(cps, c.mark);
      if persist {
        store.RewriteJournal(journal, now);
        SaveCheckpoints();
      }
      report := Done(c.id, c.title, restored - deleted, deleted, |window|, errors);
    }

    method RollbackLastAuto(blocked: set<Path>, now: real) returns (report: Option<Report>)
      modifies this, store
      ensures match LatestAuto(old(cps), old(num))
              case None => report == None && Model() == old(Model())
              case Some(c) =>
                && report == Some(ReportOf(old(Model()), c.id, blocked))
                && Model() == RolledBack(old(Model()), c.id, blocked, now)
    {
      var latest := LatestAuto(cps, num);
      if latest.None? {
        return None;
      }
      var r := RollbackTo(latest.value.id, blocked, now);
      report := Some(r);
    }

    static method HighestSequence(journal: seq<Entry>) returns (n: nat)
      ensures n == HighestNum(journal)
    {
      n := 0;
      for i := 0 to |journal|
        invariant n == HighestNum(journal[..i])
      {
        assert journal[..i + 1][..i] == journal[..i];
        if journal[i].num > n {
          n := journal[i].num;
        }
      }
      assert journal[..|journal|] == journal;
    }

    static method ReviveMarkers(markers: seq<Checkpoint>, now: real) returns (cps: seq<Checkpoint>)
      ensures cps == ReviveAll(markers, now)
    {
      cps := [];
      for i := 0 to |markers|
        invariant cps == ReviveAll(markers[..i], now)
      {
        assert markers[..i + 1][..i] == markers[..i];
        cps := Assign(cps, Revived(markers[i], now));
      }
      assert markers[..|markers|] == markers;
    }

    /** Start over from what an earlier process left on disk. */
    method Setup(now: real)
      modifies this, store
      ensures Model() == Restarted(old(Model()), now)
    {
      journal, num, cps, counter, pending := [], 0, [], 0, 0;
      if persist {
        var _, _ := store.Prune(maxAgeDays, now);
        var loaded, markers := store.Load();
        journal := loaded;
        num := HighestSequence(loaded);
        cps := ReviveMarkers(markers, now);
        counter := HighestNumber(cps);
      }
    }
  }
}
