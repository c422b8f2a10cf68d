/** What a rollback reports, against the state it leaves: core/checkpoint.py. */
module CheckpointReports {
  import opened Options
  import opened Journal
  import opened CheckpointSession
  import opened CheckpointInvariant
  import opened CheckpointRuns

  /** Undone entries of the path that have something to write back or to remove. */
  function Tries(journal: seq<Entry>, mark: int, p: Path, there: bool): nat {
    if journal == [] then 0
    else
      var n := |journal| - 1;
      var e := journal[n];
      Tries(journal[..n], mark, p, there) +
      if e.num > mark && e.path == p && (e.before.Some? || there) then 1 else 0
  }

  function Occurrences(errors: seq<Path>, p: Path): nat {
    if errors == [] then 0 else (if errors[0] == p then 1 else 0) + Occurrences(errors[1..], p)
  }

  lemma {:induction false} KeptAndCut(journal: seq<Entry>, mark: int)
    ensures |UpTo(journal, mark)| + |After(journal, mark)| == |journal|
  {
    if journal != [] {
      KeptAndCut(journal[..|journal| - 1], mark);
    }
  }

  lemma {:induction false} FailuresAre(files: Files, journal: seq<Entry>, mark: int, blocked: set<Path>,
                                       p: Path)
    ensures Occurrences(Failures(files, After(journal, mark), blocked), p) ==
            if p in blocked then Tries(journal, mark, p, p in files) else 0
  {
    if journal != [] {
      var n := |journal| - 1;
      var window := After(journal[..n], mark);
      FailuresAre(files, journal[..n], mark, blocked, p);
      if journal[n].num > mark {
        assert (window + [journal[n]])[..|window|] == window;
        var rest := Failures(files, window, blocked);
        assert ([journal[n].path] + rest)[1..] == rest;
      }
    }
  }

  /** The report names the checkpoint, counts the edits the journal lost, and lists a path among the
      errors exactly when it was refused, once for each of its undone edits that had something to
      write back or to remove. An unknown id is reported as such, and nothing changes. */
  lemma {:induction false} ReportCounts(s: State, id: string, blocked: set<Path>, now: real, p: Path)
    requires Core(s)
    ensures var report, next := ReportOf(s, id, blocked), RolledBack(s, id, blocked, now);
      if forall c :: c in s.cps ==> c.id != id then report == Unknown(id) && next == s
      else
        exists c :: c in s.cps && c.id == id && report.Done? && report.id == id && report.title == c.title &&
          report.reverted == |s.journal| - |next.journal| &&
          Occurrences(report.errors, p) == if p in blocked then Tries(s.journal, c.mark, p, p in s.files) else 0
  {
    FindMeans(s.cps, id);
    if c :| c in s.cps && c.id == id {
      assert Find(s.cps, id) == Some(c);
      KeptAndCut(s.journal, c.mark);
      FailuresAre(s.files, s.journal, c.mark, blocked, p);
    }
  }

  /** Errors come newest edit first. */
  lemma {:induction false} ErrorsAreNewestFirst(files: Files, window: seq<Entry>, e: Entry, blocked: set<Path>)
    requires e.path in blocked && (e.before.Some? || e.path in files)
    ensures Failures(files, window + [e], blocked) == [e.path] + Failures(files, window, blocked)
  {
    assert (window + [e])[..|window|] == window;
  }

  /** A path is listed as written back or as deleted only where its undo was not refused. */
  lemma {:induction false} ListsAreApart(s: State, id: string, blocked: set<Path>, p: Path)
    requires Find(s.cps, id).Some?
    ensures var report, mark := ReportOf(s, id, blocked), Find(s.cps, id).value.mark;
      && report.Done? && !(p in report.restored && p in report.deleted)
      && (p in report.restored || p in report.deleted <==>
            exists e :: e in After(s.journal, mark) && e.path == p && (p in blocked ==> e.before.None? && p !in s.files))
  {
  }

  /** Besides the files a rollback drops the later entries and checkpoints, starts the count to the next
      automatic checkpoint anew, and leaves numbering, ids, notes and settings alone. */
  lemma {:induction false} RollbackLeaves(s: State, id: string, blocked: set<Path>, now: real, c: Checkpoint,
                                          e: Entry)
    requires Find(s.cps, id).Some?
    ensures var next, mark := RolledBack(s, id, blocked, now), Find(s.cps, id).value.mark;
      && next.pending == 0 && next.num == s.num && next.counter == s.counter && next.undo == s.undo
      && next.interval == s.interval && next.persist == s.persist && next.maxAgeDays == s.maxAgeDays
      && (c in next.cps <==> c in s.cps && c.mark <= mark) && (e in next.journal <==> e in s.journal && e.num <= mark)
  {
    MarkedUpToMeans(s.cps, Find(s.cps, id).value.mark);
    AfterMembers(s.journal, Find(s.cps, id).value.mark);
  }

  // ---- the tools' notes ----

  /** A call that wrote nothing has noted what is there, or dropped the note, and done nothing else; of a
      missing file it notes nothing. */
  lemma {:induction false} AttemptNotes(s: State, path: Path, kept: bool, q: Path)
    ensures var next := Step(s, Attempt(path, kept));
      && next == s.(undo := next.undo) && (q != path || path !in s.files ==> Get(next.undo, q) == Get(s.undo, q))
      && (path in s.files ==> Get(next.undo, path) == if kept then Some(s.files[path]) else None)
  {
  }

  /** Set up again in the same process the tools keep their notes; a new process has none. */
  lemma {:induction false} SetUpNotes(s: State, now: real, q: Path)
    ensures Get(Step(s, Restart(now, true)).undo, q) == Get(s.undo, q) && Get(Step(s, Restart(now, false)).undo, q) == None
    ensures forall same :: Step(s, Restart(now, same)).(undo := s.undo) == Restarted(s, now)
  {
  }

  /** An unparsable text over a Python file is written and what was there noted; taking back writes the
      note and drops it. Neither touches another path, nor anything but files and notes. */
  lemma {:induction false} UnjournaledReads(s: State, path: Path, content: Content, q: Path)
    ensures var next := Step(s, Break(path, content));
      && next == s.(files := next.files, undo := next.undo)
      && (path in s.files ==> Get(next.files, path) == Some(content) && Get(next.undo, path) == Some(s.files[path]))
      && (path !in s.files ==> next == s)
      && (q != path ==> Get(next.files, q) == Get(s.files, q) && Get(next.undo, q) == Get(s.undo, q))
    ensures var next := Step(s, TakeBack(path));
      && next == s.(files := next.files, undo := next.undo)
      && (path in s.undo ==> Get(next.files, path) == Some(s.undo[path]) && path !in next.undo)
      && (path !in s.undo ==> next == s)
      && (q != path ==> Get(next.files, q) == Get(s.files, q) && Get(next.undo, q) == Get(s.undo, q))
  {
  }

  /** An edit writes its text, notes what was there, and journals as pre-image what is noted then: what
      was there, or for a new file the note of an older one, if there is one. */
  lemma {:induction false} EditReads(s: State, op: Op, q: Path)
    requires op.Edit?
    ensures var next, p := Step(s, op), op.path;
      && Get(next.files, p) == Some(op.content)
      && (q != p ==> Get(next.files, q) == Get(s.files, q) && Get(next.undo, q) == Get(s.undo, q))
      && Get(next.undo, p) == (if p in s.files then Some(s.files[p]) else Get(s.undo, p))
      && |next.journal| == |s.journal| + 1 && next.journal[..|s.journal|] == s.journal && next.num == s.num + 1
      && Journals(next.journal[|s.journal|], op, s.num + 1, Get(next.undo, p))
  {
    EditedMeans(s, op.path, op.content, op.hashed, op.pinned, op.actor, op.now);
  }

  predicate Journals(e: Entry, op: Op, num: nat, before: Option<Content>)
    requires op.Edit?
  {
    && e.num == num && e.path == op.path && e.before == before && e.beforeSha == ShaOf(before)
    && e.ts == Some(op.now) && e.actor == op.actor && e.pinned == op.pinned
    && e.afterSha == if op.hashed then Some(Sha(op.content)) else None
  }
}
