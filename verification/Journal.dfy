/** The edit journal of core/checkpoint.py: pre-images, windows of it, and reverse replay. */
module Journal {
  import opened Options

  type Path = string
  type Content = string

  /** The working tree. An absent key is a file that does not exist. */
  type Files = map<Path, Content>

  /** SHA-256 idealised: two digests are equal only when the hashed contents are. */
  datatype Digest = Digest(preimage: Content)

  function Sha(c: Content): Digest {
    Digest(c)
  }

  function ShaOf(c: Option<Content>): Option<Digest> {
    match c
    case None => None
    case Some(text) => Some(Sha(text))
  }

  datatype Entry = Entry(
    num: nat,                     // the sequence number
    path: Path,
    before: Option<Content>,      // None: the edit created the file
    ts: Option<real>,
    actor: Option<string>,
    beforeSha: Option<Digest>,
    afterSha: Option<Digest>,
    pinned: Option<string>)

  /** A marker into the journal. */
  datatype Checkpoint = Checkpoint(
    id: string,
    title: string,
    mark: nat,                    // the sequence number captured at creation
    ts: real,
    files: nat,
    auto: bool)

  function Get(files: Files, p: Path): Option<Content> {
    if p in files then Some(files[p]) else None
  }

  function Put(files: Files, p: Path, c: Option<Content>): (r: Files)
    ensures Get(r, p) == c
    ensures forall q :: q != p ==> Get(r, q) == Get(files, q)
  {
    match c
    case None => files - {p}
    case Some(text) => files[p := text]
  }

  /** Entries strictly after a marker, oldest first. */
  function After(journal: seq<Entry>, mark: int): seq<Entry> {
    if journal == [] then []
    else
      var n := |journal| - 1;
      var rest := After(journal[..n], mark);
      if journal[n].num > mark then rest + [journal[n]] else rest
  }

  /** What a rollback to the marker keeps of the journal. */
  function UpTo(journal: seq<Entry>, mark: int): seq<Entry> {
    if journal == [] then []
    else
      var n := |journal| - 1;
      var rest := UpTo(journal[..n], mark);
      if journal[n].num <= mark then rest + [journal[n]] else rest
  }

  /** Undo one edit; a path the write gate refuses keeps what it has. */
  function Undo(files: Files, e: Entry, blocked: set<Path>): Files {
    if e.path in blocked then files else Put(files, e.path, e.before)
  }

  /** Undo a whole window, newest edit first. */
  function Replay(files: Files, window: seq<Entry>, blocked: set<Path>): Files
    decreases |window|
  {
    if window == [] then files
    else
      var n := |window| - 1;
      Replay(Undo(files, window[n], blocked), window[..n], blocked)
  }

  /** The oldest entry of the window that touched `p`. */
  function FirstFor(window: seq<Entry>, p: Path): Option<Entry> {
    if window == [] then None
    else
      var n := |window| - 1;
      var first := FirstFor(window[..n], p);
      if first.Some? then first else if window[n].path == p then Some(window[n]) else None
  }

  /** The content of `p` at the marker, as the journal alone tells it. */
  function Restored(files: Files, journal: seq<Entry>, mark: int, p: Path): Option<Content> {
    match FirstFor(After(journal, mark), p)
    case Some(e) => e.before
    case None => Get(files, p)
  }

  /** Sequence numbers grow; gaps are allowed. */
  ghost predicate Ordered(journal: seq<Entry>) {
    forall i, j :: 0 <= i < j < |journal| ==> journal[i].num < journal[j].num
  }

  function LastSeq(journal: seq<Entry>): nat {
    if journal == [] then 0 else journal[|journal| - 1].num
  }

  // ---- windows ----

  lemma {:induction false} AfterAppend(journal: seq<Entry>, e: Entry, mark: int)
    ensures After(journal + [e], mark) == if e.num > mark then After(journal, mark) + [e] else After(journal, mark)
    ensures UpTo(journal + [e], mark) == if e.num <= mark then UpTo(journal, mark) + [e] else UpTo(journal, mark)
  {
    assert (journal + [e])[..|journal|] == journal;
  }

  lemma {:induction false} AfterMembers(journal: seq<Entry>, mark: int)
    ensures forall e :: e in After(journal, mark) <==> e in journal && e.num > mark
    ensures forall e :: e in UpTo(journal, mark) <==> e in journal && e.num <= mark
  {
    if journal != [] {
      var n := |journal| - 1;
      AfterMembers(journal[..n], mark);
      assert journal == journal[..n] + [journal[n]];
    }
  }

  lemma {:induction false} NothingAfter(journal: seq<Entry>, mark: int)
    requires forall e :: e in journal ==> e.num <= mark
    ensures After(journal, mark) == [] && UpTo(journal, mark) == journal
  {
    if journal != [] {
      var n := |journal| - 1;
      assert journal == journal[..n] + [journal[n]];
      NothingAfter(journal[..n], mark);
    }
  }

  /** In a growing journal the marker is a cut: what is kept, then what is undone. */
  lemma {:induction false} MarkerCuts(journal: seq<Entry>, mark: int)
    requires Ordered(journal)
    ensures UpTo(journal, mark) + After(journal, mark) == journal
  {
    if journal != [] {
      var n := |journal| - 1;
      assert journal == journal[..n] + [journal[n]];
      if journal[n].num <= mark {
        NothingAfter(journal, mark);
      } else {
        MarkerCuts(journal[..n], mark);
      }
    }
  }

  /** Cutting twice is cutting once, at the earlier marker. */
  lemma {:induction false} CutTwice(journal: seq<Entry>, early: int, late: int)
    requires early <= late
    ensures UpTo(UpTo(journal, late), early) == UpTo(journal, early)
    ensures After(UpTo(journal, late), early) == UpTo(After(journal, early), late)
    ensures After(After(journal, early), late) == After(journal, late)
  {
    if journal != [] {
      var rest, e := journal[..|journal| - 1], journal[|journal| - 1];
      CutTwice(rest, early, late);
      AfterAppend(UpTo(rest, late), e, early);
      AfterAppend(After(rest, early), e, late);
    }
  }

  lemma {:induction false} AfterOrdered(journal: seq<Entry>, mark: int)
    requires Ordered(journal)
    ensures Ordered(After(journal, mark))
  {
    MarkerCuts(journal, mark);
    assert After(journal, mark) == journal[|UpTo(journal, mark)|..];
  }

  /** The window after an early marker is the part up to a later one, then the rest. */
  lemma {:induction false} WindowSplits(journal: seq<Entry>, early: int, late: int)
    requires Ordered(journal) && early <= late
    ensures After(journal, early) == After(UpTo(journal, late), early) + After(journal, late)
  {
    MarkerCuts(journal, early);
    CutTwice(journal, early, late);
    var window := After(journal, early);
    assert window == journal[|UpTo(journal, early)|..];
    MarkerCuts(window, late);
  }

  // ---- replay ----

  lemma {:induction false} FirstForConcat(a: seq<Entry>, b: seq<Entry>, p: Path)
    ensures FirstFor(a + b, p) == if FirstFor(a, p).Some? then FirstFor(a, p) else FirstFor(b, p)
  {
    if b == [] {
      assert a + b == a;
    } else {
      var n := |b| - 1;
      FirstForConcat(a, b[..n], p);
      assert (a + b)[..|a + b| - 1] == a + b[..n];
    }
  }

  lemma {:induction false} FirstForMember(window: seq<Entry>, p: Path)
    ensures FirstFor(window, p).Some? ==> FirstFor(window, p).value in window && FirstFor(window, p).value.path == p
    ensures FirstFor(window, p).Some? <==> exists e :: e in window && e.path == p
  {
    if window != [] {
      var n := |window| - 1;
      FirstForMember(window[..n], p);
      assert window == window[..n] + [window[n]];
    }
  }

  /**
   * Reverse replay means: every path the window touched goes back to what it held before its
   * oldest edit there; every other path, and every refused one, is left alone.
   */
  lemma {:induction false} ReplayMeans(files: Files, window: seq<Entry>, blocked: set<Path>, p: Path)
    ensures Get(Replay(files, window, blocked), p) ==
            if p !in blocked && FirstFor(window, p).Some? then FirstFor(window, p).value.before
            else Get(files, p)
    decreases |window|
  {
    if window != [] {
      var n := |window| - 1;
      ReplayMeans(Undo(files, window[n], blocked), window[..n], blocked, p);
    }
  }

  lemma {:induction false} ReplayConcat(files: Files, a: seq<Entry>, b: seq<Entry>, blocked: set<Path>)
    ensures Replay(files, a + b, blocked) == Replay(Replay(files, b, blocked), a, blocked)
    decreases |b|
  {
    if b == [] {
      assert a + b == a;
    } else {
      var n := |b| - 1;
      ReplayConcat(Undo(files, b[n], blocked), a, b[..n], blocked);
      assert (a + b)[..|a + b| - 1] == a + b[..n];
    }
  }
}
