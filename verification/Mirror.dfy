/** What the disk mirror promises: nothing is lost on the way to disk and back, or by pruning. */
module Mirror {
  import opened Options
  import opened Journal
  import opened Sorting
  import opened CheckpointStore

  /** Content addressing: a blob sits under the digest of what it holds. */
  ghost predicate Addressed(blobs: map<Digest, Content>) {
    forall d :: d in blobs ==> Sha(blobs[d]) == d
  }

  /** No line refers to a blob that is missing. */
  ghost predicate Resolves(d: Disk) {
    forall l :: l in d.lines && l.Good? && l.record.blob.Some? ==> l.record.blob.value in d.blobs
  }

  ghost predicate Mirrors(d: Disk, journal: seq<Entry>) {
    Addressed(d.blobs) && Resolves(d) && DecodeAll(d.blobs, d.lines) == journal
  }

  /** Shape of an entry this program records: hashed pre-image, a time stamp not taken for missing. */
  ghost predicate Canonical(e: Entry) {
    e.beforeSha == ShaOf(e.before) && e.ts.Some? && e.ts.value != 0.0
  }

  ghost predicate AllCanonical(journal: seq<Entry>) {
    forall e :: e in journal ==> Canonical(e)
  }

  ghost predicate Grows(a: map<Digest, Content>, b: map<Digest, Content>) {
    forall d :: d in a ==> d in b && b[d] == a[d]
  }

  /** Exactly which entries survive the trip to disk and back unchanged. */
  lemma {:induction false} EntryRoundTrip(blobs: map<Digest, Content>, e: Entry, now: real)
    requires Addressed(blobs)
    ensures Decode(StoreBlob(blobs, e.before), Good(RecordOf(e, now))) == Some(e) <==>
            e.beforeSha == ShaOf(e.before) && e.ts.Some? && (e.ts.value != 0.0 || now == 0.0)
  {
    if e.before.Some? {
      var digest := Sha(e.before.value);
      assert digest in blobs ==> Sha(blobs[digest]) == digest;
    }
  }

  lemma {:induction false} StoreBlobsGrow(blobs: map<Digest, Content>, journal: seq<Entry>)
    ensures Grows(blobs, StoreBlobs(blobs, journal))
    ensures Addressed(blobs) ==> Addressed(StoreBlobs(blobs, journal))
    ensures StoreBlobs(blobs, journal).Keys == blobs.Keys + Referenced(journal)
  {
    if journal != [] {
      var n := |journal| - 1;
      StoreBlobsGrow(blobs, journal[..n]);
      assert journal == journal[..n] + [journal[n]];
    }
  }

  /** Adding blobs never changes what already resolved lines decode to. */
  lemma {:induction false} DecodeStable(a: map<Digest, Content>, b: map<Digest, Content>, lines: seq<Line>)
    requires Grows(a, b)
    requires forall l :: l in lines && l.Good? && l.record.blob.Some? ==> l.record.blob.value in a
    ensures DecodeAll(a, lines) == DecodeAll(b, lines)
  {
    if lines != [] {
      DecodeStable(a, b, lines[..|lines| - 1]);
    }
  }

  lemma {:induction false} AppendMirrors(d: Disk, journal: seq<Entry>, e: Entry, now: real)
    requires Mirrors(d, journal) && Canonical(e)
    ensures Mirrors(Appended(d, e, now), journal + [e])
  {
    var next := Appended(d, e, now);
    EntryRoundTrip(d.blobs, e, now);
    DecodeStable(d.blobs, next.blobs, d.lines);
    DecodeAppend(next.blobs, d.lines, Good(RecordOf(e, now)));
  }

  lemma {:induction false} DecodeAppend(blobs: map<Digest, Content>, lines: seq<Line>, l: Line)
    ensures var e := Decode(blobs, l);
            DecodeAll(blobs, lines + [l]) ==
            if e.Some? then DecodeAll(blobs, lines) + [e.value] else DecodeAll(blobs, lines)
  {
    assert (lines + [l])[..|lines|] == lines;
  }

  lemma {:induction false} DecodeLines(blobs: map<Digest, Content>, journal: seq<Entry>, now: real)
    requires Addressed(blobs) && AllCanonical(journal)
    requires Referenced(journal) <= blobs.Keys
    ensures DecodeAll(blobs, LinesOf(journal, now)) == journal
    ensures Resolves(Disk(LinesOf(journal, now), [], blobs))
  {
    if journal != [] {
      var rest, e := journal[..|journal| - 1], journal[|journal| - 1];
      assert journal == rest + [e];
      assert e in journal;
      var line := Good(RecordOf(e, now));
      assert LinesOf(journal, now) == LinesOf(rest, now) + [line];
      DecodeLines(blobs, rest, now);
      DecodeAppend(blobs, LinesOf(rest, now), line);
      assert StoreBlob(blobs, e.before) == blobs by {
        assert e.before.Some? ==> Sha(e.before.value) in Referenced(journal);
      }
      EntryRoundTrip(blobs, e, now);
    }
  }

  /** A wholesale rewrite mirrors the journal whatever lines were there before. */
  lemma {:induction false} RewriteMirrors(d: Disk, journal: seq<Entry>, now: real)
    requires Addressed(d.blobs) && AllCanonical(journal)
    ensures Mirrors(Rewritten(d, journal, now), journal)
  {
    StoreBlobsGrow(d.blobs, journal);
    DecodeLines(StoreBlobs(d.blobs, journal), journal, now);
  }

  /** Reading the mirror gives back the journal itself, in sequence order. */
  lemma {:induction false} LoadReturnsJournal(d: Disk, journal: seq<Entry>)
    requires Mirrors(d, journal) && Ordered(journal)
    ensures LoadJournal(d) == journal
  {
    SortIdentity(journal, ByNum);
  }

  /** The entry a good line stands for, its pre-image coming from the blobs. */
  ghost predicate Restores(r: Record, blobs: map<Digest, Content>, e: Entry) {
    && e.num == r.num && e.path == r.path && e.ts == r.ts && e.actor == r.actor && e.afterSha == r.afterSha
    && e.pinned == r.pinned && e.beforeSha == r.blob
    && match r.blob
       case None => e.before == None
       case Some(digest) => digest in blobs && e.before == Some(blobs[digest])
  }

  lemma {:induction false} DecodedAre(blobs: map<Digest, Content>, lines: seq<Line>, e: Entry)
    ensures e in DecodeAll(blobs, lines) <==> exists l :: l in lines && l.Good? && Restores(l.record, blobs, e)
    ensures |DecodeAll(blobs, lines)| <= |lines|
  {
    if lines != [] {
      var n := |lines| - 1;
      DecodedAre(blobs, lines[..n], e);
      assert lines == lines[..n] + [lines[n]];
    }
  }

  lemma {:induction false} ByNumTotal()
    ensures TotalPreorder(ByNum)
  {
  }

  /** What is loaded off any disk, mirror or not: exactly the lines that decode and whose pre-image is
      still there, by sequence number. */
  lemma {:induction false} LoadedAre(d: Disk, e: Entry)
    ensures e in LoadJournal(d) <==> exists l :: l in d.lines && l.Good? && Restores(l.record, d.blobs, e)
    ensures forall i, j :: 0 <= i < j < |LoadJournal(d)| ==> LoadJournal(d)[i].num <= LoadJournal(d)[j].num
  {
    DecodedAre(d.blobs, d.lines, e);
    SortMembers(DecodeAll(d.blobs, d.lines), ByNum);
    ByNumTotal();
    SortSorted(DecodeAll(d.blobs, d.lines), ByNum);
    forall i, j | 0 <= i < j < |LoadJournal(d)|
      ensures LoadJournal(d)[i].num <= LoadJournal(d)[j].num
    {
      assert ByNum(LoadJournal(d)[i], LoadJournal(d)[j]);
    }
  }

  // ---- pruning ----

  /** Time stamps do not run backwards along the journal. */
  ghost predicate Aging(journal: seq<Entry>) {
    forall i, j :: 0 <= i < j < |journal| ==> Age(journal[i]) <= Age(journal[j])
  }

  lemma {:induction false} YoungerMembers(journal: seq<Entry>, cutoff: real)
    ensures forall e :: e in Younger(journal, cutoff) <==> e in journal && Age(e) >= cutoff
  {
    if journal != [] {
      var n := |journal| - 1;
      YoungerMembers(journal[..n], cutoff);
      assert journal == journal[..n] + [journal[n]];
    }
  }

  lemma {:induction false} YoungerOrdered(journal: seq<Entry>, cutoff: real)
    requires Ordered(journal)
    ensures Ordered(Younger(journal, cutoff))
  {
    if journal != [] {
      var n := |journal| - 1;
      YoungerOrdered(journal[..n], cutoff);
      YoungerMembers(journal[..n], cutoff);
      forall e | e in Younger(journal[..n], cutoff)
        ensures e.num < journal[n].num
      {
        var i :| 0 <= i < n && journal[i] == e;
      }
    }
  }

  lemma {:induction false} YoungerAging(journal: seq<Entry>, cutoff: real)
    requires Aging(journal)
    ensures Aging(Younger(journal, cutoff))
  {
    if journal != [] {
      var n := |journal| - 1;
      YoungerAging(journal[..n], cutoff);
      YoungerMembers(journal[..n], cutoff);
      forall e | e in Younger(journal[..n], cutoff)
        ensures Age(e) <= Age(journal[n])
      {
        var i :| 0 <= i < n && journal[i] == e;
      }
    }
  }

  lemma {:induction false} YoungerAppend(window: seq<Entry>, e: Entry, cutoff: real)
    ensures Younger(window + [e], cutoff) == if Age(e) >= cutoff then Younger(window, cutoff) + [e] else Younger(window, cutoff)
  {
    assert (window + [e])[..|window|] == window;
  }

  lemma {:induction false} YoungerAfter(journal: seq<Entry>, cutoff: real, mark: int)
    ensures After(Younger(journal, cutoff), mark) == Younger(After(journal, mark), cutoff)
  {
    if journal != [] {
      var n := |journal| - 1;
      var rest, e := journal[..n], journal[n];
      assert journal == rest + [e];
      YoungerAfter(rest, cutoff, mark);
      YoungerAppend(rest, e, cutoff);
      AfterAppend(rest, e, mark);
      AfterAppend(Younger(rest, cutoff), e, mark);
      YoungerAppend(After(rest, mark), e, cutoff);
    }
  }

  lemma {:induction false} YoungerAll(window: seq<Entry>, cutoff: real)
    ensures Younger(window, cutoff) == window <==> forall e :: e in window ==> Age(e) >= cutoff
  {
    YoungerMembers(window, cutoff);
    if Younger(window, cutoff) != window {
      if forall e :: e in window ==> Age(e) >= cutoff {
        var n := |window| - 1;
        assert window == window[..n] + [window[n]];
        YoungerAll(window[..n], cutoff);
        assert false;
      }
    }
  }

  /** Which entries outlive a prune: those no older than so many days of 24 hours, a missing stamp being
      as old as the clock itself; all of them where no age is set. */
  lemma {:induction false} SurvivorsAre(d: Disk, maxAgeDays: real, now: real, e: Entry)
    ensures e in Survivors(d, maxAgeDays, now) <==>
            e in LoadJournal(d) &&
            (maxAgeDays <= 0.0 || now - (if e.ts.Some? then e.ts.value else 0.0) <= maxAgeDays * 24.0 * 60.0 * 60.0)
  {
    YoungerMembers(LoadJournal(d), now - maxAgeDays * SECONDS_PER_DAY);
  }

  /** Which markers do: all, if no entry goes; else those with an id that reach back no further than to
      just before the first entry left, and none if none is left. */
  lemma {:induction false} SurvivingMarkersAre(d: Disk, maxAgeDays: real, now: real, c: Checkpoint)
    ensures var kept := Survivors(d, maxAgeDays, now);
      c in Pruned(d, maxAgeDays, now).markers <==>
      c in d.markers &&
      (|kept| == |LoadJournal(d)| || (c.id != "" && kept != [] && c.mark + 1 >= kept[0].num))
  {
    var kept := Survivors(d, maxAgeDays, now);
    if kept != [] {
      MarkersFromMembers(LoadMarkers(d.markers), kept[0].num - 1);
    }
    MarkersFromMembers(d.markers, 0);
  }

  /** Pruning leaves the window after a marker alone exactly when none of it is past the cap. */
  lemma {:induction false} YoungerWindow(journal: seq<Entry>, cutoff: real, mark: int)
    ensures After(Younger(journal, cutoff), mark) == After(journal, mark) <==>
            forall e :: e in journal && e.num > mark ==> Age(e) >= cutoff
  {
    YoungerAfter(journal, cutoff, mark);
    YoungerAll(After(journal, mark), cutoff);
    AfterMembers(journal, mark);
  }

  lemma {:induction false} MarkersFromMembers(markers: seq<Checkpoint>, least: int)
    ensures forall c :: c in MarkersFrom(markers, least) <==> c in markers && c.mark >= least
    ensures forall c :: c in LoadMarkers(markers) <==> c in markers && c.id != ""
  {
    if markers != [] {
      var n := |markers| - 1;
      MarkersFromMembers(markers[..n], least);
      assert markers == markers[..n] + [markers[n]];
    }
  }

  /** The pruned disk still mirrors a journal, and holds exactly the blobs that journal needs. */
  lemma {:induction false} PruneMirrors(d: Disk, journal: seq<Entry>, maxAgeDays: real, now: real)
    requires Mirrors(d, journal) && Ordered(journal) && AllCanonical(journal)
    ensures var kept := Survivors(d, maxAgeDays, now);
            && Mirrors(Pruned(d, maxAgeDays, now), kept)
            && Ordered(kept) && AllCanonical(kept)
            && (Aging(journal) ==> Aging(kept))
            && Pruned(d, maxAgeDays, now).blobs.Keys == Referenced(kept)
            && LoadJournal(Pruned(d, maxAgeDays, now)) == kept
  {
    LoadReturnsJournal(d, journal);
    var kept := Survivors(d, maxAgeDays, now);
    var cutoff := now - maxAgeDays * SECONDS_PER_DAY;
    YoungerMembers(journal, cutoff);
    YoungerOrdered(journal, cutoff);
    if Aging(journal) { YoungerAging(journal, cutoff); }
    YoungerShorter(journal, cutoff);
    var aged := Aged(d, maxAgeDays, now);
    if |kept| == |journal| {
      assert kept == journal;
      ReferencedResolve(d, journal);
    } else {
      RewriteMirrors(d, kept, now);
      ReferencedResolve(Rewritten(d, kept, now), kept);
    }
    assert Mirrors(aged, kept) && Referenced(kept) <= aged.blobs.Keys;
    CollectMirrors(aged, kept);
    LoadReturnsJournal(Pruned(d, maxAgeDays, now), kept);
  }

  /** Blobs the journal's pre-images live in are all present. */
  lemma {:induction false} ReferencedResolve(d: Disk, journal: seq<Entry>)
    requires Mirrors(d, journal)
    ensures Referenced(journal) <= d.blobs.Keys
    ensures forall l :: l in d.lines && l.Good? && l.record.blob.Some? ==> l.record.blob.value in Referenced(journal)
    decreases |d.lines|
  {
    if d.lines != [] {
      var n := |d.lines| - 1;
      var rest := d.(lines := d.lines[..n]);
      assert d.lines == rest.lines + [d.lines[n]];
      ReferencedResolve(rest, DecodeAll(d.blobs, rest.lines));
    }
  }

  /** Deleting what nothing refers to is invisible to a reader. */
  lemma {:induction false} CollectMirrors(d: Disk, journal: seq<Entry>)
    requires Mirrors(d, journal)
    ensures Mirrors(d.(blobs := Collected(d.blobs, Referenced(journal))), journal)
    ensures Collected(d.blobs, Referenced(journal)).Keys == Referenced(journal)
  {
    ReferencedResolve(d, journal);
    var blobs := Collected(d.blobs, Referenced(journal));
    DecodeStable(blobs, d.blobs, d.lines);
  }

  /**
   * A surviving marker rolls back through the same window as before the prune exactly when no
   * entry of its window is past the age cap.
   */
  lemma {:induction false} PruneWindow(d: Disk, journal: seq<Entry>, maxAgeDays: real, now: real, mark: int)
    requires Mirrors(d, journal) && Ordered(journal)
    ensures After(Survivors(d, maxAgeDays, now), mark) == After(journal, mark) <==>
            maxAgeDays <= 0.0 ||
            forall e :: e in journal && e.num > mark ==> Age(e) >= now - maxAgeDays * SECONDS_PER_DAY
  {
    LoadReturnsJournal(d, journal);
    YoungerWindow(journal, now - maxAgeDays * SECONDS_PER_DAY, mark);
  }

  lemma {:induction false} FromOldestOn(journal: seq<Entry>, cutoff: real, e: Entry)
    requires Ordered(journal) && Aging(journal) && e in journal
    requires Younger(journal, cutoff) != [] && e.num >= Younger(journal, cutoff)[0].num
    ensures Age(e) >= cutoff
  {
    var oldest := Younger(journal, cutoff)[0];
    YoungerMembers(journal, cutoff);
    assert oldest in Younger(journal, cutoff);
    var i :| 0 <= i < |journal| && journal[i] == oldest;
    var k :| 0 <= k < |journal| && journal[k] == e;
    assert i <= k;
  }

  /** With a clock that never runs backwards, every surviving marker keeps its whole window. */
  lemma {:induction false} PruneKeepsWindows(d: Disk, journal: seq<Entry>, maxAgeDays: real, now: real,
                                             c: Checkpoint)
    requires Mirrors(d, journal) && Ordered(journal) && Aging(journal)
    requires c in Pruned(d, maxAgeDays, now).markers
    ensures c in d.markers
    ensures After(Survivors(d, maxAgeDays, now), c.mark) == After(journal, c.mark)
  {
    LoadReturnsJournal(d, journal);
    var kept := Survivors(d, maxAgeDays, now);
    var cutoff := now - maxAgeDays * SECONDS_PER_DAY;
    YoungerShorter(journal, cutoff);
    if |kept| < |journal| {
      MarkersFromMembers(LoadMarkers(d.markers), kept[0].num - 1);
      MarkersFromMembers(d.markers, 0);
      forall e | e in journal && e.num > c.mark
        ensures Age(e) >= cutoff
      {
        FromOldestOn(journal, cutoff, e);
      }
      YoungerWindow(journal, cutoff, c.mark);
    }
  }
}
