/** Where a diff is cut, told on the text itself: cli/commit.py. */
module DiffCuts {
  import opened DiffChunks
  import opened DiffChunkLaws

  /** A line of the text starts at i, and starts with the mark. */
  predicate MarkAt(s: string, i: nat, mark: string) {
    i <= |s| && (i == 0 || s[i - 1] == '\n') && mark <= s[i..]
  }

  /** A mark fits in a line. */
  predicate InLine(mark: string) {
    mark != "" && forall k :: 0 <= k < |mark| ==> mark[k] != '\n'
  }

  // ---- the header ----

  lemma {:induction false} MarkInFirstLine(s: string, mark: string)
    requires s != "" && InLine(mark)
    ensures mark <= s <==> Marked(s[..LineLength(s)], mark)
  {
    PrefixAt(mark, s, LineLength(s) - 1);
  }

  lemma {:induction false} PrefixAt(a: string, s: string, k: nat)
    ensures a <= s && k < |a| ==> a[k] == s[k]
  {
  }

  lemma {:induction false} MarkAfterFirstLine(s: string, i: nat, mark: string)
    requires s != "" && InLine(mark) && MarkAt(s, i, mark) && i > 0
    ensures i >= LineLength(s) && MarkAt(s[LineLength(s)..], i - LineLength(s), mark)
  {
    var n := LineLength(s);
    assert i >= n;
    assert s[n..][i - n..] == s[i..];
  }

  /** The text in front of the first marked line, all of it if there is none. */
  function FrontOf(s: string, mark: string): string {
    if s == "" || Marked(s[..LineLength(s)], mark) then ""
    else s[..LineLength(s)] + FrontOf(s[LineLength(s)..], mark)
  }

  predicate AnyMarked(s: string, mark: string) {
    s != "" && (Marked(s[..LineLength(s)], mark) || AnyMarked(s[LineLength(s)..], mark))
  }

  lemma {:induction false} FrontLines(s: string, mark: string)
    ensures var lines := Lines(s);
      var k := LinesBefore(lines, mark);
      Flat(lines[..k]) == FrontOf(s, mark) && (k < |lines| <==> AnyMarked(s, mark))
    decreases |s|
  {
    if s != "" {
      var n := LineLength(s);
      var lines, rest := Lines(s), Lines(s[n..]);
      assert lines == [s[..n]] + rest && lines[1..] == rest;
      FrontLines(s[n..], mark);
      if !Marked(s[..n], mark) {
        var k := LinesBefore(rest, mark);
        assert lines[..k + 1] == [s[..n]] + rest[..k];
        FlatConcat([s[..n]], rest[..k]);
        FlatOne(s[..n]);
      }
    }
  }

  /** It is in front of the first mark. */
  ghost predicate FrontsMark(s: string, mark: string, front: string) {
    && front <= s && (forall i: nat :: i < |front| ==> !MarkAt(s, i, mark))
    && (if AnyMarked(s, mark) then MarkAt(s, |front|, mark) else front == s && !MarkAt(s, |s|, mark))
  }

  lemma {:induction false} FrontIsBeforeMark(s: string, mark: string)
    requires InLine(mark)
    ensures FrontsMark(s, mark, FrontOf(s, mark))
    decreases |s|
  {
    if s != "" {
      var n := LineLength(s);
      MarkInFirstLine(s, mark);
      if Marked(s[..n], mark) {
        assert s[0..] == s;
      } else {
        FrontIsBeforeMark(s[n..], mark);
        FrontMoves(s, FrontOf(s[n..], mark), mark);
      }
    }
  }

  lemma {:induction false} FrontMoves(s: string, front: string, mark: string)
    requires s != "" && InLine(mark) && !(mark <= s) && FrontsMark(s[LineLength(s)..], mark, front)
    requires !Marked(s[..LineLength(s)], mark)
    ensures FrontsMark(s, mark, s[..LineLength(s)] + front)
  {
    var n := LineLength(s);
    NoMarkBefore(s, front, mark);
    MarkShifts(s, n, |front|, mark);
    Halves(s, n);
    assert |s[..n] + front| == n + |front|;
    assert AnyMarked(s, mark) == AnyMarked(s[n..], mark);
  }

  lemma {:induction false} Halves(s: string, n: nat)
    requires n <= |s|
    ensures s[..n] + s[n..] == s
  {
  }

  lemma {:induction false} NoMarkBefore(s: string, front: string, mark: string)
    requires s != "" && InLine(mark) && !(mark <= s) && front <= s[LineLength(s)..]
    requires forall i: nat :: i < |front| ==> !MarkAt(s[LineLength(s)..], i, mark)
    ensures s[..LineLength(s)] + front <= s
    ensures forall i: nat :: i < LineLength(s) + |front| ==> !MarkAt(s, i, mark)
  {
    var n := LineLength(s);
    assert s == s[..n] + s[n..];
    forall i: nat | i < n + |front| ensures !MarkAt(s, i, mark) {
      if MarkAt(s, i, mark) && i > 0 {
        MarkAfterFirstLine(s, i, mark);
      }
    }
  }

  lemma {:induction false} MarkShifts(s: string, n: nat, j: nat, mark: string)
    requires s != "" && n == LineLength(s) && j <= |s[n..]| && InLine(mark)
    ensures MarkAt(s[n..], j, mark) ==> MarkAt(s, n + j, mark)
    ensures !MarkAt(s, |s|, mark)
  {
    assert s[n..][j..] == s[n + j..];
  }

  /** The header is the text in front of the first line that starts with "@@", and nothing where no
      line does. */
  lemma {:induction false} HeaderIs(block: string)
    ensures Header(block) <= block
    ensures forall i: nat :: MarkAt(block, i, "@@") ==> |Header(block)| <= i && MarkAt(block, |Header(block)|, "@@")
    ensures (forall i: nat :: !MarkAt(block, i, "@@")) ==> Header(block) == ""
  {
    FrontLines(block, "@@");
    FrontIsBeforeMark(block, "@@");
    assert Flat([]) == "";
    if !AnyMarked(block, "@@") {
      forall i: nat ensures !MarkAt(block, i, "@@") {
      }
    }
  }

  // ---- the cuts ----

  /** Lines, only the last of which may lack its end. */
  predicate AreLines(lines: seq<string>) {
    Seamless(lines) && forall i :: 0 <= i < |lines| ==> IsLine(lines[i])
  }

  ghost predicate NoMarkInside(b: string, mark: string) {
    forall i: nat :: i > 0 ==> !MarkAt(b, i, mark)
  }

  lemma {:induction false} LineHasNoMarkInside(l: string, mark: string)
    requires IsLine(l) && InLine(mark)
    ensures NoMarkInside(l, mark)
  {
  }

  lemma {:induction false} PutTogether(x: string, l: string, mark: string)
    requires Closed(x) && x != "" && IsLine(l) && InLine(mark) && !Marked(l, mark) && NoMarkInside(x, mark)
    ensures NoMarkInside(x + l, mark)
  {
    LineHasNoMarkInside(l, mark);
    forall i: nat | i > 0 ensures !MarkAt(x + l, i, mark) {
      if MarkAt(x + l, i, mark) {
        if i < |x| {
          StraddlesNot(x, l, i, mark);
        }
      }
    }
  }

  lemma {:induction false} StraddlesNot(x: string, l: string, i: nat, mark: string)
    requires Closed(x) && 0 < i < |x| && InLine(mark) && MarkAt(x + l, i, mark)
    ensures MarkAt(x, i, mark)
  {
    assert (x + l)[i..] == x[i..] + l;
    PrefixAt(mark, x[i..] + l, |x| - i - 1);
    assert (x + l)[i - 1] == x[i - 1];
  }

  /** A text cut at its marks: the parts make it up, none is empty, each but the first starts with the
      mark, and no other line of any part does. */
  ghost predicate CutAtMarks(s: string, mark: string, parts: seq<string>) {
    && Flat(parts) == s
    && (forall k :: 0 <= k < |parts| ==> parts[k] != "" && NoMarkInside(parts[k], mark))
    && (forall k :: 0 < k < |parts| ==> mark <= parts[k])
    && Seamless(parts)
  }

  lemma {:induction false} InsideBlocks(lines: seq<string>, mark: string)
    requires AreLines(lines) && InLine(mark)
    ensures forall k :: 0 <= k < |Blocks(lines, mark)| ==>
              Blocks(lines, mark)[k] != "" && NoMarkInside(Blocks(lines, mark)[k], mark)
  {
    if lines != [] {
      var n := |lines| - 1;
      InsideBlocks(lines[..n], mark);
      SeamlessInit(lines);
      BlocksClosed(lines[..n], mark);
      LineHasNoMarkInside(lines[n], mark);
      var rest := Blocks(lines[..n], mark);
      if rest != [] && !Marked(lines[n], mark) {
        PutTogether(rest[|rest| - 1], lines[n], mark);
      }
    }
  }

  lemma {:induction false} BlocksCut(lines: seq<string>, mark: string)
    requires AreLines(lines) && InLine(mark)
    ensures CutAtMarks(Flat(lines), mark, Blocks(lines, mark))
  {
    InsideBlocks(lines, mark);
    CutsAreAtMarks(lines, mark);
    FlatBlocks(lines, mark);
    BlocksSeamless(lines, mark);
  }

  lemma {:induction false} LinesAre(s: string)
    ensures AreLines(Lines(s))
  {
    LinesAreLines(s);
    forall i | 0 <= i < |Lines(s)| ensures IsLine(Lines(s)[i]) {
      assert Lines(s)[i] in Lines(s);
    }
  }

  /** The diff is cut at exactly the lines that start with "diff --git ". */
  lemma {:induction false} FilesAreCut(diff: string)
    ensures CutAtMarks(diff, "diff --git ", Files(diff))
  {
    LinesAre(diff);
    FlatLines(diff);
    BlocksCut(Lines(diff), "diff --git ");
  }

  /** What follows the header is cut at exactly the lines that start with "@@ ". */
  lemma {:induction false} HunksAreCut(block: string)
    ensures Header(block) <= block
    ensures CutAtMarks(block[|Header(block)|..], "@@ ", Hunks(block))
  {
    var body := BodyLines(Lines(block));
    LinesAre(block);
    assert AreLines(body);
    BlocksCut(body, "@@ ");
    BlockContent(block);
    FlatBlocks(body, "@@ ");
  }

  /** There is only one way to cut a text so. */
  lemma {:induction false} CutsAreUnique(s: string, mark: string, a: seq<string>, b: seq<string>)
    requires CutAtMarks(s, mark, a) && CutAtMarks(s, mark, b) && InLine(mark)
    ensures a == b
    decreases |a|
  {
    if a == [] || b == [] {
      FlatNonempty(a);
      FlatNonempty(b);
    } else {
      FlatHead(a);
      FlatHead(b);
      FirstPartsAgree(s, mark, a, b);
      CutRest(s, mark, a);
      CutRest(s, mark, b);
      CutsAreUnique(s[|a[0]|..], mark, a[1..], b[1..]);
    }
  }

  lemma {:induction false} FlatNonempty(a: seq<string>)
    requires forall k :: 0 <= k < |a| ==> a[k] != ""
    ensures a == [] <==> Flat(a) == ""
  {
  }

  lemma {:induction false} FlatHead(a: seq<string>)
    requires a != []
    ensures Flat(a) == a[0] + Flat(a[1..])
  {
    assert a == [a[0]] + a[1..];
    FlatConcat([a[0]], a[1..]);
    FlatOne(a[0]);
  }

  lemma {:induction false} CutRest(s: string, mark: string, a: seq<string>)
    requires CutAtMarks(s, mark, a) && a != []
    ensures a[0] <= s && CutAtMarks(s[|a[0]|..], mark, a[1..])
  {
    FlatHead(a);
  }

  lemma {:induction false} SecondPartMarks(s: string, mark: string, a: seq<string>)
    requires CutAtMarks(s, mark, a) && a != [] && InLine(mark)
    ensures a[0] <= s && a[0] != "" && (a[0] == s || MarkAt(s, |a[0]|, mark))
    ensures forall i: nat :: 0 < i < |a[0]| ==> !MarkAt(s, i, mark)
  {
    FlatHead(a);
    if |a| > 1 {
      FlatHead(a[1..]);
      assert s[|a[0]|..] == a[1] + Flat(a[1..][1..]);
    } else {
      assert Flat(a[1..]) == "" && a[0] + "" == a[0];
    }
    forall i: nat | 0 < i < |a[0]| ensures !MarkAt(s, i, mark) {
      if MarkAt(s, i, mark) && |a| > 1 {
        StraddlesNot(a[0], Flat(a[1..]), i, mark);
      }
    }
  }

  lemma {:induction false} FirstPartsAgree(s: string, mark: string, a: seq<string>, b: seq<string>)
    requires CutAtMarks(s, mark, a) && CutAtMarks(s, mark, b) && a != [] && b != [] && InLine(mark)
    ensures a[0] == b[0]
  {
    SecondPartMarks(s, mark, a);
    SecondPartMarks(s, mark, b);
  }

  // ---- where a hunk ends up ----

  predicate Within(x: string, c: string) {
    x <= c || (c != "" && Within(x, c[1..]))
  }

  ghost predicate Somewhere(x: string, chunks: seq<string>) {
    exists k :: 0 <= k < |chunks| && Within(x, chunks[k])
  }

  lemma {:induction false} WithinLonger(x: string, c: string, y: string)
    requires Within(x, c)
    ensures Within(x, c + y)
  {
    if !(x <= c) {
      WithinLonger(x, c[1..], y);
      assert (c + y)[1..] == c[1..] + y;
    }
  }

  lemma {:induction false} WithinEnd(c: string, x: string)
    ensures Within(x, c + x)
  {
    if c == "" {
      assert "" + x == x;
    } else {
      WithinEnd(c[1..], x);
      assert (c + x)[1..] == c[1..] + x;
    }
  }

  /** Every piece is found whole in some chunk. */
  lemma {:induction false} PackedHolds(pieces: seq<string>, limit: int, x: string)
    requires x in pieces
    ensures Somewhere(x, Packed(pieces, limit))
  {
    var n := |pieces| - 1;
    var rest, all := Packed(pieces[..n], limit), Packed(pieces, limit);
    assert pieces == pieces[..n] + [pieces[n]];
    WithinEnd("", x);
    assert "" + x == x;
    if pieces[n] == x {
      if rest != [] {
        WithinEnd(rest[|rest| - 1], x);
      }
      assert Within(x, all[|all| - 1]);
    } else {
      PackedHolds(pieces[..n], limit, x);
      var k :| 0 <= k < |rest| && Within(x, rest[k]);
      WithinLonger(x, rest[k], pieces[n]);
      assert Within(x, all[k]);
    }
  }

  lemma {:induction false} PieceIsThere(blocks: seq<string>, limit: int, b: string, x: string)
    requires b in blocks && x in BlockPieces(b, limit)
    ensures x in AllPieces(blocks, limit)
  {
    var n := |blocks| - 1;
    assert blocks == blocks[..n] + [blocks[n]];
    if blocks[n] != b {
      PieceIsThere(blocks[..n], limit, b, x);
    }
  }

  lemma {:induction false} HunkIsThere(header: string, hunks: seq<string>, limit: int, h: string, x: string)
    requires h in hunks && x in HunkPieces(header, h, limit)
    ensures x in FilePieces(header, hunks, limit)
  {
    var n := |hunks| - 1;
    assert hunks == hunks[..n] + [hunks[n]];
    if hunks[n] != h {
      HunkIsThere(header, hunks[..n], limit, h, x);
    }
  }

  /** A file within the limit is found whole in some chunk. */
  lemma {:induction false} SmallFileIsWhole(diff: string, limit: int, b: string)
    requires |diff| > limit && b in Files(diff) && |b| <= limit
    ensures Somewhere(b, Chunks(diff, limit))
  {
    PieceIsThere(Files(diff), limit, b, b);
    PackedHolds(AllPieces(Files(diff), limit), limit, b);
  }

  /** Of a larger one, every hunk that fits behind the header is found behind it in some chunk. */
  lemma {:induction false} HunkKeepsItsHeader(diff: string, limit: int, b: string, h: string)
    requires |diff| > limit && b in Files(diff) && |b| > limit
    requires h in Hunks(b) && |Header(b)| + |h| <= limit
    ensures Somewhere(Header(b) + h, Chunks(diff, limit))
  {
    var x := Header(b) + h;
    HunkIsThere(Header(b), Hunks(b), limit, h, x);
    PieceIsThere(Files(diff), limit, b, x);
    PackedHolds(AllPieces(Files(diff), limit), limit, x);
  }

  /** Of a hunk that does not fit, every line is found whole, the header's lines too. */
  lemma {:induction false} LongHunkKeepsItsLines(diff: string, limit: int, b: string, h: string, l: string)
    requires |diff| > limit && b in Files(diff) && |b| > limit
    requires h in Hunks(b) && |Header(b)| + |h| > limit && l in Lines(Header(b) + h)
    ensures Somewhere(l, Chunks(diff, limit))
  {
    var piece := Header(b) + h;
    PackedHolds(Lines(piece), limit, l);
    var parts := Packed(Lines(piece), limit);
    var k :| 0 <= k < |parts| && Within(l, parts[k]);
    HunkIsThere(Header(b), Hunks(b), limit, h, parts[k]);
    PieceIsThere(Files(diff), limit, b, parts[k]);
    PackedHolds(AllPieces(Files(diff), limit), limit, parts[k]);
    var c :| 0 <= c < |Chunks(diff, limit)| && Within(parts[k], Chunks(diff, limit)[c]);
    WithinTrans(l, parts[k], Chunks(diff, limit)[c]);
  }

  lemma {:induction false} WithinTrans(x: string, y: string, z: string)
    requires Within(x, y) && Within(y, z)
    ensures Within(x, z)
  {
    if y <= z {
      WithinLonger(x, y, z[|y|..]);
      assert y + z[|y|..] == z;
    } else {
      WithinTrans(x, y, z[1..]);
    }
  }
}
