/** What the chunks of a diff promise: fewest, bounded, whole lines, exact content. */
module DiffChunkLaws {
  import opened DiffChunks

  // ---- packing is optimal ----

  function Join(groups: seq<seq<string>>): seq<string> {
    if groups == [] then [] else Join(groups[..|groups| - 1]) + groups[|groups| - 1]
  }

  /** A chunk may hold several pieces only when they fit together. */
  predicate Fits(group: seq<string>, limit: int) {
    group != [] && (|group| >= 2 ==> |Flat(group)| <= limit)
  }

  /** Any way to make chunks of the pieces without reordering them. */
  predicate Grouping(groups: seq<seq<string>>, pieces: seq<string>, limit: int) {
    Join(groups) == pieces && forall g :: g in groups ==> Fits(g, limit)
  }

  /** The grouping the packing loop builds. */
  function PackGroups(pieces: seq<string>, limit: int): seq<seq<string>> {
    if pieces == [] then []
    else
      var n := |pieces| - 1;
      var rest := PackGroups(pieces[..n], limit);
      if rest != [] && |Flat(rest[|rest| - 1])| + |pieces[n]| <= limit
      then rest[..|rest| - 1] + [rest[|rest| - 1] + [pieces[n]]]
      else rest + [[pieces[n]]]
  }

  lemma {:induction false} FlatPush(xs: seq<string>, x: string)
    ensures Flat(xs + [x]) == Flat(xs) + x
  {
    assert (xs + [x])[..|xs|] == xs;
  }

  lemma {:induction false} JoinPush(groups: seq<seq<string>>, g: seq<string>)
    ensures Join(groups + [g]) == Join(groups) + g
  {
    assert (groups + [g])[..|groups|] == groups;
  }

  lemma {:induction false} ExtendLast(groups: seq<seq<string>>, pieces: seq<string>, x: string, limit: int)
    requires Grouping(groups, pieces, limit)
    requires groups != [] && |Flat(groups[|groups| - 1])| + |x| <= limit
    ensures var last := |groups| - 1;
            && Grouping(groups[..last] + [groups[last] + [x]], pieces + [x], limit)
            && Flat(groups[last] + [x]) == Flat(groups[last]) + x
  {
    var front, g := groups[..|groups| - 1], groups[|groups| - 1];
    assert groups == front + [g];
    FlatPush(g, x);
    JoinPush(front, g);
    JoinPush(front, g + [x]);
    assert Join(front) + (g + [x]) == (Join(front) + g) + [x];
  }

  lemma {:induction false} StartNew(groups: seq<seq<string>>, pieces: seq<string>, x: string, limit: int)
    requires Grouping(groups, pieces, limit)
    ensures Grouping(groups + [[x]], pieces + [x], limit)
    ensures Flat([x]) == x
  {
    FlatOne(x);
    JoinPush(groups, [x]);
  }

  /** What the packing loop packs together is a grouping of the pieces. */
  lemma {:induction false} PackGroupsIsGrouping(pieces: seq<string>, limit: int)
    ensures Grouping(PackGroups(pieces, limit), pieces, limit)
  {
    if pieces != [] {
      var init, x := pieces[..|pieces| - 1], pieces[|pieces| - 1];
      assert pieces == init + [x];
      PackGroupsIsGrouping(init, limit);
      var rest := PackGroups(init, limit);
      if rest != [] && |Flat(rest[|rest| - 1])| + |x| <= limit {
        ExtendLast(rest, init, x, limit);
      } else {
        StartNew(rest, init, x, limit);
      }
    }
  }

  function FlatEach(groups: seq<seq<string>>): seq<string> {
    seq(|groups|, i requires 0 <= i < |groups| => Flat(groups[i]))
  }

  lemma {:induction false} FlatEachPush(groups: seq<seq<string>>, g: seq<string>)
    ensures FlatEach(groups + [g]) == FlatEach(groups) + [Flat(g)]
  {
  }

  /** The chunks are those groups, each put together. */
  lemma {:induction false} PackedIsGrouping(pieces: seq<string>, limit: int)
    ensures Packed(pieces, limit) == FlatEach(PackGroups(pieces, limit))
  {
    if pieces != [] {
      var init, x := pieces[..|pieces| - 1], pieces[|pieces| - 1];
      PackedIsGrouping(init, limit);
      var rest := PackGroups(init, limit);
      FlatOne(x);
      FlatEachPush(rest, [x]);
      if rest != [] {
        var front, g := rest[..|rest| - 1], rest[|rest| - 1];
        assert rest == front + [g];
        FlatPush(g, x);
        FlatEachPush(front, g);
        FlatEachPush(front, g + [x]);
      }
    }
  }

  lemma {:induction false} SplitLast(a: seq<string>, g: seq<string>, init: seq<string>, x: string)
    requires g != [] && a + g == init + [x]
    ensures g[|g| - 1] == x && init == a + g[..|g| - 1]
  {
    assert (a + g)[|a + g| - 1] == x;
    assert init == (a + g)[..|a + g| - 1];
  }

  /** Take the last piece off a grouping. */
  lemma {:induction false} Unpush(groups: seq<seq<string>>, init: seq<string>, x: string,
                                  limit: int) returns (before: seq<seq<string>>)
    requires Grouping(groups, init + [x], limit)
    ensures groups != []
    ensures Grouping(before, init, limit)
    ensures var g := groups[|groups| - 1];
            if |g| == 1
            then |before| + 1 == |groups| && |Flat(g)| == |x|
            else |before| == |groups| && |Flat(g)| <= limit
                 && |Flat(g)| == |Flat(before[|before| - 1])| + |x|
  {
    assert |Join(groups)| > 0;
    var front, g := groups[..|groups| - 1], groups[|groups| - 1];
    assert g in groups;
    assert groups == front + [g];
    assert forall h :: h in front ==> h in groups;
    SplitLast(Join(front), g, init, x);
    var shorter := g[..|g| - 1];
    assert g == shorter + [x];
    FlatPush(shorter, x);
    if |g| == 1 {
      before := front;
    } else {
      before := front + [shorter];
      JoinPush(front, shorter);
    }
  }

  /** Greedy stays ahead: never more chunks, and on a tie never a fuller last one. */
  lemma {:induction false} GreedyStaysAhead(pieces: seq<string>, groups: seq<seq<string>>, limit: int)
    requires Grouping(groups, pieces, limit)
    ensures |Packed(pieces, limit)| <= |groups|
    ensures pieces != [] && |Packed(pieces, limit)| == |groups| ==>
              |Packed(pieces, limit)[|groups| - 1]| <= |Flat(groups[|groups| - 1])|
  {
    if pieces != [] {
      var init, x := pieces[..|pieces| - 1], pieces[|pieces| - 1];
      assert pieces == init + [x];
      var before := Unpush(groups, init, x, limit);
      GreedyStaysAhead(init, before, limit);
      if before != [] {
        assert Fits(before[|before| - 1], limit) by { assert before[|before| - 1] in before; }
      }
    }
  }

  /** No order-preserving grouping of the pieces has fewer chunks. */
  lemma {:induction false} FewestChunks(diff: string, limit: int, groups: seq<seq<string>>)
    requires |diff| > limit
    requires Grouping(groups, AllPieces(Files(diff), limit), limit)
    ensures |Chunks(diff, limit)| <= |groups|
  {
    GreedyStaysAhead(AllPieces(Files(diff), limit), groups, limit);
  }

  /** Any two neighbours together would not have fitted. */
  lemma {:induction false} NeighboursOverflow(pieces: seq<string>, limit: int)
    ensures forall i :: 0 <= i < |Packed(pieces, limit)| - 1 ==>
              |Packed(pieces, limit)[i]| + |Packed(pieces, limit)[i + 1]| > limit
  {
    if pieces != [] {
      NeighboursOverflow(pieces[..|pieces| - 1], limit);
    }
  }

  // ---- size ----

  lemma {:induction false} PackedBound(pieces: seq<string>, limit: int)
    ensures forall c :: c in Packed(pieces, limit) ==> |c| <= limit || c in pieces
  {
    if pieces != [] {
      var n := |pieces| - 1;
      PackedBound(pieces[..n], limit);
      assert pieces == pieces[..n] + [pieces[n]];
    }
  }

  predicate SmallOrLine(c: string, limit: int) {
    |c| <= limit || IsLine(c)
  }

  lemma {:induction false} FilePiecesBound(header: string, hunks: seq<string>, limit: int)
    ensures forall c :: c in FilePieces(header, hunks, limit) ==> SmallOrLine(c, limit)
  {
    if hunks != [] {
      var n := |hunks| - 1;
      FilePiecesBound(header, hunks[..n], limit);
      PackedBound(Lines(header + hunks[n]), limit);
      LinesAreLines(header + hunks[n]);
    }
  }

  lemma {:induction false} AllPiecesBound(blocks: seq<string>, limit: int)
    ensures forall c :: c in AllPieces(blocks, limit) ==> SmallOrLine(c, limit)
  {
    if blocks != [] {
      var n := |blocks| - 1;
      AllPiecesBound(blocks[..n], limit);
      FilePiecesBound(Header(blocks[n]), Hunks(blocks[n]), limit);
    }
  }

  /** Every chunk is within the limit, or is one overlong line. */
  lemma {:induction false} ChunksAreSmall(diff: string, limit: int)
    ensures forall c :: c in Chunks(diff, limit) ==> |c| <= limit || IsLine(c)
  {
    AllPiecesBound(Files(diff), limit);
    PackedBound(AllPieces(Files(diff), limit), limit);
  }

  // ---- whole lines ----

  predicate AllClosed(xs: seq<string>) {
    forall i :: 0 <= i < |xs| ==> Closed(xs[i])
  }

  lemma {:induction false} SeamlessAppend(a: seq<string>, b: seq<string>)
    requires AllClosed(a) && Seamless(b)
    ensures Seamless(a + b)
    ensures AllClosed(b) ==> AllClosed(a + b)
  {
  }

  lemma {:induction false} SeamlessInit(xs: seq<string>)
    requires Seamless(xs) && xs != []
    ensures AllClosed(xs[..|xs| - 1])
    ensures Closed(xs[|xs| - 1]) ==> AllClosed(xs)
  {
  }

  lemma {:induction false} PackedClosed(pieces: seq<string>, limit: int)
    requires AllClosed(pieces)
    ensures AllClosed(Packed(pieces, limit))
  {
    if pieces != [] {
      var n := |pieces| - 1;
      PackedClosed(pieces[..n], limit);
    }
  }

  lemma {:induction false} PackedSeamless(pieces: seq<string>, limit: int)
    requires Seamless(pieces)
    ensures Seamless(Packed(pieces, limit))
  {
    if pieces != [] {
      SeamlessInit(pieces);
      PackedClosed(pieces[..|pieces| - 1], limit);
    }
  }

  lemma {:induction false} BlocksClosed(lines: seq<string>, mark: string)
    requires AllClosed(lines)
    ensures AllClosed(Blocks(lines, mark))
  {
    if lines != [] {
      var n := |lines| - 1;
      BlocksClosed(lines[..n], mark);
    }
  }

  lemma {:induction false} BlocksSeamless(lines: seq<string>, mark: string)
    requires Seamless(lines)
    ensures Seamless(Blocks(lines, mark))
  {
    if lines != [] {
      SeamlessInit(lines);
      BlocksClosed(lines[..|lines| - 1], mark);
    }
  }

  lemma {:induction false} FlatClosed(xs: seq<string>)
    requires AllClosed(xs)
    ensures Closed(Flat(xs))
  {
    if xs != [] {
      FlatClosed(xs[..|xs| - 1]);
    }
  }

  lemma {:induction false} SeamlessParts(lines: seq<string>, n: nat)
    requires Seamless(lines) && n <= |lines|
    ensures n < |lines| ==> AllClosed(lines[..n])
    ensures Seamless(lines[n..])
    ensures AllClosed(lines) ==> AllClosed(lines[n..])
  {
  }

  /** A file block falls apart at line ends: closed header, hunks closed but for the last. */
  lemma {:induction false} BlockParts(block: string)
    ensures Closed(Header(block))
    ensures Seamless(Hunks(block))
    ensures Closed(block) ==> AllClosed(Hunks(block))
  {
    var lines := Lines(block);
    var n := |HeaderLines(lines)|;
    LinesAreLines(block);
    SeamlessParts(lines, n);
    FlatClosed(HeaderLines(lines));
    BlocksSeamless(lines[n..], "@@ ");
    if Closed(block) && block != "" {
      SeamlessInit(lines);
      BlocksClosed(lines[n..], "@@ ");
    }
  }

  lemma {:induction false} BlockContent(block: string)
    ensures Header(block) + Flat(Hunks(block)) == block
    ensures block != "" ==> Hunks(block) != []
  {
    var lines := Lines(block);
    var n := |HeaderLines(lines)|;
    LinesAreLines(block);
    FlatLines(block);
    FlatBlocks(lines[n..], "@@ ");
    FlatConcat(lines[..n], lines[n..]);
    assert lines == lines[..n] + lines[n..];
  }

  lemma {:induction false} HunkPiecesClosed(header: string, hunk: string, limit: int)
    requires Closed(header)
    ensures Seamless(HunkPieces(header, hunk, limit))
    ensures Closed(hunk) ==> AllClosed(HunkPieces(header, hunk, limit))
  {
    var piece := header + hunk;
    LinesAreLines(piece);
    PackedSeamless(Lines(piece), limit);
    if Closed(hunk) && piece != "" {
      SeamlessInit(Lines(piece));
      PackedClosed(Lines(piece), limit);
    }
  }

  lemma {:induction false} FilePiecesClosed(header: string, hunks: seq<string>, limit: int)
    requires Closed(header) && AllClosed(hunks)
    ensures AllClosed(FilePieces(header, hunks, limit))
  {
    if hunks != [] {
      var n := |hunks| - 1;
      FilePiecesClosed(header, hunks[..n], limit);
      HunkPiecesClosed(header, hunks[n], limit);
    }
  }

  lemma {:induction false} BlockPiecesClosed(block: string, limit: int)
    ensures Seamless(BlockPieces(block, limit))
    ensures Closed(block) ==> AllClosed(BlockPieces(block, limit))
  {
    BlockParts(block);
    if |block| > limit {
      var header, hunks := Header(block), Hunks(block);
      if Closed(block) {
        FilePiecesClosed(header, hunks, limit);
      } else {
        var n := |hunks| - 1;
        BlockContent(block);
        SeamlessInit(hunks);
        FilePiecesClosed(header, hunks[..n], limit);
        HunkPiecesClosed(header, hunks[n], limit);
        SeamlessAppend(FilePieces(header, hunks[..n], limit), HunkPieces(header, hunks[n], limit));
      }
    }
  }

  lemma {:induction false} AllPiecesClosed(blocks: seq<string>, limit: int)
    requires AllClosed(blocks)
    ensures AllClosed(AllPieces(blocks, limit))
  {
    if blocks != [] {
      var n := |blocks| - 1;
      AllPiecesClosed(blocks[..n], limit);
      BlockPiecesClosed(blocks[n], limit);
    }
  }

  lemma {:induction false} AllPiecesSeamless(blocks: seq<string>, limit: int)
    requires Seamless(blocks)
    ensures Seamless(AllPieces(blocks, limit))
  {
    if blocks != [] {
      var n := |blocks| - 1;
      SeamlessInit(blocks);
      AllPiecesClosed(blocks[..n], limit);
      BlockPiecesClosed(blocks[n], limit);
      SeamlessAppend(AllPieces(blocks[..n], limit), BlockPieces(blocks[n], limit));
    }
  }

  function LinesOfAll(xs: seq<string>): seq<string> {
    if xs == [] then [] else LinesOfAll(xs[..|xs| - 1]) + Lines(xs[|xs| - 1])
  }

  lemma {:induction false} SeamlessLines(xs: seq<string>)
    requires Seamless(xs)
    ensures LinesOfAll(xs) == Lines(Flat(xs))
  {
    if xs != [] {
      var init, x := xs[..|xs| - 1], xs[|xs| - 1];
      SeamlessInit(xs);
      FlatClosed(init);
      SeamlessLines(init);
      LinesConcat(Flat(init), x);
    }
  }

  /** No line is cut: the chunks' lines are the lines of the chunks put together. */
  lemma {:induction false} NoLineIsCut(diff: string, limit: int)
    ensures LinesOfAll(Chunks(diff, limit)) == Lines(Flat(Chunks(diff, limit)))
    ensures Seamless(Chunks(diff, limit))
  {
    LinesAreLines(diff);
    BlocksSeamless(Lines(diff), "diff --git ");
    AllPiecesSeamless(Files(diff), limit);
    PackedSeamless(AllPieces(Files(diff), limit), limit);
    SeamlessLines(Chunks(diff, limit));
  }

  // ---- content ----

  /** A file told hunk by hunk, its header in front of each. */
  function Retold(header: string, hunks: seq<string>): string {
    if hunks == [] then "" else Retold(header, hunks[..|hunks| - 1]) + header + hunks[|hunks| - 1]
  }

  function RetoldAll(blocks: seq<string>, limit: int): string {
    if blocks == [] then ""
    else
      var block := blocks[|blocks| - 1];
      RetoldAll(blocks[..|blocks| - 1], limit) +
      if |block| <= limit then block else Retold(Header(block), Hunks(block))
  }

  lemma {:induction false} HunkPiecesContent(header: string, hunk: string, limit: int)
    ensures Flat(HunkPieces(header, hunk, limit)) == header + hunk
  {
    var piece := header + hunk;
    FlatOne(piece);
    FlatPacked(Lines(piece), limit);
    FlatLines(piece);
  }

  lemma {:induction false} FilePiecesContent(header: string, hunks: seq<string>, limit: int)
    ensures Flat(FilePieces(header, hunks, limit)) == Retold(header, hunks)
  {
    if hunks != [] {
      var rest, hunk := hunks[..|hunks| - 1], hunks[|hunks| - 1];
      FilePiecesContent(header, rest, limit);
      HunkPiecesContent(header, hunk, limit);
      FlatConcat(FilePieces(header, rest, limit), HunkPieces(header, hunk, limit));
      assert Retold(header, rest) + header + hunk == Retold(header, rest) + (header + hunk);
    }
  }

  lemma {:induction false} AllPiecesContent(blocks: seq<string>, limit: int)
    ensures Flat(AllPieces(blocks, limit)) == RetoldAll(blocks, limit)
  {
    if blocks != [] {
      var n := |blocks| - 1;
      AllPiecesContent(blocks[..n], limit);
      FlatConcat(AllPieces(blocks[..n], limit), BlockPieces(blocks[n], limit));
      FlatOne(blocks[n]);
      FilePiecesContent(Header(blocks[n]), Hunks(blocks[n]), limit);
    }
  }

  /**
   * The chunks say the diff file by file, in order; only a file over the limit is said hunk by
   * hunk, and only its header is said again.
   */
  lemma {:induction false} ChunksContent(diff: string, limit: int)
    ensures |diff| <= limit ==> Flat(Chunks(diff, limit)) == diff
    ensures |diff| > limit ==> Flat(Chunks(diff, limit)) == RetoldAll(Files(diff), limit)
    ensures Flat(Files(diff)) == diff
    ensures forall b :: b in Files(diff) ==> Header(b) + Flat(Hunks(b)) == b
  {
    FlatOne(diff);
    FlatPacked(AllPieces(Files(diff), limit), limit);
    AllPiecesContent(Files(diff), limit);
    FlatBlocks(Lines(diff), "diff --git ");
    FlatLines(diff);
    forall b | b in Files(diff)
      ensures Header(b) + Flat(Hunks(b)) == b
    {
      BlockContent(b);
    }
  }

  lemma {:induction false} RetoldLength(header: string, hunks: seq<string>)
    ensures |Retold(header, hunks)| == |Flat(hunks)| + |hunks| * |header|
    ensures header == "" ==> Retold(header, hunks) == Flat(hunks)
  {
    if hunks != [] {
      var n := |hunks| - 1;
      RetoldLength(header, hunks[..n]);
      assert (n + 1) * |header| == n * |header| + |header|;
    }
  }

  /** A file comes back as it was exactly when it was small, had one hunk, or had no header. */
  lemma {:induction false} RetoldIff(block: string, limit: int)
    requires block != ""
    ensures var told := if |block| <= limit then block else Retold(Header(block), Hunks(block));
            && |told| >= |block|
            && (told == block <==> |block| <= limit || |Hunks(block)| == 1 || Header(block) == "")
            && (|told| == |block| ==> told == block)
  {
    var header, hunks := Header(block), Hunks(block);
    BlockContent(block);
    RetoldLength(header, hunks);
    Times(|hunks|, |header|);
    if |hunks| == 1 {
      RetoldOnce(header, hunks[0]);
      assert hunks == [hunks[0]];
    } else if header == "" {
      assert "" + Flat(hunks) == Flat(hunks);
    }
  }

  lemma {:induction false} RetoldOnce(header: string, hunk: string)
    ensures Retold(header, [hunk]) == header + Flat([hunk])
  {
    FlatOne(hunk);
    assert [hunk][..0] == [];
    assert "" + header + hunk == header + hunk;
  }

  lemma {:induction false} Times(n: nat, h: nat)
    requires n >= 1
    ensures n * h >= h
    ensures n * h == h <==> n == 1 || h == 0
  {
    assert n * h == (n - 1) * h + h;
    if n >= 2 && h >= 1 {
      assert (n - 1) * h >= h by { assert (n - 1) * h == (n - 2) * h + h; }
    }
  }

  predicate NoneEmpty(xs: seq<string>) {
    forall i :: 0 <= i < |xs| ==> |xs[i]| > 0
  }

  lemma {:induction false} RetoldAllIff(blocks: seq<string>, limit: int)
    requires NoneEmpty(blocks)
    ensures |RetoldAll(blocks, limit)| >= |Flat(blocks)|
    ensures RetoldAll(blocks, limit) == Flat(blocks) <==>
            forall b :: b in blocks ==> |b| <= limit || |Hunks(b)| == 1 || Header(b) == ""
    ensures |RetoldAll(blocks, limit)| == |Flat(blocks)| ==> RetoldAll(blocks, limit) == Flat(blocks)
  {
    if blocks != [] {
      var n := |blocks| - 1;
      assert blocks == blocks[..n] + [blocks[n]];
      RetoldAllIff(blocks[..n], limit);
      RetoldIff(blocks[n], limit);
    }
  }

  /** The chunks put together are the diff itself exactly when no header had to be said twice. */
  lemma {:induction false} ChunksAreTheDiffIff(diff: string, limit: int)
    ensures Flat(Chunks(diff, limit)) == diff <==>
            || |diff| <= limit
            || forall b :: b in Files(diff) ==> |b| <= limit || |Hunks(b)| == 1 || Header(b) == ""
  {
    ChunksContent(diff, limit);
    LinesAreLines(diff);
    assert NoneEmpty(Lines(diff)) by { assert forall i :: 0 <= i < |Lines(diff)| ==> Lines(diff)[i] in Lines(diff); }
    BlocksNonempty(Lines(diff), "diff --git ");
    RetoldAllIff(Files(diff), limit);
  }

  lemma {:induction false} BlocksNonempty(lines: seq<string>, mark: string)
    requires NoneEmpty(lines)
    ensures NoneEmpty(Blocks(lines, mark))
  {
    if lines != [] {
      var n := |lines| - 1;
      BlocksNonempty(lines[..n], mark);
    }
  }

  // ---- where the cuts are ----

  function CountMarked(lines: seq<string>, mark: string): nat {
    if lines == [] then 0 else CountMarked(lines[..|lines| - 1], mark) + if Marked(lines[|lines| - 1], mark) then 1 else 0
  }

  lemma {:induction false} PrefixExtends(mark: string, a: string, b: string)
    ensures mark <= a ==> mark <= a + b
  {
  }

  /** Every block but the first starts with the mark. */
  lemma {:induction false} CutsAreAtMarks(lines: seq<string>, mark: string)
    ensures forall i :: 1 <= i < |Blocks(lines, mark)| ==> Marked(Blocks(lines, mark)[i], mark)
  {
    if lines != [] {
      var n := |lines| - 1;
      CutsAreAtMarks(lines[..n], mark);
      var rest := Blocks(lines[..n], mark);
      if rest != [] {
        PrefixExtends(mark, rest[|rest| - 1], lines[n]);
      }
    }
  }

  /** Every marked line starts a block of its own, and so does the first line. */
  lemma {:induction false} EveryMarkCuts(lines: seq<string>, mark: string)
    requires lines != []
    ensures |Blocks(lines, mark)| == CountMarked(lines, mark) + if Marked(lines[0], mark) then 0 else 1
  {
    var n := |lines| - 1;
    if n == 0 {
      assert lines[..n] == [];
    } else {
      EveryMarkCuts(lines[..n], mark);
    }
  }
}
