/** Splitting a unified diff into prompt-sized chunks: `_split_diff` of cli/commit.py. */
module DiffChunks {

  // ---- lines and blocks ----

  /** Length of the first line, its newline included. */
  function LineLength(s: string): (n: nat)
    requires s != ""
    ensures 1 <= n <= |s|
    ensures n < |s| ==> s[n - 1] == '\n'
    ensures forall i :: 0 <= i < n - 1 ==> s[i] != '\n'
  {
    if s[0] == '\n' || |s| == 1 then 1 else 1 + LineLength(s[1..])
  }

  /** `splitlines(keepends=True)`, for newline line ends. */
  function Lines(s: string): seq<string> {
    if s == "" then []
    else
      var n := LineLength(s);
      [s[..n]] + Lines(s[n..])
  }

  function Flat(xs: seq<string>): string {
    if xs == [] then "" else Flat(xs[..|xs| - 1]) + xs[|xs| - 1]
  }

  predicate Marked(line: string, mark: string) {
    mark <= line
  }

  /** Cut in front of every line that starts with the mark; nothing empty is kept. */
  function Blocks(lines: seq<string>, mark: string): (blocks: seq<string>)
    ensures lines == [] <==> blocks == []
  {
    if lines == [] then []
    else
      var n := |lines| - 1;
      var rest := Blocks(lines[..n], mark);
      if rest == [] || Marked(lines[n], mark) then rest + [lines[n]]
      else rest[..|rest| - 1] + [rest[|rest| - 1] + lines[n]]
  }

  /** How many lines precede the first one that starts with the mark. */
  function LinesBefore(lines: seq<string>, mark: string): (n: nat)
    ensures n <= |lines|
    ensures forall i :: 0 <= i < n ==> !Marked(lines[i], mark)
    ensures n < |lines| ==> Marked(lines[n], mark)
  {
    if lines == [] || Marked(lines[0], mark) then 0 else 1 + LinesBefore(lines[1..], mark)
  }

  /** Everything above the first hunk; nothing when the block has no hunk at all. */
  function HeaderLines(lines: seq<string>): seq<string> {
    var n := LinesBefore(lines, "@@");
    if n < |lines| then lines[..n] else []
  }

  function BodyLines(lines: seq<string>): seq<string> {
    lines[|HeaderLines(lines)|..]
  }

  function Header(block: string): string {
    Flat(HeaderLines(Lines(block)))
  }

  function Hunks(block: string): seq<string> {
    Blocks(BodyLines(Lines(block)), "@@ ")
  }

  // ---- packing ----

  /** Pack pieces left to right: extend the last chunk while it fits, else start another. */
  function Packed(pieces: seq<string>, limit: int): seq<string> {
    if pieces == [] then []
    else
      var n := |pieces| - 1;
      var rest := Packed(pieces[..n], limit);
      if rest != [] && |rest[|rest| - 1]| + |pieces[n]| <= limit
      then rest[..|rest| - 1] + [rest[|rest| - 1] + pieces[n]]
      else rest + [pieces[n]]
  }

  function HunkPieces(header: string, hunk: string, limit: int): seq<string> {
    var piece := header + hunk;
    if |piece| <= limit then [piece] else Packed(Lines(piece), limit)
  }

  function FilePieces(header: string, hunks: seq<string>, limit: int): seq<string> {
    if hunks == [] then []
    else FilePieces(header, hunks[..|hunks| - 1], limit) + HunkPieces(header, hunks[|hunks| - 1], limit)
  }

  function BlockPieces(block: string, limit: int): seq<string> {
    if |block| <= limit then [block] else FilePieces(Header(block), Hunks(block), limit)
  }

  function AllPieces(blocks: seq<string>, limit: int): seq<string> {
    if blocks == [] then []
    else AllPieces(blocks[..|blocks| - 1], limit) + BlockPieces(blocks[|blocks| - 1], limit)
  }

  function Files(diff: string): seq<string> {
    Blocks(Lines(diff), "diff --git ")
  }

  function Chunks(diff: string, limit: int): seq<string> {
    if |diff| <= limit then [diff] else Packed(AllPieces(Files(diff), limit), limit)
  }

  // ---- the loops ----

  lemma {:induction false} PackedOne(x: string, limit: int)
    ensures Packed([x], limit) == [x]
  {
    assert [x][..0] == [];
  }

  lemma {:induction false} PackedAppend(pieces: seq<string>, x: string, limit: int, out: seq<string>,
                                        last: string)
    requires Packed(pieces, limit) == out + [last]
    ensures Packed(pieces + [x], limit) ==
            if |last| + |x| <= limit then out + [last + x] else (out + [last]) + [x]
  {
    assert (pieces + [x])[..|pieces|] == pieces;
    assert (out + [last])[..|out|] == out;
  }

  method HardSplit(piece: string, limit: int) returns (out: seq<string>)
    ensures out == Packed(Lines(piece), limit)
  {
    var lines := Lines(piece);
    LinesAreLines(piece);
    var buf := "";
    out := [];
    for i := 0 to |lines|
      invariant i == 0 ==> out == [] && buf == ""
      invariant i > 0 ==> buf != "" && Packed(lines[..i], limit) == out + [buf]
    {
      assert lines[..i + 1] == lines[..i] + [lines[i]];
      assert lines[i] in lines;
      if i == 0 {
        assert lines[..1] == [lines[0]];
        PackedOne(lines[0], limit);
      } else {
        PackedAppend(lines[..i], lines[i], limit, out, buf);
      }
      if |buf| + |lines[i]| > limit && buf != "" {
        out := out + [buf];
        buf := "";
      }
      assert "" + lines[i] == lines[i];
      buf := buf + lines[i];
    }
    assert lines[..|lines|] == lines;
    if buf != "" {
      out := out + [buf];
    }
  }

  lemma {:induction false} FilePiecesPush(header: string, hunks: seq<string>, hunk: string, limit: int)
    ensures FilePieces(header, hunks + [hunk], limit) ==
            FilePieces(header, hunks, limit) + HunkPieces(header, hunk, limit)
  {
    assert (hunks + [hunk])[..|hunks|] == hunks;
  }

  method ExpandFile(header: string, hunks: seq<string>, limit: int) returns (out: seq<string>)
    ensures out == FilePieces(header, hunks, limit)
  {
    out := [];
    for i := 0 to |hunks|
      invariant out == FilePieces(header, hunks[..i], limit)
    {
      FilePiecesPush(header, hunks[..i], hunks[i], limit);
      assert hunks[..i + 1] == hunks[..i] + [hunks[i]];
      var piece := header + hunks[i];
      if |piece| <= limit {
        out := out + [piece];
      } else {
        var split := HardSplit(piece, limit);
        out := out + split;
      }
    }
    assert hunks[..|hunks|] == hunks;
  }

  method Coalesce(pieces: seq<string>, limit: int) returns (merged: seq<string>)
    ensures merged == Packed(pieces, limit)
  {
    merged := [];
    for i := 0 to |pieces|
      invariant merged == Packed(pieces[..i], limit)
    {
      assert pieces[..i + 1][..i] == pieces[..i];
      var last := |merged| - 1;
      if merged != [] && |merged[last]| + |pieces[i]| <= limit {
        merged := merged[last := merged[last] + pieces[i]];
      } else {
        merged := merged + [pieces[i]];
      }
    }
    assert pieces[..|pieces|] == pieces;
  }

  method SplitDiff(diff: string, limit: int) returns (merged: seq<string>)
    ensures merged == Chunks(diff, limit)
  {
    if |diff| <= limit {
      return [diff];
    }
    var parts := Files(diff);
    var expanded: seq<string> := [];
    for i := 0 to |parts|
      invariant expanded == AllPieces(parts[..i], limit)
    {
      assert parts[..i + 1][..i] == parts[..i];
      if |parts[i]| <= limit {
        expanded := expanded + [parts[i]];
      } else {
        var pieces := ExpandFile(Header(parts[i]), Hunks(parts[i]), limit);
        expanded := expanded + pieces;
      }
    }
    assert parts[..|parts|] == parts;
    merged := Coalesce(expanded, limit);
  }

  // ---- lines put together are the text ----

  /** A line: not empty, with a newline nowhere but at its end. */
  predicate IsLine(l: string) {
    l != "" && forall i :: 0 <= i < |l| - 1 ==> l[i] != '\n'
  }

  /** A text that ends where a line ends. */
  predicate Closed(s: string) {
    s == "" || s[|s| - 1] == '\n'
  }

  /** Only the last piece may stop in the middle of a line. */
  predicate Seamless(xs: seq<string>) {
    forall i :: 0 <= i < |xs| - 1 ==> Closed(xs[i])
  }

  lemma {:induction false} LinesAreLines(s: string)
    ensures forall l :: l in Lines(s) ==> IsLine(l)
    ensures Seamless(Lines(s))
    ensures Lines(s) != [] && Closed(s) ==> Closed(Lines(s)[|Lines(s)| - 1])
    ensures s != "" ==> Lines(s) != []
  {
    if s != "" {
      var n := LineLength(s);
      LinesAreLines(s[n..]);
    }
  }

  lemma {:induction false} FlatConcat(a: seq<string>, b: seq<string>)
    ensures Flat(a + b) == Flat(a) + Flat(b)
  {
    if b == [] {
      assert a + b == a;
    } else {
      FlatConcat(a, b[..|b| - 1]);
      assert (a + b)[..|a + b| - 1] == a + b[..|b| - 1];
    }
  }

  lemma {:induction false} FlatOne(x: string)
    ensures Flat([x]) == x
  {
    assert [x][..0] == [];
  }

  lemma {:induction false} FlatLines(s: string)
    ensures Flat(Lines(s)) == s
  {
    if s != "" {
      var n := LineLength(s);
      FlatLines(s[n..]);
      FlatConcat([s[..n]], Lines(s[n..]));
      FlatOne(s[..n]);
    }
  }

  /** Cutting keeps the text. */
  lemma {:induction false} FlatBlocks(lines: seq<string>, mark: string)
    ensures Flat(Blocks(lines, mark)) == Flat(lines)
  {
    if lines != [] {
      var n := |lines| - 1;
      var rest := Blocks(lines[..n], mark);
      FlatBlocks(lines[..n], mark);
      var blocks := Blocks(lines, mark);
      assert blocks[..|blocks| - 1] == if rest == [] || Marked(lines[n], mark) then rest else rest[..|rest| - 1];
    }
  }

  /** Packing keeps the text, whatever the limit. */
  lemma {:induction false} FlatPacked(pieces: seq<string>, limit: int)
    ensures Flat(Packed(pieces, limit)) == Flat(pieces)
  {
    if pieces != [] {
      var n := |pieces| - 1;
      var rest, all := Packed(pieces[..n], limit), Packed(pieces, limit);
      FlatPacked(pieces[..n], limit);
      assert all[..|all| - 1] == rest || (rest != [] && all[..|all| - 1] == rest[..|rest| - 1]);
    }
  }

  /** Lines of two texts put together are their lines put together, when the first ends a line. */
  lemma {:induction false} LinesConcat(a: string, b: string)
    requires Closed(a)
    ensures Lines(a + b) == Lines(a) + Lines(b)
  {
    if a == "" {
      assert a + b == b;
    } else {
      var n := LineLength(a);
      LineLengthConcat(a, b);
      assert (a + b)[..n] == a[..n] && (a + b)[n..] == a[n..] + b;
      LinesConcat(a[n..], b);
    }
  }

  lemma {:induction false} LineLengthConcat(a: string, b: string)
    requires a != "" && Closed(a)
    ensures LineLength(a + b) == LineLength(a)
  {
    if a[0] != '\n' {
      LineLengthConcat(a[1..], b);
      assert (a + b)[1..] == a[1..] + b;
    }
  }
}
