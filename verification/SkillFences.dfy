/** What a printed skill reads as when its description spans several lines: skills.py. */
module SkillFences {
  import opened Text
  import opened SkillFile

  // ---- the lines of a description ----

  /** The description as it stands in the file, first line with its key. */
  function DescriptionLines(d: string): (r: seq<string>)
    ensures r != []
  {
    JoinOfLines(FieldText(Field("description", d)));
    Lines(FieldText(Field("description", d)) + "\n")
  }

  /** Which of its lines closes the front matter; their number if none does. */
  function FenceIn(d: string): nat {
    Fence(DescriptionLines(d), 1)
  }

  /** A later line of the description is taken for the end of the front matter. */
  predicate Hides(d: string) {
    FenceIn(d) < |DescriptionLines(d)|
  }

  /** The fields read in front of that line. */
  function FieldsBefore(d: string): Dict {
    Fields(DescriptionLines(d)[..FenceIn(d)])
  }

  /** The version can be read back: nothing hides it, or what stands in front says the same. */
  predicate VersionReads(m: Meta) {
    Hides(m.description) ==> VersionOf(FieldsBefore(m.description)) == m.version
  }

  lemma {:induction false} Assoc<T>(a: seq<T>, b: seq<T>, c: seq<T>)
    ensures a + (b + c) == a + b + c
  {
  }

  lemma {:induction false} LinesSplit(x: string, rest: string)
    ensures Lines(x + "\n" + rest) == Lines(x + "\n") + Lines(rest)
    decreases |x|
  {
    var n := Index(x, '\n');
    IndexAbsent(x, '\n');
    if n == |x| {
      LinesCons(x, rest);
      LinesCons(x, "");
      assert x + "\n" + "" == x + "\n";
    } else {
      var a, y := x[..n], x[n + 1..];
      assert x == a + "\n" + y;
      Regroup(a, "\n", y, "\n");
      Regroup(a, "\n", y + "\n", rest);
      LinesCons(a, y + "\n" + rest);
      LinesCons(a, y + "\n");
      LinesSplit(y, rest);
      Assoc([a], Lines(y + "\n"), Lines(rest));
    }
  }

  lemma {:induction false} FenceMeans(lines: seq<string>, i: nat)
    requires i <= |lines|
    ensures forall k :: i <= k < Fence(lines, i) ==> !IsFence(lines[k])
    ensures Fence(lines, i) < |lines| ==> IsFence(lines[Fence(lines, i)])
    decreases |lines| - i
  {
    if i < |lines| && !IsFence(lines[i]) {
      FenceMeans(lines, i + 1);
    }
  }

  /** The first of the lines still starts with the key. */
  lemma {:induction false} FirstIsNoFence(d: string)
    ensures !IsFence(DescriptionLines(d)[0])
  {
    var n := Index(d, '\n');
    var field := Field("description", d[..n]);
    IndexAbsent(d, '\n');
    KeysAreKeys();
    FieldIsOneLine(field);
    FieldIsNoFence(field);
    if n == |d| {
      assert d[..n] == d;
      LinesCons(FieldText(field), "");
      assert FieldText(field) + "\n" + "" == FieldText(field) + "\n";
    } else {
      var rest := d[n + 1..] + "\n";
      assert FieldText(Field("description", d)) + "\n" == FieldText(field) + "\n" + rest;
      LinesCons(FieldText(field), rest);
    }
  }

  // ---- the lines of a printed skill ----

  function OtherFields(m: Meta): seq<Field> {
    [Field("version", IntText(m.version)), Field("created_at", m.created),
     Field("updated_at", m.updated), Field("origin", m.origin)]
  }

  function BodyLines(m: Meta): seq<string> {
    Lines(Strip(m.body) + "\n")
  }

  predicate OthersOneLine(m: Meta) {
    OneLine(m.created) && OneLine(m.updated) && OneLine(m.origin)
  }

  lemma {:induction false} OtherFieldsGood(m: Meta)
    requires OthersOneLine(m)
    ensures forall f :: f in OtherFields(m) ==> Key(f.key) && OneLine(f.val)
  {
    KeysAreKeys();
    IntIsPlain(m.version);
  }

  lemma {:induction false} PrintedOneLine(fields: seq<Field>)
    requires forall f :: f in fields ==> Key(f.key) && OneLine(f.val)
    ensures forall i :: 0 <= i < |fields| ==> OneLine(Printed(fields)[i]) && !IsFence(Printed(fields)[i])
  {
    forall i | 0 <= i < |fields|
      ensures OneLine(Printed(fields)[i]) && !IsFence(Printed(fields)[i])
    {
      assert fields[i] in fields;
      FieldIsOneLine(fields[i]);
      FieldIsNoFence(fields[i]);
    }
  }

  lemma {:induction false} EndedCons(a: string, lines: seq<string>, rest: string)
    ensures Ended([a] + lines, rest) == a + "\n" + Ended(lines, rest)
  {
    assert ([a] + lines)[1..] == lines;
  }

  lemma {:induction false} FrontParts(m: Meta)
    ensures Front(m) == [FENCE] + ([FieldText(Field("description", m.description))] + (Printed(OtherFields(m)) + [FENCE]))
  {
  }

  lemma {:induction false} RenderedLines(m: Meta)
    requires OthersOneLine(m)
    ensures Lines(Render(m)) ==
      [FENCE] + DescriptionLines(m.description) + Printed(OtherFields(m)) + [FENCE] + BodyLines(m)
  {
    var rest := Strip(m.body) + "\n";
    var last := Printed(OtherFields(m)) + [FENCE];
    var desc := FieldText(Field("description", m.description));
    FrontParts(m);
    JoinEnds(Front(m), rest);
    EndedCons(FENCE, [desc] + last, rest);
    EndedCons(desc, last, rest);
    FenceIsFence();
    LinesCons(FENCE, desc + "\n" + Ended(last, rest));
    LinesSplit(desc, Ended(last, rest));
    OtherFieldsGood(m);
    PrintedOneLine(OtherFields(m));
    LinesOfEnded(last, rest);
    Fivefold(FENCE, DescriptionLines(m.description), Printed(OtherFields(m)), FENCE, BodyLines(m));
  }

  lemma {:induction false} Fivefold<T>(x: T, d: seq<T>, o: seq<T>, f: T, b: seq<T>)
    ensures [x] + (d + ((o + [f]) + b)) == [x] + d + o + [f] + b
  {
  }

  // ---- the front matter that is read ----

  function Over(d: Dict, fields: seq<Field>): Dict {
    if fields == [] then d
    else
      var last := fields[|fields| - 1];
      Over(d, fields[..|fields| - 1])[last.key := Strip(last.val)]
  }

  lemma {:induction false} FieldsPush(lines: seq<string>, line: string)
    ensures Fields(lines + [line]) == FieldLine(Fields(lines), line)
  {
    assert (lines + [line])[..|lines|] == lines;
  }

  lemma {:induction false} PrintedPush(lines: seq<string>, fields: seq<Field>)
    requires fields != []
    ensures var n := |fields| - 1;
      lines + Printed(fields) == (lines + Printed(fields[..n])) + [FieldText(fields[n])]
  {
  }

  lemma {:induction false} FieldsOver(lines: seq<string>, fields: seq<Field>)
    requires forall f :: f in fields ==> Key(f.key)
    ensures Fields(lines + Printed(fields)) == Over(Fields(lines), fields)
  {
    if fields == [] {
      assert lines + Printed(fields) == lines;
    } else {
      var n := |fields| - 1;
      assert fields[n] in fields && forall f :: f in fields[..n] ==> f in fields;
      FieldsOver(lines, fields[..n]);
      PrintedPush(lines, fields);
      FieldsPush(lines + Printed(fields[..n]), FieldText(fields[n]));
      FieldReads(Fields(lines + Printed(fields[..n])), fields[n]);
    }
  }

  lemma {:induction false} Cut<T>(x: T, front: seq<T>, rest: seq<T>)
    requires rest != []
    ensures var all, n := [x] + front + rest, |front| + 1;
      && n < |all| && all[0] == x && all[n] == rest[0] && all[1..n] == front && all[n + 1..] == rest[1..]
      && forall k :: 1 <= k < n ==> all[k] == front[k - 1]
  {
  }

  /** Lines between two fences, as Head cuts them. */
  lemma {:induction false} CutAt(lines: seq<string>, x: string, front: seq<string>, rest: seq<string>)
    requires IsFence(x) && rest != [] && IsFence(rest[0]) && lines == [x] + front + rest
    requires forall i :: 0 <= i < |front| ==> !IsFence(front[i])
    ensures Head(lines) == (Fields(front), |front| + 2) && |front| + 2 <= |lines|
    ensures lines[|front| + 2..] == rest[1..]
  {
    Cut(x, front, rest);
    HeadBetween(lines, |front| + 1);
  }

  lemma {:induction false} Group<T>(x: seq<T>, d: seq<T>, o: seq<T>, f: T, b: seq<T>)
    ensures x + d + o + [f] + b == x + (d + o) + ([f] + b) && ([f] + b)[1..] == b
  {
  }

  lemma {:induction false} GroupAt<T>(x: seq<T>, d: seq<T>, o: seq<T>, f: T, b: seq<T>, k: nat)
    requires k < |d|
    ensures var rest := d[k..] + (o + [f] + b);
      && x + d + o + [f] + b == x + d[..k] + rest && rest[0] == d[k]
      && rest[1..] == d[k + 1..] + o + [f] + b
  {
  }

  /** Nothing in the description closes the front matter: all fields are read. */
  lemma {:induction false} ShownHead(m: Meta)
    requires OthersOneLine(m) && !Hides(m.description)
    ensures var lines := Lines(Render(m));
      var front := DescriptionLines(m.description) + Printed(OtherFields(m));
      Head(lines) == (Fields(front), |front| + 2) && lines[|front| + 2..] == BodyLines(m)
  {
    var d, others := DescriptionLines(m.description), Printed(OtherFields(m));
    RenderedLines(m);
    NoFenceShown(m);
    FenceIsFence();
    Group([FENCE], d, others, FENCE, BodyLines(m));
    CutAt(Lines(Render(m)), FENCE, d + others, [FENCE] + BodyLines(m));
  }

  lemma {:induction false} NoFenceShown(m: Meta)
    requires OthersOneLine(m) && !Hides(m.description)
    ensures var front := DescriptionLines(m.description) + Printed(OtherFields(m));
      forall i :: 0 <= i < |front| ==> !IsFence(front[i])
  {
    FirstIsNoFence(m.description);
    FenceMeans(DescriptionLines(m.description), 1);
    OtherFieldsGood(m);
    PrintedOneLine(OtherFields(m));
  }

  lemma {:induction false} NoFenceBefore(d: string)
    requires Hides(d)
    ensures var lines, k := DescriptionLines(d), FenceIn(d);
      IsFence(lines[k]) && forall i :: 0 <= i < k ==> !IsFence(lines[..k][i])
  {
    FirstIsNoFence(d);
    FenceMeans(DescriptionLines(d), 1);
  }

  /** One of its lines does: what follows that line is taken for the body. */
  lemma {:induction false} HiddenHead(m: Meta)
    requires OthersOneLine(m) && Hides(m.description)
    ensures var lines, k := Lines(Render(m)), FenceIn(m.description);
      && Head(lines) == (FieldsBefore(m.description), k + 2)
      && lines[k + 2..] ==
           DescriptionLines(m.description)[k + 1..] + Printed(OtherFields(m)) + [FENCE] + BodyLines(m)
  {
    var d, k := DescriptionLines(m.description), FenceIn(m.description);
    var others := Printed(OtherFields(m));
    RenderedLines(m);
    NoFenceBefore(m.description);
    FenceIsFence();
    GroupAt([FENCE], d, others, FENCE, BodyLines(m), k);
    CutAt(Lines(Render(m)), FENCE, d[..k], d[k..] + (others + [FENCE] + BodyLines(m)));
  }

  lemma {:induction false} FourOver(d: Dict, a: Field, b: Field, c: Field, e: Field)
    ensures Over(d, [a, b, c, e]) ==
      d[a.key := Strip(a.val)][b.key := Strip(b.val)][c.key := Strip(c.val)][e.key := Strip(e.val)]
  {
    var f := [a, b, c, e];
    assert f[..3] == [a, b, c] && [a, b, c][..2] == [a, b] && [a, b][..1] == [a] && [a][..0] == [];
    assert Over(d, [a]) == d[a.key := Strip(a.val)];
    assert Over(d, [a, b]) == Over(d, [a])[b.key := Strip(b.val)];
    assert Over(d, [a, b, c]) == Over(d, [a, b])[c.key := Strip(c.val)];
  }

  lemma {:induction false} OtherLookups(d: Dict, b: string, c: string, u: string, o: string)
    ensures var dict := d["version" := b]["created_at" := c]["updated_at" := u]["origin" := o];
      && Get(dict, "version", "1") == b && Get(dict, "created_at", "") == c
      && Get(dict, "updated_at", "") == u && Get(dict, "origin", "") == o
  {
    assert "created_at"[0] != "updated_at"[0];
  }

  /** Shown: all but the description is read as without line breaks. */
  lemma {:induction false} ShownReads(m: Meta, stem: string)
    requires OthersOneLine(m) && !Hides(m.description)
    ensures var r := Parsed(Render(m), stem);
      && r.version == m.version && r.created == Strip(m.created) && r.updated == Strip(m.updated)
      && r.origin == Strip(m.origin) && r.body == Strip(m.body)
  {
    var others := OtherFields(m);
    ShownHead(m);
    OtherFieldsGood(m);
    FieldsOver(DescriptionLines(m.description), others);
    ShownFields(m);
    JoinOfLines(Strip(m.body));
    StripTrims(m.body);
    StripTrims(Strip(m.body));
  }

  lemma {:induction false} ShownFields(m: Meta)
    ensures var dict := Over(Fields(DescriptionLines(m.description)), OtherFields(m));
      && VersionOf(dict) == m.version && Get(dict, "created_at", "") == Strip(m.created)
      && Get(dict, "updated_at", "") == Strip(m.updated) && Get(dict, "origin", "") == Strip(m.origin)
  {
    var f := OtherFields(m);
    var d := Fields(DescriptionLines(m.description));
    FourOver(d, f[0], f[1], f[2], f[3]);
    OtherLookups(d, Strip(IntText(m.version)), Strip(m.created), Strip(m.updated), Strip(m.origin));
    IntReads(m.version);
    IntIsPlain(m.version);
    StripTrims(IntText(m.version));
  }

  /** The version reads back exactly when no later line of the description closes the front matter,
      or the fields in front of that line give the same version. */
  lemma {:induction false} VersionReadsIff(m: Meta, stem: string)
    requires OthersOneLine(m)
    ensures Parsed(Render(m), stem).version == m.version <==> VersionReads(m)
  {
    if Hides(m.description) {
      HiddenHead(m);
    } else {
      ShownReads(m, stem);
    }
  }

  /** A single line hides nothing. */
  lemma {:induction false} OneLineShows(d: string)
    requires OneLine(d)
    ensures !Hides(d)
  {
    var field := Field("description", d);
    KeysAreKeys();
    FieldIsOneLine(field);
    LinesCons(FieldText(field), "");
    assert FieldText(field) + "\n" + "" == FieldText(field) + "\n";
  }

  // ---- the body ----

  lemma {:induction false} LStripKeeps(a: string, b: string, i: nat)
    requires i < |a| && !IsSpace(a[i])
    ensures LStrip(a + b) == LStrip(a) + b && LStrip(a) != ""
  {
    assert (a + b)[0] == a[0];
    if IsSpace(a[0]) {
      assert (a + b)[1..] == a[1..] + b;
      LStripKeeps(a[1..], b, i - 1);
    }
  }

  /** Text in front of a trimmed body stays in front of it. */
  lemma {:induction false} StripKeepsFront(a: string, b: string, i: nat)
    requires i < |a| && !IsSpace(a[i]) && Trimmed(b) && b != ""
    ensures |Strip(a + b)| > |b|
  {
    LStripKeeps(a, b, i);
    var s := LStrip(a) + b;
    assert s[|s| - 1] == b[|b| - 1];
    assert RStrip(s) == s;
  }

  lemma {:induction false} JoinConcat(a: seq<string>, b: seq<string>)
    requires a != [] && b != []
    ensures Join(a + b) == Join(a) + "\n" + Join(b)
  {
    if |a| == 1 {
      assert (a + b)[1..] == b;
    } else {
      assert (a + b)[1..] == a[1..] + b;
      JoinConcat(a[1..], b);
      Regroup(a[0], "\n", Join(a[1..]), "\n" + Join(b));
      Assoc(a[0] + "\n" + Join(a[1..]), "\n", Join(b));
      Assoc(Join(a[1..]), "\n", Join(b));
      Assoc(a[0] + "\n", Join(a[1..]), "\n" + Join(b));
    }
  }

  lemma {:induction false} JoinEndsIn(a: seq<string>)
    requires a != []
    ensures var t, last := Join(a), a[|a| - 1]; |last| <= |t| && t[|t| - |last|..] == last
  {
    if |a| > 1 {
      JoinEndsIn(a[1..]);
    }
  }

  lemma {:induction false} JoinShowsFence(a: seq<string>) returns (i: nat)
    requires a != [] && a[|a| - 1] == FENCE
    ensures i < |Join(a)| && !IsSpace(Join(a)[i])
  {
    JoinEndsIn(a);
    var t := Join(a);
    i := |t| - 3;
    assert t[i] == t[|t| - 3..][0] == '-';
  }

  /** A body behind a hidden front matter is read with all that follows the hiding line. */
  lemma {:induction false} HiddenBody(m: Meta, front: seq<string>)
    requires front != [] && front[|front| - 1] == FENCE && Trimmed(m.body) && m.body != ""
    ensures |Strip(Join(front + BodyLines(m)))| > |m.body|
  {
    StripTrims(m.body);
    JoinOfLines(m.body);
    JoinConcat(front, BodyLines(m));
    var i := JoinShowsFence(front);
    var a := Join(front) + "\n";
    assert a[i] == Join(front)[i];
    StripKeepsFront(a, m.body, i);
  }

  /** The body reads back exactly when the description does not hide the front matter, and what is
      read is never empty. */
  lemma {:induction false} BodyReadsIff(m: Meta, stem: string)
    requires OthersOneLine(m) && Trimmed(m.body) && m.body != ""
    ensures Parsed(Render(m), stem).body == m.body <==> !Hides(m.description)
    ensures Parsed(Render(m), stem).body != ""
  {
    StripTrims(m.body);
    if Hides(m.description) {
      HiddenHead(m);
      var front := DescriptionLines(m.description)[FenceIn(m.description) + 1..] + Printed(OtherFields(m)) + [FENCE];
      HiddenBody(m, front);
    } else {
      ShownReads(m, stem);
    }
  }

  /** The description reads back exactly when it is a trimmed single line and not empty. */
  lemma {:induction false} DescriptionReadsIff(m: Meta, stem: string)
    requires OthersOneLine(m) && Plain(stem) && stem != ""
    ensures Parsed(Render(m), stem).description == m.description <==>
            Plain(m.description) && m.description != ""
  {
    ReadIsPlain(Render(m), stem);
    if Plain(m.description) {
      PrintedReads(m, stem);
      StripTrims(m.description);
    }
  }
}
