/** Runs in which an archived skill version is lost: skills.py. */
module SkillWitnesses {
  import opened Options
  import opened Text
  import opened SkillFile
  import opened SkillFences
  import opened SkillStore
  import opened SkillRuns

  // ---- telling two printed skills apart ----

  lemma {:induction false} RenderEnds(m: Meta)
    requires Trimmed(m.body) && m.body != ""
    ensures |Render(m)| >= 2 && Render(m)[|Render(m)| - 2] == m.body[|m.body| - 1]
  {
    StripTrims(m.body);
  }

  lemma {:induction false} DifferentBodies(a: Meta, b: Meta)
    requires Trimmed(a.body) && a.body != "" && Trimmed(b.body) && b.body != ""
    requires a.body[|a.body| - 1] != b.body[|b.body| - 1]
    ensures Render(a) != Render(b)
  {
    RenderEnds(a);
    RenderEnds(b);
  }

  // ---- saves under one name ----

  /** A save of the skill with a trimmed body and this description. */
  predicate SaveAs(op: Op, slug: string, d: string) {
    && op.Save? && CleanOp(op) && Normalize(op.name) == slug && slug != ""
    && op.description == Some(d) && Trimmed(op.content) && op.content != ""
  }

  predicate IsSave(m: Meta, op: Op)
    requires op.Save?
  {
    m.body == op.content && Some(m.description) == op.description && OthersOneLine(m)
  }

  lemma {:induction false} NextIsSave(sh: Shelf, slug: string, op: Op, d: string)
    requires SaveAs(op, slug, d)
    ensures IsSave(NextMeta(sh, slug, op.content, op.description, op.origin, op.now), op)
  {
    SlugShape(op.name);
    if slug in sh.current {
      ReadIsPlain(sh.current[slug], slug);
    }
  }

  lemma {:induction false} FirstSave(sh: Shelf, op: Op, slug: string, d: string) returns (m: Meta)
    requires SaveAs(op, slug, d) && slug !in sh.current
    ensures IsSave(m, op) && m.version == 1
    ensures Outcome(sh, op).0 == sh.(current := sh.current[slug := Render(m)])
  {
    StripTrims(op.content);
    NextIsSave(sh, slug, op, d);
    m := NextMeta(sh, slug, op.content, op.description, op.origin, op.now);
  }

  /** A further save puts the current file into the archive under the number it reads as. */
  lemma {:induction false} NextSave(sh: Shelf, v: int, op: Op, slug: string, d: string) returns (m: Meta)
    requires SaveAs(op, slug, d) && slug in sh.current && Current(sh, slug).version == v
    ensures IsSave(m, op) && m.version == v + 1
    ensures Outcome(sh, op).0 ==
            Shelf(sh.current[slug := Render(m)], sh.archive[(slug, v) := sh.current[slug]])
  {
    NextIsSave(sh, slug, op, d);
    m := NextMeta(sh, slug, op.content, op.description, op.origin, op.now);
    StripTrims(op.content);
  }

  lemma {:induction false} AfterPush(ops: seq<Op>, op: Op)
    ensures After(ops + [op]) == Outcome(After(ops), op).0
  {
    assert (ops + [op])[..|ops|] == ops;
  }

  // ---- a description that hides the version ----

  /** A later line closes the front matter, and what stands in front of it reads as version 1. */
  predicate ReadsOne(d: string) {
    Hides(d) && VersionOf(FieldsBefore(d)) == 1
  }

  lemma {:induction false} CurrentReadsOne(sh: Shelf, slug: string, m: Meta)
    requires slug in sh.current && sh.current[slug] == Render(m) && OthersOneLine(m)
    requires if Hides(m.description) then ReadsOne(m.description) else m.version == 1
    ensures Current(sh, slug).version == 1
  {
    if Hides(m.description) {
      HiddenHead(m);
    } else {
      ShownReads(m, slug);
    }
  }

  lemma {:induction false} TwoSaves(sh: Shelf, a: Op, b: Op, slug: string, d: string) returns (m: Meta, n: Meta)
    requires SaveAs(a, slug, d) && SaveAs(b, slug, d) && slug !in sh.current
    requires Hides(d) ==> ReadsOne(d)
    ensures IsSave(m, a) && IsSave(n, b)
    ensures var two := Outcome(Outcome(sh, a).0, b).0;
      && slug in two.current && two.current[slug] == Render(n)
      && (slug, 1) in two.archive && two.archive[(slug, 1)] == Render(m)
  {
    m := FirstSave(sh, a, slug, d);
    var one := Outcome(sh, a).0;
    CurrentReadsOne(one, slug, m);
    n := NextSave(one, 1, b, slug, d);
  }

  lemma {:induction false} Overwrites(sh: Shelf, n: Meta, c: Op, slug: string, d: string)
    requires SaveAs(c, slug, d) && slug in sh.current && sh.current[slug] == Render(n)
    requires OthersOneLine(n) && ReadsOne(n.description)
    ensures var r := Outcome(sh, c).0; (slug, 1) in r.archive && r.archive[(slug, 1)] == Render(n)
  {
    CurrentReadsOne(sh, slug, n);
    var o := NextSave(sh, 1, c, slug, d);
  }

  lemma {:induction false} SavesDiffer(m: Meta, n: Meta, a: Op, b: Op, slug: string, d: string)
    requires SaveAs(a, slug, d) && SaveAs(b, slug, d) && IsSave(m, a) && IsSave(n, b)
    requires a.content[|a.content| - 1] != b.content[|b.content| - 1]
    ensures Render(m) != Render(n)
  {
    DifferentBodies(m, n);
  }

  lemma {:induction false} TwoTexts(sh: Shelf, a: Op, b: Op, slug: string, d: string) returns (first: string,
                                    n: Meta)
    requires SaveAs(a, slug, d) && SaveAs(b, slug, d) && slug !in sh.current && ReadsOne(d)
    requires a.content[|a.content| - 1] != b.content[|b.content| - 1]
    ensures n.description == d && OthersOneLine(n) && first != Render(n)
    ensures var two := Outcome(Outcome(sh, a).0, b).0;
      && slug in two.current && two.current[slug] == Render(n)
      && (slug, 1) in two.archive && two.archive[(slug, 1)] == first
  {
    var m;
    m, n := TwoSaves(sh, a, b, slug, d);
    SavesDiffer(m, n, a, b, slug, d);
    first := Render(m);
  }

  /** With such a description every save archives the file before it as version 1: after a third
      save the archive holds the second body where it held the first, and nothing was deleted. */
  lemma {:induction false} ThirdSaveOverwrites(sh: Shelf, slug: string, d: string, a: Op, b: Op, c: Op)
    requires SaveAs(a, slug, d) && SaveAs(b, slug, d) && SaveAs(c, slug, d) && ReadsOne(d)
    requires a.content[|a.content| - 1] != b.content[|b.content| - 1] && slug !in sh.current
    ensures var two := Outcome(Outcome(sh, a).0, b).0;
      var three := Outcome(two, c).0;
      && (slug, 1) in two.archive && (slug, 1) in three.archive
      && two.archive[(slug, 1)] != three.archive[(slug, 1)]
  {
    var first, n := TwoTexts(sh, a, b, slug, d);
    Overwrites(Outcome(Outcome(sh, a).0, b).0, n, c, slug, d);
  }

  lemma {:induction false} TwoLines(x: string, y: string)
    requires OneLine(x) && OneLine(y)
    ensures DescriptionLines(x + "\n" + y) == [FieldText(Field("description", x)), y]
  {
    var field := Field("description", x);
    KeysAreKeys();
    FieldIsOneLine(field);
    LinesCons(FieldText(field), y + "\n" + "");
    LinesCons(y, "");
    Reassociated("description" + ": ", x, y);
    assert Lines("") == [];
  }

  lemma {:induction false} Reassociated(key: string, x: string, y: string)
    ensures key + (x + "\n" + y) + "\n" == key + x + "\n" + (y + "\n" + "")
  {
  }

  /** Any single line with a fence under it is such a description. */
  lemma {:induction false} FenceUnder(x: string)
    requires OneLine(x)
    ensures ReadsOne(x + "\n" + FENCE)
  {
    var d, field := x + "\n" + FENCE, Field("description", x);
    FenceIsFence();
    TwoLines(x, FENCE);
    assert FenceIn(d) == 1;
    assert DescriptionLines(d)[..1] == [FieldText(field)];
    DescriptionAlone(field);
  }

  lemma {:induction false} DescriptionAlone(field: Field)
    requires field.key == "description"
    ensures VersionOf(Fields([FieldText(field)])) == 1
  {
    KeysAreKeys();
    FieldReads(map[], field);
    assert [FieldText(field)][..0] == [] && Fields([]) == map[];
    IntReads(1);
  }

  /** So three saves of one skill with such a description lose its first version. */
  lemma {:induction false} FencedVersionIsLost(x: string, slug: string, a: Op, b: Op, c: Op)
    requires OneLine(x)
    requires SaveAs(a, slug, x + "\n" + FENCE) && SaveAs(b, slug, x + "\n" + FENCE)
    requires SaveAs(c, slug, x + "\n" + FENCE)
    requires a.content[|a.content| - 1] != b.content[|b.content| - 1]
    ensures var two, three := After([] + [a] + [b]), After([] + [a] + [b] + [c]);
      && (slug, 1) in two.archive && (slug, 1) in three.archive
      && two.archive[(slug, 1)] != three.archive[(slug, 1)]
  {
    FenceUnder(x);
    AfterPush([], a);
    AfterPush([] + [a], b);
    AfterPush([] + [a] + [b], c);
    ThirdSaveOverwrites(EMPTY, slug, x + "\n" + FENCE, a, b, c);
  }

  function SaveS(body: string, d: string): Op {
    Save("s", body, Some(d), "agent", "now")
  }

  lemma {:induction false} SaveOfS(body: string, d: string)
    requires Trimmed(body) && body != ""
    ensures SaveAs(SaveS(body, d), "s", d)
  {
    assert AllSafe("s");
    SafeIsPlain("s");
    IndexAbsent("now", '\n');
    IndexAbsent("agent", '\n');
  }

  /** A skill "s" saved with the bodies "x", "y" and "z". */
  lemma {:induction false} FencedExample(d: string)
    requires d == "a" + "\n" + FENCE
    ensures var two := [] + [SaveS("x", d)] + [SaveS("y", d)];
      var was, now := After(two), After(two + [SaveS("z", d)]);
      ("s", 1) in was.archive && ("s", 1) in now.archive && was.archive[("s", 1)] != now.archive[("s", 1)]
  {
    SaveOfS("x", d);
    SaveOfS("y", d);
    SaveOfS("z", d);
    IndexAbsent("a", '\n');
    FencedVersionIsLost("a", "s", SaveS("x", d), SaveS("y", d), SaveS("z", d));
  }

  // ---- a deletion ----

  lemma {:induction false} DeleteMeans(sh: Shelf, op: Op, slug: string, v: int)
    requires op.Delete? && Normalize(op.name) == slug && slug in sh.current
    requires Current(sh, slug).version == v
    ensures Outcome(sh, op).0 == Shelf(sh.current - {slug}, sh.archive[(slug, v) := sh.current[slug]])
  {
  }

  lemma {:induction false} SaveThenDelete(sh: Shelf, slug: string, d: string, a: Op, gone: Op) returns (m: Meta)
    requires SaveAs(a, slug, d) && slug !in sh.current && OneLine(d)
    requires gone.Delete? && Normalize(gone.name) == slug
    ensures IsSave(m, a)
    ensures var two := Outcome(Outcome(sh, a).0, gone).0;
      slug !in two.current && (slug, 1) in two.archive && two.archive[(slug, 1)] == Render(m)
  {
    m := FirstSave(sh, a, slug, d);
    var one := Outcome(sh, a).0;
    OneLineShows(d);
    CurrentReadsOne(one, slug, m);
    DeleteMeans(one, gone, slug, 1);
  }

  lemma {:induction false} SavedAnew(sh: Shelf, m: Meta, a: Op, b: Op, c: Op, slug: string, d: string)
    requires SaveAs(a, slug, d) && SaveAs(b, slug, d) && SaveAs(c, slug, d) && IsSave(m, a)
    requires slug !in sh.current && OneLine(d) && a.content[|a.content| - 1] != b.content[|b.content| - 1]
    ensures var r := Outcome(Outcome(sh, b).0, c).0;
      (slug, 1) in r.archive && r.archive[(slug, 1)] != Render(m)
  {
    OneLineShows(d);
    var n, o := TwoSaves(sh, b, c, slug, d);
    SavesDiffer(m, n, a, b, slug, d);
  }

  /** A version, a deletion and two saves more: the archived version is gone. */
  lemma {:induction false} DeletedVersionIsLost(sh: Shelf, slug: string, d: string, a: Op, gone: Op, b: Op,
                                                c: Op)
    requires SaveAs(a, slug, d) && SaveAs(b, slug, d) && SaveAs(c, slug, d) && OneLine(d)
    requires gone.Delete? && Normalize(gone.name) == slug && slug !in sh.current
    requires a.content[|a.content| - 1] != b.content[|b.content| - 1]
    ensures var two := Outcome(Outcome(sh, a).0, gone).0;
      var four := Outcome(Outcome(two, b).0, c).0;
      && (slug, 1) in two.archive && (slug, 1) in four.archive
      && two.archive[(slug, 1)] != four.archive[(slug, 1)]
  {
    var m := SaveThenDelete(sh, slug, d, a, gone);
    SavedAnew(Outcome(Outcome(sh, a).0, gone).0, m, a, b, c, slug, d);
  }

  /** The same skill, deleted after its first save. */
  lemma {:induction false} DeletedExample()
    ensures var two := [] + [SaveS("x", "a")] + [Delete("s")];
      var was, now := After(two), After(two + [SaveS("y", "a")] + [SaveS("z", "a")]);
      ("s", 1) in was.archive && ("s", 1) in now.archive && was.archive[("s", 1)] != now.archive[("s", 1)]
  {
    var a, gone, b, c := SaveS("x", "a"), Delete("s"), SaveS("y", "a"), SaveS("z", "a");
    SaveOfS("x", "a");
    SaveOfS("y", "a");
    SaveOfS("z", "a");
    IndexAbsent("a", '\n');
    DeletedRun(a, gone, b, c);
  }

  lemma {:induction false} DeletedRun(a: Op, gone: Op, b: Op, c: Op)
    requires SaveAs(a, "s", "a") && SaveAs(b, "s", "a") && SaveAs(c, "s", "a") && gone == Delete("s")
    requires Normalize("s") == "s" && OneLine("a") && a.content[|a.content| - 1] != b.content[|b.content| - 1]
    ensures var was, now := After([] + [a] + [gone]), After([] + [a] + [gone] + [b] + [c]);
      ("s", 1) in was.archive && ("s", 1) in now.archive && was.archive[("s", 1)] != now.archive[("s", 1)]
  {
    AfterPush([], a);
    AfterPush([] + [a], gone);
    AfterPush([] + [a] + [gone], b);
    AfterPush([] + [a] + [gone] + [b], c);
    DeletedVersionIsLost(EMPTY, "s", "a", a, gone, b, c);
  }
}
