/** The skill file format, its printer and its parser: skills.py. */
module SkillFile {
  import opened Options
  import opened Text

  datatype Meta = Meta(
    name: string,
    description: string,
    version: int,
    created: string,
    updated: string,
    origin: string,
    body: string)

  type Dict = map<string, string>

  const FENCE := "---"

  function Get(d: Dict, key: string, otherwise: string): string {
    if key in d then d[key] else otherwise
  }

  // ---- lines ----

  /** The first place of c, or the length. */
  function Index(s: string, c: char): (n: nat)
    ensures n <= |s| && (n < |s| ==> s[n] == c)
  {
    if s == "" || s[0] == c then 0 else 1 + Index(s[1..], c)
  }

  predicate OneLine(s: string) {
    Index(s, '\n') == |s|
  }

  /** What a front matter value can be after parsing. */
  predicate Plain(s: string) {
    Trimmed(s) && OneLine(s)
  }

  /** `splitlines`, line ends dropped; a final line end starts no further line. */
  function Lines(s: string): seq<string>
    decreases |s|
  {
    if s == "" then []
    else
      var n := Index(s, '\n');
      if n == |s| then [s] else [s[..n]] + Lines(s[n + 1..])
  }

  function Join(lines: seq<string>): string {
    if lines == [] then ""
    else if |lines| == 1 then lines[0]
    else lines[0] + "\n" + Join(lines[1..])
  }

  lemma {:induction false} IndexAbsent(s: string, c: char)
    ensures Index(s, c) == |s| <==> c !in s
    ensures Index(s[..Index(s, c)], c) == Index(s, c)
  {
    if s != "" && s[0] != c {
      IndexAbsent(s[1..], c);
      assert s[..Index(s, c)][1..] == s[1..][..Index(s[1..], c)];
      assert s == [s[0]] + s[1..];
    }
  }

  lemma {:induction false} IndexOf(a: string, c: char, b: string)
    requires Index(a, c) == |a|
    ensures Index(a + [c] + b, c) == |a|
  {
    if a == "" {
      assert a + [c] + b == [c] + b;
    } else {
      assert (a + [c] + b)[1..] == a[1..] + [c] + b;
      IndexOf(a[1..], c, b);
    }
  }

  lemma {:induction false} LinesAreOneLine(s: string)
    ensures forall i :: 0 <= i < |Lines(s)| ==> OneLine(Lines(s)[i])
    decreases |s|
  {
    if s != "" {
      var n := Index(s, '\n');
      IndexAbsent(s, '\n');
      if n < |s| {
        LinesAreOneLine(s[n + 1..]);
      }
    }
  }

  lemma {:induction false} LinesCons(a: string, rest: string)
    requires OneLine(a)
    ensures Lines(a + "\n" + rest) == [a] + Lines(rest)
  {
    var s := a + "\n" + rest;
    IndexOf(a, '\n', rest);
    assert s[..|a|] == a && s[|a| + 1..] == rest;
  }

  /** The lines, each with its line end, before the rest of the text. */
  function Ended(lines: seq<string>, rest: string): string {
    if lines == [] then rest else lines[0] + "\n" + Ended(lines[1..], rest)
  }

  lemma {:induction false} Regroup<T>(a: seq<T>, b: seq<T>, c: seq<T>, d: seq<T>)
    ensures a + b + c + d == a + b + (c + d)
  {
  }

  lemma {:induction false} HeadTail<T>(xs: seq<T>, ys: seq<T>)
    requires xs != []
    ensures xs + ys == [xs[0]] + (xs[1..] + ys)
  {
  }

  lemma {:induction false} JoinEnds(lines: seq<string>, rest: string)
    ensures Join(lines + [""]) + rest == Ended(lines, rest)
  {
    if lines == [] {
      assert lines + [""] == [""];
      assert "" + rest == rest;
    } else {
      JoinEnds(lines[1..], rest);
      assert (lines + [""])[1..] == lines[1..] + [""];
      Regroup(lines[0], "\n", Join(lines[1..] + [""]), rest);
    }
  }

  lemma {:induction false} LinesOfEnded(lines: seq<string>, rest: string)
    requires forall i :: 0 <= i < |lines| ==> OneLine(lines[i])
    ensures Lines(Ended(lines, rest)) == lines + Lines(rest)
  {
    if lines != [] {
      assert forall i :: 0 <= i < |lines[1..]| ==> lines[1..][i] == lines[i + 1];
      LinesOfEnded(lines[1..], rest);
      LinesCons(lines[0], Ended(lines[1..], rest));
      HeadTail(lines, Lines(rest));
    }
  }

  /** Joining the lines of a newline-terminated text gives back what stood before the newline. */
  lemma {:induction false} JoinOfLines(s: string)
    ensures Lines(s + "\n") != [] && Join(Lines(s + "\n")) == s
    decreases |s|
  {
    var n := Index(s, '\n');
    IndexAbsent(s, '\n');
    if n == |s| {
      assert s + "\n" + "" == s + "\n";
      LinesCons(s, "");
    } else {
      var a, rest := s[..n], s[n + 1..];
      assert s == a + "\n" + rest;
      Regroup(a, "\n", rest, "\n");
      LinesCons(a, rest + "\n");
      JoinOfLines(rest);
      assert ([a] + Lines(rest + "\n"))[1..] == Lines(rest + "\n");
    }
  }

  // ---- integers ----

  function IntText(n: int): string {
    if n < 0 then "-" + Decimal(-n) else Decimal(n)
  }

  /** Digits with single underscores between them, as `int` accepts them. */
  predicate Literal(s: string) {
    && s != "" && IsDigit(s[0]) && IsDigit(s[|s| - 1])
    && forall i :: 0 < i < |s| ==> IsDigit(s[i]) || (s[i] == '_' && s[i - 1] != '_')
  }

  /** The digits alone. */
  function Bare(s: string): (r: string)
    ensures forall i :: 0 <= i < |r| ==> IsDigit(r[i])
  {
    if s == "" then ""
    else
      var rest := Bare(s[..|s| - 1]);
      if IsDigit(s[|s| - 1]) then rest + [s[|s| - 1]] else rest
  }

  lemma {:induction false} BareOfDigits(s: string)
    requires forall i :: 0 <= i < |s| ==> IsDigit(s[i])
    ensures Bare(s) == s
  {
    if s != "" {
      BareOfDigits(s[..|s| - 1]);
      assert s == s[..|s| - 1] + [s[|s| - 1]];
    }
  }

  function Natural(s: string): Option<nat> {
    if Literal(s) then Some(Numeral(Bare(s))) else None
  }

  /** Python's `int` on a stripped ASCII string; None where it raises. */
  function IntOf(s: string): Option<int> {
    var signed := s != "" && (s[0] == '-' || s[0] == '+');
    match Natural(if signed then s[1..] else s)
    case Some(n) =>
      var v: int := n;
      Some(if signed && s[0] == '-' then -v else v)
    case None => None
  }

  lemma {:induction false} NaturalOfDecimal(n: nat)
    ensures Natural(Decimal(n)) == Some(n)
  {
    BareOfDigits(Decimal(n));
    NumeralOfDecimal(n);
  }

  lemma {:induction false} SignedReads(d: string, n: nat)
    requires d != "" && IsDigit(d[0]) && Natural(d) == Some(n)
    ensures var v: int := n; IntOf(d) == Some(v) && IntOf("-" + d) == Some(-v)
  {
    assert ("-" + d)[1..] == d;
  }

  lemma {:induction false} IntReads(n: int)
    ensures IntOf(IntText(n)) == Some(n)
  {
    var k := if n < 0 then -n else n;
    NaturalOfDecimal(k);
    SignedReads(Decimal(k), k);
  }

  lemma {:induction false} IntIsPlain(n: int)
    ensures Plain(IntText(n)) && IntText(n) != ""
  {
    var d := Decimal(if n < 0 then -n else n);
    var t := IntText(n);
    assert IsDigit(d[0]) && IsDigit(d[|d| - 1]);
    assert t[|t| - 1] == d[|d| - 1];
    IndexAbsent(t, '\n');
  }

  // ---- the parser ----

  function FieldLine(d: Dict, line: string): Dict {
    var c := Index(line, ':');
    if c < |line| then d[Lower(Strip(line[..c])) := Strip(line[c + 1..])] else d
  }

  /** Later lines win. */
  function Fields(lines: seq<string>): Dict {
    if lines == [] then map[]
    else FieldLine(Fields(lines[..|lines| - 1]), lines[|lines| - 1])
  }

  predicate IsFence(line: string) {
    Strip(line) == FENCE
  }

  /** The first fence from line i on. */
  function Fence(lines: seq<string>, i: nat): (r: nat)
    requires i <= |lines|
    ensures i <= r <= |lines|
    decreases |lines| - i
  {
    if i == |lines| || IsFence(lines[i]) then i else Fence(lines, i + 1)
  }

  predicate IsHeading(line: string) {
    |line| >= 2 && line[0] == '#' && line[1] == ' '
  }

  /** The metadata and the line the body starts at. */
  function Head(lines: seq<string>): (r: (Dict, nat))
    ensures r.1 <= |lines|
  {
    if lines == [] then (map[], 0)
    else if IsFence(lines[0]) then
      var end := Fence(lines, 1);
      if end < |lines| then (Fields(lines[1..end]), end + 1) else (map[], 0)
    else if IsHeading(lines[0]) then (map["description" := Strip(lines[0][2..])], 1)
    else (map[], 0)
  }

  function VersionOf(d: Dict): int {
    match IntOf(Get(d, "version", "1"))
    case Some(n) => n
    case None => 1
  }

  function Assembled(d: Dict, body: string, stem: string): Meta {
    var description := Get(d, "description", "");
    Meta(stem, if description == "" then stem else description, VersionOf(d),
         Get(d, "created_at", ""), Get(d, "updated_at", ""), Get(d, "origin", ""), body)
  }

  function Parsed(text: string, stem: string): Meta {
    var lines := Lines(text);
    var head := Head(lines);
    Assembled(head.0, Strip(Join(lines[head.1..])), stem)
  }

  method ParseHead(lines: seq<string>) returns (meta: Dict, bodyStart: nat)
    ensures (meta, bodyStart) == Head(lines)
  {
    meta, bodyStart := map[], 0;
    if lines != [] && IsFence(lines[0]) {
      var end := 1;
      while end < |lines| && !IsFence(lines[end])
        invariant 1 <= end <= |lines|
        invariant Fence(lines, 1) == Fence(lines, end)
      {
        end := end + 1;
      }
      if end < |lines| {
        var i := 1;
        while i < end
          invariant 1 <= i <= end
          invariant meta == Fields(lines[1..i])
        {
          assert lines[1..i + 1][..i - 1] == lines[1..i];
          meta := FieldLine(meta, lines[i]);
          i := i + 1;
        }
        bodyStart := end + 1;
      }
    } else if lines != [] && IsHeading(lines[0]) {
      meta := meta["description" := Strip(lines[0][2..])];
      bodyStart := 1;
    }
  }

  method ParseSkill(text: string, stem: string) returns (m: Meta)
    ensures m == Parsed(text, stem)
  {
    var lines := Lines(text);
    var meta, bodyStart := ParseHead(lines);
    m := Assembled(meta, Strip(Join(lines[bodyStart..])), stem);
  }

  // ---- the printer ----

  /** A printed field: the key and the text behind it. */
  datatype Field = Field(key: string, val: string)

  function FieldsOf(m: Meta): seq<Field> {
    [Field("description", m.description), Field("version", IntText(m.version)),
     Field("created_at", m.created), Field("updated_at", m.updated), Field("origin", m.origin)]
  }

  function FieldText(f: Field): string {
    f.key + ": " + f.val
  }

  function Printed(fields: seq<Field>): seq<string> {
    seq(|fields|, i requires 0 <= i < |fields| => FieldText(fields[i]))
  }

  function Front(m: Meta): seq<string> {
    [FENCE] + Printed(FieldsOf(m)) + [FENCE]
  }

  function Render(m: Meta): string {
    Join(Front(m) + [""]) + (Strip(m.body) + "\n")
  }

  // ---- printing then parsing ----

  predicate KeyChar(c: char) {
    'a' <= c <= 'z' || c == '_'
  }

  predicate Key(key: string) {
    key != "" && forall i :: 0 <= i < |key| ==> KeyChar(key[i])
  }

  lemma {:induction false} KeyReads(key: string)
    requires forall i :: 0 <= i < |key| ==> KeyChar(key[i])
    ensures Lower(key) == key && Index(key, ':') == |key| && OneLine(key)
  {
    if key != "" {
      assert KeyChar(key[0]);
      KeyReads(key[1..]);
      assert key == [key[0]] + key[1..];
    }
  }

  lemma {:induction false} StripLeadingSpace(s: string)
    ensures Strip(" " + s) == Strip(s)
  {
    assert (" " + s)[1..] == s;
  }

  lemma {:induction false} FieldReads(d: Dict, f: Field)
    requires Key(f.key)
    ensures FieldLine(d, FieldText(f)) == d[f.key := Strip(f.val)]
  {
    var line, rest := FieldText(f), " " + f.val;
    KeyReads(f.key);
    assert line == f.key + [':'] + rest;
    IndexOf(f.key, ':', rest);
    assert line[..|f.key|] == f.key && line[|f.key| + 1..] == rest;
    StripLeadingSpace(f.val);
    assert KeyChar(f.key[0]) && KeyChar(f.key[|f.key| - 1]);
    StripTrims(f.key);
  }

  /** A front matter line is not taken for the closing fence. */
  lemma {:induction false} FieldIsNoFence(f: Field)
    requires Key(f.key)
    ensures !IsFence(FieldText(f))
  {
    var line := FieldText(f);
    assert KeyChar(f.key[0]) && line[0] == f.key[0];
    RStripIsPrefix(line);
  }

  /** What the fields mean: each key with its trimmed value. */
  function DictOf(fields: seq<Field>): Dict {
    if fields == [] then map[]
    else
      var last := fields[|fields| - 1];
      DictOf(fields[..|fields| - 1])[last.key := Strip(last.val)]
  }

  lemma {:induction false} PrintedFields(fields: seq<Field>)
    requires forall f :: f in fields ==> Key(f.key)
    ensures Fields(Printed(fields)) == DictOf(fields)
  {
    if fields == [] {
    } else {
      var n := |fields| - 1;
      assert fields[n] in fields && forall f :: f in fields[..n] ==> f in fields;
      PrintedFields(fields[..n]);
      assert Printed(fields)[..n] == Printed(fields[..n]);
      FieldReads(DictOf(fields[..n]), fields[n]);
    }
  }

  lemma {:induction false} FenceAfter(lines: seq<string>, i: nat, n: nat)
    requires i <= n < |lines| && IsFence(lines[n])
    requires forall k :: i <= k < n ==> !IsFence(lines[k])
    ensures Fence(lines, i) == n
    decreases n - i
  {
    if i < n {
      FenceAfter(lines, i + 1, n);
    }
  }

  lemma {:induction false} FenceIsFence()
    ensures IsFence(FENCE) && OneLine(FENCE)
  {
    StripTrims(FENCE);
    IndexAbsent(FENCE, '\n');
  }

  lemma {:induction false} Between<T>(x: T, middle: seq<T>, rest: seq<T>)
    ensures var all, n := [x] + middle + [x] + rest, |middle| + 1;
      && |all| == n + 1 + |rest| && all[0] == x && all[n] == x
      && all[1..n] == middle && all[n + 1..] == rest
      && forall k :: 1 <= k < n ==> all[k] == middle[k - 1]
  {
  }

  lemma {:induction false} HeadBetween(lines: seq<string>, n: nat)
    requires 1 <= n < |lines| && IsFence(lines[0]) && IsFence(lines[n])
    requires forall k :: 1 <= k < n ==> !IsFence(lines[k])
    ensures Head(lines) == (Fields(lines[1..n]), n + 1)
  {
    FenceAfter(lines, 1, n);
  }

  lemma {:induction false} NoFences(fields: seq<Field>)
    requires forall f :: f in fields ==> Key(f.key)
    ensures forall k :: 0 <= k < |fields| ==> !IsFence(Printed(fields)[k])
  {
    forall k | 0 <= k < |fields| ensures !IsFence(Printed(fields)[k]) {
      assert fields[k] in fields;
      FieldIsNoFence(fields[k]);
    }
  }

  /** Front matter between fences is read as the dictionary it was printed from. */
  lemma {:induction false} HeadReads(fields: seq<Field>, rest: seq<string>, lines: seq<string>)
    requires forall f :: f in fields ==> Key(f.key)
    requires lines == [FENCE] + Printed(fields) + [FENCE] + rest
    ensures Head(lines) == (DictOf(fields), |fields| + 2)
    ensures lines[|fields| + 2..] == rest
  {
    Between(FENCE, Printed(fields), rest);
    FenceIsFence();
    NoFences(fields);
    HeadBetween(lines, |fields| + 1);
    PrintedFields(fields);
  }

  lemma {:induction false} FieldIsOneLine(f: Field)
    requires Key(f.key) && OneLine(f.val)
    ensures OneLine(FieldText(f))
  {
    KeyReads(f.key);
    IndexAbsent(f.key, '\n');
    IndexAbsent(f.val, '\n');
    IndexAbsent(FieldText(f), '\n');
  }

  predicate OneLineFields(m: Meta) {
    OneLine(m.description) && OneLine(m.created) && OneLine(m.updated) && OneLine(m.origin)
  }

  lemma {:induction false} KeysAreKeys()
    ensures Key("description") && Key("version") && Key("created_at")
    ensures Key("updated_at") && Key("origin")
  {
  }

  lemma {:induction false} FrontFields(m: Meta)
    ensures forall f :: f in FieldsOf(m) ==> Key(f.key)
    ensures OneLineFields(m) ==> forall f :: f in FieldsOf(m) ==> OneLine(f.val)
  {
    KeysAreKeys();
    IntIsPlain(m.version);
  }

  lemma {:induction false} FrontLines(m: Meta, rest: string)
    requires OneLineFields(m)
    ensures Lines(Join(Front(m) + [""]) + rest) == Front(m) + Lines(rest)
  {
    var front, fields := Front(m), FieldsOf(m);
    FrontFields(m);
    FenceIsFence();
    forall i | 0 <= i < |front| ensures OneLine(front[i]) {
      if 0 < i < |front| - 1 {
        assert fields[i - 1] in fields && front[i] == FieldText(fields[i - 1]);
        FieldIsOneLine(fields[i - 1]);
      }
    }
    JoinEnds(front, rest);
    LinesOfEnded(front, rest);
  }

  lemma {:induction false} DictOfMore(fields: seq<Field>, f: Field, more: seq<Field>)
    requires more == fields + [f]
    ensures DictOf(more) == DictOf(fields)[f.key := Strip(f.val)]
  {
    assert more[..|fields|] == fields;
  }

  lemma {:induction false} DictOfFive(a: Field, b: Field, c: Field, d: Field, e: Field)
    ensures DictOf([a, b, c, d, e]) ==
      map[a.key := Strip(a.val)][b.key := Strip(b.val)][c.key := Strip(c.val)]
         [d.key := Strip(d.val)][e.key := Strip(e.val)]
  {
    DictOfMore([], a, [a]);
    DictOfMore([a], b, [a, b]);
    DictOfMore([a, b], c, [a, b, c]);
    DictOfMore([a, b, c], d, [a, b, c, d]);
    DictOfMore([a, b, c, d], e, [a, b, c, d, e]);
  }

  lemma {:induction false} FrontReads(m: Meta, rest: string, stem: string)
    requires OneLineFields(m)
    ensures Parsed(Join(Front(m) + [""]) + rest, stem) ==
            Assembled(DictOf(FieldsOf(m)), Strip(Join(Lines(rest))), stem)
  {
    FrontFields(m);
    FrontLines(m, rest);
    HeadReads(FieldsOf(m), Lines(rest), Front(m) + Lines(rest));
  }

  lemma {:induction false} FiveLookups(a: string, b: string, c: string, d: string, e: string)
    ensures var dict := map["description" := a]["version" := b]["created_at" := c]
                           ["updated_at" := d]["origin" := e];
      && Get(dict, "description", "") == a && Get(dict, "version", "1") == b
      && Get(dict, "created_at", "") == c && Get(dict, "updated_at", "") == d
      && Get(dict, "origin", "") == e
  {
    assert "created_at"[0] != "updated_at"[0];
  }

  lemma {:induction false} FrontAssembles(m: Meta, body: string, stem: string)
    ensures Assembled(DictOf(FieldsOf(m)), body, stem) ==
      Meta(stem, if Strip(m.description) == "" then stem else Strip(m.description), m.version,
           Strip(m.created), Strip(m.updated), Strip(m.origin), body)
  {
    var f := FieldsOf(m);
    DictOfFive(f[0], f[1], f[2], f[3], f[4]);
    FiveLookups(Strip(m.description), Strip(IntText(m.version)), Strip(m.created),
                Strip(m.updated), Strip(m.origin));
    IntReads(m.version);
    IntIsPlain(m.version);
    StripTrims(IntText(m.version));
  }

  /** What reading a printed skill gives, whatever it holds, as long as the front matter values are
      single lines: every value trimmed, and the file's name for an empty description. */
  lemma {:induction false} PrintedReads(m: Meta, stem: string)
    requires OneLineFields(m)
    ensures Parsed(Render(m), stem) ==
      Meta(stem, if Strip(m.description) == "" then stem else Strip(m.description), m.version,
           Strip(m.created), Strip(m.updated), Strip(m.origin), Strip(m.body))
  {
    FrontReads(m, Strip(m.body) + "\n", stem);
    FrontAssembles(m, Strip(m.body), stem);
    JoinOfLines(Strip(m.body));
    StripTrims(m.body);
    StripTrims(Strip(m.body));
  }

  // ---- the converse: what reading can give at all ----

  lemma {:induction false} LStripMembers(s: string, c: char)
    requires c in LStrip(s)
    ensures c in s
  {
    if s != "" && IsSpace(s[0]) {
      LStripMembers(s[1..], c);
    }
  }

  lemma {:induction false} StripIsPlain(s: string)
    requires OneLine(s)
    ensures Plain(Strip(s))
  {
    StripTrims(s);
    RStripIsPrefix(LStrip(s));
    IndexAbsent(s, '\n');
    IndexAbsent(Strip(s), '\n');
    if '\n' in LStrip(s) {
      LStripMembers(s, '\n');
    }
  }

  lemma {:induction false} SuffixIsOneLine(s: string, i: nat)
    requires OneLine(s) && i <= |s|
    ensures OneLine(s[i..])
  {
    IndexAbsent(s, '\n');
    IndexAbsent(s[i..], '\n');
  }

  predicate PlainValues(d: Dict) {
    forall k :: k in d ==> Plain(d[k])
  }

  lemma {:induction false} FieldsArePlain(lines: seq<string>)
    requires forall i :: 0 <= i < |lines| ==> OneLine(lines[i])
    ensures PlainValues(Fields(lines))
  {
    if lines != [] {
      var init, line := lines[..|lines| - 1], lines[|lines| - 1];
      FieldsArePlain(init);
      var c := Index(line, ':');
      if c < |line| {
        SuffixIsOneLine(line, c + 1);
        StripIsPlain(line[c + 1..]);
      }
    }
  }

  lemma {:induction false} HeadIsPlain(lines: seq<string>)
    requires forall i :: 0 <= i < |lines| ==> OneLine(lines[i])
    ensures PlainValues(Head(lines).0)
  {
    if lines == [] {
    } else if IsFence(lines[0]) {
      var end := Fence(lines, 1);
      if end < |lines| {
        FieldsArePlain(lines[1..end]);
      }
    } else if IsHeading(lines[0]) {
      SuffixIsOneLine(lines[0], 2);
      StripIsPlain(lines[0][2..]);
    }
  }

  /** Whatever the text, what is read is plain: single trimmed lines and a trimmed body. */
  lemma {:induction false} ReadIsPlain(text: string, stem: string)
    ensures var m := Parsed(text, stem);
      && (m.description == stem || (Plain(m.description) && m.description != ""))
      && Plain(m.created) && Plain(m.updated) && Plain(m.origin) && Trimmed(m.body)
  {
    var lines := Lines(text);
    LinesAreOneLine(text);
    HeadIsPlain(lines);
    StripTrims(Join(lines[Head(lines).1..]));
  }

  predicate Faithful(m: Meta) {
    && Plain(m.description) && m.description != ""
    && Plain(m.created) && Plain(m.updated) && Plain(m.origin) && Trimmed(m.body)
  }

  /** Printing then parsing gives a skill back exactly when its front matter values are trimmed
      single lines, the description is not empty, and the body is trimmed. */
  lemma {:induction false} SkillRoundTrip(m: Meta, stem: string)
    requires Plain(stem) && stem != ""
    ensures Parsed(Render(m), stem) == m.(name := stem) <==> Faithful(m)
  {
    ReadIsPlain(Render(m), stem);
    if Faithful(m) {
      PrintedReads(m, stem);
      StripTrims(m.description);
      StripTrims(m.created);
      StripTrims(m.updated);
      StripTrims(m.origin);
      StripTrims(m.body);
    }
  }

  // ---- files that nobody printed ----

  /** A file that starts with a heading is described by it; the rest is the body. */
  lemma {:induction false} HeadingReads(title: string, rest: string, stem: string)
    requires OneLine(title)
    ensures Parsed("# " + title + "\n" + rest, stem) ==
      Meta(stem, if Strip(title) == "" then stem else Strip(title), 1, "", "", "", Strip(Join(Lines(rest))))
  {
    var text := "# " + title + "\n" + rest;
    HeadingHead(title, rest);
    assert Lines(text)[1..] == Lines(rest);
    DescribedOnly(Strip(title), Strip(Join(Lines(rest))), stem);
  }

  lemma {:induction false} DescribedOnly(description: string, body: string, stem: string)
    ensures Assembled(map["description" := description], body, stem) ==
            Meta(stem, if description == "" then stem else description, 1, "", "", "", body)
  {
    var d: Dict := map["description" := description];
    assert d.Keys == {"description"};
    UnsetVersion(d);
  }

  lemma {:induction false} UnsetVersion(d: Dict)
    requires "version" !in d
    ensures VersionOf(d) == 1
  {
    IntReads(1);
  }

  lemma {:induction false} HeadingHead(title: string, rest: string)
    requires OneLine(title)
    ensures var lines := Lines("# " + title + "\n" + rest);
      lines == ["# " + title] + Lines(rest) && Head(lines) == (map["description" := Strip(title)], 1)
  {
    var line := "# " + title;
    IndexAbsent(title, '\n');
    IndexAbsent(line, '\n');
    LinesCons(line, rest);
    assert line[2..] == title;
    HeadingIsNoFence(line);
  }

  lemma {:induction false} HeadingIsNoFence(line: string)
    requires line != "" && line[0] == '#'
    ensures !IsFence(line)
  {
    RStripIsPrefix(line);
  }

  /** A file that starts with neither is all body, and described by its name. */
  lemma {:induction false} BareFileReads(text: string, stem: string)
    requires text != "" && !IsFence(Lines(text)[0]) && !("# " <= Lines(text)[0])
    ensures Parsed(text, stem) == Meta(stem, stem, 1, "", "", "", Strip(Join(Lines(text))))
  {
    var lines := Lines(text);
    assert lines[0..] == lines;
    assert Head(lines) == (map[], 0);
  }

  /** An opening fence that is never closed opens nothing. */
  lemma {:induction false} UnclosedReads(text: string, stem: string)
    requires text != "" && IsFence(Lines(text)[0]) && forall i :: 1 <= i < |Lines(text)| ==> !IsFence(Lines(text)[i])
    ensures Parsed(text, stem) == Meta(stem, stem, 1, "", "", "", Strip(Join(Lines(text))))
  {
    var lines := Lines(text);
    NoFenceFrom(lines, 1);
    assert lines[0..] == lines;
    assert Head(lines) == (map[], 0);
  }

  lemma {:induction false} NoFenceFrom(lines: seq<string>, i: nat)
    requires i <= |lines| && forall k :: i <= k < |lines| ==> !IsFence(lines[k])
    ensures Fence(lines, i) == |lines|
    decreases |lines| - i
  {
    if i < |lines| {
      NoFenceFrom(lines, i + 1);
    }
  }

  /** A front matter line sets its key, lower-cased and trimmed, to what stands behind the first colon;
      one without a colon sets nothing. */
  lemma {:induction false} FieldLineReads(d: Dict, key: string, val: string)
    requires ':' !in key
    ensures FieldLine(d, key + ":" + val) == d[Lower(Strip(key)) := Strip(val)]
    ensures FieldLine(d, key) == d
  {
    IndexAbsent(key, ':');
    IndexOf(key, ':', val);
    var line := key + [':'] + val;
    assert line == key + ":" + val && line[..|key|] == key && line[|key| + 1..] == val;
  }
}
