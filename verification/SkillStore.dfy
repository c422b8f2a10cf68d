/** The versioned store of project skills: skills.py. */
module SkillStore {
  import opened Options
  import opened Text
  import opened SkillFile

  datatype Error = InvalidName | EmptyContent | NoArchive

  datatype Result<+T> = Ok(value: T) | Err(error: Error)

  // ---- names ----

  predicate Safe(c: char) {
    'a' <= c <= 'z' || '0' <= c <= '9' || c == '_' || c == '-'
  }

  /** Small letters, digits, the underscore and the dash. */
  lemma {:induction false} SafeReads(c: char)
    ensures Safe(c) <==> 97 <= c as int <= 122 || 48 <= c as int <= 57 || c as int == 95 || c as int == 45
  {
  }

  /** Each run of other characters becomes one dash. */
  function Dashed(s: string, inRun: bool): string {
    if s == "" then ""
    else if Safe(s[0]) then [s[0]] + Dashed(s[1..], false)
    else if inRun then Dashed(s[1..], true)
    else ['-'] + Dashed(s[1..], true)
  }

  function LDash(s: string): string {
    if s != "" && s[0] == '-' then LDash(s[1..]) else s
  }

  function RDash(s: string): string {
    if s != "" && s[|s| - 1] == '-' then RDash(s[..|s| - 1]) else s
  }

  function Normalize(name: string): string {
    var slug := RDash(LDash(Dashed(Lower(Strip(name)), false)));
    if |slug| > 64 then slug[..64] else slug
  }

  predicate AllSafe(s: string) {
    forall i :: 0 <= i < |s| ==> Safe(s[i])
  }

  lemma {:induction false} DashedIsSafe(s: string, inRun: bool)
    ensures AllSafe(Dashed(s, inRun))
    ensures AllSafe(s) ==> Dashed(s, inRun) == s
  {
    if s != "" {
      DashedIsSafe(s[1..], false);
      DashedIsSafe(s[1..], true);
      assert s == [s[0]] + s[1..];
      if AllSafe(s) {
        assert forall i :: 0 <= i < |s[1..]| ==> s[1..][i] == s[i + 1];
      }
    }
  }

  lemma {:induction false} LDashIsSuffix(s: string)
    ensures var r := LDash(s);
      |r| <= |s| && s[|s| - |r|..] == r && (r != "" ==> r[0] != '-')
  {
    if s != "" && s[0] == '-' {
      LDashIsSuffix(s[1..]);
    }
  }

  lemma {:induction false} RDashIsPrefix(s: string)
    ensures RDash(s) <= s && (RDash(s) != "" ==> RDash(s)[|RDash(s)| - 1] != '-')
  {
    if s != "" && s[|s| - 1] == '-' {
      RDashIsPrefix(s[..|s| - 1]);
    }
  }

  lemma {:induction false} SafeIsLower(s: string)
    requires AllSafe(s)
    ensures Lower(s) == s && Index(s, '\n') == |s|
  {
    if s != "" {
      assert forall i :: 0 <= i < |s[1..]| ==> s[1..][i] == s[i + 1];
      SafeIsLower(s[1..]);
      assert s == [s[0]] + s[1..] && Safe(s[0]);
    }
  }

  lemma {:induction false} SafeIsPlain(s: string)
    requires AllSafe(s)
    ensures Plain(s) && Strip(s) == s && Lower(s) == s && Dashed(s, false) == s
  {
    SafeIsLower(s);
    DashedIsSafe(s, false);
    assert s != "" ==> Safe(s[0]) && Safe(s[|s| - 1]);
    StripTrims(s);
  }

  lemma {:induction false} SlugShape(name: string)
    ensures var slug := Normalize(name);
      AllSafe(slug) && Plain(slug) && |slug| <= 64 && (slug != "" ==> slug[0] != '-')
  {
    var d := Dashed(Lower(Strip(name)), false);
    DashedIsSafe(Lower(Strip(name)), false);
    var l := LDash(d);
    LDashIsSuffix(d);
    assert forall i :: 0 <= i < |l| ==> l[i] == d[|d| - |l| + i];
    assert AllSafe(l);
    RDashIsPrefix(l);
    assert AllSafe(RDash(l));
    SafeIsPlain(Normalize(name));
  }

  // ---- what a name becomes ----

  lemma {:induction false} DashedConcat(a: string, b: string)
    requires AllSafe(a)
    ensures Dashed(a + b, false) == a + Dashed(b, false)
  {
    if a == "" {
      assert a + b == b;
    } else {
      assert Safe(a[0]) && (a + b)[0] == a[0] && (a + b)[1..] == a[1..] + b;
      assert forall i :: 0 <= i < |a[1..]| ==> a[1..][i] == a[i + 1];
      DashedConcat(a[1..], b);
    }
  }

  lemma {:induction false} RunBecomesDash(run: string, b: string)
    requires run != "" && (forall i :: 0 <= i < |run| ==> !Safe(run[i])) && (b == "" || Safe(b[0]))
    ensures Dashed(run + b, true) == Dashed(b, false)
    ensures Dashed(run + b, false) == "-" + Dashed(b, false)
  {
    assert (run + b)[1..] == run[1..] + b;
    if |run| == 1 {
      assert run[1..] + b == b;
    } else {
      assert forall i :: 0 <= i < |run[1..]| ==> run[1..][i] == run[i + 1];
      RunBecomesDash(run[1..], b);
    }
  }

  /** Words of small letters, digits and underscores: a run of anything else between two of them becomes
      one dash, and the slug is cut to 64 characters. */
  lemma {:induction false} WordsAreJoined(name: string, a: string, run: string, b: string)
    requires Lower(Strip(name)) == a + run + b && a != "" && run != "" && b != ""
    requires AllSafe(a) && a[0] != '-' && AllSafe(b) && b[|b| - 1] != '-'
    requires forall i :: 0 <= i < |run| ==> !Safe(run[i])
    ensures var full := a + "-" + b; Normalize(name) == if |full| <= 64 then full else full[..64]
  {
    DashedWords(a, run, b);
    NoDashAtEnds(a + "-" + b, a, b);
  }

  lemma {:induction false} DashedWords(a: string, run: string, b: string)
    requires AllSafe(a) && AllSafe(b) && run != "" && b != "" && forall i :: 0 <= i < |run| ==> !Safe(run[i])
    ensures Dashed(a + run + b, false) == a + "-" + b
  {
    assert a + run + b == a + (run + b);
    DashedConcat(a, run + b);
    assert Safe(b[0]);
    RunBecomesDash(run, b);
    DashedIsSafe(b, false);
    assert a + ("-" + b) == a + "-" + b;
  }

  lemma {:induction false} NoDashAtEnds(full: string, a: string, b: string)
    requires full == a + "-" + b && a != "" && b != "" && a[0] != '-' && b[|b| - 1] != '-'
    ensures RDash(LDash(full)) == full
  {
    assert full[0] == a[0] && full[|full| - 1] == b[|b| - 1];
  }

  /** One word alone is its own slug, up to 64 characters. */
  lemma {:induction false} WordIsKept(name: string, a: string)
    requires Lower(Strip(name)) == a && AllSafe(a) && a != "" && a[0] != '-' && a[|a| - 1] != '-'
    ensures Normalize(name) == if |a| <= 64 then a else a[..64]
  {
    DashedIsSafe(a, false);
  }

  predicate EndsInDash(s: string) {
    s != "" && s[|s| - 1] == '-'
  }

  /** Normalizing a normalized name changes it exactly when cutting it to 64 characters left a dash
      at its end. */
  lemma {:induction false} NormalizeAgain(name: string)
    ensures var slug := Normalize(name);
      && (Normalize(slug) == slug <==> !EndsInDash(slug))
      && (Normalize(slug) == "" <==> slug == "")
  {
    var slug := Normalize(name);
    SlugShape(name);
    SafeIsPlain(slug);
    assert LDash(slug) == slug;
    RDashIsPrefix(slug);
    if slug != "" {
      KeepsFirst(slug);
    }
  }

  /** A string that does not start with a dash is not emptied by dropping dashes at its end. */
  lemma {:induction false} KeepsFirst(s: string)
    requires s != "" && s[0] != '-'
    ensures RDash(s) != ""
  {
    if s[|s| - 1] == '-' {
      KeepsFirst(s[..|s| - 1]);
    }
  }

  // ---- the store ----

  /** The project's skill files and, per skill and version number, its archive. */
  datatype Shelf = Shelf(current: map<string, string>, archive: map<(string, int), string>)

  const EMPTY := Shelf(map[], map[])

  function Current(sh: Shelf, slug: string): Meta
    requires slug in sh.current
  {
    Parsed(sh.current[slug], slug)
  }

  /** Copies the current file to the archive under its own version number. */
  function Archived(sh: Shelf, slug: string): Shelf
    requires slug in sh.current
  {
    sh.(archive := sh.archive[(slug, Current(sh, slug).version) := sh.current[slug]])
  }

  function NextMeta(sh: Shelf, slug: string, body: string, description: Option<string>,
                    origin: string, now: string): Meta {
    if slug in sh.current then
      var prev := Current(sh, slug);
      Meta(slug, Otherwise(description, prev.description), prev.version + 1,
           if prev.created == "" then now else prev.created, now, origin, body)
    else Meta(slug, Otherwise(description, slug), 1, now, now, origin, body)
  }

  function Saved(sh: Shelf, name: string, content: string, description: Option<string>,
                 origin: string, now: string): (Shelf, Result<Meta>) {
    var slug, body := Normalize(name), Strip(content);
    if slug == "" then (sh, Err(InvalidName))
    else if body == "" then (sh, Err(EmptyContent))
    else
      var meta := NextMeta(sh, slug, body, description, origin, now);
      var kept := if slug in sh.current then Archived(sh, slug) else sh;
      (kept.(current := kept.current[slug := Render(meta)]), Ok(meta))
  }

  function Deleted(sh: Shelf, name: string): (Shelf, bool) {
    var slug := Normalize(name);
    if slug !in sh.current then (sh, false)
    else
      var kept := Archived(sh, slug);
      (kept.(current := kept.current - {slug}), true)
  }

  function ArchiveStem(version: int): string {
    "v" + IntText(version)
  }

  function RolledBack(sh: Shelf, name: string, version: int, now: string): (Shelf, Result<Meta>) {
    var slug := Normalize(name);
    if (slug, version) !in sh.archive then (sh, Err(NoArchive))
    else
      var was := ArchivedAt(sh, slug, version);
      Saved(sh, slug, was.body, Some(was.description), "rollback", now)
  }

  class SkillLoader {
    var current: map<string, string>
    var archive: map<(string, int), string>

    function Files(): Shelf
      reads this
    {
      Shelf(current, archive)
    }

    constructor ()
      ensures Files() == EMPTY
    {
      current, archive := map[], map[];
    }

    method ArchiveCurrent(slug: string) returns (prev: Meta)
      requires slug in current
      modifies this`archive
      ensures Files() == Archived(old(Files()), slug) && prev == Current(old(Files()), slug)
    {
      prev := ParseSkill(current[slug], slug);
      archive := archive[(slug, prev.version) := current[slug]];
    }

    method Save(name: string, content: string, description: Option<string>, origin: string,
                now: string)
      returns (r: Result<Meta>)
      modifies this
      ensures (Files(), r) == Saved(old(Files()), name, content, description, origin, now)
    {
      var slug := Normalize(name);
      if slug == "" {
        return Err(InvalidName);
      }
      var body := Strip(content);
      if body == "" {
        return Err(EmptyContent);
      }
      var version, created, desc := 1, now, Otherwise(description, slug);
      if slug in current {
        var prev := ArchiveCurrent(slug);
        version := prev.version + 1;
        created := if prev.created == "" then now else prev.created;
        desc := Otherwise(description, prev.description);
      }
      var meta := Meta(slug, desc, version, created, now, origin, body);
      current := current[slug := Render(meta)];
      r := Ok(meta);
    }

    method Delete(name: string) returns (removed: bool)
      modifies this
      ensures (Files(), removed) == Deleted(old(Files()), name)
    {
      var slug := Normalize(name);
      if slug !in current {
        return false;
      }
      var _ := ArchiveCurrent(slug);
      current := current - {slug};
      removed := true;
    }

    method Rollback(name: string, version: int, now: string) returns (r: Result<Meta>)
      modifies this
      ensures (Files(), r) == RolledBack(old(Files()), name, version, now)
    {
      var slug := Normalize(name);
      if (slug, version) !in archive {
        return Err(NoArchive);
      }
      var was := ReadArchive(slug, version);
      r := Save(slug, was.body, Some(was.description), "rollback", now);
    }

    /** The archived version numbers in ascending order. */
    method Versions(slug: string) returns (versions: seq<int>)
      ensures Ascending(versions)
      ensures forall v :: v in versions <==> (slug, v) in archive
      ensures forall i :: 0 <= i < |versions| ==> (slug, versions[i]) in archive
    {
      versions := Numbers((set k | k in archive && k.0 == slug), slug);
    }

    method ReadArchive(slug: string, version: int) returns (m: Meta)
      requires (slug, version) in archive
      ensures m == ArchivedAt(Files(), slug, version)
    {
      m := ParseSkill(archive[(slug, version)], ArchiveStem(version));
    }

    /** The archived versions in order of their numbers, then the current one. */
    method History(name: string) returns (out: seq<Meta>, versions: seq<int>)
      ensures Ascending(versions)
      ensures forall v :: v in versions <==> (Normalize(name), v) in archive
      ensures IsHistory(Files(), Normalize(name), versions, out)
    {
      var slug := Normalize(name);
      versions := Versions(slug);
      out := ReadAll(FilesOf(Files(), slug, versions));
      if slug in current {
        var meta := ParseSkill(current[slug], slug);
        out := out + [meta];
      }
    }
  }

  function Each<A, B>(f: A -> B, xs: seq<A>): seq<B> {
    if xs == [] then [] else [f(xs[0])] + Each(f, xs[1..])
  }

  lemma {:induction false} EachAt<A, B>(f: A -> B, xs: seq<A>, i: nat)
    ensures |Each(f, xs)| == |xs| && (i < |xs| ==> Each(f, xs)[i] == f(xs[i]))
  {
    if xs != [] {
      EachAt(f, xs[1..], if i == 0 then 0 else i - 1);
    }
  }

  lemma {:induction false} EachNext<A, B>(f: A -> B, xs: seq<A>, i: nat)
    requires i < |xs|
    ensures Each(f, xs[i..]) == [f(xs[i])] + Each(f, xs[i + 1..])
  {
    assert xs[i..][1..] == xs[i + 1..];
  }

  method ReadAll(files: seq<(string, string)>) returns (out: seq<Meta>)
    ensures out == Each(ReadFile, files)
  {
    out := [];
    ghost var all := Each(ReadFile, files);
    for i := 0 to |files|
      invariant all == out + Each(ReadFile, files[i..])
    {
      EachNext(ReadFile, files, i);
      var meta := ParseSkill(files[i].0, files[i].1);
      out := out + [meta];
    }
  }

  function ReadFile(file: (string, string)): Meta {
    Parsed(file.0, file.1)
  }

  /** The archive files of these versions: each text with the stem of its name. */
  function FilesOf(sh: Shelf, slug: string, versions: seq<int>): seq<(string, string)>
    requires forall i :: 0 <= i < |versions| ==> (slug, versions[i]) in sh.archive
  {
    seq(|versions|, i requires 0 <= i < |versions| =>
      (sh.archive[(slug, versions[i])], ArchiveStem(versions[i])))
  }

  function ArchivedAt(sh: Shelf, slug: string, v: int): Meta
    requires (slug, v) in sh.archive
  {
    Parsed(sh.archive[(slug, v)], ArchiveStem(v))
  }

  ghost predicate Ascending(s: seq<int>) {
    forall i, j :: 0 <= i < j < |s| ==> s[i] < s[j]
  }

  /** The skills read, oldest archived version first, the current one last. */
  ghost predicate IsHistory(sh: Shelf, slug: string, versions: seq<int>, out: seq<Meta>) {
    && (forall i :: 0 <= i < |versions| ==> (slug, versions[i]) in sh.archive)
    && out == Each(ReadFile, FilesOf(sh, slug, versions)) +
              (if slug in sh.current then [Current(sh, slug)] else [])
  }

  /** The key with the least number. */
  method Least(s: set<(string, int)>) returns (m: (string, int))
    requires s != {}
    ensures m in s && forall x :: x in s ==> m.1 <= x.1
  {
    m :| m in s;
    var left := s - {m};
    while left != {}
      invariant m in s && left <= s
      invariant forall x :: x in s && x !in left ==> m.1 <= x.1
      decreases left
    {
      var x :| x in left;
      if x.1 < m.1 {
        m := x;
      }
      left := left - {x};
    }
  }

  method Numbers(keys: set<(string, int)>, slug: string) returns (r: seq<int>)
    requires forall k :: k in keys ==> k.0 == slug
    ensures Ascending(r) && forall v :: v in r <==> (slug, v) in keys
    ensures forall i :: 0 <= i < |r| ==> (slug, r[i]) in keys
  {
    var left := keys;
    r := [];
    while left != {}
      invariant left <= keys && Ascending(r)
      invariant forall v :: v in r <==> (slug, v) in keys && (slug, v) !in left
      invariant forall i :: 0 <= i < |r| ==> (slug, r[i]) in keys
      invariant forall i :: 0 <= i < |r| ==> forall k :: k in left ==> r[i] < k.1
      decreases left
    {
      var k := Least(left);
      assert k == (slug, k.1);
      r, left := r + [k.1], left - {k};
    }
  }
}
