/** Paths as the server and the page write them: one string, "/" between segments.

    A path is "/" or every segment preceded by a slash. The file tree is keyed by such
    strings, so its code tests prefixes of strings where it means prefixes of segment
    lists; the lemmas below say when the two agree. Strings are sequences of Unicode
    scalar values. */
module Paths {

  // ------------------------------------------------------------ splitting and joining

  /** JavaScript's `s.split("/")`. */
  function Split(s: string): (parts: seq<string>)
    ensures |parts| >= 1
  {
    if s == "" then [""] else Prefixed(s[0], Split(s[1..]))
  }

  /** The parts of a string, once one more character stands in front of it. */
  function Prefixed(c: char, parts: seq<string>): seq<string>
    requires |parts| >= 1
  {
    if c == '/' then [""] + parts else [[c] + parts[0]] + parts[1..]
  }

  function NonEmpty(parts: seq<string>): (kept: seq<string>)
    ensures forall part :: part in kept <==> part in parts && part != ""
  {
    if parts == [] then []
    else (if parts[0] == "" then [] else [parts[0]]) + NonEmpty(parts[1..])
  }

  /** The page's `pathSegments`, and the segments `parsePath` collects. */
  function Segments(s: string): seq<string> {
    NonEmpty(Split(s))
  }

  /** Every segment preceded by a slash. */
  function Render(segs: seq<string>): string {
    if segs == [] then "" else Render(segs[..|segs| - 1]) + "/" + segs[|segs| - 1]
  }

  /** `"/" + segs.join("/")`. */
  function Absolute(segs: seq<string>): string {
    if segs == [] then "/" else Render(segs)
  }

  /** A name that can stand between two slashes of a stored path. */
  predicate IsSegment(s: string) {
    s != "" && s != ".." && '/' !in s && '\\' !in s
  }

  predicate AreSegments(segs: seq<string>) {
    forall s :: s in segs ==> IsSegment(s)
  }

  /** A canonical path other than the root: what may be a key of the file tree. */
  predicate IsKey(k: string) {
    var segs := Segments(k);
    segs != [] && AreSegments(segs) && Render(segs) == k
  }

  predicate IsCanonical(p: string) {
    p == "/" || IsKey(p)
  }

  lemma {:induction false} AppendAssociates<T>(a: seq<T>, b: seq<T>, c: seq<T>)
    ensures (a + b) + c == a + (b + c)
  {
  }

  lemma {:induction false} NonEmptyConcat(a: seq<string>, b: seq<string>)
    ensures NonEmpty(a + b) == NonEmpty(a) + NonEmpty(b)
  {
    if a == [] {
      assert a + b == b;
    } else {
      NonEmptyFirst(a);
      NonEmptyFirst(a + b);
      hide NonEmpty;
      assert (a + b)[1..] == a[1..] + b;
      NonEmptyConcat(a[1..], b);
      AppendAssociates(if a[0] == "" then [] else [a[0]], NonEmpty(a[1..]), NonEmpty(b));
    }
  }

  lemma {:induction false} NonEmptyFirst(a: seq<string>)
    requires a != []
    ensures NonEmpty(a) == (if a[0] == "" then [] else [a[0]]) + NonEmpty(a[1..])
  {
  }

  lemma PrefixedConcat(c: char, left: seq<string>, right: seq<string>)
    requires |left| >= 1
    ensures Prefixed(c, left + right) == Prefixed(c, left) + right
  {
  }

  lemma {:induction false} SplitAtSlash(a: string, b: string)
    ensures Split(a + "/" + b) == Split(a) + Split(b)
  {
    var s := a + "/" + b;
    if a == "" {
      assert s[1..] == b;
    } else {
      hide Prefixed;
      SplitAtSlash(a[1..], b);
      assert s[0] == a[0] && s[1..] == a[1..] + "/" + b;
      PrefixedConcat(a[0], Split(a[1..]), Split(b));
    }
  }

  lemma {:induction false} SplitWithoutSlash(s: string)
    requires '/' !in s
    ensures Split(s) == [s]
  {
    if s != "" {
      SplitWithoutSlash(s[1..]);
      assert [s[0]] + s[1..] == s;
    }
  }

  /** Concatenating two paths with a slash concatenates their segments. */
  lemma {:induction false} SegmentsAtSlash(a: string, b: string)
    ensures Segments(a + "/" + b) == Segments(a) + Segments(b)
  {
    SplitAtSlash(a, b);
    NonEmptyConcat(Split(a), Split(b));
  }

  lemma {:induction false} SegmentsOfName(s: string)
    requires IsSegment(s)
    ensures Segments(s) == [s]
  {
    SplitWithoutSlash(s);
    assert NonEmpty([s]) == [s] + NonEmpty([s][1..]);
  }

  lemma {:induction false} RenderLast(segs: seq<string>)
    requires segs != []
    ensures Render(segs) == Render(segs[..|segs| - 1]) + ("/" + segs[|segs| - 1])
  {
    AppendAssociates(Render(segs[..|segs| - 1]), "/", segs[|segs| - 1]);
  }

  lemma {:induction false} RenderConcat(a: seq<string>, b: seq<string>)
    ensures Render(a + b) == Render(a) + Render(b)
  {
    if b == [] {
      assert a + b == a;
    } else {
      var n := |b| - 1;
      RenderLast(b);
      RenderLast(a + b);
      hide Render;
      assert (a + b)[..|a + b| - 1] == a + b[..n];
      RenderConcat(a, b[..n]);
      AppendAssociates(Render(a), Render(b[..n]), "/" + b[n]);
    }
  }

  lemma {:induction false} RenderStartsWithSlash(segs: seq<string>)
    requires segs != []
    ensures Render(segs) != "" && Render(segs)[0] == '/'
  {
    if |segs| > 1 {
      RenderStartsWithSlash(segs[..|segs| - 1]);
    }
  }

  /** Reading back a rendered path gives the segments it was made of. */
  lemma {:induction false} SegmentsOfRender(segs: seq<string>)
    requires AreSegments(segs)
    ensures Segments(Render(segs)) == segs
  {
    if segs != [] {
      var n := |segs| - 1;
      SegmentsOfRender(segs[..n]);
      SegmentsAtSlash(Render(segs[..n]), segs[n]);
      SegmentsOfName(segs[n]);
      assert segs[..n] + [segs[n]] == segs;
    }
  }

  lemma {:induction false} RenderIsKey(segs: seq<string>)
    requires segs != [] && AreSegments(segs)
    ensures IsKey(Render(segs)) && Segments(Render(segs)) == segs
    ensures Render(segs) != "/"
  {
    SegmentsOfRender(segs);
    assert Split("/") == [""] + Split("");
    assert Segments("/") == [];
  }

  lemma {:induction false} AbsoluteIsCanonical(segs: seq<string>)
    requires AreSegments(segs)
    ensures IsCanonical(Absolute(segs)) && Segments(Absolute(segs)) == segs
  {
    if segs == [] {
      assert Split("/") == [""] + Split("");
    } else {
      RenderIsKey(segs);
    }
  }

  lemma {:induction false} CanonicalIsAbsolute(p: string)
    requires IsCanonical(p)
    ensures AreSegments(Segments(p)) && Absolute(Segments(p)) == p
    ensures (Segments(p) == []) <==> p == "/"
  {
    if p == "/" {
      AbsoluteIsCanonical([]);
    } else {
      RenderIsKey(Segments(p));
    }
  }

  lemma {:induction false} RootIsNotAKey(k: string)
    requires IsKey(k)
    ensures k != "/" && k != "" && k[0] == '/'
  {
    RenderIsKey(Segments(k));
    RenderStartsWithSlash(Segments(k));
  }

  // --------------------------------------------------------------- reading a raw path

  /** What `parsePath` answers: null, the string "reserved", or a path. */
  datatype Parsed = Invalid | Reserved | Ok(path: string)

  function Slashed(raw: string): string {
    seq(|raw|, i requires 0 <= i < |raw| => if raw[i] == '\\' then '/' else raw[i])
  }

  /** ASCII lower case. No other character lower-cases into ".vaultbox". */
  function LowerCase(s: string): string {
    seq(|s|, i requires 0 <= i < |s| => if 'A' <= s[i] <= 'Z' then s[i] - 'A' + 'a' else s[i])
  }

  predicate IsHiddenName(name: string) {
    LowerCase(name) == ".vaultbox"
  }

  function ParsePath(raw: string): Parsed {
    var segs := Segments(Slashed(raw));
    if ".." in segs then Invalid
    else if segs != [] && IsHiddenName(segs[0]) then Reserved
    else Ok(Absolute(segs))
  }

  /** The loop of `parsePath`: one part at a time, stopping at the first "..". */
  method ParsePathLoop(raw: string) returns (parsed: Parsed)
    ensures parsed == ParsePath(raw)
  {
    var parts := Split(Slashed(raw));
    var segs: seq<string> := [];
    for i := 0 to |parts|
      invariant segs == NonEmpty(parts[..i])
      invariant ".." !in segs
    {
      assert parts[..i + 1] == parts[..i] + [parts[i]];
      NonEmptyConcat(parts[..i], [parts[i]]);
      assert NonEmpty([parts[i]]) == if parts[i] == "" then [] else [parts[i]] by {
        assert [parts[i]][1..] == [];
      }
      if parts[i] == "" {
        continue;
      }
      if parts[i] == ".." {
        assert parts[i] in Segments(Slashed(raw));
        return Invalid;
      }
      segs := segs + [parts[i]];
    }
    assert parts[..|parts|] == parts;
    if segs != [] && IsHiddenName(segs[0]) {
      return Reserved;
    }
    return Ok(Absolute(segs));
  }

  lemma {:induction false} SplitKeepsCharacters(s: string)
    ensures forall part :: part in Split(s) ==> '/' !in part && forall c :: c in part ==> c in s
  {
    if s != "" {
      SplitKeepsCharacters(s[1..]);
      var rest := Split(s[1..]);
      forall part | part in Split(s)
        ensures '/' !in part && forall c :: c in part ==> c in s
      {
        if s[0] == '/' {
          assert part == "" || part in rest;
        } else {
          assert part == [s[0]] + rest[0] || part in rest[1..];
          assert rest[0] in rest;
        }
      }
    }
  }

  lemma {:induction false} SlashedIdentity(s: string)
    requires '\\' !in s
    ensures Slashed(s) == s
  {
  }

  lemma {:induction false} RenderHasNoBackslash(segs: seq<string>)
    requires AreSegments(segs)
    ensures '\\' !in Render(segs)
  {
    if segs != [] {
      var n := |segs| - 1;
      RenderHasNoBackslash(segs[..n]);
      assert IsSegment(segs[n]);
    }
  }

  /** Whatever is sent, an accepted path is canonical, outside the hidden folder, and
      parsing it again changes nothing. */
  lemma {:induction false} ParsedIsCanonical(raw: string)
    ensures var parsed := ParsePath(raw);
      parsed.Ok? ==>
        && IsCanonical(parsed.path)
        && (parsed.path != "/" ==> !IsHiddenName(Segments(parsed.path)[0]))
        && ParsePath(parsed.path) == parsed
  {
    var segs := Segments(Slashed(raw));
    if ParsePath(raw).Ok? {
      SplitKeepsCharacters(Slashed(raw));
      assert AreSegments(segs) by {
        forall s | s in segs
          ensures IsSegment(s)
        {
          assert '\\' !in Slashed(raw);
        }
      }
      AbsoluteIsCanonical(segs);
      RenderHasNoBackslash(segs);
      SlashedIdentity(Absolute(segs));
    }
  }

  /** The accepted paths are exactly the canonical ones outside the hidden folder. */
  lemma {:induction false} CanonicalParses(p: string)
    requires IsCanonical(p)
    ensures ParsePath(p) == if p != "/" && IsHiddenName(Segments(p)[0]) then Reserved else Ok(p)
  {
    CanonicalIsAbsolute(p);
    RenderHasNoBackslash(Segments(p));
    SlashedIdentity(p);
  }

  // -------------------------------------------------------------------- parent and name

  function LastSlash(p: string): (i: int)
    ensures -1 <= i < |p|
    ensures i >= 0 ==> p[i] == '/'
    ensures forall j :: i < j < |p| ==> p[j] != '/'
  {
    if p == "" then -1
    else if p[|p| - 1] == '/' then |p| - 1
    else LastSlash(p[..|p| - 1])
  }

  /** The server's `parentOf`, which is also the page's `parentPath`. */
  function ParentOf(p: string): string {
    if LastSlash(p) <= 0 then "/" else p[..LastSlash(p)]
  }

  function NameOf(p: string): string {
    p[LastSlash(p) + 1..]
  }

  /** The page's `joinPath`. The server writes the same as
      `(dir === "/" ? "" : dir) + "/" + name`. */
  function JoinPath(dir: string, name: string): string {
    if dir == "/" then "/" + name else dir + "/" + name
  }

  lemma {:induction false} LastSlashOfJoin(a: string, b: string)
    requires '/' !in b
    ensures LastSlash(a + "/" + b) == |a|
  {
    var s := a + "/" + b;
    var n := |s| - 1;
    if b != "" {
      assert s[n] == b[|b| - 1];
      assert s[..n] == a + "/" + b[..|b| - 1];
      LastSlashOfJoin(a, b[..|b| - 1]);
    }
  }

  lemma {:induction false} JoinIsRender(dir: string, name: string)
    requires IsCanonical(dir) && IsSegment(name)
    ensures AreSegments(Segments(dir) + [name])
    ensures JoinPath(dir, name) == Render(Segments(dir) + [name])
  {
    CanonicalIsAbsolute(dir);
    RenderConcat(Segments(dir), [name]);
    assert [name][..0] == [];
    assert Render([name]) == Render([]) + "/" + name;
    hide Segments, IsKey;
  }

  /** Splitting off the last name undoes joining one on. */
  lemma {:induction false} ParentAndNameOfJoin(dir: string, name: string)
    requires IsCanonical(dir) && IsSegment(name)
    ensures IsKey(JoinPath(dir, name))
    ensures Segments(JoinPath(dir, name)) == Segments(dir) + [name]
    ensures ParentOf(JoinPath(dir, name)) == dir
    ensures NameOf(JoinPath(dir, name)) == name
  {
    JoinIsRender(dir, name);
    RenderIsKey(Segments(dir) + [name]);
    var stem := if dir == "/" then "" else dir;
    LastSlashOfJoin(stem, name);
    var joined := stem + "/" + name;
    assert JoinPath(dir, name) == joined;
    assert joined[|stem| + 1..] == name;
    if dir != "/" {
      RootIsNotAKey(dir);
      assert joined[..|stem|] == stem;
    }
  }

  /** Joining undoes splitting off the last name. */
  lemma {:induction false} JoinOfParentAndName(k: string)
    requires IsKey(k)
    ensures IsCanonical(ParentOf(k)) && IsSegment(NameOf(k))
    ensures JoinPath(ParentOf(k), NameOf(k)) == k
    ensures Segments(k) == Segments(ParentOf(k)) + [NameOf(k)]
  {
    var segs := Segments(k);
    var n := |segs| - 1;
    var dir, name := Absolute(segs[..n]), segs[n];
    AbsoluteIsCanonical(segs[..n]);
    JoinIsRender(dir, name);
    assert segs[..n] + [name] == segs;
    ParentAndNameOfJoin(dir, name);
  }

  lemma {:induction false} TopKey(name: string)
    requires IsSegment(name)
    ensures IsKey("/" + name) && Segments("/" + name) == [name]
    ensures ParentOf("/" + name) == "/" && NameOf("/" + name) == name
  {
    AbsoluteIsCanonical([]);
    ParentAndNameOfJoin("/", name);
  }

  lemma {:induction false} KeyBelow(dir: string, name: string)
    requires IsKey(dir) && IsSegment(name)
    ensures IsKey(dir + "/" + name) && Segments(dir + "/" + name) == Segments(dir) + [name]
    ensures ParentOf(dir + "/" + name) == dir && NameOf(dir + "/" + name) == name
  {
    RootIsNotAKey(dir);
    ParentAndNameOfJoin(dir, name);
  }

  // ------------------------------------------------------------------ being underneath

  /** The test of every re-keying loop: `k === p || k.startsWith(p + "/")`. */
  predicate Under(p: string, k: string) {
    k == p || p + "/" <= k
  }

  /** On stored paths the string test is exactly the segment-prefix relation. */
  lemma {:induction false} UnderIsSegmentPrefix(p: string, k: string)
    requires IsKey(p) && IsKey(k)
    ensures Under(p, k) <==> Segments(p) <= Segments(k)
    ensures Under(p, k) ==> k == p + Render(Segments(k)[|Segments(p)|..])
  {
    var a, b := Segments(p), Segments(k);
    if Under(p, k) && k != p {
      var rest := k[|p| + 1..];
      assert k == p + "/" + rest;
      SegmentsAtSlash(p, rest);
      assert Segments(k) == a + Segments(rest);
      assert a <= b;
    }
    if a <= b {
      var c := b[|a|..];
      assert b == a + c;
      RenderConcat(a, c);
      if c != [] {
        RenderStartsWithSlash(c);
        var r := Render(c);
        assert k == p + r;
        assert r == "/" + r[1..];
        assert (p + "/") + r[1..] == k;
      }
    }
  }

  lemma {:induction false} UnderTransitive(a: string, b: string, c: string)
    requires Under(a, b) && Under(b, c)
    ensures Under(a, c)
  {
  }

  /** Two places above the same path lie one above the other. */
  lemma {:induction false} UnderLinear(a: string, b: string, c: string)
    requires Under(a, c) && Under(b, c)
    ensures Under(a, b) || Under(b, a)
  {
    if |a| <= |b| {
      assert a == c[..|a|] && b == c[..|b|];
      if |a| < |b| {
        assert (a + "/") == c[..|a| + 1];
        assert (a + "/") <= b;
      }
    } else {
      assert a == c[..|a|] && b == c[..|b|];
      assert (b + "/") == c[..|b| + 1];
      assert (b + "/") <= a;
    }
  }

  /** The `within` of a public link: a visitor's path placed below the shared folder. */
  function Within(base: string, raw: string): Parsed {
    var parsed := ParsePath(raw);
    if parsed.Ok? && parsed.path != "/" then Ok(base + parsed.path)
    else if parsed.Ok? then Ok(base)
    else parsed
  }

  /** No visitor's path leaves the link's own folder, and every path of that folder
      outside a hidden name can be written. */
  lemma {:induction false} WithinStaysInside(base: string, raw: string)
    requires IsKey(base)
    ensures Within(base, raw).Invalid? <==> ParsePath(raw).Invalid?
    ensures Within(base, raw).Reserved? <==> ParsePath(raw).Reserved?
    ensures Within(base, raw).Ok? ==>
      && IsKey(Within(base, raw).path)
      && Under(base, Within(base, raw).path)
  {
    var parsed := ParsePath(raw);
    if parsed.Ok? && parsed.path != "/" {
      ParsedIsCanonical(raw);
      var a, b := Segments(base), Segments(parsed.path);
      RenderConcat(a, b);
      assert AreSegments(a + b);
      RenderIsKey(a + b);
      UnderIsSegmentPrefix(base, base + parsed.path);
    }
  }

  lemma {:induction false} WithinReachesAll(base: string, rest: seq<string>)
    requires IsKey(base) && AreSegments(rest)
    requires rest != [] ==> !IsHiddenName(rest[0])
    ensures Within(base, Absolute(rest)) == Ok(Render(Segments(base) + rest))
  {
    AbsoluteIsCanonical(rest);
    CanonicalParses(Absolute(rest));
    RenderConcat(Segments(base), rest);
    CanonicalIsAbsolute(Absolute(rest));
    assert Segments(base) + [] == Segments(base);
  }
}
