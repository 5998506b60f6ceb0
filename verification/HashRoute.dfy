/** The page keeps its place in the URL fragment. `encodeURIComponent` and
    `decodeURIComponent` are percent-encoding (section 2.1 of RFC 3986) of UTF-8 (section 3
    of RFC 3629). */
module HashRoute {
  import opened Options
  import opened Paths
  import opened FileTree

  // -------------------------------------------------------------------------------- UTF-8

  /** Six bits to a continuation octet, the rest in the first. */
  function Utf8(c: char): (octets: seq<byte>)
    ensures 1 <= |octets| <= 4
  {
    var n := c as int;
    var high := n / 0x40;
    var higher := high / 0x40;
    if n < 0x80 then [n as byte]
    else if n < 0x800 then [(0xC0 + high) as byte, Tail(n)]
    else if n < 0x1_0000 then [(0xE0 + higher) as byte, Tail(high), Tail(n)]
    else [(0xF0 + higher / 0x40) as byte, Tail(higher), Tail(high), Tail(n)]
  }

  function Tail(n: nat): byte {
    (0x80 + n % 0x40) as byte
  }

  /** How many octets a character with this first octet has; 0 if none starts so. */
  function Utf8Length(first: byte): nat {
    if first < 0x80 then 1
    else if first < 0xC0 then 0
    else if first < 0xE0 then 2
    else if first < 0xF0 then 3
    else if first < 0xF8 then 4
    else 0
  }

  predicate IsContinuation(b: byte) {
    0x80 <= b < 0xC0
  }

  function Value(octets: seq<byte>): int
    requires 1 <= |octets| <= 4
  {
    var lead := octets[0] as int;
    match |octets|
    case 1 => lead
    case 2 => (lead - 0xC0) * 0x40 + (octets[1] as int - 0x80)
    case 3 => (lead - 0xE0) * 0x1000 + (octets[1] as int - 0x80) * 0x40 + (octets[2] as int - 0x80)
    case _ => (lead - 0xF0) * 0x4_0000 + (octets[1] as int - 0x80) * 0x1000
              + (octets[2] as int - 0x80) * 0x40 + (octets[3] as int - 0x80)
  }

  /** The least value that needs this many octets. */
  function LeastValue(length: nat): int {
    if length <= 1 then 0 else if length == 2 then 0x80 else if length == 3 then 0x800 else 0x1_0000
  }

  /** The one character these octets are, if they are exactly one: no overlong form, no
      surrogate, nothing beyond U+10FFFF. */
  function FromUtf8(octets: seq<byte>): Option<char>
    requires 1 <= |octets| <= 4
  {
    var v := Value(octets);
    if |octets| != Utf8Length(octets[0]) then None
    else if exists i :: 1 <= i < |octets| && !IsContinuation(octets[i]) then None
    else if v < LeastValue(|octets|) || 0xD800 <= v < 0xE000 || v < 0 || v >= 0x11_0000 then None
    else Some(v as char)
  }

  lemma {:induction false} TailValue(n: nat)
    ensures IsContinuation(Tail(n)) && n == n / 0x40 * 0x40 + (Tail(n) as int - 0x80)
  {
  }

  lemma {:induction false} Utf8Value(c: char)
    ensures Utf8Length(Utf8(c)[0]) == |Utf8(c)| && Value(Utf8(c)) == c as int
    ensures forall i :: 1 <= i < |Utf8(c)| ==> IsContinuation(Utf8(c)[i])
  {
    var n := c as int;
    TailValue(n);
    TailValue(n / 0x40);
    TailValue(n / 0x40 / 0x40);
    hide Tail, IsContinuation;
    if n < 0x80 {
    } else if n < 0x800 {
    } else if n < 0x1_0000 {
    } else {
    }
  }

  lemma {:induction false} Utf8RoundTrip(c: char)
    ensures Utf8Length(Utf8(c)[0]) == |Utf8(c)| && FromUtf8(Utf8(c)) == Some(c)
  {
    Utf8Value(c);
    hide Value, Tail, Utf8Length, IsContinuation;
  }

  // ---------------------------------------------------------------------- percent-encoding

  function HexDigit(n: nat): (c: char)
    requires n < 16
    ensures IsHexDigit(c) && HexValue(c) == n && c != '/' && c != '%'
  {
    if n < 10 then '0' + n as char else 'A' + (n - 10) as char
  }

  predicate IsHexDigit(c: char) {
    '0' <= c <= '9' || 'A' <= c <= 'F' || 'a' <= c <= 'f'
  }

  function HexValue(c: char): (n: nat)
    requires IsHexDigit(c)
    ensures n < 16
  {
    if '0' <= c <= '9' then (c - '0') as nat
    else if 'A' <= c <= 'F' then (c - 'A') as nat + 10
    else (c - 'a') as nat + 10
  }

  /** The characters `encodeURIComponent` leaves alone. */
  predicate IsPlain(c: char) {
    'A' <= c <= 'Z' || 'a' <= c <= 'z' || '0' <= c <= '9' || c in "-_.!~*'()"
  }

  function Percent(b: byte): string {
    ['%', HexDigit(b as nat / 16), HexDigit(b as nat % 16)]
  }

  function Percents(octets: seq<byte>): string {
    if octets == [] then "" else Percent(octets[0]) + Percents(octets[1..])
  }

  function EncodeChar(c: char): string {
    if IsPlain(c) then [c] else Percents(Utf8(c))
  }

  function Encode(s: string): string {
    if s == "" then "" else EncodeChar(s[0]) + Encode(s[1..])
  }

  /** The octet a "%XX" at the front stands for. */
  function Octet(s: string): Option<byte> {
    if |s| >= 3 && s[0] == '%' && IsHexDigit(s[1]) && IsHexDigit(s[2])
    then Some((HexValue(s[1]) * 16 + HexValue(s[2])) as byte)
    else None
  }

  /** The next `n` octets, each written as "%XX". */
  function Octets(s: string, n: nat): (r: Option<seq<byte>>)
    ensures r.Some? ==> |r.value| == n && 3 * n <= |s|
  {
    if n == 0 then Some([])
    else if Octet(s).None? then None
    else
      match Octets(s[3..], n - 1)
      case None => None
      case Some(rest) => Some([Octet(s).value] + rest)
  }

  /** Nothing is what a thrown `URIError` leaves. */
  function Decode(s: string): Option<string>
    decreases |s|
  {
    if s == "" then Some("")
    else if s[0] != '%' then
      (match Decode(s[1..])
       case None => None
       case Some(rest) => Some([s[0]] + rest))
    else if Octet(s).None? || Utf8Length(Octet(s).value) == 0 then None
    else
      var n := Utf8Length(Octet(s).value);
      match Octets(s, n)
      case None => None
      case Some(octets) =>
        if FromUtf8(octets).None? then None
        else
          match Decode(s[3 * n..])
          case None => None
          case Some(rest) => Some([FromUtf8(octets).value] + rest)
  }

  lemma {:induction false} OctetOfPercent(b: byte, rest: string)
    ensures Octet(Percent(b) + rest) == Some(b) && (Percent(b) + rest)[3..] == rest
  {
  }

  lemma {:induction false} OctetsOfPercents(octets: seq<byte>, rest: string)
    ensures Octets(Percents(octets) + rest, |octets|) == Some(octets)
    ensures |Percents(octets)| == 3 * |octets| && (Percents(octets) + rest)[3 * |octets|..] == rest
  {
    if octets == [] {
      assert Percents(octets) + rest == rest;
    } else {
      var tail := Percents(octets[1..]) + rest;
      assert Percents(octets) + rest == Percent(octets[0]) + tail;
      OctetOfPercent(octets[0], tail);
      OctetsOfPercents(octets[1..], rest);
      assert [octets[0]] + octets[1..] == octets;
    }
  }

  lemma {:induction false} DecodeFirst(c: char, rest: string)
    ensures Decode(EncodeChar(c) + rest) ==
      if Decode(rest).None? then None else Some([c] + Decode(rest).value)
  {
    var s := EncodeChar(c) + rest;
    if IsPlain(c) {
      assert s[0] == c && s[1..] == rest;
    } else {
      Utf8RoundTrip(c);
      OctetsOfPercents(Utf8(c), rest);
      FirstOctet(Utf8(c), rest);
      DecodeOctets(s, Utf8(c), c, rest);
    }
  }

  lemma {:induction false} FirstOctet(octets: seq<byte>, rest: string)
    requires octets != []
    ensures var s := Percents(octets) + rest;
      s != "" && s[0] == '%' && Octet(s) == Some(octets[0])
  {
  }

  lemma {:induction false} DecodeOctets(s: string, octets: seq<byte>, c: char, rest: string)
    requires s != "" && s[0] == '%' && 1 <= |octets| <= 4 && Octet(s) == Some(octets[0])
    requires Utf8Length(octets[0]) == |octets| && Octets(s, |octets|) == Some(octets)
    requires FromUtf8(octets) == Some(c) && s[3 * |octets|..] == rest
    ensures Decode(s) == if Decode(rest).None? then None else Some([c] + Decode(rest).value)
  {
    hide Octet, Octets, FromUtf8, Utf8Length;
  }

  /** Decoding undoes encoding, for every string. */
  lemma {:induction false} DecodeEncode(s: string)
    ensures Decode(Encode(s)) == Some(s)
  {
    if s != "" {
      DecodeEncode(s[1..]);
      DecodeFirst(s[0], Encode(s[1..]));
      assert [s[0]] + s[1..] == s;
    }
  }

  predicate IsEncoded(c: char) {
    IsPlain(c) || c == '%'
  }

  lemma {:induction false} PercentsAreEncoded(octets: seq<byte>)
    ensures forall c :: c in Percents(octets) ==> IsEncoded(c)
  {
    if octets != [] {
      PercentsAreEncoded(octets[1..]);
    }
  }

  /** An encoded string holds no slash and nothing else that separates parts of a URL. */
  lemma {:induction false} EncodedIsPlain(s: string)
    ensures forall c :: c in Encode(s) ==> IsEncoded(c)
    ensures s != "" ==> Encode(s) != ""
  {
    if s != "" {
      EncodedIsPlain(s[1..]);
      PercentsAreEncoded(Utf8(s[0]));
      assert EncodeChar(s[0]) != "";
    }
  }

  // ------------------------------------------------------------------------------ the hash

  datatype Target = Target(rootId: string, path: string)

  function EncodeAll(segs: seq<string>): (r: seq<string>)
    ensures |r| == |segs|
  {
    seq(|segs|, i requires 0 <= i < |segs| => Encode(segs[i]))
  }

  function BuildHash(t: Target): string {
    "#/" + Encode(t.rootId) + if t.path == "/" then "/" else Render(EncodeAll(Segments(t.path)))
  }

  function DecodeAll(segs: seq<string>): Option<seq<string>> {
    if segs == [] then Some([])
    else
      match (Decode(segs[0]), DecodeAll(segs[1..]))
      case (Some(first), Some(rest)) => Some([first] + rest)
      case _ => None
  }

  function FirstSlash(s: string): (i: nat)
    ensures i <= |s| && '/' !in s[..i] && (i < |s| ==> s[i] == '/')
  {
    if s == "" || s[0] == '/' then 0
    else
      var i := 1 + FirstSlash(s[1..]);
      assert s[..i] == [s[0]] + s[1..][..i - 1];
      i
  }

  function ParseHash(hash: string): Option<Target> {
    if !("#/" <= hash) then None
    else
      var rest := hash[2..];
      var cut := FirstSlash(rest);
      var rawPath := if cut == |rest| then "" else rest[cut + 1..];
      match (DecodeAll(Segments(rawPath)), Decode(rest[..cut]))
      case (Some(segs), Some(rootId)) => Some(Target(rootId, Absolute(segs)))
      case _ => None
  }

  lemma {:induction false} DecodeAllOfEncodeAll(segs: seq<string>)
    ensures DecodeAll(EncodeAll(segs)) == Some(segs)
  {
    if segs != [] {
      assert EncodeAll(segs)[1..] == EncodeAll(segs[1..]);
      DecodeEncode(segs[0]);
      DecodeAllOfEncodeAll(segs[1..]);
      assert [segs[0]] + segs[1..] == segs;
    }
  }

  lemma {:induction false} EncodedSegment(seg: string)
    requires IsSegment(seg)
    ensures IsSegment(Encode(seg))
  {
    EncodedIsPlain(seg);
    DecodeEncode(seg);
    DotsDecode();
    hide Encode, Decode;
    assert '/' !in Encode(seg) && '\\' !in Encode(seg);
  }

  lemma {:induction false} EncodedSegments(segs: seq<string>)
    requires AreSegments(segs)
    ensures AreSegments(EncodeAll(segs))
  {
    hide IsSegment, Encode;
    forall i | 0 <= i < |segs|
      ensures IsSegment(EncodeAll(segs)[i])
    {
      assert IsSegment(segs[i]);
      EncodedSegment(segs[i]);
    }
  }

  lemma {:induction false} DotsDecode()
    ensures Decode("..") == Some("..")
  {
    assert ".."[1..] == "." && "."[1..] == "";
    assert Decode("") == Some("");
    assert ['.'] + "" == "." && ['.'] + "." == "..";
    assert Decode(".") == Some(".");
  }

  lemma {:induction false} FirstSlashAt(a: string, b: string)
    requires '/' !in a
    ensures FirstSlash(a + "/" + b) == |a|
  {
    var s := a + "/" + b;
    if a != "" {
      assert s[0] == a[0] && s[1..] == a[1..] + "/" + b;
      FirstSlashAt(a[1..], b);
    }
  }

  lemma {:induction false} CutAtSlash(raw: string, rest: string)
    requires '/' !in raw
    ensures var hash := "#/" + raw + "/" + rest;
      && "#/" <= hash && FirstSlash(hash[2..]) == |raw| < |hash[2..]|
      && hash[2..][..|raw|] == raw && hash[2..][|raw| + 1..] == rest
  {
    FirstSlashAt(raw, rest);
    hide FirstSlash;
    var hash := "#/" + raw + "/" + rest;
    assert hash[2..] == raw + "/" + rest;
  }

  lemma {:induction false} ParseParts(rootId: string, rest: string)
    ensures ParseHash("#/" + Encode(rootId) + "/" + rest) ==
      if DecodeAll(Segments(rest)).None? then None
      else Some(Target(rootId, Absolute(DecodeAll(Segments(rest)).value)))
  {
    EncodedIsPlain(rootId);
    DecodeEncode(rootId);
    hide Encode, FirstSlash, Segments, Decode, DecodeAll, Absolute;
    CutAtSlash(Encode(rootId), rest);
  }

  lemma {:induction false} RenderedParts(segs: seq<string>) returns (rest: string)
    requires segs != [] && AreSegments(segs)
    ensures Render(segs) == "/" + rest && Segments(rest) == segs
  {
    SegmentsOfRender(segs);
    RenderStartsWithSlash(segs);
    hide Render;
    rest := Render(segs)[1..];
    assert Render(segs) == "" + "/" + rest;
    SegmentsAtSlash("", rest);
    assert Segments("") == [];
  }

  /** The page finds its way back to every place it can go to. */
  lemma {:induction false} HashRoundTrip(t: Target)
    requires IsCanonical(t.path)
    ensures ParseHash(BuildHash(t)) == Some(t)
  {
    hide *;
    CanonicalIsAbsolute(t.path);
    if t.path == "/" {
      RootHash(t.rootId);
    } else {
      FolderHash(t.rootId, Segments(t.path));
    }
  }

  lemma {:induction false} RootHash(rootId: string)
    ensures ParseHash(BuildHash(Target(rootId, "/"))) == Some(Target(rootId, "/"))
  {
    hide Encode, ParseHash;
    assert BuildHash(Target(rootId, "/")) == "#/" + Encode(rootId) + "/" + "";
    assert Segments("") == [];
    ParseParts(rootId, "");
  }

  lemma {:induction false} FolderHash(rootId: string, segs: seq<string>)
    requires segs != [] && AreSegments(segs)
    ensures ParseHash(BuildHash(Target(rootId, Absolute(segs)))) == Some(Target(rootId, Absolute(segs)))
  {
    RenderIsKey(segs);
    EncodedSegments(segs);
    DecodeAllOfEncodeAll(segs);
    hide Encode, ParseHash, Decode, DecodeAll, Segments, Render, AreSegments, IsKey;
    var rest := RenderedParts(EncodeAll(segs));
    assert BuildHash(Target(rootId, Render(segs))) == "#/" + Encode(rootId) + "/" + rest;
    ParseParts(rootId, rest);
  }

  /** Different places have different hashes, so when the page finds the hash it wants
      already there, it is at the place it wants. */
  lemma {:induction false} HashIsInjective(t: Target, u: Target)
    requires IsCanonical(t.path) && IsCanonical(u.path) && BuildHash(t) == BuildHash(u)
    ensures t == u
  {
    HashRoundTrip(t);
    HashRoundTrip(u);
  }
}
