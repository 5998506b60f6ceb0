/** What an escaped string stands for, and what the page makes of a fragment that it did not write
    itself. */
module HashReading {
  import opened Options
  import opened Paths
  import opened FileTree
  import opened HashRoute

  // -------------------------------------------------------------------------------- UTF-8

  /** The table of section 3 of RFC 3629: leading octet, continuation octets, and the bits they
      carry. */
  lemma {:induction false} Utf8Table(c: char)
    ensures var n, o := c as int, Utf8(c);
      && (n < 0x80 ==> |o| == 1 && o[0] as int == n)
      && (0x80 <= n < 0x800 ==>
            |o| == 2 && 0xC2 <= o[0] < 0xE0 && 0x80 <= o[1] < 0xC0
            && n == (o[0] as int - 0xC0) * 0x40 + (o[1] as int - 0x80))
      && (0x800 <= n < 0x1_0000 ==>
            |o| == 3 && 0xE0 <= o[0] < 0xF0 && 0x80 <= o[1] < 0xC0 && 0x80 <= o[2] < 0xC0
            && n == (o[0] as int - 0xE0) * 0x1000 + (o[1] as int - 0x80) * 0x40 + (o[2] as int - 0x80))
      && (0x1_0000 <= n ==>
            |o| == 4 && 0xF0 <= o[0] < 0xF5 && 0x80 <= o[1] < 0xC0 && 0x80 <= o[2] < 0xC0 && 0x80 <= o[3] < 0xC0
            && n == (o[0] as int - 0xF0) * 0x4_0000 + (o[1] as int - 0x80) * 0x1000
                    + (o[2] as int - 0x80) * 0x40 + (o[3] as int - 0x80))
  {
    Utf8Value(c);
    assert forall i :: 1 <= i < |Utf8(c)| ==> 0x80 <= Utf8(c)[i] < 0xC0;
    hide IsContinuation;
  }

  /** The octets of one character are read as that character, and no other octets are. */
  lemma {:induction false} FromUtf8Exactly(octets: seq<byte>, c: char)
    requires 1 <= |octets| <= 4
    ensures FromUtf8(octets) == Some(c) <==> octets == Utf8(c)
  {
    Utf8RoundTrip(c);
    if FromUtf8(octets) == Some(c) {
      Utf8Table(c);
      SameOctets(octets, Utf8(c), c);
    }
  }

  lemma {:induction false} SameOctets(a: seq<byte>, b: seq<byte>, c: char)
    requires 1 <= |a| <= 4 && 1 <= |b| <= 4 && FromUtf8(a) == Some(c) && FromUtf8(b) == Some(c)
    ensures a == b
  {
    ReadParts(a, c);
    ReadParts(b, c);
    hide FromUtf8, Value, Utf8Length, IsContinuation, LeastValue;
    assert |a| == |b|;
    if |a| >= 3 {
      SixBits(a[0] as int * 0x40 + a[1] as int, a[2] as int, b[0] as int * 0x40 + b[1] as int, b[2] as int);
    }
    if |a| == 4 {
      SixBits(a[0] as int * 0x1000 + a[1] as int * 0x40 + a[2] as int, a[3] as int,
              b[0] as int * 0x1000 + b[1] as int * 0x40 + b[2] as int, b[3] as int);
    }
  }

  lemma {:induction false} SixBits(high: int, low: int, high': int, low': int)
    requires 0x80 <= low < 0xC0 && 0x80 <= low' < 0xC0
    ensures high * 0x40 + low == high' * 0x40 + low' ==> high == high' && low == low'
  {
  }

  lemma {:induction false} ReadParts(o: seq<byte>, c: char)
    requires 1 <= |o| <= 4 && FromUtf8(o) == Some(c)
    ensures var n := c as int;
      && (forall i :: 1 <= i < |o| ==> 0x80 <= o[i] < 0xC0)
      && (|o| == 1 ==> n < 0x80 && o[0] as int == n)
      && (|o| == 2 ==> 0x80 <= n < 0x800 && n == (o[0] as int - 0xC0) * 0x40 + (o[1] as int - 0x80))
      && (|o| == 3 ==>
            0x800 <= n < 0x1_0000
            && n == (o[0] as int - 0xE0) * 0x1000 + (o[1] as int - 0x80) * 0x40 + (o[2] as int - 0x80))
      && (|o| == 4 ==>
            0x1_0000 <= n
            && n == (o[0] as int - 0xF0) * 0x4_0000 + (o[1] as int - 0x80) * 0x1000
                    + (o[2] as int - 0x80) * 0x40 + (o[3] as int - 0x80))
  {
    assert forall i :: 1 <= i < |o| ==> IsContinuation(o[i]);
  }

  // ------------------------------------------------------------------------------ escapes

  /** Hexadecimal digits are written as capitals and read in both cases. */
  lemma {:induction false} HexDigitsAre(n: nat, c: char)
    requires n < 16
    ensures HexDigit(n) == "0123456789ABCDEF"[n]
    ensures IsHexDigit(c) && HexValue(c) == n <==> c == "0123456789ABCDEF"[n] || c == "0123456789abcdef"[n]
  {
  }

  /** A percent sign and two digits, for the octet. */
  predicate IsEscape(s: string, b: byte) {
    |s| == 3 && s[0] == '%' && IsHexDigit(s[1]) && IsHexDigit(s[2])
    && HexValue(s[1]) * 16 + HexValue(s[2]) == b as int
  }

  /** The octets are escaped one after another. */
  ghost predicate Escapes(s: string, octets: seq<byte>) {
    if octets == [] then s == ""
    else |s| >= 3 && IsEscape(s[..3], octets[0]) && Escapes(s[3..], octets[1..])
  }

  /** One character, itself or escaped octet by octet. */
  ghost predicate SpellsChar(s: string, c: char) {
    (s == [c] && c != '%') || Escapes(s, Utf8(c))
  }

  /** The string is made up of spellings of the characters, in order. */
  ghost predicate Spells(s: string, t: string)
    decreases |t|
  {
    if t == "" then s == ""
    else exists k :: 1 <= k <= |s| && SpellsChar(s[..k], t[0]) && Spells(s[k..], t[1..])
  }

  lemma {:induction false} OctetIs(s: string, b: byte)
    ensures Octet(s) == Some(b) <==> |s| >= 3 && IsEscape(s[..3], b)
  {
    hide IsHexDigit, HexValue;
  }

  lemma {:induction false} OctetsExactly(s: string, octets: seq<byte>)
    ensures Octets(s, |octets|) == Some(octets) <==>
      3 * |octets| <= |s| && Escapes(s[..3 * |octets|], octets)
  {
    if octets != [] {
      assert octets == [octets[0]] + octets[1..];
      OctetIs(s, octets[0]);
      hide Octet, IsEscape;
      if |s| >= 3 {
        OctetsExactly(s[3..], octets[1..]);
        if 3 * |octets| <= |s| {
          assert s[..3 * |octets|][..3] == s[..3];
          assert s[..3 * |octets|][3..] == s[3..][..3 * (|octets| - 1)];
        }
      }
    }
  }

  lemma {:induction false} EscapesLength(s: string, octets: seq<byte>)
    requires Escapes(s, octets)
    ensures |s| == 3 * |octets| && (octets != [] ==> s != "" && s[0] == '%' && Octet(s) == Some(octets[0]))
  {
    if octets != [] {
      OctetIs(s, octets[0]);
      EscapesLength(s[3..], octets[1..]);
    }
  }

  // ----------------------------------------------------------------------------- decoding

  /** How `Decode` starts on a string that starts with a spelling. */
  lemma {:induction false} DecodeSpelling(p: string, c: char, rest: string)
    requires SpellsChar(p, c)
    ensures p != ""
    ensures Decode(p + rest) == if Decode(rest).None? then None else Some([c] + Decode(rest).value)
  {
    var s := p + rest;
    if p == [c] && c != '%' {
      assert s[0] == c && s[1..] == rest;
    } else {
      EscapesLength(p, Utf8(c));
      OctetIs(p, Utf8(c)[0]);
      OctetIs(s, Utf8(c)[0]);
      assert s[..3] == p[..3];
      assert s[..3 * |Utf8(c)|] == p && s[3 * |Utf8(c)|..] == rest;
      OctetsExactly(s, Utf8(c));
      Utf8RoundTrip(c);
      hide SpellsChar, Escapes, Octet, Octets, FromUtf8, Utf8, Utf8Length;
      DecodeOctets(s, Utf8(c), c, rest);
    }
  }

  /** What `Decode` has read when it succeeds. */
  lemma {:induction false} DecodedFirst(s: string) returns (k: nat)
    requires s != "" && Decode(s).Some?
    ensures 1 <= k <= |s| && Decode(s).value != "" && SpellsChar(s[..k], Decode(s).value[0])
    ensures Decode(s[k..]) == Some(Decode(s).value[1..])
  {
    hide FromUtf8, Utf8Length, Octet, Escapes;
    if s[0] != '%' {
      k := 1;
      assert s[..1] == [s[0]];
      assert Decode(s).value == [s[0]] + Decode(s[1..]).value;
    } else {
      var n := Utf8Length(Octet(s).value);
      var octets := Octets(s, n).value;
      k := 3 * n;
      LengthIsSmall(Octet(s).value);
      assert Decode(s).value == [FromUtf8(octets).value] + Decode(s[k..]).value;
      FromUtf8Exactly(octets, FromUtf8(octets).value);
      OctetsExactly(s, octets);
    }
  }

  lemma {:induction false} LengthIsSmall(b: byte)
    ensures Utf8Length(b) <= 4
  {
  }

  /** An escaped string is read exactly if it is made up of spellings, and as what they spell;
      `decodeURIComponent` throws on any other. */
  lemma {:induction false} DecodeExactly(s: string, t: string)
    ensures Decode(s) == Some(t) <==> Spells(s, t)
  {
    if Decode(s) == Some(t) {
      DecodedIsSpelled(s, t);
    }
    if Spells(s, t) {
      SpelledIsDecoded(s, t);
    }
  }

  lemma {:induction false} DecodedIsSpelled(s: string, t: string)
    requires Decode(s) == Some(t)
    ensures Spells(s, t)
    decreases |s|
  {
    if s == "" {
      EmptyIsRead(t);
    } else {
      hide Decode, Spells, SpellsChar;
      var k := DecodedFirst(s);
      DecodedIsSpelled(s[k..], t[1..]);
      SpelledFrom(s, t, k);
    }
  }

  lemma {:induction false} SpelledIsDecoded(s: string, t: string)
    requires Spells(s, t)
    ensures Decode(s) == Some(t)
    decreases |s|
  {
    if s == "" {
      EmptyIsRead(t);
    } else {
      hide Decode, Spells, SpellsChar;
      var k := FirstSpelling(s, t);
      SpelledIsDecoded(s[k..], t[1..]);
      DecodedFrom(s, t, k);
    }
  }

  lemma {:induction false} DecodedFrom(s: string, t: string, k: nat)
    requires 1 <= k <= |s| && t != "" && SpellsChar(s[..k], t[0]) && Decode(s[k..]) == Some(t[1..])
    ensures Decode(s) == Some(t)
  {
    hide Decode, SpellsChar;
    DecodeSpelling(s[..k], t[0], s[k..]);
    assert s[..k] + s[k..] == s;
    assert [t[0]] + t[1..] == t;
  }

  lemma {:induction false} EmptyIsRead(t: string)
    ensures Decode("") == Some(t) <==> Spells("", t)
  {
  }

  lemma {:induction false} SpelledFrom(s: string, t: string, k: nat)
    requires 1 <= k <= |s| && t != "" && SpellsChar(s[..k], t[0]) && Spells(s[k..], t[1..])
    ensures Spells(s, t)
  {
    hide SpellsChar;
  }

  lemma {:induction false} FirstSpelling(s: string, t: string) returns (k: nat)
    requires s != "" && Spells(s, t)
    ensures 1 <= k <= |s| && t != "" && SpellsChar(s[..k], t[0]) && Spells(s[k..], t[1..])
  {
    hide SpellsChar;
    k :| 1 <= k <= |s| && SpellsChar(s[..k], t[0]) && Spells(s[k..], t[1..]);
  }

  const CAPITALS := "ABCDEFGHIJKLMNOPQRSTUVWXYZ"
  const SMALL := "abcdefghijklmnopqrstuvwxyz"
  const DIGITS := "0123456789"
  const MARKS := "-_.!~*'()"

  predicate IsUnescaped(c: char) {
    c in CAPITALS || c in SMALL || c in DIGITS || c in MARKS
  }

  lemma {:induction false} LetterAt(i: nat)
    requires i < 26
    ensures CAPITALS[i] as int == 'A' as int + i && SMALL[i] as int == 'a' as int + i
  {
  }

  lemma {:induction false} DigitAt(i: nat)
    requires i < 10
    ensures DIGITS[i] as int == '0' as int + i
  {
  }

  lemma {:induction false} LettersAre(c: char)
    ensures c in CAPITALS <==> 'A' <= c <= 'Z'
    ensures c in SMALL <==> 'a' <= c <= 'z'
  {
    if 'A' <= c <= 'Z' {
      LetterAt(c as int - 'A' as int);
      assert CAPITALS[c as int - 'A' as int] == c;
    }
    if 'a' <= c <= 'z' {
      LetterAt(c as int - 'a' as int);
      assert SMALL[c as int - 'a' as int] == c;
    }
    if i :| 0 <= i < |CAPITALS| && CAPITALS[i] == c {
      LetterAt(i);
    }
    if i :| 0 <= i < |SMALL| && SMALL[i] == c {
      LetterAt(i);
    }
  }

  lemma {:induction false} DigitsAre(c: char)
    ensures c in DIGITS <==> '0' <= c <= '9'
  {
    if '0' <= c <= '9' {
      DigitAt(c as int - '0' as int);
      assert DIGITS[c as int - '0' as int] == c;
    }
    if i :| 0 <= i < |DIGITS| && DIGITS[i] == c {
      DigitAt(i);
    }
  }

  lemma {:induction false} PlainExactly(c: char)
    ensures IsPlain(c) <==> IsUnescaped(c)
  {
    LettersAre(c);
    DigitsAre(c);
    hide CAPITALS, SMALL, DIGITS;
  }

  lemma {:induction false} PercentsEscape(octets: seq<byte>)
    ensures Escapes(Percents(octets), octets)
  {
    if octets != [] {
      PercentsEscape(octets[1..]);
      var s := Percents(octets);
      assert s[..3] == Percent(octets[0]) && s[3..] == Percents(octets[1..]);
    }
  }

  /** Exactly these characters are left as they are; any other is escaped. */
  lemma {:induction false} EncodedExactly(c: char)
    ensures EncodeChar(c) == [c] <==> IsUnescaped(c)
    ensures EncodeChar(c) != [c] ==> Escapes(EncodeChar(c), Utf8(c))
  {
    PlainExactly(c);
    PercentsEscape(Utf8(c));
    EscapesLength(Percents(Utf8(c)), Utf8(c));
    hide IsPlain, Percents, Escapes, Utf8, IsUnescaped;
  }

  // ------------------------------------------------------------------------ other fragments

  ghost predicate SpellAll(raws: seq<string>, segs: seq<string>) {
    |raws| == |segs| && forall i :: 0 <= i < |raws| ==> Spells(raws[i], segs[i])
  }

  lemma {:induction false} DecodeAllExactly(raws: seq<string>, segs: seq<string>)
    ensures DecodeAll(raws) == Some(segs) <==> SpellAll(raws, segs)
  {
    hide Decode, Spells;
    if raws != [] && segs != [] {
      DecodeExactly(raws[0], segs[0]);
      DecodeAllExactly(raws[1..], segs[1..]);
      assert segs == [segs[0]] + segs[1..] && raws == [raws[0]] + raws[1..];
    }
  }

  /** The parts of a fragment that leads to a place. */
  ghost predicate Leads(raw: string, rest: string, t: Target) {
    && '/' !in raw && Spells(raw, t.rootId)
    && exists segs :: SpellAll(Segments(rest), segs) && t.path == Absolute(segs)
  }

  lemma {:induction false} LeadsExactly(raw: string, rest: string, t: Target)
    requires '/' !in raw
    ensures Leads(raw, rest, t) <==>
      && Decode(raw) == Some(t.rootId)
      && DecodeAll(Segments(rest)).Some? && t.path == Absolute(DecodeAll(Segments(rest)).value)
  {
    DecodeExactly(raw, t.rootId);
    hide Decode, Spells, SpellAll, DecodeAll, Absolute, Segments;
    var raws := Segments(rest);
    if Leads(raw, rest, t) {
      var segs :| SpellAll(raws, segs) && t.path == Absolute(segs);
      DecodeAllExactly(raws, segs);
    }
    if DecodeAll(raws).Some? {
      DecodeAllExactly(raws, DecodeAll(raws).value);
    }
  }

  /** Whatever the fragment is: it names a place exactly if it is "#/" and the spelling of the root
      and, after a slash, spellings of the segments; without that slash the place is the top. */
  ghost predicate Names(hash: string, t: Target) {
    || (exists raw, rest :: hash == "#/" + raw + "/" + rest && Leads(raw, rest, t))
    || (exists raw :: hash == "#/" + raw && Leads(raw, "", t))
  }

  lemma {:induction false} ParseParted(hash: string, raw: string, rest: string, t: Target)
    requires '/' !in raw && (hash == "#/" + raw + "/" + rest || (hash == "#/" + raw && rest == ""))
    ensures ParseHash(hash) == Some(t) <==> Leads(raw, rest, t)
  {
    LeadsExactly(raw, rest, t);
    hide Leads, Decode, DecodeAll, Absolute, Segments;
    if hash == "#/" + raw + "/" + rest {
      CutAtSlash(raw, rest);
    } else {
      assert hash[2..] == raw;
      NoSlash(raw);
      assert raw[..|raw|] == raw;
    }
    hide FirstSlash;
  }

  lemma {:induction false} NoSlash(s: string)
    requires '/' !in s
    ensures FirstSlash(s) == |s|
  {
    if s != "" {
      NoSlash(s[1..]);
    }
  }

  /** Every fragment, also one that the page did not write: `parseHash` returns null exactly if the
      fragment names no place. */
  lemma {:induction false} ReadExactly(hash: string, t: Target)
    ensures ParseHash(hash) == Some(t) <==> Names(hash, t)
  {
    if Names(hash, t) {
      NamedIsRead(hash, t);
    }
    if ParseHash(hash) == Some(t) {
      ReadIsNamed(hash, t);
    }
  }

  lemma {:induction false} NamedIsRead(hash: string, t: Target)
    requires Names(hash, t)
    ensures ParseHash(hash) == Some(t)
  {
    hide Leads, ParseHash;
    if raw, rest :| hash == "#/" + raw + "/" + rest && Leads(raw, rest, t) {
      RawHasNoSlash(raw, rest, t);
      ParseParted(hash, raw, rest, t);
    } else {
      var raw :| hash == "#/" + raw && Leads(raw, "", t);
      RawHasNoSlash(raw, "", t);
      ParseParted(hash, raw, "", t);
    }
  }

  /** The fragment after its "#/", cut at the first slash. */
  lemma {:induction false} Parted(hash: string) returns (raw: string, rest: string)
    requires |hash| >= 2 && hash[..2] == "#/"
    ensures '/' !in raw && (hash == "#/" + raw + "/" + rest || (hash == "#/" + raw && rest == ""))
  {
    var tail := hash[2..];
    var cut := FirstSlash(tail);
    raw := tail[..cut];
    FirstSlashIs(tail);
    if cut == |tail| {
      rest := "";
      assert hash == "#/" + raw;
    } else {
      rest := tail[cut + 1..];
      assert tail == raw + "/" + rest;
      assert hash == "#/" + raw + "/" + rest;
    }
  }

  lemma {:induction false} FirstSlashIs(s: string)
    ensures FirstSlash(s) <= |s| && '/' !in s[..FirstSlash(s)]
    ensures FirstSlash(s) < |s| ==> s[FirstSlash(s)] == '/'
  {
    if s != "" && s[0] != '/' {
      FirstSlashIs(s[1..]);
      assert s[..FirstSlash(s)] == [s[0]] + s[1..][..FirstSlash(s[1..])];
    }
  }

  lemma {:induction false} ReadIsNamed(hash: string, t: Target)
    requires ParseHash(hash) == Some(t)
    ensures Names(hash, t)
  {
    ReadStarts(hash);
    hide ParseHash, Leads;
    var raw, rest := Parted(hash);
    ParseParted(hash, raw, rest, t);
  }

  lemma {:induction false} ReadStarts(hash: string)
    requires ParseHash(hash).Some?
    ensures |hash| >= 2 && hash[..2] == "#/"
  {
    hide Decode, DecodeAll, FirstSlash;
  }

  lemma {:induction false} RawHasNoSlash(raw: string, rest: string, t: Target)
    requires Leads(raw, rest, t)
    ensures '/' !in raw
  {
  }
}
