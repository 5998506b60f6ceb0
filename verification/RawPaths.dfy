/** What a path means as it is sent: any number of slashes and backslashes stand between its parts,
    before the first and after the last. */
module RawPaths {
  import opened Paths

  predicate IsSeparator(c: char) {
    c == '/' || c == '\\'
  }

  /** Where the first part of a string that does not begin with a separator ends. */
  function FirstPart(raw: string): (k: nat)
    ensures k <= |raw| && (forall i :: 0 <= i < k ==> !IsSeparator(raw[i]))
    ensures k < |raw| ==> IsSeparator(raw[k])
  {
    if raw == "" || IsSeparator(raw[0]) then 0 else 1 + FirstPart(raw[1..])
  }

  /** The parts are what stands between the separators, in order. */
  ghost predicate Reads(raw: string, parts: seq<string>)
    decreases |raw|
  {
    if raw == "" then parts == []
    else if IsSeparator(raw[0]) then Reads(raw[1..], parts)
    else
      parts != [] && exists k :: 1 <= k <= |raw| && IsPart(raw, k)
                                 && parts[0] == raw[..k] && Reads(raw[k..], parts[1..])
  }

  /** The first `k` characters have no separator and one follows, or nothing. */
  predicate IsPart(raw: string, k: nat)
    requires k <= |raw|
  {
    (forall i :: 0 <= i < k ==> !IsSeparator(raw[i])) && (k < |raw| ==> IsSeparator(raw[k]))
  }

  lemma {:induction false} SlashedAtSeparator(a: string, c: char, b: string)
    requires IsSeparator(c)
    ensures Segments(Slashed(a + [c] + b)) == Segments(Slashed(a)) + Segments(Slashed(b))
  {
    assert Slashed(a + [c] + b) == Slashed(a) + "/" + Slashed(b);
    hide Slashed;
    SegmentsAtSlash(Slashed(a), Slashed(b));
  }

  lemma {:induction false} SlashedPart(a: string)
    requires a != "" && forall i :: 0 <= i < |a| ==> !IsSeparator(a[i])
    ensures Segments(Slashed(a)) == [a]
  {
    assert Slashed(a) == a;
    hide Slashed;
    SplitWithoutSlash(a);
    assert NonEmpty([a]) == [a] + NonEmpty([a][1..]);
  }

  lemma {:induction false} PartEnds(raw: string, k: nat, j: nat)
    requires k <= |raw| && j <= |raw| && IsPart(raw, k) && IsPart(raw, j)
    ensures k == j
  {
  }

  lemma {:induction false} FirstPartOf(raw: string, k: nat)
    requires 1 <= k <= |raw| && IsPart(raw, k)
    ensures Segments(Slashed(raw)) == [raw[..k]] + Segments(Slashed(raw[k..]))
  {
    SlashedPart(raw[..k]);
    SlashedEmpty();
    hide Segments, Slashed;
    if k == |raw| {
      assert raw[..k] == raw && raw[k..] == "";
    } else {
      var rest := raw[k + 1..];
      assert raw == raw[..k] + [raw[k]] + rest;
      assert raw[k..] == "" + [raw[k]] + rest;
      SlashedAtSeparator(raw[..k], raw[k], rest);
      SlashedAtSeparator("", raw[k], rest);
      assert [] + Segments(Slashed(rest)) == Segments(Slashed(rest));
    }
  }

  lemma {:induction false} SlashedEmpty()
    ensures Segments(Slashed("")) == []
  {
    assert Slashed("") == "";
  }

  /** A path that is sent has just these parts. */
  lemma {:induction false} ReadsExactly(raw: string, parts: seq<string>)
    ensures Reads(raw, parts) <==> parts == Segments(Slashed(raw))
    decreases |raw|
  {
    SlashedEmpty();
    hide Segments, Slashed;
    if raw == "" {
    } else if IsSeparator(raw[0]) {
      assert raw == "" + [raw[0]] + raw[1..];
      SlashedAtSeparator("", raw[0], raw[1..]);
      assert [] + Segments(Slashed(raw[1..])) == Segments(Slashed(raw[1..]));
      ReadsExactly(raw[1..], parts);
    } else {
      var k := FirstPart(raw);
      FirstPartOf(raw, k);
      if parts != [] {
        ReadsExactly(raw[k..], parts[1..]);
        assert parts == [parts[0]] + parts[1..];
      }
      forall j: nat | 1 <= j <= |raw| && IsPart(raw, j)
        ensures j == k
      {
        PartEnds(raw, j, k);
      }
      assert IsPart(raw, k);
    }
  }

  // ---------------------------------------------------------------------- the hidden name

  /** Each letter of `low` may stand as a capital. */
  predicate IsInAnyCase(name: string, low: string) {
    && |name| == |low|
    && forall i :: 0 <= i < |name| ==>
         name[i] == low[i] || ('a' <= low[i] <= 'z' && name[i] as int == low[i] as int - 0x20)
  }

  /** The hidden name is recognised in small letters and capitals. */
  lemma {:induction false} HiddenNameExactly(name: string)
    ensures IsHiddenName(name) <==> IsInAnyCase(name, ".vaultbox")
  {
    var low := LowerCase(name);
    assert |low| == |name| && forall i :: 0 <= i < |name| ==>
      low[i] == if 'A' <= name[i] <= 'Z' then name[i] - 'A' + 'a' else name[i];
    hide LowerCase;
    forall i | 0 <= i < |".vaultbox"|
      ensures ".vaultbox"[i] == '.' || 'a' <= ".vaultbox"[i] <= 'z'
    {
    }
    if low == ".vaultbox" {
      forall i | 0 <= i < |name|
        ensures name[i] == ".vaultbox"[i] ||
          ('a' <= ".vaultbox"[i] <= 'z' && name[i] as int == ".vaultbox"[i] as int - 0x20)
      {
        assert low[i] == ".vaultbox"[i];
      }
    }
  }

  // ------------------------------------------------------------------------------ reading

  /** Whatever is sent: a part ".." makes it no path, the hidden name as its first part makes it
      reserved, and otherwise it is the path of its parts. */
  lemma {:induction false} ParsedExactly(raw: string, parts: seq<string>)
    requires Reads(raw, parts)
    ensures ParsePath(raw) ==
      if ".." in parts then Invalid
      else if parts != [] && IsInAnyCase(parts[0], ".vaultbox") then Reserved
      else Ok(Absolute(parts))
  {
    ReadsExactly(raw, parts);
    if parts != [] {
      HiddenNameExactly(parts[0]);
    }
    hide Segments, Slashed, Absolute, IsHiddenName, IsInAnyCase, Reads;
  }

  /** Every path that is sent can be read, in one way. */
  lemma {:induction false} ReadsOnce(raw: string)
    ensures exists parts :: Reads(raw, parts)
    ensures forall a, b :: Reads(raw, a) && Reads(raw, b) ==> a == b
  {
    hide Reads;
    ReadsExactly(raw, Segments(Slashed(raw)));
    forall a, b | Reads(raw, a) && Reads(raw, b)
      ensures a == b
    {
      ReadsExactly(raw, a);
      ReadsExactly(raw, b);
    }
  }
}
