/** Decimal numbers, and the " (1)", " (2)", … names given to a second file of the same
    name. The server splits base from extension in two places with two regular
    expressions; both are modelled as the backtracking matcher runs them. */
module Naming {
  import opened Options

  // ------------------------------------------------------------------ decimal numbers

  predicate IsDigit(c: char) {
    '0' <= c <= '9'
  }

  predicate AllDigits(s: string) {
    forall c :: c in s ==> IsDigit(c)
  }

  function Digit(n: nat): char
    requires n < 10
  {
    '0' + n as char
  }

  /** `String(n)` for a natural number. */
  function Decimal(n: nat): (s: string)
    ensures s != "" && AllDigits(s)
  {
    if n < 10 then [Digit(n)] else Decimal(n / 10) + [Digit(n % 10)]
  }

  /** `Number(s)` for a string of digits; the empty string is 0. */
  function Number(s: string): nat
    requires AllDigits(s)
  {
    if s == "" then 0
    else
      assert IsDigit(s[|s| - 1]);
      10 * Number(s[..|s| - 1]) + (s[|s| - 1] as int - '0' as int)
  }

  lemma {:induction false} NumberOfDecimal(n: nat)
    ensures Number(Decimal(n)) == n
  {
    var s := Decimal(n);
    if n >= 10 {
      NumberOfDecimal(n / 10);
      assert s[..|s| - 1] == Decimal(n / 10);
    } else {
      assert s[..0] == "";
    }
  }

  lemma {:induction false} NoLeadingZero(n: nat)
    ensures |Decimal(n)| > 1 ==> Decimal(n)[0] != '0'
    ensures n > 0 ==> Decimal(n)[0] != '0'
  {
    if n >= 10 {
      NoLeadingZero(n / 10);
    }
  }

  lemma {:induction false} NumberIsZero(s: string)
    requires AllDigits(s) && Number(s) == 0
    ensures forall c :: c in s ==> c == '0'
  {
    if s != "" {
      var n := |s| - 1;
      assert IsDigit(s[n]);
      NumberIsZero(s[..n]);
      assert s == s[..n] + [s[n]];
    }
  }

  lemma {:induction false} NumberIsPositive(s: string)
    requires s != "" && AllDigits(s) && s[0] != '0'
    ensures Number(s) > 0
  {
    assert s[0] in s;
    if Number(s) == 0 {
      NumberIsZero(s);
    }
  }

  /** The decimal form of a number is the one string of digits that reads as it and has no zero
      to spare in front. */
  lemma {:induction false} DecimalExactly(n: nat, s: string)
    ensures s == Decimal(n) <==> s != "" && AllDigits(s) && Number(s) == n && (|s| > 1 ==> s[0] != '0')
  {
    NumberOfDecimal(n);
    NoLeadingZero(n);
    if s != "" && AllDigits(s) && Number(s) == n && (|s| > 1 ==> s[0] != '0') {
      OnlyDecimal(n, s);
    }
  }

  lemma {:induction false} OnlyDecimal(n: nat, s: string)
    requires s != "" && AllDigits(s) && Number(s) == n && (|s| > 1 ==> s[0] != '0')
    ensures s == Decimal(n)
    decreases |s|
  {
    var k := |s| - 1;
    var front, d := s[..k], s[k] as int - '0' as int;
    assert IsDigit(s[k]) && AllDigits(front) && s == front + [s[k]];
    assert n == 10 * Number(front) + d && 0 <= d < 10;
    assert n / 10 == Number(front) && n % 10 == d;
    if front == "" {
      assert Number(front) == 0;
    } else {
      assert front[0] == s[0];
      NumberIsPositive(front);
      OnlyDecimal(Number(front), front);
    }
  }

  // -------------------------------------------------------------- base and extension

  /** What `(\.[^.]*)?$` matches from some position to the end of the name. */
  predicate IsTail(t: string) {
    t == "" || (t[0] == '.' && '.' !in t[1..])
  }

  /** What `.` does not match. */
  predicate IsLineTerminator(c: char) {
    c == '\n' || c == '\r' || c == '\U{2028}' || c == '\U{2029}'
  }

  /** Where `name.replace(/(\.[^.]*)?$/, …)` matches: the leftmost tail from `j` on. */
  function LeftmostTail(name: string, j: nat): (r: nat)
    requires j <= |name|
    ensures j <= r <= |name| && IsTail(name[r..])
    ensures forall i :: j <= i < r ==> !IsTail(name[i..])
    decreases |name| - j
  {
    if IsTail(name[j..]) then j else LeftmostTail(name, j + 1)
  }

  /** Where `/^(.*?)(\.[^.]*)?$/.exec(name)` ends its first group, or null. The lazy group
      grows one character at a time and cannot step over a line terminator. */
  function LazyGroup(name: string, j: nat): (r: Option<nat>)
    requires j <= |name|
    ensures r.Some? ==> j <= r.value <= |name| && IsTail(name[r.value..])
    decreases |name| - j
  {
    if IsTail(name[j..]) then Some(j)
    else if IsLineTerminator(name[j]) then None
    else LazyGroup(name, j + 1)
  }

  function Base(name: string): string {
    name[..LeftmostTail(name, 0)]
  }

  function Extension(name: string): string {
    name[LeftmostTail(name, 0)..]
  }

  predicate HasLineTerminator(s: string) {
    exists i :: 0 <= i < |s| && IsLineTerminator(s[i])
  }

  lemma {:induction false} LazyGroupFrom(name: string, j: nat)
    requires j <= |name|
    ensures LazyGroup(name, j) ==
      if HasLineTerminator(name[j..LeftmostTail(name, j)]) then None else Some(LeftmostTail(name, j))
    decreases |name| - j
  {
    var r := LeftmostTail(name, j);
    if r > j {
      LazyGroupFrom(name, j + 1);
      var here, later := name[j..r], name[j + 1..r];
      assert here[0] == name[j] && here[1..] == later;
      if HasLineTerminator(later) {
        var i :| 0 <= i < |later| && IsLineTerminator(later[i]);
        assert here[i + 1] == later[i];
      }
      if HasLineTerminator(here) && !IsLineTerminator(here[0]) {
        var i :| 0 <= i < |here| && IsLineTerminator(here[i]);
        assert later[i - 1] == here[i];
      }
    }
  }

  /** The two expressions pick the same base and extension exactly when no line
      terminator precedes the extension; otherwise the second finds no match at all. */
  lemma {:induction false} TwoFormsAgree(name: string)
    ensures LazyGroup(name, 0) == Some(LeftmostTail(name, 0)) <==> !HasLineTerminator(Base(name))
    ensures LazyGroup(name, 0) == None <==> HasLineTerminator(Base(name))
  {
    LazyGroupFrom(name, 0);
  }

  /** The extension starts at the last dot, and is empty when there is none. */
  lemma {:induction false} ExtensionStartsAtLastDot(name: string)
    ensures Base(name) + Extension(name) == name
    ensures '.' !in name ==> Extension(name) == "" && Base(name) == name
    ensures '.' in name ==>
      Extension(name) != "" && Extension(name)[0] == '.' && '.' !in Extension(name)[1..]
  {
    if '.' in name {
      var d := LastDot(name);
      assert name[d..][1..] == name[d + 1..];
      assert IsTail(name[d..]);
      assert LeftmostTail(name, 0) <= d;
    }
  }

  function LastDot(name: string): (d: nat)
    requires '.' in name
    ensures d < |name| && name[d] == '.' && '.' !in name[d + 1..]
  {
    if name[|name| - 1] == '.' then |name| - 1
    else
      assert name == name[..|name| - 1] + [name[|name| - 1]];
      var d := LastDot(name[..|name| - 1]);
      assert name[d + 1..] == name[..|name| - 1][d + 1..] + [name[|name| - 1]];
      d
  }

  // ------------------------------------------------------------------- numbered names

  function Numbered(stem: string, i: nat, ext: string): string {
    stem + " (" + Decimal(i) + ")" + ext
  }

  lemma {:induction false} NumberedIsInjective(stem: string, i: nat, j: nat, ext: string)
    requires Numbered(stem, i, ext) == Numbered(stem, j, ext)
    ensures i == j
  {
    var a, b := Numbered(stem, i, ext), Numbered(stem, j, ext);
    var lo, hi := |stem| + 2, |a| - |ext| - 1;
    assert a[lo..hi] == Decimal(i);
    assert b[lo..hi] == Decimal(j);
    NumberOfDecimal(i);
    NumberOfDecimal(j);
  }

  /** The numbered names tried before `i`. */
  ghost function Tried(stem: string, i: nat, ext: string): set<string> {
    if i <= 1 then {} else Tried(stem, i - 1, ext) + {Numbered(stem, i - 1, ext)}
  }

  lemma {:induction false} NotYetTried(stem: string, i: nat, j: nat, ext: string)
    requires i <= j
    ensures Numbered(stem, j, ext) !in Tried(stem, i, ext)
  {
    if i > 1 {
      NotYetTried(stem, i - 1, j, ext);
      if Numbered(stem, i - 1, ext) == Numbered(stem, j, ext) {
        NumberedIsInjective(stem, i - 1, j, ext);
      }
    }
  }

  lemma {:induction false} TriedGrows(keys: set<string>, stem: string, i: nat, ext: string)
    requires i >= 1 && Numbered(stem, i, ext) in keys
    ensures |keys - Tried(stem, i + 1, ext)| < |keys - Tried(stem, i, ext)|
  {
    NotYetTried(stem, i, i, ext);
    var before := keys - Tried(stem, i, ext);
    assert keys - Tried(stem, i + 1, ext) == before - {Numbered(stem, i, ext)};
  }

  lemma {:induction false} TriedSize(keys: set<string>, stem: string, i: nat, ext: string)
    requires i >= 1
    requires forall j :: 1 <= j < i ==> Numbered(stem, j, ext) in keys
    ensures Tried(stem, i, ext) <= keys && |Tried(stem, i, ext)| == i - 1
  {
    if i > 1 {
      TriedSize(keys, stem, i - 1, ext);
      NotYetTried(stem, i - 1, i - 1, ext);
    }
  }

  /** Numbers are tried from `i` up until the name is free. The search ends because each
      taken name uses up one of the finitely many keys. */
  function FirstFree(keys: set<string>, stem: string, i: nat, ext: string): (r: nat)
    requires i >= 1
    ensures r >= i && Numbered(stem, r, ext) !in keys
    ensures forall j :: i <= j < r ==> Numbered(stem, j, ext) in keys
    decreases |keys - Tried(stem, i, ext)|
  {
    if Numbered(stem, i, ext) in keys then
      TriedGrows(keys, stem, i, ext);
      FirstFree(keys, stem, i + 1, ext)
    else i
  }

  /** The chosen number is the least free one, and at most one more than the number of
      existing keys. */
  lemma {:induction false} FirstFreeIsBounded(keys: set<string>, stem: string, ext: string)
    ensures FirstFree(keys, stem, 1, ext) <= |keys| + 1
  {
    var r := FirstFree(keys, stem, 1, ext);
    TriedSize(keys, stem, r, ext);
    SubsetSize(Tried(stem, r, ext), keys);
  }

  lemma {:induction false} SubsetSize<T>(a: set<T>, b: set<T>)
    requires a <= b
    ensures |a| <= |b|
  {
    if a != {} {
      var x :| x in a;
      SubsetSize(a - {x}, b - {x});
    }
  }

  /** The `while (tree.has(…)) i++` loop of the keep-both branch. */
  method FindFreeNumber(keys: set<string>, stem: string, ext: string) returns (i: nat)
    ensures i == FirstFree(keys, stem, 1, ext)
  {
    i := 1;
    while Numbered(stem, i, ext) in keys
      invariant i >= 1
      invariant FirstFree(keys, stem, i, ext) == FirstFree(keys, stem, 1, ext)
      decreases |keys - Tried(stem, i, ext)|
    {
      TriedGrows(keys, stem, i, ext);
      i := i + 1;
    }
  }

  // ------------------------------------------------------------- reading a numbered name

  /** How many digits there are at the end. */
  function DigitsAtEnd(s: string): (k: nat)
    ensures k <= |s| && AllDigits(s[|s| - k..]) && (k < |s| ==> !IsDigit(s[|s| - k - 1]))
  {
    if s == "" || !IsDigit(s[|s| - 1]) then 0
    else
      var k := DigitsAtEnd(s[..|s| - 1]);
      assert s[|s| - 1 - k..] == s[..|s| - 1][|s| - 1 - k..] + [s[|s| - 1]];
      k + 1
  }

  /** A reader that knows nothing of `Numbered`: a name, a space, a number in parentheses. */
  function ReadCount(s: string): Option<(string, nat)> {
    if s == "" || s[|s| - 1] != ')' then None
    else
      var inner := s[..|s| - 1];
      var k := DigitsAtEnd(inner);
      var head := inner[..|inner| - k];
      if k == 0 || |head| < 2 || head[|head| - 2..] != " (" then None
      else Some((head[..|head| - 2], Number(inner[|inner| - k..])))
  }

  lemma {:induction false} DigitsEnd(head: string, digits: string)
    requires AllDigits(digits) && head != "" && !IsDigit(head[|head| - 1])
    ensures DigitsAtEnd(head + digits) == |digits|
  {
    if digits == "" {
      assert head + digits == head;
    } else {
      var n := |digits| - 1;
      assert digits[n] in digits && digits == digits[..n] + [digits[n]];
      assert (head + digits)[..|head| + n] == head + digits[..n];
      DigitsEnd(head, digits[..n]);
    }
  }

  lemma {:induction false} CountIsRead(stem: string, i: nat)
    ensures ReadCount(Numbered(stem, i, "")) == Some((stem, i))
  {
    var s, head, d := Numbered(stem, i, ""), stem + " (", Decimal(i);
    assert s == head + d + ")" && s[..|s| - 1] == head + d;
    DigitsEnd(head, d);
    NumberOfDecimal(i);
    assert (head + d)[|head + d| - |d|..] == d && (head + d)[..|head|] == head;
    assert head[|head| - 2..] == " (" && head[..|head| - 2] == stem;
  }

  lemma {:induction false} NoTailBefore(base: string, ext: string, r: nat)
    requires IsTail(ext) && (ext == "" ==> '.' !in base) && r < |base|
    ensures !IsTail((base + ext)[r..])
  {
    var t := (base + ext)[r..];
    assert t[0] == base[r] && base[r] in base;
    if ext != "" {
      assert t[1..][|base| - r - 1] == ext[0];
      assert ext[0] in t[1..];
    }
  }

  lemma {:induction false} ExtensionOf(base: string, ext: string)
    requires IsTail(ext) && (ext == "" ==> '.' !in base)
    ensures Base(base + ext) == base && Extension(base + ext) == ext
  {
    var name := base + ext;
    var r := LeftmostTail(name, 0);
    assert name[|base|..] == ext;
    assert name[..|base|] == base;
    if r < |base| {
      NoTailBefore(base, ext, r);
    }
  }

  /** A kept name is the old base, a space, the number in parentheses and the old extension. */
  lemma {:induction false} KeptNameIsRead(name: string, i: nat)
    ensures var kept := Numbered(Base(name), i, Extension(name));
      && Extension(kept) == Extension(name)
      && ReadCount(Base(kept)) == Some((Base(name), i))
      && (forall d :: d != "" && AllDigits(d) && Number(d) == i && (|d| > 1 ==> d[0] != '0') ==>
            kept == Base(name) + " (" + d + ")" + Extension(name))
  {
    var ext, stem := Extension(name), Numbered(Base(name), i, "");
    ExtensionStartsAtLastDot(name);
    NumberOfDecimal(i);
    assert Numbered(Base(name), i, ext) == stem + ext;
    if ext == "" {
      assert '.' !in name;
      assert forall c :: c in stem ==> c != '.';
    }
    ExtensionOf(stem, ext);
    CountIsRead(Base(name), i);
    forall d | d != "" && AllDigits(d) && Number(d) == i && (|d| > 1 ==> d[0] != '0')
      ensures d == Decimal(i)
    {
      DecimalExactly(i, d);
    }
  }
}
