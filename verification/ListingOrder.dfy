/** The order of a listing is that of UTF-16 code units, one after another, as JavaScript compares
    strings. */
module ListingOrder {
  import opened Paging

  /** The code units of a character: itself, or a surrogate pair (section 2.1 of RFC 2781). */
  function UnitsOf(c: char): (units: seq<int>)
    ensures units != []
  {
    var code := c as int;
    if code < 0x1_0000 then [code]
    else [0xD800 + (code - 0x1_0000) / 0x400, 0xDC00 + (code - 0x1_0000) % 0x400]
  }

  function Units(s: string): seq<int> {
    if s == "" then [] else UnitsOf(s[0]) + Units(s[1..])
  }

  /** The first unit in which they differ is smaller, or `a` ends where `b` goes on. */
  ghost predicate IsLess(a: seq<int>, b: seq<int>) {
    exists k :: IsLessFrom(a, b, k)
  }

  predicate IsLessFrom(a: seq<int>, b: seq<int>, k: int) {
    && 0 <= k <= |a| && k < |b| && a[..k] == b[..k]
    && (k == |a| || a[k] < b[k])
  }

  lemma {:induction false} LessEmpty(a: seq<int>, b: seq<int>)
    ensures b == [] ==> !IsLess(a, b)
    ensures a == [] && b != [] ==> IsLess(a, b)
  {
    if a == [] && b != [] {
      assert IsLessFrom(a, b, 0);
    }
  }

  lemma {:induction false} LessFirst(a: seq<int>, b: seq<int>)
    requires a != [] && b != []
    ensures IsLess(a, b) <==> a[0] < b[0] || (a[0] == b[0] && IsLess(a[1..], b[1..]))
  {
    if IsLess(a, b) {
      var k :| IsLessFrom(a, b, k);
      if k > 0 {
        assert a[..k][0] == b[..k][0];
        assert a[1..][..k - 1] == a[..k][1..] && b[1..][..k - 1] == b[..k][1..];
        assert IsLessFrom(a[1..], b[1..], k - 1);
      }
    }
    if a[0] < b[0] {
      assert IsLessFrom(a, b, 0);
    }
    if a[0] == b[0] && IsLess(a[1..], b[1..]) {
      var k :| IsLessFrom(a[1..], b[1..], k);
      assert a[..k + 1] == [a[0]] + a[1..][..k] && b[..k + 1] == [b[0]] + b[1..][..k];
      assert IsLessFrom(a, b, k + 1);
    }
  }

  lemma {:induction false} SameFirstUnits(u: seq<int>, x: seq<int>, y: seq<int>)
    ensures IsLess(u + x, u + y) <==> IsLess(x, y)
  {
    hide IsLess;
    if u == [] {
      assert u + x == x && u + y == y;
    } else {
      LessFirst(u + x, u + y);
      assert (u + x)[1..] == u[1..] + x && (u + y)[1..] == u[1..] + y;
      SameFirstUnits(u[1..], x, y);
    }
  }

  lemma {:induction false} DifferentFirst(c: char, d: char, x: seq<int>, y: seq<int>)
    requires c != d
    ensures IsLess(UnitsOf(c) + x, UnitsOf(d) + y) <==> Rank(c) < Rank(d)
  {
    hide IsLess;
    var a, b := UnitsOf(c) + x, UnitsOf(d) + y;
    LessFirst(a, b);
    if a[0] == b[0] {
      assert a[1..] == [UnitsOf(c)[1]] + x && b[1..] == [UnitsOf(d)[1]] + y;
      LessFirst(a[1..], b[1..]);
    }
  }

  /** Names are listed in the order of their code units. */
  lemma {:induction false} BeforeExactly(a: string, b: string)
    ensures Before(a, b) <==> IsLess(Units(a), Units(b))
  {
    hide IsLess, Rank, UnitsOf;
    LessEmpty(Units(a), Units(b));
    if a != "" && b != "" {
      if a[0] == b[0] {
        BeforeExactly(a[1..], b[1..]);
        SameFirstUnits(UnitsOf(a[0]), Units(a[1..]), Units(b[1..]));
      } else {
        DifferentFirst(a[0], b[0], Units(a[1..]), Units(b[1..]));
      }
    }
  }
}
