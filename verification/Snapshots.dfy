/** The re-keying loop over a snapshot of the keys, taken in some order: exactly when does the
    order matter? */
module Snapshots {
  import opened Paths
  import opened FileTree
  import opened Sequences

  /** The keys of the map, each once, in some order. */
  ghost predicate IsSnapshot(order: seq<string>, m: FlatTree) {
    Elements(order) == m.Keys && NoDuplicates(order)
  }

  /** The loop over the keys in this order. */
  function TurnAll(m: FlatTree, s: string, t: string, keep: bool, order: seq<string>): FlatTree {
    if order == [] then m
    else
      var now, k := TurnAll(m, s, t, keep, order[..|order| - 1]), order[|order| - 1];
      if k in now then Turn(now, s, t, keep, k) else now
  }

  /** What the loop may make of the map. */
  ghost predicate MayRekey(m: FlatTree, s: string, t: string, keep: bool, m': FlatTree) {
    exists order :: IsSnapshot(order, m) && m' == TurnAll(m, s, t, keep, order)
  }

  lemma {:induction false} OneTurnMore(m: FlatTree, s: string, t: string, keep: bool, order: seq<string>, k: string)
    ensures TurnAll(m, s, t, keep, order + [k]) ==
      (var now := TurnAll(m, s, t, keep, order); if k in now then Turn(now, s, t, keep, k) else now)
  {
    hide Turn;
    assert (order + [k])[..|order|] == order;
  }

  /** Whatever the order, nothing outside source and target is touched. */
  lemma {:induction false} LoopStaysInside(m: FlatTree, s: string, t: string, keep: bool, order: seq<string>)
    ensures SameOutside(m, TurnAll(m, s, t, keep, order), s, t)
  {
    hide Under, Turn;
    if order != [] {
      var now := TurnAll(m, s, t, keep, order[..|order| - 1]);
      LoopStaysInside(m, s, t, keep, order[..|order| - 1]);
      if order[|order| - 1] in now {
        TurnStaysInside(m, now, s, t, keep, order[|order| - 1]);
      }
    }
  }

  // ----------------------------------------------------------------- where it does not matter

  lemma {:induction false} TurnsArePartly(m: FlatTree, s: string, t: string, keep: bool, order: seq<string>)
    requires Untangled(m, s, t, keep) && Elements(order) <= m.Keys && NoDuplicates(order)
    ensures TurnAll(m, s, t, keep, order) == Partly(m, Elements(order), s, t, keep)
  {
    hide Untangled, Partly, Turn;
    if order == [] {
      NothingDone(m, s, t, keep);
      assert Elements(order) == {};
    } else {
      var n := |order| - 1;
      LastIsNew(order);
      ElementsOf(order[..n], order[n]);
      LastIsKey(order);
      hide NoDuplicates;
      TurnsArePartly(m, s, t, keep, order[..n]);
      PartlyStep(m, Elements(order[..n]), s, t, keep, order[n]);
    }
  }

  lemma {:induction false} LastIsKey(order: seq<string>)
    requires order != []
    ensures order[|order| - 1] in Elements(order)
  {
  }

  lemma {:induction false} NothingDone(m: FlatTree, s: string, t: string, keep: bool)
    ensures Partly(m, {}, s, t, keep) == m
  {
    hide Left, Only, Rekeyed;
    NothingLeft(m, s, keep);
    NothingRekeyed(s, t);
    assert Only(m, {}) == map[] by { NothingKept(m); }
    assert m + map[] == m;
  }

  lemma {:induction false} NothingLeft(m: FlatTree, s: string, keep: bool)
    ensures Left(m, {}, s, keep) == m
  {
    hide Under;
  }

  lemma {:induction false} NothingRekeyed(s: string, t: string)
    ensures Rekeyed(map[], s, t) == map[]
  {
    hide Under, Swap, Rekeyed;
  }

  lemma {:induction false} NothingKept(m: FlatTree)
    ensures Only(m, {}) == map[]
  {
  }

  lemma {:induction false} AnyOrder(m: FlatTree, s: string, t: string, keep: bool, order: seq<string>)
    requires Untangled(m, s, t, keep) && IsSnapshot(order, m)
    ensures TurnAll(m, s, t, keep, order) == Relocated(m, s, t, keep)
  {
    hide Untangled, TurnAll, Partly, Relocated;
    TurnsArePartly(m, s, t, keep, order);
    PartlyAll(m, s, t, keep);
  }

  /** Untangled, every order leaves the relocated map. */
  lemma {:induction false} OneOutcome(m: FlatTree, s: string, t: string, keep: bool, m': FlatTree)
    requires Untangled(m, s, t, keep) && MayRekey(m, s, t, keep, m')
    ensures m' == Relocated(m, s, t, keep)
  {
    hide Untangled, TurnAll, Relocated, IsSnapshot;
    var order :| IsSnapshot(order, m) && m' == TurnAll(m, s, t, keep, order);
    AnyOrder(m, s, t, keep, order);
  }

  // ------------------------------------------------------------------------ where it matters

  /** Any keys can come first. */
  lemma {:induction false} SnapshotFrom(m: FlatTree, first: seq<string>) returns (order: seq<string>)
    requires Elements(first) <= m.Keys && NoDuplicates(first)
    ensures IsSnapshot(order, m) && first <= order
    decreases |m.Keys - Elements(first)|
  {
    var rest := m.Keys - Elements(first);
    if rest == {} {
      NothingRests(m.Keys, Elements(first));
      order := first;
    } else {
      var k :| k in rest;
      ElementsOf(first, k);
      OneMore(first, k);
      hide NoDuplicates;
      assert m.Keys - Elements(first + [k]) == rest - {k};
      order := SnapshotFrom(m, first + [k]);
    }
  }

  lemma {:induction false} NothingRests(all: set<string>, some: set<string>)
    requires some <= all && all - some == {}
    ensures some == all
  {
    forall k | k in all
      ensures k in some
    {
      assert k !in all - some;
    }
  }

  /** The turn of `j` does not touch what is at `z`. */
  predicate Beside(s: string, t: string, keep: bool, j: string, z: string) {
    (keep || j != z) && (Under(s, j) ==> Swap(s, t, j) != z)
  }

  lemma {:induction false} TurnBeside(now: FlatTree, s: string, t: string, keep: bool, j: string, z: string)
    requires j in now && Beside(s, t, keep, j, z)
    ensures z in Turn(now, s, t, keep, j) <==> z in now
    ensures z in now ==> Turn(now, s, t, keep, j)[z] == now[z]
  {
    TurnIs(now, s, t, keep, j);
    hide Under, Swap, Turn;
  }

  lemma {:induction false} LaterTurns(m: FlatTree, s: string, t: string, keep: bool,
                                      first: seq<string>, order: seq<string>, z: string)
    requires first <= order && forall i :: |first| <= i < |order| ==> Beside(s, t, keep, order[i], z)
    ensures var a, b := TurnAll(m, s, t, keep, first), TurnAll(m, s, t, keep, order);
      (z in a <==> z in b) && (z in a ==> a[z] == b[z])
    decreases |order|
  {
    hide Beside, Turn;
    if |first| == |order| {
      assert first == order;
    } else {
      var n := |order| - 1;
      assert first <= order[..n];
      LaterTurns(m, s, t, keep, first, order[..n], z);
      var now := TurnAll(m, s, t, keep, order[..n]);
      if order[n] in now {
        TurnBeside(now, s, t, keep, order[n], z);
      }
    }
  }

  lemma {:induction false} SwapIsInjective(s: string, t: string, j: string, k: string)
    requires Under(s, j) && Under(s, k) && Swap(s, t, j) == Swap(s, t, k)
    ensures j == k
  {
    SwapBack(s, t, j);
    SwapBack(s, t, k);
  }

  /** A chained key, its image and the image's image are three different keys. */
  lemma {:induction false} ThreeKeys(m: FlatTree, s: string, t: string, k: string)
    requires IsChained(m, s, t, k) && s != t
    ensures var x := Swap(s, t, k); var y := Swap(s, t, x); k != x && x != y && y != k
  {
    var x := Swap(s, t, k);
    SwapMoves(s, t, k);
    SwapMoves(s, t, x);
    assert x[..|t|] == t && x[..|s|] == s;
    assert |x| - |k| == |t| - |s| && |Swap(s, t, x)| - |x| == |t| - |s|;
  }

  /** A place written for a key that has had its turn is not written again. */
  lemma {:induction false} RestIsBeside(s: string, t: string, keep: bool, a: string, b: string, order: seq<string>,
                                        w: string)
    requires NoDuplicates(order) && [a, b] <= order && (w == a || w == b) && Under(s, w)
    requires keep || Swap(s, t, w) == a || Swap(s, t, w) == b
    ensures forall i :: 2 <= i < |order| ==> Beside(s, t, keep, order[i], Swap(s, t, w))
  {
    forall i | 2 <= i < |order|
      ensures Beside(s, t, keep, order[i], Swap(s, t, w))
    {
      assert order[0] == a && order[1] == b;
      NoneTwice(order, 0, i);
      NoneTwice(order, 1, i);
      hide Under, Swap, NoDuplicates;
      if Under(s, order[i]) && Swap(s, t, order[i]) == Swap(s, t, w) {
        SwapIsInjective(s, t, order[i], w);
      }
    }
  }

  lemma {:induction false} TwoTurns(m: FlatTree, s: string, t: string, keep: bool, a: string, b: string)
    requires a in m && b in Turn(m, s, t, keep, a)
    ensures TurnAll(m, s, t, keep, [a, b]) == Turn(Turn(m, s, t, keep, a), s, t, keep, b)
  {
    hide Turn;
    assert [] + [a] == [a] && [a] + [b] == [a, b];
    OneTurnMore(m, s, t, keep, [], a);
    OneTurnMore(m, s, t, keep, [a], b);
  }

  /** What the first two turns leave at the image of the chained key, and at the image's
      image. */
  lemma {:induction false} FirstTwo(m: FlatTree, s: string, t: string, keep: bool, k: string)
    requires IsChained(m, s, t, k) && s != t
    ensures var x := Swap(s, t, k);
      var y := Swap(s, t, x);
      var a, b := TurnAll(m, s, t, keep, [k, x]), TurnAll(m, s, t, keep, [x, k]);
      && (!keep ==> x !in a && x in b)
      && (keep ==> y in a && y in b && a[y] == m[k] && b[y] == m[x])
  {
    var x := Swap(s, t, k);
    var y := Swap(s, t, x);
    ThreeKeys(m, s, t, k);
    TurnIs(m, s, t, keep, k);
    TurnIs(m, s, t, keep, x);
    var one, other := Turn(m, s, t, keep, k), Turn(m, s, t, keep, x);
    assert x in one && k in other;
    TurnIs(one, s, t, keep, x);
    TurnIs(other, s, t, keep, k);
    hide Under, Swap, Turn, TurnAll;
    TwoTurns(m, s, t, keep, k, x);
    TwoTurns(m, s, t, keep, x, k);
  }

  lemma {:induction false} PairOfKeys(m: FlatTree, a: string, b: string)
    requires a in m && b in m && a != b
    ensures Elements([a, b]) <= m.Keys && NoDuplicates([a, b])
  {
    assert [] + [a] == [a] && [a] + [b] == [a, b];
    OneMore([], a);
    OneMore([a], b);
  }

  /** With a chained key two orders leave different maps. */
  lemma {:induction false} ChainedDiffers(m: FlatTree, s: string, t: string, keep: bool, k: string)
    requires IsChained(m, s, t, k) && s != t && (keep ==> m[Swap(s, t, k)] != m[k])
    ensures exists a, b :: MayRekey(m, s, t, keep, a) && MayRekey(m, s, t, keep, b) && a != b
  {
    var x := Swap(s, t, k);
    var w := if keep then x else k;
    ThreeKeys(m, s, t, k);
    FirstTwo(m, s, t, keep, k);
    PairOfKeys(m, k, x);
    PairOfKeys(m, x, k);
    hide Swap, Under, TurnAll, NoDuplicates, Elements;
    var one := SnapshotFrom(m, [k, x]);
    var other := SnapshotFrom(m, [x, k]);
    RestIsBeside(s, t, keep, k, x, one, w);
    RestIsBeside(s, t, keep, x, k, other, w);
    LaterTurns(m, s, t, keep, [k, x], one, Swap(s, t, w));
    LaterTurns(m, s, t, keep, [x, k], other, Swap(s, t, w));
    var a, b := TurnAll(m, s, t, keep, one), TurnAll(m, s, t, keep, other);
    assert MayRekey(m, s, t, keep, a) && MayRekey(m, s, t, keep, b);
  }

  ghost predicate HasOneOutcome(m: FlatTree, s: string, t: string, keep: bool) {
    forall a, b :: MayRekey(m, s, t, keep, a) && MayRekey(m, s, t, keep, b) ==> a == b
  }

  /** The order of the keys does not matter exactly if nothing is chained: when moving, no key of
      the source is written over another one; when copying, it is at least written what it
      holds. */
  lemma {:induction false} OneOutcomeExactly(m: FlatTree, s: string, t: string, keep: bool)
    ensures HasOneOutcome(m, s, t, keep) <==> Untangled(m, s, t, keep)
  {
    hide MayRekey;
    if Untangled(m, s, t, keep) {
      forall a, b | MayRekey(m, s, t, keep, a) && MayRekey(m, s, t, keep, b)
        ensures a == b
      {
        OneOutcome(m, s, t, keep, a);
        OneOutcome(m, s, t, keep, b);
      }
    } else {
      var k := ChainedKey(m, s, t, keep);
      ChainedDiffers(m, s, t, keep, k);
    }
  }

  lemma {:induction false} ChainedKey(m: FlatTree, s: string, t: string, keep: bool) returns (k: string)
    requires !Untangled(m, s, t, keep)
    ensures IsChained(m, s, t, k) && s != t && (keep ==> m[Swap(s, t, k)] != m[k])
  {
    hide Under, Swap;
    k :| k in m && IsChained(m, s, t, k) && (keep ==> m[Swap(s, t, k)] != m[k]);
    SwapMoves(s, t, k);
  }
}
