/** The mock server's storage: one flat map from path to node. Folders own nothing; that
    a folder has content is only said by longer keys. Modification times are not kept. */
module FileTree {
  import opened Paths

  newtype byte = b: int | 0 <= b < 256
  type Bytes = seq<byte>

  datatype Node = Folder | File(data: Bytes)

  type FlatTree = map<string, Node>

  /** The server's `isDir`. The root has no key. */
  predicate IsDir(m: FlatTree, p: string) {
    p == "/" || (p in m && m[p].Folder?)
  }

  /** What every key was meant to satisfy: it is canonical and its parent is a folder. */
  ghost predicate WellFormed(m: FlatTree) {
    forall k {:trigger IsKey(k)} :: k in m ==> IsKey(k) && IsDir(m, ParentOf(k))
  }

  /** No key is at or below `t`. */
  ghost predicate FreeAt(m: FlatTree, t: string) {
    forall k :: k in m ==> !Under(t, k)
  }

  /** In a well-formed map every proper ancestor of a key is a folder key. */
  lemma {:induction false} AncestorsAreFolders(m: FlatTree, a: string, k: string)
    requires WellFormed(m) && IsKey(a) && k in m && Under(a, k) && a != k
    ensures a in m && m[a].Folder?
    decreases |Segments(k)|
  {
    assert IsKey(k) && IsDir(m, ParentOf(k));
    hide *;
    ProperAncestor(a, k);
    FolderHere(m, ParentOf(k));
    if ParentOf(k) != a {
      AncestorsAreFolders(m, a, ParentOf(k));
    }
  }

  lemma {:induction false} FolderHere(m: FlatTree, p: string)
    requires IsDir(m, p) && p != "/"
    ensures p in m && m[p].Folder?
  {
  }

  /** What is properly above a key is above its parent. */
  lemma {:induction false} ProperAncestor(a: string, k: string)
    requires IsKey(a) && IsKey(k) && Under(a, k) && a != k
    ensures ParentOf(k) != "/" && IsKey(ParentOf(k)) && Under(a, ParentOf(k))
    ensures |Segments(ParentOf(k))| < |Segments(k)|
  {
    var p := ParentOf(k);
    KeySegments(a);
    KeySegments(k);
    hide IsKey, Segments, Render, Under, ParentOf, NameOf, JoinPath, Absolute;
    JoinOfParentAndName(k);
    UnderIsSegmentPrefix(a, k);
    CanonicalIsAbsolute(p);
    assert Segments(a) == Segments(k) ==> a == k;
    assert Segments(a) <= Segments(p);
    assert IsKey(p);
    UnderIsSegmentPrefix(a, p);
  }

  lemma {:induction false} KeySegments(k: string)
    requires IsKey(k)
    ensures Segments(k) != [] && Render(Segments(k)) == k
  {
    hide Segments, Render;
  }

  /** The fact behind every `tree.has(target)` test: an absent key of a well-formed map
      has nothing below it either. */
  lemma {:induction false} AbsentIsFree(m: FlatTree, t: string)
    requires WellFormed(m) && IsKey(t) && t !in m
    ensures FreeAt(m, t)
  {
    forall k | k in m
      ensures !Under(t, k)
    {
      if Under(t, k) {
        AncestorsAreFolders(m, t, k);
      }
    }
  }

  // --------------------------------------------------------------- re-keying a subtree

  function Without(m: FlatTree, s: string): FlatTree {
    map k | k in m && !Under(s, k) :: m[k]
  }

  /** The path `k` below `from`, with that prefix replaced by `to`. */
  function Swap(from: string, to: string, k: string): string
    requires Under(from, k)
  {
    to + k[|from|..]
  }

  lemma {:induction false} SwapBack(from: string, to: string, k: string)
    requires Under(from, k)
    ensures Under(to, Swap(from, to, k)) && Swap(to, from, Swap(from, to, k)) == k
  {
  }

  /** The subtree at `s`, keyed as if it lay at `t`. */
  function Rekeyed(m: FlatTree, s: string, t: string): (r: FlatTree)
    ensures forall x :: x in r <==> Under(t, x) && Swap(t, s, x) in m
    ensures forall x :: x in r ==> r[x] == m[Swap(t, s, x)]
  {
    var keys := set k | k in m && Under(s, k) :: Swap(s, t, k);
    assert forall x :: x in keys <==> Under(t, x) && Swap(t, s, x) in m by {
      forall x | x in keys
        ensures Under(t, x) && Swap(t, s, x) in m
      {
        var k :| k in m && Under(s, k) && x == Swap(s, t, k);
        SwapBack(s, t, k);
      }
      forall x | Under(t, x) && Swap(t, s, x) in m
        ensures x in keys
      {
        SwapBack(t, s, x);
      }
    }
    map x | x in keys :: m[Swap(t, s, x)]
  }

  function Moved(m: FlatTree, s: string, t: string): FlatTree {
    Without(m, s) + Rekeyed(m, s, t)
  }

  function Copied(m: FlatTree, s: string, t: string): FlatTree {
    m + Rekeyed(m, s, t)
  }

  /** What the re-keying loop leaves: with the source as its own target, each key is set
      to itself and then deleted. */
  function Relocated(m: FlatTree, s: string, t: string, keep: bool): FlatTree {
    if keep then (if s == t then m else Copied(m, s, t))
    else if s == t then Without(m, s)
    else Moved(m, s, t)
  }

  /** The loop writes the key `k` of the source over a key of the source. */
  predicate IsChained(m: FlatTree, s: string, t: string, k: string) {
    k in m && Under(s, k) && Swap(s, t, k) in m && Under(s, Swap(s, t, k))
  }

  /** No key of the source is also a place the loop writes to, or at least it is written what
      it holds. `Snapshots.OneOutcomeExactly`: this is exactly when the order of the key
      snapshot does not matter. */
  ghost predicate Untangled(m: FlatTree, s: string, t: string, keep: bool) {
    if keep then forall k :: k in m && IsChained(m, s, t, k) ==> m[Swap(s, t, k)] == m[k]
    else s == t || forall k :: k in m ==> !IsChained(m, s, t, k)
  }

  lemma {:induction false} SelfIsUntangled(m: FlatTree, s: string, keep: bool)
    ensures Untangled(m, s, s, keep)
  {
    hide Under, Swap;
    forall k | k in m && IsChained(m, s, s, k)
      ensures Swap(s, s, k) == k
    {
      SwapMoves(s, s, k);
    }
  }

  lemma {:induction false} FreeIsUntangled(m: FlatTree, s: string, t: string, keep: bool)
    requires FreeAt(m, t)
    ensures Untangled(m, s, t, keep)
  {
    hide Under, Swap;
    forall k | k in m
      ensures !IsChained(m, s, t, k)
    {
      if Under(s, k) {
        SwapBack(s, t, k);
      }
    }
  }

  function Only(m: FlatTree, keys: set<string>): FlatTree {
    map k | k in m && k in keys :: m[k]
  }

  lemma {:induction false} RekeyedStep(m: FlatTree, done: set<string>, s: string, t: string, k: string)
    requires k in m && k !in done
    ensures Rekeyed(Only(m, done + {k}), s, t) ==
      if Under(s, k) then Rekeyed(Only(m, done), s, t)[Swap(s, t, k) := m[k]] else Rekeyed(Only(m, done), s, t)
  {
    hide Under, Swap, Rekeyed, Only;
    var before, after := Rekeyed(Only(m, done), s, t), Rekeyed(Only(m, done + {k}), s, t);
    if Under(s, k) {
      SwapBack(s, t, k);
    }
    forall x
      ensures x in after <==> x in before || (Under(s, k) && x == Swap(s, t, k))
      ensures x in after ==> Swap(t, s, x) in m && after[x] == m[Swap(t, s, x)]
      ensures x in before ==> Swap(t, s, x) in m && before[x] == m[Swap(t, s, x)] && Swap(t, s, x) != k
    {
      OnlyHas(m, done, k, if Under(t, x) then Swap(t, s, x) else k);
      if Under(t, x) {
        SwapBack(t, s, x);
      }
    }
  }

  lemma {:induction false} OnlyHas(m: FlatTree, done: set<string>, k: string, y: string)
    requires k in m && k !in done
    ensures y in Only(m, done) <==> y in m && y in done
    ensures y in Only(m, done + {k}) <==> y in Only(m, done) || y == k
    ensures y in Only(m, done + {k}) ==> Only(m, done + {k})[y] == m[y]
    ensures y in Only(m, done) ==> Only(m, done)[y] == m[y]
  {
  }

  /** The old keys that remain after the keys in `done`. */
  function Left(m: FlatTree, done: set<string>, s: string, keep: bool): FlatTree {
    if keep then m else map k | k in m && !(k in done && Under(s, k)) :: m[k]
  }

  /** What the loop has made of the map after the keys in `done`. */
  ghost function Partly(m: FlatTree, done: set<string>, s: string, t: string, keep: bool): FlatTree {
    if s == t then Left(m, done, s, keep) else Left(m, done, s, keep) + Rekeyed(Only(m, done), s, t)
  }

  /** One turn of the loop: set the key below the target, then delete the old one. */
  function Turn(now: FlatTree, s: string, t: string, keep: bool, k: string): FlatTree
    requires k in now
  {
    if !Under(s, k) then now
    else
      var written := now[Swap(s, t, k) := now[k]];
      if keep then written else written - {k}
  }

  lemma {:induction false} LeftStep(m: FlatTree, done: set<string>, s: string, keep: bool, k: string)
    requires k in m && k !in done
    ensures k in Left(m, done, s, keep) && Left(m, done, s, keep)[k] == m[k]
    ensures Left(m, done + {k}, s, keep) ==
      if keep || !Under(s, k) then Left(m, done, s, keep) else Left(m, done, s, keep) - {k}
  {
    hide Under;
  }

  lemma {:induction false} TurnIs(now: FlatTree, s: string, t: string, keep: bool, k: string)
    requires k in now
    ensures !Under(s, k) ==> Turn(now, s, t, keep, k) == now
    ensures Under(s, k) ==>
      Turn(now, s, t, keep, k) == (if keep then now[Swap(s, t, k) := now[k]] else now[Swap(s, t, k) := now[k]] - {k})
  {
  }

  lemma {:induction false} PartlyStep(m: FlatTree, done: set<string>, s: string, t: string, keep: bool, k: string)
    requires Untangled(m, s, t, keep)
    requires done <= m.Keys && k in m && k !in done
    ensures k in Partly(m, done, s, t, keep)
    ensures Partly(m, done + {k}, s, t, keep) == Turn(Partly(m, done, s, t, keep), s, t, keep, k)
  {
    hide Untangled, Under, Swap, Rekeyed, Left, Only, Turn;
    LeftStep(m, done, s, keep, k);
    var left, r := Left(m, done, s, keep), Rekeyed(Only(m, done), s, t);
    RekeyedStep(m, done, s, t, k);
    TurnIs(Partly(m, done, s, t, keep), s, t, keep, k);
    if Under(s, k) {
      SwapMoves(s, t, k);
      if s == t {
        assert left[k := left[k]] == left;
      } else {
        WrittenBefore(m, done, s, t, keep, k);
        if keep {
          WriteOver(left, r, Swap(s, t, k), k);
        } else {
          WriteThenDelete(left, r, Swap(s, t, k), k);
        }
      }
    }
  }

  lemma {:induction false} SwapMoves(s: string, t: string, k: string)
    requires Under(s, k)
    ensures Swap(s, t, k) == k <==> s == t
  {
    var x := Swap(s, t, k);
    assert x[..|t|] == t && k[..|s|] == s;
  }

  /** If an earlier turn has written to a key of the source, it has written what was there. */
  lemma {:induction false} WrittenBefore(m: FlatTree, done: set<string>, s: string, t: string, keep: bool, k: string)
    requires Untangled(m, s, t, keep) && s != t
    requires done <= m.Keys && k in m && k !in done && Under(s, k)
    ensures k in Rekeyed(Only(m, done), s, t) ==> keep && Rekeyed(Only(m, done), s, t)[k] == m[k]
  {
    hide Under, Swap, Rekeyed;
    if k in Rekeyed(Only(m, done), s, t) {
      var j := Swap(t, s, k);
      SwapBack(t, s, k);
      assert IsChained(m, s, t, j);
    }
  }

  lemma {:induction false} WriteOver(left: FlatTree, r: FlatTree, to: string, k: string)
    requires k in left && (k in r ==> r[k] == left[k])
    ensures (left + r)[to := (left + r)[k]] == left + r[to := left[k]]
  {
  }

  lemma {:induction false} WriteThenDelete(left: FlatTree, r: FlatTree, to: string, k: string)
    requires k in left && k !in r && k != to
    ensures (left + r)[to := (left + r)[k]] == left + r[to := left[k]]
    ensures (left + r)[to := (left + r)[k]] - {k} == (left - {k}) + r[to := left[k]]
  {
  }

  /** The two maps agree on every key that is neither below `s` nor below `t`. */
  ghost predicate SameOutside(m: FlatTree, m': FlatTree, s: string, t: string) {
    forall k :: !Under(s, k) && !Under(t, k) ==>
      (k in m' <==> k in m) && (k in m ==> m'[k] == m[k])
  }

  lemma {:induction false} TurnStaysInside(m: FlatTree, now: FlatTree, s: string, t: string, keep: bool, k: string)
    requires k in now && SameOutside(m, now, s, t)
    ensures SameOutside(m, Turn(now, s, t, keep, k), s, t)
  {
  }

  lemma {:induction false} TurnKeepsOthers(now: FlatTree, s: string, t: string, keep: bool, k: string)
    requires k in now
    ensures now.Keys - {k} <= Turn(now, s, t, keep, k).Keys
  {
  }

  lemma {:induction false} PartlyAll(m: FlatTree, s: string, t: string, keep: bool)
    ensures Partly(m, m.Keys, s, t, keep) == Relocated(m, s, t, keep)
  {
  }
}
