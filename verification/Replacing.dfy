/** What a move or copy with `replace` does where the target's name is taken: the loop writes
    over the old item and removes nothing of it. Nothing is said of where source and target lie:
    either may contain the other. */
module Replacing {
  import opened Options
  import opened Paths
  import opened Naming
  import opened FileTree
  import opened NestedTree
  import opened Refinement
  import opened Subtrees
  import opened Requests
  import opened Effects

  /** Another item than the source is at the target. */
  ghost predicate IsTaken(m: FlatTree, s: string, t: string) {
    s in m && t in m && s != t
  }

  /** A key below the target that is not taken away with the source and that the source has no
      counterpart for. */
  predicate IsLeftOver(m: FlatTree, s: string, t: string, keep: bool, k: string) {
    k in m && Under(t, k) && (keep || !Under(s, k)) && Swap(t, s, k) !in m
  }

  ghost predicate NothingLeftOver(m: FlatTree, s: string, t: string, keep: bool) {
    forall k :: k in m ==> !IsLeftOver(m, s, t, keep, k)
  }

  // ------------------------------------------------------------- replaced, or written over

  /** What the map holds afterwards, key by key. */
  lemma {:induction false} ReplacedAt(m: FlatTree, s: string, t: string, keep: bool, x: string)
    requires s != t
    ensures var m' := Relocated(m, s, t, keep);
      && (x in m' <==> (Under(t, x) && Swap(t, s, x) in m) || (x in m && (keep || !Under(s, x))))
      && (x in m' ==> m'[x] == if Under(t, x) && Swap(t, s, x) in m then m[Swap(t, s, x)] else m[x])
  {
  }

  /** The map with the target, and the source if it moves, taken out. */
  function Cleared(m: FlatTree, s: string, t: string, keep: bool): FlatTree {
    Without(if keep then m else Without(m, s), t)
  }

  lemma {:induction false} ClearedAt(m: FlatTree, s: string, t: string, keep: bool, x: string)
    ensures var m' := Cleared(m, s, t, keep) + Rekeyed(m, s, t);
      && (x in m' <==> (Under(t, x) && Swap(t, s, x) in m) || (x in m && !Under(t, x) && (keep || !Under(s, x))))
      && (x in m' ==> m'[x] == if Under(t, x) && Swap(t, s, x) in m then m[Swap(t, s, x)] else m[x])
  {
  }

  lemma {:induction false} OverlayIsReplacement(m: FlatTree, s: string, t: string, keep: bool)
    requires s != t
    ensures Relocated(m, s, t, keep) == Cleared(m, s, t, keep) + Rekeyed(m, s, t) <==> NothingLeftOver(m, s, t, keep)
  {
    hide Under, Swap, Relocated, Cleared;
    var over, cleared := Relocated(m, s, t, keep), Cleared(m, s, t, keep) + Rekeyed(m, s, t);
    if NothingLeftOver(m, s, t, keep) {
      forall x
        ensures x in over <==> x in cleared
        ensures x in over ==> over[x] == cleared[x]
      {
        ReplacedAt(m, s, t, keep, x);
        ClearedAt(m, s, t, keep, x);
        assert x in m ==> !IsLeftOver(m, s, t, keep, x);
      }
      assert over == cleared;
    }
    if over == cleared {
      forall k | k in m
        ensures !IsLeftOver(m, s, t, keep, k)
      {
        ReplacedAt(m, s, t, keep, k);
        ClearedAt(m, s, t, keep, k);
      }
    }
  }

  /** The tree before with the target taken out, and the source if it moves. */
  ghost function ClearedTree(m: FlatTree, s: string, t: string, keep: bool): Tree
    requires WellFormed(m) && IsKey(s) && IsKey(t)
  {
    Detach(if keep then Nested(m) else Detach(Nested(m), Segments(s)), Segments(t))
  }

  lemma {:induction false} ClearedDetaches(m: FlatTree, s: string, t: string, keep: bool)
    requires WellFormed(m) && IsTaken(m, s, t) && (keep || !Under(s, t))
    ensures IsKey(s) && IsKey(t) && WellFormed(Cleared(m, s, t, keep))
    ensures Nested(Cleared(m, s, t, keep)) == ClearedTree(m, s, t, keep)
  {
    assert IsKey(s) && IsKey(t);
    hide IsKey, WellFormed, Nested, Segments, Under, Without;
    if keep {
      OwnTargetDetaches(m, t);
    } else {
      OwnTargetDetaches(m, s);
      WithoutHas(m, s, t);
      OwnTargetDetaches(Without(m, s), t);
    }
  }

  lemma {:induction false} WithoutHas(m: FlatTree, s: string, k: string)
    requires k in m && !Under(s, k)
    ensures k in Without(m, s)
  {
    hide Under;
  }

  lemma {:induction false} ClearedIsReady(m: FlatTree, s: string, t: string, keep: bool)
    requires WellFormed(m) && IsTaken(m, s, t) && (keep || !Under(s, t))
    ensures IsKey(t) && t !in Cleared(m, s, t, keep) && IsDir(Cleared(m, s, t, keep), ParentOf(t))
  {
    assert IsKey(s) && IsKey(t) && IsDir(m, ParentOf(t));
    hide IsKey, ParentOf, IsDir, WellFormed, Without;
    ParentStaysOut(t);
    NotThere(if keep then m else Without(m, s), t);
    if !keep {
      ParentStaysBeside(s, t);
      FolderOutside(m, s, ParentOf(t));
    }
    FolderOutside(if keep then m else Without(m, s), t, ParentOf(t));
  }

  lemma {:induction false} NotThere(m: FlatTree, t: string)
    ensures t !in Without(m, t)
  {
  }

  /** The map after is the tree before with the target, and the source if it moves, taken out
      and the source's subtree put in the target's place. */
  ghost predicate Replaces(m: FlatTree, m': FlatTree, s: string, t: string, keep: bool)
    requires WellFormed(m) && s in m && IsKey(s) && IsKey(t)
  {
    && WellFormed(m')
    && Nested(m') == Graft(ClearedTree(m, s, t, keep), Segments(t), SubtreeAt(m, s))
  }

  lemma {:induction false} ClearedReplaces(m: FlatTree, s: string, t: string, keep: bool)
    requires WellFormed(m) && IsTaken(m, s, t) && (keep || !Under(s, t))
    ensures IsKey(s) && IsKey(t) && Replaces(m, Cleared(m, s, t, keep) + Rekeyed(m, s, t), s, t, keep)
  {
    hide *;
    ClearedDetaches(m, s, t, keep);
    ClearedIsReady(m, s, t, keep);
    TakenParts(m, s, t);
    RekeyedGrafts(Cleared(m, s, t, keep), m, s, t);
    ReplacesIs(m, Cleared(m, s, t, keep) + Rekeyed(m, s, t), s, t, keep);
  }

  lemma {:induction false} TakenParts(m: FlatTree, s: string, t: string)
    requires IsTaken(m, s, t)
    ensures s in m && t in m && s != t
    ensures WellFormed(m) ==> IsKey(s) && IsKey(t) && IsDir(m, ParentOf(t))
  {
    assert WellFormed(m) ==> IsKey(s) && IsKey(t);
    hide IsKey, ParentOf, IsDir;
  }

  lemma {:induction false} ReplacesIs(m: FlatTree, m': FlatTree, s: string, t: string, keep: bool)
    requires WellFormed(m) && s in m && IsKey(s) && IsKey(t)
    ensures Replaces(m, m', s, t, keep) <==>
      WellFormed(m') && Nested(m') == Graft(ClearedTree(m, s, t, keep), Segments(t), SubtreeAt(m, s))
  {
    hide WellFormed, IsKey, Nested, Graft, Segments, SubtreeAt, ClearedTree;
  }

  /** Only one map does that. */
  lemma {:induction false} OneReplaces(m: FlatTree, a: FlatTree, b: FlatTree, s: string, t: string, keep: bool)
    requires WellFormed(m) && s in m && IsKey(s) && IsKey(t)
    requires Replaces(m, a, s, t, keep) && Replaces(m, b, s, t, keep)
    ensures a == b
  {
    hide WellFormed, IsKey, Nested, Graft, Segments, SubtreeAt, ClearedTree;
    SameTreeSameMap(a, b);
  }

  /** With `replace` an item takes the place of another exactly if it does not move into itself
      and nothing of the other one is left over. */
  lemma {:induction false} ReplacesExactly(m: FlatTree, s: string, t: string, keep: bool)
    requires WellFormed(m) && IsTaken(m, s, t)
    ensures s in m && IsKey(s) && IsKey(t)
    ensures Replaces(m, Relocated(m, s, t, keep), s, t, keep) <==>
      (keep || !Under(s, t)) && NothingLeftOver(m, s, t, keep)
  {
    hide *;
    TakenParts(m, s, t);
    ReplacesIs(m, Relocated(m, s, t, keep), s, t, keep);
    OverlayKeepsExactly(m, s, t, keep);
    NotIntoItself(m, s, t, keep);
    if keep || !Under(s, t) {
      ClearedReplaces(m, s, t, keep);
      OverlayIsReplacement(m, s, t, keep);
      if Replaces(m, Relocated(m, s, t, keep), s, t, keep) {
        OneReplaces(m, Relocated(m, s, t, keep), Cleared(m, s, t, keep) + Rekeyed(m, s, t), s, t, keep);
      }
    }
  }

  /** A file has nothing below it, so putting anything over a file is a replacement. */
  lemma {:induction false} OverFileNothingIsLeft(m: FlatTree, s: string, t: string, keep: bool)
    requires WellFormed(m) && IsTaken(m, s, t) && m[t].File?
    ensures NothingLeftOver(m, s, t, keep)
  {
    SwapSelf(t, s);
    hide IsKey, Under, Swap, ParentOf;
    forall k | k in m
      ensures !IsLeftOver(m, s, t, keep, k)
    {
      if Under(t, k) && k != t {
        AncestorsAreFolders(m, t, k);
      }
    }
  }

  /** Where a request with `replace` puts an item whose name is taken. */
  lemma {:induction false} ReplacedInPlace(m: FlatTree, s: string, dest: string)
    requires WellFormed(m) && s in m && IsCanonical(dest) && JoinPath(dest, NameOf(s)) in m
    requires ParentOf(s) != dest
    ensures var t := JoinPath(dest, NameOf(s));
      && Place(m, s, dest, Replace) == At(t) && IsTaken(m, s, t) && ParentOf(t) == dest
      && (Under(s, t) <==> Under(s, dest))
  {
    var t := JoinPath(dest, NameOf(s));
    JoinOfParentAndName(s);
    ParentAndNameOfJoin(dest, NameOf(s));
    hide IsKey, Under, JoinPath, ParentOf, NameOf;
    UnderChild(s, t);
  }

  // ---------------------------------------------------------------- when nothing is tangled

  /** Source and target beside each other are never tangled. */
  lemma {:induction false} BesideIsUntangled(m: FlatTree, s: string, t: string, keep: bool)
    requires !Under(s, t) && !Under(t, s)
    ensures Untangled(m, s, t, keep)
  {
    forall k | k in m
      ensures !IsChained(m, s, t, k)
    {
      if IsChained(m, s, t, k) {
        SwapBack(s, t, k);
        UnderLinear(s, t, Swap(s, t, k));
      }
    }
  }

  // ------------------------------------------------------------------ what is left broken

  /** Something left over whose folder has become a file. */
  predicate LosesFolder(m: FlatTree, s: string, t: string, keep: bool, k: string) {
    && IsLeftOver(m, s, t, keep, k) && Under(t, ParentOf(k))
    && Swap(t, s, ParentOf(k)) in m && m[Swap(t, s, ParentOf(k))].File?
  }

  /** Nothing is moved into itself and nothing left over loses its folder. */
  ghost predicate KeepsFolders(m: FlatTree, s: string, t: string, keep: bool) {
    (keep || !Under(s, t)) && forall k :: k in m ==> !LosesFolder(m, s, t, keep, k)
  }

  lemma {:induction false} NotIntoItself(m: FlatTree, s: string, t: string, keep: bool)
    ensures KeepsFolders(m, s, t, keep) ==> keep || !Under(s, t)
  {
    hide LosesFolder;
  }

  lemma {:induction false} LeftOverHasParent(m: FlatTree, s: string, t: string, keep: bool, k: string)
    requires WellFormed(m) && IsTaken(m, s, t) && IsLeftOver(m, s, t, keep, k)
    ensures Under(t, ParentOf(k)) && ParentOf(k) in m && m[ParentOf(k)].Folder? && (keep || !Under(s, ParentOf(k)))
  {
    assert k != t by { SwapSelf(t, s); }
    assert IsKey(k) && IsKey(t) && IsKey(s);
    hide Under, Swap, ParentOf, IsKey;
    ParentStaysUnder(t, k);
    if !keep {
      ParentStaysBeside(s, k);
    }
  }

  lemma {:induction false} SwapSelf(from: string, to: string)
    ensures Under(from, from) && Swap(from, to, from) == to
  {
  }

  lemma {:induction false} SwapParent(s: string, t: string, y: string)
    requires IsKey(s) && IsKey(t) && IsKey(y) && Under(s, y) && y != s
    ensures Under(s, ParentOf(y)) && ParentOf(Swap(s, t, y)) == Swap(s, t, ParentOf(y))
  {
    ParentStaysUnder(s, y);
    JoinOfParentAndName(y);
    RootIsNotAKey(t);
    var p, name := ParentOf(y), NameOf(y);
    assert Swap(s, t, y) == Swap(s, t, p) + "/" + name;
    SwapIsKey(s, t, p);
    hide Under, Swap, ParentOf, NameOf, Segments;
    RootIsNotAKey(Swap(s, t, p));
    ParentAndNameOfJoin(Swap(s, t, p), name);
  }

  lemma {:induction false} SwapIsKey(s: string, t: string, k: string)
    requires IsKey(s) && IsKey(t) && IsKey(k) && Under(s, k)
    ensures IsKey(Swap(s, t, k))
  {
    var a, b, c := Segments(s), Segments(t), Segments(k);
    UnderIsSegmentPrefix(s, k);
    RenderIsKey(b);
    var path := b + c[|a|..];
    RenderConcat(b, c[|a|..]);
    assert k[|s|..] == Render(c[|a|..]);
    hide Segments, Under;
    RenderIsKey(path);
  }

  lemma {:induction false} OverlayKeysAreKeys(m: FlatTree, s: string, t: string, keep: bool, x: string)
    requires WellFormed(m) && IsTaken(m, s, t) && x in Relocated(m, s, t, keep)
    ensures IsKey(x)
  {
    ReplacedAt(m, s, t, keep, x);
    if Under(t, x) && Swap(t, s, x) in m {
      SwapBack(t, s, x);
      hide IsKey, Swap, Under, Relocated;
      SwapIsKey(s, t, Swap(t, s, x));
    }
  }

  /** The parent of a key that was written by the loop. */
  lemma {:induction false} WrittenHasParent(m: FlatTree, s: string, t: string, keep: bool, x: string)
    requires WellFormed(m) && IsTaken(m, s, t) && (keep || !Under(s, t)) && Under(t, x) && Swap(t, s, x) in m
    ensures IsDir(Relocated(m, s, t, keep), ParentOf(x))
  {
    var y := Swap(t, s, x);
    SwapBack(t, s, x);
    hide IsKey, Relocated, Swap, Under, ParentOf;
    SwapSelf(s, t);
    if y == s {
      OutsideParentStays(m, s, t, keep, t);
    } else {
      SwapParent(s, t, y);
      SwapBack(s, t, ParentOf(y));
      ReplacedAt(m, s, t, keep, ParentOf(x));
      UnderIsNotRoot(s, ParentOf(y));
    }
  }

  lemma {:induction false} UnderIsNotRoot(s: string, k: string)
    requires IsKey(s) && Under(s, k)
    ensures k != "/"
  {
    RootIsNotAKey(s);
  }

  /** A parent outside the target, of something that is not taken away, stays a folder. */
  lemma {:induction false} OutsideParentStays(m: FlatTree, s: string, t: string, keep: bool, x: string)
    requires WellFormed(m) && IsTaken(m, s, t) && x in m && (keep || !Under(s, x))
    requires x == t || !Under(t, ParentOf(x))
    ensures IsDir(Relocated(m, s, t, keep), ParentOf(x))
  {
    var p := ParentOf(x);
    assert IsKey(s) && IsKey(t) && IsKey(x) && IsDir(m, p);
    hide IsKey, Relocated, Swap, ParentOf, Under;
    if x == t {
      ParentStaysOut(t);
    }
    if !keep {
      ParentStaysBeside(s, x);
    }
    if p != "/" {
      ReplacedAt(m, s, t, keep, p);
    }
  }

  lemma {:induction false} LeftOverParent(m: FlatTree, s: string, t: string, keep: bool, k: string)
    requires WellFormed(m) && IsTaken(m, s, t) && IsLeftOver(m, s, t, keep, k)
    ensures k in Relocated(m, s, t, keep)
    ensures IsDir(Relocated(m, s, t, keep), ParentOf(k)) <==> !LosesFolder(m, s, t, keep, k)
  {
    LeftOverHasParent(m, s, t, keep, k);
    assert IsKey(t);
    hide IsKey, Relocated, Swap, ParentOf, Under;
    UnderIsNotRoot(t, ParentOf(k));
    ReplacedAt(m, s, t, keep, k);
    ReplacedAt(m, s, t, keep, ParentOf(k));
  }

  /** Moved into itself, an item is below no folder, whatever was there. */
  lemma {:induction false} InsideIsOrphaned(m: FlatTree, s: string, t: string)
    requires WellFormed(m) && IsTaken(m, s, t) && Under(s, t)
    ensures t in Relocated(m, s, t, false) && !IsDir(Relocated(m, s, t, false), ParentOf(t)) && IsKey(t)
  {
    assert IsKey(s) && IsKey(t);
    hide IsKey, Relocated, Swap, ParentOf, Under;
    ParentStaysUnder(s, t);
    SwapSelf(t, s);
    ReplacedAt(m, s, t, false, t);
    ReplacedAt(m, s, t, false, ParentOf(t));
  }

  /** Written over another item, the tree stays well-formed exactly if nothing is moved into itself
      and nothing left over loses its folder to a file. */
  lemma {:induction false} OverlayKeepsExactly(m: FlatTree, s: string, t: string, keep: bool)
    requires WellFormed(m) && IsTaken(m, s, t)
    ensures WellFormed(Relocated(m, s, t, keep)) <==> KeepsFolders(m, s, t, keep)
  {
    hide IsKey, Relocated, Swap, ParentOf, Under, LosesFolder, IsLeftOver, IsTaken;
    var m' := Relocated(m, s, t, keep);
    if WellFormed(m') {
      if !keep && Under(s, t) {
        InsideIsOrphaned(m, s, t);
      }
      forall k | k in m
        ensures !LosesFolder(m, s, t, keep, k)
      {
        assert k in m' ==> IsKey(k);
        if LosesFolder(m, s, t, keep, k) {
          LosesIsLeftOver(m, s, t, keep, k);
          LeftOverParent(m, s, t, keep, k);
        }
      }
    }
    if KeepsFolders(m, s, t, keep) {
      forall x | x in m'
        ensures IsKey(x) && IsDir(m', ParentOf(x))
      {
        OverlayKeysAreKeys(m, s, t, keep, x);
        LosesIsLeftOver(m, s, t, keep, x);
        OverlayParent(m, s, t, keep, x);
      }
    }
  }

  lemma {:induction false} LosesIsLeftOver(m: FlatTree, s: string, t: string, keep: bool, k: string)
    ensures LosesFolder(m, s, t, keep, k) ==> k in m && IsLeftOver(m, s, t, keep, k)
  {
  }

  lemma {:induction false} OverlayParent(m: FlatTree, s: string, t: string, keep: bool, x: string)
    requires WellFormed(m) && IsTaken(m, s, t) && (keep || !Under(s, t))
    requires x in Relocated(m, s, t, keep) && !LosesFolder(m, s, t, keep, x)
    ensures IsDir(Relocated(m, s, t, keep), ParentOf(x))
  {
    ReplacedAt(m, s, t, keep, x);
    hide IsKey, Relocated, Swap, ParentOf, Under, LosesFolder, IsDir;
    if Under(t, x) && Swap(t, s, x) in m {
      WrittenHasParent(m, s, t, keep, x);
    } else if Under(t, x) {
      LeftOverParent(m, s, t, keep, x);
    } else {
      ParentStaysBeside(t, x);
      OutsideParentStays(m, s, t, keep, x);
    }
  }
}
