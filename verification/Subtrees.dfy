/** What re-keying a subtree of the flat map does to the nested tree it stands for. */
module Subtrees {
  import opened Options
  import opened Paths
  import opened FileTree
  import opened NestedTree
  import opened Refinement

  /** The subtree a stored path denotes. */
  ghost function SubtreeAt(m: FlatTree, s: string): (sub: Tree)
    requires WellFormed(m) && s in m
    ensures forall q :: NodeAt(sub, q) == FlatAt(m, Segments(s) + q)
  {
    assert IsKey(s);
    RenderIsKey(Segments(s));
    assert forall q :: NodeAt(Nest(m, Segments(s)), q) == FlatAt(m, Segments(s) + q) by {
      hide *;
      forall q {
        NestSees(m, Segments(s), q);
      }
    }
    Nest(m, Segments(s))
  }

  lemma {:induction false} SubtreeIsLookup(m: FlatTree, s: string)
    requires WellFormed(m) && s in m
    ensures Lookup(Nested(m), Segments(s)) == Some(SubtreeAt(m, s))
  {
    assert IsKey(s);
    hide IsKey, Segments, Nested, SubtreeAt, FlatAt, NodeAt, Lookup, WellFormed, Represents;
    NestedRepresents(m);
    RepresentedAt(m, Nested(m), Segments(s));
    KeyIsSeen(m, s);
    SeenIsFound(Nested(m), Segments(s));
    var found := Lookup(Nested(m), Segments(s)).value;
    forall q
      ensures NodeAt(found, q) == NodeAt(SubtreeAt(m, s), q)
    {
      SeenBelow(Nested(m), Segments(s), found, q);
      RepresentedAt(m, Nested(m), Segments(s) + q);
    }
    SameNodesSameTree(found, SubtreeAt(m, s));
  }

  lemma {:induction false} KeyIsSeen(m: FlatTree, s: string)
    requires IsKey(s) && s in m
    ensures FlatAt(m, Segments(s)).Some?
  {
    hide Segments, Render;
  }

  lemma {:induction false} SeenIsFound(t: Tree, path: seq<string>)
    requires NodeAt(t, path).Some?
    ensures Lookup(t, path).Some?
  {
    hide Lookup;
  }

  // ------------------------------------------------------- the flat map, seen by segments

  lemma {:induction false} SwapIsSegmentwise(s: string, t: string, path: seq<string>)
    requires IsKey(s) && IsKey(t) && path != [] && AreSegments(path) && Segments(t) <= path
    ensures Under(t, Render(path))
    ensures Swap(t, s, Render(path)) == Render(Segments(s) + path[|Segments(t)|..])
    ensures AreSegments(Segments(s) + path[|Segments(t)|..])
  {
    RenderIsKey(path);
    UnderIsSegmentPrefix(t, Render(path));
    RenderConcat(Segments(s), path[|Segments(t)|..]);
  }

  lemma {:induction false} RekeyedAt(m: FlatTree, s: string, t: string, path: seq<string>)
    requires IsKey(s) && IsKey(t) && path != [] && AreSegments(path)
    ensures Render(path) in Rekeyed(m, s, t) <==>
      Segments(t) <= path && FlatAt(m, Segments(s) + path[|Segments(t)|..]).Some?
    ensures Render(path) in Rekeyed(m, s, t) ==>
      Some(Rekeyed(m, s, t)[Render(path)]) == FlatAt(m, Segments(s) + path[|Segments(t)|..])
  {
    RenderIsKey(path);
    UnderIsSegmentPrefix(t, Render(path));
    if Segments(t) <= path {
      SwapIsSegmentwise(s, t, path);
    }
  }

  lemma {:induction false} TailSegments(a: seq<string>, b: seq<string>, path: seq<string>)
    requires AreSegments(a) && AreSegments(b) && b <= path
    ensures AreSegments(a + path[|b|..]) <==> AreSegments(path)
  {
  }

  /** The re-keyed subtree laid over a map that has nothing at its place. */
  lemma {:induction false} LaidAt(base: FlatTree, m: FlatTree, s: string, t: string, path: seq<string>)
    requires IsKey(s) && IsKey(t) && FreeAt(base, t)
    ensures FlatAt(base + Rekeyed(m, s, t), path) ==
      if Segments(t) <= path then FlatAt(m, Segments(s) + path[|Segments(t)|..]) else FlatAt(base, path)
  {
    RenderIsKey(Segments(t));
    if path != [] && AreSegments(path) {
      RekeyedAt(m, s, t, path);
      RenderIsKey(path);
      UnderIsSegmentPrefix(t, Render(path));
    } else if Segments(t) <= path {
      TailSegments(Segments(s), Segments(t), path);
    }
  }

  lemma {:induction false} WithoutAt(m: FlatTree, s: string, path: seq<string>)
    requires IsKey(s)
    ensures FlatAt(Without(m, s), path) == if Segments(s) <= path then None else FlatAt(m, path)
  {
    RenderIsKey(Segments(s));
    if path != [] && AreSegments(path) {
      RenderIsKey(path);
      UnderIsSegmentPrefix(s, Render(path));
    }
  }

  lemma {:induction false} RekeyedKeysAreKeys(m: FlatTree, s: string, t: string)
    requires WellFormed(m) && IsKey(s) && IsKey(t)
    ensures forall x :: x in Rekeyed(m, s, t) ==> IsKey(x)
  {
    forall x | x in Rekeyed(m, s, t)
      ensures IsKey(x)
    {
      var k := Swap(t, s, x);
      SwapBack(t, s, x);
      UnderIsSegmentPrefix(s, k);
      var path := Segments(t) + Segments(k)[|Segments(s)|..];
      RenderConcat(Segments(t), Segments(k)[|Segments(s)|..]);
      RenderIsKey(Segments(t));
      RenderIsKey(path);
      assert x == Render(path);
    }
  }

  lemma {:induction false} FolderAbove(m: FlatTree, t: string)
    requires IsKey(t) && IsDir(m, ParentOf(t))
    ensures FlatAt(m, Segments(t)[..|Segments(t)| - 1]) == Some(Folder)
  {
    JoinOfParentAndName(t);
    CanonicalIsAbsolute(ParentOf(t));
    assert Segments(t)[..|Segments(t)| - 1] == Segments(ParentOf(t));
  }

  // -------------------------------------------------------------------- the four effects

  /** A re-keyed subtree laid over a map that has nothing at its place and a folder above it
      is the subtree grafted there. */
  lemma {:induction false} RekeyedGrafts(base: FlatTree, m: FlatTree, s: string, t: string)
    requires WellFormed(base) && WellFormed(m) && s in m
    requires IsKey(t) && t !in base && IsDir(base, ParentOf(t))
    ensures WellFormed(base + Rekeyed(m, s, t))
    ensures Nested(base + Rekeyed(m, s, t)) == Graft(Nested(base), Segments(t), SubtreeAt(m, s))
  {
    AbsentIsFree(base, t);
    RekeyedKeysAreKeys(m, s, t);
    NestedRepresents(base);
    var tree := Graft(Nested(base), Segments(t), SubtreeAt(m, s));
    forall p
      ensures NodeAt(tree, p) == FlatAt(base + Rekeyed(m, s, t), p)
    {
      LaidSeen(base, Nested(base), m, s, t, SubtreeAt(m, s), p);
    }
    RepresentedIsNested(base + Rekeyed(m, s, t), tree);
  }

  lemma {:induction false} LaidSeen(base: FlatTree, whole: Tree, m: FlatTree, s: string, t: string, sub: Tree,
                                    p: seq<string>)
    requires Represents(base, whole) && (forall q :: NodeAt(sub, q) == FlatAt(m, Segments(s) + q))
    requires IsKey(s) && IsKey(t) && FreeAt(base, t) && IsDir(base, ParentOf(t))
    ensures NodeAt(Graft(whole, Segments(t), sub), p) == FlatAt(base + Rekeyed(m, s, t), p)
  {
    var S, T := Segments(s), Segments(t);
    RepresentedAt(base, whole, T[..|T| - 1]);
    RepresentedAt(base, whole, p);
    assert T <= p ==> NodeAt(sub, p[|T|..]) == FlatAt(m, S + p[|T|..]);
    FolderAbove(base, t);
    hide *;
    LaidAt(base, m, s, t, p);
    FolderThere(whole, T[..|T| - 1]);
    NodeAtGraft(whole, T, sub, p);
  }

  /** Copying to a free place below a folder grafts exactly the subtree as it was, even
      into the source's own descendant. */
  lemma {:induction false} CopyGrafts(m: FlatTree, s: string, t: string)
    requires WellFormed(m) && s in m && IsKey(t) && t !in m && IsDir(m, ParentOf(t))
    ensures WellFormed(Copied(m, s, t))
    ensures Nested(Copied(m, s, t)) == Graft(Nested(m), Segments(t), SubtreeAt(m, s))
  {
    hide WellFormed, IsKey, ParentOf, Nested, Graft, Segments, SubtreeAt, Rekeyed;
    RekeyedGrafts(m, m, s, t);
  }

  lemma {:induction false} FolderOutside(m: FlatTree, s: string, d: string)
    requires IsDir(m, d) && !Under(s, d)
    ensures IsDir(Without(m, s), d)
  {
    hide Under;
  }

  /** Moving to a free place below a folder that is not inside the source detaches exactly
      one subtree and grafts it there. */
  lemma {:induction false} MoveGrafts(m: FlatTree, s: string, t: string)
    requires WellFormed(m) && s in m && IsKey(t) && t !in m && IsDir(m, ParentOf(t)) && !Under(s, t)
    ensures IsKey(s) && WellFormed(Moved(m, s, t))
    ensures Nested(Moved(m, s, t)) == Graft(Detach(Nested(m), Segments(s)), Segments(t), SubtreeAt(m, s))
  {
    hide WellFormed, IsKey, ParentOf, Nested, Graft, Detach, Segments, SubtreeAt, Rekeyed;
    OwnTargetDetaches(m, s);
    ParentStaysBeside(s, t);
    FolderOutside(m, s, ParentOf(t));
    RekeyedGrafts(Without(m, s), m, s, t);
  }

  lemma {:induction false} ParentStaysBeside(s: string, t: string)
    requires IsKey(s) && IsKey(t) && !Under(s, t)
    ensures !Under(s, ParentOf(t))
  {
    if Under(s, ParentOf(t)) {
      RootIsNotAKey(s);
      JoinOfParentAndName(t);
      UnderTransitive(s, ParentOf(t), t);
    }
  }

  lemma {:induction false} RepresentedAt(m: FlatTree, whole: Tree, p: seq<string>)
    requires Represents(m, whole)
    ensures NodeAt(whole, p) == FlatAt(m, p)
  {
    hide NodeAt, FlatAt;
  }

  lemma {:induction false} FolderThere(t: Tree, p: seq<string>)
    ensures IsFolderAt(t, p) <==> NodeAt(t, p) == Some(Folder)
  {
    hide NodeAt;
  }

  /** A source that is its own target loses its whole subtree. */
  lemma {:induction false} OwnTargetDetaches(m: FlatTree, s: string)
    requires WellFormed(m) && s in m
    ensures IsKey(s) && WellFormed(Without(m, s))
    ensures Nested(Without(m, s)) == Detach(Nested(m), Segments(s))
  {
    NestedRepresents(m);
    var tree := Detach(Nested(m), Segments(s));
    forall p
      ensures NodeAt(tree, p) == FlatAt(Without(m, s), p)
    {
      WithoutAt(m, s, p);
      assert NodeAt(Nested(m), p) == FlatAt(m, p);
      NodeAtDetach(Nested(m), Segments(s), p);
    }
    RepresentedIsNested(Without(m, s), tree);
  }

  /** A target inside the source leaves keys without a folder above them: the items still
      exist, and no listing reaches them. */
  lemma {:induction false} InnerTargetOrphans(m: FlatTree, s: string, t: string)
    requires WellFormed(m) && s in m && IsKey(t) && t !in m && Under(s, t)
    ensures !WellFormed(Moved(m, s, t))
    ensures t in Moved(m, s, t) && !IsDir(Moved(m, s, t), ParentOf(t))
  {
    AbsentIsFree(m, t);
    ParentStaysUnder(s, t);
    SwapBack(t, s, t);
    assert Swap(t, s, t) == s;
    hide Under, Swap, Segments;
  }

  lemma {:induction false} ParentStaysUnder(s: string, t: string)
    requires IsKey(s) && IsKey(t) && Under(s, t) && s != t
    ensures ParentOf(t) != "/" && Under(s, ParentOf(t)) && !Under(t, ParentOf(t))
  {
    var p := ParentOf(t);
    UnderIsSegmentPrefix(s, t);
    JoinOfParentAndName(t);
    RenderIsKey(Segments(s));
    RenderIsKey(Segments(t));
    assert Segments(s) != Segments(t);
    assert Segments(s) <= Segments(p);
    CanonicalIsAbsolute(p);
    UnderIsSegmentPrefix(s, p);
    UnderIsSegmentPrefix(t, p);
  }

  /** A new file or folder below a folder is grafted there. */
  lemma {:induction false} InsertGrafts(m: FlatTree, t: string, node: Node)
    requires WellFormed(m) && IsKey(t) && t !in m && IsDir(m, ParentOf(t))
    ensures WellFormed(m[t := node])
    ensures Nested(m[t := node]) ==
      Graft(Nested(m), Segments(t), Alone(node))
  {
    AbsentIsFree(m, t);
    NestedRepresents(m);
    FolderAbove(m, t);
    var T := Segments(t);
    var tree := Graft(Nested(m), T, Alone(node));
    forall p
      ensures NodeAt(tree, p) == FlatAt(m[t := node], p)
    {
      assert NodeAt(Nested(m), T[..|T| - 1]) == FlatAt(m, T[..|T| - 1]);
      assert NodeAt(Nested(m), p) == FlatAt(m, p);
      hide *;
      NodeAtGraft(Nested(m), T, Alone(node), p);
      InsertedAt(m, t, node, p);
      if T <= p {
        NodeAtAlone(node, p[|T|..]);
        assert p == T <==> p[|T|..] == [];
      }
    }
    forall k | k in m[t := node]
      ensures IsKey(k)
    {
    }
    RepresentedIsNested(m[t := node], tree);
  }

  /** A new file, or a new empty folder. */
  function Alone(node: Node): Tree {
    match node
    case Folder => Branch(map[])
    case File(data) => Leaf(data)
  }

  lemma {:induction false} NodeAtAlone(node: Node, q: seq<string>)
    ensures NodeAt(Alone(node), q) == if q == [] then Some(node) else None
  {
  }

  lemma {:induction false} InsertedAt(m: FlatTree, t: string, node: Node, path: seq<string>)
    requires IsKey(t) && FreeAt(m, t)
    ensures FlatAt(m[t := node], path) ==
      if path == Segments(t) then Some(node)
      else if Segments(t) <= path then None
      else FlatAt(m, path)
  {
    RenderIsKey(Segments(t));
    if path != [] && AreSegments(path) {
      RenderIsKey(path);
      UnderIsSegmentPrefix(t, Render(path));
    }
  }
}
