/** The flat map refines the nested tree. A well-formed map denotes exactly one tree, and
    a map that denotes a tree is well-formed. */
module Refinement {
  import opened Options
  import opened Paths
  import opened FileTree
  import opened NestedTree

  /** What the flat map says about one list of segments. */
  function FlatAt(m: FlatTree, path: seq<string>): Option<Node> {
    if path == [] then Some(Folder)
    else if AreSegments(path) && Render(path) in m then Some(m[Render(path)])
    else None
  }

  ghost predicate Represents(m: FlatTree, t: Tree) {
    && (forall k :: k in m ==> IsKey(k))
    && (forall path :: NodeAt(t, path) == FlatAt(m, path))
  }

  // ------------------------------------------------------------------ from map to tree

  function NamesUnder(m: FlatTree, path: seq<string>): set<string> {
    set k | k in m && ParentOf(k) == Absolute(path) :: NameOf(k)
  }

  lemma {:induction false} NamesUnderAre(m: FlatTree, path: seq<string>, n: string)
    requires WellFormed(m) && AreSegments(path)
    ensures n in NamesUnder(m, path) <==> IsSegment(n) && Render(path + [n]) in m
  {
    AbsoluteIsCanonical(path);
    if IsSegment(n) {
      JoinIsRender(Absolute(path), n);
      ParentAndNameOfJoin(Absolute(path), n);
    }
    if k :| k in m && ParentOf(k) == Absolute(path) && NameOf(k) == n {
      JoinOfParentAndName(k);
      JoinIsRender(Absolute(path), n);
    }
  }

  ghost function Below(m: FlatTree, path: seq<string>): set<string> {
    set k | k in m && path < Segments(k)
  }

  lemma {:induction false} BelowShrinks(m: FlatTree, path: seq<string>, n: string)
    requires AreSegments(path + [n]) && Render(path + [n]) in m
    ensures Below(m, path + [n]) < Below(m, path)
  {
    RenderIsKey(path + [n]);
    assert Render(path + [n]) in Below(m, path);
  }

  /** The tree below one path of a well-formed map. */
  ghost function Nest(m: FlatTree, path: seq<string>): Tree
    requires WellFormed(m) && AreSegments(path) && FlatAt(m, path).Some?
    decreases Below(m, path)
  {
    match FlatAt(m, path).value
    case File(data) => Leaf(data)
    case Folder =>
      Branch(map n | n in NamesUnder(m, path) ::
        NamesUnderAre(m, path, n);
        BelowShrinks(m, path, n);
        Nest(m, path + [n]))
  }

  /** The tree a well-formed map stands for. */
  ghost function Nested(m: FlatTree): Tree
    requires WellFormed(m)
  {
    Nest(m, [])
  }

  lemma {:induction false} ParentIsFolder(m: FlatTree, path: seq<string>)
    requires WellFormed(m) && path != [] && FlatAt(m, path).Some?
    ensures FlatAt(m, path[..|path| - 1]) == Some(Folder)
  {
    var n := |path| - 1;
    RenderIsKey(path);
    JoinOfParentAndName(Render(path));
    assert path == path[..n] + [path[n]];
    assert Segments(ParentOf(Render(path))) == path[..n];
    CanonicalIsAbsolute(ParentOf(Render(path)));
  }

  lemma {:induction false} PrefixesExist(m: FlatTree, p: seq<string>, q: seq<string>)
    requires WellFormed(m) && FlatAt(m, p + q).Some?
    ensures FlatAt(m, p).Some? && (q != [] ==> FlatAt(m, p) == Some(Folder))
    decreases |q|
  {
    hide *;
    if q == [] {
      assert p + q == p;
    } else {
      var above := q[..|q| - 1];
      ParentIsFolder(m, p + q);
      assert (p + q)[..|p + q| - 1] == p + above;
      PrefixesExist(m, p, above);
      if above == [] {
        assert p + above == p;
      }
    }
  }

  lemma {:induction false} NestStep(m: FlatTree, path: seq<string>, n: string)
    requires WellFormed(m) && AreSegments(path) && FlatAt(m, path).Some?
    ensures var t := Nest(m, path);
      if FlatAt(m, path) == Some(Folder) && FlatAt(m, path + [n]).Some?
      then t.Branch? && n in t.kids && t.kids[n] == Nest(m, path + [n])
      else t.Leaf? || n !in t.kids
  {
    NamesUnderAre(m, path, n);
    assert AreSegments(path + [n]) ==> IsSegment((path + [n])[|path|]);
    hide Render, IsSegment, NamesUnder, WellFormed;
  }

  lemma {:induction false} NestSees(m: FlatTree, path: seq<string>, q: seq<string>)
    requires WellFormed(m) && AreSegments(path) && FlatAt(m, path).Some?
    ensures NodeAt(Nest(m, path), q) == FlatAt(m, path + q)
    decreases |q|
  {
    hide *;
    if q == [] {
      assert path + q == path;
      NestTop(m, path);
    } else {
      var n, rest := q[0], q[1..];
      assert q == [n] + rest;
      assert path + q == (path + [n]) + rest;
      NestStep(m, path, n);
      NodeAtStep(Nest(m, path), n, rest);
      if FlatAt(m, path + q).Some? {
        PrefixesExist(m, path, q);
        PrefixesExist(m, path + [n], rest);
      }
      if FlatAt(m, path) == Some(Folder) && FlatAt(m, path + [n]).Some? {
        SegmentsAt(m, path + [n]);
        NestSees(m, path + [n], rest);
      }
    }
  }

  lemma {:induction false} NestTop(m: FlatTree, path: seq<string>)
    requires WellFormed(m) && AreSegments(path) && FlatAt(m, path).Some?
    ensures NodeAt(Nest(m, path), []) == FlatAt(m, path)
  {
  }

  lemma {:induction false} SegmentsAt(m: FlatTree, path: seq<string>)
    requires FlatAt(m, path).Some?
    ensures AreSegments(path)
  {
  }

  /** Every well-formed map denotes a tree. */
  lemma {:induction false} NestedRepresents(m: FlatTree)
    requires WellFormed(m)
    ensures Represents(m, Nested(m))
  {
    forall q
      ensures NodeAt(Nested(m), q) == FlatAt(m, q)
    {
      NestSees(m, [], q);
      assert [] + q == q;
    }
  }

  /** Only well-formed maps denote trees. */
  lemma {:induction false} RepresentsIsWellFormed(m: FlatTree, t: Tree)
    requires Represents(m, t)
    ensures WellFormed(m)
  {
    forall k | k in m
      ensures IsDir(m, ParentOf(k))
    {
      var path := Segments(k);
      var n := |path| - 1;
      JoinOfParentAndName(k);
      RenderIsKey(path);
      assert NodeAt(t, path) == FlatAt(m, path);
      assert path[..n] + [path[n]] == path;
      LookupConcat(t, path[..n], [path[n]]);
      assert NodeAt(t, path[..n]) == FlatAt(m, path[..n]);
      CanonicalIsAbsolute(ParentOf(k));
      assert Segments(ParentOf(k)) == path[..n];
    }
  }

  /** A map denotes at most one tree. */
  lemma {:induction false} RepresentedIsNested(m: FlatTree, t: Tree)
    requires Represents(m, t)
    ensures WellFormed(m) && t == Nested(m)
  {
    RepresentsIsWellFormed(m, t);
    NestedRepresents(m);
    forall p
      ensures NodeAt(t, p) == NodeAt(Nested(m), p)
    {
      assert NodeAt(t, p) == FlatAt(m, p);
    }
    SameNodesSameTree(t, Nested(m));
  }

  lemma {:induction false} KeySeen(m: FlatTree, m': FlatTree, k: string)
    requires WellFormed(m) && WellFormed(m') && Nested(m) == Nested(m') && k in m
    ensures k in m' && m'[k] == m[k]
  {
    NestedRepresents(m);
    NestedRepresents(m');
    var path := Segments(k);
    RenderIsKey(path);
    assert NodeAt(Nested(m), path) == FlatAt(m, path);
    assert NodeAt(Nested(m'), path) == FlatAt(m', path);
  }

  /** And a tree is denoted by at most one map: flattening loses nothing. */
  lemma {:induction false} SameTreeSameMap(m: FlatTree, m': FlatTree)
    requires WellFormed(m) && WellFormed(m')
    ensures Nested(m) == Nested(m') ==> m == m'
  {
    hide *;
    if Nested(m) == Nested(m') {
      forall k | k in m || k in m'
        ensures k in m && k in m' && m[k] == m'[k]
      {
        if k in m {
          KeySeen(m, m', k);
        } else {
          KeySeen(m', m, k);
        }
      }
    }
  }
}
