/** A directory tree as one usually thinks of it: a folder owns its content. This is what
    the flat map is meant to be; `Refinement.dfy` proves when it is. */
module NestedTree {
  import opened Options
  import opened FileTree

  datatype Tree = Leaf(data: Bytes) | Branch(kids: map<string, Tree>)

  function Lookup(t: Tree, path: seq<string>): Option<Tree>
    decreases |path|
  {
    if path == [] then Some(t)
    else if t.Branch? && path[0] in t.kids then Lookup(t.kids[path[0]], path[1..])
    else None
  }

  /** The tree without whatever is at `path`. */
  function Detach(t: Tree, path: seq<string>): Tree
    requires path != []
    decreases |path|
  {
    if t.Leaf? || path[0] !in t.kids then t
    else if |path| == 1 then Branch(t.kids - {path[0]})
    else Branch(t.kids[path[0] := Detach(t.kids[path[0]], path[1..])])
  }

  /** The tree with `sub` at `path`, whose parent must be a folder of the tree. */
  function Graft(t: Tree, path: seq<string>, sub: Tree): Tree
    requires path != []
    decreases |path|
  {
    if t.Leaf? then t
    else if |path| == 1 then Branch(t.kids[path[0] := sub])
    else if path[0] !in t.kids then t
    else Branch(t.kids[path[0] := Graft(t.kids[path[0]], path[1..], sub)])
  }

  /** What can be seen of a tree at one path. */
  function NodeAt(t: Tree, path: seq<string>): Option<Node> {
    match Lookup(t, path)
    case None => None
    case Some(Leaf(data)) => Some(File(data))
    case Some(Branch(_)) => Some(Folder)
  }

  predicate IsFolderAt(t: Tree, path: seq<string>) {
    NodeAt(t, path) == Some(Folder)
  }

  lemma {:induction false} LookupConcat(t: Tree, p: seq<string>, q: seq<string>)
    ensures Lookup(t, p + q) == (if Lookup(t, p).None? then None else Lookup(Lookup(t, p).value, q))
    decreases |p|
  {
    if p == [] {
      assert p + q == q;
    } else {
      assert (p + q)[1..] == p[1..] + q;
      if t.Branch? && p[0] in t.kids {
        LookupConcat(t.kids[p[0]], p[1..], q);
      }
    }
  }

  lemma {:induction false} SeenBelow(t: Tree, p: seq<string>, sub: Tree, q: seq<string>)
    requires Lookup(t, p) == Some(sub)
    ensures NodeAt(sub, q) == NodeAt(t, p + q)
  {
    LookupConcat(t, p, q);
  }

  lemma {:induction false} NodeAtDetach(t: Tree, path: seq<string>, p: seq<string>)
    requires path != []
    ensures NodeAt(Detach(t, path), p) == if path <= p then None else NodeAt(t, p)
    decreases |path|
  {
    if t.Branch? && path[0] in t.kids && p != [] && p[0] == path[0] {
      if |path| == 1 {
        assert path <= p;
      } else {
        NodeAtDetach(t.kids[path[0]], path[1..], p[1..]);
        assert path <= p <==> path[1..] <= p[1..];
      }
    }
  }

  lemma {:induction false} NodeAtGraft(t: Tree, path: seq<string>, sub: Tree, p: seq<string>)
    requires path != [] && IsFolderAt(t, path[..|path| - 1])
    ensures NodeAt(Graft(t, path, sub), p) ==
      if path <= p then NodeAt(sub, p[|path|..]) else NodeAt(t, p)
    decreases |path|
  {
    if |path| == 1 {
      if p != [] && p[0] == path[0] {
        assert path <= p;
      }
    } else {
      assert path[..|path| - 1][0] == path[0];
      assert path[1..][..|path| - 2] == path[..|path| - 1][1..];
      if p != [] && p[0] == path[0] {
        NodeAtGraft(t.kids[path[0]], path[1..], sub, p[1..]);
        assert path <= p <==> path[1..] <= p[1..];
        if path <= p {
          assert p[1..][|path| - 1..] == p[|path|..];
        }
      }
    }
  }

  lemma {:induction false} NodeAtStep(t: Tree, n: string, p: seq<string>)
    ensures NodeAt(t, [n] + p) == if t.Branch? && n in t.kids then NodeAt(t.kids[n], p) else None
  {
  }

  /** A tree is determined by what is seen at its paths. */
  lemma {:induction false} SameNodesSameTree(t: Tree, u: Tree)
    requires forall p :: NodeAt(t, p) == NodeAt(u, p)
    ensures t == u
    decreases t
  {
    assert NodeAt(t, []) == NodeAt(u, []);
    if t.Branch? {
      forall n
        ensures n in t.kids <==> n in u.kids
        ensures n in t.kids && n in u.kids ==> t.kids[n] == u.kids[n]
      {
        NodeAtStep(t, n, []);
        NodeAtStep(u, n, []);
        assert NodeAt(t, [n] + []) == NodeAt(u, [n] + []);
        if n in t.kids && n in u.kids {
          forall p
            ensures NodeAt(t.kids[n], p) == NodeAt(u.kids[n], p)
          {
            NodeAtStep(t, n, p);
            NodeAtStep(u, n, p);
            assert NodeAt(t, [n] + p) == NodeAt(u, [n] + p);
          }
          SameNodesSameTree(t.kids[n], u.kids[n]);
        }
      }
    }
  }
}
