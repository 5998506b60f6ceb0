/** What the requests answer and do, told of the nested tree alone: which status stands for
    which state of the tree, and that everything but success leaves the tree as it was. */
module TreeAnswers {
  import opened Options
  import opened Paths
  import opened Naming
  import opened FileTree
  import opened NestedTree
  import opened Refinement
  import opened Subtrees
  import opened Requests
  import opened Effects

  /** The segments of a path but the last. */
  function Above(path: seq<string>): seq<string> {
    if path == [] then [] else path[..|path| - 1]
  }

  lemma {:induction false} KeySeenInTree(m: FlatTree, p: string)
    requires WellFormed(m) && IsKey(p)
    ensures NodeAt(Nested(m), Segments(p)) == if p in m then Some(m[p]) else None
  {
    NestedRepresents(m);
    RenderIsKey(Segments(p));
    assert NodeAt(Nested(m), Segments(p)) == FlatAt(m, Segments(p));
  }

  lemma {:induction false} FolderSeenInTree(m: FlatTree, dir: string)
    requires WellFormed(m) && IsCanonical(dir)
    ensures IsFolderAt(Nested(m), Segments(dir)) <==> IsDir(m, dir)
  {
    CanonicalIsAbsolute(dir);
    if dir == "/" {
      NestedRepresents(m);
      assert NodeAt(Nested(m), []) == FlatAt(m, []);
    } else {
      KeySeenInTree(m, dir);
    }
  }

  lemma {:induction false} ParentSeenInTree(m: FlatTree, p: string)
    requires WellFormed(m) && IsKey(p)
    ensures IsFolderAt(Nested(m), Above(Segments(p))) <==> IsDir(m, ParentOf(p))
  {
    JoinOfParentAndName(p);
    assert Above(Segments(p)) == Segments(ParentOf(p));
    hide *;
    FolderSeenInTree(m, ParentOf(p));
  }

  lemma {:induction false} AcceptedIsKey(raw: string)
    requires ParsePath(raw).Ok? && ParsePath(raw).path != "/"
    ensures IsKey(ParsePath(raw).path) && Segments(ParsePath(raw).path) != []
  {
    ParsedIsCanonical(raw);
    hide ParsePath;
  }

  /** A path some request accepts, as segments. */
  function PathOf(raw: string): seq<string>
    requires ParsePath(raw).Ok?
  {
    Segments(ParsePath(raw).path)
  }

  predicate NamesItem(raw: string) {
    ParsePath(raw).Ok? && ParsePath(raw).path != "/"
  }

  /** What the flat map and the tree say about one place. */
  lemma {:induction false} Situation(m: FlatTree, p: string)
    requires WellFormed(m) && IsKey(p)
    ensures var tree, path := Nested(m), Segments(p);
      && path != [] && Absolute(path) == p
      && NodeAt(tree, path) == (if p in m then Some(m[p]) else None)
      && (IsFolderAt(tree, Above(path)) <==> IsDir(m, ParentOf(p)))
      && (p in m ==> IsDir(m, ParentOf(p)))
  {
    CanonicalIsAbsolute(p);
    hide Segments, Absolute, ParentOf, NodeAt, IsDir, Nested, Above;
    KeySeenInTree(m, p);
    ParentSeenInTree(m, p);
    assert IsFolderAt(Nested(m), Above(Segments(p))) <==> IsDir(m, ParentOf(p));
  }

  lemma {:induction false} MkdirUnfolded(m: FlatTree, raw: string)
    requires NamesItem(raw)
    ensures var a, p := MkdirAnswer(m, raw), ParsePath(raw).path;
      if !IsDir(m, ParentOf(p)) then a == Answer(m, Refused(409, "parent_not_found"))
      else if p in m then a == Answer(m, Refused(409, "already_exists"))
      else a == Answer(m[p := Folder], Stored(201, p))
  {
    hide ParsePath, IsDir, ParentOf;
  }

  /** A folder is made exactly where there is nothing yet and a folder above. */
  lemma {:induction false} MkdirExact(m: FlatTree, raw: string)
    requires WellFormed(m) && NamesItem(raw)
    ensures var a, tree, path := MkdirAnswer(m, raw), Nested(m), PathOf(raw);
      && path != [] && WellFormed(a.tree)
      && (a.reply == Refused(409, "parent_not_found") <==> !IsFolderAt(tree, Above(path)))
      && (a.reply == Refused(409, "already_exists") <==> NodeAt(tree, path).Some?)
      && (a.reply == Stored(201, Absolute(path)) <==> IsFolderAt(tree, Above(path)) && NodeAt(tree, path).None?)
      && Nested(a.tree) == if a.reply.Stored? then Graft(tree, path, Branch(map[])) else tree
  {
    hide IsKey, ParentOf, Segments, Nested, ParsePath, Above, NodeAt, Graft, Absolute, IsDir, WellFormed,
      MkdirAnswer;
    var p := ParsePath(raw).path;
    AcceptedIsKey(raw);
    Situation(m, p);
    MkdirUnfolded(m, raw);
    if p !in m && IsDir(m, ParentOf(p)) {
      InsertGrafts(m, p, Folder);
    }
  }

  /** A stored file gets new content. */
  lemma {:induction false} OverwriteGrafts(m: FlatTree, t: string, body: Bytes)
    requires WellFormed(m) && t in m && m[t].File?
    ensures WellFormed(m[t := File(body)])
    ensures Segments(t) != [] && Nested(m[t := File(body)]) == Graft(Nested(m), Segments(t), Leaf(body))
  {
    KeyParts(m, t);
    RenderIsKey(Segments(t));
    var m', tree := m[t := File(body)], Graft(Nested(m), Segments(t), Leaf(body));
    assert Represents(m', tree) by {
      assert forall k :: k in m' ==> IsKey(k);
      hide *;
      forall p
        ensures NodeAt(tree, p) == FlatAt(m', p)
      {
        OverwrittenSeen(m, t, body, p);
      }
      RepresentsByPaths(m', tree);
    }
    hide *;
    RepresentedIsNested(m', tree);
  }

  lemma {:induction false} RepresentsByPaths(m: FlatTree, tree: Tree)
    requires forall k :: k in m ==> IsKey(k)
    requires forall p :: NodeAt(tree, p) == FlatAt(m, p)
    ensures Represents(m, tree)
  {
    hide IsKey, NodeAt, FlatAt;
  }

  lemma {:induction false} OverwrittenSeen(m: FlatTree, t: string, body: Bytes, p: seq<string>)
    requires WellFormed(m) && t in m && m[t].File?
    ensures Segments(t) != []
    ensures NodeAt(Graft(Nested(m), Segments(t), Leaf(body)), p) == FlatAt(m[t := File(body)], p)
  {
    KeyParts(m, t);
    hide *;
    var T := Segments(t);
    ParentSeen(m, t);
    TreeSees(m, p);
    NodeAtGraft(Nested(m), T, Leaf(body), p);
    OverwrittenAt(m, t, body, p);
    if T <= p {
      NodeAtLeaf(body, p[|T|..]);
      assert p == T <==> p[|T|..] == [];
    }
  }

  lemma {:induction false} NodeAtLeaf(body: Bytes, q: seq<string>)
    ensures NodeAt(Leaf(body), q) == if q == [] then Some(File(body)) else None
  {
  }

  lemma {:induction false} TreeSees(m: FlatTree, p: seq<string>)
    requires WellFormed(m)
    ensures NodeAt(Nested(m), p) == FlatAt(m, p)
  {
    NestedRepresents(m);
    hide NodeAt, FlatAt, Nested, WellFormed;
  }

  lemma {:induction false} ParentSeen(m: FlatTree, t: string)
    requires WellFormed(m) && t in m
    ensures Segments(t) != [] && IsFolderAt(Nested(m), Segments(t)[..|Segments(t)| - 1])
  {
    KeyParts(m, t);
    assert IsDir(m, ParentOf(t)) by { hide IsKey, ParentOf, IsDir; }
    hide Segments, NodeAt, FlatAt, Nested, ParentOf, WellFormed, IsKey, IsDir;
    FolderAbove(m, t);
    TreeSees(m, Segments(t)[..|Segments(t)| - 1]);
  }

  lemma {:induction false} NothingBelowFile(m: FlatTree, t: string, k: string)
    requires WellFormed(m) && t in m && m[t].File? && k in m && Under(t, k)
    ensures k == t
  {
    hide Under, ParentOf;
    if k != t {
      assert IsKey(t);
      hide IsKey;
      AncestorsAreFolders(m, t, k);
    }
  }

  lemma {:induction false} OverwrittenAt(m: FlatTree, t: string, body: Bytes, path: seq<string>)
    requires WellFormed(m) && t in m && m[t].File?
    ensures FlatAt(m[t := File(body)], path) ==
      if path == Segments(t) then Some(File(body))
      else if Segments(t) <= path then None
      else FlatAt(m, path)
  {
    var m', k := m[t := File(body)], Render(path);
    KeyParts(m, t);
    hide *;
    if path == [] || !AreSegments(path) {
      FlatAtOther(m, path);
      FlatAtOther(m', path);
    } else {
      FlatAtKey(m, path);
      FlatAtKey(m', path);
      RenderIsKey(path);
      UnderIsSegmentPrefix(t, k);
      if k in m && Under(t, k) {
        NothingBelowFile(m, t, k);
      }
    }
  }

  lemma {:induction false} KeyParts(m: FlatTree, t: string)
    requires WellFormed(m) && t in m
    ensures IsKey(t) && Segments(t) != [] && AreSegments(Segments(t)) && Render(Segments(t)) == t
  {
    hide Segments, Render, ParentOf;
  }

  lemma {:induction false} FlatAtOther(m: FlatTree, path: seq<string>)
    requires path == [] || !AreSegments(path)
    ensures FlatAt(m, path) == if path == [] then Some(Folder) else None
  {
    hide AreSegments, Render;
  }

  lemma {:induction false} FlatAtKey(m: FlatTree, path: seq<string>)
    requires path != [] && AreSegments(path)
    ensures FlatAt(m, path) == if Render(path) in m then Some(m[Render(path)]) else None
  {
    hide AreSegments, Render;
  }

  lemma {:induction false} PutUnfolded(m: FlatTree, raw: string, overwrite: bool, body: Bytes)
    requires NamesItem(raw)
    ensures var a, p := PutAnswer(m, true, raw, overwrite, body), ParsePath(raw).path;
      if !IsDir(m, ParentOf(p)) then a == Answer(m, Refused(409, "parent_not_found"))
      else if p !in m then a == Answer(m[p := File(body)], Stored(201, p))
      else if m[p].Folder? then a == Answer(m, Refused(409, "is_a_directory"))
      else if overwrite then a == Answer(m[p := File(body)], Stored(200, p))
      else a == Answer(m, Refused(409, "already_exists"))
  {
    hide ParsePath, IsDir, ParentOf;
  }

  /** A file is put where there is nothing yet and a folder above, or, when it may overwrite,
      where there is a file; afterwards exactly that file is different. */
  lemma {:induction false} PutExact(m: FlatTree, raw: string, overwrite: bool, body: Bytes)
    requires WellFormed(m) && NamesItem(raw)
    ensures var a, tree, path := PutAnswer(m, true, raw, overwrite, body), Nested(m), PathOf(raw);
      && path != [] && WellFormed(a.tree)
      && (a.reply == Refused(409, "parent_not_found") <==> !IsFolderAt(tree, Above(path)))
      && (a.reply == Refused(409, "is_a_directory") <==> IsFolderAt(tree, path))
      && (a.reply == Refused(409, "already_exists") <==>
            NodeAt(tree, path).Some? && !IsFolderAt(tree, path) && !overwrite)
      && (a.reply == Stored(200, Absolute(path)) <==>
            NodeAt(tree, path).Some? && !IsFolderAt(tree, path) && overwrite)
      && (a.reply == Stored(201, Absolute(path)) <==> IsFolderAt(tree, Above(path)) && NodeAt(tree, path).None?)
      && Nested(a.tree) == if a.reply.Stored? then Graft(tree, path, Leaf(body)) else tree
  {
    hide IsKey, ParentOf, Segments, Nested, ParsePath, Above, NodeAt, Graft, Absolute, IsDir, WellFormed,
      PutAnswer;
    var p := ParsePath(raw).path;
    AcceptedIsKey(raw);
    Situation(m, p);
    PutUnfolded(m, raw, overwrite, body);
    if p !in m && IsDir(m, ParentOf(p)) {
      InsertGrafts(m, p, File(body));
    }
    if p in m && m[p].File? {
      OverwriteGrafts(m, p, body);
    }
  }

  lemma {:induction false} RenameUnfolded(m: FlatTree, raw: string, newName: string)
    requires NamesItem(raw) && IsAllowedName(newName, ParentOf(ParsePath(raw).path))
    ensures var a, p := RenameAnswer(m, raw, newName), ParsePath(raw).path;
      var t := JoinPath(ParentOf(p), newName);
      if p !in m then a == Answer(m, Refused(404, "not_found"))
      else if t != p && t in m then a == Answer(m, Refused(409, "already_exists"))
      else a.reply == Stored(200, t)
    ensures IsSegment(newName)
  {
    hide ParsePath, ParentOf, JoinPath, Relocated;
  }

  /** An item may be renamed exactly if it is there and nothing else has the name. */
  lemma {:induction false} RenameAnsweredExactly(m: FlatTree, raw: string, newName: string)
    requires WellFormed(m) && NamesItem(raw) && IsAllowedName(newName, ParentOf(ParsePath(raw).path))
    ensures var a, tree, path := RenameAnswer(m, raw, newName), Nested(m), PathOf(raw);
      var renamed := Above(path) + [newName];
      && (a.reply == Refused(404, "not_found") <==> NodeAt(tree, path).None?)
      && (a.reply == Refused(409, "already_exists") <==>
            NodeAt(tree, path).Some? && renamed != path && NodeAt(tree, renamed).Some?)
      && (a.reply == Stored(200, Absolute(renamed)) <==>
            NodeAt(tree, path).Some? && (renamed == path || NodeAt(tree, renamed).None?))
      && (!a.reply.Stored? ==> a.tree == m)
  {
    hide IsKey, ParentOf, NameOf, JoinPath, Segments, Nested, ParsePath, NodeAt, Absolute, WellFormed, RenameAnswer,
      IsAllowedName;
    var p := ParsePath(raw).path;
    AcceptedIsKey(raw);
    RenameUnfolded(m, raw, newName);
    var t := JoinPath(ParentOf(p), newName);
    RenamedSegments(p, newName);
    SameSegments(p, t);
    KeySeenInTree(m, p);
    KeySeenInTree(m, t);
  }

  lemma {:induction false} RenamedSegments(p: string, newName: string)
    requires IsKey(p) && IsSegment(newName)
    ensures IsKey(JoinPath(ParentOf(p), newName))
    ensures Segments(JoinPath(ParentOf(p), newName)) == Above(Segments(p)) + [newName]
  {
    JoinOfParentAndName(p);
    ParentAndNameOfJoin(ParentOf(p), newName);
    hide ParentOf, NameOf, JoinPath, Segments;
    assert Above(Segments(p)) == Segments(ParentOf(p));
  }

  lemma {:induction false} SameSegments(p: string, t: string)
    requires IsKey(p) && IsKey(t)
    ensures Segments(p) == Segments(t) <==> p == t
    ensures Absolute(Segments(t)) == t
  {
  }

  // --------------------------------------------------------------- where an item is put

  /** Number `i` gives the first name in the folder that is not taken. */
  ghost predicate IsLeastFree(tree: Tree, dir: seq<string>, name: string, i: nat) {
    && i >= 1
    && NodeAt(tree, dir + [Numbered(Base(name), i, Extension(name))]).None?
    && (forall j :: 1 <= j < i ==> NodeAt(tree, dir + [Numbered(Base(name), j, Extension(name))]).Some?)
  }

  lemma {:induction false} JoinedSeenInTree(m: FlatTree, dest: string, name: string)
    requires WellFormed(m) && IsCanonical(dest) && IsSegment(name)
    ensures JoinPath(dest, name) in m <==> NodeAt(Nested(m), Segments(dest) + [name]).Some?
  {
    ParentAndNameOfJoin(dest, name);
    hide IsKey, JoinPath, Segments, Nested, NodeAt, ParentOf;
    KeySeenInTree(m, JoinPath(dest, name));
  }

  lemma {:induction false} NumberedIsJoined(dest: string, name: string, i: nat)
    requires IsCanonical(dest) && IsSegment(name)
    ensures var numbered := Numbered(Base(name), i, Extension(name));
      && IsSegment(numbered)
      && Numbered(JoinPath(dest, Base(name)), i, Extension(name)) == JoinPath(dest, numbered)
  {
    PartOfNameIsClean(name, LeftmostTail(name, 0));
    JoinNumbered(dest, Base(name), i, Extension(name));
    NumberedIsSegment(Base(name), i, Extension(name));
  }

  lemma {:induction false} NumberedSeenInTree(m: FlatTree, dest: string, name: string, i: nat)
    requires WellFormed(m) && IsCanonical(dest) && IsSegment(name)
    ensures var numbered := Numbered(Base(name), i, Extension(name));
      JoinPath(dest, numbered) in m <==> NodeAt(Nested(m), Segments(dest) + [numbered]).Some?
  {
    hide *;
    NumberedIsJoined(dest, name, i);
    JoinedSeenInTree(m, dest, Numbered(Base(name), i, Extension(name)));
  }

  lemma {:induction false} FirstFreeIsLeastFree(m: FlatTree, dest: string, name: string)
    requires WellFormed(m) && IsCanonical(dest) && IsSegment(name)
    ensures IsLeastFree(Nested(m), Segments(dest), name,
                        FirstFree(m.Keys, JoinPath(dest, Base(name)), 1, Extension(name)))
  {
    hide Base, Extension, Numbered, JoinPath, NodeAt, Nested, Segments, IsCanonical, WellFormed, IsSegment;
    var i := FirstFree(m.Keys, JoinPath(dest, Base(name)), 1, Extension(name));
    NumberedIsJoined(dest, name, i);
    NumberedSeenInTree(m, dest, name, i);
    forall j | 1 <= j < i
      ensures NodeAt(Nested(m), Segments(dest) + [Numbered(Base(name), j, Extension(name))]).Some?
    {
      NumberedIsJoined(dest, name, j);
      NumberedSeenInTree(m, dest, name, j);
    }
  }

  lemma {:induction false} PlaceUnfolded(m: FlatTree, s: string, dest: string, policy: Policy)
    ensures var place, name, plain := Place(m, s, dest, policy), NameOf(s), JoinPath(dest, NameOf(s));
      if plain !in m || s == plain || policy == Replace then place == At(plain)
      else if policy == Skip then place == Occupied
      else if HasLineTerminator(Base(name)) then place == Unmatched
      else
        var stem, ext := JoinPath(dest, Base(name)), Extension(name);
        place == At(Numbered(stem, FirstFree(m.Keys, stem, 1, ext), ext))
  {
    TwoFormsAgree(NameOf(s));
    hide LazyGroup, HasLineTerminator, JoinPath, NameOf, Numbered, FirstFree;
  }

  /** Another item than the one at `path` is at the place. */
  ghost predicate IsTakenAt(tree: Tree, path: seq<string>, place: seq<string>) {
    NodeAt(tree, place).Some? && path != place
  }

  lemma {:induction false} TakenIs(tree: Tree, path: seq<string>, place: seq<string>)
    ensures IsTakenAt(tree, path, place) <==> NodeAt(tree, place).Some? && path != place
  {
    hide NodeAt;
  }

  /** Where a move or copy puts an item, by what the destination folder holds. */
  lemma {:induction false} PlaceExact(m: FlatTree, s: string, dest: string, policy: Policy)
    requires WellFormed(m) && s in m && IsCanonical(dest)
    ensures var place, tree, dir, name := Place(m, s, dest, policy), Nested(m), Segments(dest), NameOf(s);
      && (place == Occupied <==> IsTakenAt(tree, Segments(s), dir + [name]) && policy == Skip)
      && (place == Unmatched <==>
            IsTakenAt(tree, Segments(s), dir + [name]) && policy == KeepBoth && HasLineTerminator(Base(name)))
      && (place.At? ==>
            if IsTakenAt(tree, Segments(s), dir + [name]) && policy == KeepBoth
            then exists i :: IsLeastFree(tree, dir, name, i) &&
                             Segments(place.target) == dir + [Numbered(Base(name), i, Extension(name))]
            else Segments(place.target) == dir + [name])
  {
    hide *;
    var name := NameOf(s);
    TakenIs(Nested(m), Segments(s), Segments(dest) + [name]);
    NameHasPlace(m, s, dest);
    PlaceUnfolded(m, s, dest, policy);
    JoinedSeenInTree(m, dest, name);
    if JoinPath(dest, name) in m && s != JoinPath(dest, name) && policy == KeepBoth && !HasLineTerminator(Base(name)) {
      NumberedPlace(m, dest, name);
    }
  }

  lemma {:induction false} NameHasPlace(m: FlatTree, s: string, dest: string)
    requires WellFormed(m) && s in m && IsCanonical(dest)
    ensures IsSegment(NameOf(s))
    ensures Segments(JoinPath(dest, NameOf(s))) == Segments(dest) + [NameOf(s)]
    ensures s == JoinPath(dest, NameOf(s)) <==> Segments(s) == Segments(dest) + [NameOf(s)]
  {
    assert IsKey(s);
    hide *;
    JoinOfParentAndName(s);
    ParentAndNameOfJoin(dest, NameOf(s));
    SameSegments(s, JoinPath(dest, NameOf(s)));
  }

  lemma {:induction false} NumberedPlace(m: FlatTree, dest: string, name: string)
    requires WellFormed(m) && IsCanonical(dest) && IsSegment(name)
    ensures var i := FirstFree(m.Keys, JoinPath(dest, Base(name)), 1, Extension(name));
      && IsLeastFree(Nested(m), Segments(dest), name, i)
      && Segments(Numbered(JoinPath(dest, Base(name)), i, Extension(name))) ==
           Segments(dest) + [Numbered(Base(name), i, Extension(name))]
  {
    hide *;
    var i := FirstFree(m.Keys, JoinPath(dest, Base(name)), 1, Extension(name));
    FirstFreeIsLeastFree(m, dest, name);
    NumberedIsJoined(dest, name, i);
    ParentAndNameOfJoin(dest, Numbered(Base(name), i, Extension(name)));
  }
}
