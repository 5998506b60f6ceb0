/** What each mutating request does to the nested tree, and exactly when it does what it is
    for. The guards are the ones the code does not have. */
module Effects {
  import opened Options
  import opened Paths
  import opened Naming
  import opened FileTree
  import opened NestedTree
  import opened Refinement
  import opened Subtrees
  import opened Requests

  // --------------------------------------------------------------------------- placement

  lemma {:induction false} PartOfNameIsClean(name: string, cut: nat)
    requires IsSegment(name) && cut <= |name|
    ensures '/' !in name[..cut] && '\\' !in name[..cut]
    ensures '/' !in name[cut..] && '\\' !in name[cut..]
  {
  }

  lemma {:induction false} NumberedIsSegment(base: string, i: nat, ext: string)
    requires '/' !in base && '\\' !in base && '/' !in ext && '\\' !in ext
    ensures IsSegment(Numbered(base, i, ext))
  {
  }

  lemma {:induction false} JoinNumbered(dest: string, base: string, i: nat, ext: string)
    ensures Numbered(JoinPath(dest, base), i, ext) == JoinPath(dest, Numbered(base, i, ext))
  {
  }

  /** Nothing else has the source's name in the destination. */
  predicate NameIsFree(m: FlatTree, s: string, dest: string) {
    JoinPath(dest, NameOf(s)) !in m || JoinPath(dest, NameOf(s)) == s
  }

  /** A source lands directly in the destination, under its own name or a numbered one, and on
      another item only with `replace`. */
  lemma {:induction false} PlaceIsInDestination(m: FlatTree, s: string, dest: string, policy: Policy)
    requires IsKey(s) && IsCanonical(dest) && Place(m, s, dest, policy).At?
    ensures var t := Place(m, s, dest, policy).target;
      && IsKey(t) && ParentOf(t) == dest
      && ((policy == Replace ==> NameIsFree(m, s, dest)) ==> t == s || t !in m)
      && (s in m ==> (t == s <==> ParentOf(s) == dest))
  {
    JoinOfParentAndName(s);
    var name := NameOf(s);
    var plain := JoinPath(dest, name);
    ParentAndNameOfJoin(dest, name);
    if plain in m && s != plain && policy == KeepBoth {
      var cut := LazyGroup(name, 0).value;
      PartOfNameIsClean(name, cut);
      var i := FirstFree(m.Keys, JoinPath(dest, name[..cut]), 1, name[cut..]);
      NumberedIsSegment(name[..cut], i, name[cut..]);
      JoinNumbered(dest, name[..cut], i, name[cut..]);
      ParentAndNameOfJoin(dest, Numbered(name[..cut], i, name[cut..]));
    }
  }

  // ------------------------------------------------------------------------ exact effects

  /** The map after is the tree before with one subtree taken out and put in at `t`. */
  ghost predicate MovesSubtree(m: FlatTree, m': FlatTree, s: string, t: string)
    requires WellFormed(m) && s in m && IsKey(t)
  {
    assert IsKey(s);
    && WellFormed(m')
    && Nested(m') == Graft(Detach(Nested(m), Segments(s)), Segments(t), SubtreeAt(m, s))
  }

  lemma {:induction false} LossIsNoMove(m: FlatTree, s: string)
    requires WellFormed(m) && s in m
    ensures !MovesSubtree(m, Without(m, s), s, s)
    ensures WellFormed(Without(m, s)) && Nested(Without(m, s)) == Detach(Nested(m), Segments(s))
  {
    OwnTargetDetaches(m, s);
    GraftPutsBack(m, s);
  }

  lemma {:induction false} GraftPutsBack(m: FlatTree, s: string)
    requires WellFormed(m) && s in m
    ensures IsKey(s)
    ensures Graft(Detach(Nested(m), Segments(s)), Segments(s), SubtreeAt(m, s)) != Detach(Nested(m), Segments(s))
  {
    var S := Segments(s);
    var whole, sub := Nested(m), SubtreeAt(m, s);
    NestedRepresents(m);
    FolderAbove(m, s);
    RenderIsKey(S);
    assert FlatAt(m, S).Some?;
    assert NodeAt(sub, []) == FlatAt(m, S + []);
    assert NodeAt(whole, S[..|S| - 1]) == FlatAt(m, S[..|S| - 1]);
    hide *;
    NodeAtDetach(whole, S, S);
    NodeAtDetach(whole, S, S[..|S| - 1]);
    NodeAtGraft(Detach(whole, S), S, sub, S);
    assert S + [] == S && S[|S|..] == [];
  }

  lemma {:induction false} UnderSameParent(s: string, t: string)
    requires IsKey(s) && IsKey(t) && ParentOf(s) == ParentOf(t) && Under(s, t)
    ensures s == t
  {
    UnderIsSegmentPrefix(s, t);
    JoinOfParentAndName(s);
    JoinOfParentAndName(t);
    RenderIsKey(Segments(s));
    RenderIsKey(Segments(t));
    assert |Segments(s)| == |Segments(t)|;
  }

  /** What an accepted rename has established, and what it has done. */
  lemma {:induction false} RenameStored(m: FlatTree, raw: string, newName: string)
    requires RenameAnswer(m, raw, newName).reply.Stored?
    ensures ParsePath(raw).Ok? && ParsePath(raw).path in m && IsSegment(newName)
    ensures var p, after := ParsePath(raw).path, RenameAnswer(m, raw, newName);
      var t := JoinPath(ParentOf(p), newName);
      && (t == p || t !in m)
      && after == Answer(Relocated(m, p, t, false), Stored(200, t))
  {
  }

  lemma {:induction false} RenameEffect(m: FlatTree, p: string, newName: string)
    requires WellFormed(m) && p in m && IsSegment(newName)
    requires JoinPath(ParentOf(p), newName) == p || JoinPath(ParentOf(p), newName) !in m
    ensures IsKey(p) && IsKey(JoinPath(ParentOf(p), newName))
    ensures var t := JoinPath(ParentOf(p), newName);
      var m' := Relocated(m, p, t, false);
      && (MovesSubtree(m, m', p, t) <==> newName != NameOf(p))
      && (newName == NameOf(p) ==> WellFormed(m') && Nested(m') == Detach(Nested(m), Segments(p)))
  {
    var t := JoinPath(ParentOf(p), newName);
    JoinOfParentAndName(p);
    ParentAndNameOfJoin(ParentOf(p), newName);
    hide *;
    if newName == NameOf(p) {
      LossIsNoMove(m, p);
    } else {
      if Under(p, t) {
        UnderSameParent(p, t);
      }
      MoveGrafts(m, p, t);
    }
  }

  /** Rename does what it is for exactly when the new name differs from the old one. Given
      the old name it removes the item and everything in it. */
  lemma {:induction false} RenameExact(m: FlatTree, raw: string, newName: string)
    requires WellFormed(m) && RenameAnswer(m, raw, newName).reply.Stored?
    ensures ParsePath(raw).Ok? && ParsePath(raw).path in m
    ensures IsKey(ParsePath(raw).path) && IsKey(RenameAnswer(m, raw, newName).reply.path)
    ensures var p, after := ParsePath(raw).path, RenameAnswer(m, raw, newName);
      && (MovesSubtree(m, after.tree, p, after.reply.path) <==> newName != NameOf(p))
      && (newName == NameOf(p) ==>
            WellFormed(after.tree) && Nested(after.tree) == Detach(Nested(m), Segments(p)))
  {
    hide *;
    RenameStored(m, raw, newName);
    RenameEffect(m, ParsePath(raw).path, newName);
  }

  lemma {:induction false} UnderChild(s: string, t: string)
    requires IsKey(s) && IsKey(t) && s != t
    ensures Under(s, t) <==> Under(s, ParentOf(t))
  {
    JoinOfParentAndName(t);
    if Under(s, t) {
      ParentStaysUnder(s, t);
    }
    if Under(s, ParentOf(t)) {
      RootIsNotAKey(s);
      assert Under(ParentOf(t), t);
      UnderTransitive(s, ParentOf(t), t);
    }
  }

  /** Moving one item does what it is for exactly when the destination is neither the
      folder the item is already in nor inside the item. In its own folder the item is
      removed; inside itself it is cut off from the root. */
  lemma {:induction false} MoveExact(m: FlatTree, s: string, dest: string, policy: Policy)
    requires WellFormed(m) && s in m && IsCanonical(dest) && IsDir(m, dest)
    requires (policy == Replace ==> NameIsFree(m, s, dest)) && Place(m, s, dest, policy).At?
    ensures IsKey(s) && IsKey(Place(m, s, dest, policy).target)
    ensures var t := Place(m, s, dest, policy).target;
      var m' := Relocated(m, s, t, false);
      && (MovesSubtree(m, m', s, t) <==> ParentOf(s) != dest && !Under(s, dest))
      && (ParentOf(s) == dest ==> WellFormed(m') && Nested(m') == Detach(Nested(m), Segments(s)))
      && (Under(s, dest) ==> !WellFormed(m') && t in m' && !IsDir(m', dest))
  {
    PlaceIsInDestination(m, s, dest, policy);
    var t := Place(m, s, dest, policy).target;
    if t == s {
      LossIsNoMove(m, s);
      JoinOfParentAndName(s);
      if Under(s, dest) {
        ParentStaysOut(s);
      }
    } else {
      UnderChild(s, t);
      if Under(s, dest) {
        InnerTargetOrphans(m, s, t);
      } else {
        MoveGrafts(m, s, t);
      }
    }
  }

  lemma {:induction false} ParentStaysOut(s: string)
    requires IsKey(s)
    ensures !Under(s, ParentOf(s))
  {
    var p := ParentOf(s);
    JoinOfParentAndName(s);
    assert |p| < |s| by {
      RootIsNotAKey(s);
      assert p == "/" ==> s == "/" + NameOf(s);
    }
  }

  /** Copying one item grafts its subtree as it was; into its own folder it changes
      nothing, even when both are to be kept. */
  lemma {:induction false} CopyExact(m: FlatTree, s: string, dest: string, policy: Policy)
    requires WellFormed(m) && s in m && IsCanonical(dest) && IsDir(m, dest)
    requires (policy == Replace ==> NameIsFree(m, s, dest)) && Place(m, s, dest, policy).At?
    ensures IsKey(Place(m, s, dest, policy).target)
    ensures var t := Place(m, s, dest, policy).target;
      var m' := Relocated(m, s, t, true);
      && WellFormed(m')
      && Nested(m') ==
           if ParentOf(s) == dest then Nested(m) else Graft(Nested(m), Segments(t), SubtreeAt(m, s))
  {
    PlaceIsInDestination(m, s, dest, policy);
    var t := Place(m, s, dest, policy).target;
    if t != s {
      CopyGrafts(m, s, t);
    }
  }

  // ------------------------------------------------------------------------------ the bin

  lemma {:induction false} BinIsKey()
    ensures IsKey(BIN) && Segments(BIN) == [".vaultbox", "recycle"]
  {
    var segs := [".vaultbox", "recycle"];
    assert segs[..1] == [".vaultbox"];
    assert Render([".vaultbox"]) == Render([]) + "/" + ".vaultbox" by {
      assert [".vaultbox"][..0] == [];
    }
    assert Render(segs) == Render(segs[..1]) + "/" + segs[1];
    assert Render(segs) == BIN;
    RenderIsKey(segs);
  }

  lemma {:induction false} JoinInBin(bin: string, id: string, name: string)
    requires bin != "/"
    ensures bin + "/" + id + "__" + name == JoinPath(bin, id + "__" + name)
  {
  }

  lemma {:induction false} GluedIsSegment(a: string, b: string)
    requires IsSegment(a) && IsSegment(b)
    ensures IsSegment(a + "__" + b)
  {
  }

  lemma {:induction false} BinForIsKey(id: string, s: string)
    requires IsSegment(id) && IsKey(s)
    ensures IsKey(BinFor(id, s)) && ParentOf(BinFor(id, s)) == BIN
    ensures Segments(BinFor(id, s)) == [".vaultbox", "recycle"] + [id + "__" + NameOf(s)]
  {
    BinIsKey();
    RootIsNotAKey(BIN);
    JoinOfParentAndName(s);
    var name := id + "__" + NameOf(s);
    GluedIsSegment(id, NameOf(s));
    assert BinFor(id, s) == JoinPath(BIN, name) by {
      hide BIN, NameOf;
      JoinInBin(BIN, id, NameOf(s));
    }
    hide *;
    ParentAndNameOfJoin(BIN, name);
  }

  /** A stored path that a request may name. */
  predicate IsVisible(s: string) {
    IsKey(s) && !IsHiddenName(Segments(s)[0])
  }

  predicate IsHiddenKey(k: string) {
    IsKey(k) && IsHiddenName(Segments(k)[0])
  }

  lemma {:induction false} VisibleIsApart(s: string, k: string)
    requires IsVisible(s) && IsHiddenKey(k)
    ensures !Under(s, k)
  {
    UnderIsSegmentPrefix(s, k);
  }

  lemma {:induction false} HiddenNameIsHidden()
    ensures IsHiddenName(".vaultbox")
  {
  }

  lemma {:induction false} BinIsApart(s: string, id: string)
    requires IsVisible(s) && IsSegment(id)
    ensures IsKey(BinFor(id, s)) && ParentOf(BinFor(id, s)) == BIN && IsHiddenKey(BinFor(id, s))
    ensures IsHiddenKey(BIN) && BIN != "/"
    ensures s != BinFor(id, s) && !Under(s, BinFor(id, s)) && !Under(s, BIN) && !Under(BinFor(id, s), BIN)
  {
    var t := BinFor(id, s);
    BinForIsKey(id, s);
    BinIsKey();
    RootIsNotAKey(BIN);
    HiddenNameIsHidden();
    hide *;
    assert IsHiddenKey(t) && IsHiddenKey(BIN);
    VisibleIsApart(s, t);
    VisibleIsApart(s, BIN);
    ParentStaysOut(t);
  }

  /** A request reaches an item where it has been put, unless it has been put at the top under the
      hidden name. Unlike `RenameAnswer`, a move or copy does not look whether it does that. */
  lemma {:induction false} ReachableExactly(m: FlatTree, s: string, dest: string, policy: Policy)
    requires IsKey(s) && (dest == "/" || IsVisible(dest)) && IsCanonical(dest) && Place(m, s, dest, policy).At?
    ensures var t := Place(m, s, dest, policy).target;
      ParsePath(t) == if dest == "/" && IsHiddenName(NameOf(t)) then Reserved else Parsed.Ok(t)
  {
    var t := Place(m, s, dest, policy).target;
    PlaceIsInDestination(m, s, dest, policy);
    FirstSegment(t);
    RootIsNotAKey(t);
    hide IsKey, Place, ParentOf, NameOf, Segments, ParsePath, IsHiddenName;
    CanonicalParses(t);
  }

  lemma {:induction false} FirstSegment(t: string)
    requires IsKey(t)
    ensures Segments(t) != []
    ensures ParentOf(t) == "/" ==> Segments(t)[0] == NameOf(t)
    ensures ParentOf(t) != "/" ==> Segments(ParentOf(t)) != [] && Segments(t)[0] == Segments(ParentOf(t))[0]
  {
    JoinOfParentAndName(t);
    CanonicalIsAbsolute(ParentOf(t));
    hide ParentOf, NameOf, Segments;
  }

  /** Deleting an item moves it, whole, to its own place in the bin, provided the bin is a
      folder; without that folder the item is cut off. */
  lemma {:induction false} DeleteExact(m: FlatTree, s: string, id: string)
    requires WellFormed(m) && s in m && IsVisible(s) && IsSegment(id) && FreeAt(m, BinFor(id, s))
    ensures IsKey(BinFor(id, s))
    ensures MovesSubtree(m, Relocated(m, s, BinFor(id, s), false), s, BinFor(id, s)) <==> IsDir(m, BIN)
  {
    var t := BinFor(id, s);
    BinIsApart(s, id);
    hide *;
    assert Under(t, t);
    if IsDir(m, BIN) {
      MoveGrafts(m, s, t);
    } else {
      BinlessOrphans(m, s, t);
    }
  }

  lemma {:induction false} BinlessOrphans(m: FlatTree, s: string, t: string)
    requires s in m && s != t && ParentOf(t) == BIN && BIN != "/"
    requires !IsDir(m, BIN) && !Under(t, BIN)
    ensures !WellFormed(Relocated(m, s, t, false))
  {
    MovedTarget(m, s, t);
    hide Under, Swap, ParentOf, BIN;
    assert BIN in Moved(m, s, t) ==> BIN in m;
    assert WellFormed(Moved(m, s, t)) ==> IsKey(t);
  }

  lemma {:induction false} MovedTarget(m: FlatTree, s: string, t: string)
    requires s in m
    ensures t in Moved(m, s, t)
  {
    SwapBack(t, s, t);
    assert Swap(t, s, t) == s;
  }
}
