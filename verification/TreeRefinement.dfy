/** Guarded requests on the flat map do and answer exactly what `TreeServer` says of the nested tree
    the map stands for; so do whole runs of them. */
module TreeRefinement {
  import opened Options
  import opened Paths
  import opened Naming
  import opened FileTree
  import opened NestedTree
  import opened Refinement
  import opened Subtrees
  import opened Requests
  import opened RequestFacts
  import opened Conservation
  import opened Effects
  import opened Replacing
  import opened Runs
  import opened Replies
  import opened Stores
  import opened TreeAnswers
  import opened TreeServer

  /** The map stands for the tree, and the replies are the same. */
  ghost predicate Refines(a: Answer, b: TreeAnswer) {
    WellFormed(a.tree) && Nested(a.tree) == b.tree && a.reply == b.reply
  }

  // ------------------------------------------------------------------------- single items

  /** The root is the one accepted path without segments. */
  lemma {:induction false} AcceptedSegments(raw: string)
    requires ParsePath(raw).Ok?
    ensures var p := ParsePath(raw).path;
      && IsCanonical(p) && (Segments(p) == [] <==> p == "/") && Absolute(Segments(p)) == p
      && (p != "/" ==> IsVisible(p) && NamesItem(raw))
  {
    ParsedIsCanonical(raw);
    CanonicalIsAbsolute(ParsePath(raw).path);
    hide ParsePath;
  }

  lemma {:induction false} MkdirRefines(m: FlatTree, raw: string)
    requires WellFormed(m)
    ensures Refines(MkdirAnswer(m, raw), MkdirOnTree(Nested(m), raw))
  {
    hide WellFormed, Nested, NodeAt, Graft, Segments, ParentOf, IsDir, IsKey, ParsePath;
    if ParsePath(raw).Ok? {
      AcceptedSegments(raw);
      var p := ParsePath(raw).path;
      if p != "/" {
        AcceptedIsKey(raw);
        Situation(m, p);
        if p !in m && IsDir(m, ParentOf(p)) {
          InsertGrafts(m, p, Folder);
        }
      }
    }
  }

  lemma {:induction false} PutRefines(m: FlatTree, writable: bool, raw: string, overwrite: bool, body: Bytes)
    requires WellFormed(m)
    ensures Refines(PutAnswer(m, writable, raw, overwrite, body), PutOnTree(Nested(m), writable, raw, overwrite, body))
  {
    hide WellFormed, Nested, NodeAt, Graft, Segments, ParentOf, IsDir, IsKey, ParsePath;
    if ParsePath(raw).Ok? {
      AcceptedSegments(raw);
      var p := ParsePath(raw).path;
      if p != "/" {
        AcceptedIsKey(raw);
        Situation(m, p);
        if p !in m && IsDir(m, ParentOf(p)) {
          InsertGrafts(m, p, File(body));
        }
        if p in m && m[p].File? {
          OverwriteGrafts(m, p, body);
        }
      }
    }
  }

  // ------------------------------------------------------------------------- one relocation

  lemma {:induction false} DetachNothing(t: Tree, path: seq<string>)
    requires path != [] && NodeAt(t, path).None?
    ensures Detach(t, path) == t
    decreases |path|
  {
    if t.Branch? && path[0] in t.kids {
      assert path == [path[0]] + path[1..];
      NodeAtStep(t, path[0], path[1..]);
      if |path| > 1 {
        DetachNothing(t.kids[path[0]], path[1..]);
      }
    }
  }

  lemma {:induction false} StoredIsKey(m: FlatTree, s: string)
    requires WellFormed(m) && s in m
    ensures IsKey(s)
  {
    hide IsDir, ParentOf;
  }

  /** What `MovedOnTree` does with an item that is there and goes somewhere else. */
  lemma {:induction false} MovedUnfolded(m: FlatTree, s: string, t: string, keep: bool)
    requires WellFormed(m) && s in m && IsKey(t) && s != t
    ensures IsKey(s) && Segments(s) != [] && Segments(t) != []
    ensures MovedOnTree(Nested(m), Segments(s), Segments(t), keep) ==
      Graft(ClearedTree(m, s, t, keep), Segments(t), SubtreeAt(m, s))
    ensures ClearedTree(m, s, t, keep) ==
      Detach(if keep then Nested(m) else Detach(Nested(m), Segments(s)), Segments(t))
  {
    assert IsKey(s);
    SameSegments(s, t);
    KeySegments(s);
    KeySegments(t);
    hide WellFormed, Nested, IsKey, Segments, Graft, Detach, SubtreeAt;
    SubtreeIsLookup(m, s);
  }

  /** At a free place nothing has to be cleared. */
  lemma {:induction false} FreeIsClear(m: FlatTree, s: string, t: string, keep: bool)
    requires WellFormed(m) && s in m && IsKey(s) && IsKey(t) && t !in m
    ensures Segments(s) != []
    ensures ClearedTree(m, s, t, keep) == if keep then Nested(m) else Detach(Nested(m), Segments(s))
  {
    KeySegments(s);
    KeySegments(t);
    hide WellFormed, Nested, IsKey, Segments, Detach, NodeAt;
    KeySeenInTree(m, t);
    DetachNothing(Nested(m), Segments(t));
    if !keep {
      NodeAtDetach(Nested(m), Segments(s), Segments(t));
      DetachNothing(Detach(Nested(m), Segments(s)), Segments(t));
    }
  }

  /** The guard of one relocation: a move does not go into the item, and nothing of an item that is
      replaced is left over. */
  ghost predicate IsTidy(m: FlatTree, s: string, t: string, keep: bool) {
    if s == t then keep
    else (keep || !Under(s, t)) && (t in m ==> NothingLeftOver(m, s, t, keep))
  }

  /** A relocation does what it should exactly if it is tidy. */
  lemma {:induction false} RelocationRefinesExactly(m: FlatTree, s: string, t: string, keep: bool)
    requires WellFormed(m) && s in m && IsKey(t) && IsDir(m, ParentOf(t))
    ensures
      WellFormed(Relocated(m, s, t, keep)) &&
      Nested(Relocated(m, s, t, keep)) == MovedOnTree(Nested(m), Segments(s), Segments(t), keep)
      <==> IsTidy(m, s, t, keep)
  {
    StoredIsKey(m, s);
    if s == t {
      MovedNowhere(Nested(m), Segments(s), keep);
      hide WellFormed, Nested, IsKey, ParentOf, IsDir, Under, Segments, Detach, MovedOnTree, Without;
      OwnTargetDetaches(m, s);
      DetachDiffers(m, s);
    } else {
      hide WellFormed, Nested, IsKey, ParentOf, IsDir, Under, Segments, Graft, Detach, SubtreeAt, NothingLeftOver,
        MovedOnTree, Moved, Copied;
      MovedUnfolded(m, s, t, keep);
      if t in m {
        ReplacesExactly(m, s, t, keep);
      } else {
        FreeIsClear(m, s, t, keep);
        if keep {
          CopyGrafts(m, s, t);
        } else if Under(s, t) {
          InnerTargetOrphans(m, s, t);
        } else {
          MoveGrafts(m, s, t);
        }
      }
    }
  }

  lemma {:induction false} DetachDiffers(m: FlatTree, s: string)
    requires WellFormed(m) && s in m
    ensures IsKey(s) && Segments(s) != [] && Detach(Nested(m), Segments(s)) != Nested(m)
  {
    StoredIsKey(m, s);
    KeySegments(s);
    hide WellFormed, Nested, IsKey, Segments, Detach, NodeAt;
    KeySeenInTree(m, s);
    NodeAtDetach(Nested(m), Segments(s), Segments(s));
  }

  lemma {:induction false} MovedNowhere(tree: Tree, path: seq<string>, keep: bool)
    ensures MovedOnTree(tree, path, path, keep) == tree
  {
  }

  lemma {:induction false} RenameRefines(m: FlatTree, raw: string, newName: string)
    requires WellFormed(m)
    requires ParsePath(raw).Ok? && ParsePath(raw).path != "/" ==> newName != NameOf(ParsePath(raw).path)
    ensures Refines(RenameAnswer(m, raw, newName), RenameOnTree(Nested(m), raw, newName))
  {
    hide WellFormed, Nested, NodeAt, Segments, ParentOf, NameOf, JoinPath, IsDir, IsKey, ParsePath,
      IsAllowedName, Relocated, MovedOnTree, IsTidy;
    if ParsePath(raw).Ok? {
      AcceptedSegments(raw);
      var p := ParsePath(raw).path;
      if p != "/" {
        AcceptedIsKey(raw);
        Situation(m, p);
        ParentAbsolute(p);
        if IsAllowedName(newName, ParentOf(p)) {
          AllowedIsSegment(newName, ParentOf(p));
          var t := JoinPath(ParentOf(p), newName);
          RenamedSegments(p, newName);
          SameSegments(p, t);
          KeySeenInTree(m, t);
          if p in m && t !in m {
            RenamedIsTidy(m, p, newName);
            RelocationRefinesExactly(m, p, t, false);
          }
          RenamedDiffers(p, newName);
        }
      }
    }
  }

  lemma {:induction false} ParentAbsolute(p: string)
    requires IsKey(p)
    ensures Absolute(Above(Segments(p))) == ParentOf(p)
  {
    JoinOfParentAndName(p);
    CanonicalIsAbsolute(ParentOf(p));
    assert Above(Segments(p)) == Segments(ParentOf(p));
  }

  lemma {:induction false} AllowedIsSegment(n: string, parent: string)
    requires IsAllowedName(n, parent)
    ensures IsSegment(n)
  {
  }

  lemma {:induction false} RenamedDiffers(p: string, newName: string)
    requires IsKey(p) && IsSegment(newName) && newName != NameOf(p)
    ensures JoinPath(ParentOf(p), newName) != p
  {
    JoinOfParentAndName(p);
    ParentAndNameOfJoin(ParentOf(p), newName);
  }

  lemma {:induction false} RenamedIsTidy(m: FlatTree, p: string, newName: string)
    requires WellFormed(m) && p in m && IsSegment(newName) && newName != NameOf(p)
    requires JoinPath(ParentOf(p), newName) !in m
    ensures var t := JoinPath(ParentOf(p), newName);
      IsKey(t) && IsDir(m, ParentOf(t)) && IsTidy(m, p, t, false)
  {
    var t := JoinPath(ParentOf(p), newName);
    assert IsKey(p) && IsDir(m, ParentOf(p));
    hide WellFormed, IsKey, ParentOf, NameOf, JoinPath, IsDir, Under;
    JoinOfParentAndName(p);
    ParentAndNameOfJoin(ParentOf(p), newName);
    if Under(p, t) {
      UnderSameParent(p, t);
    }
  }

  // -------------------------------------------------------------------------------- batches

  lemma {:induction false} NameSeen(tree: Tree, dir: seq<string>, name: string)
    ensures NodeAt(tree, dir + [name]).Some? <==> name in NamesIn(tree, dir)
  {
    LookupConcat(tree, dir, [name]);
    if Lookup(tree, dir).Some? {
      assert Lookup(Lookup(tree, dir).value, [name]).Some? <==> name in NamesIn(tree, dir);
    }
  }

  lemma {:induction false} SameFirstFree(a: set<string>, b: set<string>, x: string, y: string, ext: string)
    requires forall i: nat :: i >= 1 ==> (Numbered(x, i, ext) in a <==> Numbered(y, i, ext) in b)
    ensures FirstFree(a, x, 1, ext) == FirstFree(b, y, 1, ext)
  {
    hide Numbered;
    var i, j := FirstFree(a, x, 1, ext), FirstFree(b, y, 1, ext);
    hide FirstFree;
    assert Numbered(x, i, ext) in a <==> Numbered(y, i, ext) in b;
    assert Numbered(x, j, ext) in a <==> Numbered(y, j, ext) in b;
  }

  /** The number found among the keys is the one found among the names in the folder. */
  lemma {:induction false} NumberFound(m: FlatTree, dest: string, name: string)
    requires WellFormed(m) && IsCanonical(dest) && IsSegment(name)
    ensures FirstFree(m.Keys, JoinPath(dest, Base(name)), 1, Extension(name)) ==
      FirstFree(NamesIn(Nested(m), Segments(dest)), Base(name), 1, Extension(name))
  {
    hide *;
    forall i: nat | i >= 1
      ensures Numbered(JoinPath(dest, Base(name)), i, Extension(name)) in m.Keys <==>
        Numbered(Base(name), i, Extension(name)) in NamesIn(Nested(m), Segments(dest))
    {
      NumberedIsJoined(dest, name, i);
      NumberedSeenInTree(m, dest, name, i);
      NameSeen(Nested(m), Segments(dest), Numbered(Base(name), i, Extension(name)));
    }
    SameFirstFree(m.Keys, NamesIn(Nested(m), Segments(dest)), JoinPath(dest, Base(name)), Base(name), Extension(name));
  }

  /** The place found among the keys, seen in the tree. */
  ghost predicate SamePlace(place: Placement, onTree: TreePlace) {
    match place
    case At(t) => IsKey(t) && onTree == TreeAt(Segments(t)) && Absolute(Segments(t)) == t
    case Occupied => onTree == TreeOccupied
    case Unmatched => onTree == TreeUnmatched
  }

  lemma {:induction false} PlaceRefines(m: FlatTree, s: string, dest: string, policy: Policy)
    requires WellFormed(m) && s in m && IsCanonical(dest)
    ensures SamePlace(Place(m, s, dest, policy), PlaceOnTree(Nested(m), Segments(s), Segments(dest), policy))
  {
    hide *;
    var name := NameOf(s);
    NameHasPlace(m, s, dest);
    StoredIsKey(m, s);
    KeyLast(s);
    PlaceUnfolded(m, s, dest, policy);
    JoinedSeenInTree(m, dest, name);
    NameSeen(Nested(m), Segments(dest), name);
    JoinedIsKey(dest, name);
    NumberFound(m, dest, name);
    NumberedPlace(m, dest, name);
    var ext := Extension(name);
    var i := FirstFree(m.Keys, JoinPath(dest, Base(name)), 1, ext);
    NumberedIsJoined(dest, name, i);
    JoinedIsKey(dest, Numbered(Base(name), i, ext));
    PlaceOnTreeUnfolded(Nested(m), Segments(s), Segments(dest), policy);
    SamePlaceUnfolded(Place(m, s, dest, policy), PlaceOnTree(Nested(m), Segments(s), Segments(dest), policy));
  }

  lemma {:induction false} JoinedIsKey(dest: string, name: string)
    requires IsCanonical(dest) && IsSegment(name)
    ensures var t := JoinPath(dest, name);
      IsKey(t) && Segments(t) == Segments(dest) + [name] && Absolute(Segments(t)) == t
  {
    ParentAndNameOfJoin(dest, name);
    CanonicalIsAbsolute(JoinPath(dest, name));
  }

  lemma {:induction false} KeyLast(s: string)
    requires IsKey(s)
    ensures LastOf(Segments(s)) == NameOf(s)
  {
    hide IsKey, Segments, ParentOf, NameOf;
    JoinOfParentAndName(s);
  }

  lemma {:induction false} PlaceOnTreeUnfolded(tree: Tree, path: seq<string>, dir: seq<string>, policy: Policy)
    ensures var place, name := PlaceOnTree(tree, path, dir, policy), LastOf(path);
      if name !in NamesIn(tree, dir) || path == dir + [name] || policy == Replace then place == TreeAt(dir + [name])
      else if policy == Skip then place == TreeOccupied
      else if HasLineTerminator(Base(name)) then place == TreeUnmatched
      else
        var i := FirstFree(NamesIn(tree, dir), Base(name), 1, Extension(name));
        place == TreeAt(dir + [Numbered(Base(name), i, Extension(name))])
  {
    hide NamesIn, LastOf, HasLineTerminator, Numbered, FirstFree;
  }

  lemma {:induction false} SamePlaceUnfolded(place: Placement, onTree: TreePlace)
    ensures place.At? ==>
      (SamePlace(place, onTree) <==>
       && IsKey(place.target) && onTree == TreeAt(Segments(place.target))
       && Absolute(Segments(place.target)) == place.target)
    ensures place.Occupied? ==> (SamePlace(place, onTree) <==> onTree == TreeOccupied)
    ensures place.Unmatched? ==> (SamePlace(place, onTree) <==> onTree == TreeUnmatched)
  {
    hide IsKey, Segments, Absolute;
  }

  /** The progress of a batch, seen in the tree. */
  ghost predicate SameProgress(p: Progress, onTree: TreeProgress) {
    WellFormed(p.tree) && onTree == TreeProgress(Nested(p.tree), p.results, p.crashed)
  }

  /** The guard of one step. */
  ghost predicate StepIsTidy(now: Progress, s: string, dest: string, policy: Policy, keep: bool) {
    !now.crashed && s in now.tree && Place(now.tree, s, dest, policy).At? ==>
      IsTidy(now.tree, s, Place(now.tree, s, dest, policy).target, keep)
  }

  lemma {:induction false} StepUnfolded(now: Progress, s: string, dest: string, policy: Policy, keep: bool)
    ensures var next, place := TransferStep(now, s, dest, policy, keep), Place(now.tree, s, dest, policy);
      if now.crashed then next == now
      else if s !in now.tree then next == now.(results := now.results + [Result(s, NotFound)])
      else if place.Occupied? then next == now.(results := now.results + [Result(s, Skipped)])
      else if place.Unmatched? then next == now.(crashed := true)
      else
        next == Progress(Relocated(now.tree, s, place.target, keep),
                         now.results + [Result(s, Completed(place.target))], false)
  {
    hide Place, Relocated;
  }

  lemma {:induction false} StepOnTreeUnfolded(now: TreeProgress, path: seq<string>, dir: seq<string>, policy: Policy,
                                              keep: bool)
    ensures var next, place := StepOnTree(now, path, dir, policy, keep), PlaceOnTree(now.tree, path, dir, policy);
      if now.crashed then next == now
      else if NodeAt(now.tree, path).None? then
        next == now.(results := now.results + [Result(Absolute(path), NotFound)])
      else if place.TreeOccupied? then next == now.(results := now.results + [Result(Absolute(path), Skipped)])
      else if place.TreeUnmatched? then next == now.(crashed := true)
      else
        next == TreeProgress(MovedOnTree(now.tree, path, place.target, keep),
                             now.results + [Result(Absolute(path), Completed(Absolute(place.target)))], false)
  {
    hide PlaceOnTree, NodeAt, MovedOnTree, Absolute;
  }

  /** One source of a batch, seen in the tree. */
  lemma {:induction false} StepRefines(now: Progress, s: string, dest: string, policy: Policy, keep: bool)
    requires WellFormed(now.tree) && IsKey(s) && IsCanonical(dest) && IsDir(now.tree, dest)
    requires StepIsTidy(now, s, dest, policy, keep)
    ensures SameProgress(TransferStep(now, s, dest, policy, keep),
                         StepOnTree(TreeProgress(Nested(now.tree), now.results, now.crashed),
                                    Segments(s), Segments(dest), policy, keep))
  {
    var m, onTree := now.tree, TreeProgress(Nested(now.tree), now.results, now.crashed);
    var next := TransferStep(now, s, dest, policy, keep);
    hide *;
    KeyAbsolute(s);
    KeySeenInTree(m, s);
    StepUnfolded(now, s, dest, policy, keep);
    StepOnTreeUnfolded(onTree, Segments(s), Segments(dest), policy, keep);
    if !now.crashed && s in m {
      PlaceRefines(m, s, dest, policy);
      SamePlaceUnfolded(Place(m, s, dest, policy), PlaceOnTree(Nested(m), Segments(s), Segments(dest), policy));
      if Place(m, s, dest, policy).At? {
        var t := Place(m, s, dest, policy).target;
        StepIsTidyUnfolded(now, s, dest, policy, keep);
        PlaceIsInDestination(m, s, dest, policy);
        RelocationRefinesExactly(m, s, t, keep);
      }
    }
    SameProgressIs(next, StepOnTree(onTree, Segments(s), Segments(dest), policy, keep));
  }

  lemma {:induction false} StepIsTidyUnfolded(now: Progress, s: string, dest: string, policy: Policy, keep: bool)
    requires StepIsTidy(now, s, dest, policy, keep) && !now.crashed && s in now.tree
    requires Place(now.tree, s, dest, policy).At?
    ensures IsTidy(now.tree, s, Place(now.tree, s, dest, policy).target, keep)
  {
    hide IsTidy, Place;
  }

  lemma {:induction false} SameProgressIs(p: Progress, onTree: TreeProgress)
    ensures SameProgress(p, onTree) <==>
      WellFormed(p.tree) && onTree.tree == Nested(p.tree) && onTree.results == p.results && onTree.crashed == p.crashed
  {
    hide WellFormed, Nested;
  }

  lemma {:induction false} KeyAbsolute(s: string)
    requires IsKey(s)
    ensures Absolute(Segments(s)) == s
  {
  }

  /** With `replace`, nothing of an item is left over when another takes its place. */
  ghost predicate NothingStays(m: FlatTree, sources: seq<string>, dest: string, keep: bool) {
    forall i :: 0 <= i < |sources| ==> ReplacesWholeAt(m, sources, dest, keep, i)
  }

  ghost predicate ReplacesWholeAt(m: FlatTree, sources: seq<string>, dest: string, keep: bool, i: nat)
    requires i < |sources|
  {
    ReplacesWhole(TransferAll(m, sources[..i], dest, Replace, keep).tree, sources[i], dest, keep)
  }

  ghost predicate ReplacesWhole(now: FlatTree, s: string, dest: string, keep: bool) {
    s in now && !NameIsFree(now, s, dest) ==> NothingLeftOver(now, s, JoinPath(dest, NameOf(s)), keep)
  }

  /** The guard of a batch. */
  ghost predicate BatchIsTidy(m: FlatTree, sources: seq<string>, dest: string, policy: Policy, keep: bool) {
    && AllVisible(sources)
    && (!keep ==> forall s :: s in sources ==> MayMove(s, dest))
    && (policy == Replace ==> AllMayReplace(m, sources, dest, keep) && NothingStays(m, sources, dest, keep))
  }

  lemma {:induction false} FrontIsTidy(m: FlatTree, sources: seq<string>, dest: string, policy: Policy, keep: bool)
    requires sources != [] && BatchIsTidy(m, sources, dest, policy, keep)
    ensures var n := |sources| - 1;
      && BatchIsTidy(m, sources[..n], dest, policy, keep)
      && IsVisible(sources[n]) && (!keep ==> MayMove(sources[n], dest))
      && (policy == Replace ==>
            ReplacesWhole(TransferAll(m, sources[..n], dest, Replace, keep).tree, sources[n], dest, keep))
  {
    hide ReplacesWhole, TransferAll, IsVisible, MayMove, AllMayReplace;
    var front := sources[..|sources| - 1];
    assert sources[|sources| - 1] in sources;
    if policy == Replace {
      FrontMayReplace(m, sources, dest, keep);
      assert ReplacesWholeAt(m, sources, dest, keep, |front|);
      forall i | 0 <= i < |front|
        ensures ReplacesWholeAt(m, front, dest, keep, i)
      {
        assert ReplacesWholeAt(m, sources, dest, keep, i);
        assert front[..i] == sources[..i] && front[i] == sources[i];
      }
    }
  }

  lemma {:induction false} StepTidies(now: Progress, s: string, dest: string, policy: Policy, keep: bool)
    requires WellFormed(now.tree) && IsVisible(s) && IsCanonical(dest) && (!keep ==> MayMove(s, dest))
    requires policy == Replace ==> ReplacesWhole(now.tree, s, dest, keep)
    ensures StepIsTidy(now, s, dest, policy, keep)
  {
    hide WellFormed, IsKey, IsCanonical, ParentOf, NameOf, JoinPath, Under, NothingLeftOver, Place;
    if !now.crashed && s in now.tree && Place(now.tree, s, dest, policy).At? {
      var t := Place(now.tree, s, dest, policy).target;
      PlaceIsInDestination(now.tree, s, dest, policy);
      if policy == Replace {
        PlaceToReplace(now.tree, s, dest);
      }
      if t != s {
        UnderChild(s, t);
      }
    }
  }

  /** A batch keeps what the guard of its next step needs. */
  lemma {:induction false} BatchKeeps(m: FlatTree, sources: seq<string>, dest: string, policy: Policy, keep: bool)
    requires Sound(m) && IsCanonical(dest) && IsDir(m, dest) && BatchIsTidy(m, sources, dest, policy, keep)
    ensures var after := TransferAll(m, sources, dest, policy, keep).tree;
      Sound(after) && WellFormed(after) && IsDir(after, dest)
  {
    hide WellFormed, HiddenKept, IsCanonical, IsDir, TransferAll, AllVisible, MayMove, AllMayReplace, NothingStays,
      Contents, BatchUntangled;
    if policy == Replace {
      ReplaceAllKeeps(m, sources, dest, keep);
    } else {
      TransferKeeps(m, sources, dest, policy, keep);
    }
  }

  /** A guarded batch does to the tree what it should, one source after another, and reports it. */
  lemma {:induction false} BatchRefines(m: FlatTree, sources: seq<string>, dest: string, policy: Policy, keep: bool)
    requires Sound(m) && IsCanonical(dest) && IsDir(m, dest) && BatchIsTidy(m, sources, dest, policy, keep)
    ensures WellFormed(m)
    ensures SameProgress(TransferAll(m, sources, dest, policy, keep),
                         BatchOnTree(Nested(m), sources, Segments(dest), policy, keep))
  {
    SoundIsWellFormed(m);
    hide Sound, IsCanonical, IsDir, WellFormed, Nested, BatchIsTidy, IsVisible, MayMove, ReplacesWhole, TransferStep,
      StepOnTree, Segments, StepIsTidy;
    if sources != [] {
      var n := |sources| - 1;
      FrontIsTidy(m, sources, dest, policy, keep);
      BatchRefines(m, sources[..n], dest, policy, keep);
      var before := TransferAll(m, sources[..n], dest, policy, keep);
      BatchKeeps(m, sources[..n], dest, policy, keep);
      VisibleIsKey(sources[n]);
      StepTidies(before, sources[n], dest, policy, keep);
      StepRefines(before, sources[n], dest, policy, keep);
    }
  }

  lemma {:induction false} VisibleIsKey(s: string)
    requires IsVisible(s)
    ensures IsKey(s)
  {
    hide IsKey;
  }

  // ------------------------------------------------------------------------------ deletions

  lemma {:induction false} DeleteUnfolded(now: Progress, s: string, id: string)
    ensures DeleteStep(now, s, id) ==
      if s !in now.tree then now.(results := now.results + [Result(s, NotFound)])
      else Progress(Relocated(now.tree, s, BinFor(id, s), false),
                    now.results + [Result(s, Completed(BinFor(id, s)))], now.crashed)
  {
    hide BinFor, Relocated;
  }

  lemma {:induction false} DeleteOnTreeUnfolded(now: TreeProgress, path: seq<string>, id: string, target: seq<string>)
    requires target == [".vaultbox", "recycle"] + [id + "__" + LastOf(path)]
    ensures DeleteStepOnTree(now, path, id) ==
      if NodeAt(now.tree, path).None? then now.(results := now.results + [Result(Absolute(path), NotFound)])
      else TreeProgress(MovedOnTree(now.tree, path, target, false),
                        now.results + [Result(Absolute(path), Completed(Absolute(target)))], now.crashed)
  {
    assert target == [".vaultbox", "recycle", id + "__" + LastOf(path)];
    hide NodeAt, MovedOnTree, Absolute, LastOf;
  }

  lemma {:induction false} BinIsTidy(m: FlatTree, s: string, id: string)
    requires IsVisible(s) && IsSegment(id) && FreeAt(m, BinFor(id, s))
    ensures IsKey(BinFor(id, s)) && ParentOf(BinFor(id, s)) == BIN && IsTidy(m, s, BinFor(id, s), false)
  {
    BinIsApart(s, id);
    hide BinFor, BIN, IsKey, ParentOf, IsHiddenKey, IsVisible, NothingLeftOver;
    assert Under(BinFor(id, s), BinFor(id, s));
  }

  lemma {:induction false} DeleteStepRefines(now: Progress, s: string, id: string)
    requires Sound(now.tree) && IsVisible(s) && IsSegment(id) && FreeAt(now.tree, BinFor(id, s))
    ensures WellFormed(now.tree)
    ensures SameProgress(DeleteStep(now, s, id),
                         DeleteStepOnTree(TreeProgress(Nested(now.tree), now.results, now.crashed), Segments(s), id))
  {
    hide *;
    SoundIsWellFormed(now.tree);
    var m, bin, onTree := now.tree, BinFor(id, s), TreeProgress(Nested(now.tree), now.results, now.crashed);
    VisibleIsKey(s);
    KeyAbsolute(s);
    BinForIsKey(id, s);
    BinIsTidy(m, s, id);
    KeyAbsolute(bin);
    KeySeenInTree(m, s);
    DeleteUnfolded(now, s, id);
    KeyLast(s);
    DeleteOnTreeUnfolded(onTree, Segments(s), id, Segments(bin));
    if s in m {
      RelocationRefinesExactly(m, s, bin, false);
    }
    SameProgressIs(DeleteStep(now, s, id), DeleteStepOnTree(onTree, Segments(s), id));
  }

  lemma {:induction false} DeletionsRefine(m: FlatTree, sources: seq<string>, ids: seq<string>)
    requires Sound(m) && AllVisible(sources) && |sources| <= |ids| && FreshIds(m, ids)
    ensures WellFormed(m)
    ensures SameProgress(DeleteAll(m, sources, ids), DeletionsOnTree(Nested(m), sources, ids))
  {
    SoundIsWellFormed(m);
    assert forall i :: 0 <= i < |ids| ==> IsSegment(ids[i]);
    hide Sound, IsVisible, FreshIds, FreeAt, BinFor, DeleteStep, DeleteStepOnTree, Kept, IsSegment, WellFormed,
      Nested, Segments;
    if sources != [] {
      var n := |sources| - 1;
      DeletionsRefine(m, sources[..n], ids);
      DeleteKeeps(m, sources[..n], ids);
      BinStaysFree(m, sources[..n], ids, sources[n]);
      assert sources[n] in sources;
      var before := DeleteAll(m, sources[..n], ids);
      KeptIsSound(m, before.tree, true);
      DeleteStepRefines(before, sources[n], ids[n]);
    }
  }

  // ------------------------------------------------------------------------- whole requests

  /** Guarded, and with `replace` nothing is left over. */
  ghost predicate Tidy(m: FlatTree, r: Request) {
    && Guarded(m, r)
    && (r.Transfer? && r.policy == Replace && TransferRuns(m, r.sources, r.destination) ==>
          NothingStays(m, PathsOf(ParsedSources(r.sources)), ParsePath(r.destination).path, r.keep))
  }

  lemma {:induction false} TransferOnTreeUnfolded(m: FlatTree, tree: Tree, keep: bool, raws: seq<string>,
                                                  rawDest: string, policy: Policy)
    ensures var a, b := TransferAnswer(m, keep, raws, rawDest, policy),
      TransferOnTree(tree, keep, raws, rawDest, policy);
      if SourcesRefusal(raws).None? && ParsePath(rawDest).Ok? then
        var sources, dest := PathsOf(ParsedSources(raws)), ParsePath(rawDest).path;
        var p, q := TransferAll(m, sources, dest, policy, keep),
          BatchOnTree(tree, sources, Segments(dest), policy, keep);
        && a == (if IsDir(m, dest) then Answer(p.tree, BatchReply(p))
                 else Answer(m, Refused(409, "destination_not_found")))
        && b == (if IsFolderAt(tree, Segments(dest)) then TreeAnswer(q.tree, ReplyTo(q.results, q.crashed))
                 else TreeAnswer(tree, Refused(409, "destination_not_found")))
      else a.tree == m && b == TreeAnswer(tree, a.reply)
  {
    hide SourcesRefusal, ParsePath, IsDir, IsFolderAt, TransferAll, BatchOnTree, BatchReply, ReplyTo, Segments;
  }

  lemma {:induction false} SameReply(p: Progress, q: TreeProgress)
    requires SameProgress(p, q)
    ensures BatchReply(p) == ReplyTo(q.results, q.crashed)
    ensures WellFormed(p.tree) && q.tree == Nested(p.tree)
  {
    CountsAre(p.results);
    hide WellFormed, Nested, CountCompleted, CountSkipped, CountNotFound;
  }

  lemma {:induction false} TransferRefines(m: FlatTree, keep: bool, raws: seq<string>, rawDest: string, policy: Policy)
    requires Sound(m) && Tidy(m, Transfer(keep, raws, rawDest, policy))
    ensures WellFormed(m)
    ensures Refines(TransferAnswer(m, keep, raws, rawDest, policy),
      TransferOnTree(Nested(m), keep, raws, rawDest, policy))
  {
    SoundIsWellFormed(m);
    hide SourcesRefusal, ParsePath, IsDir, IsFolderAt, TransferAll, BatchOnTree, BatchReply, ReplyTo, Segments,
      WellFormed, Nested, Sound, Tidy, TransferAnswer, TransferOnTree, IsCanonical, IsVisible, BatchIsTidy,
      SameProgress;
    TransferOnTreeUnfolded(m, Nested(m), keep, raws, rawDest, policy);
    if SourcesRefusal(raws).None? && ParsePath(rawDest).Ok? {
      var sources, dest := PathsOf(ParsedSources(raws)), ParsePath(rawDest).path;
      AcceptedSegments(rawDest);
      FolderSeenInTree(m, dest);
      if IsDir(m, dest) {
        TransferIsTidy(m, keep, raws, rawDest, policy);
        hide *;
        BatchRefines(m, sources, dest, policy, keep);
        SameReply(TransferAll(m, sources, dest, policy, keep),
          BatchOnTree(Nested(m), sources, Segments(dest), policy, keep));
      }
    }
    hide *;
    RefinesIs(TransferAnswer(m, keep, raws, rawDest, policy), TransferOnTree(Nested(m), keep, raws, rawDest, policy));
  }

  lemma {:induction false} RefinesIs(a: Answer, b: TreeAnswer)
    ensures Refines(a, b) <==> WellFormed(a.tree) && Nested(a.tree) == b.tree && a.reply == b.reply
  {
    hide WellFormed, Nested;
  }

  lemma {:induction false} TransferIsTidy(m: FlatTree, keep: bool, raws: seq<string>, rawDest: string, policy: Policy)
    requires Tidy(m, Transfer(keep, raws, rawDest, policy)) && TransferRuns(m, raws, rawDest)
    ensures BatchIsTidy(m, PathsOf(ParsedSources(raws)), ParsePath(rawDest).path, policy, keep)
  {
    hide ParsePath, MayMove, AllMayReplace, SourcesRefusal, IsDir, AllVisible, NothingStays, Guarded;
    SourcesAreVisible(raws);
    if !keep {
      SourcesMayMove(m, raws, rawDest, policy);
    }
    if policy == Replace {
      GuardedReplaces(m, keep, raws, rawDest);
    }
  }

  lemma {:induction false} DeleteRefines(m: FlatTree, raws: seq<string>, ids: seq<string>)
    requires Sound(m) && |raws| <= |ids| && FreshIds(m, ids)
    ensures WellFormed(m)
    ensures Refines(DeleteAnswer(m, raws, ids), DeleteOnTree(Nested(m), raws, ids))
  {
    SoundIsWellFormed(m);
    hide Sound, WellFormed, Nested, FreshIds, SourcesRefusal, AllVisible, DeleteAll, DeletionsOnTree, BatchReply,
      ReplyTo, SameProgress;
    if SourcesRefusal(raws).None? {
      SourcesAreVisible(raws);
      DeletionsRefine(m, PathsOf(ParsedSources(raws)), ids);
      SameReply(DeleteAll(m, PathsOf(ParsedSources(raws)), ids),
        DeletionsOnTree(Nested(m), PathsOf(ParsedSources(raws)), ids));
    }
  }

  /** Every guarded request does to the tree, and answers, what it should. */
  lemma {:induction false} RequestRefines(m: FlatTree, rootId: string, r: Request)
    requires Sound(m) && HasIds(r) && Tidy(m, r)
    ensures WellFormed(m)
    ensures Refines(Apply(m, rootId, r), ApplyOnTree(Nested(m), rootId, r))
  {
    SoundIsWellFormed(m);
    match r {
      case Mkdir(path) => MkdirRefines(m, path);
      case Put(path, overwrite, body) => PutRefines(m, rootId == "phone", path, overwrite, body);
      case Rename(path, newName) => RenameRefines(m, path, newName);
      case Transfer(keep, sources, destination, policy) => TransferRefines(m, keep, sources, destination, policy);
      case Delete(paths, ids) => DeleteRefines(m, paths, ids);
    }
    hide Sound, WellFormed, Nested, MkdirAnswer, MkdirOnTree, PutAnswer, PutOnTree, RenameAnswer, RenameOnTree,
      TransferAnswer,
      TransferOnTree, DeleteAnswer, DeleteOnTree, FreshIds, ParsePath, SourcesRefusal, NothingStays, AllMayReplace;
  }

  // --------------------------------------------------------------------------------- runs

  /** Every request of the run is guarded, and leaves nothing over, in the state it finds. */
  ghost predicate TidyRun(m: FlatTree, calls: seq<Call>) {
    && (forall c :: c in calls ==> HasIds(c.request))
    && (forall i :: 0 <= i < |calls| ==> Tidy(After(m, calls[..i]), calls[i].request))
  }

  lemma {:induction false} TidyUpTo(m: FlatTree, calls: seq<Call>, n: nat)
    requires n <= |calls| && TidyRun(m, calls)
    ensures TidyRun(m, calls[..n])
  {
    hide Tidy, HasIds, After;
    forall i | 0 <= i < n
      ensures Tidy(After(m, calls[..n][..i]), calls[..n][i].request)
    {
      assert calls[..n][..i] == calls[..i] && calls[..n][i] == calls[i];
    }
  }

  lemma {:induction false} TidyIsGuarded(m: FlatTree, calls: seq<Call>)
    requires TidyRun(m, calls)
    ensures GuardedRun(m, calls)
  {
    hide Guarded, HasIds, After, NothingStays;
    forall i | 0 <= i < |calls|
      ensures Guarded(After(m, calls[..i]), calls[i].request)
    {
      assert Tidy(After(m, calls[..i]), calls[i].request);
    }
  }

  lemma {:induction false} RunStaysSound(m: FlatTree, calls: seq<Call>)
    requires Sound(m) && TidyRun(m, calls)
    ensures Sound(After(m, calls)) && WellFormed(After(m, calls))
  {
    hide Sound, TidyRun, HiddenKept, Contents, HasIds, After, Overwrites, OnlyMoves;
    TidyIsGuarded(m, calls);
    RunKeepsFrom(m, calls, 0);
    SoundIsWellFormed(After(m, calls));
  }

  lemma {:induction false} RunSameTree(m: FlatTree, calls: seq<Call>)
    requires Sound(m) && TidyRun(m, calls)
    ensures WellFormed(m) && WellFormed(After(m, calls))
    ensures Nested(After(m, calls)) == RunOnTree(Nested(m), calls)
  {
    SoundIsWellFormed(m);
    hide Sound, WellFormed, Nested, Tidy, HasIds, Apply, ApplyOnTree;
    if calls != [] {
      var n := |calls| - 1;
      TidyUpTo(m, calls, n);
      RunSameTree(m, calls[..n]);
      RunStaysSound(m, calls[..n]);
      assert calls[n] in calls;
      RequestRefines(After(m, calls[..n]), calls[n].rootId, calls[n].request);
    }
  }

  /** Over every guarded run the flat map stands for the tree that the same requests make of the nested
      tree, and every single reply is the one given there. */
  lemma {:induction false} RunRefines(m: FlatTree, calls: seq<Call>)
    requires Sound(m) && TidyRun(m, calls)
    ensures WellFormed(m) && WellFormed(After(m, calls))
    ensures Nested(After(m, calls)) == RunOnTree(Nested(m), calls)
    ensures forall i :: 0 <= i < |calls| ==>
      Apply(After(m, calls[..i]), calls[i].rootId, calls[i].request).reply ==
      ApplyOnTree(RunOnTree(Nested(m), calls[..i]), calls[i].rootId, calls[i].request).reply
  {
    RunSameTree(m, calls);
    hide Sound, WellFormed, Nested, Tidy, HasIds, Apply, ApplyOnTree, After, RunOnTree;
    forall i | 0 <= i < |calls|
      ensures Apply(After(m, calls[..i]), calls[i].rootId, calls[i].request).reply ==
              ApplyOnTree(RunOnTree(Nested(m), calls[..i]), calls[i].rootId, calls[i].request).reply
    {
      TidyUpTo(m, calls, i);
      RunSameTree(m, calls[..i]);
      RunStaysSound(m, calls[..i]);
      RequestRefines(After(m, calls[..i]), calls[i].rootId, calls[i].request);
    }
  }

  /** So does the server itself, with its keys in whatever order they were set. */
  lemma {:induction false} ServerRefines(st: Store, calls: seq<Call>)
    requires IsStore(st) && Sound(st.nodes) && TidyRun(st.nodes, calls)
    ensures WellFormed(st.nodes) && WellFormed(RunIn(st, calls).nodes)
    ensures Nested(RunIn(st, calls).nodes) == RunOnTree(Nested(st.nodes), calls)
    ensures forall i :: 0 <= i < |calls| ==>
      ApplyIn(RunIn(st, calls[..i]), calls[i].rootId, calls[i].request).reply ==
      ApplyOnTree(RunOnTree(Nested(st.nodes), calls[..i]), calls[i].rootId, calls[i].request).reply
  {
    var m := st.nodes;
    RunRefines(m, calls);
    StoreRunIs(st, calls, |calls|);
    assert calls[..|calls|] == calls;
    hide IsStore, Sound, WellFormed, Nested, TidyRun, HasIds, Apply, ApplyIn, ApplyOnTree, After, RunIn, RunOnTree;
    forall i | 0 <= i < |calls|
      ensures ApplyIn(RunIn(st, calls[..i]), calls[i].rootId, calls[i].request).reply ==
              ApplyOnTree(RunOnTree(Nested(m), calls[..i]), calls[i].rootId, calls[i].request).reply
    {
      StoreRunIs(st, calls, i);
      SameReplyIn(RunIn(st, calls[..i]), calls[i].rootId, calls[i].request);
    }
  }

  lemma {:induction false} StoreRunIs(st: Store, calls: seq<Call>, i: nat)
    requires IsStore(st) && Sound(st.nodes) && TidyRun(st.nodes, calls) && i <= |calls|
    ensures forall c :: c in calls ==> HasIds(c.request)
    ensures IsStore(RunIn(st, calls[..i])) && RunIn(st, calls[..i]).nodes == After(st.nodes, calls[..i])
    ensures i < |calls| ==> RequestUntangled(After(st.nodes, calls[..i]), calls[i].request)
  {
    assert forall c :: c in calls ==> HasIds(c.request);
    hide IsStore, Sound, HasIds, After, RunIn, RequestUntangled, GuardedRun, Tidy;
    TidyIsGuarded(st.nodes, calls);
    GuardedIsUntangled(st.nodes, calls);
    TidyUpTo(st.nodes, calls, i);
    TidyIsGuarded(st.nodes, calls[..i]);
    GuardedIsUntangled(st.nodes, calls[..i]);
    RunIs(st, calls[..i]);
  }

  lemma {:induction false} SameReplyIn(st: Store, rootId: string, r: Request)
    requires IsStore(st) && HasIds(r) && RequestUntangled(st.nodes, r)
    ensures ApplyIn(st, rootId, r).reply == Apply(st.nodes, rootId, r).reply
  {
    hide IsStore, HasIds, RequestUntangled, Apply, ApplyIn;
    RequestIs(st, rootId, r);
  }
}
