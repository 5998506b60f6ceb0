/** Whole runs of requests: what no guarded sequence of them can break or lose. */
module Runs {
  import opened Options
  import opened Paths
  import opened Naming
  import opened FileTree
  import opened Subtrees
  import opened Requests
  import opened RequestFacts
  import opened Conservation
  import opened Effects
  import opened Replacing

  /** The tree is well-formed and has the bin folder the server was started with. */
  ghost predicate Sound(m: FlatTree) {
    WellFormed(m) && IsDir(m, BIN)
  }

  lemma {:induction false} SoundIsWellFormed(m: FlatTree)
    requires Sound(m)
    ensures WellFormed(m) && IsDir(m, BIN)
  {
    hide WellFormed;
  }

  /** With `replace` an item may go to a free place, or over another visible item if the loop is
      not tangled and nothing left over there loses its folder. */
  ghost predicate MayReplace(m: FlatTree, s: string, dest: string, keep: bool) {
    var t := JoinPath(dest, NameOf(s));
    s !in m || NameIsFree(m, s, dest) || (IsVisible(t) && Untangled(m, s, t, keep) && KeepsFolders(m, s, t, keep))
  }

  /** Every item of the batch may, when its turn comes. */
  ghost predicate AllMayReplace(m: FlatTree, sources: seq<string>, dest: string, keep: bool) {
    forall i :: 0 <= i < |sources| ==> MayReplaceAt(m, sources, dest, keep, i)
  }

  ghost predicate MayReplaceAt(m: FlatTree, sources: seq<string>, dest: string, keep: bool, i: nat)
    requires i < |sources|
  {
    MayReplace(TransferAll(m, sources[..i], dest, Replace, keep).tree, sources[i], dest, keep)
  }

  /** The request gets as far as its loop. */
  predicate TransferRuns(m: FlatTree, raws: seq<string>, rawDest: string) {
    SourcesRefusal(raws).None? && ParsePath(rawDest).Ok? && IsDir(m, ParsePath(rawDest).path)
  }

  /** A guard the caller can check: no rename to the same name, no move into the item's own
      folder or into the item, `replace` only as above, and identifiers as random as promised. */
  ghost predicate Guarded(m: FlatTree, r: Request) {
    match r
    case Mkdir(_) => true
    case Put(_, _, _) => true
    case Rename(path, newName) =>
      ParsePath(path).Ok? && ParsePath(path).path != "/" ==> newName != NameOf(ParsePath(path).path)
    case Transfer(keep, sources, destination, policy) =>
      && (policy == Replace && TransferRuns(m, sources, destination) ==>
            AllMayReplace(m, PathsOf(ParsedSources(sources)), ParsePath(destination).path, keep))
      && (!keep && ParsePath(destination).Ok? ==>
            forall i :: 0 <= i < |sources| && ParsePath(sources[i]).Ok? ==>
              MayMove(ParsePath(sources[i]).path, ParsePath(destination).path))
    case Delete(_, ids) => FreshIds(m, ids)
  }

  predicate MayMove(s: string, dest: string) {
    ParentOf(s) != dest && !Under(s, dest)
  }

  /** Nothing under the hidden folder is changed or lost. */
  ghost predicate HiddenKept(m: FlatTree, m': FlatTree) {
    forall k :: k in m && IsHiddenKey(k) ==> k in m' && m'[k] == m[k]
  }

  predicate OnlyMoves(r: Request) {
    r.Mkdir? || r.Rename? || r.Delete? || (r.Transfer? && !r.keep && r.policy != Replace)
  }

  predicate Overwrites(r: Request) {
    (r.Put? && r.overwrite) || (r.Transfer? && r.policy == Replace)
  }

  // ------------------------------------------------------------------------- single steps

  /** Everything that is not below `s` is still there. */
  ghost predicate KeptOutside(m: FlatTree, m': FlatTree, s: string) {
    forall k :: k in m && !Under(s, k) ==> k in m' && m'[k] == m[k]
  }

  lemma {:induction false} MovedOutside(m: FlatTree, s: string, t: string)
    requires FreeAt(m, t)
    ensures KeptOutside(m, Moved(m, s, t), s)
  {
    hide Under;
  }

  lemma {:induction false} CopiedOutside(m: FlatTree, s: string, t: string)
    requires FreeAt(m, t)
    ensures KeptOutside(m, Copied(m, s, t), s) && HiddenKept(m, Copied(m, s, t))
    ensures m.Keys <= Copied(m, s, t).Keys
    ensures forall d :: IsDir(m, d) ==> IsDir(Copied(m, s, t), d)
  {
    hide Under, IsHiddenKey;
  }

  lemma {:induction false} FolderOutside(m: FlatTree, m': FlatTree, s: string, d: string)
    requires KeptOutside(m, m', s) && IsDir(m, d) && !Under(s, d)
    ensures IsDir(m', d)
  {
    hide Under;
  }

  lemma {:induction false} HiddenIsOutside(m: FlatTree, m': FlatTree, s: string)
    requires KeptOutside(m, m', s) && IsVisible(s)
    ensures HiddenKept(m, m')
  {
    hide Under, IsHiddenKey, IsVisible;
    forall k | k in m && IsHiddenKey(k)
      ensures k in m' && m'[k] == m[k]
    {
      VisibleIsApart(s, k);
    }
  }

  lemma {:induction false} StaysSound(m: FlatTree, m': FlatTree)
    requires Sound(m) && WellFormed(m') && HiddenKept(m, m')
    ensures Sound(m')
  {
    BinIsKey();
    HiddenNameIsHidden();
    assert IsHiddenKey(BIN);
    hide IsHiddenKey, WellFormed;
  }

  lemma {:induction false} MoveKeeps(m: FlatTree, s: string, t: string)
    requires Sound(m) && s in m && IsVisible(s) && IsKey(t) && t !in m
    requires IsDir(m, ParentOf(t)) && !Under(s, t)
    ensures Kept(m, Moved(m, s, t), true)
    ensures FreeAt(m, t)
  {
    assert WellFormed(m);
    hide Sound, HiddenKept, WellFormed, Contents, FreeAt, Moved, IsKey, ParentOf, Under, IsVisible, IsDir;
    AbsentIsFree(m, t);
    MoveGrafts(m, s, t);
    MoveConserves(m, s, t);
    MovedOutside(m, s, t);
    HiddenIsOutside(m, Moved(m, s, t), s);
    StaysSound(m, Moved(m, s, t));
  }

  lemma {:induction false} MoreContents(a: multiset<Bytes>, b: multiset<Bytes>)
    ensures a <= a + b
  {
  }

  lemma {:induction false} CopyKeeps(m: FlatTree, s: string, t: string)
    requires Sound(m) && s in m && IsKey(t) && t !in m && IsDir(m, ParentOf(t))
    ensures Kept(m, Copied(m, s, t), false)
    ensures FreeAt(m, t)
  {
    assert WellFormed(m);
    hide Sound, HiddenKept, WellFormed, Contents, FreeAt, Copied, IsKey, ParentOf, Under, IsDir;
    AbsentIsFree(m, t);
    CopyGrafts(m, s, t);
    CopyAdds(m, s, t);
    MoreContents(Contents(m), Contents(Inside(m, s)));
    CopiedOutside(m, s, t);
    StaysSound(m, Copied(m, s, t));
  }

  // ------------------------------------------------------------------------------ batches

  ghost predicate Kept(m: FlatTree, m': FlatTree, exactly: bool) {
    && Sound(m') && HiddenKept(m, m')
    && Contents(m) <= Contents(m')
    && (exactly ==> Contents(m') == Contents(m))
  }

  lemma {:induction false} KeptTransitive(a: FlatTree, b: FlatTree, c: FlatTree, exactly: bool)
    requires Kept(a, b, exactly) && Kept(b, c, exactly)
    ensures Kept(a, c, exactly)
  {
    hide Sound, IsHiddenKey, Contents;
  }

  lemma {:induction false} KeptItself(m: FlatTree, exactly: bool)
    requires Sound(m)
    ensures Kept(m, m, exactly)
  {
    hide Sound, IsHiddenKey, Contents;
  }

  /** Relocating one source to a free place. */
  lemma {:induction false} FreeKeeps(m: FlatTree, s: string, t: string, keep: bool)
    requires Sound(m) && s in m && IsVisible(s) && IsKey(t) && t !in m && IsDir(m, ParentOf(t))
    requires !keep ==> !Under(s, ParentOf(t))
    ensures Untangled(m, s, t, keep) && Kept(m, Relocated(m, s, t, keep), !keep)
    ensures IsDir(Relocated(m, s, t, keep), ParentOf(t))
  {
    hide Sound, HiddenKept, Kept, Contents, FreeAt, Copied, Moved, ParentOf, Under, IsDir, KeptOutside, IsKey;
    if keep {
      CopyKeeps(m, s, t);
      CopiedOutside(m, s, t);
    } else {
      UnderChild(s, t);
      MoveKeeps(m, s, t);
      MovedOutside(m, s, t);
      FolderOutside(m, Moved(m, s, t), s, ParentOf(t));
    }
    FreeIsUntangled(m, s, t, keep);
  }

  /** Relocating one source to where it is placed. */
  lemma {:induction false} PlacedKeeps(m: FlatTree, s: string, dest: string, policy: Policy, keep: bool)
    requires Sound(m) && s in m && IsCanonical(dest) && IsDir(m, dest) && IsVisible(s)
    requires (policy == Replace ==> NameIsFree(m, s, dest)) && (!keep ==> MayMove(s, dest))
      && Place(m, s, dest, policy).At?
    ensures var t := Place(m, s, dest, policy).target;
      && Untangled(m, s, t, keep)
      && Kept(m, Relocated(m, s, t, keep), !keep)
      && IsDir(Relocated(m, s, t, keep), dest)
  {
    PlaceIsInDestination(m, s, dest, policy);
    var t := Place(m, s, dest, policy).target;
    assert t == s <==> ParentOf(s) == dest;
    hide Place, Sound, Kept, Copied, Moved, IsKey, ParentOf, Under, IsDir, NameIsFree, Untangled;
    if t == s {
      SelfIsUntangled(m, s, keep);
      KeptItself(m, false);
    } else {
      FreeKeeps(m, s, t, keep);
    }
  }

  lemma {:induction false} TransferStepKeeps(now: Progress, s: string, dest: string, policy: Policy, keep: bool)
    requires Sound(now.tree) && IsCanonical(dest) && IsDir(now.tree, dest) && IsVisible(s)
    requires policy != Replace && (!keep ==> MayMove(s, dest))
    ensures StepUntangled(now, s, dest, policy, keep)
    ensures var next := TransferStep(now, s, dest, policy, keep).tree;
      Kept(now.tree, next, !keep) && IsDir(next, dest)
  {
    hide Sound, IsCanonical, IsDir, IsVisible, MayMove, Place, Relocated, Untangled, Kept;
    KeptItself(now.tree, !keep);
    if !now.crashed && s in now.tree && Place(now.tree, s, dest, policy).At? {
      PlacedKeeps(now.tree, s, dest, policy, keep);
    }
  }

  predicate AllVisible(sources: seq<string>) {
    forall s :: s in sources ==> IsVisible(s)
  }

  lemma {:induction false} NothingIsUntangled(m: FlatTree, dest: string, policy: Policy, keep: bool)
    ensures BatchUntangled(m, [], dest, policy, keep)
  {
  }

  lemma {:induction false} LastStepUntangled(m: FlatTree, sources: seq<string>, dest: string, policy: Policy,
                                             keep: bool)
    requires sources != []
    requires BatchUntangled(m, sources[..|sources| - 1], dest, policy, keep)
    requires var n := |sources| - 1;
      StepUntangled(TransferAll(m, sources[..n], dest, policy, keep), sources[n], dest, policy, keep)
    ensures BatchUntangled(m, sources, dest, policy, keep)
  {
    hide TransferAll, StepUntangled;
    var n := |sources| - 1;
    forall i | 0 <= i < |sources|
      ensures UntangledAt(m, sources, dest, policy, keep, i)
    {
      if i < n {
        assert UntangledAt(m, sources[..n], dest, policy, keep, i);
        assert sources[..n][..i] == sources[..i] && sources[..n][i] == sources[i];
      }
    }
  }

  // ------------------------------------------------------------------- batches that replace

  ghost predicate SoundKept(m: FlatTree, m': FlatTree) {
    Sound(m') && HiddenKept(m, m')
  }

  lemma {:induction false} OverlayKeepsHidden(m: FlatTree, s: string, t: string, keep: bool)
    requires s in m && s != t && IsVisible(s) && IsVisible(t)
    ensures HiddenKept(m, Relocated(m, s, t, keep)) && t in Relocated(m, s, t, keep)
  {
    hide IsVisible, IsHiddenKey, Relocated, Under, Swap;
    forall k | k in m && IsHiddenKey(k)
      ensures k in Relocated(m, s, t, keep) && Relocated(m, s, t, keep)[k] == m[k]
    {
      VisibleIsApart(s, k);
      VisibleIsApart(t, k);
      ReplacedAt(m, s, t, keep, k);
    }
    SwapSelf(t, s);
    ReplacedAt(m, s, t, keep, t);
  }

  /** Writing an item over another one. */
  lemma {:induction false} OverlayKeeps(m: FlatTree, s: string, t: string, keep: bool)
    requires Sound(m) && IsTaken(m, s, t) && IsVisible(s) && IsVisible(t) && KeepsFolders(m, s, t, keep)
    ensures SoundKept(m, Relocated(m, s, t, keep))
    ensures IsDir(Relocated(m, s, t, keep), ParentOf(t))
  {
    assert IsKey(t);
    hide IsVisible, IsHiddenKey, HiddenKept, Relocated, Under, ParentOf, KeepsFolders, IsKey;
    OverlayKeepsHidden(m, s, t, keep);
    OverlayKeepsExactly(m, s, t, keep);
    StaysSound(m, Relocated(m, s, t, keep));
  }

  lemma {:induction false} ReplaceStepKeeps(now: Progress, s: string, dest: string, keep: bool)
    requires Sound(now.tree) && IsCanonical(dest) && IsDir(now.tree, dest) && IsVisible(s)
    requires MayReplace(now.tree, s, dest, keep) && (!keep ==> MayMove(s, dest))
    ensures StepUntangled(now, s, dest, Replace, keep)
    ensures var next := TransferStep(now, s, dest, Replace, keep).tree;
      SoundKept(now.tree, next) && IsDir(next, dest)
  {
    hide Sound, IsCanonical, IsDir, IsVisible, MayMove, Relocated, Untangled, Kept, KeepsFolders, HiddenKept;
    SelfHidden(now.tree);
    if !now.crashed && s in now.tree {
      PlaceToReplace(now.tree, s, dest);
      var t := JoinPath(dest, NameOf(s));
      if NameIsFree(now.tree, s, dest) {
        hide NameIsFree;
        PlacedKeeps(now.tree, s, dest, Replace, keep);
        KeptIsSound(now.tree, Relocated(now.tree, s, t, keep), !keep);
      } else {
        TargetHasParent(now.tree, s, dest);
        OverlayKeeps(now.tree, s, t, keep);
      }
    }
  }

  lemma {:induction false} PlaceToReplace(m: FlatTree, s: string, dest: string)
    ensures Place(m, s, dest, Replace) == At(JoinPath(dest, NameOf(s)))
  {
    hide JoinPath, NameOf;
  }

  lemma {:induction false} TargetHasParent(m: FlatTree, s: string, dest: string)
    requires Sound(m) && s in m && IsCanonical(dest)
    ensures ParentOf(JoinPath(dest, NameOf(s))) == dest
  {
    assert WellFormed(m) && IsKey(s);
    hide *;
    JoinOfParentAndName(s);
    ParentAndNameOfJoin(dest, NameOf(s));
  }

  lemma {:induction false} SoundKeptTransitive(a: FlatTree, b: FlatTree, c: FlatTree)
    requires SoundKept(a, b) && SoundKept(b, c)
    ensures SoundKept(a, c)
  {
    hide Sound, IsHiddenKey;
  }

  lemma {:induction false} ReplaceAllKeeps(m: FlatTree, sources: seq<string>, dest: string, keep: bool)
    requires Sound(m) && IsCanonical(dest) && IsDir(m, dest) && AllVisible(sources)
    requires AllMayReplace(m, sources, dest, keep) && (!keep ==> forall s :: s in sources ==> MayMove(s, dest))
    ensures BatchUntangled(m, sources, dest, Replace, keep)
    ensures var after := TransferAll(m, sources, dest, Replace, keep).tree;
      SoundKept(m, after) && IsDir(after, dest)
  {
    hide Sound, HiddenKept, IsCanonical, IsDir, IsVisible, MayMove, MayReplace, TransferStep, StepUntangled,
      BatchUntangled;
    if sources == [] {
      SelfHidden(m);
      NothingIsUntangled(m, dest, Replace, keep);
    } else {
      var n := |sources| - 1;
      FrontMayReplace(m, sources, dest, keep);
      ReplaceAllKeeps(m, sources[..n], dest, keep);
      var before := TransferAll(m, sources[..n], dest, Replace, keep);
      assert sources[n] in sources;
      assert MayReplaceAt(m, sources, dest, keep, n);
      ReplaceStepKeeps(before, sources[n], dest, keep);
      SoundKeptTransitive(m, before.tree, TransferStep(before, sources[n], dest, Replace, keep).tree);
      LastStepUntangled(m, sources, dest, Replace, keep);
    }
  }

  lemma {:induction false} FrontMayReplace(m: FlatTree, sources: seq<string>, dest: string, keep: bool)
    requires sources != [] && AllMayReplace(m, sources, dest, keep)
    ensures AllMayReplace(m, sources[..|sources| - 1], dest, keep)
  {
    hide MayReplace, TransferAll;
    var front := sources[..|sources| - 1];
    forall i | 0 <= i < |front|
      ensures MayReplaceAt(m, front, dest, keep, i)
    {
      assert MayReplaceAt(m, sources, dest, keep, i);
      assert front[..i] == sources[..i] && front[i] == sources[i];
    }
  }

  // ---------------------------------------------------------------------- other batches

  /** What a guarded batch keeps, and that its loops are never tangled. */
  lemma {:induction false} TransferKeeps(m: FlatTree, sources: seq<string>, dest: string, policy: Policy, keep: bool)
    requires Sound(m) && IsCanonical(dest) && IsDir(m, dest) && AllVisible(sources)
    requires policy != Replace && (!keep ==> forall s :: s in sources ==> MayMove(s, dest))
    ensures BatchUntangled(m, sources, dest, policy, keep)
    ensures var after := TransferAll(m, sources, dest, policy, keep).tree;
      Kept(m, after, !keep) && IsDir(after, dest)
  {
    hide Sound, IsCanonical, IsDir, IsVisible, MayMove, TransferStep, StepUntangled, BatchUntangled, Kept;
    if sources == [] {
      KeptItself(m, !keep);
      NothingIsUntangled(m, dest, policy, keep);
    } else {
      var n := |sources| - 1;
      TransferKeeps(m, sources[..n], dest, policy, keep);
      var before := TransferAll(m, sources[..n], dest, policy, keep);
      var after := TransferStep(before, sources[n], dest, policy, keep);
      KeptIsSound(m, before.tree, !keep);
      assert sources[n] in sources;
      TransferStepKeeps(before, sources[n], dest, policy, keep);
      KeptTransitive(m, before.tree, after.tree, !keep);
      LastStepUntangled(m, sources, dest, policy, keep);
    }
  }

  lemma {:induction false} DeleteStepKeeps(now: Progress, s: string, id: string)
    requires Sound(now.tree) && IsVisible(s) && IsSegment(id) && FreeAt(now.tree, BinFor(id, s))
    ensures Kept(now.tree, DeleteStep(now, s, id).tree, true)
  {
    BinIsApart(s, id);
    assert IsDir(now.tree, BIN) && Under(BinFor(id, s), BinFor(id, s));
    hide Sound, HiddenKept, Kept, Contents, IsKey, IsHiddenKey, ParentOf, Under, IsDir, BinFor, BIN, Moved;
    KeptItself(now.tree, true);
    if s in now.tree {
      MoveKeeps(now.tree, s, BinFor(id, s));
    }
  }

  lemma {:induction false} DeleteKeeps(m: FlatTree, sources: seq<string>, ids: seq<string>)
    requires Sound(m) && AllVisible(sources) && |sources| <= |ids| && FreshIds(m, ids)
    ensures Kept(m, DeleteAll(m, sources, ids).tree, true)
  {
    assert forall i :: 0 <= i < |ids| ==> IsSegment(ids[i]);
    hide Sound, IsVisible, FreshIds, FreeAt, BinFor, DeleteStep, Kept, IsSegment;
    if sources == [] {
      KeptItself(m, true);
    } else {
      var n := |sources| - 1;
      DeleteKeeps(m, sources[..n], ids);
      BinStaysFree(m, sources[..n], ids, sources[n]);
      assert sources[n] in sources;
      var before := DeleteAll(m, sources[..n], ids);
      KeptIsSound(m, before.tree, true);
      DeleteStepKeeps(before, sources[n], ids[n]);
      KeptTransitive(m, before.tree, DeleteStep(before, sources[n], ids[n]).tree, true);
    }
  }

  lemma {:induction false} KeptIsSound(m: FlatTree, m': FlatTree, exactly: bool)
    requires Kept(m, m', exactly)
    ensures Sound(m') && SoundKept(m, m')
  {
    hide Sound, HiddenKept, Contents;
  }

  // ----------------------------------------------------------------------------- requests

  lemma {:induction false} SourcesAreVisible(raws: seq<string>)
    requires SourcesRefusal(raws).None?
    ensures AllVisible(PathsOf(ParsedSources(raws)))
  {
    var sources := PathsOf(ParsedSources(raws));
    forall i | 0 <= i < |sources|
      ensures IsVisible(sources[i])
    {
      assert ParsedSources(raws)[i] in ParsedSources(raws);
      ParsedIsCanonical(raws[i]);
    }
  }

  lemma {:induction false} AcceptedIsVisible(raw: string)
    requires ParsePath(raw).Ok? && ParsePath(raw).path != "/"
    ensures IsVisible(ParsePath(raw).path)
  {
    ParsedIsCanonical(raw);
  }

  lemma {:induction false} ChangedBeside(m: FlatTree, p: string, node: Node)
    requires p !in m || !IsHiddenKey(p)
    ensures HiddenKept(m, m[p := node])
  {
    hide IsHiddenKey;
  }

  lemma {:induction false} FolderHoldsNothing(a: multiset<Bytes>, node: Node)
    requires node.Folder?
    ensures a + DataOf(node) == a
  {
  }

  /** A new node below a folder. */
  lemma {:induction false} InsertKeeps(m: FlatTree, p: string, node: Node)
    requires Sound(m) && IsKey(p) && p !in m && IsDir(m, ParentOf(p))
    ensures Kept(m, m[p := node], node.Folder?)
  {
    assert WellFormed(m);
    hide Sound, HiddenKept, WellFormed, IsKey, ParentOf, IsDir, Contents, DataOf;
    InsertGrafts(m, p, node);
    ChangedBeside(m, p, node);
    ContentsInsert(m, p, node);
    MoreContents(Contents(m), DataOf(node));
    if node.Folder? {
      FolderHoldsNothing(Contents(m), node);
    }
    StaysSound(m, m[p := node]);
  }

  lemma {:induction false} OverwriteStaysWellFormed(m: FlatTree, p: string, body: Bytes)
    requires WellFormed(m) && p in m && m[p].File?
    ensures WellFormed(PutStore(m, p, body))
  {
  }

  /** New content for a file that is already there. */
  lemma {:induction false} OverwriteStaysSound(m: FlatTree, p: string, body: Bytes)
    requires Sound(m) && IsVisible(p) && p in m && m[p].File?
    ensures Sound(PutStore(m, p, body)) && HiddenKept(m, PutStore(m, p, body))
  {
    assert WellFormed(m);
    assert !IsHiddenKey(p);
    hide WellFormed, IsHiddenKey, IsVisible, Sound, HiddenKept;
    OverwriteStaysWellFormed(m, p, body);
    ChangedBeside(m, p, File(body));
    StaysSound(m, PutStore(m, p, body));
  }

  /** What an accepted PUT or mkdir has established. */
  lemma {:induction false} PutAdmitted(m: FlatTree, writable: bool, raw: string, overwrite: bool)
    requires PutCheck(m, writable, raw, overwrite).Admit?
    ensures var p := PutCheck(m, writable, raw, overwrite).path;
      && ParsePath(raw) == Parsed.Ok(p) && p != "/" && IsDir(m, ParentOf(p))
      && (p in m ==> m[p].File? && overwrite)
      && PutCheck(m, writable, raw, overwrite).existed == (p in m)
  {
    hide ParsePath, ParentOf;
  }

  lemma {:induction false} MkdirStored(m: FlatTree, raw: string)
    requires MkdirAnswer(m, raw).reply.Stored?
    ensures ParsePath(raw).Ok? && ParsePath(raw).path != "/"
    ensures var p := ParsePath(raw).path;
      p !in m && IsDir(m, ParentOf(p)) && MkdirAnswer(m, raw).tree == m[p := Folder]
  {
    hide ParsePath, ParentOf;
  }

  lemma {:induction false} RefusedKeeps(m: FlatTree, raw: string, newName: string)
    ensures !MkdirAnswer(m, raw).reply.Stored? ==> MkdirAnswer(m, raw).tree == m
    ensures !RenameAnswer(m, raw, newName).reply.Stored? ==> RenameAnswer(m, raw, newName).tree == m
  {
    hide ParsePath, ParentOf, NameOf, JoinPath, IsAllowedName, Relocated;
  }

  lemma {:induction false} PutKeeps(m: FlatTree, writable: bool, raw: string, overwrite: bool, body: Bytes)
    requires Sound(m)
    ensures var after := PutAnswer(m, writable, raw, overwrite, body).tree;
      && Sound(after) && HiddenKept(m, after)
      && (!overwrite ==> Kept(m, after, false))
  {
    hide PutCheck, Sound, HiddenKept, Contents, ParsePath, ParentOf, IsDir, IsHiddenKey;
    KeptItself(m, false);
    if PutCheck(m, writable, raw, overwrite).Admit? {
      var p := PutCheck(m, writable, raw, overwrite).path;
      PutAdmitted(m, writable, raw, overwrite);
      AcceptedIsVisible(raw);
      if p !in m {
        assert IsKey(p);
        InsertKeeps(m, p, File(body));
      } else {
        OverwriteStaysSound(m, p, body);
      }
    }
  }

  lemma {:induction false} MkdirKeeps(m: FlatTree, raw: string)
    requires Sound(m)
    ensures Kept(m, MkdirAnswer(m, raw).tree, true)
  {
    hide MkdirAnswer, Sound, Kept, ParsePath, ParentOf, IsDir, IsHiddenName, Segments;
    KeptItself(m, true);
    RefusedKeeps(m, raw, "");
    if MkdirAnswer(m, raw).reply.Stored? {
      MkdirStored(m, raw);
      AcceptedIsVisible(raw);
      assert IsKey(ParsePath(raw).path);
      InsertKeeps(m, ParsePath(raw).path, Folder);
    }
  }

  lemma {:induction false} RenamedKeeps(m: FlatTree, p: string, newName: string)
    requires Sound(m) && p in m && IsVisible(p) && IsSegment(newName) && newName != NameOf(p)
    requires JoinPath(ParentOf(p), newName) !in m || JoinPath(ParentOf(p), newName) == p
    ensures var t := JoinPath(ParentOf(p), newName);
      Kept(m, Relocated(m, p, t, false), true) && Untangled(m, p, t, false)
  {
    var t := JoinPath(ParentOf(p), newName);
    assert IsKey(p) && IsDir(m, ParentOf(p));
    hide Sound, Kept, IsKey, IsVisible, ParentOf, NameOf, JoinPath, Under, IsDir, Segments, Moved, FreeAt;
    JoinOfParentAndName(p);
    ParentAndNameOfJoin(ParentOf(p), newName);
    if Under(p, t) {
      UnderSameParent(p, t);
    }
    MoveKeeps(m, p, t);
    FreeIsUntangled(m, p, t, false);
  }

  lemma {:induction false} RenameKeeps(m: FlatTree, raw: string, newName: string)
    requires Sound(m)
    requires ParsePath(raw).Ok? && ParsePath(raw).path != "/" ==> newName != NameOf(ParsePath(raw).path)
    ensures Kept(m, RenameAnswer(m, raw, newName).tree, true)
    ensures RenameAnswer(m, raw, newName).reply.Stored? ==>
      Untangled(m, ParsePath(raw).path, RenameAnswer(m, raw, newName).reply.path, false)
  {
    hide *;
    KeptItself(m, true);
    RefusedKeeps(m, "", newName);
    if RenameAnswer(m, raw, newName).reply.Stored? {
      RenameStored(m, raw, newName);
      RenamedIsBelowRoot(m, raw, newName);
      AcceptedIsVisible(raw);
      RenamedKeeps(m, ParsePath(raw).path, newName);
    } else {
      RefusedKeeps(m, raw, newName);
    }
  }

  lemma {:induction false} RenamedIsBelowRoot(m: FlatTree, raw: string, newName: string)
    requires RenameAnswer(m, raw, newName).reply.Stored?
    ensures ParsePath(raw).Ok? && ParsePath(raw).path != "/"
  {
    hide ParsePath, ParentOf, NameOf, JoinPath, IsAllowedName, Relocated;
  }

  lemma {:induction false} TransferUnfolded(m: FlatTree, keep: bool, raws: seq<string>, rawDest: string, policy: Policy)
    ensures TransferAnswer(m, keep, raws, rawDest, policy).tree ==
      if TransferRuns(m, raws, rawDest)
      then TransferAll(m, PathsOf(ParsedSources(raws)), ParsePath(rawDest).path, policy, keep).tree
      else m
  {
    hide ParsePath, IsDir, SourcesRefusal, TransferAll, BatchReply;
  }

  lemma {:induction false} SourcesMayMove(m: FlatTree, raws: seq<string>, rawDest: string, policy: Policy)
    requires Guarded(m, Transfer(false, raws, rawDest, policy)) && TransferRuns(m, raws, rawDest)
    ensures forall s :: s in PathsOf(ParsedSources(raws)) ==> MayMove(s, ParsePath(rawDest).path)
  {
  }

  lemma {:induction false} GuardedReplaces(m: FlatTree, keep: bool, raws: seq<string>, rawDest: string)
    requires Guarded(m, Transfer(keep, raws, rawDest, Replace)) && TransferRuns(m, raws, rawDest)
    ensures AllMayReplace(m, PathsOf(ParsedSources(raws)), ParsePath(rawDest).path, keep)
  {
    hide ParsePath, MayMove, MayReplace, SourcesRefusal, IsDir;
  }

  lemma {:induction false} TransferRequestKeeps(m: FlatTree, keep: bool, raws: seq<string>, rawDest: string,
                                                policy: Policy)
    requires Sound(m) && Guarded(m, Transfer(keep, raws, rawDest, policy))
    ensures policy != Replace ==> Kept(m, TransferAnswer(m, keep, raws, rawDest, policy).tree, !keep)
    ensures SoundKept(m, TransferAnswer(m, keep, raws, rawDest, policy).tree)
    ensures RequestUntangled(m, Transfer(keep, raws, rawDest, policy))
  {
    hide RequestUntangled, Guarded, Kept, BatchUntangled, Sound, HiddenKept, MayMove, ParsePath, SourcesRefusal, IsDir,
      TransferAnswer, AllVisible, AllMayReplace, IsCanonical;
    KeptItself(m, !keep);
    KeptIsSound(m, m, !keep);
    TransferUnfolded(m, keep, raws, rawDest, policy);
    if TransferRuns(m, raws, rawDest) {
      var sources, dest := PathsOf(ParsedSources(raws)), ParsePath(rawDest).path;
      ParsedIsCanonical(rawDest);
      SourcesAreVisible(raws);
      if !keep {
        SourcesMayMove(m, raws, rawDest, policy);
      }
      if policy == Replace {
        GuardedReplaces(m, keep, raws, rawDest);
        ReplaceAllKeeps(m, sources, dest, keep);
      } else {
        TransferKeeps(m, sources, dest, policy, keep);
        KeptIsSound(m, TransferAll(m, sources, dest, policy, keep).tree, !keep);
      }
    }
    TransferIsUntangled(m, keep, raws, rawDest, policy);
  }

  lemma {:induction false} TransferIsUntangled(m: FlatTree, keep: bool, raws: seq<string>, rawDest: string,
                                               policy: Policy)
    requires TransferRuns(m, raws, rawDest) ==>
      BatchUntangled(m, PathsOf(ParsedSources(raws)), ParsePath(rawDest).path, policy, keep)
    ensures RequestUntangled(m, Transfer(keep, raws, rawDest, policy))
  {
    hide BatchUntangled, ParsePath, SourcesRefusal, IsDir;
  }

  lemma {:induction false} DeleteRequestKeeps(m: FlatTree, raws: seq<string>, ids: seq<string>)
    requires Sound(m) && |raws| <= |ids| && FreshIds(m, ids)
    ensures Kept(m, DeleteAnswer(m, raws, ids).tree, true)
  {
    hide Kept, Sound, FreshIds, SourcesRefusal, AllVisible, DeleteAll, BatchReply;
    KeptItself(m, true);
    if SourcesRefusal(raws).None? {
      SourcesAreVisible(raws);
      DeleteKeeps(m, PathsOf(ParsedSources(raws)), ids);
    }
  }

  // --------------------------------------------------------------------------------- runs

  /** What a request keeps, whatever it asks for. */
  ghost predicate KeptBy(m: FlatTree, m': FlatTree, r: Request) {
    && Sound(m') && HiddenKept(m, m')
    && (!Overwrites(r) ==> Contents(m) <= Contents(m'))
    && (OnlyMoves(r) ==> Contents(m') == Contents(m))
  }

  lemma {:induction false} KeptIsKeptBy(m: FlatTree, m': FlatTree, r: Request)
    requires Kept(m, m', OnlyMoves(r))
    ensures KeptBy(m, m', r)
  {
    hide Sound, HiddenKept, Contents;
  }

  lemma {:induction false} TransferKeptBy(m: FlatTree, m': FlatTree, r: Request)
    requires r.Transfer? && SoundKept(m, m') && (r.policy != Replace ==> Kept(m, m', !r.keep))
    ensures KeptBy(m, m', r)
  {
    hide Sound, HiddenKept, Contents;
  }

  lemma {:induction false} PutKeptBy(m: FlatTree, m': FlatTree, r: Request)
    requires r.Put? && Sound(m') && HiddenKept(m, m') && (!r.overwrite ==> Kept(m, m', false))
    ensures KeptBy(m, m', r)
  {
    hide Sound, HiddenKept, Contents;
  }

  /** One guarded request keeps the tree sound, never touches the bin's content, loses no
      file unless it overwrites one, and if it only moves things keeps every file exactly.
      Its re-keying loops are never tangled, so what the server does in place is this. */
  lemma {:induction false} ApplyKeeps(m: FlatTree, rootId: string, r: Request)
    requires Sound(m) && HasIds(r) && Guarded(m, r)
    ensures RequestUntangled(m, r)
    ensures KeptBy(m, Apply(m, rootId, r).tree, r)
  {
    hide Sound, KeptBy, Kept, SoundKept, AllMayReplace, PutAnswer, MkdirAnswer, RenameAnswer, TransferAnswer,
      DeleteAnswer, ParsePath, FreshIds, BatchUntangled, SourcesRefusal, Untangled, HiddenKept;
    KeptItself(m, OnlyMoves(r));
    KeptIsKeptBy(m, m, r);
    match r {
      case Put(path, overwrite, body) =>
        PutKeeps(m, rootId == "phone", path, overwrite, body);
        PutKeptBy(m, PutAnswer(m, rootId == "phone", path, overwrite, body).tree, r);
      case Mkdir(path) =>
        MkdirKeeps(m, path);
        KeptIsKeptBy(m, MkdirAnswer(m, path).tree, r);
      case Rename(path, newName) =>
        RenameKeeps(m, path, newName);
        KeptIsKeptBy(m, RenameAnswer(m, path, newName).tree, r);
      case Transfer(keep, sources, destination, policy) =>
        TransferRequestKeeps(m, keep, sources, destination, policy);
        TransferKeptBy(m, TransferAnswer(m, keep, sources, destination, policy).tree, r);
      case Delete(paths, ids) =>
        DeleteRequestKeeps(m, paths, ids);
        KeptIsKeptBy(m, DeleteAnswer(m, paths, ids).tree, r);
    }
  }

  datatype Call = Call(rootId: string, request: Request)

  /** The tree after a sequence of requests. */
  ghost function After(m: FlatTree, calls: seq<Call>): FlatTree
    requires forall c :: c in calls ==> HasIds(c.request)
  {
    if calls == [] then m
    else
      var last := calls[|calls| - 1];
      Apply(After(m, calls[..|calls| - 1]), last.rootId, last.request).tree
  }

  /** Every request is guarded in the state it finds. */
  ghost predicate GuardedRun(m: FlatTree, calls: seq<Call>) {
    && (forall c :: c in calls ==> HasIds(c.request))
    && (forall i :: 0 <= i < |calls| ==> Guarded(After(m, calls[..i]), calls[i].request))
  }

  lemma {:induction false} GuardedUpTo(m: FlatTree, calls: seq<Call>, n: nat)
    requires n <= |calls| && GuardedRun(m, calls)
    ensures GuardedRun(m, calls[..n])
  {
    hide Guarded, HasIds, After;
    forall i | 0 <= i < n
      ensures Guarded(After(m, calls[..n][..i]), calls[..n][i].request)
    {
      assert calls[..n][..i] == calls[..i] && calls[..n][i] == calls[i];
    }
  }

  lemma {:induction false} KeptByTransitive(a: FlatTree, b: FlatTree, c: FlatTree, r: Request)
    requires KeptBy(b, c, r) && HiddenKept(a, b)
    ensures Sound(c) && HiddenKept(a, c)
    ensures !Overwrites(r) && Contents(a) <= Contents(b) ==> Contents(a) <= Contents(c)
    ensures OnlyMoves(r) && Contents(a) == Contents(b) ==> Contents(a) == Contents(c)
  {
    hide Sound, IsHiddenKey, Contents;
  }

  /** One guarded request more. */
  lemma {:induction false} LastKeeps(m: FlatTree, calls: seq<Call>)
    requires calls != [] && GuardedRun(m, calls) && Sound(After(m, calls[..|calls| - 1]))
    ensures KeptBy(After(m, calls[..|calls| - 1]), After(m, calls), calls[|calls| - 1].request)
  {
    hide Sound, KeptBy, Guarded, RequestUntangled, Apply, HasIds;
    var last := calls[|calls| - 1];
    ApplyKeeps(After(m, calls[..|calls| - 1]), last.rootId, last.request);
  }

  lemma {:induction false} TailOf(calls: seq<Call>, i: nat)
    requires i < |calls|
    ensures var front := calls[..|calls| - 1];
      && front[..i] == calls[..i] && calls[|calls| - 1] in calls[i..]
      && forall c :: c in front[i..] ==> c in calls[i..]
  {
    assert calls[i..] == calls[..|calls| - 1][i..] + [calls[|calls| - 1]];
  }

  /** What a run keeps of what there was after its first `i` requests. */
  lemma {:induction false} RunKeepsFrom(m: FlatTree, calls: seq<Call>, i: nat)
    requires Sound(m) && GuardedRun(m, calls) && i <= |calls|
    ensures Sound(After(m, calls)) && HiddenKept(After(m, calls[..i]), After(m, calls))
    ensures (forall c :: c in calls[i..] ==> !Overwrites(c.request)) ==>
      Contents(After(m, calls[..i])) <= Contents(After(m, calls))
    ensures (forall c :: c in calls[i..] ==> OnlyMoves(c.request)) ==>
      Contents(After(m, calls[..i])) == Contents(After(m, calls))
    decreases |calls|
  {
    hide Sound, HiddenKept, Contents, KeptBy, Overwrites, OnlyMoves, HasIds, Guarded, Apply;
    if calls != [] {
      var n := |calls| - 1;
      GuardedUpTo(m, calls, n);
      hide GuardedRun, After;
      RunKeepsFrom(m, calls[..n], if i <= n then i else n);
      LastKeeps(m, calls);
      if i <= n {
        TailOf(calls, i);
        KeptByTransitive(After(m, calls[..i]), After(m, calls[..n]), After(m, calls), calls[n].request);
      } else {
        KeptByIsSound(After(m, calls[..n]), After(m, calls), calls[n].request);
      }
    }
    if i == |calls| {
      assert calls[..i] == calls;
      SelfHidden(After(m, calls));
    }
  }

  lemma {:induction false} KeptByIsSound(m: FlatTree, m': FlatTree, r: Request)
    requires KeptBy(m, m', r)
    ensures Sound(m')
  {
    hide Sound, HiddenKept, Contents, Overwrites, OnlyMoves;
  }

  /** Over any guarded run the tree stays sound, and whatever is put into the bin, at any time,
      stays there as it is; from where nothing more is overwritten no content is ever lost; and
      from where things are only moved the multiset of contents stays exactly. */
  lemma {:induction false} RunKeeps(m: FlatTree, calls: seq<Call>)
    requires Sound(m) && GuardedRun(m, calls)
    ensures Sound(After(m, calls))
    ensures forall i :: 0 <= i <= |calls| ==>
      var before := After(m, calls[..i]);
      && HiddenKept(before, After(m, calls))
      && ((forall c :: c in calls[i..] ==> !Overwrites(c.request)) ==> Contents(before) <= Contents(After(m, calls)))
      && ((forall c :: c in calls[i..] ==> OnlyMoves(c.request)) ==> Contents(before) == Contents(After(m, calls)))
  {
    hide Sound, HiddenKept, Contents, Guarded, After, Overwrites, OnlyMoves, HasIds;
    RunKeepsFrom(m, calls, 0);
    forall i | 0 <= i <= |calls|
      ensures forall c :: c in calls[..i] ==> HasIds(c.request)
      ensures var before := After(m, calls[..i]);
        && HiddenKept(before, After(m, calls))
        && ((forall c :: c in calls[i..] ==> !Overwrites(c.request)) ==> Contents(before) <= Contents(After(m, calls)))
        && ((forall c :: c in calls[i..] ==> OnlyMoves(c.request)) ==> Contents(before) == Contents(After(m, calls)))
    {
      RunKeepsFrom(m, calls, i);
    }
  }

  lemma {:induction false} SelfHidden(m: FlatTree)
    ensures HiddenKept(m, m)
  {
    hide IsHiddenKey;
  }
}
