/** Inputs at which the code does what nobody wanted, one for each exact condition that does
    not come with one of its own. */
module FailingInputs {
  import opened Options
  import opened Paths
  import opened Naming
  import opened FileTree
  import opened Subtrees
  import opened Requests
  import opened RequestFacts
  import opened Effects
  import opened Runs
  import opened Sequences
  import opened Snapshots
  import opened Stores
  import BatchOrder
  import PublicLink
  import Replacing
  import Seeds
  import Uploads

  // ------------------------------------------------------------------ the order of a batch

  function RevealingTree(x: string, f: string, g: string, d: string): FlatTree {
    map["/" + x := Folder, "/" + x + "/" + f := Folder, "/" + x + "/" + f + "/" + g := File([]), "/" + d := Folder]
  }

  lemma {:induction false} ThreeDeep(a: string, b: string, c: string)
    requires IsSegment(a) && IsSegment(b) && IsSegment(c)
    ensures IsKey("/" + a) && Segments("/" + a) == [a] && ParentOf("/" + a) == "/"
    ensures IsKey("/" + a + "/" + b) && Segments("/" + a + "/" + b) == [a, b]
    ensures ParentOf("/" + a + "/" + b) == "/" + a && NameOf("/" + a + "/" + b) == b
    ensures IsKey("/" + a + "/" + b + "/" + c) && Segments("/" + a + "/" + b + "/" + c) == [a, b, c]
    ensures ParentOf("/" + a + "/" + b + "/" + c) == "/" + a + "/" + b && NameOf("/" + a + "/" + b + "/" + c) == c
  {
    hide IsKey, Segments, ParentOf, NameOf, IsSegment;
    TopKey(a);
    KeyBelow("/" + a, b);
    KeyBelow("/" + a + "/" + b, c);
  }

  lemma {:induction false} RevealingIsWellFormed(x: string, f: string, g: string, d: string)
    requires IsSegment(x) && IsSegment(f) && IsSegment(g) && IsSegment(d)
    ensures WellFormed(RevealingTree(x, f, g, d)) && "/" + d in RevealingTree(x, f, g, d)
    ensures IsDir(RevealingTree(x, f, g, d), "/" + d)
  {
    hide IsKey, Segments, ParentOf, NameOf, IsSegment;
    ThreeDeep(x, f, g);
    ThreeDeep(d, f, g);
    assert Segments("/" + x) != Segments("/" + x + "/" + f)
      && Segments("/" + x) != Segments("/" + x + "/" + f + "/" + g);
    assert Segments("/" + d) != Segments("/" + x + "/" + f)
      && Segments("/" + d) != Segments("/" + x + "/" + f + "/" + g);
    assert Segments("/" + x + "/" + f) != Segments("/" + x + "/" + f + "/" + g);
  }

  /** Two items of different depth and different first segments. */
  lemma {:induction false} BranchesApart(a: string, b: string)
    requires IsKey(a) && IsKey(b) && Segments(a)[0] != Segments(b)[0]
    ensures !Under(a, b) && !Under(b, a) && a != b
  {
    assert Segments(a) != [] && Segments(b) != [];
    hide IsKey, Segments, Under;
    UnderIsSegmentPrefix(a, b);
    UnderIsSegmentPrefix(b, a);
  }

  lemma {:induction false} RevealingIsReady(x: string, f: string, g: string, d: string)
    requires IsSegment(x) && IsSegment(f) && IsSegment(g) && IsSegment(d) && x != d && f != g
    ensures BatchOrder.Ready(RevealingTree(x, f, g, d), {"/" + x + "/" + f, "/" + d + "/" + f + "/" + g}, "/" + d)
  {
    hide IsKey, Segments, ParentOf, NameOf, Under, IsSegment, WellFormed, IsDir, RevealingTree;
    ThreeDeep(x, f, g);
    ThreeDeep(d, f, g);
    RevealingIsWellFormed(x, f, g, d);
    var a, b, dest := "/" + x + "/" + f, "/" + d + "/" + f + "/" + g, "/" + d;
    BranchesApart(a, b);
    BranchesApart(a, dest);
    UnderIsSegmentPrefix(b, dest);
    assert MayMove(a, dest) && MayMove(b, dest);
  }

  lemma {:induction false} RevealingReveals(x: string, f: string, g: string, d: string, a: string, b: string,
                                            dest: string)
    requires IsSegment(x) && IsSegment(f) && IsSegment(g) && IsSegment(d) && x != d && f != g
    requires a == "/" + x + "/" + f && dest == "/" + d && b == dest + "/" + f + "/" + g
    ensures BatchOrder.Reveals(RevealingTree(x, f, g, d), dest, a, b)
  {
    hide IsKey, Segments, ParentOf, NameOf, IsSegment;
    ThreeDeep(x, f, g);
    ThreeDeep(d, f, g);
    var m, t := RevealingTree(x, f, g, d), dest + "/" + f;
    assert Segments(a)[0] == x && Segments(b)[0] == d && Segments(t)[0] == d;
    assert t !in m && b !in m;
    RootIsNotAKey(dest);
    assert JoinPath(dest, f) == t;
    assert b == t + "/" + g;
    assert b[|t|..] == "/" + g;
    assert Swap(t, a, b) == a + "/" + g;
  }

  /** "/x/f" moved first puts something at "/d/f/g"; moved second it comes too late. */
  lemma {:induction false} OrderMattersHere(x: string, f: string, g: string, d: string)
    requires IsSegment(x) && IsSegment(f) && IsSegment(g) && IsSegment(d) && x != d && f != g
    ensures var m, a, b := RevealingTree(x, f, g, d), "/" + x + "/" + f, "/" + d + "/" + f + "/" + g;
      BatchOrder.Ready(m, {a, b}, "/" + d) && !BatchOrder.OrderDoesNotMatter(m, [a, b], "/" + d)
  {
    hide *;
    RevealingIsReady(x, f, g, d);
    RevealingReveals(x, f, g, d, "/" + x + "/" + f, "/" + d + "/" + f + "/" + g, "/" + d);
    ReadyParts(RevealingTree(x, f, g, d), {"/" + x + "/" + f, "/" + d + "/" + f + "/" + g}, "/" + d);
    BatchOrder.RevealMatters(RevealingTree(x, f, g, d), ["/" + x + "/" + f, "/" + d + "/" + f + "/" + g], "/" + d,
      "/" + x + "/" + f, "/" + d + "/" + f + "/" + g);
  }

  lemma {:induction false} ReadyParts(m: FlatTree, sources: set<string>, dest: string)
    requires BatchOrder.Ready(m, sources, dest)
    ensures WellFormed(m) && IsCanonical(dest) && forall s :: s in sources ==> IsKey(s)
  {
    hide WellFormed, IsCanonical, IsKey, MayMove;
  }

  // ------------------------------------------------------------------------------ replacing

  function FolderOverwritten(d: string, a: string, b: string): FlatTree {
    map["/" + d := Folder, "/" + d + "/" + a := Folder, "/" + d + "/" + a + "/" + b := File([]), "/" + a := File([])]
  }

  /** The file "/a" moved over the folder "/d/a", in which "b" is left over. */
  lemma {:induction false} ReplacingBreaksHere(d: string, a: string, b: string)
    requires IsSegment(d) && IsSegment(a) && IsSegment(b) && a != d
    ensures var m, s, t := FolderOverwritten(d, a, b), "/" + a, "/" + d + "/" + a;
      && WellFormed(m) && Replacing.IsTaken(m, s, t) && Replacing.LosesFolder(m, s, t, false, t + "/" + b)
      && !Replacing.NothingLeftOver(m, s, t, false) && Untangled(m, s, t, false)
      && !WellFormed(Relocated(m, s, t, false))
  {
    hide IsKey, Segments, ParentOf, NameOf, IsSegment, Under;
    var m, s, t := FolderOverwritten(d, a, b), "/" + a, "/" + d + "/" + a;
    FolderOverwrittenIsWellFormed(d, a, b);
    ThreeDeep(d, a, b);
    TopKey(a);
    BranchesApart(s, t);
    LeftOverHere(d, a, b);
    hide WellFormed, Relocated, Replacing.LosesFolder, FolderOverwritten, Replacing.IsLeftOver, Untangled;
    Replacing.LosesIsLeftOver(m, s, t, false, t + "/" + b);
    Replacing.BesideIsUntangled(m, s, t, false);
    Replacing.OverlayKeepsExactly(m, s, t, false);
  }

  lemma {:induction false} FolderOverwrittenIsWellFormed(d: string, a: string, b: string)
    requires IsSegment(d) && IsSegment(a) && IsSegment(b) && a != d
    ensures WellFormed(FolderOverwritten(d, a, b)) && "/" + a in FolderOverwritten(d, a, b)
    ensures "/" + d + "/" + a in FolderOverwritten(d, a, b)
  {
    hide IsKey, Segments, ParentOf, NameOf, IsSegment;
    ThreeDeep(d, a, b);
    TopKey(a);
    assert Segments("/" + a)[0] != Segments("/" + d)[0];
    assert Segments("/" + d) != Segments("/" + d + "/" + a)
      && Segments("/" + d) != Segments("/" + d + "/" + a + "/" + b);
    assert Segments("/" + d + "/" + a) != Segments("/" + d + "/" + a + "/" + b);
    assert Segments("/" + d + "/" + a) != Segments("/" + a);
  }

  lemma {:induction false} LeftOverHere(d: string, a: string, b: string)
    requires IsSegment(d) && IsSegment(a) && IsSegment(b) && a != d
    ensures var s, t := "/" + a, "/" + d + "/" + a;
      Replacing.LosesFolder(FolderOverwritten(d, a, b), s, t, false, t + "/" + b)
  {
    hide IsKey, Segments, ParentOf, NameOf, IsSegment;
    var m, s, t := FolderOverwritten(d, a, b), "/" + a, "/" + d + "/" + a;
    ThreeDeep(d, a, b);
    ThreeDeep(a, b, b);
    TopKey(a);
    BranchesApart(s, t + "/" + b);
    assert Swap(t, s, t + "/" + b) == s + "/" + b by {
      assert (t + "/" + b)[|t|..] == "/" + b;
    }
    assert Swap(t, s, t) == s;
    assert Segments(s + "/" + b)[0] == a && |Segments(s + "/" + b)| == 2;
    assert s + "/" + b !in m;
    assert m[s] == File([]);
  }

  /** The file "/b/b" moved to the root with `replace`: the folder it is in becomes the file. */
  lemma {:induction false} FolderBecomesFileHere(b: string, body: Bytes)
    requires IsSegment(b)
    ensures var t := "/" + b;
      var s := t + "/" + b;
      var m := map[t := Folder, s := File(body)];
      && WellFormed(m) && Place(m, s, "/", Replace) == At(t) && Untangled(m, s, t, false)
      && Relocated(m, s, t, false) == map[t := File(body)]
  {
    var t := "/" + b;
    var s := t + "/" + b;
    var m := map[t := Folder, s := File(body)];
    hide IsKey, Segments, ParentOf, NameOf, IsSegment, Under, Swap, Place, Relocated, Untangled;
    ThreeDeep(b, b, b);
    PlaceToReplace(m, s, "/");
    JoinAtRoot(b);
    assert |t| < |s|;
    OutAndUp(m, b, t, s, body);
  }

  lemma {:induction false} OutAndUp(m: FlatTree, b: string, t: string, s: string, body: Bytes)
    requires t == "/" + b && s == t + "/" + b && m == map[t := Folder, s := File(body)]
    ensures Untangled(m, s, t, false) && Relocated(m, s, t, false) == map[t := File(body)]
  {
    assert |t| < |s| && !Under(s, t) && Under(s, s) && Swap(s, t, s) == t && Swap(t, s, t) == s && Under(t, t);
    var moved := Relocated(m, s, t, false);
    forall x
      ensures x in moved <==> x == t
      ensures x in moved ==> moved[x] == File(body)
    {
      Replacing.ReplacedAt(m, s, t, false, x);
      if Under(t, x) && Swap(t, s, x) in m {
        SwapBack(t, s, x);
        assert |Swap(t, s, x)| >= |s|;
      }
    }
  }

  /** The file "/d/x" moved to the root, where its name is the hidden one: no request reaches it
      any more. */
  lemma {:induction false} HiddenByMoveHere(d: string, x: string, body: Bytes)
    requires IsSegment(d) && IsSegment(x) && IsHiddenName(x) && !IsHiddenName(d)
    ensures var s := "/" + d + "/" + x;
      var m := map["/" + d := Folder, s := File(body)];
      && WellFormed(m) && ParsePath(s) == Parsed.Ok(s) && Place(m, s, "/", Skip) == At("/" + x)
      && ParsePath("/" + x) == Reserved
  {
    var s := "/" + d + "/" + x;
    var m := map["/" + d := Folder, s := File(body)];
    hide IsKey, Segments, ParentOf, NameOf, IsSegment, IsHiddenName, ParsePath, IsItem;
    ThreeDeep(d, x, x);
    TopKey(x);
    assert Segments("/" + x) != Segments(s) && Segments("/" + x)[0] != Segments("/" + d)[0];
    ItemAtRoot(d);
    ItemBelow("/" + d, [d], x);
    assert [d] + [x] == [d, x];
    ItemParses(s, [d, x]);
    JoinAtRoot(x);
    RootIsNotAKey("/" + x);
    CanonicalParses("/" + x);
  }

  // ------------------------------------------------------- an exception in the middle of a batch

  function TakenName(d: string, a: string, n: string): FlatTree {
    map["/" + d := Folder, "/" + d + "/" + n := File([]), "/" + n := File([]), "/" + a := File([])]
  }

  /** Names at which everything in this file happens. */
  lemma {:induction false} LettersAreSuchNames()
    ensures forall c: char :: 'a' <= c <= 'z' ==> IsSegment([c]) && !IsHiddenName([c])
  {
    forall c: char | 'a' <= c <= 'z'
      ensures IsSegment([c]) && !IsHiddenName([c])
    {
      assert |LowerCase([c])| == 1;
    }
  }

  lemma {:induction false} LineFeedIsSuchAName()
    ensures IsSegment("\n") && !IsHiddenName("\n") && HasLineTerminator(Base("\n"))
  {
    assert LeftmostTail("\n", 0) == 1 by {
      assert "\n"[0..] == "\n" && !IsTail("\n");
    }
    assert IsLineTerminator(Base("\n")[0]);
    assert |LowerCase("\n")| == 1;
  }

  lemma {:induction false} TwoParse(a: string, n: string)
    requires IsSegment(a) && IsSegment(n) && !IsHiddenName(a) && !IsHiddenName(n)
    ensures SourcesRefusal(["/" + a, "/" + n]).None?
    ensures PathsOf(ParsedSources(["/" + a, "/" + n])) == ["/" + a, "/" + n]
  {
    hide IsKey, Segments, ParentOf, NameOf, IsSegment, IsHiddenName, ParsePath;
    TopKey(a);
    TopKey(n);
    RootIsNotAKey("/" + a);
    RootIsNotAKey("/" + n);
    CanonicalParses("/" + a);
    CanonicalParses("/" + n);
    assert ParsedSources(["/" + a, "/" + n]) == [Parsed.Ok("/" + a), Parsed.Ok("/" + n)];
  }

  /** The first of the two sources has been moved when the exception comes. */
  lemma {:induction false} FirstMoves(d: string, a: string, n: string)
    requires IsSegment(d) && IsSegment(a) && IsSegment(n) && a != d && a != n && n != d
    ensures var m, s, t := TakenName(d, a, n), "/" + a, "/" + d + "/" + a;
      && IsDir(m, "/" + d) && s in m && Place(m, s, "/" + d, KeepBoth) == At(t)
      && "/" + n in Moved(m, s, t) && "/" + d + "/" + n in Moved(m, s, t)
      && s !in Moved(m, s, t) && t in Moved(m, s, t) && s != t
  {
    hide IsKey, Segments, ParentOf, NameOf, IsSegment, Under, Swap;
    var m, s, t := TakenName(d, a, n), "/" + a, "/" + d + "/" + a;
    ThreeDeep(d, a, n);
    ThreeDeep(d, n, n);
    TopKey(a);
    TopKey(n);
    RootIsNotAKey("/" + d);
    BranchesApart("/" + a, "/" + n);
    BranchesApart("/" + a, "/" + d + "/" + n);
    BranchesApart("/" + a, "/" + d);
    BranchesApart("/" + a, t);
    assert Segments("/" + d) != Segments("/" + d + "/" + n);
    assert Segments(t) != Segments("/" + d + "/" + n) && Segments(t) != Segments("/" + d)
      && Segments(t) != Segments("/" + n);
    Replacing.SwapSelf(s, t);
    Replacing.SwapSelf(t, s);
    assert t !in m;
  }

  lemma {:induction false} SecondCrashes(m: FlatTree, d: string, n: string)
    requires IsSegment(d) && IsSegment(n) && n != d && HasLineTerminator(Base(n))
    requires "/" + n in m && "/" + d + "/" + n in m
    ensures Place(m, "/" + n, "/" + d, KeepBoth) == Unmatched
  {
    hide IsKey, Segments, ParentOf, NameOf, IsSegment, LazyGroup, HasLineTerminator;
    ThreeDeep(d, n, n);
    TopKey(n);
    RootIsNotAKey("/" + d);
    assert Segments("/" + n) != Segments("/" + d + "/" + n);
    TwoFormsAgree(n);
  }

  /** The batch ends with an uncaught exception at its second source, and the first stays moved. */
  lemma {:induction false} CrashesHalfWayHere(d: string, a: string, n: string)
    requires IsSegment(d) && IsSegment(a) && IsSegment(n) && a != d && a != n && n != d
    requires !IsHiddenName(d) && !IsHiddenName(a) && !IsHiddenName(n) && HasLineTerminator(Base(n))
    ensures var answer := TransferAnswer(TakenName(d, a, n), false, ["/" + a, "/" + n], "/" + d, KeepBoth);
      answer.reply == Crashed && "/" + a !in answer.tree && "/" + d + "/" + a in answer.tree
  {
    hide IsKey, Segments, ParentOf, NameOf, IsSegment, IsHiddenName, ParsePath, HasLineTerminator, IsDir, Place, Moved,
      SourcesRefusal, TakenName;
    var m, s, t := TakenName(d, a, n), "/" + a, "/" + d + "/" + a;
    TwoParse(a, n);
    TopKey(d);
    RootIsNotAKey("/" + d);
    CanonicalParses("/" + d);
    FirstMoves(d, a, n);
    SecondCrashes(Moved(m, s, t), d, n);
    BatchOfTwo(m, s, "/" + n, "/" + d, KeepBoth, false);
  }

  lemma {:induction false} BatchOfTwo(m: FlatTree, s: string, x: string, dest: string, policy: Policy, keep: bool)
    ensures TransferAll(m, [s, x], dest, policy, keep) ==
      TransferStep(TransferStep(Progress(m, [], false), s, dest, policy, keep), x, dest, policy, keep)
  {
    hide TransferStep;
    assert [s, x][..1] == [s] && [s][..0] == [];
    assert TransferAll(m, [], dest, policy, keep) == Progress(m, [], false);
    assert TransferAll(m, [s], dest, policy, keep) == TransferStep(Progress(m, [], false), s, dest, policy, keep);
  }

  // ------------------------------------------------------------------- a session that ends

  /** Two files are queued, the session ends while the first is sent, and the user signs in
      again: the second waits, and nobody is going to send it. */
  lemma {:induction false} StrandedHere(first: Uploads.Job, second: Uploads.Job)
    ensures Uploads.Stranded(Uploads.Run([Uploads.SignIn, Uploads.Queue([first, second], true), Uploads.EndSession,
                                          Uploads.Reply(1, 201, ""), Uploads.SignIn]))
  {
    hide Uploads.Run;
    var events := [Uploads.SignIn, Uploads.Queue([first, second], true), Uploads.EndSession,
                   Uploads.Reply(1, 201, ""), Uploads.SignIn];
    QueuedPage(first, second);
    RunOneMore(events, 0);
    RunOneMore(events, 1);
    RunOneMore(events, 2);
    RunOneMore(events, 3);
    RunOneMore(events, 4);
    assert events[..5] == events;
    FirstSettles(Uploads.Run(events[..3]), first, second);
    var p := Uploads.Run(events);
    assert p.items[1].status.Waiting?;
  }

  lemma {:induction false} RunOneMore(events: seq<Uploads.Event>, n: nat)
    requires n < |events|
    ensures Uploads.Run(events[..n + 1]) == Uploads.Next(Uploads.Run(events[..n]), events[n])
    ensures Uploads.Run(events[..0]) == Uploads.FRESH
  {
    hide Uploads.Next;
    assert events[..n + 1][..n] == events[..n];
  }

  lemma {:induction false} QueuedPage(first: Uploads.Job, second: Uploads.Job)
    ensures var p := Uploads.Next(Uploads.Next(Uploads.FRESH, Uploads.SignIn), Uploads.Queue([first, second], true));
      && p.items == [Uploads.Item(1, first, Uploads.Uploading), Uploads.Item(2, second, Uploads.Waiting)]
      && p.inFlight == map[1 := Uploads.Flight(first, Uploads.PlainReply)] && p.signedIn
  {
    hide Uploads.Put;
  }

  lemma {:induction false} FirstSettles(p: Uploads.Page, first: Uploads.Job, second: Uploads.Job)
    requires p.items == [Uploads.Item(1, first, Uploads.Uploading), Uploads.Item(2, second, Uploads.Waiting)]
    requires p.inFlight == map[1 := Uploads.Flight(first, Uploads.PlainReply)] && !p.signedIn
    ensures var q := Uploads.Next(p, Uploads.Reply(1, 201, ""));
      !q.running && q.items == [Uploads.Item(1, first, Uploads.Done), Uploads.Item(2, second, Uploads.Waiting)]
  {
    assert Uploads.SetStatus(p.items, 1, Uploads.Done) ==
      [Uploads.Item(1, first, Uploads.Done), Uploads.Item(2, second, Uploads.Waiting)];
    hide Uploads.SetStatus, Uploads.Put, Uploads.FirstWaiting;
  }

  // --------------------------------------------------------------------- a link that outlives

  /** The upload link there is at start-up; it has five uses. */
  const START_LINK := PublicLink.Link("/many", Some(1024 * 1024))

  /** From the start-up tree: the folder of the upload link is deleted, the link goes on taking
      uploads, and what it stores is not below any folder. */
  lemma {:induction false} UploadAfterDeleteHere(contents: string -> Bytes, id: string, raw: string, data: Bytes)
    requires IsSegment(id) && PublicLink.UsableName(raw).Some? && |data| <= 1024 * 1024
    requires FreeAt(Seeds.Planted(Seeds.StartSeeds(contents)), BinFor(id, "/many"))
    ensures var m := Seeds.Planted(Seeds.StartSeeds(contents));
      var deleted := DeleteStep(Progress(m, [], false), "/many", id).tree;
      var server, name := PublicLink.Server(deleted, Some(5), []), PublicLink.UsableName(raw).value;
      && Sound(m) && "/many" in m && Sound(deleted) && "/many" !in deleted
      && PublicLink.Finish(START_LINK, server, name, data).1 == 201
      && !WellFormed(PublicLink.Finish(START_LINK, server, name, data).0.tree)
  {
    assert START_LINK == PublicLink.Link("/many", Some(1024 * 1024));
    hide *;
    var m := Seeds.Planted(Seeds.StartSeeds(contents));
    Seeds.StartIsSound(contents);
    Seeds.ManyIsThere(contents);
    ManyIsVisible();
    DeletedIsGone(m, "/many", id);
    var deleted := DeleteStep(Progress(m, [], false), "/many", id).tree;
    var server := PublicLink.Server(deleted, Some(5), []);
    TakesWhatFits(START_LINK, server, PublicLink.UsableName(raw).value, data);
    OutOfTree(deleted, "/many");
    SoundIsWellFormed(deleted);
    PublicLink.PlacedProperlyExactly(START_LINK, server, raw, data);
  }

  lemma {:induction false} ManyIsVisible()
    ensures IsVisible("/many") && IsKey("/many")
  {
    hide IsKey, Segments;
    Seeds.ManyIsKey();
    assert |LowerCase("many")| == 4;
  }

  lemma {:induction false} DeletedIsGone(m: FlatTree, s: string, id: string)
    requires Sound(m) && s in m && IsVisible(s) && IsSegment(id) && FreeAt(m, BinFor(id, s))
    ensures var deleted := DeleteStep(Progress(m, [], false), s, id).tree; Sound(deleted) && s !in deleted
  {
    BinIsApart(s, id);
    DeleteStepKeeps(Progress(m, [], false), s, id);
    KeptIsSound(m, DeleteStep(Progress(m, [], false), s, id).tree, true);
    hide Sound, Kept, IsVisible, BinFor, IsKey, IsHiddenKey, FreeAt;
    BinIsApartToo(s, BinFor(id, s));
  }

  lemma {:induction false} BinIsApartToo(s: string, t: string)
    requires IsKey(s) && IsKey(t) && Segments(s)[0] != Segments(t)[0]
    ensures !Under(t, s) && Under(s, s)
  {
    BranchesApart(s, t);
  }

  lemma {:induction false} OutOfTree(m: FlatTree, s: string)
    requires s !in m && s != "/"
    ensures !IsDir(m, s)
  {
  }

  lemma {:induction false} TakesWhatFits(link: PublicLink.Link, s: PublicLink.Server, name: string, data: Bytes)
    requires link.maxFileBytes == Some(1024 * 1024) && |data| <= 1024 * 1024 && s.remaining == Some(5)
    ensures PublicLink.Finish(link, s, name, data).1 == 201
  {
    hide PublicLink.FreeTarget;
  }

  // ---------------------------------------------------------------------- the order of keys

  function PutCall(path: string, body: Bytes): Call {
    Call("phone", Put(path, false, body))
  }

  /** Three folders, each in the one before, then two files. */
  function Nesting(t: string, s: string, u: string, first: Call, second: Call): seq<Call> {
    [Call("phone", Mkdir(t)), Call("phone", Mkdir(s)), Call("phone", Mkdir(u)), first, second]
  }

  /** An item moved to the root with `replace`. */
  function MoveOut(s: string): Call {
    Call("phone", Transfer(false, [s], "/", Replace))
  }

  predicate IsItem(p: string, segs: seq<string>) {
    IsKey(p) && Segments(p) == segs && ParsePath(p) == Parsed.Ok(p)
  }

  lemma {:induction false} ItemBelow(dir: string, segs: seq<string>, name: string)
    requires IsItem(dir, segs) && IsSegment(name)
    ensures IsItem(dir + "/" + name, segs + [name]) && ParentOf(dir + "/" + name) == dir
    ensures NameOf(dir + "/" + name) == name
  {
    hide IsKey, Segments, ParentOf, NameOf, ParsePath, IsSegment;
    KeyBelow(dir, name);
    var p := dir + "/" + name;
    RootIsNotAKey(p);
    RootIsNotAKey(dir);
    CanonicalParses(dir);
    CanonicalParses(p);
    assert Segments(p)[0] == segs[0] by { KeySegments(dir); }
  }

  lemma {:induction false} ItemAtRoot(b: string)
    requires IsSegment(b) && !IsHiddenName(b)
    ensures IsItem("/" + b, [b]) && ParentOf("/" + b) == "/"
  {
    hide IsKey, Segments, ParentOf, NameOf, ParsePath, IsSegment, IsHiddenName;
    TopKey(b);
    RootIsNotAKey("/" + b);
    CanonicalParses("/" + b);
  }

  /** A request that makes a folder or stores a file where nothing is appends its key. */
  lemma {:induction false} CallSets(st: Store, path: string, node: Node, call: Call)
    requires IsStore(st) && IsKey(path) && ParsePath(path) == Parsed.Ok(path)
    requires IsDir(st.nodes, ParentOf(path)) && path !in st.nodes
    requires call == if node.Folder? then Call("phone", Mkdir(path)) else PutCall(path, node.data)
    ensures var next := Store(st.nodes[path := node], st.order + [path]);
      IsStore(next) && ApplyIn(st, call.rootId, call.request) == AnswerIn(next, Stored(201, path))
  {
    RootIsNotAKey(path);
    SetKeyKeeps(st, path, node);
    hide ParsePath, ParentOf, IsDir, IsKey, IsStore;
  }

  lemma {:induction false} RunInOneMore(st: Store, calls: seq<Call>, call: Call)
    requires (forall c :: c in calls ==> HasIds(c.request)) && HasIds(call.request)
    ensures RunIn(st, calls + [call]) == ApplyIn(RunIn(st, calls), call.rootId, call.request).store
    ensures RunIn(st, []) == st
  {
    hide HasIds, ApplyIn;
    assert (calls + [call])[..|calls|] == calls;
  }

  lemma {:induction false} RunInFive(st: Store, a: Call, b: Call, c: Call, d: Call, e: Call)
    requires HasIds(a.request) && HasIds(b.request) && HasIds(c.request) && HasIds(d.request) && HasIds(e.request)
    ensures var one := ApplyIn(st, a.rootId, a.request).store;
      var two := ApplyIn(one, b.rootId, b.request).store;
      var three := ApplyIn(two, c.rootId, c.request).store;
      var four := ApplyIn(three, d.rootId, d.request).store;
      RunIn(st, [a, b, c, d, e]) == ApplyIn(four, e.rootId, e.request).store
  {
    hide HasIds, ApplyIn;
    assert [] + [a] == [a] && [a] + [b] == [a, b] && [a, b] + [c] == [a, b, c];
    assert [a, b, c] + [d] == [a, b, c, d] && [a, b, c, d] + [e] == [a, b, c, d, e];
    RunInOneMore(st, [], a);
    RunInOneMore(st, [a], b);
    RunInOneMore(st, [a, b], c);
    RunInOneMore(st, [a, b, c], d);
    RunInOneMore(st, [a, b, c, d], e);
  }

  /** The places of the story: "/b", "/b/b", "/b/b/b", "/b/b/r", "/b/b/b/r" and "/b/r". */
  lemma {:induction false} NestedPlaces(b: string, r: string, t: string, s: string, u: string)
    requires IsSegment(b) && IsSegment(r) && !IsHiddenName(b)
    requires t == "/" + b && s == t + "/" + b && u == s + "/" + b
    ensures IsItem(t, [b]) && ParentOf(t) == "/"
    ensures IsItem(s, [b, b]) && ParentOf(s) == t && NameOf(s) == b
    ensures IsItem(u, [b, b, b]) && ParentOf(u) == s
    ensures IsItem(s + "/" + r, [b, b, r]) && ParentOf(s + "/" + r) == s
    ensures IsItem(u + "/" + r, [b, b, b, r]) && ParentOf(u + "/" + r) == u
    ensures IsItem(t + "/" + r, [b, r])
  {
    hide *;
    ItemAtRoot(b);
    ItemBelow(t, [b], b);
    assert [b] + [b] == [b, b];
    ItemBelow(s, [b, b], b);
    assert [b, b] + [b] == [b, b, b];
    ItemBelow(s, [b, b], r);
    assert [b, b] + [r] == [b, b, r];
    ItemBelow(u, [b, b, b], r);
    assert [b, b, b] + [r] == [b, b, b, r];
    ItemBelow(t, [b], r);
    assert [b] + [r] == [b, r];
  }

  lemma {:induction false} NestedIsFree(base: FlatTree, b: string, r: string, t: string, s: string, u: string)
    requires FreeAt(base, t) && s == t + "/" + b && u == s + "/" + b
    ensures t !in base && s !in base && u !in base
    ensures s + "/" + r !in base && u + "/" + r !in base && t + "/" + r !in base
  {
    hide *;
    assert t + "" == t;
    BelowIsFree(base, t, "");
    assert s == t + ("/" + b);
    BelowIsFree(base, t, "/" + b);
    assert u == t + ("/" + b + "/" + b);
    BelowIsFree(base, t, "/" + b + "/" + b);
    assert s + "/" + r == t + ("/" + b + "/" + r);
    BelowIsFree(base, t, "/" + b + "/" + r);
    assert u + "/" + r == t + ("/" + b + "/" + b + "/" + r);
    BelowIsFree(base, t, "/" + b + "/" + b + "/" + r);
    assert t + "/" + r == t + ("/" + r);
    BelowIsFree(base, t, "/" + r);
  }

  lemma {:induction false} BelowIsFree(base: FlatTree, t: string, rest: string)
    requires FreeAt(base, t) && (rest == "" || rest[0] == '/')
    ensures t + rest !in base
  {
    assert Under(t, t + rest) by {
      if rest != "" {
        assert (t + rest)[..|t| + 1] == t + "/";
      }
    }
    hide Under;
  }

  ghost predicate AllDiffer(t: string, s: string, u: string, p: string, q: string, w: string) {
    && t != s && t != u && t != p && t != q && t != w && s != u && s != p && s != q && s != w
    && u != p && u != q && u != w && p != q && p != w && q != w
  }

  lemma {:induction false} NestedDiffer(b: string, r: string, t: string, s: string, u: string, p: string, q: string,
                                        w: string)
    requires b != r && Segments(t) == [b] && Segments(s) == [b, b] && Segments(u) == [b, b, b]
    requires Segments(p) == [b, b, r] && Segments(q) == [b, b, b, r] && Segments(w) == [b, r]
    ensures AllDiffer(t, s, u, p, q, w)
  {
    hide Segments;
    assert |[b]| == 1 && |[b, b]| == |[b, r]| == 2 && |[b, b, b]| == |[b, b, r]| == 3 && |[b, b, b, r]| == 4;
    assert [b, b][1] != [b, r][1] && [b, b, b][2] != [b, b, r][2];
  }

  /** What lies where before the move; the two files in either order. */
  function NestedTree(base: FlatTree, t: string, s: string, u: string, p: string, q: string, one: Bytes, two: Bytes):
    FlatTree
  {
    base[t := Folder][s := Folder][u := Folder][p := File(one)][q := File(two)]
  }

  /** The loop's turns at the folders, and then at the files in either order. */
  lemma {:induction false} NestedMaps(base: FlatTree, t: string, s: string, u: string, p: string, q: string, w: string,
                                      one: Node, two: Node)
    requires AllDiffer(t, s, u, p, q, w)
    requires t !in base && s !in base && u !in base && p !in base && q !in base && w !in base
    ensures var top := base[t := Folder];
      && top[s := Folder][u := Folder][p := one][q := two][t := Folder] - {s} == top[u := Folder][p := one][q := two]
      && top[u := Folder][p := one][q := two][s := Folder] - {u} == top[s := Folder][p := one][q := two]
      && top[s := Folder][p := one][q := two][w := one] - {p} == top[s := Folder][q := two][w := one]
      && top[s := Folder][q := two][w := one][p := two] - {q} == top[s := Folder][w := one][p := two]
      && top[s := Folder][p := one][q := two][p := two] - {q} == top[s := Folder][p := two]
      && top[s := Folder][p := two][w := two] - {p} == top[s := Folder][w := two]
  {
    var top := base[t := Folder];
    assert t in top && s !in top && u !in top && p !in top && q !in top && w !in top;
    MapsOne(top, t, s, u, p, q, one, two);
    MapsTwo(top, s, u, p, q, one, two);
    MapsThree(top[s := Folder], p, q, w, one, two);
    MapsFour(top[s := Folder], p, q, w, one, two);
  }

  lemma {:induction false} MapsOne(top: FlatTree, t: string, s: string, u: string, p: string, q: string, one: Node,
                                   two: Node)
    requires t in top && top[t] == Folder && s !in top
    requires s != t && s != u && s != p && s != q && t != u && t != p && t != q
    ensures top[s := Folder][u := Folder][p := one][q := two][t := Folder] - {s} == top[u := Folder][p := one][q := two]
  {
  }

  lemma {:induction false} MapsTwo(top: FlatTree, s: string, u: string, p: string, q: string, one: Node, two: Node)
    requires u !in top && u != s && u != p && u != q && s != p && s != q
    ensures top[u := Folder][p := one][q := two][s := Folder] - {u} == top[s := Folder][p := one][q := two]
  {
  }

  lemma {:induction false} MapsThree(m: FlatTree, p: string, q: string, w: string, one: Node, two: Node)
    requires p !in m && q !in m && p != q && p != w && q != w
    ensures m[p := one][q := two][w := one] - {p} == m[q := two][w := one]
    ensures m[q := two][w := one][p := two] - {q} == m[w := one][p := two]
  {
  }

  lemma {:induction false} MapsFour(m: FlatTree, p: string, q: string, w: string, one: Node, two: Node)
    requires p !in m && q !in m && p != q && p != w
    ensures m[p := one][q := two][p := two] - {q} == m[p := two]
    ensures m[p := two][w := two] - {p} == m[w := two]
  {
  }

  lemma {:induction false} NestedSwaps(b: string, r: string, t: string, s: string, u: string)
    requires t == "/" + b && s == t + "/" + b && u == s + "/" + b
    ensures !Under(s, t) && Under(t, s)
    ensures Under(s, s) && Swap(s, t, s) == t
    ensures Under(s, u) && Swap(s, t, u) == s
    ensures Under(s, s + "/" + r) && Swap(s, t, s + "/" + r) == t + "/" + r
    ensures Under(s, u + "/" + r) && Swap(s, t, u + "/" + r) == s + "/" + r
  {
    assert |t| < |s|;
    assert (s + "/" + r)[|s|..] == "/" + r && (s + "/" + b)[|s|..] == "/" + b;
    assert (u + "/" + r)[|s|..] == "/" + b + "/" + r;
    assert t + ("/" + b + "/" + r) == s + "/" + r;
    assert t + ("/" + r) == t + "/" + r;
  }

  /** Keys that are not below the source have no turn. */
  lemma {:induction false} NoTurn(m: FlatTree, s: string, t: string, order: seq<string>)
    requires forall k :: k in order ==> !Under(s, k)
    ensures TurnAll(m, s, t, false, order) == m
  {
    hide Under, Swap;
    if order != [] {
      NoTurn(m, s, t, order[..|order| - 1]);
    }
  }

  lemma {:induction false} OldKeysHaveNoTurn(st: Store, t: string, s: string)
    requires IsStore(st) && FreeAt(st.nodes, t) && Under(t, s)
    ensures forall k :: k in st.order ==> !Under(s, k)
  {
    hide Under, Elements, NoDuplicates;
    forall k | k in st.order
      ensures !Under(s, k)
    {
      ElementsOf(st.order, k);
      if Under(s, k) {
        UnderTransitive(t, s, k);
      }
    }
  }

  lemma {:induction false} FiveTurns(m: FlatTree, s: string, t: string, order: seq<string>, a: string, b: string,
                                     c: string, d: string, e: string)
    requires TurnAll(m, s, t, false, order) == m && a in m
    requires var m1 := Turn(m, s, t, false, a);
      && b in m1 && c in Turn(m1, s, t, false, b)
      && d in Turn(Turn(m1, s, t, false, b), s, t, false, c)
      && e in Turn(Turn(Turn(m1, s, t, false, b), s, t, false, c), s, t, false, d)
    ensures TurnAll(m, s, t, false, order + [a, b, c, d, e]) ==
      Turn(Turn(Turn(Turn(Turn(m, s, t, false, a), s, t, false, b), s, t, false, c), s, t, false, d), s, t, false, e)
  {
    hide Turn;
    OneTurnMore(m, s, t, false, order, a);
    OneTurnMore(m, s, t, false, order + [a], b);
    OneTurnMore(m, s, t, false, order + [a] + [b], c);
    OneTurnMore(m, s, t, false, order + [a] + [b] + [c], d);
    OneTurnMore(m, s, t, false, order + [a] + [b] + [c] + [d], e);
    assert order + [a] + [b] + [c] + [d] + [e] == order + [a, b, c, d, e];
  }

  /** The loop of the move: the file "/b/b/r" first, or the file "/b/b/b/r" first. */
  lemma {:induction false} NestedLoop(base: FlatTree, order: seq<string>, b: string, r: string, t: string, s: string,
                                      u: string, one: Bytes, two: Bytes)
    requires IsSegment(b) && IsSegment(r) && b != r && !IsHiddenName(b) && FreeAt(base, t)
    requires t == "/" + b && s == t + "/" + b && u == s + "/" + b
    requires forall k :: k in order ==> !Under(s, k)
    ensures var p, q := s + "/" + r, u + "/" + r;
      var m := NestedTree(base, t, s, u, p, q, one, two);
      && TurnAll(m, s, t, false, order + [t, s, u, p, q]) ==
           base[t := Folder][s := Folder][t + "/" + r := File(one)][p := File(two)]
      && TurnAll(m, s, t, false, order + [t, s, u, q, p]) == base[t := Folder][s := Folder][t + "/" + r := File(two)]
  {
    var p, q, w := s + "/" + r, u + "/" + r, t + "/" + r;
    NestedPlaces(b, r, t, s, u);
    NestedIsFree(base, b, r, t, s, u);
    NestedDiffer(b, r, t, s, u, p, q, w);
    NestedSwaps(b, r, t, s, u);
    var m := NestedTree(base, t, s, u, p, q, one, two);
    NoTurn(m, s, t, order);
    hide Under, Swap, Turn, TurnAll, IsSegment, IsHiddenName, FreeAt, IsItem, ParentOf, NameOf;
    NestedTurns(base, m, t, s, u, p, q, w, one, two);
    FiveTurns(m, s, t, order, t, s, u, p, q);
    FiveTurns(m, s, t, order, t, s, u, q, p);
  }

  lemma {:induction false} NestedTurns(base: FlatTree, m: FlatTree, t: string, s: string, u: string, p: string,
                                       q: string, w: string, one: Bytes, two: Bytes)
    requires AllDiffer(t, s, u, p, q, w)
    requires t !in base && s !in base && u !in base && p !in base && q !in base && w !in base
    requires m == NestedTree(base, t, s, u, p, q, one, two)
    requires !Under(s, t) && Under(s, s) && Under(s, u) && Under(s, p) && Under(s, q)
    requires Swap(s, t, s) == t && Swap(s, t, u) == s && Swap(s, t, p) == w && Swap(s, t, q) == p
    ensures t in m && Turn(m, s, t, false, t) == m && s in m
    ensures var m1 := Turn(m, s, t, false, s);
      && u in m1
      && var m2 := Turn(m1, s, t, false, u);
      && p in m2 && q in Turn(m2, s, t, false, p)
      && Turn(Turn(m2, s, t, false, p), s, t, false, q) ==
        base[t := Folder][s := Folder][w := File(one)][p := File(two)]
      && q in m2 && p in Turn(m2, s, t, false, q)
      && Turn(Turn(m2, s, t, false, q), s, t, false, p) == base[t := Folder][s := Folder][w := File(two)]
  {
    NestedMaps(base, t, s, u, p, q, w, File(one), File(two));
    hide Under, Swap, Turn;
    TurnIs(m, s, t, false, t);
    TurnIs(m, s, t, false, s);
    var m1 := base[t := Folder][u := Folder][p := File(one)][q := File(two)];
    assert Turn(m, s, t, false, s) == m1;
    TurnIs(m1, s, t, false, u);
    var m2 := base[t := Folder][s := Folder][p := File(one)][q := File(two)];
    assert Turn(m1, s, t, false, u) == m2;
    TurnIs(m2, s, t, false, p);
    TurnIs(m2, s, t, false, q);
    TurnIs(base[t := Folder][s := Folder][q := File(two)][w := File(one)], s, t, false, q);
    TurnIs(base[t := Folder][s := Folder][p := File(two)], s, t, false, p);
  }

  lemma {:induction false} CallMakes(st: Store, dir: string, path: string, segs: seq<string>, node: Node, call: Call)
    requires IsStore(st) && IsItem(path, segs) && ParentOf(path) == dir && path !in st.nodes
    requires dir == "/" || (dir in st.nodes && st.nodes[dir] == Folder)
    requires call == if node.Folder? then Call("phone", Mkdir(path)) else PutCall(path, node.data)
    ensures HasIds(call.request)
    ensures var next := Store(st.nodes[path := node], st.order + [path]);
      IsStore(next) && ApplyIn(st, call.rootId, call.request).store == next
  {
    hide IsKey, Segments, ParsePath, ParentOf, IsStore, ApplyIn;
    CallSets(st, path, node, call);
  }

  /** What the five requests leave. */
  lemma {:induction false} NestBuilt(st: Store, b: string, r: string, t: string, s: string, u: string, x: string,
                                     one: Bytes, y: string, two: Bytes)
    requires IsStore(st) && FreeAt(st.nodes, t) && IsSegment(b) && IsSegment(r) && b != r && !IsHiddenName(b)
    requires t == "/" + b && s == t + "/" + b && u == s + "/" + b
    requires (x == s + "/" + r && y == u + "/" + r) || (x == u + "/" + r && y == s + "/" + r)
    ensures var built := RunIn(st, Nesting(t, s, u, PutCall(x, one), PutCall(y, two)));
      IsStore(built) && built == Store(NestedTree(st.nodes, t, s, u, x, y, one, two), st.order + [t, s, u, x, y])
  {
    NestedPlaces(b, r, t, s, u);
    NestedIsFree(st.nodes, b, r, t, s, u);
    ItemSegments(b, r, t, s, u);
    NestedDiffer(b, r, t, s, u, s + "/" + r, u + "/" + r, t + "/" + r);
    var p, q := s + "/" + r, u + "/" + r;
    hide IsItem, ParentOf, NameOf, IsSegment, IsHiddenName, FreeAt, IsStore, RunIn, ApplyIn, Segments, HasIds, Nesting;
    NestingHasIds(t, s, u, x, one, y, two);
    if x == p {
      FiveCalls(st, t, s, u, x, one, y, two, [b], [b, b], [b, b, b], [b, b, r], [b, b, b, r], s, u);
    } else {
      FiveCalls(st, t, s, u, x, one, y, two, [b], [b, b], [b, b, b], [b, b, b, r], [b, b, r], u, s);
    }
  }

  lemma {:induction false} NestingHasIds(t: string, s: string, u: string, x: string, one: Bytes, y: string, two: Bytes)
    ensures forall c :: c in Nesting(t, s, u, PutCall(x, one), PutCall(y, two)) ==> HasIds(c.request)
  {
  }

  lemma {:induction false} ItemSegments(b: string, r: string, t: string, s: string, u: string)
    requires IsItem(t, [b]) && IsItem(s, [b, b]) && IsItem(u, [b, b, b]) && IsItem(s + "/" + r, [b, b, r])
    requires IsItem(u + "/" + r, [b, b, b, r]) && IsItem(t + "/" + r, [b, r])
    ensures Segments(t) == [b] && Segments(s) == [b, b] && Segments(u) == [b, b, b]
    ensures Segments(s + "/" + r) == [b, b, r] && Segments(u + "/" + r) == [b, b, b, r]
    ensures Segments(t + "/" + r) == [b, r]
  {
    hide IsKey, Segments, ParsePath;
  }

  lemma {:induction false} FiveCalls(st: Store, t: string, s: string, u: string, x: string, one: Bytes, y: string,
                                     two: Bytes, ts: seq<string>, ss: seq<string>, us: seq<string>, xs: seq<string>,
                                     ys: seq<string>, xDir: string, yDir: string)
    requires IsStore(st) && t !in st.nodes && s !in st.nodes && u !in st.nodes && x !in st.nodes && y !in st.nodes
    requires t != s && t != u && t != x && t != y && s != u && s != x && s != y && u != x && u != y && x != y
    requires IsItem(t, ts) && IsItem(s, ss) && IsItem(u, us) && IsItem(x, xs) && IsItem(y, ys)
    requires ParentOf(t) == "/" && ParentOf(s) == t && ParentOf(u) == s && ParentOf(x) == xDir && ParentOf(y) == yDir
    requires (xDir == s || xDir == u) && (yDir == s || yDir == u)
    requires forall c :: c in Nesting(t, s, u, PutCall(x, one), PutCall(y, two)) ==> HasIds(c.request)
    ensures var built := RunIn(st, Nesting(t, s, u, PutCall(x, one), PutCall(y, two)));
      IsStore(built) && built == Store(NestedTree(st.nodes, t, s, u, x, y, one, two), st.order + [t, s, u, x, y])
  {
    hide IsItem, ParentOf, IsStore, RunIn, ApplyIn, HasIds;
    var base, order := st.nodes, st.order;
    var m1 := base[t := Folder];
    var m2 := m1[s := Folder];
    var m3 := m2[u := Folder];
    var m4 := m3[x := File(one)];
    var first, second := PutCall(x, one), PutCall(y, two);
    CallMakes(st, "/", t, ts, Folder, Call("phone", Mkdir(t)));
    CallMakes(Store(m1, order + [t]), t, s, ss, Folder, Call("phone", Mkdir(s)));
    CallMakes(Store(m2, order + [t] + [s]), s, u, us, Folder, Call("phone", Mkdir(u)));
    CallMakes(Store(m3, order + [t] + [s] + [u]), xDir, x, xs, File(one), first);
    CallMakes(Store(m4, order + [t] + [s] + [u] + [x]), yDir, y, ys, File(two), second);
    assert order + [t] + [s] + [u] + [x] + [y] == order + [t, s, u, x, y];
    RunInFive(st, Call("phone", Mkdir(t)), Call("phone", Mkdir(s)), Call("phone", Mkdir(u)), first, second);
  }

  lemma {:induction false} OneSource(st: Store, s: string, dest: string, policy: Policy, keep: bool)
    ensures TransferAllIn(st, [s], dest, policy, keep) ==
      TransferStepIn(ProgressIn(st, [], false), s, dest, policy, keep)
  {
    hide TransferStepIn;
    assert [s][..0] == [];
  }

  lemma {:induction false} SourceAccepted(s: string)
    requires ParsePath(s) == Parsed.Ok(s) && s != "/"
    ensures SourcesRefusal([s]).None? && PathsOf(ParsedSources([s])) == [s]
  {
    hide ParsePath;
    assert ParsedSources([s]) == [Parsed.Ok(s)];
  }

  lemma {:induction false} TransferUnfoldedIn(st: Store, keep: bool, raws: seq<string>, rawDest: string, policy: Policy)
    requires TransferRuns(st.nodes, raws, rawDest)
    ensures SourcesRefusal(raws).None? && ParsePath(rawDest).Ok?
    ensures ApplyIn(st, "phone", Transfer(keep, raws, rawDest, policy)).store ==
      TransferAllIn(st, PathsOf(ParsedSources(raws)), ParsePath(rawDest).path, policy, keep).store
  {
    hide SourcesRefusal, ParsePath, IsDir, TransferAllIn, BatchReply;
  }

  lemma {:induction false} StepReplacesIn(st: Store, s: string, t: string, dest: string, keep: bool)
    requires s in st.nodes && Place(st.nodes, s, dest, Replace) == At(t)
    ensures TransferStepIn(ProgressIn(st, [], false), s, dest, Replace, keep).store == RekeyIn(st, s, t, keep)
  {
    hide Place, RekeyIn;
  }

  /** What the move to the root does, if another item is there. */
  lemma {:induction false} MoveOutLoops(st: Store, s: string, name: string)
    requires IsStore(st) && ParsePath(s) == Parsed.Ok(s) && s != "/" && NameOf(s) == name && s in st.nodes
    ensures HasIds(MoveOut(s).request)
    ensures ApplyIn(st, "phone", MoveOut(s).request).store.nodes == TurnAll(st.nodes, s, "/" + name, false, st.order)
  {
    RootParses();
    SourceAccepted(s);
    RootRuns(st.nodes, s);
    MoveOutIs(s);
    hide *;
    TransferUnfoldedIn(st, false, [s], "/", Replace);
    OneSource(st, s, "/", Replace, false);
    PlaceToReplace(st.nodes, s, "/");
    JoinAtRoot(name);
    StepReplacesIn(st, s, "/" + name, "/", false);
    RekeyIs(st, s, "/" + name, false);
  }

  lemma {:induction false} MoveOutIs(s: string)
    ensures MoveOut(s).request == Transfer(false, [s], "/", Replace) && HasIds(MoveOut(s).request)
  {
  }

  lemma {:induction false} RootRuns(m: FlatTree, s: string)
    requires SourcesRefusal([s]).None? && ParsePath("/") == Parsed.Ok("/")
    ensures TransferRuns(m, [s], "/")
  {
    hide SourcesRefusal, ParsePath;
  }

  lemma {:induction false} JoinAtRoot(name: string)
    ensures JoinPath("/", name) == "/" + name
  {
  }

  lemma {:induction false} RootParses()
    ensures ParsePath("/") == Parsed.Ok("/") && IsDir(map[], "/")
  {
    AbsoluteIsCanonical([]);
    CanonicalParses("/");
  }

  lemma {:induction false} EitherOrder(base: FlatTree, t: string, s: string, u: string, p: string, q: string,
                                       one: Bytes, two: Bytes)
    requires p != q
    ensures NestedTree(base, t, s, u, p, q, one, two) == NestedTree(base, t, s, u, q, p, two, one)
  {
  }

  /** In any store in which "/b" is free: three folders, each in the one before, are made and two
      files put into the inner ones. The tree is the same whichever file comes first. Then the
      middle folder is moved to the root with `replace`, over the folder it is in: both files stay
      if the upper one came first, and only the lower one if it came second. */
  lemma {:induction false} SnapshotOrderMattersHere(st: Store, b: string, r: string, one: Bytes, two: Bytes)
    requires IsStore(st) && FreeAt(st.nodes, "/" + b)
    requires IsSegment(b) && IsSegment(r) && b != r && !IsHiddenName(b)
    ensures var t := "/" + b;
      var s := t + "/" + b;
      var u := s + "/" + b;
      var upper, lower := PutCall(s + "/" + r, one), PutCall(u + "/" + r, two);
      var a, c := RunIn(st, Nesting(t, s, u, upper, lower)), RunIn(st, Nesting(t, s, u, lower, upper));
      && a.nodes == c.nodes
      && ApplyIn(a, "phone", MoveOut(s).request).store.nodes ==
           st.nodes[t := Folder][s := Folder][t + "/" + r := File(one)][s + "/" + r := File(two)]
      && ApplyIn(c, "phone", MoveOut(s).request).store.nodes ==
           st.nodes[t := Folder][s := Folder][t + "/" + r := File(two)]
  {
    var t := "/" + b;
    var s := t + "/" + b;
    var u := s + "/" + b;
    var p, q := s + "/" + r, u + "/" + r;
    hide *;
    NestedPlaces(b, r, t, s, u);
    NestedSwaps(b, r, t, s, u);
    ItemParses(s, [b, b]);
    NestingHasIds(t, s, u, p, one, q, two);
    NestingHasIds(t, s, u, q, two, p, one);
    OldKeysHaveNoTurn(st, t, s);
    NestBuilt(st, b, r, t, s, u, p, one, q, two);
    NestBuilt(st, b, r, t, s, u, q, two, p, one);
    ItemSegments(b, r, t, s, u);
    LowerIsDifferent(b, r, p, q);
    EitherOrder(st.nodes, t, s, u, p, q, one, two);
    NestedLoop(st.nodes, st.order, b, r, t, s, u, one, two);
    NestedHas(st.nodes, t, s, u, p, q, one, two);
    var a, c := RunIn(st, Nesting(t, s, u, PutCall(p, one), PutCall(q, two))),
                RunIn(st, Nesting(t, s, u, PutCall(q, two), PutCall(p, one)));
    MoveOutLoops(a, s, b);
    MoveOutLoops(c, s, b);
  }

  lemma {:induction false} ItemParses(s: string, segs: seq<string>)
    requires IsItem(s, segs)
    ensures ParsePath(s) == Parsed.Ok(s) && s != "/"
  {
    RootIsNotAKey(s);
    hide IsKey, Segments, ParsePath;
  }

  lemma {:induction false} LowerIsDifferent(b: string, r: string, p: string, q: string)
    requires Segments(p) == [b, b, r] && Segments(q) == [b, b, b, r]
    ensures p != q
  {
    hide Segments;
    assert |[b, b, r]| == 3 && |[b, b, b, r]| == 4;
  }

  lemma {:induction false} NestedHas(base: FlatTree, t: string, s: string, u: string, p: string, q: string, one: Bytes,
                                     two: Bytes)
    ensures s in NestedTree(base, t, s, u, p, q, one, two)
  {
  }
}
