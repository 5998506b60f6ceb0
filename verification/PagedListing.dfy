/** The listing request itself, followed page by page while other requests change the tree. */
module PagedListing {
  import opened Options
  import opened Paths
  import opened FileTree
  import opened NestedTree
  import opened Refinement
  import opened TreeAnswers
  import opened Paging

  /** What a client has after a number of requests: the names shown, and the next cursor. */
  datatype Listing = Listing(names: seq<string>, next: Option<string>, refused: bool)

  /** One request to each of the trees, each with the cursor of the one before. */
  ghost function FollowRequests(trees: seq<FlatTree>, raw: string, limit: Option<int>, cursor: Option<string>):
    Listing
  {
    if trees == [] then Listing([], cursor, false)
    else
      match Entries(trees[0], raw, limit, cursor)
      case Refused(_, _) => Listing([], cursor, true)
      case Listed(_, names, next) =>
        if next.None? then Listing(names, None, false)
        else
          var later := FollowRequests(trees[1..], raw, limit, next);
          Listing(names + later.names, later.next, later.refused)
  }

  function SizeOf(limit: Option<int>): int {
    if limit.None? then 200 else limit.value
  }

  /** The folder stays, and what is in it stays; anything else may change. */
  ghost predicate FolderGrows(trees: seq<FlatTree>, p: string) {
    && (forall i :: 0 <= i < |trees| ==> WellFormed(trees[i]) && IsDir(trees[i], p))
    && (forall i, j, n :: 0 <= i <= j < |trees| && IsSegment(n) && JoinPath(p, n) in trees[i] ==>
      JoinPath(p, n) in trees[j])
  }

  function NamesIn(trees: seq<FlatTree>, p: string): seq<set<string>> {
    seq(|trees|, i requires 0 <= i < |trees| => ChildNames(trees[i], p))
  }

  /** Following requests is following the listings, with the hidden folder taken out. */
  lemma {:induction false} RequestsFollowListings(trees: seq<FlatTree>, raw: string, limit: Option<int>,
                                                  cursor: Option<string>)
    requires ParsePath(raw).Ok? && 1 <= SizeOf(limit) <= 500
    requires forall i :: 0 <= i < |trees| ==> IsDir(trees[i], ParsePath(raw).path)
    ensures var p, f := ParsePath(raw).path, Follow(NamesIn(trees, ParsePath(raw).path), cursor, SizeOf(limit));
      FollowRequests(trees, raw, limit, cursor) == Listing(Shown(p, f.names), f.next, false)
  {
    hide ParsePath, ChildNames, IsDir, Sorted, Slice, NextCursor;
    var p := ParsePath(raw).path;
    if trees == [] {
      assert Shown(p, []) == [];
    } else {
      OnePage(trees[0], raw, limit, cursor);
      var names := Sorted(ChildNames(trees[0], p));
      var page, next := Slice(names, cursor, SizeOf(limit)), NextCursor(names, cursor, SizeOf(limit));
      assert NamesIn(trees, p)[1..] == NamesIn(trees[1..], p);
      if next.Some? {
        RequestsFollowListings(trees[1..], raw, limit, next);
        ShownConcat(p, page, Follow(NamesIn(trees[1..], p), next, SizeOf(limit)).names);
      }
    }
  }

  lemma {:induction false} OnePage(m: FlatTree, raw: string, limit: Option<int>, cursor: Option<string>)
    requires ParsePath(raw).Ok? && 1 <= SizeOf(limit) <= 500 && IsDir(m, ParsePath(raw).path)
    ensures var p, names := ParsePath(raw).path, Sorted(ChildNames(m, ParsePath(raw).path));
      Entries(m, raw, limit, cursor) ==
        Listed(p, Shown(p, Slice(names, cursor, SizeOf(limit))), NextCursor(names, cursor, SizeOf(limit)))
  {
    hide ParsePath, ChildNames, IsDir, Sorted, Slice, NextCursor, Shown;
  }

  lemma {:induction false} GrowingIsOnlyAdded(trees: seq<FlatTree>, p: string)
    requires FolderGrows(trees, p) && IsCanonical(p)
    ensures OnlyAdded(NamesIn(trees, p))
  {
    hide WellFormed, IsDir, IsCanonical, JoinPath, ChildNames;
    var listings := NamesIn(trees, p);
    forall i | 0 <= i < |listings|
      ensures "" !in listings[i]
    {
      ListedExactly(trees[i], p, "");
      EmptyIsNoSegment();
    }
    hide IsSegment;
    forall i, j | 0 <= i <= j < |listings|
      ensures listings[i] <= listings[j]
    {
      forall n | n in listings[i]
        ensures n in listings[j]
      {
        ListedExactly(trees[i], p, n);
        ListedExactly(trees[j], p, n);
      }
    }
  }

  lemma {:induction false} EmptyIsNoSegment()
    ensures !IsSegment("")
  {
  }

  predicate IsHiddenIn(p: string, n: string) {
    p == "/" && IsHiddenName(n)
  }

  /** While the items of a folder are only added to, whatever else happens to the tree, the
      names a client is shown increase strictly and are items of the folder; and when there
      is no further cursor, every visible item of the beginning was shown exactly once. */
  lemma {:induction false} EveryItemShownOnce(trees: seq<FlatTree>, raw: string, limit: Option<int>)
    requires trees != [] && ParsePath(raw).Ok? && 1 <= SizeOf(limit) <= 500
    requires FolderGrows(trees, ParsePath(raw).path)
    ensures var p, l := ParsePath(raw).path, FollowRequests(trees, raw, limit, None);
      && !l.refused && Increasing(l.names)
      && (forall n :: n in l.names ==> IsSegment(n) && JoinPath(p, n) in trees[|trees| - 1] && !IsHiddenIn(p, n))
      && (l.next.None? ==>
            forall n :: IsSegment(n) && JoinPath(p, n) in trees[0] && !IsHiddenIn(p, n) ==> multiset(l.names)[n] == 1)
  {
    hide ParsePath, WellFormed, IsDir, IsCanonical, JoinPath, ChildNames, Increasing, Follow,
      FollowRequests, IsHiddenName, Shown, OnlyAdded;
    var p, listings := ParsePath(raw).path, NamesIn(trees, ParsePath(raw).path);
    ParsedIsCanonical(raw);
    RequestsFollowListings(trees, raw, limit, None);
    GrowingIsOnlyAdded(trees, p);
    hide FolderGrows;
    FollowFindsAll(listings, None, SizeOf(limit));
    VisibleNamesComeOnce(p, listings, SizeOf(limit));
    var f := Follow(listings, None, SizeOf(limit));
    forall n | n in Shown(p, f.names)
      ensures IsSegment(n) && JoinPath(p, n) in trees[|trees| - 1] && !IsHiddenIn(p, n)
    {
      ShownAre(p, f.names, n);
      GrowingHolds(trees, p, |trees| - 1);
      ListedExactly(trees[|trees| - 1], p, n);
    }
    forall n | IsSegment(n) && JoinPath(p, n) in trees[0] && !IsHiddenIn(p, n)
      ensures n in listings[0]
    {
      GrowingHolds(trees, p, 0);
      ListedExactly(trees[0], p, n);
    }
  }

  lemma {:induction false} GrowingHolds(trees: seq<FlatTree>, p: string, i: nat)
    requires FolderGrows(trees, p) && i < |trees|
    ensures WellFormed(trees[i])
  {
    hide WellFormed, IsDir, IsSegment, JoinPath;
  }

  // ------------------------------------------------ items that come and items that go

  /** The folder stays; anything else may change, what is in it included. */
  ghost predicate FolderStays(trees: seq<FlatTree>, p: string) {
    forall i :: 0 <= i < |trees| ==> WellFormed(trees[i]) && IsDir(trees[i], p)
  }

  /** The cursors sent, each taken from the answer before. */
  ghost function CursorsOf(trees: seq<FlatTree>, raw: string, limit: Option<int>, cursor: Option<string>):
    (cursors: seq<Option<string>>)
    ensures |cursors| <= |trees|
  {
    if trees == [] then []
    else
      match Entries(trees[0], raw, limit, cursor)
      case Refused(_, _) => [cursor]
      case Listed(_, _, next) => [cursor] + if next.None? then [] else CursorsOf(trees[1..], raw, limit, next)
  }

  lemma {:induction false} CursorsAreSent(trees: seq<FlatTree>, raw: string, limit: Option<int>, cursor: Option<string>)
    requires ParsePath(raw).Ok? && 1 <= SizeOf(limit) <= 500
    requires forall i :: 0 <= i < |trees| ==> IsDir(trees[i], ParsePath(raw).path)
    ensures CursorsOf(trees, raw, limit, cursor) ==
      CursorsSent(NamesIn(trees, ParsePath(raw).path), cursor, SizeOf(limit))
  {
    hide ParsePath, ChildNames, IsDir, Sorted, Slice, NextCursor, Entries;
    var p := ParsePath(raw).path;
    if trees != [] {
      OnePage(trees[0], raw, limit, cursor);
      var next := NextCursor(Sorted(ChildNames(trees[0], p)), cursor, SizeOf(limit));
      assert NamesIn(trees, p)[1..] == NamesIn(trees[1..], p);
      if next.Some? {
        CursorsAreSent(trees[1..], raw, limit, next);
      }
    }
  }

  /** Request `i` sent back the name of an item that had gone, and `n` comes after that name. */
  ghost predicate LostAt(trees: seq<FlatTree>, raw: string, limit: Option<int>, i: nat, n: string)
    requires ParsePath(raw).Ok?
  {
    var cursors := CursorsOf(trees, raw, limit, None);
    && i < |cursors| && cursors[i].Some?
    && !(IsSegment(cursors[i].value) && JoinPath(ParsePath(raw).path, cursors[i].value) in trees[i])
    && Before(cursors[i].value, n)
  }

  /** An item that is there throughout, and may be seen. */
  ghost predicate Lasts(trees: seq<FlatTree>, p: string, n: string) {
    IsSegment(n) && !IsHiddenIn(p, n) && forall i :: 0 <= i < |trees| ==> JoinPath(p, n) in trees[i]
  }

  lemma {:induction false} StayingNames(trees: seq<FlatTree>, p: string, i: nat, n: string)
    requires FolderStays(trees, p) && IsCanonical(p) && i < |trees|
    ensures n in NamesIn(trees, p)[i] <==> IsSegment(n) && JoinPath(p, n) in trees[i]
    ensures "" !in NamesIn(trees, p)[i]
  {
    EmptyIsNoSegment();
    hide WellFormed, IsDir, IsCanonical, JoinPath, ChildNames, IsSegment;
    ListedExactly(trees[i], p, n);
    ListedExactly(trees[i], p, "");
  }

  lemma {:induction false} LostExactly(trees: seq<FlatTree>, raw: string, limit: Option<int>, n: string)
    requires ParsePath(raw).Ok? && 1 <= SizeOf(limit) <= 500 && FolderStays(trees, ParsePath(raw).path)
    ensures var listings := NamesIn(trees, ParsePath(raw).path);
      LostBefore(listings, CursorsSent(listings, None, SizeOf(limit)), n) <==>
        exists i: nat :: LostAt(trees, raw, limit, i, n)
  {
    ParsedIsCanonical(raw);
    hide ParsePath, WellFormed, IsDir, IsCanonical, JoinPath, ChildNames, Before, CursorsOf, CursorsSent, IsSegment,
      FolderStays, NamesIn;
    var p, listings := ParsePath(raw).path, NamesIn(trees, ParsePath(raw).path);
    StayingIsDir(trees, p);
    CursorsAreSent(trees, raw, limit, None);
    NamesInLength(trees, p);
    var cursors := CursorsOf(trees, raw, limit, None);
    forall i: nat | i < |cursors|
      ensures LosesAt(listings[i], cursors[i], n) <==> LostAt(trees, raw, limit, i, n)
    {
      StayingNames(trees, p, i, if cursors[i].Some? then cursors[i].value else "");
    }
  }

  lemma {:induction false} StayingIsDir(trees: seq<FlatTree>, p: string)
    requires FolderStays(trees, p)
    ensures forall i :: 0 <= i < |trees| ==> IsDir(trees[i], p)
  {
    hide WellFormed, IsDir;
  }

  lemma {:induction false} NamesInLength(trees: seq<FlatTree>, p: string)
    ensures |NamesIn(trees, p)| == |trees|
  {
  }

  /** Whatever comes and goes in a folder while it is listed: names increase strictly, and each
      shown was an item of the folder. When there is no further cursor, an item that was there
      throughout has been shown once exactly if no item whose name was sent back as a cursor
      before it had gone; otherwise not at all. */
  lemma {:induction false} LastingItemShownExactly(trees: seq<FlatTree>, raw: string, limit: Option<int>)
    requires trees != [] && ParsePath(raw).Ok? && 1 <= SizeOf(limit) <= 500
    requires FolderStays(trees, ParsePath(raw).path)
    ensures var p, l := ParsePath(raw).path, FollowRequests(trees, raw, limit, None);
      && !l.refused && Increasing(l.names)
      && (forall n :: n in l.names ==> ShownItem(trees, p, n))
      && (l.next.None? ==> forall n :: Lasts(trees, p, n) ==>
            multiset(l.names)[n] == if exists i: nat :: LostAt(trees, raw, limit, i, n) then 0 else 1)
  {
    ParsedIsCanonical(raw);
    hide ParsePath, WellFormed, IsDir, IsCanonical, JoinPath, ChildNames, Increasing, Follow, FollowRequests,
      IsHiddenName, Shown, IsSegment, CursorsSent, CursorsOf, LostAt, LostBefore, FolderStays, NamesIn, ShownItem,
      Lasts;
    var p, listings := ParsePath(raw).path, NamesIn(trees, ParsePath(raw).path);
    StayingIsDir(trees, p);
    NamesInLength(trees, p);
    RequestsFollowListings(trees, raw, limit, None);
    forall i | 0 <= i < |listings|
      ensures "" !in listings[i]
    {
      StayingNames(trees, p, i, "");
    }
    FollowIncreases(listings, None, SizeOf(limit));
    var f := Follow(listings, None, SizeOf(limit));
    var shown := Shown(p, f.names);
    ShownIncreases(p, f.names);
    forall n | n in shown
      ensures ShownItem(trees, p, n)
    {
      ShownAre(p, f.names, n);
      var i :| 0 <= i < |listings| && n in listings[i];
      ListedIsShown(trees, p, i, n);
    }
    if f.next.None? {
      forall n | Lasts(trees, p, n)
        ensures multiset(shown)[n] == if exists i: nat :: LostAt(trees, raw, limit, i, n) then 0 else 1
      {
        LastingIsListed(trees, p, n);
        LastingNameComesExactly(listings, None, SizeOf(limit), n);
        LostExactly(trees, raw, limit, n);
        ShownAre(p, f.names, n);
        if n in shown {
          OnceInIncreasing(shown, n);
        }
      }
    }
  }

  /** An item of the folder at one of the requests, that may be seen. */
  ghost predicate ShownItem(trees: seq<FlatTree>, p: string, n: string) {
    IsSegment(n) && !IsHiddenIn(p, n) && exists i :: 0 <= i < |trees| && JoinPath(p, n) in trees[i]
  }

  lemma {:induction false} ListedIsShown(trees: seq<FlatTree>, p: string, i: nat, n: string)
    requires FolderStays(trees, p) && IsCanonical(p) && i < |trees| && !IsHiddenIn(p, n)
    requires i < |NamesIn(trees, p)| && n in NamesIn(trees, p)[i]
    ensures ShownItem(trees, p, n)
  {
    hide IsCanonical, IsSegment, JoinPath, FolderStays, NamesIn;
    StayingNames(trees, p, i, n);
  }

  lemma {:induction false} LastingIsListed(trees: seq<FlatTree>, p: string, n: string)
    requires FolderStays(trees, p) && IsCanonical(p) && Lasts(trees, p, n)
    ensures !(p == "/" && IsHiddenName(n))
    ensures forall i :: 0 <= i < |NamesIn(trees, p)| ==> n in NamesIn(trees, p)[i]
  {
    hide IsCanonical, IsSegment, JoinPath, FolderStays, NamesIn, IsHiddenName;
    NamesInLength(trees, p);
    forall i | 0 <= i < |NamesIn(trees, p)|
      ensures n in NamesIn(trees, p)[i]
    {
      StayingNames(trees, p, i, n);
    }
  }

  /** So a listing misses nothing that was there throughout exactly if no request lost its
      place before such an item. */
  lemma {:induction false} NothingMissedExactly(trees: seq<FlatTree>, raw: string, limit: Option<int>)
    requires trees != [] && ParsePath(raw).Ok? && 1 <= SizeOf(limit) <= 500
    requires FolderStays(trees, ParsePath(raw).path) && FollowRequests(trees, raw, limit, None).next.None?
    ensures var p, l := ParsePath(raw).path, FollowRequests(trees, raw, limit, None);
      (forall n :: Lasts(trees, p, n) ==> n in l.names) <==>
      (forall i: nat, n :: Lasts(trees, p, n) ==> !LostAt(trees, raw, limit, i, n))
  {
    hide *;
    LastingItemShownExactly(trees, raw, limit);
    var p, l := ParsePath(raw).path, FollowRequests(trees, raw, limit, None);
    forall n | Lasts(trees, p, n)
      ensures n in l.names <==> !exists i: nat :: LostAt(trees, raw, limit, i, n)
    {
      assert n in l.names <==> multiset(l.names)[n] > 0;
    }
  }

  /** Of a tree that does not change, a folder with n items takes exactly
      floor(n / limit) + 1 requests, hidden ones counted. */
  lemma {:induction false} FrozenRequestsNeeded(m: FlatTree, raw: string, limit: Option<int>, k: nat)
    requires WellFormed(m) && ParsePath(raw).Ok? && 1 <= SizeOf(limit) <= 500 && k >= 1
    requires IsDir(m, ParsePath(raw).path)
    ensures FollowRequests(seq(k, i => m), raw, limit, None).next.None? <==>
      k >= |ChildNames(m, ParsePath(raw).path)| / SizeOf(limit) + 1
  {
    EmptyIsNoSegment();
    hide ParsePath, IsDir, WellFormed, IsCanonical, IsSegment, JoinPath, ChildNames, Follow, FollowRequests, Shown;
    var p, trees := ParsePath(raw).path, seq(k, i => m);
    ParsedIsCanonical(raw);
    RequestsFollowListings(trees, raw, limit, None);
    assert NamesIn(trees, p) == Times(ChildNames(m, p), k);
    ListedExactly(m, p, "");
    RequestsNeeded(ChildNames(m, p), SizeOf(limit), k);
  }

  /** Which status stands for which state of the tree. */
  lemma {:induction false} EntriesRefusedExactly(m: FlatTree, raw: string, limit: Option<int>, cursor: Option<string>)
    requires WellFormed(m) && NamesItem(raw)
    ensures var reply, tree, path := Entries(m, raw, limit, cursor), Nested(m), PathOf(raw);
      && (reply == EntriesReply.Refused(404, "not_found") <==> NodeAt(tree, path).None?)
      && (reply == EntriesReply.Refused(400, "not_a_directory") <==>
            NodeAt(tree, path).Some? && !IsFolderAt(tree, path))
      && (reply == EntriesReply.Refused(400, "bad_request") <==> IsFolderAt(tree, path) && !(1 <= SizeOf(limit) <= 500))
      && (reply.Listed? <==> IsFolderAt(tree, path) && 1 <= SizeOf(limit) <= 500)
  {
    hide ParsePath, Sorted, ChildNames, Shown, Slice, NextCursor, Segments, NodeAt, Nested, WellFormed;
    var p := ParsePath(raw).path;
    AcceptedIsKey(raw);
    Situation(m, p);
    hide IsFolderAt;
  }
}
