/** Listing a folder page by page. The cursor is the name of the last entry of the page
    before, looked up again in the listing of the moment. */
module Paging {
  import opened Options
  import opened Paths
  import opened FileTree

  // -------------------------------------------------------------------- the listing order

  /** JavaScript compares strings by UTF-16 code units. Character by character that is the
      order of code points, except that characters beyond U+FFFF come before U+E000. */
  function Rank(c: char): int {
    var code := c as int;
    if 0xE000 <= code < 0x1_0000 then code + 0x11_0000 else code
  }

  predicate Before(a: string, b: string) {
    b != "" && (a == "" || Rank(a[0]) < Rank(b[0]) || (a[0] == b[0] && Before(a[1..], b[1..])))
  }

  lemma {:induction false} BeforeIsTotal(a: string, b: string)
    ensures a == b || Before(a, b) || Before(b, a)
    ensures !(Before(a, b) && Before(b, a)) && !Before(a, a)
  {
    if a != "" && b != "" && a[0] == b[0] {
      BeforeIsTotal(a[1..], b[1..]);
      assert a == [a[0]] + a[1..] && b == [b[0]] + b[1..];
    }
    if a != "" {
      BeforeItself(a);
    }
  }

  lemma {:induction false} BeforeItself(a: string)
    ensures !Before(a, a)
  {
    if a != "" {
      BeforeItself(a[1..]);
    }
  }

  lemma {:induction false} BeforeIsTransitive(a: string, b: string, c: string)
    requires Before(a, b) && Before(b, c)
    ensures Before(a, c)
  {
    if a != "" && a[0] == b[0] && b[0] == c[0] {
      BeforeIsTransitive(a[1..], b[1..], c[1..]);
    }
  }

  ghost predicate Increasing(names: seq<string>) {
    forall i, j :: 0 <= i < j < |names| ==> Before(names[i], names[j])
  }

  ghost predicate IsFirst(s: set<string>, x: string) {
    x in s && forall y :: y in s && y != x ==> Before(x, y)
  }

  lemma {:induction false} FirstExists(s: set<string>)
    requires s != {}
    ensures exists x :: IsFirst(s, x)
  {
    var x :| x in s;
    if s - {x} == {} {
      assert s == {x};
      assert IsFirst(s, x);
    } else {
      FirstExists(s - {x});
      var y :| IsFirst(s - {x}, y);
      BeforeIsTotal(x, y);
      if Before(x, y) {
        forall z | z in s && z != x
          ensures Before(x, z)
        {
          if z != y {
            BeforeIsTransitive(x, y, z);
          }
        }
        assert IsFirst(s, x);
      } else {
        assert IsFirst(s, y);
      }
    }
  }

  /** The names of a set in listing order. */
  ghost function Sorted(s: set<string>): (names: seq<string>)
    ensures |names| == |s|
    ensures forall n :: n in names <==> n in s
    ensures Increasing(names)
  {
    if s == {} then []
    else
      FirstExists(s);
      var x :| IsFirst(s, x);
      var rest := Sorted(s - {x});
      assert forall i :: 0 <= i < |rest| ==> rest[i] in rest;
      [x] + rest
  }

  // ---------------------------------------------------------------------------- children

  function PrefixOf(dir: string): string {
    if dir == "/" then "/" else dir + "/"
  }

  /** The filter of the server's `children`. */
  predicate IsChild(dir: string, k: string) {
    k != dir && PrefixOf(dir) <= k && '/' !in k[|PrefixOf(dir)|..]
  }

  /** The names listed for a folder. All keys of one folder share its prefix, so sorting
      keys, as the server does, sorts names. */
  function ChildNames(m: FlatTree, dir: string): set<string> {
    set k | k in m && IsChild(dir, k) :: k[|PrefixOf(dir)|..]
  }

  lemma {:induction false} ItemIsListed(m: FlatTree, dir: string, n: string)
    requires IsSegment(n) && JoinPath(dir, n) in m
    ensures n in ChildNames(m, dir)
  {
  }

  lemma {:induction false} ListedKey(m: FlatTree, dir: string, n: string) returns (k: string)
    requires n in ChildNames(m, dir)
    ensures k in m && k != dir && k == PrefixOf(dir) + n && '/' !in n
  {
    hide PrefixOf;
    k :| k in m && IsChild(dir, k) && k[|PrefixOf(dir)|..] == n;
  }

  lemma {:induction false} ListedIsItem(m: FlatTree, dir: string, n: string)
    requires WellFormed(m) && IsCanonical(dir) && n in ChildNames(m, dir)
    ensures IsSegment(n) && JoinPath(dir, n) in m
  {
    hide IsKey, IsCanonical, JoinPath, IsSegment, PrefixOf, ChildNames, IsDir;
    var k := ListedKey(m, dir, n);
    ChildIsSegment(dir, k, n);
  }

  /** In a well-formed tree a folder lists exactly the items whose parent it is. */
  lemma {:induction false} ListedExactly(m: FlatTree, dir: string, n: string)
    requires WellFormed(m) && IsCanonical(dir)
    ensures n in ChildNames(m, dir) <==> IsSegment(n) && JoinPath(dir, n) in m
  {
    hide *;
    if n in ChildNames(m, dir) {
      ListedIsItem(m, dir, n);
    } else if IsSegment(n) && JoinPath(dir, n) in m {
      ItemIsListed(m, dir, n);
    }
  }

  lemma {:induction false} ChildIsSegment(dir: string, k: string, n: string)
    requires IsKey(k) && IsCanonical(dir) && k == PrefixOf(dir) + n && k != dir && '/' !in n
    ensures IsSegment(n) && k == JoinPath(dir, n)
  {
    var stem := if dir == "/" then "" else dir;
    assert k == stem + "/" + n;
    LastSlashOfJoin(stem, n);
    JoinOfParentAndName(k);
    assert NameOf(k) == n;
  }

  // -------------------------------------------------------------------------------- pages

  function IndexOf(names: seq<string>, name: string): (r: Option<nat>)
    ensures r.Some? ==> r.value < |names| && names[r.value] == name
    ensures r.None? <==> name !in names
  {
    if names == [] then None
    else if names[0] == name then Some(0)
    else
      match IndexOf(names[1..], name)
      case None => None
      case Some(i) => Some(i + 1)
  }

  /** What is left of a listing after the cursor; an empty cursor is no cursor, and one that
      is not found leaves nothing. */
  function Rest(names: seq<string>, cursor: Option<string>): seq<string> {
    if cursor.None? || cursor.value == "" then names
    else
      match IndexOf(names, cursor.value)
      case None => []
      case Some(i) => names[i + 1..]
  }

  function Slice(names: seq<string>, cursor: Option<string>, limit: nat): seq<string> {
    var rest := Rest(names, cursor);
    if |rest| <= limit then rest else rest[..limit]
  }

  function NextCursor(names: seq<string>, cursor: Option<string>, limit: nat): Option<string>
    requires limit >= 1
  {
    var page := Slice(names, cursor, limit);
    if |page| == limit then Some(page[limit - 1]) else None
  }

  /** The hidden folder is taken out of the root's pages only after they are cut. */
  function Shown(dir: string, page: seq<string>): seq<string> {
    if page == [] then []
    else (if dir == "/" && IsHiddenName(page[0]) then [] else [page[0]]) + Shown(dir, page[1..])
  }

  datatype EntriesReply =
    | Refused(status: nat, code: string)
    | Listed(path: string, entries: seq<string>, next: Option<string>)

  /** The `entries` branch; no limit means 200. */
  ghost function Entries(m: FlatTree, raw: string, limit: Option<int>, cursor: Option<string>): EntriesReply {
    match ParsePath(raw)
    case Invalid => Refused(400, "invalid_path")
    case Reserved => Refused(404, "not_found")
    case Ok(p) =>
      if !IsDir(m, p) then (if p in m then Refused(400, "not_a_directory") else Refused(404, "not_found"))
      else
        var size := if limit.None? then 200 else limit.value;
        if size < 1 || size > 500 then Refused(400, "bad_request")
        else
          var names := Sorted(ChildNames(m, p));
          Listed(p, Shown(p, Slice(names, cursor, size)), NextCursor(names, cursor, size))
  }

  // ----------------------------------------------------------------------- following pages

  /** A client follows cursors; `listings` are the names the folder has at each request. */
  datatype Followed = Followed(names: seq<string>, next: Option<string>)

  ghost function Follow(listings: seq<set<string>>, cursor: Option<string>, limit: nat): Followed
    requires limit >= 1
  {
    if listings == [] then Followed([], cursor)
    else
      var names := Sorted(listings[0]);
      var page, next := Slice(names, cursor, limit), NextCursor(names, cursor, limit);
      if next.None? then Followed(page, None)
      else
        var later := Follow(listings[1..], next, limit);
        Followed(page + later.names, later.next)
  }

  /** Names are only ever added, and no name is empty. */
  ghost predicate OnlyAdded(listings: seq<set<string>>) {
    && (forall i :: 0 <= i < |listings| ==> "" !in listings[i])
    && (forall i, j :: 0 <= i <= j < |listings| ==> listings[i] <= listings[j])
  }

  predicate After(cursor: Option<string>, n: string) {
    cursor.None? || Before(cursor.value, n)
  }

  ghost predicate Known(listings: seq<set<string>>, cursor: Option<string>) {
    cursor.Some? ==> forall i :: 0 <= i < |listings| ==> cursor.value in listings[i]
  }

  lemma {:induction false} TailIsAfter(names: seq<string>, i: nat, n: string)
    requires Increasing(names) && i < |names|
    ensures n in names[i + 1..] <==> n in names && Before(names[i], n)
  {
    hide Before;
    if n in names {
      var j :| 0 <= j < |names| && names[j] == n;
      BeforeIsTotal(names[i], n);
      if j > i {
        assert n == names[i + 1..][j - i - 1];
      }
      if n in names[i + 1..] {
        var l :| i + 1 <= l < |names| && names[l] == n;
      }
    }
  }

  /** The rest of a sorted listing is exactly what comes after the cursor. */
  lemma {:induction false} RestIsAfter(s: set<string>, cursor: Option<string>)
    requires "" !in s && (cursor.Some? ==> cursor.value in s)
    ensures Increasing(Rest(Sorted(s), cursor))
    ensures forall n :: n in Rest(Sorted(s), cursor) <==> n in s && After(cursor, n)
  {
    hide Before, Sorted;
    if cursor.Some? {
      forall n {
        TailIsAfter(Sorted(s), IndexOf(Sorted(s), cursor.value).value, n);
      }
    }
  }

  /** One page: it is increasing, lies after the cursor, and everything after the cursor is
      on it or comes after the next cursor. */
  lemma {:induction false} PageIsNext(s: set<string>, cursor: Option<string>, limit: nat)
    requires limit >= 1 && "" !in s && (cursor.Some? ==> cursor.value in s)
    ensures var page, next := Slice(Sorted(s), cursor, limit), NextCursor(Sorted(s), cursor, limit);
      && Increasing(page) && (next.Some? ==> next.value in page)
      && (forall n :: n in page ==>
            n in s && After(cursor, n) && (next.Some? ==> n == next.value || Before(n, next.value)))
      && (forall n :: n in s && After(cursor, n) ==> n in page || (next.Some? && Before(next.value, n)))
  {
    hide Before, Sorted, After, Rest;
    RestIsAfter(s, cursor);
    var rest, page := Rest(Sorted(s), cursor), Slice(Sorted(s), cursor, limit);
    forall n | n in page
      ensures n in rest
    {
    }
    if |rest| > limit {
      forall n | n in rest
        ensures n in page || Before(page[limit - 1], n)
      {
        var i :| 0 <= i < |rest| && rest[i] == n;
        assert i < limit ==> n == page[i];
      }
    }
  }

  lemma {:induction false} PagesJoin(page: seq<string>, later: seq<string>, last: string)
    requires Increasing(page) && Increasing(later)
    requires forall n :: n in page ==> n == last || Before(n, last)
    requires forall n :: n in later ==> Before(last, n)
    ensures Increasing(page + later)
  {
    hide Before;
    forall a, b | a in page && b in later
      ensures Before(a, b)
    {
      if a != last {
        BeforeIsTransitive(a, last, b);
      }
    }
    var all := page + later;
    forall i, j | 0 <= i < j < |all|
      ensures Before(all[i], all[j])
    {
      if i < |page| <= j {
        assert all[i] in page && all[j] in later;
      }
    }
  }

  /** While names are only added, the pages a client follows are strictly increasing, so no
      name comes twice, and when there is no further cursor every name that was there at
      the first request has come. */
  lemma {:induction false} FollowFindsAll(listings: seq<set<string>>, cursor: Option<string>, limit: nat)
    requires limit >= 1 && listings != [] && OnlyAdded(listings) && Known(listings, cursor)
    ensures var f := Follow(listings, cursor, limit);
      && Increasing(f.names)
      && (forall n :: n in f.names ==> After(cursor, n) && n in listings[|listings| - 1])
      && (f.next.None? ==> forall n :: n in listings[0] && After(cursor, n) ==> n in f.names)
    decreases |listings|
  {
    hide Before, Sorted, Slice, NextCursor;
    var names := Sorted(listings[0]);
    var page, next := Slice(names, cursor, limit), NextCursor(names, cursor, limit);
    PageIsNext(listings[0], cursor, limit);
    assert listings[0] <= listings[|listings| - 1];
    if next.Some? && |listings| > 1 {
      var more := listings[1..];
      assert forall i :: 0 <= i < |more| ==> more[i] == listings[i + 1];
      FollowFindsAll(more, next, limit);
      var later := Follow(more, next, limit).names;
      PagesJoin(page, later, next.value);
      forall n | n in later
        ensures After(cursor, n)
      {
        if cursor.Some? {
          BeforeIsTransitive(cursor.value, next.value, n);
        }
      }
    }
  }

  // ------------------------------------------------- names that come and names that go

  /** A cursor whose name has gone ends the listing at once, whatever is left. */
  lemma {:induction false} LostCursorEnds(s: set<string>, cursor: string, limit: nat)
    requires limit >= 1 && cursor != "" && cursor !in s
    ensures Slice(Sorted(s), Some(cursor), limit) == [] && NextCursor(Sorted(s), Some(cursor), limit) == None
  {
    hide Sorted;
  }

  /** What is listed after a cursor is all there is after it exactly if its name is still
      listed or nothing comes after it anyway. */
  lemma {:induction false} RestIsCompleteExactly(s: set<string>, cursor: string)
    requires "" !in s && cursor != ""
    ensures (forall n :: n in s && Before(cursor, n) ==> n in Rest(Sorted(s), Some(cursor))) <==>
            cursor in s || forall n :: n in s ==> !Before(cursor, n)
  {
    hide Before, Sorted;
    if cursor in s {
      RestIsAfter(s, Some(cursor));
    } else {
      assert Rest(Sorted(s), Some(cursor)) == [];
    }
  }

  ghost predicate NamesAreNonEmpty(listings: seq<set<string>>) {
    forall i :: 0 <= i < |listings| ==> "" !in listings[i]
  }

  /** The cursors the client sends, one with each request it makes. */
  ghost function CursorsSent(listings: seq<set<string>>, cursor: Option<string>, limit: nat):
    (cursors: seq<Option<string>>)
    requires limit >= 1
    ensures |cursors| <= |listings|
  {
    if listings == [] then []
    else
      var next := NextCursor(Sorted(listings[0]), cursor, limit);
      [cursor] + if next.None? then [] else CursorsSent(listings[1..], next, limit)
  }

  /** Some cursor had gone from the listing when it was sent back, and `n` comes after it. */
  ghost predicate LostBefore(listings: seq<set<string>>, cursors: seq<Option<string>>, n: string) {
    exists i :: 0 <= i < |cursors| && i < |listings| && LosesAt(listings[i], cursors[i], n)
  }

  predicate LosesAt(listing: set<string>, cursor: Option<string>, n: string) {
    cursor.Some? && cursor.value !in listing && Before(cursor.value, n)
  }

  lemma {:induction false} LostBeforeStep(listings: seq<set<string>>, cursors: seq<Option<string>>, n: string)
    requires listings != [] && cursors != []
    ensures LostBefore(listings, cursors, n) <==>
      LosesAt(listings[0], cursors[0], n) || LostBefore(listings[1..], cursors[1..], n)
  {
    hide LosesAt;
    if i :| 0 <= i < |cursors| && i < |listings| && LosesAt(listings[i], cursors[i], n) {
      if i > 0 {
        assert LosesAt(listings[1..][i - 1], cursors[1..][i - 1], n);
      }
    }
    if i :| 0 <= i < |cursors[1..]| && i < |listings[1..]| && LosesAt(listings[1..][i], cursors[1..][i], n) {
      assert LosesAt(listings[i + 1], cursors[i + 1], n);
    }
  }

  /** Cursors only move forward, so a name that has been passed is never lost. */
  lemma {:induction false} PassedIsNotLost(listings: seq<set<string>>, cursor: string, limit: nat, n: string)
    requires limit >= 1 && NamesAreNonEmpty(listings) && cursor != "" && !Before(cursor, n)
    ensures !LostBefore(listings, CursorsSent(listings, Some(cursor), limit), n)
  {
    hide Before, Sorted, Slice, NextCursor;
    if listings != [] {
      var next := NextCursor(Sorted(listings[0]), Some(cursor), limit);
      var cursors := CursorsSent(listings, Some(cursor), limit);
      LostBeforeStep(listings, cursors, n);
      if next.Some? {
        if cursor !in listings[0] {
          LostCursorEnds(listings[0], cursor, limit);
        }
        PageIsNext(listings[0], Some(cursor), limit);
        assert Before(cursor, next.value) && next.value in listings[0];
        if Before(next.value, n) {
          BeforeIsTransitive(cursor, next.value, n);
        }
        assert cursors[1..] == CursorsSent(listings[1..], next, limit);
        PassedIsNotLost(listings[1..], next.value, limit, n);
      }
    }
  }

  /** Whatever is added and removed between requests, the names a client gets increase
      strictly, so none comes twice, and each was listed. */
  lemma {:induction false} FollowIncreases(listings: seq<set<string>>, cursor: Option<string>, limit: nat)
    requires limit >= 1 && NamesAreNonEmpty(listings) && cursor != Some("")
    ensures Increasing(Follow(listings, cursor, limit).names)
    ensures forall n :: n in Follow(listings, cursor, limit).names ==>
      After(cursor, n) && exists i :: 0 <= i < |listings| && n in listings[i]
    decreases |listings|
  {
    hide Before, Sorted, Slice, NextCursor;
    if listings != [] {
      var page, next := Slice(Sorted(listings[0]), cursor, limit), NextCursor(Sorted(listings[0]), cursor, limit);
      if cursor.Some? && cursor.value !in listings[0] {
        LostCursorEnds(listings[0], cursor.value, limit);
      } else {
        PageIsNext(listings[0], cursor, limit);
        if next.Some? {
          var more := listings[1..];
          FollowIncreases(more, next, limit);
          var later := Follow(more, next, limit).names;
          PagesJoin(page, later, next.value);
          forall n | n in later
            ensures After(cursor, n) && exists i :: 0 <= i < |listings| && n in listings[i]
          {
            if cursor.Some? {
              BeforeIsTransitive(cursor.value, next.value, n);
            }
            var i :| 0 <= i < |more| && n in more[i];
            assert n in listings[i + 1];
          }
        }
      }
    }
  }

  /** A name that is listed at every request has come, when there is no further cursor,
      exactly if no cursor before it had gone when it was sent back. */
  lemma {:induction false} LastingNameComesExactly(listings: seq<set<string>>, cursor: Option<string>, limit: nat,
                                                   n: string)
    requires limit >= 1 && listings != [] && NamesAreNonEmpty(listings) && cursor != Some("")
    requires (forall i :: 0 <= i < |listings| ==> n in listings[i]) && After(cursor, n)
    requires Follow(listings, cursor, limit).next.None?
    ensures n in Follow(listings, cursor, limit).names <==>
      !LostBefore(listings, CursorsSent(listings, cursor, limit), n)
    decreases |listings|
  {
    hide Before, Sorted, Slice, NextCursor, LostBefore;
    var names := Sorted(listings[0]);
    var page, next := Slice(names, cursor, limit), NextCursor(names, cursor, limit);
    var cursors, more := CursorsSent(listings, cursor, limit), listings[1..];
    LostBeforeStep(listings, cursors, n);
    if cursor.Some? && cursor.value !in listings[0] {
      LostCursorEnds(listings[0], cursor.value, limit);
    } else {
      PageIsNext(listings[0], cursor, limit);
      if next.None? {
        NothingLost(more, n);
      } else {
        assert cursors[1..] == CursorsSent(more, next, limit);
        BeforeIsTotal(n, next.value);
        if Before(next.value, n) {
          LastingNameComesExactly(more, next, limit, n);
        } else {
          PassedIsNotLost(more, next.value, limit, n);
        }
      }
    }
  }

  /** "a" is shown and then removed before it comes back as the cursor: "b", there all the
      while, is never shown. */
  lemma {:induction false} RemovedCursorMisses()
    ensures Follow([{"a", "b"}, {"b"}], None, 1) == Followed(["a"], None)
  {
    var listings := [{"a", "b"}, {"b"}];
    var names := Sorted(listings[0]);
    assert Before("a", "b");
    BeforeIsTotal("a", "b");
    assert "a" in names && "b" in names && |names| == 2;
    assert names == ["a", "b"];
    assert Slice(names, None, 1) == ["a"];
    assert listings[1..] == [{"b"}];
    LostCursorEnds({"b"}, "a", 1);
    assert Follow([{"b"}], Some("a"), 1) == Followed([], None);
  }

  lemma {:induction false} NothingLost(listings: seq<set<string>>, n: string)
    ensures !LostBefore(listings, [], n)
  {
  }


  // ------------------------------------------------------------------------ what is shown

  lemma {:induction false} ShownConcat(dir: string, a: seq<string>, b: seq<string>)
    ensures Shown(dir, a + b) == Shown(dir, a) + Shown(dir, b)
  {
    if a == [] {
      assert a + b == b;
    } else {
      assert (a + b)[1..] == a[1..] + b;
      ShownConcat(dir, a[1..], b);
    }
  }

  lemma {:induction false} ShownAre(dir: string, page: seq<string>, n: string)
    ensures n in Shown(dir, page) <==> n in page && !(dir == "/" && IsHiddenName(n))
  {
    if page != [] {
      ShownAre(dir, page[1..], n);
    }
  }

  lemma {:induction false} ShownIncreases(dir: string, page: seq<string>)
    requires Increasing(page)
    ensures Increasing(Shown(dir, page))
  {
    hide Before;
    if page != [] {
      ShownIncreases(dir, page[1..]);
      forall n | n in Shown(dir, page[1..])
        ensures Before(page[0], n)
      {
        ShownAre(dir, page[1..], n);
        var i :| 0 <= i < |page[1..]| && page[1..][i] == n;
        assert page[i + 1] == n;
      }
    }
  }

  /** The same for what the client is shown: the hidden folder is filtered out after the
      pages are cut, and still every visible name of the first request comes exactly once. */
  lemma {:induction false} VisibleNamesComeOnce(dir: string, listings: seq<set<string>>, limit: nat)
    requires limit >= 1 && listings != [] && OnlyAdded(listings)
    ensures var f := Follow(listings, None, limit);
      && Increasing(Shown(dir, f.names))
      && (f.next.None? ==> forall n :: n in listings[0] && !(dir == "/" && IsHiddenName(n)) ==>
            multiset(Shown(dir, f.names))[n] == 1)
  {
    hide Before, Follow, Shown, IsHiddenName;
    var f := Follow(listings, None, limit);
    FollowFindsAll(listings, None, limit);
    ShownIncreases(dir, f.names);
    if f.next.None? {
      forall n | n in listings[0] && !(dir == "/" && IsHiddenName(n))
        ensures multiset(Shown(dir, f.names))[n] == 1
      {
        ShownAre(dir, f.names, n);
        OnceInIncreasing(Shown(dir, f.names), n);
      }
    }
  }

  lemma {:induction false} OnceInIncreasing(names: seq<string>, n: string)
    requires Increasing(names) && n in names
    ensures multiset(names)[n] == 1
  {
    hide Before;
    var i :| 0 <= i < |names| && names[i] == n;
    var front, back := names[..i], names[i + 1..];
    assert names == front + [n] + back;
    assert n !in front && n !in back by {
      BeforeIsTotal(n, n);
    }
  }

  // --------------------------------------------------------------------- a frozen listing

  lemma {:induction false} IndexOfAt(names: seq<string>, i: nat)
    requires Increasing(names) && i < |names|
    ensures IndexOf(names, names[i]) == Some(i)
  {
    hide Before;
    var j := IndexOf(names, names[i]).value;
    BeforeIsTotal(names[i], names[j]);
  }

  lemma {:induction false} NextRest(s: set<string>, cursor: Option<string>, limit: nat)
    requires limit >= 1 && "" !in s && (cursor.Some? ==> cursor.value in s)
    requires |Rest(Sorted(s), cursor)| >= limit
    ensures var next := NextCursor(Sorted(s), cursor, limit);
      next.Some? && next.value in s && |Rest(Sorted(s), next)| == |Rest(Sorted(s), cursor)| - limit
  {
    hide Before, Sorted, Increasing, Slice, NextCursor, IndexOf, Rest;
    var names := Sorted(s);
    var from := if cursor.None? then 0 else IndexOf(names, cursor.value).value + 1;
    RestLength(names, cursor, from);
    NextFrom(names, cursor, from, limit);
    var last := from + limit - 1;
    IndexOfAt(names, last);
    assert names[last] in s;
    RestLength(names, Some(names[last]), last + 1);
  }

  lemma {:induction false} RestLength(names: seq<string>, cursor: Option<string>, from: nat)
    requires "" !in names && from <= |names|
    requires if cursor.None? then from == 0 else IndexOf(names, cursor.value) == Some(from - 1)
    ensures Rest(names, cursor) == names[from..] && |Rest(names, cursor)| == |names| - from
  {
    hide IndexOf;
  }

  lemma {:induction false} NextFrom(names: seq<string>, cursor: Option<string>, from: nat, limit: nat)
    requires limit >= 1 && from + limit <= |names| && Rest(names, cursor) == names[from..]
    ensures NextCursor(names, cursor, limit) == Some(names[from + limit - 1])
  {
    hide Rest;
  }

  function Times(s: set<string>, k: nat): seq<set<string>> {
    seq(k, i => s)
  }

  lemma {:induction false} MoreTimes(a: nat, b: nat, limit: nat)
    requires a <= b
    ensures a * limit <= b * limit
    ensures a < b ==> a * limit + limit <= b * limit
  {
    assert b * limit == a * limit + (b - a) * limit;
    if a < b {
      assert (b - a) * limit == limit + (b - a - 1) * limit;
      assert (b - a - 1) * limit >= 0;
    }
  }

  lemma {:induction false} Quotient(n: nat, limit: nat)
    requires limit >= 1
    ensures n / limit * limit <= n < n / limit * limit + limit
  {
  }

  lemma {:induction false} Enough(n: nat, limit: nat, k: nat)
    requires limit >= 1
    ensures k >= n / limit + 1 <==> n < k * limit
  {
    Quotient(n, limit);
    var q := n / limit;
    if k > q {
      MoreTimes(q, k, limit);
    } else {
      MoreTimes(k, q, limit);
    }
  }

  lemma {:induction false} RequestsFrom(s: set<string>, cursor: Option<string>, limit: nat, k: nat)
    requires limit >= 1 && k >= 1 && "" !in s && (cursor.Some? ==> cursor.value in s)
    ensures Follow(Times(s, k), cursor, limit).next.None? <==> |Rest(Sorted(s), cursor)| < k * limit
    decreases k
  {
    hide Before, Sorted, Rest;
    var left := |Rest(Sorted(s), cursor)|;
    assert Times(s, k)[1..] == Times(s, k - 1);
    assert (k - 1) * limit == k * limit - limit;
    if left >= limit {
      NextRest(s, cursor, limit);
      if k > 1 {
        RequestsFrom(s, NextCursor(Sorted(s), cursor, limit), limit, k - 1);
      }
    } else {
      assert (k - 1) * limit >= 0;
    }
  }

  /** A listing of n names that does not change takes exactly floor(n / limit) + 1 requests. */
  lemma {:induction false} RequestsNeeded(s: set<string>, limit: nat, k: nat)
    requires limit >= 1 && k >= 1 && "" !in s
    ensures Follow(Times(s, k), None, limit).next.None? <==> k >= |s| / limit + 1
  {
    hide Sorted, Follow;
    RequestsFrom(s, None, limit, k);
    Enough(|s|, limit, k);
  }
}
