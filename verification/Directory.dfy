/** The page's current folder: which responses may change what is shown, when requests
    overtake each other. Every callback is one step; the listing on the server is frozen. */
module Directory {
  import opened Options
  import opened Paths
  import opened Paging

  datatype Entry = Entry(name: string, isFolder: bool)

  datatype Place = Place(rootId: string, path: string)

  datatype Root = Root(id: string, isDefault: bool)

  /** One request for a page, as it was made. */
  datatype Query = Query(rootId: Option<string>, path: string, cursor: Option<string>)

  /** `requests` are the ones not answered yet, by the counter value they were made with. */
  datatype View = View(
    live: bool,
    roots: seq<Root>,
    rootId: Option<string>,
    path: string,
    entries: seq<Entry>,
    next: Option<string>,
    loading: bool,
    failed: bool,
    counter: nat,
    requests: map<nat, Query>)

  datatype Event =
    | Enter(roots: seq<Root>, hash: Option<Place>)
    | HashChanged(hash: Option<Place>)
    | Refresh
    | LoadMore
    | Answered(mine: nat, ok: bool)
    | EndSession

  const EMPTY := View(false, [], None, "/", [], None, false, false, 0, map[])

  const PAGE_SIZE: nat := 200

  // ------------------------------------------------------------------------- the server

  type Disk = map<Place, seq<Entry>>

  function NamesOf(folder: seq<Entry>): (names: seq<string>)
    ensures |names| == |folder|
  {
    seq(|folder|, i requires 0 <= i < |folder| => folder[i].name)
  }

  /** Where the page after a cursor starts in a folder; past the end if it is not found. */
  function StartOf(folder: seq<Entry>, cursor: Option<string>): (i: nat)
    ensures i <= |folder|
  {
    if cursor.None? || cursor.value == "" then 0
    else
      match IndexOf(NamesOf(folder), cursor.value)
      case None => |folder|
      case Some(i) => i + 1
  }

  function EndOf(folder: seq<Entry>, start: nat): (i: nat)
    requires start <= |folder|
    ensures start <= i <= |folder|
  {
    if |folder| - start <= PAGE_SIZE then |folder| else start + PAGE_SIZE
  }

  function ShownEntries(path: string, page: seq<Entry>): seq<Entry> {
    if page == [] then []
    else (if path == "/" && IsHiddenName(page[0].name) then [] else [page[0]]) + ShownEntries(path, page[1..])
  }

  function PageOf(folder: seq<Entry>, path: string, cursor: Option<string>): seq<Entry> {
    var start := StartOf(folder, cursor);
    ShownEntries(path, folder[start..EndOf(folder, start)])
  }

  function NextOf(folder: seq<Entry>, cursor: Option<string>): Option<string> {
    var start := StartOf(folder, cursor);
    var end := EndOf(folder, start);
    if end - start == PAGE_SIZE then Some(folder[end - 1].name) else None
  }

  /** What a page request is answered with; a place that is not there is an error. */
  datatype Response = Response(entries: seq<Entry>, next: Option<string>)

  function Respond(disk: Disk, q: Query): Option<Response> {
    if q.rootId.None? || Place(q.rootId.value, q.path) !in disk then None
    else
      var folder := disk[Place(q.rootId.value, q.path)];
      Some(Response(PageOf(folder, q.path, q.cursor), NextOf(folder, q.cursor)))
  }

  lemma {:induction false} RestFromStart(folder: seq<Entry>, cursor: Option<string>)
    ensures Rest(NamesOf(folder), cursor) == NamesOf(folder)[StartOf(folder, cursor)..]
  {
    hide NamesOf;
  }

  lemma {:induction false} NamesOfSlice(folder: seq<Entry>, i: nat, j: nat)
    requires i <= j <= |folder|
    ensures NamesOf(folder[i..j]) == NamesOf(folder)[i..j]
  {
  }

  /** This is the listing of `Paging`, with the kind of each entry. */
  lemma {:induction false} PageIsServerPage(folder: seq<Entry>, cursor: Option<string>)
    ensures var start := StartOf(folder, cursor);
      NamesOf(folder[start..EndOf(folder, start)]) == Slice(NamesOf(folder), cursor, PAGE_SIZE)
    ensures NextOf(folder, cursor) == NextCursor(NamesOf(folder), cursor, PAGE_SIZE)
  {
    hide Rest, StartOf, NamesOf;
    RestFromStart(folder, cursor);
    var start := StartOf(folder, cursor);
    var end := EndOf(folder, start);
    NamesOfSlice(folder, start, end);
    assert NamesOf(folder)[start..end] == Slice(NamesOf(folder), cursor, PAGE_SIZE);
    if end > start {
      NameAt(folder, end - 1);
    }
  }

  lemma {:induction false} NameAt(folder: seq<Entry>, i: nat)
    requires i < |folder|
    ensures NamesOf(folder)[i] == folder[i].name
  {
  }

  // ----------------------------------------------------------------------------- sorting

  /** Folders first, then by name; `collate(a, b)` says that `a` may stand before `b`. */
  predicate MayPrecede(collate: (string, string) -> bool, a: Entry, b: Entry) {
    if a.isFolder != b.isFolder then a.isFolder else collate(a.name, b.name)
  }

  function Insert(collate: (string, string) -> bool, e: Entry, sorted: seq<Entry>): (r: seq<Entry>)
    ensures multiset(r) == multiset(sorted) + multiset{e}
  {
    if sorted == [] then [e]
    else if MayPrecede(collate, e, sorted[0]) then [e] + sorted
    else
      assert sorted == [sorted[0]] + sorted[1..];
      [sorted[0]] + Insert(collate, e, sorted[1..])
  }

  function SortEntries(collate: (string, string) -> bool, entries: seq<Entry>): (r: seq<Entry>)
    ensures multiset(r) == multiset(entries)
  {
    if entries == [] then []
    else
      assert entries == [entries[0]] + entries[1..];
      Insert(collate, entries[0], SortEntries(collate, entries[1..]))
  }

  // ---------------------------------------------------------------------------- the page

  /** `loadDirectory`: from the start, or on from the cursor. */
  function Load(v: View, reset: bool): View {
    var mine := v.counter + 1;
    var w := if reset then v.(entries := [], next := None) else v;
    w.(counter := mine, loading := true, failed := false,
       requests := v.requests[mine := Query(v.rootId, v.path, if reset then None else v.next)])
  }

  function DefaultRoot(roots: seq<Root>): Option<string> {
    if roots == [] then None
    else if roots[0].isDefault then Some(roots[0].id)
    else
      match DefaultRoot(roots[1..])
      case None => None
      case Some(id) => Some(id)
  }

  function PreferredRoot(roots: seq<Root>): Option<string> {
    if DefaultRoot(roots).Some? then DefaultRoot(roots)
    else if roots == [] then None
    else Some(roots[0].id)
  }

  predicate IsKnown(roots: seq<Root>, hash: Option<Place>) {
    hash.Some? && exists i :: 0 <= i < |roots| && roots[i].id == hash.value.rootId
  }

  /** `route`: to the place in the hash if its root is known, else to the preferred root. */
  function Route(v: View, hash: Option<Place>): View {
    if !v.live then v
    else if IsKnown(v.roots, hash) then Load(v.(rootId := Some(hash.value.rootId), path := hash.value.path), true)
    else if PreferredRoot(v.roots).None? then v.(rootId := None)
    else Load(v.(rootId := PreferredRoot(v.roots), path := "/"), true)
  }

  /** A response, or a failure: dropped unless it answers the latest request. */
  function Answer(v: View, collate: (string, string) -> bool, mine: nat, response: Option<Response>): View {
    var rest := v.(requests := v.requests - {mine});
    if mine != v.counter then rest
    else if response.None? then rest.(loading := false, failed := true)
    else
      rest.(entries := SortEntries(collate, v.entries + response.value.entries),
            next := response.value.next,
            loading := false)
  }

  lemma {:induction false} AnswerUnfolded(v: View, collate: (string, string) -> bool, mine: nat,
                                          response: Option<Response>)
    ensures Answer(v, collate, mine, response) ==
      View(v.live, v.roots, v.rootId, v.path,
           if mine == v.counter && response.Some? then SortEntries(collate, v.entries + response.value.entries)
           else v.entries,
           if mine == v.counter && response.Some? then response.value.next else v.next,
           v.loading && mine != v.counter,
           v.failed || (mine == v.counter && response.None?),
           v.counter, v.requests - {mine})
  {
    hide SortEntries;
  }

  function Next(v: View, disk: Disk, collate: (string, string) -> bool, e: Event): View {
    match e
    case Enter(roots, hash) => Route(v.(live := true, roots := roots), hash)
    case HashChanged(hash) => Route(v, hash)
    case Refresh => if v.live then Load(v, true) else v
    case LoadMore =>
      // The button is only drawn while there is a cursor.
      if v.live && v.next.Some? then Load(v, false) else v
    case Answered(mine, ok) =>
      if mine !in v.requests then v
      else Answer(v, collate, mine, if ok then Respond(disk, v.requests[mine]) else None)
    case EndSession => v.(live := false)
  }

  function Run(disk: Disk, collate: (string, string) -> bool, events: seq<Event>): View {
    if events == [] then EMPTY
    else Next(Run(disk, collate, events[..|events| - 1]), disk, collate, events[|events| - 1])
  }

  // ------------------------------------------------------------------------ what is shown

  /** Folders as the server lists them: by name, each name once. */
  ghost predicate IsListing(folder: seq<Entry>) {
    Increasing(NamesOf(folder)) && "" !in NamesOf(folder)
  }

  ghost predicate IsDisk(disk: Disk) {
    forall p :: p in disk ==> IsListing(disk[p])
  }

  function FolderAt(disk: Disk, rootId: string, path: string): seq<Entry> {
    if Place(rootId, path) in disk then disk[Place(rootId, path)] else []
  }

  /** Where the first `pages` pages of a folder end. */
  function EndOfPages(folder: seq<Entry>, pages: nat): (i: nat)
    ensures i <= |folder|
  {
    if pages * PAGE_SIZE <= |folder| then pages * PAGE_SIZE else |folder|
  }

  /** The entries are, in some order, the visible part of the first `pages` pages, and the
      cursor is where the next page starts. */
  ghost predicate ShowsPages(v: View, folder: seq<Entry>, pages: nat) {
    && multiset(v.entries) == multiset(ShownEntries(v.path, folder[..EndOfPages(folder, pages)]))
    && v.next == (if 0 < pages && pages * PAGE_SIZE <= |folder| then Some(folder[pages * PAGE_SIZE - 1].name) else None)
  }

  ghost predicate ShowsPrefix(v: View, disk: Disk) {
    v.rootId.Some? ==> exists pages: nat :: ShowsPages(v, FolderAt(disk, v.rootId.value, v.path), pages)
  }

  /** The latest request asks for the page that follows what is shown. */
  ghost predicate LatestFollows(v: View) {
    && (forall mine :: mine in v.requests ==> mine <= v.counter)
    && (v.rootId.Some? && v.counter in v.requests ==>
          v.requests[v.counter] == Query(v.rootId, v.path, v.next) && (v.next.None? ==> v.entries == []))
  }

  ghost predicate Inv(v: View, disk: Disk) {
    ShowsPrefix(v, disk) && LatestFollows(v)
  }

  // --------------------------------------------------------------- what each step keeps

  lemma {:induction false} ShownEntriesConcat(path: string, a: seq<Entry>, b: seq<Entry>)
    ensures ShownEntries(path, a + b) == ShownEntries(path, a) + ShownEntries(path, b)
  {
    if a == [] {
      assert a + b == b;
    } else {
      assert (a + b)[1..] == a[1..] + b;
      ShownEntriesConcat(path, a[1..], b);
    }
  }

  /** The cursor of a page boundary is found again where the page ended. */
  lemma {:induction false} CursorFindsEnd(folder: seq<Entry>, i: nat)
    requires IsListing(folder) && i < |folder|
    ensures StartOf(folder, Some(folder[i].name)) == i + 1
  {
    hide Before;
    IndexOfAt(NamesOf(folder), i);
    assert NamesOf(folder)[i] in NamesOf(folder);
  }

  lemma {:induction false} PageEnds(folder: seq<Entry>, pages: nat, start: nat)
    requires start == pages * PAGE_SIZE && start <= |folder|
    ensures EndOf(folder, start) == EndOfPages(folder, pages + 1)
    ensures EndOf(folder, start) - start == PAGE_SIZE <==> (pages + 1) * PAGE_SIZE <= |folder|
  {
  }

  /** The answer to the latest request adds exactly the next page. */
  lemma {:induction false} NextPage(folder: seq<Entry>, path: string, next: Option<string>, shown: multiset<Entry>,
                                    pages: nat)
    requires IsListing(folder)
    requires shown == multiset(ShownEntries(path, folder[..EndOfPages(folder, pages)]))
    requires if next.None? then pages == 0
      else 0 < pages && pages * PAGE_SIZE <= |folder| && next.value == folder[pages * PAGE_SIZE - 1].name
    ensures shown + multiset(PageOf(folder, path, next)) ==
      multiset(ShownEntries(path, folder[..EndOfPages(folder, pages + 1)]))
    ensures NextOf(folder, next) ==
      if (pages + 1) * PAGE_SIZE <= |folder| then Some(folder[(pages + 1) * PAGE_SIZE - 1].name) else None
  {
    hide *;
    StartsAfter(folder, next, pages);
    SliceShown(folder, path, next, pages);
    NextBoundary(folder, next, pages);
  }

  lemma {:induction false} StartsAfter(folder: seq<Entry>, next: Option<string>, pages: nat)
    requires IsListing(folder)
    requires if next.None? then pages == 0
      else 0 < pages && pages * PAGE_SIZE <= |folder| && next.value == folder[pages * PAGE_SIZE - 1].name
    ensures StartOf(folder, next) == pages * PAGE_SIZE == EndOfPages(folder, pages)
  {
    if next.Some? {
      CursorFindsEnd(folder, pages * PAGE_SIZE - 1);
    }
    hide IsListing, IndexOf;
  }

  lemma {:induction false} NextBoundary(folder: seq<Entry>, next: Option<string>, pages: nat)
    requires StartOf(folder, next) == pages * PAGE_SIZE
    ensures NextOf(folder, next) ==
      if (pages + 1) * PAGE_SIZE <= |folder| then Some(folder[(pages + 1) * PAGE_SIZE - 1].name) else None
  {
  }

  lemma {:induction false} SliceShown(folder: seq<Entry>, path: string, next: Option<string>, pages: nat)
    requires StartOf(folder, next) == pages * PAGE_SIZE == EndOfPages(folder, pages)
    ensures multiset(ShownEntries(path, folder[..EndOfPages(folder, pages)])) + multiset(PageOf(folder, path, next)) ==
      multiset(ShownEntries(path, folder[..EndOfPages(folder, pages + 1)]))
  {
    var start := StartOf(folder, next);
    PageEnds(folder, pages, start);
    hide StartOf, EndOf, EndOfPages;
    var end := EndOf(folder, start);
    assert folder[..start] + folder[start..end] == folder[..end];
    ShownEntriesConcat(path, folder[..start], folder[start..end]);
  }

  lemma {:induction false} LoadKeeps(v: View, disk: Disk, reset: bool)
    requires (forall mine :: mine in v.requests ==> mine <= v.counter)
    requires reset || (Inv(v, disk) && v.next.Some?)
    ensures Inv(Load(v, reset), disk)
  {
    var w := Load(v, reset);
    if reset && w.rootId.Some? {
      var folder := FolderAt(disk, w.rootId.value, w.path);
      assert EndOfPages(folder, 0) == 0;
      assert ShowsPages(w, folder, 0);
    } else if w.rootId.Some? {
      var pages: nat :| ShowsPages(v, FolderAt(disk, v.rootId.value, v.path), pages);
      assert ShowsPages(w, FolderAt(disk, w.rootId.value, w.path), pages);
    }
  }

  /** Responses to earlier requests, and failures, change nothing that is shown. */
  lemma {:induction false} SameViewKeeps(v: View, w: View, disk: Disk)
    requires Inv(v, disk)
    requires w.rootId == v.rootId && w.path == v.path && w.entries == v.entries && w.next == v.next
    requires w.counter == v.counter
    requires forall mine :: mine in w.requests ==> mine in v.requests && w.requests[mine] == v.requests[mine]
    ensures Inv(w, disk)
  {
    if w.rootId.Some? {
      var pages: nat :| ShowsPages(v, FolderAt(disk, v.rootId.value, v.path), pages);
      assert ShowsPages(w, FolderAt(disk, w.rootId.value, w.path), pages);
    }
  }

  /** With a cursor the number of pages shown is known; with neither cursor nor entries it
      may be taken to be none. */
  lemma {:induction false} PagesShown(v: View, disk: Disk) returns (pages: nat)
    requires Inv(v, disk) && v.rootId.Some? && (v.next.None? ==> v.entries == [])
    ensures ShowsPages(v, FolderAt(disk, v.rootId.value, v.path), pages)
    ensures v.next.None? ==> pages == 0
  {
    var folder := FolderAt(disk, v.rootId.value, v.path);
    pages :| ShowsPages(v, folder, pages);
    if v.next.None? {
      assert EndOfPages(folder, 0) == 0;
      pages := 0;
    }
  }

  /** The answer to the latest request adds one page to what is shown. */
  lemma {:induction false} LatestAdds(v: View, disk: Disk, collate: (string, string) -> bool, pages: nat)
    requires IsDisk(disk) && v.rootId.Some? && Place(v.rootId.value, v.path) in disk
    requires ShowsPages(v, FolderAt(disk, v.rootId.value, v.path), pages) && (v.next.None? ==> pages == 0)
    ensures var w := Answer(v, collate, v.counter, Respond(disk, Query(v.rootId, v.path, v.next)));
      w.rootId == v.rootId && w.path == v.path && !w.loading && w.failed == v.failed
      && ShowsPages(w, FolderAt(disk, v.rootId.value, v.path), pages + 1)
  {
    hide PageOf, NextOf, IsListing, SortEntries;
    var folder := FolderAt(disk, v.rootId.value, v.path);
    var w := Answer(v, collate, v.counter, Respond(disk, Query(v.rootId, v.path, v.next)));
    NextPage(folder, v.path, v.next, multiset(v.entries), pages);
    assert multiset(w.entries) == multiset(v.entries) + multiset(PageOf(folder, v.path, v.next));
  }

  lemma {:induction false} LatestKeeps(v: View, disk: Disk, collate: (string, string) -> bool)
    requires Inv(v, disk) && IsDisk(disk) && v.counter in v.requests && v.rootId.Some?
    requires Place(v.rootId.value, v.path) in disk
    ensures Inv(Answer(v, collate, v.counter, Respond(disk, Query(v.rootId, v.path, v.next))), disk)
  {
    hide PageOf, NextOf, IsDisk, SortEntries, ShowsPages;
    var folder := FolderAt(disk, v.rootId.value, v.path);
    var w := Answer(v, collate, v.counter, Respond(disk, Query(v.rootId, v.path, v.next)));
    var pages := PagesShown(v, disk);
    LatestAdds(v, disk, collate, pages);
    assert ShowsPages(w, FolderAt(disk, w.rootId.value, w.path), pages + 1);
  }

  lemma {:induction false} AnswerKeeps(v: View, disk: Disk, collate: (string, string) -> bool, mine: nat, ok: bool)
    requires Inv(v, disk) && IsDisk(disk) && mine in v.requests
    ensures Inv(Answer(v, collate, mine, if ok then Respond(disk, v.requests[mine]) else None), disk)
  {
    var w := Answer(v, collate, mine, if ok then Respond(disk, v.requests[mine]) else None);
    if v.rootId.None? {
      assert w.rootId.None?;
    } else if mine == v.counter && ok && Place(v.rootId.value, v.path) in disk {
      assert v.requests[mine] == Query(v.rootId, v.path, v.next);
      LatestKeeps(v, disk, collate);
    } else {
      assert mine == v.counter ==> v.requests[mine] == Query(v.rootId, v.path, v.next);
      SameViewKeeps(v, w, disk);
    }
  }

  lemma {:induction false} RouteKeeps(v: View, disk: Disk, hash: Option<Place>)
    requires Inv(v, disk)
    ensures Inv(Route(v, hash), disk)
  {
    hide ShowsPrefix, Load;
    if v.live {
      if IsKnown(v.roots, hash) {
        LoadKeeps(v.(rootId := Some(hash.value.rootId), path := hash.value.path), disk, true);
      } else if PreferredRoot(v.roots).Some? {
        LoadKeeps(v.(rootId := PreferredRoot(v.roots), path := "/"), disk, true);
      } else {
        NoRootShown(v.(rootId := None), disk);
      }
    }
  }

  lemma {:induction false} NoRootShown(v: View, disk: Disk)
    requires v.rootId.None?
    ensures ShowsPrefix(v, disk)
  {
  }

  /** Every step keeps the invariant. */
  lemma {:induction false} NextKeeps(v: View, disk: Disk, collate: (string, string) -> bool, e: Event)
    requires Inv(v, disk) && IsDisk(disk)
    ensures Inv(Next(v, disk, collate, e), disk)
  {
    hide ShowsPrefix, Load, Route, Answer, IsDisk;
    match e {
      case Enter(roots, hash) =>
        SameViewKeeps(v, v.(live := true, roots := roots), disk);
        RouteKeeps(v.(live := true, roots := roots), disk, hash);
      case HashChanged(hash) => RouteKeeps(v, disk, hash);
      case Refresh => LoadKeeps(v, disk, true);
      case LoadMore =>
        if v.next.Some? {
          LoadKeeps(v, disk, false);
        }
      case Answered(mine, ok) =>
        if mine in v.requests {
          AnswerKeeps(v, disk, collate, mine, ok);
        }
      case EndSession => SameViewKeeps(v, v.(live := false), disk);
    }
  }

  /** Over every interleaving of routes, refreshes, further pages, late and failed
      responses: whenever a root is selected, what is shown is exactly a number of leading
      pages of the current folder, and the cursor continues them. */
  lemma {:induction false} RunShowsPrefix(disk: Disk, collate: (string, string) -> bool, events: seq<Event>)
    requires IsDisk(disk)
    ensures Inv(Run(disk, collate, events), disk)
  {
    hide Inv, Next, IsDisk;
    if events == [] {
      NothingShown(disk);
    } else {
      RunShowsPrefix(disk, collate, events[..|events| - 1]);
      NextKeeps(Run(disk, collate, events[..|events| - 1]), disk, collate, events[|events| - 1]);
    }
  }

  lemma {:induction false} NothingShown(disk: Disk)
    ensures Inv(EMPTY, disk)
  {
  }

  lemma {:induction false} SortInserts(collate: (string, string) -> bool, e: Entry, sorted: seq<Entry>)
    requires CollatesTotally(collate) && InOrder(collate, sorted)
    ensures InOrder(collate, Insert(collate, e, sorted))
  {
    if sorted != [] {
      if MayPrecede(collate, e, sorted[0]) {
        forall j | 0 <= j < |sorted|
          ensures MayPrecede(collate, e, sorted[j])
        {
        }
      } else {
        SortInserts(collate, e, sorted[1..]);
        var rest := Insert(collate, e, sorted[1..]);
        forall j | 0 <= j < |rest|
          ensures MayPrecede(collate, sorted[0], rest[j])
        {
          assert rest[j] in multiset(rest);
          if rest[j] != e {
            assert rest[j] in sorted[1..];
          }
        }
      }
    }
  }

  /** The collator is a total preorder. */
  ghost predicate CollatesTotally(collate: (string, string) -> bool) {
    && (forall a, b :: collate(a, b) || collate(b, a))
    && (forall a, b, c :: collate(a, b) && collate(b, c) ==> collate(a, c))
  }

  ghost predicate InOrder(collate: (string, string) -> bool, entries: seq<Entry>) {
    forall i, j :: 0 <= i < j < |entries| ==> MayPrecede(collate, entries[i], entries[j])
  }

  lemma {:induction false} SortedIsInOrder(collate: (string, string) -> bool, entries: seq<Entry>)
    requires CollatesTotally(collate)
    ensures InOrder(collate, SortEntries(collate, entries))
  {
    if entries != [] {
      SortedIsInOrder(collate, entries[1..]);
      SortInserts(collate, entries[0], SortEntries(collate, entries[1..]));
    }
  }

  /** The same entries, no file before a folder, and two of one kind as the collator has them. */
  lemma {:induction false} SortedInOrder(collate: (string, string) -> bool, entries: seq<Entry>)
    requires CollatesTotally(collate)
    ensures var r := SortEntries(collate, entries);
      && multiset(r) == multiset(entries)
      && (forall i, j :: 0 <= i < j < |r| && r[j].isFolder ==> r[i].isFolder)
      && (forall i, j :: 0 <= i < j < |r| && r[i].isFolder == r[j].isFolder ==> collate(r[i].name, r[j].name))
  {
    SortedIsInOrder(collate, entries);
    hide SortEntries;
    var r := SortEntries(collate, entries);
    forall i, j | 0 <= i < j < |r|
      ensures (r[j].isFolder ==> r[i].isFolder)
      ensures r[i].isFolder == r[j].isFolder ==> collate(r[i].name, r[j].name)
    {
      assert MayPrecede(collate, r[i], r[j]);
    }
  }

  // ------------------------------------------------------------------------- in place

  /** The page's `state` and `loadCounter`, changed in place by its callbacks. */
  class FolderView {
    const collate: (string, string) -> bool
    var live: bool
    var roots: seq<Root>
    var rootId: Option<string>
    var path: string
    var entries: seq<Entry>
    var next: Option<string>
    var loading: bool
    var failed: bool
    var loadCounter: nat
    ghost var requests: map<nat, Query>

    ghost function State(): View
      reads this
    {
      View(live, roots, rootId, path, entries, next, loading, failed, loadCounter, requests)
    }

    constructor (collate: (string, string) -> bool)
      ensures State() == EMPTY
    {
      this.collate := collate;
      live, roots, rootId, path, entries, next := false, [], None, "/", [], None;
      loading, failed, loadCounter, requests := false, false, 0, map[];
    }

    /** Returns the query and the number its response will carry. */
    method LoadDirectory(reset: bool) returns (mine: nat, query: Query)
      modifies this
      ensures State() == Load(old(State()), reset)
      ensures mine == loadCounter && query == requests[mine]
    {
      loadCounter := loadCounter + 1;
      mine := loadCounter;
      if reset {
        entries := [];
        next := None;
      }
      loading := true;
      failed := false;
      query := Query(rootId, path, if !reset && next.Some? then next else None);
      requests := requests[mine := query];
    }

    method OnResponse(mine: nat, response: Option<Response>)
      modifies this
      ensures State() == Answer(old(State()), collate, mine, response)
    {
      hide SortEntries, Answer;
      AnswerUnfolded(State(), collate, mine, response);
      requests := requests - {mine};
      if mine != loadCounter {
        return;
      }
      loading := false;
      if response.None? {
        failed := true;
        return;
      }
      entries := SortEntries(collate, entries + response.value.entries);
      next := response.value.next;
    }

    method RouteTo(hash: Option<Place>)
      modifies this
      ensures State() == Route(old(State()), hash)
      ensures live && IsKnown(roots, hash) ==>
        rootId == Some(hash.value.rootId) && path == hash.value.path
        && loadCounter in requests && requests[loadCounter] == Query(rootId, hash.value.path, None)
    {
      if !live {
        return;
      }
      if IsKnown(roots, hash) {
        rootId := Some(hash.value.rootId);
        path := hash.value.path;
      } else {
        rootId := PreferredRoot(roots);
        if rootId.None? {
          return;
        }
        path := "/";
      }
      var _, _ := LoadDirectory(true);
    }

    method EnterApp(known: seq<Root>, hash: Option<Place>)
      modifies this
      ensures forall disk :: State() == Next(old(State()), disk, collate, Enter(known, hash))
    {
      roots := known;
      live := true;
      RouteTo(hash);
    }
  }
}
