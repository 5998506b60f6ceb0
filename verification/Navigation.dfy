/** Which folder the page is in, and when all of it is shown. Nothing here is stated through the
    steps of `Directory`: where the page is follows from the events, what it shows from the folder. */
module Navigation {
  import opened Options
  import opened Paths
  import opened FileTree
  import opened HashRoute
  import opened Directory

  // ------------------------------------------------------------------------------- places

  ghost predicate HasRoot(roots: seq<Root>, id: string) {
    exists i :: 0 <= i < |roots| && roots[i].id == id
  }

  ghost predicate IsFirstDefault(roots: seq<Root>, i: int) {
    0 <= i < |roots| && roots[i].isDefault && forall j :: 0 <= j < i ==> !roots[j].isDefault
  }

  /** To the place asked for if its root is there; else to the top of the first root marked as
      the default, of the first one if none is marked, and nowhere if there are no roots. */
  ghost predicate LeadsTo(roots: seq<Root>, hash: Option<Place>, rootId: Option<string>, path: string) {
    if hash.Some? && HasRoot(roots, hash.value.rootId) then
      rootId == Some(hash.value.rootId) && path == hash.value.path
    else
      && (roots == [] ==> rootId == None)
      && (roots != [] ==> path == "/")
      && (forall i :: IsFirstDefault(roots, i) ==> rootId == Some(roots[i].id))
      && (roots != [] && (forall i :: 0 <= i < |roots| ==> !roots[i].isDefault) ==> rootId == Some(roots[0].id))
  }

  /** Nothing of the folder is shown yet, and its first page is asked for. */
  ghost predicate AsksForFirstPage(v: View) {
    && v.entries == [] && v.next == None && v.loading && !v.failed
    && v.counter in v.requests && v.requests[v.counter] == Query(v.rootId, v.path, None)
  }

  lemma {:induction false} PreferredIs(roots: seq<Root>)
    ensures forall i :: IsFirstDefault(roots, i) ==> DefaultRoot(roots) == Some(roots[i].id)
    ensures DefaultRoot(roots) == None <==> forall i :: 0 <= i < |roots| ==> !roots[i].isDefault
  {
    if roots != [] && !roots[0].isDefault {
      PreferredIs(roots[1..]);
      forall i | IsFirstDefault(roots, i)
        ensures DefaultRoot(roots) == Some(roots[i].id)
      {
        assert roots[1..][i - 1] == roots[i];
        assert IsFirstDefault(roots[1..], i - 1);
      }
    }
  }

  /** Following a hash, for every page, hash and set of roots. */
  lemma {:induction false} RouteExactly(v: View, hash: Option<Place>)
    requires v.live
    ensures var w := Route(v, hash);
      && LeadsTo(v.roots, hash, w.rootId, w.path)
      && (w.rootId.Some? ==>
            AsksForFirstPage(w) && w.counter == v.counter + 1
            && w.requests == v.requests[w.counter := Query(w.rootId, w.path, None)])
      && w.live && w.roots == v.roots
  {
    PreferredIs(v.roots);
    RootIsKnown(v.roots, hash);
    hide DefaultRoot, IsKnown, HasRoot, IsFirstDefault;
  }

  lemma {:induction false} RootIsKnown(roots: seq<Root>, hash: Option<Place>)
    ensures IsKnown(roots, hash) <==> hash.Some? && HasRoot(roots, hash.value.rootId)
  {
  }

  /** A refresh begins the same folder anew, the button asks for what follows, a late answer is
      dropped, and a failure of the latest request is reported over what is shown. */
  lemma {:induction false} OtherStepsExactly(v: View, disk: Disk, collate: (string, string) -> bool, e: Event)
    requires v.live && !e.Enter? && !e.HashChanged? && !e.EndSession?
    ensures var w := Next(v, disk, collate, e);
      && w.live && w.roots == v.roots && w.rootId == v.rootId && w.path == v.path
      && (e.Refresh? ==>
            AsksForFirstPage(w) && w.counter == v.counter + 1
            && w.requests == v.requests[w.counter := Query(v.rootId, v.path, None)])
      && (e.LoadMore? && v.next.Some? ==>
            w.loading && !w.failed && w.entries == v.entries && w.next == v.next && w.counter == v.counter + 1
            && w.requests == v.requests[w.counter := Query(v.rootId, v.path, v.next)])
      && (e.Answered? && e.mine in v.requests ==> w.counter == v.counter && w.requests == v.requests - {e.mine})
      && (e.Answered? && e.mine in v.requests && e.mine != v.counter ==>
            w.entries == v.entries && w.next == v.next && w.loading == v.loading && w.failed == v.failed)
      && (e.Answered? && e.mine in v.requests && e.mine == v.counter ==>
            !w.loading
            && (w.failed <==> v.failed || !e.ok || Respond(disk, v.requests[e.mine]).None?)
            && (!e.ok ==> w.entries == v.entries && w.next == v.next))
  {
    hide SortEntries, Respond, Answer;
    if e.Answered? && e.mine in v.requests {
      AnswerUnfolded(v, collate, e.mine, if e.ok then Respond(disk, v.requests[e.mine]) else None);
    }
  }

  // ---------------------------------------------------------------------------- every run

  /** Signed in, and not signed out again since. */
  ghost predicate SessionIsOn(events: seq<Event>) {
    exists i :: 0 <= i < |events| && events[i].Enter? && NoneEnds(events, i + 1)
  }

  ghost predicate NoneEnds(events: seq<Event>, from: nat) {
    forall j :: from <= j < |events| ==> !events[j].EndSession?
  }

  /** The roots the page was last given. */
  function RootsGiven(events: seq<Event>): seq<Root> {
    if events == [] then []
    else if events[|events| - 1].Enter? then events[|events| - 1].roots
    else RootsGiven(events[..|events| - 1])
  }

  lemma {:induction false} LiveExactly(disk: Disk, collate: (string, string) -> bool, events: seq<Event>)
    ensures Run(disk, collate, events).live <==> SessionIsOn(events)
    ensures Run(disk, collate, events).roots == RootsGiven(events)
  {
    if events != [] {
      var before := events[..|events| - 1];
      LiveExactly(disk, collate, before);
      var e := events[|events| - 1];
      assert events == before + [e];
      NextLive(Run(disk, collate, before), disk, collate, e);
      hide Next, NoneEnds;
      SessionAfter(before, e);
    }
  }

  lemma {:induction false} NextLive(v: View, disk: Disk, collate: (string, string) -> bool, e: Event)
    ensures var w := Next(v, disk, collate, e);
      && w.live == (e.Enter? || (v.live && !e.EndSession?))
      && w.roots == (if e.Enter? then e.roots else v.roots)
  {
    hide IsKnown, PreferredRoot, SortEntries, Respond;
  }

  lemma {:induction false} SessionAfter(before: seq<Event>, e: Event)
    ensures SessionIsOn(before + [e]) <==> e.Enter? || (SessionIsOn(before) && !e.EndSession?)
  {
    var events := before + [e];
    if e.Enter? {
      assert NoneEnds(events, |before| + 1);
      assert events[|before|].Enter?;
    } else if SessionIsOn(before) && !e.EndSession? {
      var i :| 0 <= i < |before| && before[i].Enter? && NoneEnds(before, i + 1);
      assert events[i].Enter? && NoneEnds(events, i + 1);
    } else if SessionIsOn(events) {
      var i :| 0 <= i < |events| && events[i].Enter? && NoneEnds(events, i + 1);
      assert i < |before| && before[i].Enter?;
      assert events[|before|] == e;
      forall j | i + 1 <= j < |before|
        ensures !before[j].EndSession?
      {
        assert events[j] == before[j];
      }
      assert NoneEnds(before, i + 1);
    }
  }

  /** An event that follows a hash. */
  ghost predicate Steers(before: seq<Event>, e: Event) {
    e.Enter? || (e.HashChanged? && SessionIsOn(before))
  }

  /** The k-th event follows a hash, and none after it does. */
  ghost predicate SteersLast(events: seq<Event>, k: nat) {
    && k < |events| && Steers(events[..k], events[k])
    && forall j :: k < j < |events| ==> !Steers(events[..j], events[j])
  }

  lemma {:induction false} OthersStay(v: View, disk: Disk, collate: (string, string) -> bool, e: Event)
    requires !e.Enter? && (e.HashChanged? ==> !v.live)
    ensures Next(v, disk, collate, e).rootId == v.rootId && Next(v, disk, collate, e).path == v.path
  {
    hide SortEntries, Respond;
  }

  /** Over every interleaving: the page is where the last hash it followed leads, whatever was
      answered, refreshed or loaded since. */
  lemma {:induction false} RunIsWhereItWasLed(disk: Disk, collate: (string, string) -> bool, events: seq<Event>,
                                              k: nat)
    requires SteersLast(events, k)
    ensures var w := Run(disk, collate, events);
      LeadsTo(RootsGiven(events[..k + 1]), events[k].hash, w.rootId, w.path)
  {
    var before := events[..|events| - 1];
    var e := events[|events| - 1];
    LiveExactly(disk, collate, before);
    var v := Run(disk, collate, before);
    if k == |events| - 1 {
      assert events[..k + 1] == events && events[..k] == before;
      hide Route, LeadsTo, SessionIsOn;
      if e.Enter? {
        RouteExactly(v.(live := true, roots := e.roots), e.hash);
      } else {
        RouteExactly(v, e.hash);
      }
    } else {
      SteersBefore(events, k);
      RunIsWhereItWasLed(disk, collate, before, k);
      assert before[..k + 1] == events[..k + 1];
      assert events[..|events| - 1] == before && !Steers(before, e);
      OthersStay(v, disk, collate, e);
    }
  }

  lemma {:induction false} SteersBefore(events: seq<Event>, k: nat)
    requires SteersLast(events, k) && k < |events| - 1
    ensures SteersLast(events[..|events| - 1], k)
  {
    var before := events[..|events| - 1];
    assert before[..k] == events[..k];
    forall j | k < j < |before|
      ensures !Steers(before[..j], before[j])
    {
      assert before[..j] == events[..j];
    }
  }

  // ---------------------------------------------------------------- the fragment in the bar

  /** What `parseHash` makes of a fragment. */
  function PlaceIn(fragment: string): Option<Place> {
    match ParseHash(fragment)
    case None => None
    case Some(t) => Some(Place(t.rootId, t.path))
  }

  /** `goTo(r, p)` leaves its own hash in the bar and follows it, whether it was there already or
      not. From then on, until another hash is followed, the page is in that folder and shows
      nothing but leading pages of it. */
  lemma {:induction false} GoToShows(disk: Disk, collate: (string, string) -> bool, events: seq<Event>, k: nat,
                                     r: string, p: string)
    requires IsDisk(disk) && SteersLast(events, k) && IsCanonical(p)
    requires events[k].hash == PlaceIn(BuildHash(Target(r, p))) && HasRoot(RootsGiven(events[..k + 1]), r)
    ensures var w := Run(disk, collate, events);
      && w.rootId == Some(r) && w.path == p
      && exists pages: nat :: ShowsPages(w, FolderAt(disk, r, p), pages)
  {
    HashRoundTrip(Target(r, p));
    hide ParseHash, BuildHash, IsCanonical, SteersLast, RootsGiven, HasRoot;
    RunIsWhereItWasLed(disk, collate, events, k);
    RunShowsPrefix(disk, collate, events);
    assert ShowsPrefix(Run(disk, collate, events), disk);
  }

  /** The fragment after `route`: replaced when it led nowhere known. */
  function FragmentAfter(fragment: string, roots: seq<Root>): string {
    if IsKnown(roots, PlaceIn(fragment)) || PreferredRoot(roots).None? then fragment
    else BuildHash(Target(PreferredRoot(roots).value, "/"))
  }

  /** Whatever stood in the bar: afterwards it names the place the page is at, so that loading the
      page anew from it leads there again. */
  lemma {:induction false} BarNamesThePlace(v: View, fragment: string)
    requires v.live && v.roots != []
    ensures var w, after := Route(v, PlaceIn(fragment)), FragmentAfter(fragment, v.roots);
      && w.rootId.Some? && PlaceIn(after) == Some(Place(w.rootId.value, w.path))
      && forall u: View :: u.live && u.roots == v.roots ==>
           Route(u, PlaceIn(after)).rootId == w.rootId && Route(u, PlaceIn(after)).path == w.path
  {
    var w, after := Route(v, PlaceIn(fragment)), FragmentAfter(fragment, v.roots);
    PreferredIsKnown(v.roots);
    HashRoundTrip(Target(PreferredRoot(v.roots).value, "/"));
    hide ParseHash, BuildHash, DefaultRoot, PreferredRoot;
    assert IsKnown(v.roots, PlaceIn(after));
  }

  lemma {:induction false} PreferredIsKnown(roots: seq<Root>)
    requires roots != []
    ensures PreferredRoot(roots).Some? && HasRoot(roots, PreferredRoot(roots).value)
  {
    PreferredIs(roots);
    hide DefaultRoot;
    if DefaultRoot(roots).Some? {
      var i := FirstDefault(roots);
    } else {
      assert roots[0].id == PreferredRoot(roots).value;
    }
  }

  lemma {:induction false} FirstDefault(roots: seq<Root>) returns (i: nat)
    requires exists j :: 0 <= j < |roots| && roots[j].isDefault
    ensures IsFirstDefault(roots, i)
  {
    i := 0;
    while !roots[i].isDefault
      invariant i < |roots| && (forall j :: 0 <= j < i ==> !roots[j].isDefault)
      invariant exists j :: i <= j < |roots| && roots[j].isDefault
      decreases |roots| - i
    {
      i := i + 1;
    }
  }

  // ------------------------------------------------------------------------- what is shown

  /** Of a page of the server, the entries not hidden, each as often as it is there. */
  lemma {:induction false} ShownExactly(path: string, page: seq<Entry>, e: Entry)
    ensures multiset(ShownEntries(path, page))[e] ==
      if path == "/" && IsHiddenName(e.name) then 0 else multiset(page)[e]
  {
    if page != [] {
      assert page == [page[0]] + page[1..];
      ShownExactly(path, page[1..], e);
    }
  }

  /** Loading exactly while the latest request is unanswered; and neither loading nor failed
      means that at least one page is there. */
  ghost predicate IsSettled(v: View, disk: Disk) {
    && (v.loading <==> v.counter in v.requests)
    && (v.rootId.Some? && !v.loading && !v.failed ==> ShowsSome(v, disk, v.rootId.value))
  }

  ghost predicate ShowsSome(v: View, disk: Disk, rootId: string) {
    && Place(rootId, v.path) in disk
    && exists pages: nat :: pages > 0 && ShowsPages(v, disk[Place(rootId, v.path)], pages)
  }

  lemma {:induction false} LoadSettles(v: View, reset: bool, disk: Disk)
    ensures IsSettled(Load(v, reset), disk)
  {
    hide ShowsSome;
  }

  /** Nothing that `IsSettled` speaks of has changed. */
  lemma {:induction false} SameSettles(v: View, w: View, disk: Disk)
    requires IsSettled(v, disk)
    requires w.rootId == v.rootId && w.path == v.path && w.entries == v.entries && w.next == v.next
    requires w.counter == v.counter && w.loading == v.loading && w.failed == v.failed
    requires w.counter in w.requests <==> v.counter in v.requests
    ensures IsSettled(w, disk)
  {
    if v.rootId.Some? && !v.loading && !v.failed {
      var pages: nat :| pages > 0 && ShowsPages(v, disk[Place(v.rootId.value, v.path)], pages);
      assert ShowsPages(w, disk[Place(v.rootId.value, v.path)], pages);
    }
  }

  lemma {:induction false} NextSettles(v: View, disk: Disk, collate: (string, string) -> bool, e: Event)
    requires Inv(v, disk) && IsDisk(disk) && IsSettled(v, disk)
    ensures IsSettled(Next(v, disk, collate, e), disk)
  {
    hide IsSettled, Inv, IsDisk, Answer, Route, Load, Respond;
    match e {
      case Answered(mine, ok) =>
        if mine in v.requests {
          AnswerSettles(v, disk, collate, mine, ok);
        }
      case Enter(roots, hash) =>
        SameSettles(v, v.(live := true, roots := roots), disk);
        RouteSettles(v.(live := true, roots := roots), hash, disk);
      case HashChanged(hash) => RouteSettles(v, hash, disk);
      case Refresh => LoadSettles(v, true, disk);
      case LoadMore => LoadSettles(v, false, disk);
      case EndSession => SameSettles(v, v.(live := false), disk);
    }
  }

  lemma {:induction false} RouteSettles(v: View, hash: Option<Place>, disk: Disk)
    requires IsSettled(v, disk)
    ensures IsSettled(Route(v, hash), disk)
  {
    hide ShowsSome, IsKnown, PreferredRoot;
  }

  lemma {:induction false} AnswerSettles(v: View, disk: Disk, collate: (string, string) -> bool, mine: nat, ok: bool)
    requires Inv(v, disk) && IsDisk(disk) && IsSettled(v, disk) && mine in v.requests
    ensures IsSettled(Answer(v, collate, mine, if ok then Respond(disk, v.requests[mine]) else None), disk)
  {
    var response := if ok then Respond(disk, v.requests[mine]) else None;
    var w := Answer(v, collate, mine, response);
    AnswerUnfolded(v, collate, mine, response);
    hide Answer, SortEntries, ShowsPages, ShowsPrefix, IsDisk;
    if mine != v.counter {
      SameSettles(v, w, disk);
    } else if response.Some? && v.rootId.Some? {
      assert v.requests[mine] == Query(v.rootId, v.path, v.next);
      var pages := PagesShown(v, disk);
      LatestAdds(v, disk, collate, pages);
      assert ShowsPages(w, disk[Place(v.rootId.value, v.path)], pages + 1);
    }
  }

  lemma {:induction false} RunSettles(disk: Disk, collate: (string, string) -> bool, events: seq<Event>)
    requires IsDisk(disk)
    ensures IsSettled(Run(disk, collate, events), disk)
  {
    hide IsDisk, Next, IsSettled, Inv;
    if events == [] {
      EmptySettled(disk);
    } else {
      var before := events[..|events| - 1];
      RunSettles(disk, collate, before);
      RunShowsPrefix(disk, collate, before);
      NextSettles(Run(disk, collate, before), disk, collate, events[|events| - 1]);
    }
  }

  lemma {:induction false} EmptySettled(disk: Disk)
    ensures IsSettled(EMPTY, disk)
  {
  }

  /** Over every interleaving: a page that is neither loading nor failed, and draws no button for
      more, shows the whole folder it is in. */
  lemma {:induction false} SettledShowsWhole(disk: Disk, collate: (string, string) -> bool, events: seq<Event>)
    requires IsDisk(disk)
    ensures var w := Run(disk, collate, events);
      && (w.loading <==> w.counter in w.requests)
      && (w.rootId.Some? && !w.loading && !w.failed ==>
            Place(w.rootId.value, w.path) in disk
            && (w.next.None? ==>
                  multiset(w.entries) == multiset(ShownEntries(w.path, disk[Place(w.rootId.value, w.path)]))))
  {
    RunSettles(disk, collate, events);
    hide Run, IsDisk;
    var w := Run(disk, collate, events);
    if w.rootId.Some? && !w.loading && !w.failed && w.next.None? {
      var folder := disk[Place(w.rootId.value, w.path)];
      var pages: nat :| pages > 0 && ShowsPages(w, folder, pages);
      assert folder[..EndOfPages(folder, pages)] == folder;
    }
  }

  // ------------------------------------------------------------------------------ progress

  /** `n` times more, each answered. */
  function More(v: View, disk: Disk, collate: (string, string) -> bool, n: nat): View {
    if n == 0 then v
    else
      var asked := Next(More(v, disk, collate, n - 1), disk, collate, LoadMore);
      Next(asked, disk, collate, Answered(asked.counter, true))
  }

  /** From any state of any run: a folder that was gone to is shown one page after another, and
      wholly once as many further pages came as 200 goes into its size. */
  lemma {:induction false} PagesCome(disk: Disk, collate: (string, string) -> bool, events: seq<Event>, h: Place,
                                      n: nat)
    requires IsDisk(disk) && SessionIsOn(events) && HasRoot(RootsGiven(events), h.rootId)
    requires h in disk && n * 200 <= |disk[h]|
    ensures var asked := Next(Run(disk, collate, events), disk, collate, HashChanged(Some(h)));
      var w := More(Next(asked, disk, collate, Answered(asked.counter, true)), disk, collate, n);
      && w.rootId == Some(h.rootId) && w.path == h.path && !w.loading && !w.failed
      && (w.next.Some? <==> (n + 1) * 200 <= |disk[h]|)
      && multiset(w.entries) ==
         multiset(ShownEntries(h.path, if (n + 1) * 200 <= |disk[h]| then disk[h][..(n + 1) * 200] else disk[h]))
  {
    var v := Run(disk, collate, events);
    LiveExactly(disk, collate, events);
    hide *;
    var asked := Next(v, disk, collate, HashChanged(Some(h)));
    GoneTo(v, disk, collate, h);
    var first := Next(asked, disk, collate, Answered(asked.counter, true));
    AnswerAdds(asked, disk, collate, h, 0);
    MoreAdds(first, disk, collate, h, n);
    var w := More(first, disk, collate, n);
    PagesAre(w, h, disk[h], n + 1);
  }

  lemma {:induction false} GoneTo(v: View, disk: Disk, collate: (string, string) -> bool, h: Place)
    requires v.live && HasRoot(v.roots, h.rootId) && h in disk
    ensures var w := Next(v, disk, collate, HashChanged(Some(h)));
      IsAt(w, h) && !w.failed && w.counter in w.requests && w.requests[w.counter] == Query(w.rootId, w.path, w.next)
      && w.next == None && ShowsPages(w, disk[h], 0)
  {
    RouteExactly(v, Some(h));
    hide Route, HasRoot;
    assert disk[h][..EndOfPages(disk[h], 0)] == [];
  }

  ghost predicate IsAt(v: View, h: Place) {
    v.live && v.rootId == Some(h.rootId) && v.path == h.path
  }

  lemma {:induction false} PagesAre(w: View, h: Place, folder: seq<Entry>, pages: nat)
    requires IsAt(w, h) && ShowsPages(w, folder, pages) && pages > 0
    ensures w.rootId == Some(h.rootId) && w.path == h.path
    ensures w.next.Some? <==> pages * 200 <= |folder|
    ensures multiset(w.entries) ==
      multiset(ShownEntries(w.path, if pages * 200 <= |folder| then folder[..pages * 200] else folder))
  {
    assert folder[..|folder|] == folder;
  }

  lemma {:induction false} AnswerAdds(v: View, disk: Disk, collate: (string, string) -> bool, h: Place, pages: nat)
    requires IsDisk(disk) && h in disk && IsAt(v, h) && !v.failed && v.counter in v.requests
    requires v.requests[v.counter] == Query(v.rootId, v.path, v.next)
    requires ShowsPages(v, disk[h], pages) && (v.next.None? ==> pages == 0)
    ensures var w := Next(v, disk, collate, Answered(v.counter, true));
      IsAt(w, h) && !w.loading && !w.failed && ShowsPages(w, disk[h], pages + 1)
  {
    var query := Query(v.rootId, v.path, v.next);
    NextLive(v, disk, collate, Answered(v.counter, true));
    LatestIsAnswered(v, disk, collate);
    hide Next, Answer, ShowsPages, Respond, SortEntries, IsDisk;
    LatestAdds(v, disk, collate, pages);
  }

  lemma {:induction false} LatestIsAnswered(v: View, disk: Disk, collate: (string, string) -> bool)
    requires v.counter in v.requests
    ensures Next(v, disk, collate, Answered(v.counter, true)) ==
      Answer(v, collate, v.counter, Respond(disk, v.requests[v.counter]))
  {
    hide Answer, Respond;
  }

  lemma {:induction false} MoreAdds(v: View, disk: Disk, collate: (string, string) -> bool, h: Place, n: nat)
    requires IsDisk(disk) && h in disk && IsAt(v, h) && !v.loading && !v.failed && ShowsPages(v, disk[h], 1)
    requires n * 200 <= |disk[h]|
    ensures var w := More(v, disk, collate, n);
      IsAt(w, h) && !w.loading && !w.failed && ShowsPages(w, disk[h], n + 1)
  {
    if n > 0 {
      MoreAdds(v, disk, collate, h, n - 1);
      hide IsDisk;
      var u := More(v, disk, collate, n - 1);
      var asked := Next(u, disk, collate, LoadMore);
      assert u.next.Some?;
      assert ShowsPages(asked, disk[h], n);
      hide More, Next, ShowsPages;
      AnswerAdds(asked, disk, collate, h, n);
    }
  }

  // --------------------------------------------------------------------------------- order

  /** No file before a folder, and two of one kind as the collator has them. */
  ghost predicate IsSorted(collate: (string, string) -> bool, r: seq<Entry>) {
    && (forall i, j :: 0 <= i < j < |r| && r[j].isFolder ==> r[i].isFolder)
    && (forall i, j :: 0 <= i < j < |r| && r[i].isFolder == r[j].isFolder ==> collate(r[i].name, r[j].name))
  }

  /** What is shown is in order at every moment of every run. */
  lemma {:induction false} RunInOrder(disk: Disk, collate: (string, string) -> bool, events: seq<Event>)
    requires CollatesTotally(collate)
    ensures IsSorted(collate, Run(disk, collate, events).entries)
  {
    if events != [] {
      RunInOrder(disk, collate, events[..|events| - 1]);
      hide CollatesTotally, Next, IsSorted;
      NextInOrder(Run(disk, collate, events[..|events| - 1]), disk, collate, events[|events| - 1]);
    }
  }

  lemma {:induction false} SortedIsSorted(collate: (string, string) -> bool, given: seq<Entry>)
    requires CollatesTotally(collate)
    ensures IsSorted(collate, SortEntries(collate, given))
  {
    hide SortEntries, CollatesTotally;
    SortedInOrder(collate, given);
  }

  lemma {:induction false} NextInOrder(v: View, disk: Disk, collate: (string, string) -> bool, e: Event)
    requires CollatesTotally(collate) && IsSorted(collate, v.entries)
    ensures IsSorted(collate, Next(v, disk, collate, e).entries)
  {
    hide CollatesTotally, Answer, SortEntries, Respond, IsKnown, PreferredRoot;
    if e.Answered? && e.mine in v.requests {
      var response := if e.ok then Respond(disk, v.requests[e.mine]) else None;
      AnswerUnfolded(v, collate, e.mine, response);
      if response.Some? {
        SortedIsSorted(collate, v.entries + response.value.entries);
      }
    }
  }
}
