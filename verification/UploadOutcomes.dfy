/** The page and the server together: what "done" means for the tree. */
module UploadOutcomes {
  import opened Options
  import opened Paths
  import opened FileTree
  import Requests
  import opened Uploads
  import opened UploadReplies
  import opened UploadSafety

  // ------------------------------------------------------------------------ on the page

  /** This event tells the page that the item was stored. */
  predicate TurnsDone(s: Page, e: Event, id: nat) {
    e.Reply? && e.id == id && AwaitsServer(s, id) && 200 <= e.status < 300
  }

  /** Items stay in place, one more is done for a 2xx, and new ones are not done. */
  ghost predicate DoneAdds(s: Page, s': Page, e: Event) {
    && |s.items| <= |s'.items|
    && (forall i :: 0 <= i < |s.items| ==>
          s'.items[i].id == s.items[i].id && s'.items[i].job == s.items[i].job
          && (s'.items[i].status.Done? <==> s.items[i].status.Done? || TurnsDone(s, e, s.items[i].id)))
    && (forall i :: |s.items| <= i < |s'.items| ==> !s'.items[i].status.Done? && s'.items[i].id > |s.queued|)
  }

  /** The queue going on makes nothing done. */
  lemma {:induction false} GoingOn(items: seq<Item>, sent: seq<Send>, s: Page)
    requires GoesOn(items, sent, s)
    ensures |s.items| == |items|
    ensures forall i :: 0 <= i < |items| ==>
      s.items[i].id == items[i].id && s.items[i].job == items[i].job
      && (s.items[i].status.Done? <==> items[i].status.Done?)
  {
    SomeFirstWaits(items);
    hide JoinPath;
  }

  lemma {:induction false} SettledAdds(s: Page, s': Page, n: nat, status: Status, e: Event)
    requires n < |s.items| && SettledAs(s, s', n, status) && !s.items[n].status.Done?
    requires forall i, j :: 0 <= i < j < |s.items| ==> s.items[i].id < s.items[j].id
    requires status.Done? <==> TurnsDone(s, e, s.items[n].id)
    requires forall id :: TurnsDone(s, e, id) ==> id == s.items[n].id
    ensures DoneAdds(s, s', e)
  {
    hide GoesOn;
    GoingOn(s.items[n := Item(s.items[n].id, s.items[n].job, status)], s.sent, s');
  }

  /** Where an item in flight stands in the list. */
  lemma {:induction false} PlaceInList(s: Page, id: nat) returns (n: nat)
    requires Inv(s) && id in s.inFlight
    ensures n < |s.items| && s.items[n].id == id && !s.items[n].status.Done?
    ensures forall i, j :: 0 <= i < j < |s.items| ==> s.items[i].id < s.items[j].id
  {
    hide SentWhereQueued, SentInOrder, WaitingUnsent, FlightIsLast;
    n :| 0 <= n < |s.items| && s.items[n].id == id;
  }

  lemma {:induction false} SameAdds(s: Page, s': Page, e: Event)
    requires s'.items == s.items && forall id :: !TurnsDone(s, e, id)
    ensures DoneAdds(s, s', e)
  {
  }

  lemma {:induction false} ReplyAdds(s: Page, e: Event)
    requires Inv(s) && e.Reply?
    ensures DoneAdds(s, Next(s, e), e)
  {
    if AwaitsServer(s, e.id) {
      var n := PlaceInList(s, e.id);
      hide Inv, Next, SettledAs, DoneAdds;
      if !IsConflict(s, e.id, e.status, e.code) {
        ReplyExactly(s, n, e.status, e.code);
        SettledAdds(s, Next(s, e), n, if 200 <= e.status < 300 then Done else Failed, e);
      } else {
        ConflictExactly(s, n);
        if s.policy == Some(SkipIt) {
          SettledAdds(s, Next(s, e), n, Skipped, e);
        } else {
          assert s.policy == Some(ReplaceIt) || s.policy == None;
          SameAdds(s, Next(s, e), e);
        }
      }
    } else {
      OtherEventsExactly(s, e);
      hide Inv, Next;
      SameAdds(s, Next(s, e), e);
    }
  }

  lemma {:induction false} AnswerAdds(s: Page, e: Event)
    requires Inv(s) && e.Answer?
    ensures DoneAdds(s, Next(s, e), e)
  {
    if UploadChoices.Asked(s, e.id) {
      var n := PlaceInList(s, e.id);
      AnswerExactly(s, n, e.choice, e.forAll);
      hide Inv, Next, SettledAs, DoneAdds;
      if e.choice == Some(ReplaceIt) {
        SameAdds(s, Next(s, e), e);
      } else {
        SettledAdds(s, Next(s, e), n, Skipped, e);
      }
    } else {
      OtherEventsExactly(s, e);
      hide Inv, Next;
      SameAdds(s, Next(s, e), e);
    }
  }

  lemma {:induction false} QueueAdds(s: Page, e: Event)
    requires Inv(s) && e.Queue?
    ensures DoneAdds(s, Next(s, e), e)
  {
    var s' := Next(s, e);
    QueueExactly(s, e.jobs, e.writable);
    assert s.nextId == |s.queued| + 1;
    hide Inv, Next, GoesOn, Appended, DoneAdds;
    if e.jobs != [] && e.writable {
      var items: seq<Item> :| Appended(s.items, e.jobs, s.nextId, items)
        && QueuedOn(s, s', items);
      if !s.running {
        GoingOn(items, s.sent, s');
      }
      AppendedAdds(s, s', e, items);
    } else {
      SameAdds(s, s', e);
    }
  }

  lemma {:induction false} AppendedAdds(s: Page, s': Page, e: Event, items: seq<Item>)
    requires e.Queue? && Appended(s.items, e.jobs, |s.queued| + 1, items) && |s'.items| == |items|
    requires forall i :: 0 <= i < |items| ==>
      s'.items[i].id == items[i].id && s'.items[i].job == items[i].job
      && (s'.items[i].status.Done? <==> items[i].status.Done?)
    ensures DoneAdds(s, s', e)
  {
    var n := |s.items|;
    forall i | 0 <= i < n
      ensures items[i] == s.items[i]
    {
      assert items[..n][i] == items[i];
    }
    forall i | n <= i < |items|
      ensures items[i].id > |s.queued| && !items[i].status.Done?
    {
      assert items[n + (i - n)] == Item(|s.queued| + 1 + (i - n), e.jobs[i - n], Waiting);
    }
  }

  /** Of every event: a 2xx for an item makes that item done, and nothing else does. */
  lemma {:induction false} DoneStep(s: Page, e: Event)
    requires Inv(s)
    ensures DoneAdds(s, Next(s, e), e) || Next(s, e).items == []
  {
    match e {
      case Reply(_, _, _) => ReplyAdds(s, e);
      case Answer(_, _, _) => AnswerAdds(s, e);
      case Queue(_, _) => QueueAdds(s, e);
      case _ =>
        OtherEventsExactly(s, e);
        hide Inv, Next, Rests;
    }
  }

  // ---------------------------------------------------------------------- on the server

  /** A request carries the file its item was queued with, and only one for the phone's own storage
      gets as far as its body. */
  ghost predicate BodyFits(page: Page, o: Open) {
    && 1 <= o.send.id <= |page.queued| && o.body == page.queued[o.send.id - 1].data
    && (o.stage.Receiving? ==> o.send.rootId == "phone")
  }

  ghost predicate BodiesFit(page: Page, open: map<nat, Open>) {
    forall k :: k in open ==> BodyFits(page, open[k])
  }

  lemma {:induction false} SentFits(page: Page, n: nat, k: nat)
    requires forall k :: n <= k < |page.sent| ==> 1 <= page.sent[k].id <= |page.queued|
    requires k in SentSince(page, n)
    ensures BodyFits(page, SentSince(page, n)[k])
  {
  }

  lemma {:induction false} StillFits(page: Page, page': Page, o: Open)
    requires BodyFits(page, o) && page.queued <= page'.queued
    ensures BodyFits(page', o)
  {
  }

  lemma {:induction false} ConnectBodies(s: System, page: Page)
    requires BodiesFit(s.page, s.open) && s.page.queued <= page.queued
    requires forall k :: |s.page.sent| <= k < |page.sent| ==> 1 <= page.sent[k].id <= |page.queued|
    ensures Connect(s, page).page == page && BodiesFit(page, Connect(s, page).open)
  {
    hide BodyFits, SentSince;
    var open := Connect(s, page).open;
    forall k | k in open
      ensures BodyFits(page, open[k])
    {
      if k in SentSince(page, |s.page.sent|) {
        SentFits(page, |s.page.sent|, k);
      } else {
        StillFits(s.page, page, s.open[k]);
      }
    }
  }

  lemma {:induction false} TellBodies(s: System, e: Event)
    requires Inv(s.page) && Inv(Next(s.page, e)) && BodiesFit(s.page, s.open)
    ensures var s' := Connect(s, Next(s.page, e)); BodiesFit(s'.page, s'.open)
  {
    NextSends(s.page, e);
    SendsAreQueued(Next(s.page, e));
    hide Inv, Next, BodiesFit, Connect;
    ConnectBodies(s, Next(s.page, e));
  }

  lemma {:induction false} DeliverBodies(s: System, k: nat, status: nat, code: string)
    requires Inv(s.page) && k < |s.page.sent| && BodiesFit(s.page, s.open)
    ensures BodiesFit(Deliver(s, k, status, code).page, Deliver(s, k, status, code).open)
  {
    var e := Reply(s.page.sent[k].id, status, code);
    NextKeeps(s.page, e);
    hide Inv, Next, Connect, BodyFits;
    assert BodiesFit(s.page, s.open - {k});
    hide BodiesFit;
    TellBodies(s.(open := s.open - {k}), e);
  }

  lemma {:induction false} AdmitBodies(s: System, k: nat)
    requires k in s.open && BodiesFit(s.page, s.open) && Look(s.tree, s.open[k].send).Admit?
    ensures BodiesFit(s.page, s.open[k := s.open[k].(stage := Receiving(Look(s.tree, s.open[k].send).path))])
  {
    hide ParsePath, ParentOf;
  }

  lemma {:induction false} AfterBodies(s: System, step: Step)
    requires Inv(s.page) && BodiesFit(s.page, s.open)
    ensures BodiesFit(After(s, step).page, After(s, step).open)
  {
    hide Inv, Next, Look, Connect, BodiesFit, Deliver;
    if Enabled(s, step) {
      match step {
        case User(e) =>
          NextKeeps(s.page, e);
          TellBodies(s, e);
        case Check(k) =>
          var look := Look(s.tree, s.open[k].send);
          if look.Reject? && look.reply.Refused? {
            DeliverBodies(s, k, look.reply.status, look.reply.code);
          } else if look.Admit? {
            AdmitBodies(s, k);
          }
        case Unauthorized(k) =>
          DeliverBodies(s, k, 401, "unauthorized");
        case Write(k) =>
          var path := s.open[k].stage.path;
          DeliverBodies(s.(tree := Requests.PutStore(s.tree, path, s.open[k].body)), k,
                        if path in s.tree then 200 else 201, "");
        case Fail(k, fate) =>
          var tree := if fate == Written then Requests.PutStore(s.tree, s.open[k].stage.path, s.open[k].body)
            else s.tree;
          var orphans := if fate == Lingering then s.orphans + [s.open[k]] else s.orphans;
          DeliverBodies(s.(tree := tree, orphans := orphans), k, 0, "network");
        case OrphanMoves(i) =>
        case OrphanDies(i) =>
      }
    }
  }

  lemma {:induction false} StateBodies(tree: FlatTree, steps: seq<Step>)
    ensures BodiesFit(State(tree, steps).page, State(tree, steps).open)
  {
    hide Inv, After;
    if steps != [] {
      hide BodiesFit;
      StateBodies(tree, steps[..|steps| - 1]);
      AfterBodies(State(tree, steps[..|steps| - 1]), steps[|steps| - 1]);
    }
  }

  // -------------------------------------------------------------------------- both together

  /** The server stores the body of this item's request, and its answer reaches the page. */
  predicate StoresItem(s: System, step: Step, id: nat) {
    step.Write? && Enabled(s, step) && s.open[step.k].send.id == id
  }

  lemma {:induction false} LookRefuses(tree: FlatTree, send: Send)
    ensures Look(tree, send).Admit? || (Look(tree, send).reply.Refused? && Look(tree, send).reply.status >= 400)
  {
    hide ParsePath, ParentOf;
  }

  /** The page hears a 2xx exactly when the server has stored the body. */
  lemma {:induction false} ToldExactly(s: System, step: Step, id: nat)
    requires Plausible(s)
    ensures StoresItem(s, step, id) <==>
      EventsOf(s, step) != [] && TurnsDone(s.page, EventsOf(s, step)[0], id)
  {
    if step.Check? && Enabled(s, step) {
      LookRefuses(s.tree, s.open[step.k].send);
    }
    hide Inv, OrphansFit, ParsePath, Look;
  }

  /** The tree has the file the job is about, at the path it was queued for, and is else as before. */
  predicate StoredAs(job: Job, before: FlatTree, after: FlatTree) {
    && job.rootId == "phone"
    && var path := ParsePath(JoinPath(job.dir, job.name));
       path.Ok? && after == before[path.path := File(job.data)]
  }

  /** Step `n` stored the item with its own bytes at the path it was queued for, changed nothing
      else, and told the page so. */
  ghost predicate Stored(tree: FlatTree, steps: seq<Step>, n: nat, id: nat, job: Job) {
    && n < |steps| && StoresItem(State(tree, steps[..n]), steps[n], id)
    && id <= |State(tree, steps[..n]).page.queued|
    && StoredAs(job, State(tree, steps[..n]).tree, State(tree, steps[..n + 1]).tree)
  }

  lemma {:induction false} WhatIsStored(s: System, k: nat)
    requires Plausible(s) && BodiesFit(s.page, s.open) && Enabled(s, Write(k))
    ensures var o := s.open[k];
      1 <= o.send.id <= |s.page.queued|
      && StoredAs(s.page.queued[o.send.id - 1], s.tree, After(s, Write(k)).tree)
  {
    var o := s.open[k];
    PlausibleInv(s);
    TreeAfter(s, Write(k));
    RequestIs(s, k);
    SendsAreQueued(s.page);
    SentIs(s.page, k);
    hide Plausible, Inv, After, ParsePath, JoinPath, Next, BodiesFit;
    assert BodyFits(s.page, o) by {
      assert BodiesFit(s.page, s.open);
    }
  }

  lemma {:induction false} RequestIs(s: System, k: nat)
    requires Plausible(s) && k in s.open && k < |s.page.sent|
    ensures s.open[k].send == s.page.sent[k]
    ensures s.open[k].stage.Receiving? ==> ParsePath(s.open[k].send.path) == Ok(s.open[k].stage.path)
  {
    hide Inv, ParsePath, AwaitsServer, OrphansFit;
  }

  lemma {:induction false} SentIs(page: Page, k: nat)
    requires Inv(page) && k < |page.sent|
    ensures var send := page.sent[k];
      1 <= send.id <= |page.queued|
      && send.rootId == page.queued[send.id - 1].rootId
      && send.path == JoinPath(page.queued[send.id - 1].dir, page.queued[send.id - 1].name)
  {
    hide ItemsInOrder, OneInFlight, SentInOrder, WaitingUnsent, FlightIsLast, JoinPath;
  }

  lemma {:induction false} ItemIsQueued(page: Page, i: nat)
    requires Inv(page) && i < |page.items|
    ensures 1 <= page.items[i].id <= |page.queued| && page.items[i].job == page.queued[page.items[i].id - 1]
  {
    hide OneInFlight, SentWhereQueued, SentInOrder, WaitingUnsent, FlightIsLast;
  }

  lemma {:induction false} StoredNow(tree: FlatTree, steps: seq<Step>, id: nat, job: Job)
    requires steps != [] && StoresItem(State(tree, steps[..|steps| - 1]), steps[|steps| - 1], id)
    requires id <= |State(tree, steps[..|steps| - 1]).page.queued|
    requires StoredAs(job, State(tree, steps[..|steps| - 1]).tree, State(tree, steps).tree)
    ensures Stored(tree, steps, |steps| - 1, id, job)
  {
    hide StoresItem, State, StoredAs;
    assert steps[..|steps|] == steps;
  }

  /** What the last step stored, for an item still in the list. */
  lemma {:induction false} StoredLast(tree: FlatTree, steps: seq<Step>, i: nat)
    requires steps != []
    requires var before := State(tree, steps[..|steps| - 1]);
      i < |before.page.items| && StoresItem(before, steps[|steps| - 1], before.page.items[i].id)
    ensures var item := State(tree, steps[..|steps| - 1]).page.items[i];
      Stored(tree, steps, |steps| - 1, item.id, item.job)
  {
    StateIsPlausible(tree, steps[..|steps| - 1]);
    StateBodies(tree, steps[..|steps| - 1]);
    LastState(tree, steps);
    hide *;
    StepStores(State(tree, steps[..|steps| - 1]), steps[|steps| - 1], i);
    var item := State(tree, steps[..|steps| - 1]).page.items[i];
    StoredNow(tree, steps, item.id, item.job);
  }

  lemma {:induction false} StepStores(s: System, step: Step, i: nat)
    requires Plausible(s) && Inv(s.page) && BodiesFit(s.page, s.open)
    requires i < |s.page.items| && StoresItem(s, step, s.page.items[i].id)
    ensures s.page.items[i].id <= |s.page.queued|
    ensures StoredAs(s.page.items[i].job, s.tree, After(s, step).tree)
  {
    hide *;
    var item := s.page.items[i];
    StoringIsWriting(s, step, item.id);
    ItemIsQueued(s.page, i);
    WhatIsStored(s, step.k);
    assert s.open[step.k].send.id == item.id;
  }

  lemma {:induction false} StoringIsWriting(s: System, step: Step, id: nat)
    requires StoresItem(s, step, id)
    ensures step.Write? && step == Write(step.k) && Enabled(s, Write(step.k)) && s.open[step.k].send.id == id
  {
  }

  /** The queue goes on with a request, or waits for nobody. */
  lemma {:induction false} GoingOnSends(items: seq<Item>, sent: seq<Send>, s: Page)
    requires GoesOn(items, sent, s)
    ensures s.sent != sent || s.inFlight == map[]
  {
    SomeFirstWaits(items);
    hide JoinPath;
  }

  lemma {:induction false} OneOnly(s: Page, a: nat, b: nat)
    requires Inv(s)
    ensures a in s.inFlight && b in s.inFlight ==> a == b
  {
    hide ItemsInOrder, SentWhereQueued, SentInOrder, WaitingUnsent, FlightIsLast;
  }

  lemma {:induction false} WaitsAfterReply(s: Page, e: Event, id: nat)
    requires Inv(s) && e.Reply? && AwaitsServer(s, e.id) && Next(s, e).sent == s.sent
    ensures !AwaitsServer(Next(s, e), id)
  {
    var s' := Next(s, e);
    var n := PlaceInList(s, e.id);
    NextKeeps(s, e);
    hide Inv, Next, GoesOn;
    OneOnly(s', e.id, id);
    if IsConflict(s, e.id, e.status, e.code) {
      ConflictExactly(s, n);
      if s.policy == Some(SkipIt) {
        GoingOnSends(s.items[n := Item(e.id, s.items[n].job, Skipped)], s.sent, s');
      }
    } else {
      ReplyExactly(s, n, e.status, e.code);
      var status := if 200 <= e.status < 300 then Done else Failed;
      GoingOnSends(s.items[n := Item(e.id, s.items[n].job, status)], s.sent, s');
    }
  }

  lemma {:induction false} WaitsAfterAnswer(s: Page, e: Event, id: nat)
    requires Inv(s) && e.Answer? && UploadChoices.Asked(s, e.id) && Next(s, e).sent == s.sent
    ensures !AwaitsServer(Next(s, e), id)
  {
    var n := PlaceInList(s, e.id);
    hide Inv, Next, GoesOn;
    AnswerExactly(s, n, e.choice, e.forAll);
    if e.choice != Some(ReplaceIt) {
      GoingOnSends(s.items[n := Item(e.id, s.items[n].job, Skipped)], s.sent, Next(s, e));
    }
  }

  /** Who is waited for without a new request was waited for before, and has not just replied. */
  lemma {:induction false} WaitsAsBefore(s: Page, e: Event, id: nat)
    requires Inv(s) && AwaitsServer(Next(s, e), id) && Next(s, e).sent == s.sent
    ensures AwaitsServer(s, id) && !(e.Reply? && e.id == id)
  {
    if e.Reply? && AwaitsServer(s, e.id) {
      WaitsAfterReply(s, e, id);
      assert false;
    } else if e.Answer? && UploadChoices.Asked(s, e.id) {
      WaitsAfterAnswer(s, e, id);
      assert false;
    } else if e.Queue? {
      QueueExactly(s, e.jobs, e.writable);
      hide Inv, Next, GoesOn;
      if e.jobs != [] && e.writable {
        var items: seq<Item> :| QueuedOn(s, Next(s, e), items);
        if !s.running {
          GoingOnSends(items, s.sent, Next(s, e));
        }
      }
    } else {
      OtherEventsExactly(s, e);
      hide Inv, Next, Rests;
    }
  }

  /** Whoever the page waits for, the request is on its way or with the server. */
  ghost predicate AwaitedAreOpen(page: Page, open: map<nat, Open>) {
    forall id :: AwaitsServer(page, id) ==> IsOpen(page, open)
  }

  predicate IsOpen(page: Page, open: map<nat, Open>) {
    page.sent != [] && |page.sent| - 1 in open
  }

  lemma {:induction false} ConnectOpens(s: System, page: Page)
    requires forall k :: |s.page.sent| <= k < |page.sent| ==> 1 <= page.sent[k].id <= |page.queued|
    requires |page.sent| == |s.page.sent| + 1 || (page.sent == s.page.sent && IsOpen(s.page, s.open))
    ensures Connect(s, page).page == page && IsOpen(page, Connect(s, page).open)
  {
    if |page.sent| == |s.page.sent| + 1 {
      assert |s.page.sent| in SentSince(page, |s.page.sent|);
    }
  }

  lemma {:induction false} TellOpens(s: System, e: Event)
    requires Inv(s.page) && Inv(Next(s.page, e))
    requires forall id :: AwaitsServer(s.page, id) && !(e.Reply? && e.id == id) ==> IsOpen(s.page, s.open)
    ensures var s' := Connect(s, Next(s.page, e));
      s'.page == Next(s.page, e) && AwaitedAreOpen(s'.page, s'.open)
  {
    NextSends(s.page, e);
    SendsAreQueued(Next(s.page, e));
    ConnectsPage(s, Next(s.page, e));
    hide Inv, Next, Connect, AwaitsServer, IsOpen;
    forall id | AwaitsServer(Next(s.page, e), id)
      ensures IsOpen(Next(s.page, e), Connect(s, Next(s.page, e)).open)
    {
      if Next(s.page, e).sent == s.page.sent {
        WaitsAsBefore(s.page, e, id);
      }
      ConnectOpens(s, Next(s.page, e));
    }
  }

  lemma {:induction false} ConnectsPage(s: System, page: Page)
    requires forall k :: |s.page.sent| <= k < |page.sent| ==> 1 <= page.sent[k].id <= |page.queued|
    ensures Connect(s, page).page == page
  {
  }

  lemma {:induction false} DeliverOpens(s: System, k: nat, status: nat, code: string)
    requires Plausible(s) && Inv(s.page) && k in s.open && k < |s.page.sent|
    ensures AwaitedAreOpen(Deliver(s, k, status, code).page, Deliver(s, k, status, code).open)
  {
    var e := Reply(s.page.sent[k].id, status, code);
    NextKeeps(s.page, e);
    RepliesToAwaited(s, k);
    hide Inv, Plausible, Next, Connect, IsOpen, AwaitedAreOpen;
    forall id | AwaitsServer(s.page, id)
      ensures id == e.id
    {
      OneOnly(s.page, id, e.id);
    }
    TellOpens(s.(open := s.open - {k}), e);
  }

  lemma {:induction false} RepliesToAwaited(s: System, k: nat)
    requires Plausible(s) && k in s.open && k < |s.page.sent|
    ensures AwaitsServer(s.page, s.page.sent[k].id)
  {
    hide Inv, ParsePath, OrphansFit;
  }

  lemma {:induction false} AfterOpens(s: System, step: Step)
    requires Plausible(s) && Inv(s.page) && AwaitedAreOpen(s.page, s.open)
    ensures AwaitedAreOpen(After(s, step).page, After(s, step).open)
  {
    hide Inv, Next, Look, Connect, Deliver, Plausible, AwaitsServer;
    if Enabled(s, step) {
      match step {
        case User(e) =>
          NextKeeps(s.page, e);
          TellOpens(s, e);
        case Check(k) =>
          var look := Look(s.tree, s.open[k].send);
          if look.Reject? && look.reply.Refused? {
            DeliverOpens(s, k, look.reply.status, look.reply.code);
          }
        case Unauthorized(k) =>
          DeliverOpens(s, k, 401, "unauthorized");
        case Write(k) =>
          var path := s.open[k].stage.path;
          var tree := Requests.PutStore(s.tree, path, s.open[k].body);
          TreeDoesNotMatter(s, tree);
          DeliverOpens(s.(tree := tree), k, if path in s.tree then 200 else 201, "");
        case Fail(k, fate) =>
          var tree := if fate == Written then Requests.PutStore(s.tree, s.open[k].stage.path, s.open[k].body)
            else s.tree;
          var orphans := if fate == Lingering then s.orphans + [s.open[k]] else s.orphans;
          GivenUpIsPlausible(s, k, tree, orphans);
          DeliverOpens(s.(tree := tree, orphans := orphans), k, 0, "network");
        case OrphanMoves(i) =>
        case OrphanDies(i) =>
      }
    }
  }

  lemma {:induction false} GivenUpIsPlausible(s: System, k: nat, tree: FlatTree, orphans: seq<Open>)
    requires Plausible(s) && k in s.open && k < |s.page.sent|
    requires orphans == s.orphans || orphans == s.orphans + [s.open[k]]
    ensures Plausible(s.(tree := tree, orphans := orphans))
  {
    GivenUpFits(s, k);
    hide Inv, OpenFits, OrphansFit;
  }

  /** Over every run the page never waits in vain: the request it waits for is there to be answered. */
  lemma {:induction false} AwaitedIsOpen(tree: FlatTree, steps: seq<Step>, id: nat)
    requires AwaitsServer(State(tree, steps).page, id)
    ensures var s := State(tree, steps);
      IsOpen(s.page, s.open) && s.open[|s.page.sent| - 1].send.id == id
  {
    OpenInRun(tree, steps);
    StateIsPlausible(tree, steps);
    StateInv(tree, steps);
    var s := State(tree, steps);
    hide State, Inv, Plausible, AwaitsServer;
    LastIsAwaited(s);
    OneOnly(s.page, id, s.open[|s.page.sent| - 1].send.id);
    AwaitedFlies(s.page, id);
    AwaitedFlies(s.page, s.open[|s.page.sent| - 1].send.id);
  }

  lemma {:induction false} AwaitedFlies(page: Page, id: nat)
    requires AwaitsServer(page, id)
    ensures id in page.inFlight
  {
  }

  lemma {:induction false} LastIsAwaited(s: System)
    requires Plausible(s) && IsOpen(s.page, s.open)
    ensures AwaitsServer(s.page, s.open[|s.page.sent| - 1].send.id)
  {
    hide Inv, ParsePath, OrphansFit;
  }

  lemma {:induction false} OpenInRun(tree: FlatTree, steps: seq<Step>)
    ensures AwaitedAreOpen(State(tree, steps).page, State(tree, steps).open)
  {
    if steps != [] {
      OpenInRun(tree, steps[..|steps| - 1]);
      StateIsPlausible(tree, steps[..|steps| - 1]);
      StateInv(tree, steps[..|steps| - 1]);
      LastState(tree, steps);
      hide *;
      AfterOpens(State(tree, steps[..|steps| - 1]), steps[|steps| - 1]);
    } else {
      hide Inv;
    }
  }

  /** The server would take this request now: a folder above, and at its place nothing, or a file
      that it may overwrite. */
  predicate Takes(tree: FlatTree, send: Send) {
    && send.rootId == "phone"
    && var p := ParsePath(send.path);
       && p.Ok? && p.path != "/" && IsDir(tree, ParentOf(p.path))
       && (p.path in tree ==> tree[p.path].File? && send.overwrite)
  }

  /** A request that the server would take, and that nothing disturbs, is stored and shown as done. */
  lemma {:induction false} UndisturbedIsDone(s: System, k: nat, i: nat)
    requires Plausible(s) && Inv(s.page) && BodiesFit(s.page, s.open) && Enabled(s, Check(k))
    requires i < |s.page.items| && s.page.items[i].id == s.open[k].send.id && Takes(s.tree, s.open[k].send)
    ensures var looked := After(s, Check(k));
      Inv(looked.page)
      && var written := After(looked, Write(k));
         && StoredAs(s.page.items[i].job, s.tree, written.tree)
         && i < |written.page.items| && written.page.items[i].status.Done?
  {
    var looked := After(s, Check(k));
    LooksAndTakes(s, k);
    AfterIsPlausible(s, Check(k));
    AfterBodies(s, Check(k));
    hide *;
    PlausibleInv(looked);
    StepStores(looked, Write(k), i);
    WrittenIsDone(looked, k, i);
  }

  lemma {:induction false} LooksAndTakes(s: System, k: nat)
    requires Plausible(s) && Inv(s.page) && Enabled(s, Check(k)) && Takes(s.tree, s.open[k].send)
    ensures var looked := After(s, Check(k));
      looked.page == s.page && looked.tree == s.tree
      && Enabled(looked, Write(k)) && looked.open[k].send == s.open[k].send
      && StoresItem(looked, Write(k), s.open[k].send.id)
  {
    hide Inv, Plausible, ParsePath, ParentOf, IsDir, Next, Connect;
  }

  lemma {:induction false} WrittenIsDone(s: System, k: nat, i: nat)
    requires Plausible(s) && Inv(s.page) && i < |s.page.items| && StoresItem(s, Write(k), s.page.items[i].id)
    ensures i < |After(s, Write(k)).page.items| && After(s, Write(k)).page.items[i].status.Done?
  {
    PageAfter(s, Write(k));
    ToldExactly(s, Write(k), s.page.items[i].id);
    var events := EventsOf(s, Write(k));
    hide Plausible, Inv, Next, After, EventsOf, StoresItem;
    ReplyAdds(s.page, events[0]);
  }

  lemma {:induction false} QueuedStays(s: System, step: Step)
    requires Inv(s.page)
    ensures |s.page.queued| <= |After(s, step).page.queued|
  {
    PageAfter(s, step);
    var events := EventsOf(s, step);
    hide Inv, After, Next, EventsOf;
    if events != [] {
      NextSends(s.page, events[0]);
    }
  }

  lemma {:induction false} StoredBefore(tree: FlatTree, steps: seq<Step>, n: nat, id: nat, job: Job)
    requires Stored(tree, steps, n, id, job) && n < |steps| - 1
    ensures Stored(tree, steps[..|steps| - 1], n, id, job)
  {
    hide StoresItem, State, StoredAs;
    var front := steps[..|steps| - 1];
    assert front[..n] == steps[..n];
    assert front[..n + 1] == steps[..n + 1];
  }

  lemma {:induction false} StoredIsQueued(tree: FlatTree, steps: seq<Step>, n: nat, id: nat, job: Job)
    requires Stored(tree, steps, n, id, job)
    ensures id <= |State(tree, steps).page.queued|
  {
    StoredWhen(tree, steps, n, id, job);
    LastState(tree, steps);
    StateInv(tree, steps[..|steps| - 1]);
    hide *;
    QueuedStays(State(tree, steps[..|steps| - 1]), steps[|steps| - 1]);
    if n < |steps| - 1 {
      StoredBefore(tree, steps, n, id, job);
      StoredIsQueued(tree, steps[..|steps| - 1], n, id, job);
    }
  }

  lemma {:induction false} StateInv(tree: FlatTree, steps: seq<Step>)
    ensures Inv(State(tree, steps).page)
  {
    hide Inv;
  }

  lemma {:induction false} LastState(tree: FlatTree, steps: seq<Step>)
    requires steps != []
    ensures State(tree, steps) == After(State(tree, steps[..|steps| - 1]), steps[|steps| - 1])
  {
    hide Inv, After;
  }

  lemma {:induction false} StillStored(tree: FlatTree, steps: seq<Step>, n: nat, id: nat, job: Job)
    requires steps != [] && Stored(tree, steps[..|steps| - 1], n, id, job)
    ensures Stored(tree, steps, n, id, job)
  {
    hide StoresItem, StoredAs, State;
    var front := steps[..|steps| - 1];
    assert front[..n] == steps[..n] && front[..n + 1] == steps[..n + 1];
  }

  /** Over every run, whatever lingers, fails or is cleared meanwhile: an item is shown as done
      exactly if the server stored it, with its own bytes, at its own path, and said so. */
  lemma {:induction false} DoneExactly(tree: FlatTree, steps: seq<Step>, i: nat)
    requires i < |State(tree, steps).page.items|
    ensures var item := State(tree, steps).page.items[i];
      item.status.Done? <==> exists n: nat :: Stored(tree, steps, n, item.id, item.job)
    decreases |steps|, 2
  {
    if steps != [] {
      hide *;
      DoneAfter(tree, steps, i);
    }
  }

  /** How the last step came to this item: it was there before and kept its state, or turned done,
      or it is new. */
  lemma {:induction false} ItemBefore(s: System, step: Step, i: nat)
    requires Plausible(s) && Inv(s.page) && i < |After(s, step).page.items|
    ensures var item := After(s, step).page.items[i];
      if i < |s.page.items| then
        s.page.items[i].id == item.id && s.page.items[i].job == item.job
        && (item.status.Done? <==> s.page.items[i].status.Done? || StoresItem(s, step, item.id))
      else !item.status.Done? && item.id > |s.page.queued|
  {
    var events := EventsOf(s, step);
    PageAfter(s, step);
    ToldExactly(s, step, After(s, step).page.items[i].id);
    hide Plausible, Inv, Next, After, EventsOf, StoresItem, TurnsDone;
    if events != [] {
      DoneStep(s.page, events[0]);
    }
  }

  lemma {:induction false} DoneAfter(tree: FlatTree, steps: seq<Step>, i: nat)
    requires steps != [] && i < |State(tree, steps).page.items|
    ensures var item := State(tree, steps).page.items[i];
      item.status.Done? <==> exists n: nat :: Stored(tree, steps, n, item.id, item.job)
    decreases |steps|, 1
  {
    var front := steps[..|steps| - 1];
    var item := State(tree, steps).page.items[i];
    hide *;
    LastItem(tree, steps, i);
    if item.status.Done? {
      if State(tree, front).page.items[i].status.Done? {
        DoneExactly(tree, front, i);
        var n: nat :| Stored(tree, front, n, item.id, item.job);
        StillStored(tree, steps, n, item.id, item.job);
      } else {
        StoredLast(tree, steps, i);
      }
    }
    if n: nat :| Stored(tree, steps, n, item.id, item.job) {
      StoredMakesDone(tree, steps, i, n);
    }
  }

  lemma {:induction false} StoredMakesDone(tree: FlatTree, steps: seq<Step>, i: nat, n: nat)
    requires steps != [] && i < |State(tree, steps).page.items|
    requires Stored(tree, steps, n, State(tree, steps).page.items[i].id, State(tree, steps).page.items[i].job)
    ensures State(tree, steps).page.items[i].status.Done?
    decreases |steps|, 0
  {
    var item := State(tree, steps).page.items[i];
    hide *;
    StoredWhen(tree, steps, n, item.id, item.job);
    LastItem(tree, steps, i);
    if n < |steps| - 1 {
      var front := steps[..|steps| - 1];
      StoredBefore(tree, steps, n, item.id, item.job);
      StoredIsQueued(tree, front, n, item.id, item.job);
      DoneExactly(tree, front, i);
      assert Stored(tree, front, n, item.id, item.job);
    }
  }

  lemma {:induction false} LastItem(tree: FlatTree, steps: seq<Step>, i: nat)
    requires steps != [] && i < |State(tree, steps).page.items|
    ensures var before, item := State(tree, steps[..|steps| - 1]), State(tree, steps).page.items[i];
      if i < |before.page.items| then
        before.page.items[i].id == item.id && before.page.items[i].job == item.job
        && (item.status.Done? <==> before.page.items[i].status.Done? || StoresItem(before, steps[|steps| - 1], item.id))
      else !item.status.Done? && item.id > |before.page.queued|
  {
    LastState(tree, steps);
    StateIsPlausible(tree, steps[..|steps| - 1]);
    StateInv(tree, steps[..|steps| - 1]);
    hide *;
    ItemBefore(State(tree, steps[..|steps| - 1]), steps[|steps| - 1], i);
  }

  lemma {:induction false} StoredWhen(tree: FlatTree, steps: seq<Step>, n: nat, id: nat, job: Job)
    requires Stored(tree, steps, n, id, job)
    ensures n < |steps|
    ensures n == |steps| - 1 ==>
      var before := State(tree, steps[..|steps| - 1]);
      StoresItem(before, steps[|steps| - 1], id) && id <= |before.page.queued|
  {
    hide StoresItem, State, StoredAs;
  }
}
