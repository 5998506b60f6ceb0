/** The page's upload queue: one item after another, a question when a file is already
    there, an answer that may hold for the rest of the run, and a session that can end at
    any moment. Every callback of the browser is one step. */
module Uploads {
  import opened Options
  import opened Paths
  import opened FileTree

  datatype Choice = SkipIt | ReplaceIt

  datatype Status = Waiting | Uploading | Done | Skipped | Failed

  /** A file and where it was to go when it was queued. */
  datatype Job = Job(name: string, data: Bytes, rootId: string, dir: string)

  datatype Item = Item(id: nat, job: Job, status: Status)

  /** What an item in flight is waiting for. */
  datatype Waits = PlainReply | Decision | OverwriteReply

  /** A started upload: its own item, and what it is waiting for. */
  datatype Flight = Flight(job: Job, waits: Waits)

  /** One PUT request. */
  datatype Send = Send(id: nat, rootId: string, path: string, overwrite: bool)

  /** `queued`, `sent` and `replaced` are history: every job ever queued (number `id - 1`
      for item `id`), every request ever made, and the items for which Replace was chosen. */
  datatype Page = Page(
    items: seq<Item>,
    running: bool,
    policy: Option<Choice>,
    nextId: nat,
    signedIn: bool,
    inFlight: map<nat, Flight>,
    queued: seq<Job>,
    sent: seq<Send>,
    replaced: set<nat>)

  datatype Event =
    | Queue(jobs: seq<Job>, writable: bool)
    | Reply(id: nat, status: nat, code: string)
    | Answer(id: nat, choice: Option<Choice>, forAll: bool)
    | EndSession
    | SignIn
    | Clear

  const FRESH := Page([], false, None, 1, false, map[], [], [], {})

  function FirstWaiting(items: seq<Item>): (r: Option<nat>)
    ensures r.Some? ==> r.value < |items| && items[r.value].status.Waiting?
    ensures r.Some? ==> forall i :: 0 <= i < r.value ==> !items[i].status.Waiting?
    ensures r.None? ==> forall i :: 0 <= i < |items| ==> !items[i].status.Waiting?
  {
    if items == [] then None
    else if items[0].status.Waiting? then Some(0)
    else
      match FirstWaiting(items[1..])
      case None => None
      case Some(i) => Some(i + 1)
  }

  function SetStatus(items: seq<Item>, id: nat, status: Status): (r: seq<Item>)
    ensures |r| == |items|
  {
    seq(|items|, i requires 0 <= i < |items| =>
      if items[i].id == id then items[i].(status := status) else items[i])
  }

  function Numbered(jobs: seq<Job>, from: nat): (items: seq<Item>)
    ensures |items| == |jobs|
  {
    seq(|jobs|, i requires 0 <= i < |jobs| => Item(from + i, jobs[i], Waiting))
  }

  function Queued(s: Page, jobs: seq<Job>): Page {
    s.(items := s.items + Numbered(jobs, s.nextId), nextId := s.nextId + |jobs|, queued := s.queued + jobs)
  }

  function Put(id: nat, job: Job, overwrite: bool): Send {
    Send(id, job.rootId, JoinPath(job.dir, job.name), overwrite)
  }

  predicate IsActive(status: Status) {
    status.Waiting? || status.Uploading?
  }

  /** `next` inside `pump`: send the first waiting item, or stop. */
  function Advance(s: Page): Page {
    var first := FirstWaiting(s.items);
    if first.None? || !s.signedIn then s.(running := false)
    else
      var item := s.items[first.value];
      s.(items := SetStatus(s.items, item.id, Uploading),
         inFlight := s.inFlight[item.id := Flight(item.job, PlainReply)],
         sent := s.sent + [Put(item.id, item.job, false)])
  }

  function Pump(s: Page): Page {
    if s.running then s else Advance(s.(running := true, policy := None))
  }

  /** The item is settled and the pump goes on. */
  function Settle(s: Page, id: nat, status: Status): Page {
    Advance(s.(items := SetStatus(s.items, id, status), inFlight := s.inFlight - {id}))
  }

  function Finish(s: Page, id: nat, status: nat): Page {
    if 200 <= status < 300 then Settle(s, id, Done)
    else if status == 401 then Settle(s.(signedIn := false), id, Failed)
    else Settle(s, id, Failed)
  }

  /** Skip settles the item; replace sends it once more, now to overwrite. */
  function Decide(s: Page, id: nat, choice: Choice): Page
    requires id in s.inFlight
  {
    if choice == SkipIt then Settle(s, id, Skipped)
    else
      var job := s.inFlight[id].job;
      s.(inFlight := s.inFlight[id := Flight(job, OverwriteReply)],
         sent := s.sent + [Put(id, job, true)],
         replaced := s.replaced + {id})
  }

  function Next(s: Page, e: Event): Page {
    match e
    case Queue(jobs, writable) =>
      if jobs == [] || !writable then s
      else Pump(Queued(s, jobs))
    case Reply(id, status, code) =>
      if id !in s.inFlight || s.inFlight[id].waits == Decision then s
      else if s.inFlight[id].waits == PlainReply && status == 409 && code == "already_exists" then
        if s.policy.Some? then Decide(s, id, s.policy.value)
        else s.(inFlight := s.inFlight[id := Flight(s.inFlight[id].job, Decision)])
      else Finish(s, id, status)
    case Answer(id, choice, forAll) =>
      if id !in s.inFlight || s.inFlight[id].waits != Decision then s
      else
        var picked := if choice.Some? then choice.value else SkipIt;
        Decide(if forAll then s.(policy := Some(picked)) else s, id, picked)
    case EndSession => s.(signedIn := false)
    case SignIn => s.(signedIn := true)
    case Clear =>
      // The button is only there when no item is active.
      if exists i :: 0 <= i < |s.items| && IsActive(s.items[i].status) then s else s.(items := [])
  }

  function Run(events: seq<Event>): Page {
    if events == [] then FRESH
    else Next(Run(events[..|events| - 1]), events[|events| - 1])
  }

  // ---------------------------------------------------------------------- the invariant

  /** Items are numbered upwards, carry the job they were queued with (the one queued as
      number `id`), and those that have started come before those that wait. */
  ghost predicate ItemsInOrder(items: seq<Item>, queued: seq<Job>) {
    && (forall i :: 0 <= i < |items| ==> 1 <= items[i].id <= |queued| && items[i].job == queued[items[i].id - 1])
    && (forall i, j :: 0 <= i < j < |items| ==> items[i].id < items[j].id)
    && (forall i, j :: 0 <= i < j < |items| && items[i].status.Waiting? ==> items[j].status.Waiting?)
  }

  /** At most one item is in flight, and it alone is uploading. */
  ghost predicate OneInFlight(items: seq<Item>, inFlight: map<nat, Flight>, queued: seq<Job>) {
    && (forall id, id' :: id in inFlight && id' in inFlight ==> id == id')
    && (forall id :: id in inFlight ==> 1 <= id <= |queued| && inFlight[id].job == queued[id - 1])
    && (forall id :: id in inFlight ==> exists i :: 0 <= i < |items| && items[i].id == id)
    && (forall i :: 0 <= i < |items| ==> (items[i].status.Uploading? <==> items[i].id in inFlight))
  }

  /** Requests go only to where the item was queued for. */
  ghost predicate SentWhereQueued(sent: seq<Send>, queued: seq<Job>) {
    forall k :: 0 <= k < |sent| ==>
      1 <= sent[k].id <= |queued| && sent[k] == Put(sent[k].id, queued[sent[k].id - 1], sent[k].overwrite)
  }

  /** Requests are made in item order: one plain request for each item started, followed by
      at most one that overwrites, and that only if Replace was chosen. */
  ghost predicate SentInOrder(sent: seq<Send>, replaced: set<nat>) {
    && (forall k, l :: 0 <= k < l < |sent| ==>
          || sent[k].id < sent[l].id
          || (sent[k].id == sent[l].id && l == k + 1 && !sent[k].overwrite && sent[l].overwrite))
    && (forall k :: 0 <= k < |sent| && sent[k].overwrite ==>
          k > 0 && sent[k - 1].id == sent[k].id && sent[k].id in replaced)
  }

  /** Nothing has been sent for an item that waits. */
  ghost predicate WaitingUnsent(items: seq<Item>, sent: seq<Send>) {
    forall i, k :: 0 <= i < |items| && items[i].status.Waiting? && 0 <= k < |sent| ==> sent[k].id < items[i].id
  }

  /** The item in flight is the last one something was sent for. */
  ghost predicate FlightIsLast(inFlight: map<nat, Flight>, sent: seq<Send>) {
    forall id :: id in inFlight ==>
      && sent != [] && sent[|sent| - 1].id == id
      && (sent[|sent| - 1].overwrite <==> inFlight[id].waits == OverwriteReply)
  }

  ghost predicate Inv(s: Page) {
    && s.nextId == |s.queued| + 1
    && (s.running <==> s.inFlight != map[])
    && ItemsInOrder(s.items, s.queued) && OneInFlight(s.items, s.inFlight, s.queued)
    && SentWhereQueued(s.sent, s.queued) && SentInOrder(s.sent, s.replaced)
    && WaitingUnsent(s.items, s.sent) && FlightIsLast(s.inFlight, s.sent)
  }

  predicate AnyWaiting(s: Page) {
    exists i :: 0 <= i < |s.items| && s.items[i].status.Waiting?
  }

  /** Where the pump looks for its next item: nothing is in flight. */
  ghost predicate Between(s: Page) {
    && s.nextId == |s.queued| + 1 && s.running && s.inFlight == map[]
    && ItemsInOrder(s.items, s.queued)
    && (forall i :: 0 <= i < |s.items| ==> !s.items[i].status.Uploading?)
    && SentWhereQueued(s.sent, s.queued) && SentInOrder(s.sent, s.replaced) && WaitingUnsent(s.items, s.sent)
  }

  // --------------------------------------------------------------- what each step keeps

  lemma {:induction false} SetOneStatus(items: seq<Item>, n: nat, status: Status)
    requires n < |items| && forall i, j :: 0 <= i < j < |items| ==> items[i].id < items[j].id
    ensures SetStatus(items, items[n].id, status) == items[n := items[n].(status := status)]
  {
  }

  lemma {:induction false} Restated(items: seq<Item>, queued: seq<Job>, sent: seq<Send>, n: nat, status: Status)
    requires ItemsInOrder(items, queued) && WaitingUnsent(items, sent) && n < |items| && !status.Waiting?
    requires forall i :: 0 <= i < n ==> !items[i].status.Waiting?
    ensures ItemsInOrder(items[n := items[n].(status := status)], queued)
    ensures WaitingUnsent(items[n := items[n].(status := status)], sent)
  {
  }

  lemma {:induction false} SendFirst(sent: seq<Send>, send: Send, replaced: set<nat>)
    requires SentInOrder(sent, replaced) && !send.overwrite
    requires forall k :: 0 <= k < |sent| ==> sent[k].id < send.id
    ensures SentInOrder(sent + [send], replaced)
  {
  }

  lemma {:induction false} SendAgain(sent: seq<Send>, send: Send, replaced: set<nat>)
    requires SentInOrder(sent, replaced) && send.overwrite
    requires sent != [] && sent[|sent| - 1].id == send.id && !sent[|sent| - 1].overwrite
    ensures SentInOrder(sent + [send], replaced + {send.id})
  {
    var n := |sent| - 1;
    assert forall k :: 0 <= k < n ==> sent[k].id < sent[n].id || (sent[k].id == sent[n].id && sent[n].overwrite);
  }

  /** Starting the first waiting item. */
  lemma {:induction false} StartKeeps(s: Page, n: nat)
    requires Between(s) && n < |s.items| && s.items[n].status.Waiting?
    requires forall i :: 0 <= i < n ==> !s.items[i].status.Waiting?
    ensures var item := s.items[n];
      Inv(s.(items := s.items[n := item.(status := Uploading)],
             inFlight := s.inFlight[item.id := Flight(item.job, PlainReply)],
             sent := s.sent + [Put(item.id, item.job, false)]))
  {
    var item := s.items[n];
    var items := s.items[n := item.(status := Uploading)];
    var inFlight := s.inFlight[item.id := Flight(item.job, PlainReply)];
    var sent := s.sent + [Put(item.id, item.job, false)];
    Restated(s.items, s.queued, s.sent, n, Uploading);
    SendFirst(s.sent, Put(item.id, item.job, false), s.replaced);
    assert item.id in inFlight && items[n].id == item.id;
    assert WaitingUnsent(items, sent);
    hide SentInOrder, WaitingUnsent;
    assert OneInFlight(items, inFlight, s.queued);
    hide OneInFlight, ItemsInOrder;
    assert SentWhereQueued(sent, s.queued);
  }

  lemma {:induction false} AdvanceKeeps(s: Page)
    requires Between(s)
    ensures Inv(Advance(s))
    ensures Advance(s).running <==> s.signedIn && AnyWaiting(s)
  {
    var first := FirstWaiting(s.items);
    if first.Some? && s.signedIn {
      SetOneStatus(s.items, first.value, Uploading);
      StartKeeps(s, first.value);
      assert s.items[first.value].status.Waiting?;
    }
    hide ItemsInOrder, SentInOrder, WaitingUnsent, SentWhereQueued;
  }

  lemma {:induction false} NoneUploading(items: seq<Item>, inFlight: map<nat, Flight>, queued: seq<Job>, n: nat,
                                         status: Status)
    requires ItemsInOrder(items, queued) && OneInFlight(items, inFlight, queued) && !IsActive(status)
    requires n < |items| && items[n].id in inFlight
    ensures inFlight - {items[n].id} == map[]
    ensures items[n].status.Uploading? && forall i :: 0 <= i < n ==> !items[i].status.Waiting?
    ensures forall i :: 0 <= i < |items| && i != n ==> !items[i].status.Uploading?
  {
  }

  lemma {:induction false} SettledIsBetween(s: Page, id: nat, status: Status, signedIn: bool)
    requires Inv(s) && id in s.inFlight && !IsActive(status)
    ensures Between(s.(items := SetStatus(s.items, id, status), inFlight := s.inFlight - {id}, signedIn := signedIn))
  {
    var n :| 0 <= n < |s.items| && s.items[n].id == id;
    SetOneStatus(s.items, n, status);
    NoneUploading(s.items, s.inFlight, s.queued, n, status);
    Restated(s.items, s.queued, s.sent, n, status);
    hide ItemsInOrder, OneInFlight, SentInOrder, SentWhereQueued, WaitingUnsent, SetStatus;
  }

  lemma {:induction false} MoreItems(items: seq<Item>, queued: seq<Job>, jobs: seq<Job>)
    ensures var more := items + Numbered(jobs, |queued| + 1);
      && (forall i :: 0 <= i < |items| ==> more[i] == items[i])
      && (forall i :: |items| <= i < |more| ==>
            more[i].id == |queued| + 1 + i - |items| && more[i].job == (queued + jobs)[more[i].id - 1]
              && more[i].status.Waiting?)
  {
  }

  lemma {:induction false} MoreInOrder(items: seq<Item>, queued: seq<Job>, jobs: seq<Job>, sent: seq<Send>)
    requires ItemsInOrder(items, queued) && WaitingUnsent(items, sent) && SentWhereQueued(sent, queued)
    ensures var more := items + Numbered(jobs, |queued| + 1);
      ItemsInOrder(more, queued + jobs) && WaitingUnsent(more, sent) && SentWhereQueued(sent, queued + jobs)
  {
    MoreItems(items, queued, jobs);
    hide Numbered, Put;
    var more := items + Numbered(jobs, |queued| + 1);
    assert forall i :: 0 <= i < |queued| ==> (queued + jobs)[i] == queued[i];
    forall i | 0 <= i < |more|
      ensures 1 <= more[i].id <= |queued + jobs| && more[i].job == (queued + jobs)[more[i].id - 1]
    {
      if i < |items| {
        assert more[i] == items[i];
      }
    }
    forall i, j | 0 <= i < j < |more|
      ensures more[i].id < more[j].id && (more[i].status.Waiting? ==> more[j].status.Waiting?)
    {
      if j < |items| {
        assert items[i].id < items[j].id;
      } else if i < |items| {
        assert items[i].id <= |queued|;
      }
    }
  }

  lemma {:induction false} MoreInFlight(items: seq<Item>, queued: seq<Job>, jobs: seq<Job>, inFlight: map<nat, Flight>)
    requires OneInFlight(items, inFlight, queued)
    ensures OneInFlight(items + Numbered(jobs, |queued| + 1), inFlight, queued + jobs)
  {
    MoreItems(items, queued, jobs);
    hide Numbered;
    var more := items + Numbered(jobs, |queued| + 1);
    forall id | id in inFlight
      ensures exists i :: 0 <= i < |more| && more[i].id == id
    {
      var i :| 0 <= i < |items| && items[i].id == id;
      assert more[i].id == id;
    }
  }

  lemma {:induction false} QueueKeeps(s: Page, jobs: seq<Job>)
    requires Inv(s)
    ensures Inv(Queued(s, jobs))
    ensures !s.running ==> Between(Queued(s, jobs).(running := true, policy := None))
  {
    MoreItems(s.items, s.queued, jobs);
    MoreInOrder(s.items, s.queued, jobs, s.sent);
    MoreInFlight(s.items, s.queued, jobs, s.inFlight);
    assert !s.running ==> forall i :: 0 <= i < |s.items| ==> !s.items[i].status.Uploading?;
    hide ItemsInOrder, OneInFlight, SentInOrder, SentWhereQueued, WaitingUnsent, Numbered;
  }

  lemma {:induction false} SettleKeeps(s: Page, id: nat, status: Status, signedIn: bool)
    requires Inv(s) && id in s.inFlight && !IsActive(status)
    ensures Inv(Settle(s.(signedIn := signedIn), id, status))
  {
    hide Inv, Between, Advance;
    SettledIsBetween(s, id, status, signedIn);
    AdvanceKeeps(s.(items := SetStatus(s.items, id, status), inFlight := s.inFlight - {id}, signedIn := signedIn));
  }

  lemma {:induction false} DecideKeeps(s: Page, id: nat, choice: Choice)
    requires Inv(s) && id in s.inFlight && s.inFlight[id].waits != OverwriteReply
    ensures Inv(Decide(s, id, choice))
  {
    if choice == SkipIt {
      hide Inv, Settle;
      SettleKeeps(s, id, Skipped, s.signedIn);
      assert s.(signedIn := s.signedIn) == s;
    } else {
      var job := s.inFlight[id].job;
      SendAgain(s.sent, Put(id, job, true), s.replaced);
      var sent := s.sent + [Put(id, job, true)];
      var inFlight := s.inFlight[id := Flight(job, OverwriteReply)];
      assert id in inFlight && inFlight.Keys == s.inFlight.Keys;
      hide SentInOrder, ItemsInOrder;
      assert WaitingUnsent(s.items, sent) by {
        assert s.sent[|s.sent| - 1].id == id;
      }
      hide WaitingUnsent;
      assert OneInFlight(s.items, inFlight, s.queued);
      hide OneInFlight;
    }
  }

  lemma {:induction false} FinishKeeps(s: Page, id: nat, status: nat)
    requires Inv(s) && id in s.inFlight
    ensures Inv(Finish(s, id, status))
  {
    hide Inv, Settle;
    assert s.(signedIn := s.signedIn) == s;
    SettleKeeps(s, id, if 200 <= status < 300 then Done else Failed, if status == 401 then false else s.signedIn);
  }

  lemma {:induction false} AskKeeps(s: Page, id: nat)
    requires Inv(s) && id in s.inFlight && s.inFlight[id].waits == PlainReply
    ensures Inv(s.(inFlight := s.inFlight[id := Flight(s.inFlight[id].job, Decision)]))
  {
  }

  lemma {:induction false} ClearKeeps(s: Page)
    requires Inv(s) && forall i :: 0 <= i < |s.items| ==> !IsActive(s.items[i].status)
    ensures Inv(s.(items := []))
  {
  }

  lemma {:induction false} FlagsKeep(s: Page, signedIn: bool, policy: Option<Choice>)
    requires Inv(s)
    ensures Inv(s.(signedIn := signedIn)) && Inv(s.(policy := policy))
  {
    hide ItemsInOrder, OneInFlight, SentInOrder, SentWhereQueued, WaitingUnsent, FlightIsLast;
  }

  /** Every step of the page keeps the invariant. */
  lemma {:induction false} NextKeeps(s: Page, e: Event)
    requires Inv(s)
    ensures Inv(Next(s, e))
  {
    hide Inv, Finish, Settle, Advance, Between;
    match e {
      case Queue(jobs, writable) =>
        QueueKeeps(s, jobs);
        if !s.running {
          AdvanceKeeps(Queued(s, jobs).(running := true, policy := None));
        }
      case Reply(id, status, code) =>
        if id in s.inFlight && s.inFlight[id].waits == PlainReply && status == 409 && code == "already_exists" {
          AskKeeps(s, id);
          if s.policy.Some? {
            DecideKeeps(s, id, s.policy.value);
          }
        } else if id in s.inFlight {
          FinishKeeps(s, id, status);
        }
      case Answer(id, choice, forAll) =>
        var picked := if choice.Some? then choice.value else SkipIt;
        FlagsKeep(s, s.signedIn, Some(picked));
        if id in s.inFlight && s.inFlight[id].waits == Decision {
          DecideKeeps(if forAll then s.(policy := Some(picked)) else s, id, picked);
        }
      case EndSession => FlagsKeep(s, false, None);
      case SignIn => FlagsKeep(s, true, None);
      case Clear =>
        if forall i :: 0 <= i < |s.items| ==> !IsActive(s.items[i].status) {
          ClearKeeps(s);
        }
    }
  }

  /** Over every interleaving of callbacks: at most one item is in flight, items start in
      the order they were queued, and each is sent at most once plain and then at most once
      to overwrite, to the folder and root it was queued for. */
  lemma {:induction false} RunKeeps(events: seq<Event>)
    ensures Inv(Run(events))
  {
    hide Next;
    if events == [] {
      assert Inv(FRESH);
    } else {
      hide Inv;
      RunKeeps(events[..|events| - 1]);
      NextKeeps(Run(events[..|events| - 1]), events[|events| - 1]);
    }
  }

  // ------------------------------------------------------------ what each step may change

  /** A status only moves forward: waiting, uploading, settled. */
  predicate Forward(before: Status, after: Status) {
    || before == after
    || (before.Waiting? && after.Uploading?)
    || (before.Uploading? && !IsActive(after))
  }

  /** The items of `s` are still there, in place, with statuses that moved forward. */
  ghost predicate ItemsForward(before: seq<Item>, after: seq<Item>) {
    && |before| <= |after|
    && forall i :: 0 <= i < |before| ==>
         after[i].id == before[i].id && after[i].job == before[i].job && Forward(before[i].status, after[i].status)
  }

  /** The pump may only come to rest with a session when nothing waits. */
  predicate RestsOnlyWhenDone(before: Page, after: Page) {
    before.running && !after.running && after.signedIn ==> !AnyWaiting(after)
  }

  /** Waiting items that nothing is going to send. */
  predicate Stranded(s: Page) {
    !s.running && s.signedIn && AnyWaiting(s)
  }

  lemma {:induction false} AdvanceMoves(s: Page)
    requires Between(s)
    ensures ItemsForward(s.items, Advance(s).items)
    ensures !Advance(s).running && s.signedIn ==> !AnyWaiting(Advance(s))
    ensures Advance(s).signedIn == s.signedIn && s.sent <= Advance(s).sent
    ensures forall i :: 0 <= i < |s.items| && !s.items[i].status.Waiting? ==> Advance(s).items[i] == s.items[i]
  {
  }

  lemma {:induction false} SettleMoves(s: Page, id: nat, status: Status, signedIn: bool)
    requires Inv(s) && id in s.inFlight && !IsActive(status)
    ensures var s' := Settle(s.(signedIn := signedIn), id, status);
      && ItemsForward(s.items, s'.items) && s.sent <= s'.sent && s'.signedIn == signedIn
      && (!s'.running && s'.signedIn ==> !AnyWaiting(s'))
  {
    hide Between, SentInOrder, SentWhereQueued, WaitingUnsent, FlightIsLast, SetStatus, Advance, AnyWaiting;
    var n :| 0 <= n < |s.items| && s.items[n].id == id;
    NoneUploading(s.items, s.inFlight, s.queued, n, status);
    SettledIsBetween(s, id, status, signedIn);
    SetOneStatus(s.items, n, status);
    hide ItemsInOrder, OneInFlight;
    AdvanceMoves(s.(items := SetStatus(s.items, id, status), inFlight := s.inFlight - {id}, signedIn := signedIn));
  }

  lemma {:induction false} DecideMoves(s: Page, id: nat, choice: Choice)
    requires Inv(s) && id in s.inFlight && s.inFlight[id].waits != OverwriteReply
    ensures var s' := Decide(s, id, choice);
      && ItemsForward(s.items, s'.items) && s.sent <= s'.sent && s'.signedIn == s.signedIn
      && (!s'.running && s'.signedIn ==> !AnyWaiting(s'))
      && s'.replaced == if choice == ReplaceIt then s.replaced + {id} else s.replaced
  {
    if choice == SkipIt {
      SettleMoves(s, id, Skipped, s.signedIn);
      assert s.(signedIn := s.signedIn) == s;
    }
    hide ItemsInOrder, OneInFlight, SentInOrder, SentWhereQueued, WaitingUnsent, SetStatus, AnyWaiting;
  }

  lemma {:induction false} QueueMoves(s: Page, jobs: seq<Job>)
    requires Inv(s)
    ensures var s' := Pump(Queued(s, jobs));
      && ItemsForward(s.items, s'.items) && s.sent <= s'.sent && s'.signedIn == s.signedIn
      && (!s'.running && s'.signedIn ==> !AnyWaiting(s'))
  {
    QueueKeeps(s, jobs);
    MoreItems(s.items, s.queued, jobs);
    assert s.nextId == |s.queued| + 1;
    hide Inv, Between, Numbered, Advance, AnyWaiting;
    if !s.running {
      AdvanceMoves(Queued(s, jobs).(running := true, policy := None));
      assert s.signedIn ==> Pump(Queued(s, jobs)).running || !AnyWaiting(Pump(Queued(s, jobs)));
    }
  }

  /** Any step other than clearing a settled list only moves statuses forward, and only
      adds requests. The pump never stops by itself, with a session, while items wait. */
  lemma {:induction false} NextMoves(s: Page, e: Event)
    requires Inv(s)
    ensures s.sent <= Next(s, e).sent
    ensures e.Clear? || ItemsForward(s.items, Next(s, e).items)
    ensures RestsOnlyWhenDone(s, Next(s, e))
  {
    hide Inv, Settle, Decide, Pump, Queued, AnyWaiting;
    match e {
      case Queue(jobs, writable) =>
        QueueMoves(s, jobs);
      case Reply(id, status, code) =>
        if id in s.inFlight && s.inFlight[id].waits == PlainReply && status == 409 && code == "already_exists" {
          if s.policy.Some? {
            DecideMoves(s, id, s.policy.value);
          }
        } else if id in s.inFlight {
          SettleMoves(s, id, if 200 <= status < 300 then Done else Failed, if status == 401 then false else s.signedIn);
          assert s.(signedIn := s.signedIn) == s;
        }
      case Answer(id, choice, forAll) =>
        var picked := if choice.Some? then choice.value else SkipIt;
        FlagsKeep(s, s.signedIn, Some(picked));
        if id in s.inFlight && s.inFlight[id].waits == Decision {
          DecideMoves(if forAll then s.(policy := Some(picked)) else s, id, picked);
        }
      case EndSession =>
      case SignIn =>
      case Clear =>
    }
  }

  /** Waiting items are stranded by exactly one thing: signing in again after a session
      ended with items still waiting. The queue is not resumed until more files are added. */
  lemma {:induction false} StrandedExactly(s: Page, e: Event)
    requires Inv(s) && !Stranded(s)
    ensures Stranded(Next(s, e)) <==> e.SignIn? && !s.running && !s.signedIn && AnyWaiting(s)
  {
    NextMoves(s, e);
    hide Inv, Settle, Decide, ItemsForward;
    if e.Queue? && e.jobs != [] && e.writable {
      QueueMoves(s, e.jobs);
    }
    hide Pump, Queued, FirstWaiting;
  }

  // ------------------------------------------------------------ what the server may expect

  /** The page waits for an answer of the server, not of the user. */
  predicate AwaitsServer(s: Page, id: nat) {
    id in s.inFlight && s.inFlight[id].waits != Decision
  }

  /** A step makes at most one request, for the item that is then in flight; jobs and
      decisions are only ever added. */
  ghost predicate OneMore(s: Page, s': Page) {
    && s.queued <= s'.queued && s.replaced <= s'.replaced
    && (s'.sent == s.sent || (|s'.sent| == |s.sent| + 1 && AwaitsServer(s', s'.sent[|s.sent|].id)))
  }

  lemma {:induction false} AdvanceSends(s: Page)
    ensures OneMore(s, Advance(s))
  {
    hide SetStatus;
  }

  lemma {:induction false} SettleSends(s: Page, id: nat, status: Status, signedIn: bool)
    ensures OneMore(s, Settle(s.(signedIn := signedIn), id, status))
  {
  }

  lemma {:induction false} DecideSends(s: Page, id: nat, choice: Choice)
    requires id in s.inFlight
    ensures OneMore(s, Decide(s, id, choice))
  {
  }

  lemma {:induction false} FinishSends(s: Page, id: nat, status: nat)
    ensures OneMore(s, Finish(s, id, status))
  {
    SettleSends(s, id, if 200 <= status < 300 then Done else Failed, if status == 401 then false else s.signedIn);
    assert s.(signedIn := s.signedIn) == s;
    hide Settle;
  }

  lemma {:induction false} NextSends(s: Page, e: Event)
    ensures OneMore(s, Next(s, e))
  {
    match e {
      case Queue(jobs, writable) =>
        AdvanceSends(Queued(s, jobs).(running := true, policy := None));
      case Reply(id, status, code) =>
        if id in s.inFlight {
          FinishSends(s, id, status);
          if s.policy.Some? {
            DecideSends(s, id, s.policy.value);
          }
        }
      case Answer(id, choice, forAll) =>
        var picked := if choice.Some? then choice.value else SkipIt;
        if id in s.inFlight {
          DecideSends(if forAll then s.(policy := Some(picked)) else s, id, picked);
        }
      case _ =>
    }
    hide Advance, Decide, Finish;
  }

  /** While the server is being waited for, the user's events make no request. */
  lemma {:induction false} UserWaits(s: Page, e: Event, id: nat)
    requires Inv(s) && AwaitsServer(s, id) && !e.Reply?
    ensures Next(s, e).sent == s.sent && Next(s, e).inFlight == s.inFlight
  {
    hide ItemsInOrder, SentInOrder, SentWhereQueued, WaitingUnsent, Numbered, Advance;
    assert s.running;
  }
}
