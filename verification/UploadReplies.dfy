/** What becomes of an item, said without the steps of `Uploads`: which answers of the server make
    it done, what the user's answers do, and what the queue does next. */
module UploadReplies {
  import opened Options
  import opened Paths
  import opened Uploads
  import opened UploadChoices

  // ------------------------------------------------------------------------- the next item

  ghost predicate IsFirstWaiting(items: seq<Item>, k: int) {
    0 <= k < |items| && items[k].status.Waiting? && forall j :: 0 <= j < k ==> !items[j].status.Waiting?
  }

  ghost predicate NoneWaits(items: seq<Item>) {
    forall i :: 0 <= i < |items| ==> !items[i].status.Waiting?
  }

  /** The queue goes on from these items: the first that waits is sent, plainly, to where it was
      queued for; with nothing left to send, or no session to send it with, the queue rests. */
  ghost predicate GoesOn(items: seq<Item>, sent: seq<Send>, s: Page) {
    && (forall k :: IsFirstWaiting(items, k) && s.signedIn ==>
          var id, job := items[k].id, items[k].job;
          && s.items == items[k := Item(id, job, Uploading)]
          && s.sent == sent + [Send(id, job.rootId, JoinPath(job.dir, job.name), false)]
          && s.inFlight == map[id := Flight(job, PlainReply)] && s.running)
    && (NoneWaits(items) || !s.signedIn ==>
          s.items == items && s.sent == sent && s.inFlight == map[] && !s.running)
  }

  /** Either there is a first waiting item, or none waits. */
  lemma {:induction false} SomeFirstWaits(items: seq<Item>)
    ensures NoneWaits(items) <==> !exists k :: IsFirstWaiting(items, k)
  {
    if FirstWaiting(items).Some? {
      assert IsFirstWaiting(items, FirstWaiting(items).value);
    }
  }

  lemma {:induction false} AdvanceGoesOn(s: Page)
    requires Between(s)
    ensures GoesOn(s.items, s.sent, Advance(s))
    ensures var s' := Advance(s);
      s'.signedIn == s.signedIn && s'.policy == s.policy && SameHistory(s, s')
  {
    var first := FirstWaiting(s.items);
    FirstIs(s.items);
    if first.Some? && s.signedIn {
      SetOneStatus(s.items, first.value, Uploading);
    }
    hide Between, FirstWaiting, IsFirstWaiting, NoneWaits, SetStatus, JoinPath;
    assert s.inFlight == map[] && s.running by {
      assert Between(s);
    }
  }

  lemma {:induction false} FirstIs(items: seq<Item>)
    ensures NoneWaits(items) <==> FirstWaiting(items).None?
    ensures forall k :: IsFirstWaiting(items, k) <==> FirstWaiting(items).Some? && FirstWaiting(items).value == k
  {
  }

  ghost predicate SameHistory(s: Page, s': Page) {
    s'.queued == s.queued && s'.nextId == s.nextId && s'.replaced == s.replaced
  }

  /** The item is settled so, and the queue goes on. */
  ghost predicate SettledAs(s: Page, s': Page, n: nat, status: Status)
    requires n < |s.items|
  {
    && GoesOn(s.items[n := Item(s.items[n].id, s.items[n].job, status)], s.sent, s')
    && n < |s'.items| && s'.items[n].status == status
    && SameHistory(s, s')
  }

  lemma {:induction false} SettleSettles(s: Page, n: nat, status: Status, signedIn: bool)
    requires Inv(s) && n < |s.items| && s.items[n].id in s.inFlight && !IsActive(status)
    ensures var s' := Settle(s.(signedIn := signedIn), s.items[n].id, status);
      SettledAs(s, s', n, status) && s'.signedIn == signedIn && s'.policy == s.policy
  {
    var id := s.items[n].id;
    var t := s.(items := SetStatus(s.items, id, status), inFlight := s.inFlight - {id}, signedIn := signedIn);
    SettledIsBetween(s, id, status, signedIn);
    SetOneStatus(s.items, n, status);
    AdvanceGoesOn(t);
    hide Inv, Between, SetStatus, Advance;
    SettledStays(t.items, s.sent, Settle(s.(signedIn := signedIn), id, status), n);
  }

  lemma {:induction false} SettledStays(items: seq<Item>, sent: seq<Send>, s: Page, n: nat)
    requires GoesOn(items, sent, s) && n < |items| && !items[n].status.Waiting?
    ensures |s.items| == |items| && s.items[n] == items[n]
  {
    SomeFirstWaits(items);
    hide JoinPath;
  }

  // ---------------------------------------------------------------------- the server's reply

  predicate IsConflict(s: Page, id: nat, status: nat, code: string) {
    id in s.inFlight && s.inFlight[id].waits == PlainReply && status == 409 && code == "already_exists"
  }

  /** Done means a 2xx, and failed means any other reply, refusals and lost connections alike; only
      a 401 ends the session. A conflict of a plain request is not settled here. */
  lemma {:induction false} ReplyExactly(s: Page, n: nat, status: nat, code: string)
    requires Inv(s) && n < |s.items| && AwaitsServer(s, s.items[n].id)
    requires !IsConflict(s, s.items[n].id, status, code)
    ensures var s' := Next(s, Reply(s.items[n].id, status, code));
      && SettledAs(s, s', n, if 200 <= status < 300 then Done else Failed)
      && (s'.signedIn <==> s.signedIn && status != 401) && s'.policy == s.policy
  {
    SettleSettles(s, n, if 200 <= status < 300 then Done else Failed, s.signedIn && status != 401);
    hide Inv, Settle, SettledAs;
    assert s.(signedIn := s.signedIn) == s;
  }

  /** The item is sent once more, to overwrite, and nothing else happens. */
  ghost predicate SentAgain(s: Page, s': Page, n: nat)
    requires n < |s.items|
  {
    var id, job := s.items[n].id, s.items[n].job;
    && s'.sent == s.sent + [Send(id, job.rootId, JoinPath(job.dir, job.name), true)]
    && s'.inFlight == map[id := Flight(job, OverwriteReply)] && s'.replaced == s.replaced + {id}
    && s'.items == s.items && s'.running && s'.queued == s.queued && s'.nextId == s.nextId
  }

  lemma {:induction false} DecideExactly(s: Page, n: nat, choice: Choice)
    requires Inv(s) && n < |s.items| && s.items[n].id in s.inFlight
    ensures var s' := Decide(s, s.items[n].id, choice);
      && (choice == ReplaceIt ==> SentAgain(s, s', n))
      && (choice == SkipIt ==> SettledAs(s, s', n, Skipped))
      && s'.signedIn == s.signedIn && s'.policy == s.policy
  {
    if choice == SkipIt {
      SettleSettles(s, n, Skipped, s.signedIn);
      hide Inv, Settle, SettledAs;
      assert s.(signedIn := s.signedIn) == s;
    } else {
      hide Inv, Settle, SettledAs;
      ReplaceExactly(s, n);
    }
  }

  lemma {:induction false} ReplaceExactly(s: Page, n: nat)
    requires Inv(s) && n < |s.items| && s.items[n].id in s.inFlight
    ensures var s' := Decide(s, s.items[n].id, ReplaceIt);
      SentAgain(s, s', n) && s'.signedIn == s.signedIn && s'.policy == s.policy
  {
    FlightIs(s, n);
    hide Inv, Settle, JoinPath;
  }

  lemma {:induction false} FlightIs(s: Page, n: nat)
    requires Inv(s) && n < |s.items| && s.items[n].id in s.inFlight
    ensures var id := s.items[n].id;
      s.inFlight == map[id := s.inFlight[id]] && s.inFlight[id].job == s.items[n].job && s.running
  {
    hide SentWhereQueued, SentInOrder, WaitingUnsent, FlightIsLast;
    var id := s.items[n].id;
    assert forall id' :: id' in s.inFlight ==> id' == id;
  }

  /** The server has a file there: with an answer in memory that answer is used at once, and the
      user is asked exactly if there is none. */
  lemma {:induction false} ConflictExactly(s: Page, n: nat)
    requires Inv(s) && n < |s.items| && IsConflict(s, s.items[n].id, 409, "already_exists")
    ensures var id := s.items[n].id; var s' := Next(s, Reply(id, 409, "already_exists"));
      && (s.policy == Some(ReplaceIt) ==> SentAgain(s, s', n))
      && (s.policy == Some(SkipIt) ==> SettledAs(s, s', n, Skipped))
      && (s.policy == None ==> Asked(s', id) && s'.items == s.items && s'.sent == s.sent && s'.running)
      && (Asked(s', id) <==> s.policy == None)
      && s'.signedIn == s.signedIn && s'.policy == s.policy
  {
    var id := s.items[n].id;
    if s.policy.Some? {
      DecideExactly(s, n, s.policy.value);
      FlightIs(s, n);
      hide Inv, Decide, JoinPath;
      if s.policy.value == SkipIt {
        SettledIsNotAsked(s, Next(s, Reply(id, 409, "already_exists")), n);
      }
    } else {
      FlightIs(s, n);
      hide Inv;
    }
  }

  lemma {:induction false} SettledIsNotAsked(s: Page, s': Page, n: nat)
    requires n < |s.items| && SettledAs(s, s', n, Skipped)
    ensures forall id :: !Asked(s', id)
  {
    SomeFirstWaits(s.items[n := Item(s.items[n].id, s.items[n].job, Skipped)]);
    hide JoinPath;
  }

  // ------------------------------------------------------------------------ the user's answer

  function Picked(choice: Option<Choice>): Choice {
    if choice.Some? then choice.value else SkipIt
  }

  /** Replace sends the item again, to overwrite; Skip, or closing the dialog, skips it. With the
      box ticked the answer is remembered, else what was remembered stays. */
  lemma {:induction false} AnswerExactly(s: Page, n: nat, choice: Option<Choice>, forAll: bool)
    requires Inv(s) && n < |s.items| && Asked(s, s.items[n].id)
    ensures var s' := Next(s, Answer(s.items[n].id, choice, forAll));
      && (choice == Some(ReplaceIt) ==> SentAgain(s, s', n))
      && (choice != Some(ReplaceIt) ==> SettledAs(s, s', n, Skipped))
      && s'.signedIn == s.signedIn
      && s'.policy == if forAll then Some(if choice == Some(ReplaceIt) then ReplaceIt else SkipIt) else s.policy
  {
    FlagsKeep(s, s.signedIn, Some(Picked(choice)));
    var t := if forAll then s.(policy := Some(Picked(choice))) else s;
    DecideExactly(t, n, Picked(choice));
    hide Inv, Decide;
  }

  // ------------------------------------------------------------------- the user's other events

  /** New items come last, with the next numbers; a queue at rest forgets the remembered answer
      and begins, a running one goes on as it was. */
  lemma {:induction false} QueueExactly(s: Page, jobs: seq<Job>, writable: bool)
    requires Inv(s)
    ensures var s' := Next(s, Queue(jobs, writable));
      && (jobs == [] || !writable ==> s' == s)
      && (jobs != [] && writable ==>
            s'.queued == s.queued + jobs && s'.nextId == s.nextId + |jobs|
            && s'.replaced == s.replaced && s'.signedIn == s.signedIn
            && exists items :: Appended(s.items, jobs, s.nextId, items) && QueuedOn(s, s', items))
  {
    hide Inv, Queued, Pump, Appended, QueuedOn;
    if jobs != [] && writable {
      QueuedAre(s, jobs);
      QueuedGoesOn(s, jobs);
      assert QueuedOn(s, Next(s, Queue(jobs, writable)), Queued(s, jobs).items);
    }
  }

  ghost predicate QueuedOn(s: Page, s': Page, items: seq<Item>) {
    && (s.running ==>
          s'.items == items && s'.sent == s.sent && s'.inFlight == s.inFlight && s'.running && s'.policy == s.policy)
    && (!s.running ==> GoesOn(items, s.sent, s') && s'.policy == None)
  }

  lemma {:induction false} QueuedAre(s: Page, jobs: seq<Job>)
    requires Inv(s)
    ensures Appended(s.items, jobs, s.nextId, Queued(s, jobs).items)
  {
    MoreItems(s.items, s.queued, jobs);
    assert s.nextId == |s.queued| + 1;
    hide Inv;
  }

  lemma {:induction false} QueuedGoesOn(s: Page, jobs: seq<Job>)
    requires Inv(s)
    ensures var s' := Pump(Queued(s, jobs));
      && s'.queued == s.queued + jobs && s'.nextId == s.nextId + |jobs|
      && s'.replaced == s.replaced && s'.signedIn == s.signedIn
      && QueuedOn(s, s', Queued(s, jobs).items)
  {
    QueueKeeps(s, jobs);
    hide Inv, Between, GoesOn, Advance, Numbered;
    if !s.running {
      AdvanceGoesOn(Queued(s, jobs).(running := true, policy := None));
    }
  }

  ghost predicate Appended(before: seq<Item>, jobs: seq<Job>, from: nat, after: seq<Item>) {
    && |after| == |before| + |jobs| && after[..|before|] == before
    && forall i :: 0 <= i < |jobs| ==> after[|before| + i] == Item(from + i, jobs[i], Waiting)
  }

  ghost predicate Rests(items: seq<Item>) {
    forall i :: 0 <= i < |items| ==> !items[i].status.Waiting? && !items[i].status.Uploading?
  }

  /** The list is emptied exactly if nothing waits or is being sent; sessions come and go without
      touching it. A reply or an answer that nobody waits for changes nothing. */
  lemma {:induction false} OtherEventsExactly(s: Page, e: Event)
    ensures e.Clear? && Rests(s.items) ==> Next(s, e) == s.(items := [])
    ensures e.Clear? && !Rests(s.items) ==> Next(s, e) == s
    ensures e.EndSession? ==> Next(s, e) == s.(signedIn := false)
    ensures e.SignIn? ==> Next(s, e) == s.(signedIn := true)
    ensures e.Reply? && !AwaitsServer(s, e.id) ==> Next(s, e) == s
    ensures e.Answer? && !Asked(s, e.id) ==> Next(s, e) == s
  {
    hide Finish, Decide, Pump, Queued;
  }

  // ---------------------------------------------------------------------------- every run

  predicate IsRemembered(s: Page, choice: Choice) {
    s.running && s.policy == Some(choice) && forall id :: id in s.inFlight ==> s.inFlight[id].waits != Decision
  }

  lemma {:induction false} StaysRemembered(s: Page, e: Event, choice: Choice)
    requires Inv(s) && IsRemembered(s, choice) && Next(s, e).running
    ensures IsRemembered(Next(s, e), choice)
  {
    hide ItemsInOrder, OneInFlight, SentWhereQueued, SentInOrder, WaitingUnsent, FlightIsLast, SetStatus, Put, Numbered;
  }

  lemma {:induction false} AnswerIsRemembered(s: Page, e: Event)
    requires Inv(s) && e.Answer? && e.forAll && Asked(s, e.id) && Next(s, e).running
    ensures IsRemembered(Next(s, e), Picked(e.choice))
  {
    var n :| 0 <= n < |s.items| && s.items[n].id == e.id;
    FlightIs(s, n);
    hide Inv, SetStatus, Put;
  }

  /** Once the user has answered for the rest of the run, the answer holds and no question is
      asked until the queue comes to rest; `ConflictExactly` says how it is then used. */
  lemma {:induction false} NoSecondQuestion(events: seq<Event>, k: nat, choice: Choice)
    requires GivenForTheRest(events, k, choice) && k < |events|
    ensures Run(events).policy == Some(choice)
    ensures forall id :: !Asked(Run(events), id)
  {
    RememberedSince(events, k, choice, |events|);
    assert events[..|events|] == events;
    hide Run;
  }

  lemma {:induction false} Since(events: seq<Event>, k: nat, choice: Choice, j: nat)
    requires GivenForTheRest(events, k, choice) && k < j <= |events|
    ensures Run(events[..j]) == Next(Run(events[..j - 1]), events[j - 1])
    ensures Inv(Run(events[..j - 1])) && Run(events[..j]).running
    ensures j == k + 1 ==>
      events[k].Answer? && events[k].forAll && Asked(Run(events[..k]), events[k].id)
      && choice == Picked(events[k].choice)
  {
    hide Run, Next, Inv, Asked;
    RunStep(events[..j]);
    assert events[..j][..j - 1] == events[..j - 1];
    RunKeeps(events[..j - 1]);
  }

  lemma {:induction false} RememberedSince(events: seq<Event>, k: nat, choice: Choice, j: nat)
    requires GivenForTheRest(events, k, choice) && k < j <= |events|
    ensures IsRemembered(Run(events[..j]), choice)
  {
    hide *;
    Since(events, k, choice, j);
    if j == k + 1 {
      AnswerIsRemembered(Run(events[..k]), events[k]);
    } else {
      RememberedSince(events, k, choice, j - 1);
      StaysRemembered(Run(events[..j - 1]), events[j - 1], choice);
    }
  }
}
