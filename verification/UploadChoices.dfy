/** Where the decision to replace a file comes from. An answer "for the rest" is remembered;
    it holds for the run of the queue in which it was given and never longer. */
module UploadChoices {
  import opened Options
  import opened Uploads

  /** Event `k` answered a question for all the rest of the run, and the queue has not come to
      rest since. */
  ghost predicate GivenForTheRest(events: seq<Event>, k: nat, choice: Choice) {
    && k < |events| && events[k].Answer? && events[k].forAll
    && choice == (if events[k].choice.Some? then events[k].choice.value else SkipIt)
    && Asked(Run(events[..k]), events[k].id)
    && (forall j :: k <= j <= |events| ==> Run(events[..j]).running)
  }

  /** The page shows the question for this item. */
  predicate Asked(s: Page, id: nat) {
    id in s.inFlight && s.inFlight[id].waits == Decision
  }

  /** How one step can come to a remembered answer. */
  lemma {:induction false} PolicyStep(s: Page, e: Event)
    requires Inv(s) && Next(s, e).running && Next(s, e).policy.Some?
    ensures s.running
    ensures Next(s, e).policy == s.policy ||
            (e.Answer? && e.forAll && Asked(s, e.id)
             && Next(s, e).policy == Some(if e.choice.Some? then e.choice.value else SkipIt))
  {
    hide ItemsInOrder, OneInFlight, SentWhereQueued, SentInOrder, WaitingUnsent, FlightIsLast, SetStatus, Put, Numbered;
  }

  lemma {:induction false} RunStep(events: seq<Event>)
    requires events != []
    ensures Run(events) == Next(Run(events[..|events| - 1]), events[|events| - 1])
  {
    hide Next;
  }

  lemma {:induction false} PrefixOfFront(events: seq<Event>, j: nat)
    requires events != [] && j < |events|
    ensures events[..|events| - 1][..j] == events[..j]
  {
  }

  lemma {:induction false} StillGiven(events: seq<Event>, k: nat, choice: Choice)
    requires events != [] && GivenForTheRest(events[..|events| - 1], k, choice) && Run(events).running
    ensures GivenForTheRest(events, k, choice)
  {
    hide Run, Asked;
    var front := events[..|events| - 1];
    PrefixOfFront(events, k);
    forall j | k <= j <= |events|
      ensures Run(events[..j]).running
    {
      if j == |events| {
        assert events[..j] == events;
      } else {
        PrefixOfFront(events, j);
        assert Run(front[..j]).running;
      }
    }
  }

  /** Whenever the queue runs with an answer in memory, that answer was given in this run. */
  lemma {:induction false} PolicyIsFromThisRun(events: seq<Event>)
    requires Run(events).running && Run(events).policy.Some?
    ensures exists k :: GivenForTheRest(events, k, Run(events).policy.value)
  {
    if events != [] {
      hide Run, Next, GivenForTheRest, Inv, Asked;
      var n := |events| - 1;
      RunStep(events);
      Uploads.RunKeeps(events[..n]);
      PolicyStep(Run(events[..n]), events[n]);
      if Run(events).policy == Run(events[..n]).policy {
        PolicyIsFromThisRun(events[..n]);
        var k :| GivenForTheRest(events[..n], k, Run(events).policy.value);
        StillGiven(events, k, Run(events).policy.value);
      } else {
        JustGiven(events);
      }
    }
  }

  lemma {:induction false} JustGiven(events: seq<Event>)
    requires events != []
    requires var n := |events| - 1;
      events[n].Answer? && events[n].forAll && Asked(Run(events[..n]), events[n].id)
      && Run(events[..n]).running && Run(events).running
    ensures var e := events[|events| - 1];
      GivenForTheRest(events, |events| - 1, if e.choice.Some? then e.choice.value else SkipIt)
  {
    hide Run, Asked;
    assert events[..|events|] == events;
  }

  /** The user answered Replace for this item, or had answered it for all the rest. */
  ghost predicate ChosenBy(s: Page, e: Event, id: nat) {
    || (e.Answer? && e.id == id && Asked(s, id) && e.choice == Some(ReplaceIt))
    || (e.Reply? && e.id == id && e.status == 409 && e.code == "already_exists" && s.policy == Some(ReplaceIt))
  }

  lemma {:induction false} ReplaceStep(s: Page, e: Event, id: nat)
    requires id in Next(s, e).replaced && id !in s.replaced
    ensures ChosenBy(s, e, id) && id in s.inFlight
  {
    hide SetStatus, Put, Numbered, FirstWaiting;
  }

  /** A file is overwritten only after the server has said that it is there and the user has
      answered Replace: for this item, or for all the rest in the same run of the queue. */
  lemma {:induction false} ReplacedOnlyByChoice(events: seq<Event>, id: nat)
    requires id in Run(events).replaced
    ensures exists n: nat :: ChosenInRun(events, n, id)
  {
    if events == [] {
      NoneReplaced();
    } else {
      hide Run, Next, ChosenInRun, Inv;
      var n := |events| - 1;
      RunStep(events);
      if id in Run(events[..n]).replaced {
        ReplacedOnlyByChoice(events[..n], id);
        var i: nat :| ChosenInRun(events[..n], i, id);
        StillChosen(events, i, id);
      } else {
        ReplaceStep(Run(events[..n]), events[n], id);
        ChosenNow(events, id);
      }
    }
  }

  lemma {:induction false} NoneReplaced()
    ensures Run([]).replaced == {}
  {
  }

  /** Event `n` is the choice, and an answer for the rest goes back to an event of this run. */
  ghost predicate ChosenInRun(events: seq<Event>, n: nat, id: nat) {
    && n < |events| && ChosenBy(Run(events[..n]), events[n], id)
    && (events[n].Reply? ==> exists k :: GivenForTheRest(events[..n], k, ReplaceIt))
  }

  lemma {:induction false} StillChosen(events: seq<Event>, n: nat, id: nat)
    requires events != [] && ChosenInRun(events[..|events| - 1], n, id)
    ensures ChosenInRun(events, n, id)
  {
    hide ChosenBy, GivenForTheRest, Run;
    PrefixOfFront(events, n);
  }

  lemma {:induction false} ChosenNow(events: seq<Event>, id: nat)
    requires events != []
    requires ChosenBy(Run(events[..|events| - 1]), events[|events| - 1], id)
      && id in Run(events[..|events| - 1]).inFlight
    ensures ChosenInRun(events, |events| - 1, id)
  {
    hide Run, GivenForTheRest;
    var n := |events| - 1;
    if events[n].Reply? {
      Uploads.RunKeeps(events[..n]);
      assert Run(events[..n]).running;
      PolicyIsFromThisRun(events[..n]);
    }
  }
}
