/** The hand-off between a suspended caller and a picker Activity: one callback slot, shared
    by launches, results and cancellations. All of it runs on the main thread, so each event
    is one step. */
module PickerProtocol {
  import opened Options

  /** What has become of one `launch()`. `Resumed` has its value but has not been dispatched
      yet; until then a cancellation still takes it, and still runs its handler if it has one
      (`hooked`). */
  datatype Fate<T> = Waiting | Resumed(value: T, hooked: bool) | Returned(value: T) | Cancelled

  /** `pending` is the launch whose callback is in the slot; launches are numbered in order. */
  datatype Desk<T> = Desk(bound: bool, pending: Option<nat>, fates: seq<Fate<T>>)

  /** A launch may find its caller cancelled already. */
  datatype Event<T> = Bind | Launch(cancelled: bool) | Result(value: T) | Dispatch(id: nat) | Cancel(id: nat)

  function NewDesk<T>(): Desk<T> {
    Desk(false, None, [])
  }

  /** The callback in the slot, if any: resumes its continuation unless that is no longer active. */
  function Invoke<T>(d: Desk<T>, value: T): Desk<T> {
    if d.pending.Some? && d.pending.value < |d.fates| && d.fates[d.pending.value].Waiting? then
      d.(fates := d.fates[d.pending.value := Resumed(value, true)])
    else d
  }

  /** Nobody is listening: the launch is answered at once. */
  function LaunchUnbound<T>(d: Desk<T>, cancelled: bool, nothing: T): Desk<T> {
    d.(fates := d.fates + [if cancelled then Cancelled else Resumed(nothing, false)])
  }

  /** The previous request, if it has no result yet, is answered with `nothing`; then the slot
      is taken, and given up at once if the caller has been cancelled. */
  function LaunchBound<T>(d: Desk<T>, cancelled: bool, nothing: T): Desk<T> {
    var d' := Invoke(d, nothing);
    Desk(d'.bound, if cancelled then None else Some(|d.fates|), d'.fates + [if cancelled then Cancelled else Waiting])
  }

  /** The cancellation handler empties the slot without looking who is in it. */
  function CancelOne<T>(d: Desk<T>, id: nat): Desk<T> {
    if id >= |d.fates| then d
    else match d.fates[id]
      case Waiting => d.(pending := None, fates := d.fates[id := Cancelled])
      case Resumed(_, hooked) =>
        d.(pending := if hooked then None else d.pending, fates := d.fates[id := Cancelled])
      case _ => d
  }

  function DispatchOne<T>(d: Desk<T>, id: nat): Desk<T> {
    if id < |d.fates| && d.fates[id].Resumed? then d.(fates := d.fates[id := Returned(d.fates[id].value)])
    else d
  }

  function Next<T>(d: Desk<T>, e: Event<T>, nothing: T): Desk<T> {
    match e
    case Bind => d.(bound := true)
    case Launch(cancelled) =>
      if d.bound then LaunchBound(d, cancelled, nothing) else LaunchUnbound(d, cancelled, nothing)
    case Result(value) => Invoke(d, value).(pending := None)
    case Dispatch(id) => DispatchOne(d, id)
    case Cancel(id) => CancelOne(d, id)
  }

  function Run<T>(events: seq<Event<T>>, nothing: T): Desk<T> {
    if events == [] then NewDesk()
    else Next(Run(events[..|events| - 1], nothing), events[|events| - 1], nothing)
  }

  // --------------------------------------------------------------------------- every run

  /** The slot is empty or holds the most recent launch, which is still waiting. */
  predicate Sound<T>(d: Desk<T>) {
    d.pending.Some? ==>
      d.bound && d.pending.value == |d.fates| - 1 && d.fates[d.pending.value].Waiting?
  }

  /** A continuation gets one value at most, which stays; and it ends once, returned or cancelled. */
  predicate Advances<T(==)>(before: Fate<T>, after: Fate<T>) {
    match before
    case Waiting => true
    case Resumed(value, hooked) => after == before || after == Returned(value) || after == Cancelled
    case _ => after == before
  }

  lemma {:induction false} NextKeeps<T>(d: Desk<T>, e: Event<T>, nothing: T)
    requires Sound(d)
    ensures Sound(Next(d, e, nothing))
    ensures |d.fates| <= |Next(d, e, nothing).fates|
    ensures forall id :: 0 <= id < |d.fates| ==> Advances(d.fates[id], Next(d, e, nothing).fates[id])
  {
  }

  lemma {:induction false} RunKeeps<T>(events: seq<Event<T>>, nothing: T)
    ensures Sound(Run(events, nothing))
  {
    hide Next, Sound;
    if events == [] {
      NewIsSound<T>();
    } else {
      RunKeeps(events[..|events| - 1], nothing);
      NextKeeps(Run(events[..|events| - 1], nothing), events[|events| - 1], nothing);
    }
  }

  lemma {:induction false} NewIsSound<T>()
    ensures Sound(NewDesk<T>())
  {
  }

  lemma {:induction false} AdvancesFurther<T>(a: Fate<T>, b: Fate<T>, c: Fate<T>)
    requires Advances(a, b) && Advances(b, c)
    ensures Advances(a, c)
  {
  }

  /** However events follow one another, no continuation is resumed a second time, and one
      that has returned or was cancelled stays so. */
  lemma {:induction false} FatesAdvance<T>(events: seq<Event<T>>, n: nat, nothing: T)
    requires n <= |events|
    ensures var before, after := Run(events[..n], nothing).fates, Run(events, nothing).fates;
      |before| <= |after| && forall id :: 0 <= id < |before| ==> Advances(before[id], after[id])
    decreases |events|
  {
    if n == |events| {
      assert events[..n] == events;
    } else {
      hide Next, Sound, Advances;
      var front := events[..|events| - 1];
      FatesAdvance(front, n, nothing);
      assert front[..n] == events[..n];
      RunKeeps(front, nothing);
      NextKeeps(Run(front, nothing), events[|events| - 1], nothing);
      var a, b, c := Run(events[..n], nothing).fates, Run(front, nothing).fates, Run(events, nothing).fates;
      forall id | 0 <= id < |a| ensures Advances(a[id], c[id]) {
        AdvancesFurther(a[id], b[id], c[id]);
      }
    }
  }

  // ------------------------------------------------------------------- does anybody hang

  /** Whoever waits is in the slot, where a result or a later launch will find it. */
  predicate NobodyHangs<T>(d: Desk<T>) {
    forall id :: 0 <= id < |d.fates| && d.fates[id].Waiting? ==> d.pending == Some(id)
  }

  /** A launch that has its value already is cancelled while another one is in the slot. */
  predicate Clobbers<T>(d: Desk<T>, e: Event<T>) {
    && e.Cancel? && e.id < |d.fates|
    && d.fates[e.id].Resumed? && d.fates[e.id].hooked
    && d.pending.Some?
  }

  lemma {:induction false} NextHangsExactly<T>(d: Desk<T>, e: Event<T>, nothing: T)
    requires Sound(d) && NobodyHangs(d)
    ensures NobodyHangs(Next(d, e, nothing)) <==> !Clobbers(d, e)
  {
  }

  /** In a run nobody ever hangs exactly if no launch is cancelled between having its value
      and being dispatched while a later launch waits. */
  lemma {:induction false} NobodyHangsExactly<T>(events: seq<Event<T>>, nothing: T)
    ensures (forall n :: 0 <= n <= |events| ==> NobodyHangs(Run(events[..n], nothing))) <==>
            (forall n :: 0 <= n < |events| ==> !Clobbers(Run(events[..n], nothing), events[n]))
  {
    hide Next, Sound, NobodyHangs, Clobbers, Run;
    if forall n :: 0 <= n <= |events| ==> NobodyHangs(Run(events[..n], nothing)) {
      forall n | 0 <= n < |events| ensures !Clobbers(Run(events[..n], nothing), events[n]) {
        RunKeeps(events[..n], nothing);
        RunOneMore(events, n, nothing);
        assert NobodyHangs(Run(events[..n + 1], nothing));
        NextHangsExactly(Run(events[..n], nothing), events[n], nothing);
      }
    }
    if forall n :: 0 <= n < |events| ==> !Clobbers(Run(events[..n], nothing), events[n]) {
      NoneUpTo(events, |events|, nothing);
    }
  }

  lemma {:induction false} RunOneMore<T>(events: seq<Event<T>>, n: nat, nothing: T)
    requires n < |events|
    ensures Run(events[..n + 1], nothing) == Next(Run(events[..n], nothing), events[n], nothing)
  {
    assert events[..n + 1][..n] == events[..n];
    hide Next;
  }

  lemma {:induction false} NoneUpTo<T>(events: seq<Event<T>>, n: nat, nothing: T)
    requires n <= |events|
    requires forall i :: 0 <= i < n ==> !Clobbers(Run(events[..i], nothing), events[i])
    ensures forall i :: 0 <= i <= n ==> NobodyHangs(Run(events[..i], nothing))
  {
    hide Next, Sound, NobodyHangs, Clobbers, Run;
    if n == 0 {
      NobodyHangsYet(nothing);
      assert events[..0] == [];
    } else {
      NoneUpTo(events, n - 1, nothing);
      RunKeeps(events[..n - 1], nothing);
      RunOneMore(events, n - 1, nothing);
      NextHangsExactly(Run(events[..n - 1], nothing), events[n - 1], nothing);
    }
  }

  lemma {:induction false} NobodyHangsYet<T>(nothing: T)
    ensures NobodyHangs(Run<T>([], nothing))
  {
  }

  function RunFrom<T>(d: Desk<T>, events: seq<Event<T>>, nothing: T): Desk<T> {
    if events == [] then d
    else Next(RunFrom(d, events[..|events| - 1], nothing), events[|events| - 1], nothing)
  }

  /** Who hangs is never heard again: no result and no later launch resumes it, only its own
      cancellation ends it. */
  lemma {:induction false} HangsUntilCancelled<T>(d: Desk<T>, id: nat, events: seq<Event<T>>, nothing: T)
    requires Sound(d) && id < |d.fates| && d.fates[id].Waiting? && d.pending != Some(id)
    requires Cancel(id) !in events
    ensures var d' := RunFrom(d, events, nothing);
      Sound(d') && id < |d'.fates| && d'.fates[id].Waiting? && d'.pending != Some(id)
  {
    if events != [] {
      var n := |events| - 1;
      var before := RunFrom(d, events[..n], nothing);
      HangsUntilCancelled(d, id, events[..n], nothing);
      assert events[n] in events;
      NextKeeps(before, events[n], nothing);
    }
  }

  /** Two pickers and a cancellation that comes late: the second caller hangs. */
  lemma {:induction false} LateCancelHangs<T>(nothing: T)
    ensures !NobodyHangs(Run([Bind, Launch(false), Launch(false), Cancel(0)], nothing))
  {
    var events := [Bind, Launch(false), Launch(false), Cancel(0)];
    RunOneMore(events, 0, nothing);
    RunOneMore(events, 1, nothing);
    RunOneMore(events, 2, nothing);
    RunOneMore(events, 3, nothing);
    assert events[..4] == events && events[..0] == [];
    var d := Run(events[..3], nothing);
    assert d.fates == [Resumed(nothing, true), Waiting];
    assert Clobbers(d, Cancel(0));
    var d' := Run(events, nothing);
    assert d'.fates[1].Waiting? && d'.pending == None;
  }

  // ----------------------------------------------------------------- what each caller gets

  /** What becomes of a launch that is there already. A result goes to the launch in the slot, a
      later launch answers it with `nothing`; its own dispatch returns the value it has, and its
      own cancellation ends it unless it has returned. */
  function FateAfter<T>(d: Desk<T>, id: nat, e: Event<T>, nothing: T): Fate<T>
    requires id < |d.fates|
  {
    var fate := d.fates[id];
    match e
    case Cancel(i) => if i == id && (fate.Waiting? || fate.Resumed?) then Cancelled else fate
    case Dispatch(i) => if i == id && fate.Resumed? then Returned(fate.value) else fate
    case Result(value) => if d.pending == Some(id) then Resumed(value, true) else fate
    case Launch(_) => if d.bound && d.pending == Some(id) then Resumed(nothing, true) else fate
    case Bind => fate
  }

  /** Each event does that, and a launch adds one: cancelled already, waiting in the slot, or,
      with nobody listening, answered with `nothing`. */
  lemma {:induction false} NextExactly<T>(d: Desk<T>, e: Event<T>, nothing: T)
    requires Sound(d)
    ensures var d' := Next(d, e, nothing);
      && |d'.fates| == |d.fates| + (if e.Launch? then 1 else 0)
      && (forall id :: 0 <= id < |d.fates| ==> d'.fates[id] == FateAfter(d, id, e, nothing))
      && (e.Launch? ==>
            d'.fates[|d.fates|] ==
            if e.cancelled then Cancelled else if d.bound then Waiting else Resumed(nothing, false))
      && (e.Launch? && d.bound ==> d'.pending == if e.cancelled then None else Some(|d.fates|))
      && (e.Result? ==> d'.pending == None)
      && (e.Bind? || e.Dispatch? || (e.Launch? && !d.bound) ==> d'.pending == d.pending)
      && (e.Cancel? ==>
            var hooks := e.id < |d.fates|
              && (d.fates[e.id].Waiting? || (d.fates[e.id].Resumed? && d.fates[e.id].hooked));
            d'.pending == if hooks then None else d.pending)
      && d'.bound == (d.bound || e.Bind?)
  {
  }

  /** What is left of a launch that has a value: the first of its dispatch and its cancellation
      decides. */
  function Ending<T>(value: T, hooked: bool, id: nat, later: seq<Event<T>>): Fate<T> {
    if later == [] then Resumed(value, hooked)
    else if later[0] == Dispatch(id) then Returned(value)
    else if later[0] == Cancel(id) then Cancelled
    else Ending(value, hooked, id, later[1..])
  }

  lemma {:induction false} RunFromFirst<T>(d: Desk<T>, e: Event<T>, later: seq<Event<T>>, nothing: T)
    ensures RunFrom(d, [e] + later, nothing) == RunFrom(Next(d, e, nothing), later, nothing)
  {
    hide Next;
    var events := [e] + later;
    if later == [] {
      assert events[..0] == [] && events[0] == e;
      assert RunFrom(d, events[..0], nothing) == d;
    } else {
      assert events[..|events| - 1] == [e] + later[..|later| - 1];
      RunFromFirst(d, e, later[..|later| - 1], nothing);
    }
  }

  lemma {:induction false} EndedStays<T>(d: Desk<T>, id: nat, later: seq<Event<T>>, nothing: T)
    requires Sound(d) && id < |d.fates| && (d.fates[id].Returned? || d.fates[id].Cancelled?)
    ensures var d' := RunFrom(d, later, nothing); Sound(d') && id < |d'.fates| && d'.fates[id] == d.fates[id]
  {
    if later != [] {
      var before := RunFrom(d, later[..|later| - 1], nothing);
      EndedStays(d, id, later[..|later| - 1], nothing);
      NextKeeps(before, later[|later| - 1], nothing);
    }
  }

  lemma {:induction false} ResumedEnds<T>(d: Desk<T>, id: nat, later: seq<Event<T>>, nothing: T)
    requires Sound(d) && id < |d.fates| && d.fates[id].Resumed?
    ensures var d' := RunFrom(d, later, nothing);
      id < |d'.fates| && d'.fates[id] == Ending(d.fates[id].value, d.fates[id].hooked, id, later)
    decreases |later|
  {
    if later != [] {
      var e, next := later[0], Next(d, later[0], nothing);
      assert later == [e] + later[1..];
      RunFromFirst(d, e, later[1..], nothing);
      NextKeeps(d, e, nothing);
      NextExactly(d, e, nothing);
      assert d.pending != Some(id);
      hide Next, RunFrom, Sound;
      assert next.fates[id] == FateAfter(d, id, e, nothing);
      if next.fates[id].Resumed? {
        ResumedEnds(next, id, later[1..], nothing);
      } else {
        EndedStays(next, id, later[1..], nothing);
      }
    }
  }

  lemma {:induction false} RunSplits<T>(events: seq<Event<T>>, n: nat, nothing: T)
    requires n <= |events|
    ensures Run(events, nothing) == RunFrom(Run(events[..n], nothing), events[n..], nothing)
    decreases |events|
  {
    hide Next;
    if n == |events| {
      assert events[..n] == events && events[n..] == [];
    } else {
      var front := events[..|events| - 1];
      RunSplits(front, n, nothing);
      assert front[..n] == events[..n] && front[n..] == events[n..][..|events[n..]| - 1];
    }
  }

  /** A run in which launch `id` gets its value from event `n`. */
  lemma {:induction false} GivenAt<T>(events: seq<Event<T>>, n: nat, id: nat, value: T, hooked: bool, nothing: T)
    requires n < |events| && id < |Run(events[..n + 1], nothing).fates|
    requires Run(events[..n + 1], nothing).fates[id] == Resumed(value, hooked)
    ensures var fates := Run(events, nothing).fates;
      id < |fates| && fates[id] == Ending(value, hooked, id, events[n + 1..])
  {
    hide Run, RunFrom, Ending, Sound;
    RunKeeps(events[..n + 1], nothing);
    RunSplits(events, n + 1, nothing);
    ResumedEnds(Run(events[..n + 1], nothing), id, events[n + 1..], nothing);
  }

  /** Over every run: the result that comes while a launch is in the slot is the value its caller
      returns with when it is dispatched, unless it is cancelled first. */
  lemma {:induction false} ResultReaches<T>(events: seq<Event<T>>, n: nat, nothing: T)
    requires n < |events| && events[n].Result? && Run(events[..n], nothing).pending.Some?
    ensures var id, fates := Run(events[..n], nothing).pending.value, Run(events, nothing).fates;
      id < |fates| && fates[id] == Ending(events[n].value, true, id, events[n + 1..])
  {
    hide Run, Next, Ending;
    var d := Run(events[..n], nothing);
    RunKeeps(events[..n], nothing);
    RunOneMore(events, n, nothing);
    NextExactly(d, events[n], nothing);
    GivenAt(events, n, d.pending.value, events[n].value, true, nothing);
  }

  /** A launch that is superseded by a later one before its result comes is answered with
      `nothing`, and so is one that finds nobody listening. */
  lemma {:induction false} SupersededGetsNothing<T>(events: seq<Event<T>>, n: nat, nothing: T)
    requires n < |events| && events[n].Launch?
    ensures var d, fates := Run(events[..n], nothing), Run(events, nothing).fates;
      && (d.pending.Some? ==>
            d.pending.value < |fates|
            && fates[d.pending.value] == Ending(nothing, true, d.pending.value, events[n + 1..]))
      && (!d.bound && !events[n].cancelled ==>
            |d.fates| < |fates| && fates[|d.fates|] == Ending(nothing, false, |d.fates|, events[n + 1..]))
  {
    hide Run, Next, Ending;
    var d := Run(events[..n], nothing);
    RunKeeps(events[..n], nothing);
    RunOneMore(events, n, nothing);
    NextExactly(d, events[n], nothing);
    if d.pending.Some? {
      GivenAt(events, n, d.pending.value, nothing, true, nothing);
    }
    if !d.bound && !events[n].cancelled {
      GivenAt(events, n, |d.fates|, nothing, false, nothing);
    }
  }

  // ----------------------------------------------------------------- who gets a result

  /** The launches that have been given something other than `nothing`. */
  function Given<T(==)>(fates: seq<Fate<T>>, nothing: T): nat {
    if fates == [] then 0
    else
      var last := fates[|fates| - 1];
      Given(fates[..|fates| - 1], nothing)
        + if (last.Resumed? || last.Returned?) && last.value != nothing then 1 else 0
  }

  function Results<T(==)>(events: seq<Event<T>>, nothing: T): nat {
    if events == [] then 0
    else
      var last := events[|events| - 1];
      Results(events[..|events| - 1], nothing) + if last.Result? && last.value != nothing then 1 else 0
  }

  lemma {:induction false} GivenOneMore<T>(fates: seq<Fate<T>>, fate: Fate<T>, nothing: T)
    ensures Given(fates + [fate], nothing) ==
      Given(fates, nothing) + if (fate.Resumed? || fate.Returned?) && fate.value != nothing then 1 else 0
  {
  }

  lemma {:induction false} GivenChanged<T>(fates: seq<Fate<T>>, id: nat, fate: Fate<T>, nothing: T)
    requires id < |fates|
    ensures Given(fates[id := fate], nothing) ==
      Given(fates, nothing)
      - (if (fates[id].Resumed? || fates[id].Returned?) && fates[id].value != nothing then 1 else 0)
      + (if (fate.Resumed? || fate.Returned?) && fate.value != nothing then 1 else 0)
  {
    var n := |fates| - 1;
    if id < n {
      GivenChanged(fates[..n], id, fate, nothing);
      assert fates[id := fate][..n] == fates[..n][id := fate];
    } else {
      assert fates[id := fate][..n] == fates[..n];
    }
  }

  lemma {:induction false} NextGives<T>(d: Desk<T>, e: Event<T>, nothing: T)
    ensures Given(Next(d, e, nothing).fates, nothing) <=
      Given(d.fates, nothing) + if e.Result? && e.value != nothing then 1 else 0
  {
    hide Given;
    match e {
      case Bind =>
      case Launch(cancelled) =>
        InvokeGives(d, nothing, nothing);
        var fates := if d.bound then Invoke(d, nothing).fates else d.fates;
        GivenOneMore(fates, Next(d, e, nothing).fates[|fates|], nothing);
      case Result(value) => InvokeGives(d, value, nothing);
      case Dispatch(id) =>
        if id < |d.fates| && d.fates[id].Resumed? {
          GivenChanged(d.fates, id, Returned(d.fates[id].value), nothing);
        }
      case Cancel(id) =>
        if id < |d.fates| {
          GivenChanged(d.fates, id, Cancelled, nothing);
        }
    }
  }

  lemma {:induction false} InvokeGives<T>(d: Desk<T>, value: T, nothing: T)
    ensures Given(Invoke(d, value).fates, nothing) <= Given(d.fates, nothing) + if value != nothing then 1 else 0
  {
    hide Given;
    if d.pending.Some? && d.pending.value < |d.fates| && d.fates[d.pending.value].Waiting? {
      GivenChanged(d.fates, d.pending.value, Resumed(value, true), nothing);
    }
  }

  /** No result is given to two callers: no more callers have one than results came. */
  lemma {:induction false} ResultsGivenOnce<T>(events: seq<Event<T>>, nothing: T)
    ensures Given(Run(events, nothing).fates, nothing) <= Results(events, nothing)
  {
    if events != [] {
      hide Next, Given;
      ResultsGivenOnce(events[..|events| - 1], nothing);
      NextGives(Run(events[..|events| - 1], nothing), events[|events| - 1], nothing);
    } else {
      NoneGiven(nothing);
    }
  }

  lemma {:induction false} NoneGiven<T>(nothing: T)
    ensures Given(Run<T>([], nothing).fates, nothing) == 0
  {
  }
}
