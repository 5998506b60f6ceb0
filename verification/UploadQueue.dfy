/** The page's `uploads` object and the callbacks that change it in place. Each is proved to
    take exactly the step that `Uploads` gives it, so what is proved there of every run
    holds of this object. */
module UploadQueue {
  import opened Options
  import opened Uploads

  class PortalUploads {
    var items: seq<Item>
    var running: bool
    var policy: Option<Choice>
    var nextId: nat
    var signedIn: bool
    var inFlight: map<nat, Flight>
    ghost var queued: seq<Job>
    ghost var sent: seq<Send>
    ghost var replaced: set<nat>

    ghost function State(): Page
      reads this
    {
      Page(items, running, policy, nextId, signedIn, inFlight, queued, sent, replaced)
    }

    constructor ()
      ensures State() == FRESH
    {
      items, running, policy, nextId, signedIn, inFlight := [], false, None, 1, false, map[];
      queued, sent, replaced := [], [], {};
    }

    /** `queueUploads`: the files are put in one after another, then the pump is started. */
    method QueueUploads(jobs: seq<Job>, writable: bool)
      modifies this
      ensures State() == Next(old(State()), Event.Queue(jobs, writable))
    {
      if jobs == [] || !writable {
        return;
      }
      for i := 0 to |jobs|
        invariant State() == Queued(old(State()), jobs[..i])
      {
        items := items + [Item(nextId, jobs[i], Waiting)];
        queued := queued + [jobs[i]];
        nextId := nextId + 1;
        assert jobs[..i + 1] == jobs[..i] + [jobs[i]];
        assert old(queued) + jobs[..i + 1] == old(queued) + jobs[..i] + [jobs[i]];
        assert Uploads.Numbered(jobs[..i + 1], old(nextId)) ==
          Uploads.Numbered(jobs[..i], old(nextId)) + [Item(old(nextId) + i, jobs[i], Waiting)];
        assert items == old(items) + Uploads.Numbered(jobs[..i + 1], old(nextId));
      }
      assert jobs[..|jobs|] == jobs;
      StartPump();
    }

    method StartPump()
      modifies this
      ensures State() == Pump(old(State()))
    {
      if running {
        return;
      }
      running := true;
      policy := None;
      SendNext();
    }

    /** The pump's `next`, up to the request it makes. */
    method SendNext()
      modifies this
      ensures State() == Advance(old(State()))
    {
      var first := FirstWaiting(items);
      if first.None? || !signedIn {
        running := false;
        return;
      }
      var item := items[first.value];
      SetItem(item.id, Uploading);
      SendFile(item.id, item.job, false);
      inFlight := inFlight[item.id := Flight(item.job, PlainReply)];
    }

    method SetItem(id: nat, status: Status)
      modifies `items
      ensures items == SetStatus(old(items), id, status)
    {
      for i := 0 to |items|
        invariant |items| == |old(items)|
        invariant forall j :: 0 <= j < |items| ==>
          items[j] == if j < i && old(items)[j].id == id then old(items)[j].(status := status) else old(items)[j]
      {
        if items[i].id == id {
          items := items[i := items[i].(status := status)];
        }
      }
    }

    ghost method SendFile(id: nat, job: Job, overwrite: bool)
      modifies `sent
      ensures sent == old(sent) + [Put(id, job, overwrite)]
    {
      sent := sent + [Put(id, job, overwrite)];
    }

    method SettleItem(id: nat, status: Status)
      modifies this
      ensures State() == Settle(old(State()), id, status)
    {
      SetItem(id, status);
      inFlight := inFlight - {id};
      SendNext();
    }

    method Decided(id: nat, choice: Choice)
      requires id in inFlight
      modifies this
      ensures State() == Decide(old(State()), id, choice)
    {
      if choice != ReplaceIt {
        SettleItem(id, Skipped);
        return;
      }
      var job := inFlight[id].job;
      replaced := replaced + {id};
      SendFile(id, job, true);
      inFlight := inFlight[id := Flight(job, OverwriteReply)];
    }

    /** The two `then` callbacks of `uploadOne`, on the server's reply to either request. */
    method OnReply(id: nat, status: nat, code: string)
      modifies this
      ensures State() == Next(old(State()), Reply(id, status, code))
    {
      if id !in inFlight || inFlight[id].waits == Decision {
        return;
      }
      if inFlight[id].waits == PlainReply && status == 409 && code == "already_exists" {
        if policy.Some? {
          Decided(id, policy.value);
        } else {
          inFlight := inFlight[id := Flight(inFlight[id].job, Decision)];
        }
        return;
      }
      if 200 <= status < 300 {
        SettleItem(id, Done);
      } else {
        if status == 401 {
          signedIn := false;
        }
        SettleItem(id, Failed);
      }
    }

    /** What `askReplace` does with the answer; a closed dialog means skip. */
    method OnAnswer(id: nat, choice: Option<Choice>, forAll: bool)
      modifies this
      ensures State() == Next(old(State()), Answer(id, choice, forAll))
    {
      if id !in inFlight || inFlight[id].waits != Decision {
        return;
      }
      var picked := if choice.Some? then choice.value else SkipIt;
      if forAll {
        policy := Some(picked);
      }
      Decided(id, picked);
    }

    method SetSession(token: bool)
      modifies `signedIn
      ensures State() == Next(old(State()), if token then SignIn else EndSession)
    {
      signedIn := token;
    }

    method ClearList()
      modifies `items
      ensures State() == Next(old(State()), Clear)
    {
      if exists i :: 0 <= i < |items| && IsActive(items[i].status) {
        return;
      }
      items := [];
    }
  }
}
