/** The upload link's handler and the visitor's page, as the objects they are. Each callback
    is proved to take exactly the step that `PublicLink` gives it, so what is proved there of
    overlapping uploads and of a visitor's queue holds of these objects. */
module LinkUploads {
  import opened Options
  import opened Paths
  import opened Naming
  import opened FileTree
  import opened PublicLink

  /** The server's tree and what is left of one link. */
  class UploadLink {
    const link: Link
    var nodes: FlatTree
    var remaining: Option<int>
    ghost var stored: seq<Upload>

    ghost function State(): Server
      reads this
    {
      Server(nodes, remaining, stored)
    }

    constructor (link: Link, nodes: FlatTree, remaining: Option<int>)
      ensures this.link == link && State() == Server(nodes, remaining, [])
    {
      this.link, this.nodes, this.remaining := link, nodes, remaining;
      stored := [];
    }

    /** Up to the point where the handler waits for the body. */
    method Begin(rawName: string) returns (name: Option<string>)
      ensures name == UsableName(rawName)
      ensures name.Some? ==> IsSegment(name.value) && name.value[0] != '.' && IsCoreOf(name.value, rawName)
      ensures name.None? ==> forall n :: IsSegment(n) && IsCoreOf(n, rawName) ==> n[0] == '.'
    {
      forall n {
        UsableExactly(rawName, n);
      }
      var trimmed := Trim(rawName);
      if trimmed == "" || trimmed[0] == '.' || '/' in trimmed || '\\' in trimmed {
        return None;
      }
      return Some(trimmed);
    }

    /** The loop that counts up to a free name. It ends because every taken name uses up one
        of the finitely many keys. */
    method FindTarget(name: string) returns (target: string)
      ensures target == FreeTarget(nodes, link.base, name)
    {
      target := link.base + "/" + name;
      var i := 1;
      ghost var plain, stem, ext := target, link.base + "/" + Base(name), Extension(name);
      while target in nodes
        invariant i >= 1
        invariant i == 1 ==> target == plain
        invariant i > 1 ==>
          && target == Numbered(stem, i - 1, ext) && plain in nodes
          && FirstFree(nodes.Keys, stem, i - 1, ext) == FirstFree(nodes.Keys, stem, 1, ext)
        decreases i == 1, |nodes.Keys - Tried(stem, if i == 1 then 1 else i - 1, ext)|
      {
        if i > 1 {
          TriedGrows(nodes.Keys, stem, i - 1, ext);
        }
        target := Numbered(link.base + "/" + Base(name), i, Extension(name));
        i := i + 1;
      }
    }

    /** From the moment the body is there. */
    method End(name: string, data: Bytes) returns (status: nat)
      modifies this
      ensures (State(), status) == Finish(link, old(State()), name, data)
    {
      if !FitsLimit(link, data) {
        return 413;
      }
      if remaining.Some? {
        if remaining.value <= 0 {
          return 410;
        }
        remaining := Some(remaining.value - 1);
      }
      var target := FindTarget(name);
      nodes := nodes[target := File(data)];
      stored := stored + [Upload(name, data, target)];
      return 201;
    }
  }

  /** The `uploads` object and the `sending` flag of the public page. */
  class VisitorPage {
    var items: seq<Picked>
    var started: seq<bool>
    var sending: bool
    ghost var inFlight: set<nat>
    ghost var sent: seq<nat>

    ghost function State(): Visitor
      reads this
    {
      Visitor(items, started, sending, inFlight, sent)
    }

    constructor ()
      ensures State() == IDLE
    {
      items, started, sending := [], [], false;
      inFlight, sent := {}, [];
    }

    method Queue(file: Picked)
      modifies this
      ensures State() == Pick(old(State()), file)
    {
      items, started := items + [file], started + [false];
      SendNext();
    }

    /** `pump`: the first item not yet started is sent, unless one is being sent. */
    method SendNext()
      modifies this
      ensures State() == PumpVisitor(old(State()))
    {
      if sending {
        return;
      }
      var next := 0;
      while next < |started| && started[next]
        invariant next <= |started|
        invariant forall j :: 0 <= j < next ==> started[j]
      {
        next := next + 1;
      }
      assert next == FirstIdle(started);
      if next == |started| {
        return;
      }
      sending := true;
      started := started[next := true];
      inFlight, sent := inFlight + {next}, sent + [next];
    }

    /** What follows a request that was answered or that broke. */
    method OnSettled(i: nat)
      modifies this
      ensures State() == Settled(old(State()), i)
    {
      sending := false;
      inFlight := inFlight - {i};
      SendNext();
    }
  }
}
