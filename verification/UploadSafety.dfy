/** The page's upload queue and the server's PUT together. The server looks before it waits
    for the body and writes after, so between look and write the tree may have changed. */
module UploadSafety {
  import opened Options
  import opened Paths
  import opened FileTree
  import Requests
  import opened Uploads
  import opened UploadChoices

  /** How far the server is with a request: not begun, or waiting for the body of a file it
      has decided to store at `path`. */
  datatype Stage = Arriving | Receiving(path: string)

  datatype Open = Open(send: Send, body: Bytes, stage: Stage)

  /** `open` holds the requests the page still waits for, by their number in `page.sent`;
      `orphans` those it has given up on while the server has not. */
  datatype System = System(page: Page, tree: FlatTree, open: map<nat, Open>, orphans: seq<Open>)

  /** What became of a request whose connection failed: it was dropped, its answer was lost
      after the write, or the server goes on with it. */
  datatype Fate = Dropped | Written | Lingering

  datatype Step =
    | User(event: Event)
    | Check(k: nat)
    | Unauthorized(k: nat)
    | Write(k: nat)
    | Fail(k: nat, fate: Fate)
    | OrphanMoves(i: nat)
    | OrphanDies(i: nat)

  /** The server's look at the tree: an answer at once, or a place to store the body. */
  function Look(tree: FlatTree, send: Send): Requests.Admission {
    if send.rootId != "phone" && send.rootId != "card" then Requests.Reject(Requests.Refused(404, "root_not_found"))
    else Requests.PutCheck(tree, send.rootId == "phone", send.path, send.overwrite)
  }

  /** The requests made from number `n` on, on their way to the server. */
  function SentSince(page: Page, n: nat): map<nat, Open>
    requires forall k :: n <= k < |page.sent| ==> 1 <= page.sent[k].id <= |page.queued|
  {
    map k: nat | n <= k < |page.sent| :: Open(page.sent[k], page.queued[page.sent[k].id - 1].data, Arriving)
  }

  /** The page has moved on. */
  function Connect(s: System, page: Page): System
    requires forall k :: |s.page.sent| <= k < |page.sent| ==> 1 <= page.sent[k].id <= |page.queued|
  {
    s.(page := page, open := s.open + SentSince(page, |s.page.sent|))
  }

  function Deliver(s: System, k: nat, status: nat, code: string): System
    requires k < |s.page.sent| && Inv(s.page)
  {
    var e := Reply(s.page.sent[k].id, status, code);
    NextKeeps(s.page, e);
    Connect(s.(open := s.open - {k}), Next(s.page, e))
  }

  /** Which steps can be taken. A user's event is not a reply; a reply needs a request. */
  predicate Enabled(s: System, step: Step) {
    match step
    case User(e) => !e.Reply?
    case Check(k) => k in s.open && s.open[k].stage.Arriving? && k < |s.page.sent|
    case Unauthorized(k) => k in s.open && s.open[k].stage.Arriving? && k < |s.page.sent|
    case Write(k) => k in s.open && s.open[k].stage.Receiving? && k < |s.page.sent|
    case Fail(k, fate) => k in s.open && k < |s.page.sent| && (fate == Written ==> s.open[k].stage.Receiving?)
    case OrphanMoves(i) => i < |s.orphans|
    case OrphanDies(i) => i < |s.orphans|
  }

  function Removed(orphans: seq<Open>, i: nat): seq<Open>
    requires i < |orphans|
  {
    orphans[..i] + orphans[i + 1..]
  }

  function Moved(s: System, step: Step): System
    requires Inv(s.page) && Enabled(s, step)
  {
    match step
    case User(e) =>
      NextKeeps(s.page, e);
      Connect(s, Next(s.page, e))
    case Check(k) =>
      (match Look(s.tree, s.open[k].send)
       case Reject(Refused(status, code)) => Deliver(s, k, status, code)
       case Reject(_) => s  // never: a rejected PUT is refused
       case Admit(path, _) => s.(open := s.open[k := s.open[k].(stage := Receiving(path))]))
    case Unauthorized(k) => Deliver(s, k, 401, "unauthorized")
    case Write(k) =>
      var path := s.open[k].stage.path;
      Deliver(s.(tree := Requests.PutStore(s.tree, path, s.open[k].body)), k, if path in s.tree then 200 else 201, "")
    case Fail(k, fate) =>
      var tree := if fate == Written then Requests.PutStore(s.tree, s.open[k].stage.path, s.open[k].body) else s.tree;
      var orphans := if fate == Lingering then s.orphans + [s.open[k]] else s.orphans;
      Deliver(s.(tree := tree, orphans := orphans), k, 0, "network")
    case OrphanMoves(i) =>
      var o := s.orphans[i];
      if o.stage.Receiving? then
        s.(tree := Requests.PutStore(s.tree, o.stage.path, o.body), orphans := Removed(s.orphans, i))
      else
        (match Look(s.tree, o.send)
         case Reject(_) => s.(orphans := Removed(s.orphans, i))
         case Admit(path, _) => s.(orphans := s.orphans[i := o.(stage := Receiving(path))]))
    case OrphanDies(i) => s.(orphans := Removed(s.orphans, i))
  }

  /** A step that cannot be taken changes nothing. */
  function After(s: System, step: Step): System
    requires Inv(s.page)
  {
    if Enabled(s, step) then Moved(s, step) else s
  }

  lemma {:induction false} AfterKeepsInv(s: System, step: Step)
    requires Inv(s.page)
    ensures Inv(After(s, step).page)
  {
    hide Inv, Next;
    match step {
      case User(e) => NextKeeps(s.page, e);
      case Check(k) =>
        if k < |s.page.sent| {
          forall status, code {
            NextKeeps(s.page, Reply(s.page.sent[k].id, status, code));
          }
        }
      case Unauthorized(k) =>
        if k < |s.page.sent| {
          NextKeeps(s.page, Reply(s.page.sent[k].id, 401, "unauthorized"));
        }
      case Write(k) =>
        if k < |s.page.sent| {
          NextKeeps(s.page, Reply(s.page.sent[k].id, 200, ""));
          NextKeeps(s.page, Reply(s.page.sent[k].id, 201, ""));
        }
      case Fail(k, fate) =>
        if k < |s.page.sent| {
          NextKeeps(s.page, Reply(s.page.sent[k].id, 0, "network"));
        }
      case OrphanMoves(i) =>
      case OrphanDies(i) =>
    }
  }

  // --------------------------------------------------------------- one request at a time

  /** The page waits for at most one request: the last it made, for the item in flight. */
  ghost predicate OpenFits(page: Page, open: map<nat, Open>) {
    forall k :: k in open ==>
      && k == |page.sent| - 1 && open[k].send == page.sent[k] && AwaitsServer(page, page.sent[k].id)
      && (open[k].stage.Receiving? ==> ParsePath(open[k].send.path) == Ok(open[k].stage.path))
  }

  lemma {:induction false} ConnectNone(s: System, page: Page)
    requires page.sent == s.page.sent
    ensures Connect(s, page) == s.(page := page)
  {
  }

  lemma {:induction false} ConnectOne(s: System, page: Page)
    requires |page.sent| == |s.page.sent| + 1 && 1 <= page.sent[|s.page.sent|].id <= |page.queued|
    ensures var k := |s.page.sent|;
      Connect(s, page) == s.(page := page,
        open := s.open[k := Open(page.sent[k], page.queued[page.sent[k].id - 1].data, Arriving)])
  {
    var n := |s.page.sent|;
    assert SentSince(page, n) == map[n := Open(page.sent[n], page.queued[page.sent[n].id - 1].data, Arriving)];
  }

  lemma {:induction false} ConnectFits(s: System, e: Event)
    requires Inv(s.page) && Inv(Next(s.page, e)) && OpenFits(s.page, s.open)
    requires e.Reply? ==> s.open == map[]
    ensures OpenFits(Next(s.page, e), Connect(s, Next(s.page, e)).open)
  {
    hide Inv, Next, Connect;
    var page := Next(s.page, e);
    NextSends(s.page, e);
    SendsAreQueued(page);
    forall k | k in s.open
      ensures page.sent == s.page.sent && page.inFlight == s.page.inFlight
    {
      UserWaits(s.page, e, s.page.sent[k].id);
    }
    if page.sent == s.page.sent {
      ConnectNone(s, page);
    } else {
      ConnectOne(s, page);
      assert s.open == map[];
    }
  }

  lemma {:induction false} SendsAreQueued(page: Page)
    requires Inv(page)
    ensures forall k :: 0 <= k < |page.sent| ==> 1 <= page.sent[k].id <= |page.queued|
  {
    hide ItemsInOrder, OneInFlight, SentInOrder, WaitingUnsent, FlightIsLast, Put;
  }

  lemma {:induction false} DeliverFits(s: System, k: nat, status: nat, code: string)
    requires Inv(s.page) && OpenFits(s.page, s.open) && k in s.open && k < |s.page.sent|
    ensures var s' := Deliver(s, k, status, code);
      OpenFits(s'.page, s'.open) && s'.tree == s.tree && s'.orphans == s.orphans
    ensures forall j :: j in Deliver(s, k, status, code).open ==> Deliver(s, k, status, code).open[j].stage.Arriving?
  {
    hide Inv, Next, OpenFits;
    var e := Reply(s.page.sent[k].id, status, code);
    NextKeeps(s.page, e);
    OnlyOne(s.page, s.open, k);
    ConnectFits(s.(open := map[]), e);
  }

  lemma {:induction false} OnlyOne(page: Page, open: map<nat, Open>, k: nat)
    requires OpenFits(page, open) && k in open
    ensures open - {k} == map[] && OpenFits(page, map[])
  {
    hide AwaitsServer, ParsePath;
    assert forall j :: j in open ==> j == k;
  }

  lemma {:induction false} LookAdmits(tree: FlatTree, send: Send)
    requires Look(tree, send).Admit?
    ensures ParsePath(send.path) == Ok(Look(tree, send).path)
    ensures !send.overwrite ==> Look(tree, send).path !in tree
  {
    hide ParsePath, ParentOf;
  }

  /** What the page has given up on it did send. */
  ghost predicate OrphansFit(page: Page, orphans: seq<Open>) {
    forall i :: 0 <= i < |orphans| ==>
      && orphans[i].send in page.sent
      && (orphans[i].stage.Receiving? ==> ParsePath(orphans[i].send.path) == Ok(orphans[i].stage.path))
  }

  ghost predicate Plausible(s: System) {
    Inv(s.page) && OpenFits(s.page, s.open) && OrphansFit(s.page, s.orphans)
  }

  lemma {:induction false} OrphansStayFit(page: Page, page': Page, orphans: seq<Open>)
    requires OrphansFit(page, orphans) && page.sent <= page'.sent
    ensures OrphansFit(page', orphans)
  {
    hide ParsePath;
    forall i | 0 <= i < |orphans|
      ensures orphans[i].send in page'.sent
    {
      var k :| 0 <= k < |page.sent| && page.sent[k] == orphans[i].send;
      assert page'.sent[k] == orphans[i].send;
    }
  }

  lemma {:induction false} DeliverStaysPlausible(s: System, k: nat, status: nat, code: string)
    requires Plausible(s) && k in s.open && k < |s.page.sent|
    ensures Plausible(Deliver(s, k, status, code))
  {
    var e := Reply(s.page.sent[k].id, status, code);
    NextKeeps(s.page, e);
    NextMoves(s.page, e);
    DeliverFits(s, k, status, code);
    hide Inv, Next, OpenFits, OrphansFit, ItemsForward;
    OrphansStayFit(s.page, Next(s.page, e), s.orphans);
  }

  lemma {:induction false} UserStaysPlausible(s: System, e: Event)
    requires Plausible(s) && !e.Reply? && Inv(Next(s.page, e))
    ensures Plausible(Connect(s, Next(s.page, e)))
  {
    ConnectFits(s, e);
    NextMoves(s.page, e);
    hide Inv, Next, OpenFits, OrphansFit, ItemsForward;
    OrphansStayFit(s.page, Next(s.page, e), s.orphans);
  }

  lemma {:induction false} AdmitStaysPlausible(s: System, k: nat)
    requires Plausible(s) && k in s.open && Look(s.tree, s.open[k].send).Admit?
    ensures Plausible(s.(open := s.open[k := s.open[k].(stage := Receiving(Look(s.tree, s.open[k].send).path))]))
  {
    LookAdmits(s.tree, s.open[k].send);
    hide Inv, Look, ParsePath, AwaitsServer, OrphansFit;
  }

  lemma {:induction false} GivenUpFits(s: System, k: nat)
    requires Plausible(s) && k in s.open && k < |s.page.sent|
    ensures OrphansFit(s.page, s.orphans + [s.open[k]])
  {
    hide Inv, ParsePath, AwaitsServer;
  }

  lemma {:induction false} OrphanStaysPlausible(s: System, i: nat)
    requires Plausible(s) && i < |s.orphans|
    ensures OrphansFit(s.page, Removed(s.orphans, i))
    ensures Look(s.tree, s.orphans[i].send).Admit? ==>
      OrphansFit(s.page, s.orphans[i := s.orphans[i].(stage := Receiving(Look(s.tree, s.orphans[i].send).path))])
  {
    if Look(s.tree, s.orphans[i].send).Admit? {
      LookAdmits(s.tree, s.orphans[i].send);
    }
    hide Inv, Look, ParsePath, OpenFits;
  }

  lemma {:induction false} AfterIsPlausible(s: System, step: Step)
    requires Plausible(s)
    ensures Plausible(After(s, step))
  {
    hide Inv, Next, Look, Connect, OpenFits, OrphansFit, Deliver;
    if Enabled(s, step) {
      match step {
        case User(e) =>
          NextKeeps(s.page, e);
          UserStaysPlausible(s, e);
        case Check(k) =>
          var look := Look(s.tree, s.open[k].send);
          if look.Reject? && look.reply.Refused? {
            DeliverStaysPlausible(s, k, look.reply.status, look.reply.code);
          } else if look.Admit? {
            AdmitStaysPlausible(s, k);
          }
        case Unauthorized(k) =>
          DeliverStaysPlausible(s, k, 401, "unauthorized");
        case Write(k) =>
          var path := s.open[k].stage.path;
          var tree := Requests.PutStore(s.tree, path, s.open[k].body);
          DeliverStaysPlausible(s.(tree := tree), k, if path in s.tree then 200 else 201, "");
        case Fail(k, fate) =>
          var tree := if fate == Written then Requests.PutStore(s.tree, s.open[k].stage.path, s.open[k].body)
            else s.tree;
          var orphans := if fate == Lingering then s.orphans + [s.open[k]] else s.orphans;
          GivenUpFits(s, k);
          DeliverStaysPlausible(s.(tree := tree, orphans := orphans), k, 0, "network");
        case OrphanMoves(i) =>
          OrphanStaysPlausible(s, i);
        case OrphanDies(i) =>
          OrphanStaysPlausible(s, i);
      }
    }
  }

  // ------------------------------------------------------------------------------ writes

  /** The request whose body this step stores, if it stores one. */
  function WriteOf(s: System, step: Step): (o: Option<Open>)
    ensures o.Some? ==> o.value.stage.Receiving?
  {
    if !Enabled(s, step) then None
    else match step
      case Write(k) => Some(s.open[k])
      case Fail(k, fate) => if fate == Written then Some(s.open[k]) else None
      case OrphanMoves(i) => if s.orphans[i].stage.Receiving? then Some(s.orphans[i]) else None
      case _ => None
  }

  lemma {:induction false} TreeAfter(s: System, step: Step)
    requires Inv(s.page)
    ensures var w := WriteOf(s, step);
      After(s, step).tree == if w.Some? then Requests.PutStore(s.tree, w.value.stage.path, w.value.body) else s.tree
  {
    hide Inv, Next, Look;
  }

  /** The user chose Replace for the very item this request is for. */
  predicate Chosen(page: Page, o: Open) {
    o.send.overwrite && o.send.id in page.replaced
  }

  /** Every file stays as it is, unless this step stores the item for which Replace was chosen. */
  ghost predicate SafeStep(s: System, step: Step)
    requires Inv(s.page)
  {
    var w, after := WriteOf(s, step), After(s, step).tree;
    forall p :: p in s.tree ==>
      p in after && (after[p] == s.tree[p] || (w.Some? && w.value.stage.path == p && Chosen(s.page, w.value)))
  }

  /** A request that must not overwrite is about to store its body over a file with other content. */
  predicate Clobbers(s: System, step: Step) {
    var w := WriteOf(s, step);
    && w.Some? && !w.value.send.overwrite
    && w.value.stage.path in s.tree && s.tree[w.value.stage.path] != File(w.value.body)
  }

  lemma {:induction false} WriteWasSent(s: System, step: Step)
    requires Plausible(s) && WriteOf(s, step).Some?
    ensures WriteOf(s, step).value.send in s.page.sent
    ensures ParsePath(WriteOf(s, step).value.send.path) == Ok(WriteOf(s, step).value.stage.path)
  {
    hide Inv, ParsePath, AwaitsServer;
  }

  /** An overwriting request is only made for an item for which Replace was chosen. */
  lemma {:induction false} OverwriteIsChosen(page: Page, send: Send)
    requires Inv(page) && send in page.sent && send.overwrite
    ensures send.id in page.replaced
  {
    hide ItemsInOrder, OneInFlight, SentWhereQueued, WaitingUnsent, FlightIsLast;
  }

  /** A step is safe exactly if it does not clobber. */
  lemma {:induction false} SafeStepExactly(s: System, step: Step)
    requires Plausible(s)
    ensures SafeStep(s, step) <==> !Clobbers(s, step)
  {
    hide Plausible, Inv, After, WriteOf, Chosen, Requests.PutStore;
    PlausibleInv(s);
    TreeAfter(s, step);
    var w := WriteOf(s, step);
    if w.Some? {
      WriteIsChosenExactly(s, step);
      PutChanges(s.tree, w.value.stage.path, w.value.body);
    }
  }

  lemma {:induction false} WriteIsChosenExactly(s: System, step: Step)
    requires Plausible(s) && WriteOf(s, step).Some?
    ensures Chosen(s.page, WriteOf(s, step).value) <==> WriteOf(s, step).value.send.overwrite
  {
    hide Plausible, Inv, WriteOf;
    PlausibleInv(s);
    WriteWasSent(s, step);
    if WriteOf(s, step).value.send.overwrite {
      OverwriteIsChosen(s.page, WriteOf(s, step).value.send);
    }
  }

  lemma {:induction false} PutChanges(tree: FlatTree, path: string, body: Bytes)
    ensures var after := Requests.PutStore(tree, path, body);
      forall p :: p in tree ==> p in after && after[p] == if p == path then File(body) else tree[p]
  {
  }

  // -------------------------------------------------------------- without lingering requests

  /** What the server was going to find when it looked is what it will find when it writes. */
  ghost predicate NoSurprise(page: Page, tree: FlatTree, open: map<nat, Open>) {
    forall k :: k in open && open[k].stage.Receiving? && !open[k].send.overwrite ==> open[k].stage.path !in tree
  }

  ghost predicate Sound(s: System) {
    Plausible(s) && NoSurprise(s.page, s.tree, s.open) && s.orphans == []
  }

  predicate Lingers(step: Step) {
    step.Fail? && step.fate == Lingering
  }

  lemma {:induction false} DeliverSurprisesNobody(s: System, k: nat, status: nat, code: string)
    requires Plausible(s) && s.orphans == [] && k in s.open && k < |s.page.sent|
    ensures var s' := Deliver(s, k, status, code); NoSurprise(s'.page, s'.tree, s'.open) && s'.orphans == []
  {
    DeliverFits(s, k, status, code);
    hide Inv, Next, OpenFits, Deliver;
  }

  lemma {:induction false} UserSurprisesNobody(s: System, e: Event)
    requires Sound(s) && !e.Reply? && Inv(Next(s.page, e))
    ensures var s' := Connect(s, Next(s.page, e)); NoSurprise(s'.page, s'.tree, s'.open) && s'.orphans == []
  {
    hide Inv, Next, OpenFits;
  }

  lemma {:induction false} AdmitSurprisesNobody(s: System, k: nat)
    requires Sound(s) && k in s.open && Look(s.tree, s.open[k].send).Admit?
    ensures var open := s.open[k := s.open[k].(stage := Receiving(Look(s.tree, s.open[k].send).path))];
      NoSurprise(s.page, s.tree, open)
  {
    LookAdmits(s.tree, s.open[k].send);
    hide Inv, Look, ParsePath, OpenFits;
  }

  lemma {:induction false} StepStaysSound(s: System, step: Step)
    requires Sound(s) && !Lingers(step)
    ensures Sound(After(s, step))
  {
    hide Inv, Next, Look, Connect, OpenFits, OrphansFit, NoSurprise, Deliver, Plausible;
    AfterIsPlausible(s, step);
    if Enabled(s, step) {
      match step {
        case User(e) =>
          PlausibleInv(s);
          NextKeeps(s.page, e);
          UserSurprisesNobody(s, e);
        case Check(k) =>
          var look := Look(s.tree, s.open[k].send);
          if look.Reject? && look.reply.Refused? {
            DeliverSurprisesNobody(s, k, look.reply.status, look.reply.code);
          } else if look.Admit? {
            AdmitSurprisesNobody(s, k);
          }
        case Unauthorized(k) =>
          DeliverSurprisesNobody(s, k, 401, "unauthorized");
        case Write(k) =>
          var path := s.open[k].stage.path;
          var tree := Requests.PutStore(s.tree, path, s.open[k].body);
          TreeDoesNotMatter(s, tree);
          DeliverSurprisesNobody(s.(tree := tree), k, if path in s.tree then 200 else 201, "");
        case Fail(k, fate) =>
          var tree := if fate == Written then Requests.PutStore(s.tree, s.open[k].stage.path, s.open[k].body)
            else s.tree;
          TreeDoesNotMatter(s, tree);
          DeliverSurprisesNobody(s.(tree := tree), k, 0, "network");
        case _ =>
      }
    }
  }

  lemma {:induction false} PlausibleInv(s: System)
    requires Plausible(s)
    ensures Inv(s.page)
  {
    hide Inv;
  }

  lemma {:induction false} TreeDoesNotMatter(s: System, tree: FlatTree)
    requires Plausible(s)
    ensures Plausible(s.(tree := tree))
  {
    hide Inv, OpenFits, OrphansFit;
  }

  /** Each step short of a lingering request keeps the system sound and clobbers nothing. */
  lemma {:induction false} StepIsSafe(s: System, step: Step)
    requires Sound(s) && !Lingers(step)
    ensures Sound(After(s, step)) && !Clobbers(s, step) && SafeStep(s, step)
  {
    hide Inv, After, SafeStep, Plausible;
    PlausibleInv(s);
    StepStaysSound(s, step);
    assert !Clobbers(s, step) by {
      var w := WriteOf(s, step);
      if w.Some? && !w.value.send.overwrite {
        assert w.value.stage.path !in s.tree;
      }
    }
    SafeStepExactly(s, step);
  }

  // --------------------------------------------------------------------------------- runs

  function Start(tree: FlatTree): System {
    System(FRESH, tree, map[], [])
  }

  function State(tree: FlatTree, steps: seq<Step>): (s: System)
    ensures Inv(s.page)
  {
    if steps == [] then
      RunKeeps([]);
      Start(tree)
    else
      var before := State(tree, steps[..|steps| - 1]);
      AfterKeepsInv(before, steps[|steps| - 1]);
      After(before, steps[|steps| - 1])
  }

  lemma {:induction false} NextState(tree: FlatTree, steps: seq<Step>, n: nat)
    requires n < |steps|
    ensures State(tree, steps[..n + 1]) == After(State(tree, steps[..n]), steps[n])
  {
    assert steps[..n + 1][..n] == steps[..n];
    hide Inv, After;
  }

  /** No step of the run changes an existing file for which Replace was not chosen. */
  ghost predicate SafeRun(tree: FlatTree, steps: seq<Step>) {
    forall n :: 0 <= n < |steps| ==> SafeStep(State(tree, steps[..n]), steps[n])
  }

  lemma {:induction false} StartIsSound(tree: FlatTree)
    ensures Sound(Start(tree))
  {
  }

  lemma {:induction false} StateIsPlausible(tree: FlatTree, steps: seq<Step>)
    ensures Plausible(State(tree, steps))
  {
    hide Inv, After, Plausible;
    if steps == [] {
      StartIsSound(tree);
    } else {
      StateIsPlausible(tree, steps[..|steps| - 1]);
      AfterIsPlausible(State(tree, steps[..|steps| - 1]), steps[|steps| - 1]);
    }
  }

  /** Whatever requests linger: a run is safe exactly if none of its steps clobbers. */
  lemma {:induction false} SafeRunExactly(tree: FlatTree, steps: seq<Step>)
    ensures SafeRun(tree, steps) <==> forall n :: 0 <= n < |steps| ==> !Clobbers(State(tree, steps[..n]), steps[n])
  {
    hide Inv, After, Plausible, SafeStep, Clobbers, State;
    forall n | 0 <= n < |steps|
      ensures SafeStep(State(tree, steps[..n]), steps[n]) <==> !Clobbers(State(tree, steps[..n]), steps[n])
    {
      StateIsPlausible(tree, steps[..n]);
      SafeStepExactly(State(tree, steps[..n]), steps[n]);
    }
  }

  lemma {:induction false} StateIsSound(tree: FlatTree, steps: seq<Step>)
    requires forall step :: step in steps ==> !Lingers(step)
    ensures Sound(State(tree, steps))
  {
    hide Inv, After, Lingers, Sound;
    if steps == [] {
      StartIsSound(tree);
    } else {
      var n := |steps| - 1;
      StateIsSound(tree, steps[..n]);
      assert steps[n] in steps;
      StepIsSafe(State(tree, steps[..n]), steps[n]);
    }
  }

  /** In particular every run in which the server carries on with no request the page has
      given up on. */
  lemma {:induction false} RunIsSafe(tree: FlatTree, steps: seq<Step>)
    requires forall step :: step in steps ==> !Lingers(step)
    ensures SafeRun(tree, steps)
  {
    hide Inv, SafeStep, Lingers, State, Sound;
    forall n | 0 <= n < |steps|
      ensures SafeStep(State(tree, steps[..n]), steps[n])
    {
      assert forall step :: step in steps[..n] ==> step in steps;
      assert steps[n] in steps;
      StateIsSound(tree, steps[..n]);
      StepIsSafe(State(tree, steps[..n]), steps[n]);
    }
  }

  // --------------------------------------------------------------- back to the user's answer

  /** What the page is told by this step. */
  function EventsOf(s: System, step: Step): seq<Event> {
    if !Enabled(s, step) then []
    else match step
      case User(e) => [e]
      case Check(k) =>
        (match Look(s.tree, s.open[k].send)
         case Reject(Refused(status, code)) => [Reply(s.page.sent[k].id, status, code)]
         case _ => [])
      case Unauthorized(k) => [Reply(s.page.sent[k].id, 401, "unauthorized")]
      case Write(k) => [Reply(s.page.sent[k].id, if s.open[k].stage.path in s.tree then 200 else 201, "")]
      case Fail(k, _) => [Reply(s.page.sent[k].id, 0, "network")]
      case _ => []
  }

  lemma {:induction false} PageAfter(s: System, step: Step)
    requires Inv(s.page)
    ensures var events := EventsOf(s, step);
      |events| <= 1 && After(s, step).page == if events == [] then s.page else Next(s.page, events[0])
  {
    hide Inv, Next, Look;
  }

  /** Everything the page was told in a run. */
  function Events(tree: FlatTree, steps: seq<Step>): seq<Event> {
    if steps == [] then []
    else
      var n := |steps| - 1;
      Events(tree, steps[..n]) + EventsOf(State(tree, steps[..n]), steps[n])
  }

  /** The page of the system is the page of `Uploads`, run on what it was told. */
  lemma {:induction false} PageIsRun(tree: FlatTree, steps: seq<Step>)
    ensures State(tree, steps).page == Run(Events(tree, steps))
  {
    hide Inv, After, Next, EventsOf;
    if steps != [] {
      var n := |steps| - 1;
      var events, more := Events(tree, steps[..n]), EventsOf(State(tree, steps[..n]), steps[n]);
      PageIsRun(tree, steps[..n]);
      PageAfter(State(tree, steps[..n]), steps[n]);
      if more == [] {
        assert events + more == events;
      } else {
        assert more == [more[0]] && (events + more)[..|events|] == events;
      }
    }
  }

  /** Step `n` stored, at `p`, an item for which the user had answered Replace: for it, or for
      all the rest in the same run of the queue. */
  ghost predicate ReplacedByAnswer(tree: FlatTree, steps: seq<Step>, n: nat, p: string) {
    && n < |steps| && WriteOf(State(tree, steps[..n]), steps[n]).Some?
    && var o := WriteOf(State(tree, steps[..n]), steps[n]).value;
       && o.send.overwrite && o.stage.path == p && ParsePath(o.send.path) == Ok(p)
       && exists j: nat :: ChosenInRun(Events(tree, steps[..n]), j, o.send.id)
  }

  lemma {:induction false} ChangeWasAnswered(tree: FlatTree, steps: seq<Step>, n: nat, p: string)
    requires n < |steps| && SafeStep(State(tree, steps[..n]), steps[n]) && p in State(tree, steps[..n]).tree
    requires p in State(tree, steps[..n + 1]).tree ==>
      State(tree, steps[..n + 1]).tree[p] != State(tree, steps[..n]).tree[p]
    ensures ReplacedByAnswer(tree, steps, n, p)
  {
    hide Inv, After, State, Plausible, ChosenInRun, WriteOf, ParsePath, Events;
    var s := State(tree, steps[..n]);
    NextState(tree, steps, n);
    StateIsPlausible(tree, steps[..n]);
    WriteWasSent(s, steps[n]);
    PageIsRun(tree, steps[..n]);
    ReplacedOnlyByChoice(Events(tree, steps[..n]), WriteOf(s, steps[n]).value.send.id);
  }

  lemma {:induction false} SafeFront(tree: FlatTree, steps: seq<Step>)
    requires steps != [] && SafeRun(tree, steps)
    ensures SafeRun(tree, steps[..|steps| - 1])
  {
    hide SafeStep, State;
    var front := steps[..|steps| - 1];
    forall n | 0 <= n < |front|
      ensures SafeStep(State(tree, front[..n]), front[n])
    {
      assert front[..n] == steps[..n] && front[n] == steps[n];
    }
  }

  lemma {:induction false} StillAnswered(tree: FlatTree, steps: seq<Step>, n: nat, p: string)
    requires steps != [] && ReplacedByAnswer(tree, steps[..|steps| - 1], n, p)
    ensures ReplacedByAnswer(tree, steps, n, p)
  {
    hide State, WriteOf, ChosenInRun, Events, ParsePath;
    assert steps[..|steps| - 1][..n] == steps[..n];
  }

  /** Over a safe run every file that was there at the start is still there; and if it is not
      as it was, the user answered Replace for an item that goes to its path. */
  lemma {:induction false} OriginalsSurvive(tree: FlatTree, steps: seq<Step>, p: string)
    requires SafeRun(tree, steps) && p in tree
    ensures p in State(tree, steps).tree
    ensures State(tree, steps).tree[p] != tree[p] ==> exists n: nat :: ReplacedByAnswer(tree, steps, n, p)
  {
    hide Inv, After, SafeStep, SafeRun, ReplacedByAnswer;
    if steps != [] {
      var n := |steps| - 1;
      SafeFront(tree, steps);
      OriginalsSurvive(tree, steps[..n], p);
      StepOfSafeRun(tree, steps, n, p);
      assert steps[..n + 1] == steps;
      if State(tree, steps).tree[p] != State(tree, steps[..n]).tree[p] {
        ChangeWasAnswered(tree, steps, n, p);
      } else if State(tree, steps).tree[p] != tree[p] {
        var i: nat :| ReplacedByAnswer(tree, steps[..n], i, p);
        StillAnswered(tree, steps, i, p);
      }
    }
  }

  lemma {:induction false} StepOfSafeRun(tree: FlatTree, steps: seq<Step>, n: nat, p: string)
    requires SafeRun(tree, steps) && n < |steps| && p in State(tree, steps[..n]).tree
    ensures SafeStep(State(tree, steps[..n]), steps[n]) && p in State(tree, steps[..n + 1]).tree
  {
    hide Inv, After, State, WriteOf;
    NextState(tree, steps, n);
  }

  // ------------------------------------------------------------------ the lingering request

  const FIRST := Job("a", [1], "phone", "/")
  const SECOND := Job("a", [2], "phone", "/")

  /** Two files of one name are queued; the connection of the first fails while the server
      goes on; both are looked at before either is written. */
  const LINGERING := [User(SignIn), User(Queue([FIRST, SECOND], true)),
    Check(0), Fail(0, Lingering), Check(1), OrphanMoves(0), Write(1)]

  lemma {:induction false} PathOfA()
    ensures IsKey("/a") && ParentOf("/a") == "/" && ParsePath("/a") == Ok("/a") && JoinPath("/", "a") == "/a"
  {
    ParentAndNameOfJoin("/", "a");
    assert JoinPath("/", "a") == "/a";
    AbsoluteIsCanonical([]);
    assert Segments("/a") == ["a"];
    assert |LowerCase("a")| == 1;
    CanonicalParses("/a");
  }

  lemma {:induction false} BothQueued()
    ensures var p := Next(Next(FRESH, SignIn), Queue([FIRST, SECOND], true));
      && p.items == [Item(1, FIRST, Uploading), Item(2, SECOND, Waiting)]
      && p.running && p.signedIn && p.policy == None && p.replaced == {}
      && p.queued == [FIRST, SECOND] && p.sent == [Put(1, FIRST, false)]
      && p.inFlight == map[1 := Flight(FIRST, PlainReply)]
  {
  }

  lemma {:induction false} FirstFails(p: Page)
    requires p.items == [Item(1, FIRST, Uploading), Item(2, SECOND, Waiting)]
    requires p.signedIn && p.sent == [Put(1, FIRST, false)] && p.inFlight == map[1 := Flight(FIRST, PlainReply)]
    ensures var q := Next(p, Reply(1, 0, "network"));
      && q.queued == p.queued && q.replaced == p.replaced
      && q.sent == [Put(1, FIRST, false), Put(2, SECOND, false)]
      && q.inFlight == map[2 := Flight(SECOND, PlainReply)]
  {
    var items := [Item(1, FIRST, Failed), Item(2, SECOND, Waiting)];
    assert SetStatus(p.items, 1, Failed) == items;
    assert FirstWaiting(items) == Some(1) by {
      assert items[1..][0].status.Waiting?;
    }
    assert p.inFlight - {1} == map[];
    hide JoinPath, SetStatus;
  }

  lemma {:induction false} ALooksFree(tree: FlatTree, send: Send)
    requires send.rootId == "phone" && send.path == "/a" && !send.overwrite && "/a" !in tree
    ensures Look(tree, send) == Requests.Admit("/a", false)
  {
    PathOfA();
    hide ParsePath, ParentOf, IsKey;
  }

  lemma {:induction false} SigningIn()
    ensures After(Start(map[]), User(SignIn)) == System(Next(FRESH, SignIn), map[], map[], [])
    ensures Next(FRESH, SignIn).sent == []
  {
  }

  lemma {:induction false} Queueing(s: System)
    requires Inv(s.page) && s == System(Next(FRESH, SignIn), map[], map[], []) && s.page.sent == []
    ensures var s' := After(s, User(Queue([FIRST, SECOND], true)));
      && s'.page == Next(s.page, Queue([FIRST, SECOND], true))
      && s'.open == map[0 := Open(Put(1, FIRST, false), [1], Arriving)]
      && s'.tree == map[] && s'.orphans == []
  {
    BothQueued();
    PutId(1, FIRST, false);
    var page := Next(s.page, Queue([FIRST, SECOND], true));
    hide Inv, Put, Next, Connect;
    assert page.sent[0] == Put(1, FIRST, false) && page.queued[0].data == [1];
    ConnectOne(s, page);
  }

  lemma {:induction false} Looking(s: System, k: nat)
    requires Inv(s.page) && k in s.open && k < |s.page.sent|
    requires s.open[k].stage.Arriving? && s.open[k].send.rootId == "phone" && s.open[k].send.path == "/a"
    requires !s.open[k].send.overwrite && "/a" !in s.tree
    ensures After(s, Check(k)) == s.(open := s.open[k := s.open[k].(stage := Receiving("/a"))])
  {
    ALooksFree(s.tree, s.open[k].send);
    hide Inv, Next, Look;
  }

  lemma {:induction false} GivingUp(s: System)
    requires Inv(s.page) && s.page.sent == [Put(1, FIRST, false)] && s.page.queued == [FIRST, SECOND]
    requires s.page.items == [Item(1, FIRST, Uploading), Item(2, SECOND, Waiting)] && s.page.signedIn
    requires s.page.inFlight == map[1 := Flight(FIRST, PlainReply)] && s.page.replaced == {}
    requires s.open.Keys == {0} && s.orphans == []
    ensures var s' := After(s, Fail(0, Lingering));
      && s'.page.sent == [Put(1, FIRST, false), Put(2, SECOND, false)] && s'.page.replaced == {}
      && s'.open == map[1 := Open(Put(2, SECOND, false), [2], Arriving)]
      && s'.orphans == [s.open[0]] && s'.tree == s.tree
  {
    hide Inv, Next, Put;
    assert s.open - {0} == map[];
    PutId(1, FIRST, false);
    PutId(2, SECOND, false);
    assert s.page.sent[0].id == 1;
    var given := s.(orphans := s.orphans + [s.open[0]], open := map[]);
    var page := Next(s.page, Reply(1, 0, "network"));
    FirstFails(s.page);
    NextKeeps(s.page, Reply(1, 0, "network"));
    assert After(s, Fail(0, Lingering)) == Connect(given, page);
    hide Connect;
    assert page.sent[1] == Put(2, SECOND, false) && page.queued[1].data == [2];
    ConnectOne(given, page);
  }

  lemma {:induction false} PutId(id: nat, job: Job, overwrite: bool)
    ensures Put(id, job, overwrite).id == id
  {
  }

  lemma {:induction false} Racing(s: System)
    requires Inv(s.page) && |s.page.sent| == 2 && s.open.Keys == {1}
    requires s.open[1].stage == Receiving("/a") && s.open[1].body == [2] && !s.open[1].send.overwrite
    requires |s.orphans| == 1 && s.orphans[0].stage == Receiving("/a") && s.orphans[0].body == [1]
    ensures Clobbers(After(s, OrphanMoves(0)), Write(1))
  {
    hide Inv, Next, Connect, Deliver;
    var s6 := After(s, OrphanMoves(0));
    assert s6.tree["/a"] == File([1]) && s6.page == s.page && s6.open == s.open;
  }

  /** The file written by the request the page had given up on is replaced by the second,
      though the user was never asked. */
  lemma {:induction false} LingeringReplaces()
    ensures !SafeRun(map[], LINGERING)
  {
    LingeringRun(LINGERING);
  }

  lemma {:induction false} LingeringRun(run: seq<Step>)
    requires |run| == 7 && run[0] == User(SignIn) && run[1] == User(Queue([FIRST, SECOND], true))
    requires run[2] == Check(0) && run[3] == Fail(0, Lingering)
    requires run[4] == Check(1) && run[5] == OrphanMoves(0) && run[6] == Write(1)
    ensures !SafeRun(map[], run)
  {
    hide Inv, Next, Look, Put, After, State, SafeRun, Clobbers;
    BothQueued();
    SigningIn();
    PutPath(1, FIRST);
    PutPath(2, SECOND);
    StartState(map[], run);
    NextState(map[], run, 0);
    NextState(map[], run, 1);
    Queueing(State(map[], run[..1]));
    NextState(map[], run, 2);
    Looking(State(map[], run[..2]), 0);
    NextState(map[], run, 3);
    GivingUp(State(map[], run[..3]));
    NextState(map[], run, 4);
    Looking(State(map[], run[..4]), 1);
    NextState(map[], run, 5);
    NextState(map[], run, 6);
    Racing(State(map[], run[..5]));
    SafeRunExactly(map[], run);
  }

  lemma {:induction false} StartState(tree: FlatTree, steps: seq<Step>)
    ensures State(tree, steps[..0]) == Start(tree)
  {
  }

  lemma {:induction false} PutPath(id: nat, job: Job)
    requires job.name == "a" && job.dir == "/" && job.rootId == "phone"
    ensures Put(id, job, false).path == "/a" && Put(id, job, false).rootId == "phone" && !Put(id, job, false).overwrite
  {
  }
}
