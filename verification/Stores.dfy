/** The requests on the server's `Map` as it is: the nodes with the order of their keys, over
    which every loop runs. Untangled, they are the requests of `Requests`. */
module Stores {
  import opened Options
  import opened Paths
  import opened Naming
  import opened FileTree
  import opened Sequences
  import opened Snapshots
  import opened Requests
  import opened RequestFacts
  import opened Conservation
  import opened Runs

  /** A key keeps its place in the order for as long as it is there; a new one comes last. */
  datatype Store = Store(nodes: FlatTree, order: seq<string>)

  ghost predicate IsStore(st: Store) {
    IsSnapshot(st.order, st.nodes)
  }

  function SetKey(st: Store, k: string, node: Node): Store {
    Store(st.nodes[k := node], if k in st.nodes then st.order else st.order + [k])
  }

  function DropKey(st: Store, k: string): Store {
    Store(st.nodes - {k}, Except(st.order, k))
  }

  lemma {:induction false} SetKeyKeeps(st: Store, k: string, node: Node)
    requires IsStore(st)
    ensures IsStore(SetKey(st, k, node))
  {
    hide NoDuplicates;
    ElementsOf(st.order, k);
    OneMore(st.order, k);
  }

  lemma {:induction false} DropKeyKeeps(st: Store, k: string)
    requires IsStore(st)
    ensures IsStore(DropKey(st, k))
  {
    hide NoDuplicates, Elements, Except;
    ExceptRemoves(st.order, k);
  }

  // ------------------------------------------------------------------------- the loop

  /** One turn of the loop. */
  function TurnIn(now: Store, s: string, t: string, keep: bool, k: string): Store {
    if k !in now.nodes || !Under(s, k) then now
    else
      var written := SetKey(now, Swap(s, t, k), now.nodes[k]);
      if keep then written else DropKey(written, k)
  }

  function LoopIn(st: Store, s: string, t: string, keep: bool, keys: seq<string>): Store {
    if keys == [] then st
    else TurnIn(LoopIn(st, s, t, keep, keys[..|keys| - 1]), s, t, keep, keys[|keys| - 1])
  }

  /** The loop over a copy of the keys, in their order. */
  function RekeyIn(st: Store, s: string, t: string, keep: bool): Store {
    LoopIn(st, s, t, keep, st.order)
  }

  lemma {:induction false} LoopOneMore(st: Store, s: string, t: string, keep: bool, keys: seq<string>, k: string)
    ensures LoopIn(st, s, t, keep, keys + [k]) == TurnIn(LoopIn(st, s, t, keep, keys), s, t, keep, k)
  {
    hide TurnIn;
    assert (keys + [k])[..|keys|] == keys;
  }

  lemma {:induction false} TurnInIs(now: Store, s: string, t: string, keep: bool, k: string)
    requires IsStore(now)
    ensures IsStore(TurnIn(now, s, t, keep, k))
    ensures TurnIn(now, s, t, keep, k).nodes == if k in now.nodes then Turn(now.nodes, s, t, keep, k) else now.nodes
  {
    hide IsStore, Under, Swap, Except;
    if k in now.nodes && Under(s, k) {
      SetKeyKeeps(now, Swap(s, t, k), now.nodes[k]);
      DropKeyKeeps(SetKey(now, Swap(s, t, k), now.nodes[k]), k);
    }
  }

  lemma {:induction false} LoopIs(st: Store, s: string, t: string, keep: bool, keys: seq<string>)
    requires IsStore(st)
    ensures IsStore(LoopIn(st, s, t, keep, keys))
    ensures LoopIn(st, s, t, keep, keys).nodes == TurnAll(st.nodes, s, t, keep, keys)
  {
    hide IsStore, TurnIn, Turn;
    if keys != [] {
      LoopIs(st, s, t, keep, keys[..|keys| - 1]);
      TurnInIs(LoopIn(st, s, t, keep, keys[..|keys| - 1]), s, t, keep, keys[|keys| - 1]);
    }
  }

  /** The loop leaves a store. Untangled it relocates, and it never touches anything outside source
      and target. */
  lemma {:induction false} RekeyIs(st: Store, s: string, t: string, keep: bool)
    requires IsStore(st)
    ensures IsStore(RekeyIn(st, s, t, keep))
    ensures RekeyIn(st, s, t, keep).nodes == TurnAll(st.nodes, s, t, keep, st.order)
    ensures SameOutside(st.nodes, RekeyIn(st, s, t, keep).nodes, s, t)
    ensures Untangled(st.nodes, s, t, keep) ==> RekeyIn(st, s, t, keep).nodes == Relocated(st.nodes, s, t, keep)
  {
    hide Untangled, LoopIn, TurnAll, Relocated, Elements, NoDuplicates, SameOutside;
    LoopStaysInside(st.nodes, s, t, keep, st.order);
    LoopIs(st, s, t, keep, st.order);
    if Untangled(st.nodes, s, t, keep) {
      AnyOrder(st.nodes, s, t, keep, st.order);
    }
  }

  /** However the keys came to be in their order, the loop leaves the same nodes. */
  ghost predicate StoresAgree(m: FlatTree, s: string, t: string, keep: bool) {
    forall a, b :: IsStore(a) && IsStore(b) && a.nodes == m && b.nodes == m ==>
      RekeyIn(a, s, t, keep).nodes == RekeyIn(b, s, t, keep).nodes
  }

  /** That is so exactly if the loop is not tangled. */
  lemma {:induction false} StoresAgreeExactly(m: FlatTree, s: string, t: string, keep: bool)
    ensures StoresAgree(m, s, t, keep) <==> Untangled(m, s, t, keep)
  {
    hide Untangled, RekeyIn, TurnAll, Elements, NoDuplicates, SameOutside;
    if Untangled(m, s, t, keep) {
      forall a, b | IsStore(a) && IsStore(b) && a.nodes == m && b.nodes == m
        ensures RekeyIn(a, s, t, keep).nodes == RekeyIn(b, s, t, keep).nodes
      {
        RekeyIs(a, s, t, keep);
        RekeyIs(b, s, t, keep);
      }
    }
    if StoresAgree(m, s, t, keep) {
      forall x, y | MayRekey(m, s, t, keep, x) && MayRekey(m, s, t, keep, y)
        ensures x == y
      {
        var a := StoreWith(m, s, t, keep, x);
        var b := StoreWith(m, s, t, keep, y);
      }
      OneOutcomeExactly(m, s, t, keep);
    }
  }

  lemma {:induction false} StoreWith(m: FlatTree, s: string, t: string, keep: bool, x: FlatTree) returns (st: Store)
    requires MayRekey(m, s, t, keep, x)
    ensures IsStore(st) && st.nodes == m && RekeyIn(st, s, t, keep).nodes == x
  {
    hide IsSnapshot, TurnAll, RekeyIn, SameOutside;
    var order :| IsSnapshot(order, m) && x == TurnAll(m, s, t, keep, order);
    st := Store(m, order);
    RekeyIs(st, s, t, keep);
  }

  // ------------------------------------------------------------------------------ seeding

  function WithFoldersIn(st: Store, segs: seq<string>): Store {
    if segs == [] then st
    else
      var above := WithFoldersIn(st, segs[..|segs| - 1]);
      if Render(segs) in above.nodes then above else SetKey(above, Render(segs), Folder)
  }

  function SeededIn(st: Store, p: string, node: Node): Store {
    var parts := Segments(p);
    SetKey(WithFoldersIn(st, if parts == [] then [] else parts[..|parts| - 1]), p, node)
  }

  lemma {:induction false} WithFoldersIs(st: Store, segs: seq<string>)
    requires IsStore(st)
    ensures IsStore(WithFoldersIn(st, segs)) && WithFoldersIn(st, segs).nodes == WithFolders(st.nodes, segs)
  {
    hide IsStore, Render;
    if segs != [] {
      WithFoldersIs(st, segs[..|segs| - 1]);
      SetKeyKeeps(WithFoldersIn(st, segs[..|segs| - 1]), Render(segs), Folder);
    }
  }

  lemma {:induction false} SeededIs(st: Store, p: string, node: Node)
    requires IsStore(st)
    ensures IsStore(SeededIn(st, p, node)) && SeededIn(st, p, node).nodes == Seeded(st.nodes, p, node)
  {
    hide IsStore, Segments, WithFoldersIn, WithFolders;
    var parts := Segments(p);
    var above := if parts == [] then [] else parts[..|parts| - 1];
    WithFoldersIs(st, above);
    SetKeyKeeps(WithFoldersIn(st, above), p, node);
  }

  // ----------------------------------------------------------------------------- requests

  datatype AnswerIn = AnswerIn(store: Store, reply: Reply)

  function MkdirIn(st: Store, raw: string): AnswerIn {
    var one := MkdirAnswer(st.nodes, raw);
    AnswerIn(if one.reply.Stored? then SetKey(st, one.reply.path, Folder) else st, one.reply)
  }

  function RenameIn(st: Store, raw: string, newName: string): AnswerIn {
    var one := RenameAnswer(st.nodes, raw, newName);
    AnswerIn(if one.reply.Stored? then RekeyIn(st, ParsePath(raw).path, one.reply.path, false) else st, one.reply)
  }

  function PutIn(st: Store, writable: bool, raw: string, overwrite: bool, body: Bytes): AnswerIn {
    match PutCheck(st.nodes, writable, raw, overwrite)
    case Reject(reply) => AnswerIn(st, reply)
    case Admit(p, existed) => AnswerIn(SetKey(st, p, File(body)), Stored(if existed then 200 else 201, p))
  }

  datatype ProgressIn = ProgressIn(store: Store, results: seq<Result>, crashed: bool)

  /** The progress without the order of the keys. */
  function Unordered(p: ProgressIn): Progress {
    Progress(p.store.nodes, p.results, p.crashed)
  }

  function TransferStepIn(now: ProgressIn, s: string, dest: string, policy: Policy, keep: bool): ProgressIn {
    if now.crashed then now
    else if s !in now.store.nodes then now.(results := now.results + [Result(s, NotFound)])
    else match Place(now.store.nodes, s, dest, policy)
      case Occupied => now.(results := now.results + [Result(s, Skipped)])
      case Unmatched => now.(crashed := true)
      case At(t) => ProgressIn(RekeyIn(now.store, s, t, keep), now.results + [Result(s, Completed(t))], false)
  }

  function TransferAllIn(st: Store, sources: seq<string>, dest: string, policy: Policy, keep: bool): ProgressIn {
    if sources == [] then ProgressIn(st, [], false)
    else
      var n := |sources| - 1;
      TransferStepIn(TransferAllIn(st, sources[..n], dest, policy, keep), sources[n], dest, policy, keep)
  }

  function TransferIn(st: Store, keep: bool, raws: seq<string>, rawDest: string, policy: Policy): AnswerIn {
    if TransferRuns(st.nodes, raws, rawDest) then
      var p := TransferAllIn(st, PathsOf(ParsedSources(raws)), ParsePath(rawDest).path, policy, keep);
      AnswerIn(p.store, BatchReply(Unordered(p)))
    else AnswerIn(st, TransferAnswer(st.nodes, keep, raws, rawDest, policy).reply)
  }

  function DeleteStepIn(now: ProgressIn, s: string, id: string): ProgressIn {
    if s !in now.store.nodes then now.(results := now.results + [Result(s, NotFound)])
    else
      var bin := BinFor(id, s);
      now.(store := RekeyIn(now.store, s, bin, false), results := now.results + [Result(s, Completed(bin))])
  }

  function DeleteAllIn(st: Store, sources: seq<string>, ids: seq<string>): ProgressIn
    requires |sources| <= |ids|
  {
    if sources == [] then ProgressIn(st, [], false)
    else
      var n := |sources| - 1;
      DeleteStepIn(DeleteAllIn(st, sources[..n], ids), sources[n], ids[n])
  }

  function DeleteIn(st: Store, raws: seq<string>, ids: seq<string>): AnswerIn
    requires |raws| <= |ids|
  {
    var refusal := SourcesRefusal(raws);
    if refusal.Some? then AnswerIn(st, refusal.value)
    else
      var p := DeleteAllIn(st, PathsOf(ParsedSources(raws)), ids);
      AnswerIn(p.store, BatchReply(Unordered(p)))
  }

  /** One authorised request. */
  function ApplyIn(st: Store, rootId: string, r: Request): AnswerIn
    requires HasIds(r)
  {
    if rootId != "phone" && rootId != "card" then AnswerIn(st, Refused(404, "root_not_found"))
    else if r.Put? then PutIn(st, rootId == "phone", r.path, r.overwrite, r.body)
    else if rootId != "phone" then AnswerIn(st, Refused(403, "read_only_storage"))
    else match r
      case Mkdir(path) => MkdirIn(st, path)
      case Rename(path, newName) => RenameIn(st, path, newName)
      case Transfer(keep, sources, destination, policy) => TransferIn(st, keep, sources, destination, policy)
      case Delete(paths, ids) => DeleteIn(st, paths, ids)
  }

  // ------------------------------------------------- untangled, they do not see the order

  /** The request leaves a store and, seen without its order, does what `Requests` says. */
  ghost predicate IsAnswer(a: AnswerIn, one: Answer) {
    IsStore(a.store) && Answer(a.store.nodes, a.reply) == one
  }

  lemma {:induction false} TransferStepIs(now: ProgressIn, s: string, dest: string, policy: Policy, keep: bool)
    requires IsStore(now.store)
    ensures IsStore(TransferStepIn(now, s, dest, policy, keep).store)
    ensures StepUntangled(Unordered(now), s, dest, policy, keep) ==>
      Unordered(TransferStepIn(now, s, dest, policy, keep)) == TransferStep(Unordered(now), s, dest, policy, keep)
  {
    hide IsStore, RekeyIn, Untangled, Relocated, Place, TurnAll, SameOutside;
    if !now.crashed && s in now.store.nodes && Place(now.store.nodes, s, dest, policy).At? {
      RekeyIs(now.store, s, Place(now.store.nodes, s, dest, policy).target, keep);
    }
  }

  lemma {:induction false} FrontUntangled(m: FlatTree, sources: seq<string>, dest: string, policy: Policy, keep: bool)
    requires sources != [] && BatchUntangled(m, sources, dest, policy, keep)
    ensures var n := |sources| - 1;
      BatchUntangled(m, sources[..n], dest, policy, keep)
      && StepUntangled(TransferAll(m, sources[..n], dest, policy, keep), sources[n], dest, policy, keep)
  {
    hide StepUntangled, TransferAll;
    var front := sources[..|sources| - 1];
    assert UntangledAt(m, sources, dest, policy, keep, |front|);
    forall i | 0 <= i < |front|
      ensures UntangledAt(m, front, dest, policy, keep, i)
    {
      assert UntangledAt(m, sources, dest, policy, keep, i);
      assert front[..i] == sources[..i] && front[i] == sources[i];
    }
  }

  lemma {:induction false} BatchIs(st: Store, sources: seq<string>, dest: string, policy: Policy, keep: bool)
    requires IsStore(st)
    ensures BatchUntangled(st.nodes, sources, dest, policy, keep) ==>
      Unordered(TransferAllIn(st, sources, dest, policy, keep)) == TransferAll(st.nodes, sources, dest, policy, keep)
    ensures IsStore(TransferAllIn(st, sources, dest, policy, keep).store)
  {
    hide IsStore, TransferStepIn, TransferStep, StepUntangled, BatchUntangled;
    if sources != [] {
      var n := |sources| - 1;
      BatchIs(st, sources[..n], dest, policy, keep);
      if BatchUntangled(st.nodes, sources, dest, policy, keep) {
        FrontUntangled(st.nodes, sources, dest, policy, keep);
      }
      TransferStepIs(TransferAllIn(st, sources[..n], dest, policy, keep), sources[n], dest, policy, keep);
    }
  }

  lemma {:induction false} DeleteStepIs(now: ProgressIn, s: string, id: string)
    requires IsStore(now.store)
    ensures IsStore(DeleteStepIn(now, s, id).store)
    ensures FreeAt(now.store.nodes, BinFor(id, s)) ==>
      Unordered(DeleteStepIn(now, s, id)) == DeleteStep(Unordered(now), s, id)
  {
    hide IsStore, RekeyIn, Untangled, Relocated, FreeAt, BinFor, TurnAll, SameOutside;
    if s in now.store.nodes {
      RekeyIs(now.store, s, BinFor(id, s), false);
      if FreeAt(now.store.nodes, BinFor(id, s)) {
        FreeIsUntangled(now.store.nodes, s, BinFor(id, s), false);
      }
    }
  }

  lemma {:induction false} DeletionsAre(st: Store, sources: seq<string>, ids: seq<string>)
    requires IsStore(st) && |sources| <= |ids|
    ensures IsStore(DeleteAllIn(st, sources, ids).store)
    ensures FreshIds(st.nodes, ids) ==> Unordered(DeleteAllIn(st, sources, ids)) == DeleteAll(st.nodes, sources, ids)
  {
    hide IsStore, DeleteStepIn, DeleteStep, FreshIds, FreeAt, BinFor;
    if sources != [] {
      var n := |sources| - 1;
      DeletionsAre(st, sources[..n], ids);
      if FreshIds(st.nodes, ids) {
        BinStaysFree(st.nodes, sources[..n], ids, sources[n]);
      }
      DeleteStepIs(DeleteAllIn(st, sources[..n], ids), sources[n], ids[n]);
    }
  }

  lemma {:induction false} RenameIs(st: Store, raw: string, newName: string)
    requires IsStore(st)
    ensures IsStore(RenameIn(st, raw, newName).store)
    ensures RequestUntangled(st.nodes, Request.Rename(raw, newName)) ==>
      IsAnswer(RenameIn(st, raw, newName), RenameAnswer(st.nodes, raw, newName))
  {
    hide IsStore, RekeyIn, Untangled, Relocated, ParsePath, ParentOf, JoinPath, IsAllowedName, TurnAll, SameOutside;
    var one := RenameAnswer(st.nodes, raw, newName);
    if one.reply.Stored? {
      RekeyIs(st, ParsePath(raw).path, one.reply.path, false);
    }
  }

  lemma {:induction false} TransferIs(st: Store, keep: bool, raws: seq<string>, rawDest: string, policy: Policy)
    requires IsStore(st)
    ensures IsStore(TransferIn(st, keep, raws, rawDest, policy).store)
    ensures RequestUntangled(st.nodes, Request.Transfer(keep, raws, rawDest, policy)) ==>
      IsAnswer(TransferIn(st, keep, raws, rawDest, policy), TransferAnswer(st.nodes, keep, raws, rawDest, policy))
  {
    hide IsStore, TransferAllIn, TransferAll, BatchUntangled, SourcesRefusal, ParsePath, IsDir, BatchReply;
    if TransferRuns(st.nodes, raws, rawDest) {
      BatchIs(st, PathsOf(ParsedSources(raws)), ParsePath(rawDest).path, policy, keep);
    }
  }

  lemma {:induction false} DeleteIs(st: Store, raws: seq<string>, ids: seq<string>)
    requires IsStore(st) && |raws| <= |ids|
    ensures IsStore(DeleteIn(st, raws, ids).store)
    ensures FreshIds(st.nodes, ids) ==> IsAnswer(DeleteIn(st, raws, ids), DeleteAnswer(st.nodes, raws, ids))
  {
    hide IsStore, DeleteAllIn, DeleteAll, FreshIds, SourcesRefusal, BatchReply;
    if SourcesRefusal(raws).None? {
      DeletionsAre(st, PathsOf(ParsedSources(raws)), ids);
    }
  }

  lemma {:induction false} MkdirIs(st: Store, raw: string)
    requires IsStore(st)
    ensures IsAnswer(MkdirIn(st, raw), MkdirAnswer(st.nodes, raw))
  {
    hide IsStore, ParsePath, ParentOf, IsDir;
    var one := MkdirAnswer(st.nodes, raw);
    if one.reply.Stored? {
      SetKeyKeeps(st, one.reply.path, Folder);
    }
  }

  lemma {:induction false} PutIs(st: Store, writable: bool, raw: string, overwrite: bool, body: Bytes)
    requires IsStore(st)
    ensures IsAnswer(PutIn(st, writable, raw, overwrite, body), PutAnswer(st.nodes, writable, raw, overwrite, body))
  {
    hide IsStore, PutCheck;
    var admission := PutCheck(st.nodes, writable, raw, overwrite);
    if admission.Admit? {
      SetKeyKeeps(st, admission.path, File(body));
    }
  }

  /** A request leaves a store; untangled, it does and answers what `Requests` says, whatever the
      order of the keys. */
  lemma {:induction false} RequestIs(st: Store, rootId: string, r: Request)
    requires IsStore(st) && HasIds(r)
    ensures IsStore(ApplyIn(st, rootId, r).store)
    ensures RequestUntangled(st.nodes, r) ==> IsAnswer(ApplyIn(st, rootId, r), Apply(st.nodes, rootId, r))
  {
    match r {
      case Mkdir(path) => MkdirIs(st, path);
      case Put(path, overwrite, body) => PutIs(st, rootId == "phone", path, overwrite, body);
      case Rename(path, newName) => RenameIs(st, path, newName);
      case Transfer(keep, sources, destination, policy) => TransferIs(st, keep, sources, destination, policy);
      case Delete(paths, ids) => DeleteIs(st, paths, ids);
    }
    hide IsStore, RenameIn, RenameAnswer, TransferIn, TransferAnswer, PutIn, PutAnswer, MkdirIn, MkdirAnswer, DeleteIn,
      DeleteAnswer, FreshIds, Untangled, BatchUntangled, SourcesRefusal, ParsePath, IsDir;
  }

  // --------------------------------------------------------------------------------- runs

  function RunIn(st: Store, calls: seq<Call>): Store
    requires forall c :: c in calls ==> HasIds(c.request)
  {
    if calls == [] then st
    else
      var last := calls[|calls| - 1];
      ApplyIn(RunIn(st, calls[..|calls| - 1]), last.rootId, last.request).store
  }

  /** No request of the run is tangled in the state it finds. */
  ghost predicate UntangledRun(m: FlatTree, calls: seq<Call>) {
    && (forall c :: c in calls ==> HasIds(c.request))
    && (forall i :: 0 <= i < |calls| ==> RequestUntangled(After(m, calls[..i]), calls[i].request))
  }

  lemma {:induction false} UntangledPrefix(m: FlatTree, calls: seq<Call>)
    requires calls != [] && UntangledRun(m, calls)
    ensures UntangledRun(m, calls[..|calls| - 1])
  {
    hide RequestUntangled, HasIds, After;
    var init := calls[..|calls| - 1];
    forall i | 0 <= i < |init|
      ensures RequestUntangled(After(m, init[..i]), init[i].request)
    {
      assert init[..i] == calls[..i] && init[i] == calls[i];
    }
  }

  /** So an untangled run on the store is the run of `Runs` and `Accounting`, and what these say
      is true of it. */
  lemma {:induction false} RunIs(st: Store, calls: seq<Call>)
    requires IsStore(st) && UntangledRun(st.nodes, calls)
    ensures IsStore(RunIn(st, calls)) && RunIn(st, calls).nodes == After(st.nodes, calls)
  {
    hide IsStore, HasIds, Apply, ApplyIn, RequestUntangled;
    if calls != [] {
      var n := |calls| - 1;
      UntangledPrefix(st.nodes, calls);
      RunIs(st, calls[..n]);
      assert calls[n] in calls;
      RequestIs(RunIn(st, calls[..n]), calls[n].rootId, calls[n].request);
    }
  }

  /** Every guarded run is untangled. */
  lemma {:induction false} GuardedIsUntangled(m: FlatTree, calls: seq<Call>)
    requires Sound(m) && GuardedRun(m, calls)
    ensures UntangledRun(m, calls)
  {
    hide Sound, Guarded, HasIds, RequestUntangled, After, KeptBy;
    forall i | 0 <= i < |calls|
      ensures RequestUntangled(After(m, calls[..i]), calls[i].request)
    {
      GuardedUpTo(m, calls, i);
      RunIsSound(m, calls[..i]);
      ApplyKeeps(After(m, calls[..i]), calls[i].rootId, calls[i].request);
    }
  }

  lemma {:induction false} RunIsSound(m: FlatTree, calls: seq<Call>)
    requires Sound(m) && GuardedRun(m, calls)
    ensures Sound(After(m, calls))
  {
    hide Sound, GuardedRun, After, HiddenKept, Contents, Overwrites, OnlyMoves;
    RunKeepsFrom(m, calls, 0);
  }
}
