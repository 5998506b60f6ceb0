/** Which contents a request loses and which it adds, exactly and whatever it asks for. */
module Accounting {
  import opened Options
  import opened Paths
  import opened Naming
  import opened FileTree
  import opened Sequences
  import opened Snapshots
  import opened Requests
  import opened Conservation
  import opened Runs
  import opened Stores

  // ------------------------------------------------------------------------ one relocation

  /** The nodes a loop makes vanish: those it writes over, other than the ones it takes along;
      with the source as its own target, all of the source. */
  function Lost(m: FlatTree, s: string, t: string, keep: bool): FlatTree {
    if s == t then (if keep then map[] else Inside(m, s))
    else map k | k in m && Under(t, k) && Swap(t, s, k) in m && (keep || !Under(s, k)) :: m[k]
  }

  datatype Balance = Balance(lost: multiset<Bytes>, gained: multiset<Bytes>)

  const EVEN := Balance(multiset{}, multiset{})

  function Both(a: Balance, b: Balance): Balance {
    Balance(a.lost + b.lost, a.gained + b.gained)
  }

  /** What is there afterwards is what was there before, less what is lost, plus what is gained. */
  ghost predicate Balances(m: FlatTree, m': FlatTree, b: Balance) {
    Contents(m') + b.lost == Contents(m) + b.gained
  }

  lemma {:induction false} EvenBalances(m: FlatTree)
    ensures Balances(m, m, EVEN)
  {
    hide Contents;
  }

  lemma {:induction false} BothBalance(a: FlatTree, b: FlatTree, c: FlatTree, first: Balance, second: Balance)
    requires Balances(a, b, first) && Balances(b, c, second)
    ensures Balances(a, c, Both(first, second))
  {
    hide Contents;
    var x, y, z := Contents(a), Contents(b), Contents(c);
    assert z + (first.lost + second.lost) == (z + second.lost) + first.lost;
    assert (y + second.gained) + first.lost == (y + first.lost) + second.gained;
    assert (x + first.gained) + second.gained == x + (first.gained + second.gained);
  }

  /** The part of a map that another one, laid over it, hides. */
  function Hidden(a: FlatTree, b: FlatTree): FlatTree {
    map k | k in a && k in b :: a[k]
  }

  lemma {:induction false} ContentsLaid(a: FlatTree, b: FlatTree)
    ensures Contents(a + b) + Contents(Hidden(a, b)) == Contents(a) + Contents(b)
  {
    hide Contents;
    var rest := a - b.Keys;
    assert rest + b == a + b;
    assert rest + Hidden(a, b) == a;
    ContentsUnion(rest, b);
    ContentsUnion(rest, Hidden(a, b));
    Shuffle(Contents(rest), Contents(b), Contents(Hidden(a, b)));
  }

  lemma {:induction false} LostIsHidden(m: FlatTree, s: string, t: string, keep: bool)
    requires s != t
    ensures Lost(m, s, t, keep) == Hidden(if keep then m else Without(m, s), Rekeyed(m, s, t))
  {
    hide Under, Swap, Rekeyed;
  }

  ghost function RelocationBalance(m: FlatTree, s: string, t: string, keep: bool): Balance {
    Balance(Contents(Lost(m, s, t, keep)), if keep && s != t then Contents(Inside(m, s)) else multiset{})
  }

  lemma {:induction false} LostToItself(m: FlatTree, s: string)
    ensures Lost(m, s, s, true) == map[] && Contents(map[]) == multiset{}
    ensures Lost(m, s, s, false) == Inside(m, s)
  {
  }

  /** Wherever an item goes, exactly the contents it is written over are lost; a copy adds its own
      once more. */
  lemma {:induction false} RelocationBalances(m: FlatTree, s: string, t: string, keep: bool)
    ensures Balances(m, Relocated(m, s, t, keep), RelocationBalance(m, s, t, keep))
  {
    hide Contents, Under, Lost, Rekeyed, Without, Inside;
    ContentsSplit(m, s);
    LostToItself(m, s);
    if s != t {
      LostIsHidden(m, s, t, keep);
      ContentsRekeyed(m, s, t);
      ContentsLaid(if keep then m else Without(m, s), Rekeyed(m, s, t));
    }
  }

  lemma {:induction false} OnlyFoldersHoldNothing(m: FlatTree)
    ensures Contents(m) == multiset{} <==> forall k :: k in m ==> m[k].Folder?
    decreases |m|
  {
    if m != map[] {
      var k :| k in m && Contents(m) == Contents(m - {k}) + DataOf(m[k]);
      hide Contents;
      Smaller(m, k);
      OnlyFoldersHoldNothing(m - {k});
      SumIsNothing(Contents(m - {k}), DataOf(m[k]));
      assert forall j :: j in m <==> j == k || j in m - {k};
    }
  }

  lemma {:induction false} SumIsNothing(a: multiset<Bytes>, b: multiset<Bytes>)
    ensures a + b == multiset{} <==> a == multiset{} && b == multiset{}
  {
    if a + b == multiset{} {
      assert a <= a + b && b <= a + b;
    }
  }

  /** Nothing is lost exactly if everything written over and not taken along is a folder or, moved
      onto itself, if the item holds no file. Then, and only then, a move keeps the contents as they
      are. */
  lemma {:induction false} NothingLostExactly(m: FlatTree, s: string, t: string, keep: bool)
    ensures RelocationBalance(m, s, t, keep).lost == multiset{} <==>
      forall k :: k in Lost(m, s, t, keep) ==> Lost(m, s, t, keep)[k].Folder?
    ensures !keep ==> (Contents(Relocated(m, s, t, keep)) == Contents(m) <==>
      RelocationBalance(m, s, t, keep).lost == multiset{})
  {
    hide Contents, Lost, Relocated, Inside;
    OnlyFoldersHoldNothing(Lost(m, s, t, keep));
    RelocationBalances(m, s, t, keep);
    AddsNothing(Contents(Relocated(m, s, t, keep)), RelocationBalance(m, s, t, keep).lost);
  }

  lemma {:induction false} AddsNothing(a: multiset<Bytes>, b: multiset<Bytes>)
    ensures a + b == a <==> b == multiset{}
  {
    if b != multiset{} {
      var x :| x in b;
      assert (a + b)[x] > a[x];
    }
  }

  // ------------------------------------------------------------------------- a tangled loop

  /** One turn of the loop loses what it writes over, or the node it takes out of its own place. */
  ghost function TurnBalance(now: FlatTree, s: string, t: string, keep: bool, k: string): Balance {
    if k !in now || !Under(s, k) then EVEN
    else
      var x := Swap(s, t, k);
      if x == k then (if keep then EVEN else Balance(DataOf(now[k]), multiset{}))
      else
        Balance(if x in now then DataOf(now[x]) else multiset{}, if keep then DataOf(now[k]) else multiset{})
  }

  /** All turns, in their order. */
  ghost function LoopBalance(m: FlatTree, s: string, t: string, keep: bool, order: seq<string>): Balance {
    if order == [] then EVEN
    else
      var n := |order| - 1;
      Both(LoopBalance(m, s, t, keep, order[..n]),
        TurnBalance(TurnAll(m, s, t, keep, order[..n]), s, t, keep, order[n]))
  }

  lemma {:induction false} ContentsSet(m: FlatTree, k: string, node: Node)
    ensures Contents(m[k := node]) + (if k in m then DataOf(m[k]) else multiset{}) == Contents(m) + DataOf(node)
  {
    hide Contents, DataOf;
    if k in m {
      ContentsRemove(m, k);
      ContentsInsert(m - {k}, k, node);
      assert (m - {k})[k := node] == m[k := node];
      Shuffle(Contents(m - {k}), DataOf(m[k]), DataOf(node));
    } else {
      ContentsInsert(m, k, node);
    }
  }

  lemma {:induction false} TurnBalances(now: FlatTree, s: string, t: string, keep: bool, k: string)
    requires k in now
    ensures Balances(now, Turn(now, s, t, keep, k), TurnBalance(now, s, t, keep, k))
  {
    TurnIs(now, s, t, keep, k);
    hide Contents, DataOf, Turn, Under, Swap;
    if Under(s, k) {
      var x := Swap(s, t, k);
      var written := now[x := now[k]];
      ContentsSet(now, x, now[k]);
      ContentsRemove(written, k);
      if x == k {
        assert written == now;
      } else {
        TakenAlong(Contents(now), Contents(written - {k}), if x in now then DataOf(now[x]) else multiset{},
          DataOf(now[k]));
      }
    }
  }

  lemma {:induction false} TakenAlong(a: multiset<Bytes>, b: multiset<Bytes>, lost: multiset<Bytes>,
                                      one: multiset<Bytes>)
    requires (b + one) + lost == a + one
    ensures b + lost == a
  {
    forall x
      ensures (b + lost)[x] == a[x]
    {
      assert ((b + one) + lost)[x] == (a + one)[x];
    }
  }

  lemma {:induction false} LoopBalances(m: FlatTree, s: string, t: string, keep: bool, order: seq<string>)
    ensures Balances(m, TurnAll(m, s, t, keep, order), LoopBalance(m, s, t, keep, order))
  {
    hide Balances, Both, EVEN, Turn, TurnBalance;
    if order == [] {
      EvenBalances(m);
    } else {
      var n := |order| - 1;
      var now := TurnAll(m, s, t, keep, order[..n]);
      LoopBalances(m, s, t, keep, order[..n]);
      NoTurnIsEven(now, s, t, keep, order[n]);
      if order[n] in now {
        TurnBalances(now, s, t, keep, order[n]);
      } else {
        EvenBalances(now);
      }
      BothBalance(m, now, TurnAll(m, s, t, keep, order), LoopBalance(m, s, t, keep, order[..n]),
        TurnBalance(now, s, t, keep, order[n]));
    }
  }

  lemma {:induction false} NoTurnIsEven(now: FlatTree, s: string, t: string, keep: bool, k: string)
    ensures k !in now ==> TurnBalance(now, s, t, keep, k) == EVEN
  {
  }

  /** What the loop loses and adds: untangled, what the relocation does; else, turn by turn. */
  ghost function RekeyBalance(st: Store, s: string, t: string, keep: bool): Balance {
    if Untangled(st.nodes, s, t, keep) then RelocationBalance(st.nodes, s, t, keep)
    else LoopBalance(st.nodes, s, t, keep, st.order)
  }

  lemma {:induction false} RekeyBalances(st: Store, s: string, t: string, keep: bool)
    requires IsStore(st)
    ensures Balances(st.nodes, RekeyIn(st, s, t, keep).nodes, RekeyBalance(st, s, t, keep))
  {
    hide Balances, RelocationBalance, Relocated, LoopBalance, Untangled, RekeyIn, TurnAll, SameOutside, Elements,
      NoDuplicates;
    RekeyIs(st, s, t, keep);
    RelocationBalances(st.nodes, s, t, keep);
    LoopBalances(st.nodes, s, t, keep, st.order);
  }

  // ------------------------------------------------------------------------------ requests

  ghost function StepBalance(now: ProgressIn, s: string, dest: string, policy: Policy, keep: bool): Balance {
    if now.crashed || s !in now.store.nodes then EVEN
    else match Place(now.store.nodes, s, dest, policy)
      case At(t) => RekeyBalance(now.store, s, t, keep)
      case _ => EVEN
  }

  ghost function BatchBalance(st: Store, sources: seq<string>, dest: string, policy: Policy, keep: bool): Balance {
    if sources == [] then EVEN
    else
      var n := |sources| - 1;
      Both(BatchBalance(st, sources[..n], dest, policy, keep),
           StepBalance(TransferAllIn(st, sources[..n], dest, policy, keep), sources[n], dest, policy, keep))
  }

  ghost function DeletionBalance(now: Store, s: string, id: string): Balance {
    if s in now.nodes then RekeyBalance(now, s, BinFor(id, s), false) else EVEN
  }

  ghost function DeletionsBalance(st: Store, sources: seq<string>, ids: seq<string>): Balance
    requires |sources| <= |ids|
  {
    if sources == [] then EVEN
    else
      var n := |sources| - 1;
      Both(DeletionsBalance(st, sources[..n], ids),
           DeletionBalance(DeleteAllIn(st, sources[..n], ids).store, sources[n], ids[n]))
  }

  /** What a request to the writable root loses and adds: a PUT the file it overwrites and the
      one it brings, the others what their loops do. */
  ghost function RequestBalance(st: Store, r: Request): Balance
    requires HasIds(r)
  {
    match r
    case Mkdir(_) => EVEN
    case Put(path, overwrite, body) =>
      var admission := PutCheck(st.nodes, true, path, overwrite);
      if admission.Reject? then EVEN
      else
        Balance(if admission.path in st.nodes then DataOf(st.nodes[admission.path]) else multiset{}, multiset{body})
    case Rename(path, newName) =>
      var answer := RenameAnswer(st.nodes, path, newName);
      if answer.reply.Stored? then RekeyBalance(st, ParsePath(path).path, answer.reply.path, false) else EVEN
    case Transfer(keep, sources, destination, policy) =>
      if TransferRuns(st.nodes, sources, destination)
      then BatchBalance(st, PathsOf(ParsedSources(sources)), ParsePath(destination).path, policy, keep)
      else EVEN
    case Delete(paths, ids) =>
      if SourcesRefusal(paths).None? then DeletionsBalance(st, PathsOf(ParsedSources(paths)), ids) else EVEN
  }

  lemma {:induction false} StepBalances(now: ProgressIn, s: string, dest: string, policy: Policy, keep: bool)
    requires IsStore(now.store)
    ensures Balances(now.store.nodes, TransferStepIn(now, s, dest, policy, keep).store.nodes,
                     StepBalance(now, s, dest, policy, keep))
  {
    hide Balances, RekeyBalance, RekeyIn, Place, IsStore, EVEN;
    EvenBalances(now.store.nodes);
    if !now.crashed && s in now.store.nodes && Place(now.store.nodes, s, dest, policy).At? {
      RekeyBalances(now.store, s, Place(now.store.nodes, s, dest, policy).target, keep);
    }
  }

  lemma {:induction false} BatchBalances(st: Store, sources: seq<string>, dest: string, policy: Policy, keep: bool)
    requires IsStore(st)
    ensures Balances(st.nodes, TransferAllIn(st, sources, dest, policy, keep).store.nodes,
                     BatchBalance(st, sources, dest, policy, keep))
  {
    hide Balances, StepBalance, TransferStepIn, Both, EVEN, IsStore, BatchUntangled;
    if sources == [] {
      EvenBalances(st.nodes);
    } else {
      var n := |sources| - 1;
      var before := TransferAllIn(st, sources[..n], dest, policy, keep);
      BatchIs(st, sources[..n], dest, policy, keep);
      BatchBalances(st, sources[..n], dest, policy, keep);
      StepBalances(before, sources[n], dest, policy, keep);
      BothBalance(st.nodes, before.store.nodes, TransferStepIn(before, sources[n], dest, policy, keep).store.nodes,
        BatchBalance(st, sources[..n], dest, policy, keep), StepBalance(before, sources[n], dest, policy, keep));
    }
  }

  lemma {:induction false} DeletionBalances(now: ProgressIn, s: string, id: string)
    requires IsStore(now.store)
    ensures Balances(now.store.nodes, DeleteStepIn(now, s, id).store.nodes, DeletionBalance(now.store, s, id))
  {
    hide Balances, RekeyBalance, RekeyIn, BinFor, IsStore, EVEN;
    EvenBalances(now.store.nodes);
    if s in now.store.nodes {
      RekeyBalances(now.store, s, BinFor(id, s), false);
    }
  }

  lemma {:induction false} DeletionsBalances(st: Store, sources: seq<string>, ids: seq<string>)
    requires IsStore(st) && |sources| <= |ids|
    ensures Balances(st.nodes, DeleteAllIn(st, sources, ids).store.nodes, DeletionsBalance(st, sources, ids))
  {
    hide Balances, DeletionBalance, DeleteStepIn, Both, EVEN, IsStore, FreshIds;
    if sources == [] {
      EvenBalances(st.nodes);
    } else {
      var n := |sources| - 1;
      var before := DeleteAllIn(st, sources[..n], ids);
      DeletionsAre(st, sources[..n], ids);
      DeletionsBalances(st, sources[..n], ids);
      DeletionBalances(before, sources[n], ids[n]);
      BothBalance(st.nodes, before.store.nodes, DeleteStepIn(before, sources[n], ids[n]).store.nodes,
        DeletionsBalance(st, sources[..n], ids), DeletionBalance(before.store, sources[n], ids[n]));
    }
  }

  lemma {:induction false} PutBalances(st: Store, path: string, overwrite: bool, body: Bytes)
    ensures Balances(st.nodes, PutIn(st, true, path, overwrite, body).store.nodes,
                     RequestBalance(st, Put(path, overwrite, body)))
  {
    hide Contents, PutCheck;
    if PutCheck(st.nodes, true, path, overwrite).Admit? {
      ContentsSet(st.nodes, PutCheck(st.nodes, true, path, overwrite).path, File(body));
    }
  }

  lemma {:induction false} ReadOnlyStays(st: Store, path: string, overwrite: bool, body: Bytes)
    ensures PutIn(st, false, path, overwrite, body).store == st
  {
    hide ParsePath, ParentOf, IsDir;
  }

  lemma {:induction false} MkdirBalances(st: Store, path: string)
    ensures Balances(st.nodes, MkdirIn(st, path).store.nodes, EVEN)
  {
    hide Contents, ParsePath, ParentOf, MkdirAnswer;
    if MkdirAnswer(st.nodes, path).reply.Stored? {
      MkdirStored(st.nodes, path);
      MkdirPath(st.nodes, path);
      ContentsSet(st.nodes, MkdirAnswer(st.nodes, path).reply.path, Folder);
    }
  }

  lemma {:induction false} MkdirPath(m: FlatTree, raw: string)
    requires MkdirAnswer(m, raw).reply.Stored?
    ensures MkdirAnswer(m, raw).reply.path !in m
  {
    hide ParsePath, ParentOf;
  }

  lemma {:induction false} RenameBalances(st: Store, path: string, newName: string)
    requires IsStore(st)
    ensures Balances(st.nodes, RenameIn(st, path, newName).store.nodes, RequestBalance(st, Rename(path, newName)))
  {
    hide Balances, RekeyBalance, RekeyIn, RenameAnswer, ParsePath, EVEN, IsStore;
    EvenBalances(st.nodes);
    var answer := RenameAnswer(st.nodes, path, newName);
    if answer.reply.Stored? {
      RenamedIsBelowRoot(st.nodes, path, newName);
      RekeyBalances(st, ParsePath(path).path, answer.reply.path, false);
    }
  }

  lemma {:induction false} TransferBalances(st: Store, keep: bool, raws: seq<string>, rawDest: string, policy: Policy)
    requires IsStore(st)
    ensures Balances(st.nodes, TransferIn(st, keep, raws, rawDest, policy).store.nodes,
                     RequestBalance(st, Transfer(keep, raws, rawDest, policy)))
  {
    hide Balances, BatchBalance, TransferAnswer, TransferAllIn, EVEN, ParsePath, SourcesRefusal, IsDir, IsStore,
      BatchReply;
    EvenBalances(st.nodes);
    if TransferRuns(st.nodes, raws, rawDest) {
      BatchBalances(st, PathsOf(ParsedSources(raws)), ParsePath(rawDest).path, policy, keep);
    }
  }

  lemma {:induction false} DeleteBalances(st: Store, raws: seq<string>, ids: seq<string>)
    requires IsStore(st) && |raws| <= |ids|
    ensures Balances(st.nodes, DeleteIn(st, raws, ids).store.nodes, RequestBalance(st, Delete(raws, ids)))
  {
    hide Balances, DeletionsBalance, DeleteAllIn, SourcesRefusal, EVEN, BatchReply, IsStore;
    EvenBalances(st.nodes);
    if SourcesRefusal(raws).None? {
      DeletionsBalances(st, PathsOf(ParsedSources(raws)), ids);
    }
  }

  /** What a call loses and adds. */
  ghost function CallBalance(st: Store, rootId: string, r: Request): Balance
    requires HasIds(r)
  {
    if rootId == "phone" then RequestBalance(st, r) else EVEN
  }

  /** Every request is accounted for: guarded or not, tangled or not. */
  lemma {:induction false} RequestBalances(st: Store, rootId: string, r: Request)
    requires IsStore(st) && HasIds(r)
    ensures Balances(st.nodes, ApplyIn(st, rootId, r).store.nodes, CallBalance(st, rootId, r))
  {
    hide Balances, EVEN, MkdirIn, RenameIn, PutIn, TransferIn, DeleteIn, IsStore;
    EvenBalances(st.nodes);
    if r.Put? {
      ReadOnlyStays(st, r.path, r.overwrite, r.body);
    }
    if rootId == "phone" {
      match r {
        case Mkdir(path) => MkdirBalances(st, path);
        case Put(path, overwrite, body) => PutBalances(st, path, overwrite, body);
        case Rename(path, newName) => RenameBalances(st, path, newName);
        case Transfer(keep, sources, destination, policy) => TransferBalances(st, keep, sources, destination, policy);
        case Delete(paths, ids) => DeleteBalances(st, paths, ids);
      }
      hide RequestBalance;
    }
  }

  ghost function RunBalance(st: Store, calls: seq<Call>): Balance
    requires forall c :: c in calls ==> HasIds(c.request)
  {
    if calls == [] then EVEN
    else
      var n := |calls| - 1;
      Both(RunBalance(st, calls[..n]), CallBalance(RunIn(st, calls[..n]), calls[n].rootId, calls[n].request))
  }

  /** Over every run: what there is at the end and what was written over on the way make up what
      there was and what was added. */
  lemma {:induction false} RunBalances(st: Store, calls: seq<Call>)
    requires IsStore(st) && forall c :: c in calls ==> HasIds(c.request)
    ensures IsStore(RunIn(st, calls)) && Balances(st.nodes, RunIn(st, calls).nodes, RunBalance(st, calls))
  {
    hide Balances, Both, EVEN, CallBalance, ApplyIn, HasIds, IsStore, RequestUntangled;
    if calls == [] {
      EvenBalances(st.nodes);
    } else {
      var n := |calls| - 1;
      RunBalances(st, calls[..n]);
      assert calls[n] in calls;
      RequestIs(RunIn(st, calls[..n]), calls[n].rootId, calls[n].request);
      RequestBalances(RunIn(st, calls[..n]), calls[n].rootId, calls[n].request);
      BothBalance(st.nodes, RunIn(st, calls[..n]).nodes, RunIn(st, calls).nodes, RunBalance(st, calls[..n]),
        CallBalance(RunIn(st, calls[..n]), calls[n].rootId, calls[n].request));
    }
  }
}
