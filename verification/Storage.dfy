/** The mock server's `tree` and the loops that change it in place: a map that remembers in which
    order its keys were first set. Each method is proved against its function in `Stores`. */
module Storage {
  import opened Options
  import opened Paths
  import opened Naming
  import opened FileTree
  import opened Sequences
  import opened Snapshots
  import opened Requests
  import opened Runs
  import opened Stores

  class Server {
    var nodes: FlatTree
    var order: seq<string>

    function State(): Store
      reads this
    {
      Store(nodes, order)
    }

    /** `order` holds each key once. */
    ghost predicate Valid()
      reads this
    {
      IsStore(State())
    }

    constructor ()
      ensures State() == Store(map[], []) && Valid()
    {
      nodes, order := map[], [];
      new;
      EmptyIsStore();
    }

    /** `tree.set` */
    method Set(k: string, node: Node)
      requires Valid()
      modifies this
      ensures Valid() && State() == SetKey(old(State()), k, node)
    {
      SetKeyKeeps(State(), k, node);
      if k !in nodes {
        order := order + [k];
      }
      nodes := nodes[k := node];
    }

    /** `tree.delete` */
    method Drop(k: string)
      requires Valid()
      modifies this
      ensures Valid() && State() == DropKey(old(State()), k)
    {
      DropKeyKeeps(State(), k);
      nodes, order := nodes - {k}, Except(order, k);
    }

    /** `seed`: the missing folders above `p`, then `p` itself. */
    method Seed(p: string, node: Node)
      requires Valid()
      modifies this
      ensures Valid() && State() == SeededIn(old(State()), p, node)
    {
      hide *;
      ghost var st := State();
      var parts := Segments(p);
      SeededUnfolded(st, p, node);
      var i := 1;
      while i < |parts|
        invariant 1 <= i && (i <= |parts| || i == 1)
        invariant Valid() && State() == WithFoldersIn(st, parts[..i - 1])
      {
        var dir := Absolute(parts[..i]);
        FoldersOneMore(st, parts[..i]);
        StateIs(this);
        assert parts[..i][..i - 1] == parts[..i - 1];
        if dir !in nodes {
          Set(dir, Folder);
        }
        i := i + 1;
      }
      Set(p, node);
    }

    /** The loop of rename, delete, move and copy over a copy of the keys. */
    method Rekey(s: string, t: string, keep: bool)
      requires Valid()
      modifies this
      ensures Valid() && State() == RekeyIn(old(State()), s, t, keep)
      ensures Untangled(old(nodes), s, t, keep) ==> nodes == Relocated(old(nodes), s, t, keep)
      ensures SameOutside(old(nodes), nodes, s, t)
    {
      ghost var st := State();
      var keys := order;
      KeysThere(st);
      assert keys[..0] == [];
      for i := 0 to |keys|
        invariant Valid() && State() == LoopIn(st, s, t, keep, keys[..i])
        invariant forall j :: i <= j < |keys| ==> keys[j] in nodes
      {
        hide *;
        var k := keys[i];
        ghost var before := State();
        if Under(s, k) {
          Set(Swap(s, t, k), nodes[k]);
          if !keep {
            Drop(k);
          }
        }
        TurnWas(before, s, t, keep, k, State());
        LaterKeysStay(st, before, s, t, keep, i);
        LoopOneMore(st, s, t, keep, keys[..i], k);
        assert keys[..i + 1] == keys[..i] + [k];
      }
      assert keys[..|keys|] == keys;
      RekeyIs(st, s, t, keep);
    }

    method Mkdir(raw: string) returns (reply: Reply)
      requires Valid()
      modifies this
      ensures Valid() && AnswerIn(State(), reply) == MkdirIn(old(State()), raw)
    {
      var parsed := ParsePathLoop(raw);
      if parsed.Invalid? || parsed == Parsed.Ok("/") {
        return Refused(400, "invalid_path");
      }
      if parsed.Reserved? {
        return Refused(404, "not_found");
      }
      var p := parsed.path;
      if !IsDir(nodes, ParentOf(p)) {
        return Refused(409, "parent_not_found");
      }
      if p in nodes {
        return Refused(409, "already_exists");
      }
      Set(p, Folder);
      return Stored(201, p);
    }

    method Rename(raw: string, newName: string) returns (reply: Reply)
      requires Valid()
      modifies this
      ensures Valid() && AnswerIn(State(), reply) == RenameIn(old(State()), raw, newName)
    {
      hide IsStore, RekeyIn;
      var parsed := ParsePathLoop(raw);
      if parsed.Invalid? || parsed == Parsed.Ok("/") {
        return Refused(400, "bad_request");
      }
      if parsed.Reserved? {
        return Refused(404, "not_found");
      }
      var p := parsed.path;
      if !IsAllowedName(newName, ParentOf(p)) {
        return Refused(400, "invalid_name");
      }
      if p !in nodes {
        return Refused(404, "not_found");
      }
      var target := JoinPath(ParentOf(p), newName);
      if target != p && target in nodes {
        return Refused(409, "already_exists");
      }
      Rekey(p, target, false);
      return Stored(200, target);
    }

    /** The PUT branch up to the point where it waits for the body. */
    method PutBegin(writable: bool, raw: string, overwrite: bool) returns (admission: Admission)
      ensures admission == PutCheck(nodes, writable, raw, overwrite)
    {
      var parsed := ParsePathLoop(raw);
      if parsed.Invalid? || parsed == Parsed.Ok("/") {
        return Reject(Refused(400, "invalid_path"));
      }
      if parsed.Reserved? {
        return Reject(Refused(404, "not_found"));
      }
      var p := parsed.path;
      if !writable {
        return Reject(Refused(403, "read_only_storage"));
      }
      if !IsDir(nodes, ParentOf(p)) {
        return Reject(Refused(409, "parent_not_found"));
      }
      if p in nodes && nodes[p].Folder? {
        return Reject(Refused(409, "is_a_directory"));
      }
      if p in nodes && !overwrite {
        return Reject(Refused(409, "already_exists"));
      }
      return Admit(p, p in nodes);
    }

    /** The rest of the PUT branch, when the body has arrived. */
    method PutEnd(path: string, body: Bytes)
      requires Valid()
      modifies this
      ensures Valid() && State() == SetKey(old(State()), path, File(body))
    {
      Set(path, File(body));
    }

    method PlaceOf(s: string, dest: string, policy: Policy) returns (place: Placement)
      ensures place == Place(nodes, s, dest, policy)
    {
      var target := JoinPath(dest, NameOf(s));
      if target in nodes && s != target {
        if policy == Skip {
          return Occupied;
        }
        if policy == KeepBoth {
          var name := NameOf(s);
          var group := LazyGroup(name, 0);
          if group.None? {
            return Unmatched;
          }
          var stem := JoinPath(dest, name[..group.value]);
          var i := FindFreeNumber(nodes.Keys, stem, name[group.value..]);
          return At(Numbered(stem, i, name[group.value..]));
        }
      }
      return At(target);
    }

    /** The turn of one source of a move or copy. */
    method TransferOne(keep: bool, s: string, dest: string, policy: Policy, results: seq<Result>)
      returns (more: seq<Result>, crashed: bool)
      requires Valid()
      modifies this
      ensures Valid()
      ensures ProgressIn(State(), more, crashed) ==
        TransferStepIn(ProgressIn(old(State()), results, false), s, dest, policy, keep)
    {
      hide RekeyIn, Place, IsStore;
      if s !in nodes {
        return results + [Result(s, NotFound)], false;
      }
      var place := PlaceOf(s, dest, policy);
      if place.Unmatched? {
        return results, true;
      }
      if place.Occupied? {
        return results + [Result(s, Skipped)], false;
      }
      Rekey(s, place.target, keep);
      return results + [Result(s, Completed(place.target))], false;
    }

    method Transfer(keep: bool, sources: seq<string>, dest: string, policy: Policy) returns (reply: Reply)
      requires Valid()
      modifies this
      ensures Valid()
      ensures var p := TransferAllIn(old(State()), sources, dest, policy, keep);
        AnswerIn(State(), reply) == AnswerIn(p.store, BatchReply(Unordered(p)))
    {
      hide TransferStepIn, IsStore;
      ghost var st := State();
      var results: seq<Result> := [];
      for i := 0 to |sources|
        invariant Valid() && ProgressIn(State(), results, false) == TransferAllIn(st, sources[..i], dest, policy, keep)
      {
        assert sources[..i + 1][..i] == sources[..i];
        var more, crashed := TransferOne(keep, sources[i], dest, policy, results);
        if crashed {
          CrashEnds(st, sources, i + 1, dest, policy, keep);
          return Crashed;
        }
        results := more;
      }
      assert sources[..|sources|] == sources;
      return BatchReply(Progress(nodes, results, false));
    }

    method Delete(sources: seq<string>, ids: seq<string>) returns (reply: Reply)
      requires Valid() && |sources| <= |ids|
      modifies this
      ensures Valid()
      ensures var p := DeleteAllIn(old(State()), sources, ids);
        AnswerIn(State(), reply) == AnswerIn(p.store, BatchReply(Unordered(p)))
    {
      hide RekeyIn, IsStore, BinFor;
      ghost var st := State();
      var results: seq<Result> := [];
      for i := 0 to |sources|
        invariant Valid() && ProgressIn(State(), results, false) == DeleteAllIn(st, sources[..i], ids)
      {
        var s := sources[i];
        assert sources[..i + 1][..i] == sources[..i];
        if s !in nodes {
          results := results + [Result(s, NotFound)];
          continue;
        }
        var bin := BinFor(ids[i], s);
        Rekey(s, bin, false);
        results := results + [Result(s, Completed(bin))];
      }
      assert sources[..|sources|] == sources;
      return BatchReply(Progress(nodes, results, false));
    }

    /** One authorised request, from the root check to the reply. */
    method Api(rootId: string, r: Request) returns (reply: Reply)
      requires Valid() && HasIds(r)
      modifies this
      ensures Valid() && AnswerIn(State(), reply) == ApplyIn(old(State()), rootId, r)
      ensures RequestUntangled(old(nodes), r) ==> Answer(nodes, reply) == Apply(old(nodes), rootId, r)
    {
      ghost var st := State();
      reply := Answered(rootId, r);
      hide *;
      RequestIs(st, rootId, r);
      AnswerIsOne(ApplyIn(st, rootId, r), Apply(st.nodes, rootId, r));
    }

    method Answered(rootId: string, r: Request) returns (reply: Reply)
      requires Valid() && HasIds(r)
      modifies this
      ensures Valid() && AnswerIn(State(), reply) == ApplyIn(old(State()), rootId, r)
    {
      hide IsStore, TransferAllIn, DeleteAllIn, MkdirIn, RenameIn, PutCheck, IsDir;
      if rootId != "phone" && rootId != "card" {
        return Refused(404, "root_not_found");
      }
      var writable := rootId == "phone";
      if r.Put? {
        var admission := PutBegin(writable, r.path, r.overwrite);
        if admission.Reject? {
          return admission.reply;
        }
        PutEnd(admission.path, r.body);
        return Stored(if admission.existed then 200 else 201, admission.path);
      }
      if !writable {
        return Refused(403, "read_only_storage");
      }
      match r {
        case Mkdir(path) =>
          reply := Mkdir(path);
        case Rename(path, newName) =>
          reply := Rename(path, newName);
        case Transfer(keep, sources, destination, policy) =>
          var refusal := SourcesRefusal(sources);
          if refusal.Some? {
            return refusal.value;
          }
          var dest := ParsePathLoop(destination);
          if dest.Invalid? {
            return Refused(400, "bad_request");
          }
          if dest.Reserved? {
            return Refused(404, "not_found");
          }
          if !IsDir(nodes, dest.path) {
            return Refused(409, "destination_not_found");
          }
          reply := Transfer(keep, PathsOf(ParsedSources(sources)), dest.path, policy);
        case Delete(paths, ids) =>
          var refusal := SourcesRefusal(paths);
          if refusal.Some? {
            return refusal.value;
          }
          reply := Delete(PathsOf(ParsedSources(paths)), ids);
      }
    }
  }

  lemma {:induction false} EmptyIsStore()
    ensures IsStore(Store(map[], []))
  {
    assert Elements([]) == {};
  }

  lemma {:induction false} StateIs(server: Server)
    ensures server.State() == Store(server.nodes, server.order)
  {
  }

  lemma {:induction false} SeededUnfolded(st: Store, p: string, node: Node)
    ensures var parts := Segments(p);
      SeededIn(st, p, node) == SetKey(WithFoldersIn(st, if parts == [] then [] else parts[..|parts| - 1]), p, node)
    ensures WithFoldersIn(st, []) == st
  {
    hide Segments, SetKey;
  }

  lemma {:induction false} FoldersOneMore(st: Store, segs: seq<string>)
    requires segs != []
    ensures var above := WithFoldersIn(st, segs[..|segs| - 1]);
      WithFoldersIn(st, segs) ==
        if Absolute(segs) in above.nodes then above else SetKey(above, Absolute(segs), Folder)
  {
    hide Render, SetKey;
  }

  lemma {:induction false} KeysThere(st: Store)
    requires IsStore(st)
    ensures forall j :: 0 <= j < |st.order| ==> st.order[j] in st.nodes
  {
    hide NoDuplicates, Elements;
    forall j | 0 <= j < |st.order|
      ensures st.order[j] in st.nodes
    {
      ElementsOf(st.order, st.order[j]);
    }
  }

  /** What the body of the loop has done is one turn. */
  lemma {:induction false} TurnWas(before: Store, s: string, t: string, keep: bool, k: string, now: Store)
    requires k in before.nodes
    requires now ==
      if !Under(s, k) then before
      else if keep then SetKey(before, Swap(s, t, k), before.nodes[k])
      else DropKey(SetKey(before, Swap(s, t, k), before.nodes[k]), k)
    ensures now == TurnIn(before, s, t, keep, k)
  {
    hide SetKey, DropKey, Under, Swap;
  }

  /** The keys whose turn is still to come are there. */
  lemma {:induction false} LaterKeysStay(st: Store, now: Store, s: string, t: string, keep: bool, i: nat)
    requires IsStore(st) && i < |st.order| && IsStore(now)
    requires forall j :: i <= j < |st.order| ==> st.order[j] in now.nodes
    ensures forall j :: i < j < |st.order| ==> st.order[j] in TurnIn(now, s, t, keep, st.order[i]).nodes
  {
    TurnInIs(now, s, t, keep, st.order[i]);
    hide TurnIn, Turn, Elements, NoDuplicates;
    TurnKeepsOthers(now.nodes, s, t, keep, st.order[i]);
    forall j | i < j < |st.order|
      ensures st.order[j] in TurnIn(now, s, t, keep, st.order[i]).nodes
    {
      NoneTwice(st.order, i, j);
    }
  }

  /** Once the batch has crashed the remaining sources do nothing. */
  lemma {:induction false} CrashEnds(st: Store, sources: seq<string>, n: nat, dest: string, policy: Policy, keep: bool)
    requires n <= |sources| && TransferAllIn(st, sources[..n], dest, policy, keep).crashed
    ensures TransferAllIn(st, sources, dest, policy, keep) == TransferAllIn(st, sources[..n], dest, policy, keep)
    decreases |sources| - n
  {
    if n < |sources| {
      assert sources[..n + 1][..n] == sources[..n];
      CrashEnds(st, sources, n + 1, dest, policy, keep);
    } else {
      assert sources[..n] == sources;
    }
  }

  lemma {:induction false} AnswerIsOne(a: AnswerIn, one: Answer)
    ensures IsAnswer(a, one) ==> Answer(a.store.nodes, a.reply) == one
  {
    hide IsStore;
  }
}
