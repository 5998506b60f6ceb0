/** First facts about the request functions: what a batch keeps while it runs. */
module RequestFacts {
  import opened Options
  import opened Paths
  import opened Naming
  import opened FileTree
  import opened Requests

  // ------------------------------------------------------------------------------ seeding

  /** The path `segs` and all its ancestors, made folders where they are missing. */
  function WithFolders(m: FlatTree, segs: seq<string>): FlatTree {
    if segs == [] then m
    else
      var above := WithFolders(m, segs[..|segs| - 1]);
      if Render(segs) in above then above else above[Render(segs) := Folder]
  }

  function Seeded(m: FlatTree, p: string, node: Node): FlatTree {
    var parts := Segments(p);
    WithFolders(m, if parts == [] then [] else parts[..|parts| - 1])[p := node]
  }

  // ------------------------------------------------------------------------------ batches

  /** Once a batch has crashed the remaining sources do nothing. */
  lemma {:induction false} CrashStays(m: FlatTree, sources: seq<string>, n: nat, dest: string, policy: Policy,
                                      keep: bool)
    requires n <= |sources|
    requires TransferAll(m, sources[..n], dest, policy, keep).crashed
    ensures TransferAll(m, sources, dest, policy, keep) == TransferAll(m, sources[..n], dest, policy, keep)
    decreases |sources| - n
  {
    if n < |sources| {
      assert sources[..n + 1][..n] == sources[..n];
      CrashStays(m, sources, n + 1, dest, policy, keep);
    } else {
      assert sources[..n] == sources;
    }
  }

  lemma {:induction false} BinIsPrefix(id: string, s: string, k: string)
    requires Under(BinFor(id, s), k)
    ensures RECYCLE + id <= k
  {
  }

  /** Identifiers of equal length keep different deletions apart. */
  lemma {:induction false} IdsApart(id: string, other: string, s: string, k: string)
    requires |id| == |other| && id != other && Under(BinFor(id, s), k)
    ensures !(RECYCLE + other <= k)
  {
    BinIsPrefix(id, s, k);
    var a, b := RECYCLE + id, RECYCLE + other;
    assert a == k[..|a|];
    assert id == a[|RECYCLE|..] && other == b[|RECYCLE|..];
  }

  /** Deleting earlier items leaves the identifiers of later ones fresh. */
  lemma {:induction false} IdsStayFresh(m: FlatTree, sources: seq<string>, ids: seq<string>)
    requires |sources| <= |ids| && FreshIds(m, ids)
    ensures FreshIds(DeleteAll(m, sources, ids).tree, ids[|sources|..])
  {
    if sources != [] {
      var n := |sources| - 1;
      var before, after := DeleteAll(m, sources[..n], ids), DeleteAll(m, sources, ids);
      IdsStayFresh(m, sources[..n], ids);
      var s, rest := sources[n], ids[n + 1..];
      assert forall i :: 0 <= i < |rest| ==> rest[i] == ids[n..][i + 1];
      forall i, k | 0 <= i < |rest| && k in after.tree
        ensures !(RECYCLE + rest[i] <= k)
      {
        if k !in before.tree {
          assert Under(BinFor(ids[n], s), k);
          IdsApart(ids[n], rest[i], s, k);
        }
      }
    }
  }

  /** The place in the bin for the next item is free. */
  lemma {:induction false} BinStaysFree(m: FlatTree, sources: seq<string>, ids: seq<string>, s: string)
    requires |sources| < |ids| && FreshIds(m, ids)
    ensures FreeAt(DeleteAll(m, sources, ids).tree, BinFor(ids[|sources|], s))
  {
    IdsStayFresh(m, sources, ids);
    var now := DeleteAll(m, sources, ids).tree;
    assert ids[|sources|..][0] == ids[|sources|];
    forall k | k in now
      ensures !Under(BinFor(ids[|sources|], s), k)
    {
      if Under(BinFor(ids[|sources|], s), k) {
        BinIsPrefix(ids[|sources|], s, k);
      }
    }
  }

  /** The three totals of a reply account for every source that was reported. */
  lemma {:induction false} TotalsAddUp(results: seq<Result>)
    ensures CountCompleted(results) + CountSkipped(results) + CountNotFound(results) == |results|
  {
    if results != [] {
      TotalsAddUp(results[1..]);
    }
  }
}
