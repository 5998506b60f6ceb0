/** The order of a `Map`, over which the loops run: section 24.1 of ECMA-262 has it that keys come
    in the order of their insertion. Here it is told of the history of changes alone. */
module InsertionOrder {
  import opened FileTree
  import opened Sequences
  import opened Stores
  import Storage

  datatype Change = Sets(key: string, node: Node) | Drops(key: string)

  function Made(st: Store, c: Change): Store {
    match c
    case Sets(k, node) => SetKey(st, k, node)
    case Drops(k) => DropKey(st, k)
  }

  function MadeAll(changes: seq<Change>): Store {
    if changes == [] then Store(map[], [])
    else Made(MadeAll(changes[..|changes| - 1]), changes[|changes| - 1])
  }

  /** The n-th change sets the key, and none after it drops it. */
  predicate LastsFrom(changes: seq<Change>, n: nat, k: string) {
    && n < |changes| && changes[n].Sets? && changes[n].key == k
    && forall m :: n < m < |changes| ==> changes[m] != Drops(k)
  }

  /** The node it was last given. */
  predicate LastGiven(changes: seq<Change>, n: nat, k: string, node: Node) {
    && n < |changes| && changes[n] == Sets(k, node)
    && forall m :: n < m < |changes| ==> changes[m].key != k
  }

  ghost predicate IsThere(changes: seq<Change>, k: string) {
    exists n :: LastsFrom(changes, n, k)
  }

  /** The change with which the key came, to stay. */
  ghost predicate CameWith(changes: seq<Change>, n: nat, k: string) {
    LastsFrom(changes, n, k) && !IsThere(changes[..n], k)
  }

  lemma {:induction false} LastsLonger(changes: seq<Change>, c: Change, n: nat, k: string)
    ensures LastsFrom(changes + [c], n, k) <==>
      if n < |changes| then LastsFrom(changes, n, k) && c != Drops(k)
      else n == |changes| && c.Sets? && c.key == k
  {
    var more := changes + [c];
    assert more[|changes|] == c;
    if n < |changes| {
      assert more[n] == changes[n];
      assert forall m :: n < m < |changes| ==> more[m] == changes[m];
    }
  }

  lemma {:induction false} ThereLonger(changes: seq<Change>, c: Change, k: string)
    ensures IsThere(changes + [c], k) <==> (c.Sets? && c.key == k) || (IsThere(changes, k) && c != Drops(k))
  {
    hide LastsFrom;
    forall n: nat
      ensures LastsFrom(changes + [c], n, k) <==>
        if n < |changes| then LastsFrom(changes, n, k) && c != Drops(k)
        else n == |changes| && c.Sets? && c.key == k
    {
      LastsLonger(changes, c, n, k);
    }
    if c.Sets? && c.key == k {
      assert LastsFrom(changes + [c], |changes|, k);
    } else if IsThere(changes, k) && c != Drops(k) {
      var n :| LastsFrom(changes, n, k);
      WithinHistory(changes, n, k);
      assert LastsFrom(changes + [c], n, k);
    }
  }

  lemma {:induction false} WithinHistory(changes: seq<Change>, n: nat, k: string)
    requires LastsFrom(changes, n, k)
    ensures n < |changes|
  {
  }

  lemma {:induction false} CameBefore(changes: seq<Change>, c: Change, n: nat, k: string)
    requires CameWith(changes, n, k) && c != Drops(k)
    ensures CameWith(changes + [c], n, k)
  {
    LastsLonger(changes, c, n, k);
    WithinHistory(changes, n, k);
    hide LastsFrom;
    assert (changes + [c])[..n] == changes[..n];
  }

  lemma {:induction false} CameNow(changes: seq<Change>, c: Change)
    requires c.Sets? && !IsThere(changes, c.key)
    ensures CameWith(changes + [c], |changes|, c.key)
  {
    LastsLonger(changes, c, |changes|, c.key);
    hide LastsFrom;
    assert (changes + [c])[..|changes|] == changes;
  }

  /** A key comes with one change only. */
  lemma {:induction false} CameOnce(changes: seq<Change>, m: nat, n: nat, k: string)
    requires CameWith(changes, m, k) && CameWith(changes, n, k)
    ensures m == n
  {
    var i, j := if m < n then m else n, if m < n then n else m;
    if i < j {
      assert LastsFrom(changes[..j], i, k);
    }
  }

  /** After any history: a key is there exactly if it was set and not dropped since. */
  lemma {:induction false} ThereExactly(changes: seq<Change>, k: string)
    ensures IsStore(MadeAll(changes))
    ensures k in MadeAll(changes).nodes <==> IsThere(changes, k)
  {
    if changes != [] {
      var before, c := changes[..|changes| - 1], changes[|changes| - 1];
      ThereExactly(before, k);
      assert changes == before + [c];
      hide IsStore, IsThere, Except;
      ThereLonger(before, c, k);
      match c {
        case Sets(key, node) => SetKeyKeeps(MadeAll(before), key, node);
        case Drops(key) => DropKeyKeeps(MadeAll(before), key);
      }
    } else {
      Storage.EmptyIsStore();
      hide IsStore;
    }
  }

  /** And it holds what it was last given. */
  lemma {:induction false} HoldsLastGiven(changes: seq<Change>, n: nat, k: string, node: Node)
    requires LastGiven(changes, n, k, node)
    ensures k in MadeAll(changes).nodes && MadeAll(changes).nodes[k] == node
  {
    if n < |changes| - 1 {
      HoldsLastGiven(changes[..|changes| - 1], n, k, node);
      assert changes[|changes| - 1].key != k;
    }
    hide Except;
  }

  /** `at[i]` is the change with which the i-th key came. */
  ghost predicate AreArrivals(changes: seq<Change>, order: seq<string>, at: seq<nat>) {
    && |at| == |order|
    && (forall i :: 0 <= i < |at| ==> CameWith(changes, at[i], order[i]))
    && (forall i, j :: 0 <= i < j < |at| ==> at[i] < at[j])
  }

  /** The keys stand in the order of the changes with which they came; setting a key that is there
      does not move it, and one that comes again goes last. With `CameOnce` that fixes the order. */
  lemma {:induction false} KeysInOrderOfArrival(changes: seq<Change>) returns (at: seq<nat>)
    ensures AreArrivals(changes, MadeAll(changes).order, at)
  {
    at := [];
    if changes != [] {
      var before, c := changes[..|changes| - 1], changes[|changes| - 1];
      assert changes == before + [c];
      var st := MadeAll(before);
      at := KeysInOrderOfArrival(before);
      ThereExactly(before, c.key);
      hide MadeAll, IsStore, AreArrivals, IsThere, CameWith;
      match c {
        case Sets(k, node) => at := ArrivalsOnSet(before, c, st.order, at, k in st.nodes);
        case Drops(k) => at := ArrivalsOnDrop(before, k, st.order, at);
      }
      assert MadeAll(changes) == Made(st, c) by { LastMade(changes); }
    }
  }

  lemma {:induction false} LastMade(changes: seq<Change>)
    requires changes != []
    ensures MadeAll(changes) == Made(MadeAll(changes[..|changes| - 1]), changes[|changes| - 1])
  {
    hide Made;
  }

  lemma {:induction false} ArrivalsOnSet(changes: seq<Change>, c: Change, order: seq<string>, at: seq<nat>,
                                          there: bool) returns (after: seq<nat>)
    requires AreArrivals(changes, order, at) && c.Sets? && (there <==> IsThere(changes, c.key))
    ensures AreArrivals(changes + [c], if there then order else order + [c.key], after)
  {
    hide CameWith, IsThere;
    forall i | 0 <= i < |at|
      ensures CameWith(changes + [c], at[i], order[i]) && at[i] < |changes|
    {
      CameWithin(changes, at[i], order[i]);
      CameBefore(changes, c, at[i], order[i]);
    }
    if there {
      after := at;
    } else {
      after := at + [|changes|];
      CameNow(changes, c);
    }
  }

  lemma {:induction false} CameWithin(changes: seq<Change>, n: nat, k: string)
    requires CameWith(changes, n, k)
    ensures n < |changes|
  {
  }

  lemma {:induction false} ArrivalsOnDrop(changes: seq<Change>, k: string, order: seq<string>, at: seq<nat>)
    returns (after: seq<nat>)
    requires AreArrivals(changes, order, at)
    ensures AreArrivals(changes + [Drops(k)], Except(order, k), after)
    ensures forall x :: x in after ==> x in at
  {
    if order == [] {
      after := [];
      assert Except(order, k) == [];
    } else {
      var n := |order| - 1;
      after := ArrivalsOnDrop(changes, k, order[..n], at[..n]);
      ExceptLast(order, k);
      assert Except(order[..n], k) + [] == Except(order[..n], k);
      hide Except, CameWith;
      if order[n] != k {
        CameBefore(changes, Drops(k), at[n], order[n]);
        var front := after;
        after := front + [at[n]];
        forall i | 0 <= i < |front|
          ensures front[i] < at[n]
        {
          assert front[i] in at[..n];
        }
        assert Except(order, k) == Except(order[..n], k) + [order[n]];
      } else {
        assert Except(order, k) == Except(order[..n], k);
      }
    }
  }
}
