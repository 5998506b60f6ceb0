/** Sequences without duplicates, such as the keys of a map in the order of their insertion. */
module Sequences {
  function Elements(sources: seq<string>): set<string> {
    set s | s in sources
  }

  ghost predicate NoDuplicates(sources: seq<string>) {
    forall s :: multiset(sources)[s] <= 1
  }

  lemma {:induction false} ElementsOf(sources: seq<string>, s: string)
    ensures s in Elements(sources) <==> s in sources
  {
  }

  lemma {:induction false} LastIsNew(sources: seq<string>)
    requires sources != [] && NoDuplicates(sources)
    ensures var n := |sources| - 1;
      && sources[n] !in sources[..n] && NoDuplicates(sources[..n])
      && Elements(sources) == Elements(sources[..n]) + {sources[n]}
  {
    var n := |sources| - 1;
    assert sources == sources[..n] + [sources[n]];
    assert multiset(sources) == multiset(sources[..n]) + multiset{sources[n]};
    forall s
      ensures multiset(sources[..n])[s] <= 1
    {
      assert multiset(sources)[s] <= 1;
    }
    assert multiset(sources)[sources[n]] <= 1;
  }

  lemma {:induction false} OneMore(keys: seq<string>, k: string)
    ensures Elements(keys + [k]) == Elements(keys) + {k}
    ensures NoDuplicates(keys) && k !in keys ==> NoDuplicates(keys + [k])
  {
    assert multiset(keys + [k]) == multiset(keys) + multiset{k};
    forall s | NoDuplicates(keys) && k !in keys
      ensures multiset(keys + [k])[s] <= 1
    {
      assert multiset(keys)[s] <= 1;
    }
  }

  lemma {:induction false} NoneTwice(keys: seq<string>, i: nat, j: nat)
    requires NoDuplicates(keys) && i < j < |keys|
    ensures keys[i] != keys[j]
  {
    var a, b := keys[..j], keys[j..];
    assert keys == a + b;
    assert multiset(keys) == multiset(a) + multiset(b);
    assert a[i] == keys[i] && b[0] == keys[j];
    assert multiset(keys)[keys[i]] <= 1;
    assert keys[i] in multiset(a) && keys[j] in multiset(b);
  }

  /** The sequence without `k`. */
  function Except(keys: seq<string>, k: string): seq<string> {
    if keys == [] then []
    else
      var n := |keys| - 1;
      Except(keys[..n], k) + if keys[n] == k then [] else [keys[n]]
  }

  lemma {:induction false} ExceptLast(keys: seq<string>, k: string)
    ensures Except([], k) == []
    ensures keys != [] ==>
      (var n := |keys| - 1; Except(keys, k) == Except(keys[..n], k) + if keys[n] == k then [] else [keys[n]])
  {
  }

  lemma {:induction false} ExceptRemoves(keys: seq<string>, k: string)
    requires NoDuplicates(keys)
    ensures Elements(Except(keys, k)) == Elements(keys) - {k} && NoDuplicates(Except(keys, k))
  {
    if keys == [] {
      assert Elements([]) == {};
    } else {
      hide *;
      var n := |keys| - 1;
      LastIsNew(keys);
      ExceptLast(keys, k);
      ExceptRemoves(keys[..n], k);
      var front := Except(keys[..n], k);
      if keys[n] == k {
        assert front + [] == front;
        ElementsOf(keys[..n], k);
      } else {
        ElementsOf(front, keys[n]);
        ElementsOf(keys[..n], keys[n]);
        OneMore(front, keys[n]);
      }
    }
  }
}
