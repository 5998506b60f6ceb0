/** The files a tree holds, each content counted as often as it is stored. */
module Conservation {
  import opened Paths
  import opened FileTree

  function DataOf(node: Node): multiset<Bytes> {
    match node
    case Folder => multiset{}
    case File(data) => multiset{data}
  }

  /** The contents of all files, wherever they lie. */
  ghost function Contents(m: FlatTree): multiset<Bytes> {
    if m == map[] then multiset{}
    else
      var k :| k in m;
      Contents(m - {k}) + DataOf(m[k])
  }

  lemma {:induction false} Smaller(m: FlatTree, k: string)
    requires k in m
    ensures |m - {k}| < |m|
  {
  }

  lemma {:induction false} Shuffle(a: multiset<Bytes>, b: multiset<Bytes>, c: multiset<Bytes>)
    ensures (a + b) + c == (a + c) + b
    ensures (a + b) + c == a + (b + c)
  {
  }

  /** The sum does not depend on the order in which the keys are taken. */
  lemma {:induction false} ContentsRemove(m: FlatTree, k: string)
    requires k in m
    ensures Contents(m) == Contents(m - {k}) + DataOf(m[k])
    decreases |m|
  {
    var j :| j in m && Contents(m) == Contents(m - {j}) + DataOf(m[j]);
    if j != k {
      hide *;
      Smaller(m, j);
      Smaller(m, k);
      var rest := m - {j} - {k};
      assert rest == m - {k} - {j};
      ContentsRemove(m - {j}, k);
      ContentsRemove(m - {k}, j);
      Shuffle(Contents(rest), DataOf(m[j]), DataOf(m[k]));
    }
  }

  lemma {:induction false} ContentsInsert(m: FlatTree, k: string, node: Node)
    requires k !in m
    ensures Contents(m[k := node]) == Contents(m) + DataOf(node)
  {
    hide *;
    ContentsRemove(m[k := node], k);
    assert m[k := node] - {k} == m;
  }

  /** The places where a file with this content lies. */
  ghost function PlacesOf(m: FlatTree, data: Bytes): set<string> {
    set k | k in m && m[k] == File(data)
  }

  /** Each content is counted once for every file that holds it, and folders count for nothing. */
  lemma {:induction false} ContentsCount(m: FlatTree, data: Bytes)
    ensures Contents(m)[data] == |PlacesOf(m, data)|
    decreases |m|
  {
    if m == map[] {
      assert PlacesOf(m, data) == {};
    } else {
      hide Contents, PlacesOf;
      var k :| k in m;
      ContentsRemove(m, k);
      Smaller(m, k);
      ContentsCount(m - {k}, data);
      OnePlaceMore(m, k, data);
    }
  }

  lemma {:induction false} OnePlaceMore(m: FlatTree, k: string, data: Bytes)
    requires k in m
    ensures |PlacesOf(m, data)| == |PlacesOf(m - {k}, data)| + if m[k] == File(data) then 1 else 0
  {
    var rest := PlacesOf(m - {k}, data);
    assert k !in rest;
    if m[k] == File(data) {
      assert PlacesOf(m, data) == rest + {k};
    } else {
      assert PlacesOf(m, data) == rest;
    }
  }

  lemma {:induction false} PutBack(a: FlatTree, b: FlatTree, k: string)
    requires k in b && a.Keys !! b.Keys
    ensures a.Keys !! (b - {k}).Keys
    ensures k !in a + (b - {k}) && (a + (b - {k}))[k := b[k]] == a + b
  {
  }

  lemma {:induction false} ContentsUnion(a: FlatTree, b: FlatTree)
    requires a.Keys !! b.Keys
    ensures Contents(a + b) == Contents(a) + Contents(b)
    decreases |b|
  {
    if b == map[] {
      assert a + b == a;
    } else {
      hide *;
      var k :| k in b;
      Smaller(b, k);
      PutBack(a, b, k);
      ContentsUnion(a, b - {k});
      ContentsRemove(b, k);
      ContentsInsert(a + (b - {k}), k, b[k]);
      Shuffle(Contents(a), Contents(b - {k}), DataOf(b[k]));
    }
  }

  function Inside(m: FlatTree, s: string): FlatTree {
    map k | k in m && Under(s, k) :: m[k]
  }

  lemma {:induction false} ContentsSplit(m: FlatTree, s: string)
    ensures Contents(m) == Contents(Without(m, s)) + Contents(Inside(m, s))
  {
    hide Contents, Under;
    ContentsUnion(Without(m, s), Inside(m, s));
    assert Without(m, s) + Inside(m, s) == m;
  }

  /** Re-keying changes where files are, not what they hold. */
  lemma {:induction false} ContentsRekeyed(m: FlatTree, s: string, t: string)
    ensures Contents(Rekeyed(m, s, t)) == Contents(Inside(m, s))
    decreases |m|
  {
    if m == map[] {
      assert Rekeyed(m, s, t) == map[];
      assert Inside(m, s) == map[];
    } else {
      hide Contents, DataOf, Inside, Under, Swap;
      var k :| k in m;
      var rest := m - {k};
      Smaller(m, k);
      ContentsRekeyed(rest, s, t);
      assert Only(m, m.Keys - {k}) == rest;
      assert Only(m, (m.Keys - {k}) + {k}) == m;
      RekeyedStep(m, m.Keys - {k}, s, t, k);
      InsideStep(m, s, k);
      if Under(s, k) {
        SwapBack(s, t, k);
        assert Swap(s, t, k) !in Rekeyed(rest, s, t);
        ContentsInsert(Rekeyed(rest, s, t), Swap(s, t, k), m[k]);
        ContentsInsert(Inside(rest, s), k, m[k]);
      }
    }
  }

  lemma {:induction false} InsideStep(m: FlatTree, s: string, k: string)
    requires k in m
    ensures Inside(m, s) == if Under(s, k) then Inside(m - {k}, s)[k := m[k]] else Inside(m - {k}, s)
    ensures k !in Inside(m - {k}, s)
  {
    hide Under;
  }

  /** A move to a free place keeps every file exactly. */
  lemma {:induction false} MoveConserves(m: FlatTree, s: string, t: string)
    requires FreeAt(m, t)
    ensures Contents(Moved(m, s, t)) == Contents(m)
  {
    hide Contents, Under;
    ContentsSplit(m, s);
    ContentsRekeyed(m, s, t);
    ContentsUnion(Without(m, s), Rekeyed(m, s, t));
  }

  /** A copy to a free place adds the subtree's files and keeps the rest. */
  lemma {:induction false} CopyAdds(m: FlatTree, s: string, t: string)
    requires FreeAt(m, t)
    ensures Contents(Copied(m, s, t)) == Contents(m) + Contents(Inside(m, s))
  {
    hide Contents, Under;
    ContentsRekeyed(m, s, t);
    ContentsUnion(m, Rekeyed(m, s, t));
  }

  /** A source that is its own target loses exactly the files of its subtree. */
  lemma {:induction false} OwnTargetLoses(m: FlatTree, s: string)
    ensures Contents(Without(m, s)) == Contents(m) <==> Contents(Inside(m, s)) == multiset{}
    ensures Contents(m) == Contents(Without(m, s)) + Contents(Inside(m, s))
  {
    ContentsSplit(m, s);
    if Contents(Inside(m, s)) == multiset{} {
      assert Contents(Without(m, s)) + multiset{} == Contents(Without(m, s));
    } else {
      var x :| x in Contents(Inside(m, s));
      assert Contents(m)[x] > Contents(Without(m, s))[x];
    }
  }
}
