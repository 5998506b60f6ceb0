/** Moving several items with policy "skip": when does the order of the sources matter? */
module BatchOrder {
  import opened Options
  import opened Paths
  import opened Sequences
  import opened FileTree
  import opened Requests
  import opened RequestFacts
  import opened Effects
  import opened Runs

  function Get(m: FlatTree, k: string): Option<Node> {
    if k in m then Some(m[k]) else None
  }

  function Target(dest: string, s: string): string {
    JoinPath(dest, NameOf(s))
  }

  function MoveAll(m: FlatTree, sources: seq<string>, dest: string): Progress {
    TransferAll(m, sources, dest, Skip, false)
  }

  /** What the batch asks of its sources: distinct names, none inside another, none equal
      to, above or directly inside the destination. */
  ghost predicate Apart(sources: set<string>, dest: string) {
    && (forall s :: s in sources ==> IsKey(s) && MayMove(s, dest))
    && (forall a, b :: a in sources && b in sources && a != b ==> NameOf(a) != NameOf(b) && !Under(a, b))
  }

  ghost predicate Ready(m: FlatTree, sources: set<string>, dest: string) {
    WellFormed(m) && IsCanonical(dest) && IsDir(m, dest) && Apart(sources, dest)
  }

  /** The source exists and its place at the destination is free. */
  predicate Goes(m: FlatTree, dest: string, s: string) {
    s in m && Target(dest, s) !in m
  }

  /** Moving `a` would bring a missing source `b` into being. */
  predicate Reveals(m: FlatTree, dest: string, a: string, b: string) {
    && Goes(m, dest, a) && b !in m
    && Under(Target(dest, a), b) && Swap(Target(dest, a), a, b) in m
  }

  ghost predicate NoneRevealed(m: FlatTree, sources: set<string>, dest: string) {
    forall a, b :: a in sources && b in sources ==> !Reveals(m, dest, a, b)
  }

  /** What the tree before the batch says will happen to one source. */
  function Fate(m: FlatTree, dest: string, s: string): Outcome {
    if s !in m then NotFound
    else if Target(dest, s) in m then Skipped
    else Completed(Target(dest, s))
  }

  /** `k` is at or below the place a moved source ends up in. */
  predicate Arrives(m: FlatTree, dest: string, s: string, k: string) {
    Goes(m, dest, s) && Under(Target(dest, s), k)
  }

  /** `k` is at or below a source that is moved away. */
  predicate Leaves(m: FlatTree, dest: string, s: string, k: string) {
    Goes(m, dest, s) && Under(s, k)
  }

  function Arrival(m: FlatTree, dest: string, s: string, k: string): Option<Node>
    requires Arrives(m, dest, s, k)
  {
    Get(m, Swap(Target(dest, s), s, k))
  }

  /** What the tree before the batch says will be at `k` once `done` have been processed. */
  ghost function Expected(m: FlatTree, done: set<string>, dest: string, k: string): Option<Node> {
    if exists s :: s in done && Arrives(m, dest, s, k) then
      var s :| s in done && Arrives(m, dest, s, k);
      Arrival(m, dest, s, k)
    else if exists s :: s in done && Leaves(m, dest, s, k) then None
    else Get(m, k)
  }

  ghost predicate AsExpected(m: FlatTree, done: set<string>, dest: string, now: FlatTree) {
    forall k :: Get(now, k) == Expected(m, done, dest, k)
  }

  // ------------------------------------------------------------------- keeping them apart

  lemma {:induction false} TargetIsKey(s: string, dest: string)
    requires IsKey(s) && IsCanonical(dest)
    ensures IsKey(Target(dest, s)) && ParentOf(Target(dest, s)) == dest && NameOf(Target(dest, s)) == NameOf(s)
  {
    JoinOfParentAndName(s);
    ParentAndNameOfJoin(dest, NameOf(s));
  }

  lemma {:induction false} TargetsApart(a: string, b: string, dest: string, k: string)
    requires IsKey(a) && IsKey(b) && IsCanonical(dest) && NameOf(a) != NameOf(b)
    ensures !(Under(Target(dest, a), k) && Under(Target(dest, b), k))
  {
    TargetIsKey(a, dest);
    TargetIsKey(b, dest);
    hide *;
    if Under(Target(dest, a), k) && Under(Target(dest, b), k) {
      UnderLinear(Target(dest, a), Target(dest, b), k);
      if Under(Target(dest, a), Target(dest, b)) {
        UnderSameParent(Target(dest, a), Target(dest, b));
      } else {
        UnderSameParent(Target(dest, b), Target(dest, a));
      }
    }
  }

  lemma {:induction false} SourceAndTargetApart(m: FlatTree, a: string, b: string, dest: string, k: string)
    requires WellFormed(m) && IsCanonical(dest)
    requires IsKey(a) && MayMove(a, dest) && a in m
    requires IsKey(b) && Goes(m, dest, b)
    ensures !(Under(a, k) && Under(Target(dest, b), k))
  {
    var t := Target(dest, b);
    TargetIsKey(b, dest);
    AbsentIsFree(m, t);
    assert ParentOf(a) != dest && !Under(a, dest);
    assert !Under(t, a);
    hide *;
    if Under(a, k) && Under(t, k) {
      UnderLinear(a, t, k);
      assert a != t;
      UnderChild(a, t);
    }
  }

  lemma {:induction false} SourcesApart(sources: set<string>, dest: string, a: string, b: string, k: string)
    requires Apart(sources, dest) && a in sources && b in sources && Under(a, k) && Under(b, k)
    ensures a == b
  {
    UnderLinear(a, b, k);
  }

  lemma {:induction false} TargetNotInSource(a: string, b: string, dest: string)
    requires IsCanonical(dest) && IsKey(a) && MayMove(a, dest) && IsKey(b)
    ensures !Under(a, Target(dest, b))
  {
    TargetIsKey(b, dest);
    assert ParentOf(a) != dest && !Under(a, dest);
    hide *;
    if a != Target(dest, b) {
      UnderChild(a, Target(dest, b));
    }
  }

  lemma {:induction false} ArriveOnce(m: FlatTree, sources: set<string>, dest: string, a: string, b: string, k: string)
    requires Ready(m, sources, dest) && a in sources && b in sources
    requires Arrives(m, dest, a, k) && Arrives(m, dest, b, k)
    ensures a == b
  {
    hide Under, Target, IsKey, WellFormed, IsCanonical, NameOf, MayMove;
    if a != b {
      TargetsApart(a, b, dest, k);
    }
  }

  lemma {:induction false} LeaveOrArrive(m: FlatTree, sources: set<string>, dest: string, a: string, b: string,
                                         k: string)
    requires Ready(m, sources, dest) && a in sources && b in sources && a in m && Under(a, k)
    ensures !Arrives(m, dest, b, k)
  {
    hide Under, Target, IsKey, WellFormed, IsCanonical, NameOf, MayMove;
    if Arrives(m, dest, b, k) {
      SourceAndTargetApart(m, a, b, dest, k);
    }
  }

  // --------------------------------------------------------------------------- one source

  /** A source is there when its turn comes exactly if it was there before the batch. */
  lemma {:induction false} SourceExpected(m: FlatTree, sources: set<string>, done: set<string>, dest: string, s: string)
    requires Ready(m, sources, dest) && NoneRevealed(m, sources, dest)
    requires done <= sources && s in sources && s !in done
    ensures Expected(m, done, dest, s).Some? <==> s in m
  {
    hide Ready, Under, Target, Goes, Swap;
    forall d | d in done
      ensures Arrives(m, dest, d, s) ==> s !in m && Arrival(m, dest, d, s).None?
      ensures !Under(d, s)
    {
      ArrivesAbsent(m, sources, dest, d, s);
    }
  }

  lemma {:induction false} ArrivesAbsent(m: FlatTree, sources: set<string>, dest: string, d: string, s: string)
    requires Ready(m, sources, dest) && NoneRevealed(m, sources, dest) && d in sources && s in sources && d != s
    ensures Arrives(m, dest, d, s) ==> s !in m && Arrival(m, dest, d, s).None?
    ensures !Under(d, s)
  {
    if Arrives(m, dest, d, s) {
      TargetIsKey(d, dest);
      AbsentIsFree(m, Target(dest, d));
      assert !Reveals(m, dest, d, s);
    }
    hide Under, Target, IsKey, WellFormed, IsCanonical, NameOf, MayMove, Swap;
  }

  lemma {:induction false} UnderItself(k: string)
    ensures Under(k, k)
  {
  }

  /** Its place is taken when its turn comes exactly if it was taken before the batch. */
  lemma {:induction false} TargetExpected(m: FlatTree, sources: set<string>, done: set<string>, dest: string, s: string)
    requires Ready(m, sources, dest)
    requires done <= sources && s in sources && s !in done
    ensures Expected(m, done, dest, Target(dest, s)) == Get(m, Target(dest, s))
  {
    var t := Target(dest, s);
    UnderItself(t);
    hide Under, Swap, Target, IsKey, WellFormed, IsCanonical, NameOf, MayMove;
    forall d | d in done
      ensures !Arrives(m, dest, d, t) && !Leaves(m, dest, d, t)
    {
      TargetsApart(d, s, dest, t);
      TargetNotInSource(d, s, dest);
    }
  }

  /** What lies inside a source is still as it was. */
  lemma {:induction false} InsideExpected(m: FlatTree, sources: set<string>, done: set<string>, dest: string,
                                          s: string, x: string)
    requires Ready(m, sources, dest)
    requires done <= sources && s in sources && s !in done && s in m && Under(s, x)
    ensures Expected(m, done, dest, x) == Get(m, x)
  {
    hide Under, Swap, Target, IsKey, WellFormed, IsCanonical, NameOf, MayMove;
    forall d | d in done
      ensures !Arrives(m, dest, d, x) && !Leaves(m, dest, d, x)
    {
      LeaveOrArrive(m, sources, dest, s, d, x);
      if Under(d, x) {
        SourcesApart(sources, dest, d, s, x);
      }
    }
  }

  lemma {:induction false} ArrivesAtFree(m: FlatTree, sources: set<string>, dest: string, s: string, k: string)
    requires Ready(m, sources, dest) && s in sources && Arrives(m, dest, s, k)
    ensures k !in m
  {
    TargetIsKey(s, dest);
    AbsentIsFree(m, Target(dest, s));
    hide Under, Target, IsKey, WellFormed, IsCanonical, NameOf, MayMove;
  }

  /** Nothing has been put at or below a free place meant for another source. */
  lemma {:induction false} PlaceExpected(m: FlatTree, sources: set<string>, done: set<string>, dest: string,
                                         s: string, k: string)
    requires Ready(m, sources, dest)
    requires done <= sources && s in sources && s !in done && Arrives(m, dest, s, k)
    ensures Expected(m, done, dest, k) == None
  {
    hide Under, Swap, Target, IsKey, WellFormed, IsCanonical, NameOf, MayMove, Ready, Arrives;
    ArrivesAtFree(m, sources, dest, s, k);
    forall d | d in done
      ensures !Arrives(m, dest, d, k)
    {
      if Arrives(m, dest, d, k) {
        ArriveOnce(m, sources, dest, d, s, k);
      }
    }
  }

  /** One more source processed: what is expected changes as the move does. */
  lemma {:induction false} ExpectedStep(m: FlatTree, sources: set<string>, done: set<string>, dest: string, s: string,
                                        k: string)
    requires Ready(m, sources, dest)
    requires done <= sources && s in sources && s !in done
    ensures Expected(m, done + {s}, dest, k) ==
      if Arrives(m, dest, s, k) then Arrival(m, dest, s, k)
      else if Leaves(m, dest, s, k) then None
      else Expected(m, done, dest, k)
  {
    hide Under, Swap, Target, IsKey, WellFormed, IsCanonical, NameOf, MayMove, Ready, Arrives, Leaves, Arrival;
    var more := done + {s};
    forall d, e | d in more && e in more && Arrives(m, dest, d, k) && Arrives(m, dest, e, k)
      ensures d == e
    {
      ArriveOnce(m, sources, dest, d, e, k);
    }
    if Leaves(m, dest, s, k) {
      LeavesIs(m, dest, s, k);
      forall d | d in more
        ensures !Arrives(m, dest, d, k)
      {
        LeaveOrArrive(m, sources, dest, s, d, k);
      }
    }
  }

  lemma {:induction false} LeavesIs(m: FlatTree, dest: string, s: string, k: string)
    requires Leaves(m, dest, s, k)
    ensures s in m && Under(s, k)
  {
  }

  // --------------------------------------------------------------------------- the batch

  lemma {:induction false} GetRelocated(now: FlatTree, s: string, t: string, k: string)
    requires s != t && FreeAt(now, t)
    ensures Get(Relocated(now, s, t, false), k) ==
      if Under(t, k) then Get(now, Swap(t, s, k)) else if Under(s, k) then None else Get(now, k)
  {
    hide Under, Swap;
  }

  lemma {:induction false} TargetFree(m: FlatTree, sources: set<string>, done: set<string>, dest: string, s: string,
                                      now: FlatTree)
    requires Ready(m, sources, dest) && AsExpected(m, done, dest, now)
    requires done <= sources && s in sources && s !in done && Goes(m, dest, s)
    ensures FreeAt(now, Target(dest, s))
  {
    hide Ready, Expected, Under, Target, Goes;
    forall k | k in now
      ensures !Under(Target(dest, s), k)
    {
      assert Get(now, k) == Expected(m, done, dest, k);
      if Arrives(m, dest, s, k) {
        PlaceExpected(m, sources, done, dest, s, k);
      }
    }
  }

  /** A source that goes leaves the tree as expected of one more source. */
  lemma {:induction false} GoesAsExpected(m: FlatTree, sources: set<string>, done: set<string>, dest: string,
                                          s: string, now: FlatTree)
    requires Ready(m, sources, dest) && AsExpected(m, done, dest, now)
    requires done <= sources && s in sources && s !in done && Goes(m, dest, s)
    ensures AsExpected(m, done + {s}, dest, Relocated(now, s, Target(dest, s), false))
  {
    var t := Target(dest, s);
    TargetFree(m, sources, done, dest, s, now);
    assert s != t;
    hide Ready, Expected, Under, Target, Relocated, FreeAt, Swap;
    forall k
      ensures Get(Relocated(now, s, t, false), k) == Expected(m, done + {s}, dest, k)
    {
      GetRelocated(now, s, t, k);
      ExpectedStep(m, sources, done, dest, s, k);
      assert Get(now, k) == Expected(m, done, dest, k);
      if Under(t, k) {
        var x := Swap(t, s, k);
        SwapBack(t, s, k);
        InsideExpected(m, sources, done, dest, s, x);
        assert Get(now, x) == Expected(m, done, dest, x);
      }
    }
  }

  /** A source that does not go leaves what is expected alone. */
  lemma {:induction false} StaysAsExpected(m: FlatTree, sources: set<string>, done: set<string>, dest: string,
                                           s: string, now: FlatTree)
    requires Ready(m, sources, dest) && AsExpected(m, done, dest, now)
    requires done <= sources && s in sources && s !in done && !Goes(m, dest, s)
    ensures AsExpected(m, done + {s}, dest, now)
  {
    hide Ready, Expected, Under, Target, Goes;
    forall k
      ensures Get(now, k) == Expected(m, done + {s}, dest, k)
    {
      ExpectedStep(m, sources, done, dest, s, k);
      assert Get(now, k) == Expected(m, done, dest, k);
    }
  }

  lemma {:induction false} StepAsExpected(m: FlatTree, sources: set<string>, done: set<string>, dest: string,
                                          s: string, now: Progress)
    requires Ready(m, sources, dest) && NoneRevealed(m, sources, dest) && AsExpected(m, done, dest, now.tree)
    requires done <= sources && s in sources && s !in done && !now.crashed
    ensures var next := TransferStep(now, s, dest, Skip, false);
      && AsExpected(m, done + {s}, dest, next.tree) && !next.crashed
      && next.results == now.results + [Result(s, Fate(m, dest, s))]
  {
    NotItsTarget(m, sources, dest, s);
    hide Ready, NoneRevealed, Expected, Under, Relocated, NameOf, JoinPath, Target, TransferStep;
    SourceExpected(m, sources, done, dest, s);
    TargetExpected(m, sources, done, dest, s);
    assert Get(now.tree, s) == Expected(m, done, dest, s);
    assert Get(now.tree, Target(dest, s)) == Expected(m, done, dest, Target(dest, s));
    hide AsExpected;
    StepByFate(m, dest, s, now);
    if Goes(m, dest, s) {
      GoesAsExpected(m, sources, done, dest, s, now.tree);
    } else {
      StaysAsExpected(m, sources, done, dest, s, now.tree);
    }
  }

  lemma {:induction false} NotItsTarget(m: FlatTree, sources: set<string>, dest: string, s: string)
    requires Ready(m, sources, dest) && s in sources
    ensures s != Target(dest, s)
  {
  }

  lemma {:induction false} StepByFate(m: FlatTree, dest: string, s: string, now: Progress)
    requires !now.crashed && s != Target(dest, s)
    requires (s in now.tree <==> s in m) && (Target(dest, s) in now.tree <==> Target(dest, s) in m)
    ensures TransferStep(now, s, dest, Skip, false) ==
      Progress(
        if Goes(m, dest, s) then Relocated(now.tree, s, Target(dest, s), false) else now.tree,
        now.results + [Result(s, Fate(m, dest, s))],
        false)
  {
    hide Relocated, NameOf, JoinPath;
  }

  /** Without a revealing pair, what a batch does and reports can be read off the tree it
      started from, whatever the order. */
  lemma {:induction false} BatchAsExpected(m: FlatTree, all: set<string>, sources: seq<string>, dest: string)
    requires Ready(m, all, dest) && NoneRevealed(m, all, dest)
    requires NoDuplicates(sources) && Elements(sources) <= all
    ensures var p := MoveAll(m, sources, dest);
      && AsExpected(m, Elements(sources), dest, p.tree) && !p.crashed
      && |p.results| == |sources|
      && forall i :: 0 <= i < |sources| ==> p.results[i] == Result(sources[i], Fate(m, dest, sources[i]))
  {
    hide Ready, NoneRevealed, TransferStep, Fate, NoDuplicates;
    if sources == [] {
      NothingExpected(m, dest);
    } else {
      var n := |sources| - 1;
      LastIsNew(sources);
      assert sources[n] in Elements(sources);
      hide AsExpected, Elements;
      ElementsOf(sources[..n], sources[n]);
      BatchAsExpected(m, all, sources[..n], dest);
      StepAsExpected(m, all, Elements(sources[..n]), dest, sources[n], MoveAll(m, sources[..n], dest));
    }
  }

  lemma {:induction false} NothingExpected(m: FlatTree, dest: string)
    ensures AsExpected(m, Elements([]), dest, m)
  {
  }

  lemma {:induction false} ExpectedIsUnique(m: FlatTree, done: set<string>, dest: string, a: FlatTree, b: FlatTree)
    requires AsExpected(m, done, dest, a) && AsExpected(m, done, dest, b)
    ensures a == b
  {
    hide Expected;
    forall k
      ensures k in a <==> k in b
      ensures k in a && k in b ==> a[k] == b[k]
    {
      assert Get(a, k) == Expected(m, done, dest, k);
      assert Get(b, k) == Expected(m, done, dest, k);
    }
  }

  // ----------------------------------------------------------------- order independence

  /** Two orders end in the same tree and report the same for every source. */
  ghost predicate SameEitherWay(m: FlatTree, dest: string, a: seq<string>, b: seq<string>) {
    var p, q := MoveAll(m, a, dest), MoveAll(m, b, dest);
    && p.tree == q.tree
    && |p.results| == |a| && |q.results| == |b|
    && forall i, j :: 0 <= i < |a| && 0 <= j < |b| && a[i] == b[j] ==> p.results[i] == q.results[j]
  }

  ghost predicate OrderDoesNotMatter(m: FlatTree, sources: seq<string>, dest: string) {
    forall a: seq<string>, b: seq<string> ::
      multiset(a) == multiset(sources) && multiset(b) == multiset(sources) ==> SameEitherWay(m, dest, a, b)
  }

  lemma {:induction false} ReorderedElements(a: seq<string>, sources: seq<string>)
    requires multiset(a) == multiset(sources)
    ensures Elements(a) == Elements(sources)
    ensures NoDuplicates(sources) ==> NoDuplicates(a)
  {
    forall s
      ensures s in a <==> s in sources
    {
      assert s in multiset(a) <==> s in multiset(sources);
    }
  }

  lemma {:induction false} SameWithoutReveals(m: FlatTree, sources: seq<string>, dest: string, a: seq<string>,
                                              b: seq<string>)
    requires Ready(m, Elements(sources), dest) && NoDuplicates(sources)
    requires NoneRevealed(m, Elements(sources), dest)
    requires multiset(a) == multiset(sources) && multiset(b) == multiset(sources)
    ensures SameEitherWay(m, dest, a, b)
  {
    hide Ready, NoDuplicates, NoneRevealed, AsExpected, MoveAll, Elements, Fate;
    ReorderedElements(a, sources);
    ReorderedElements(b, sources);
    BatchAsExpected(m, Elements(sources), a, dest);
    BatchAsExpected(m, Elements(sources), b, dest);
    ExpectedIsUnique(m, Elements(sources), dest, MoveAll(m, a, dest).tree, MoveAll(m, b, dest).tree);
  }

  lemma {:induction false} EarlierResultsStay(m: FlatTree, sources: seq<string>, n: nat, dest: string)
    requires n <= |sources|
    ensures MoveAll(m, sources[..n], dest).results <= MoveAll(m, sources, dest).results
    decreases |sources| - n
  {
    hide Place, Relocated;
    if n < |sources| {
      EarlierResultsStay(m, sources, n + 1, dest);
      assert sources[..n + 1][..n] == sources[..n];
    } else {
      assert sources[..n] == sources;
    }
  }

  lemma {:induction false} NextStep(m: FlatTree, sources: seq<string>, n: nat, dest: string)
    requires n < |sources|
    ensures MoveAll(m, sources[..n + 1], dest) ==
      TransferStep(MoveAll(m, sources[..n], dest), sources[n], dest, Skip, false)
    ensures MoveAll(m, sources[..0], dest) == Progress(m, [], false)
  {
    hide TransferStep;
    assert sources[..n + 1][..n] == sources[..n];
  }

  /** A missing source is reported missing when it comes first. */
  lemma {:induction false} MissingFirst(m: FlatTree, p: seq<string>, b: string, dest: string)
    requires p != [] && p[0] == b && b !in m
    ensures MoveAll(m, p, dest).results != []
    ensures MoveAll(m, p, dest).results[0] == Result(b, NotFound)
  {
    NextStep(m, p, 0, dest);
    EarlierResultsStay(m, p, 1, dest);
    hide MoveAll, NameOf, JoinPath, Relocated;
  }

  lemma {:induction false} RevealedIsThere(m: FlatTree, a: string, b: string, dest: string)
    requires WellFormed(m) && IsCanonical(dest) && IsKey(a) && Reveals(m, dest, a, b)
    ensures Goes(m, dest, a) && b in Relocated(m, a, Target(dest, a), false)
  {
  }

  lemma {:induction false} FoundIsNotMissing(now: Progress, b: string, dest: string)
    requires !now.crashed && b in now.tree
    ensures var next := TransferStep(now, b, dest, Skip, false);
      |next.results| == |now.results| + 1 && next.results[|now.results|] != Result(b, NotFound)
  {
    hide Relocated, NameOf, JoinPath;
  }

  lemma {:induction false} FirstGoes(m: FlatTree, a: string, dest: string)
    requires Goes(m, dest, a)
    ensures var next := TransferStep(Progress(m, [], false), a, dest, Skip, false);
      next.tree == Relocated(m, a, Target(dest, a), false) && !next.crashed && |next.results| == 1
  {
  }

  /** It is found when the source that reveals it comes before. */
  lemma {:induction false} RevealedSecond(m: FlatTree, q: seq<string>, a: string, b: string, dest: string)
    requires WellFormed(m) && IsCanonical(dest) && IsKey(a) && Reveals(m, dest, a, b)
    requires |q| >= 2 && q[0] == a && q[1] == b
    ensures |MoveAll(m, q, dest).results| >= 2
    ensures MoveAll(m, q, dest).results[1] != Result(b, NotFound)
  {
    hide *;
    RevealedIsThere(m, a, b, dest);
    NextStep(m, q, 0, dest);
    NextStep(m, q, 1, dest);
    EarlierResultsStay(m, q, 2, dest);
    FirstGoes(m, a, dest);
    FoundIsNotMissing(MoveAll(m, q[..1], dest), b, dest);
  }

  lemma {:induction false} PutInFront(sources: seq<string>, x: string) returns (rest: seq<string>)
    requires x in sources
    ensures multiset([x] + rest) == multiset(sources)
    ensures forall y :: y in sources && y != x ==> y in rest
  {
    var i :| 0 <= i < |sources| && sources[i] == x;
    rest := sources[..i] + sources[i + 1..];
    assert sources == sources[..i] + [x] + sources[i + 1..];
  }

  /** Any two different sources can be put first, and in either order. */
  lemma {:induction false} TwoOrders(sources: seq<string>, a: string, b: string)
    returns (p: seq<string>, q: seq<string>)
    requires a in sources && b in sources && a != b
    ensures multiset(p) == multiset(sources) && multiset(q) == multiset(sources)
    ensures p != [] && p[0] == b && |q| >= 2 && q[0] == a && q[1] == b
  {
    var others := PutInFront(sources, a);
    var rest := PutInFront(others, b);
    p := PutInFront(sources, b);
    p := [b] + p;
    q := [a] + ([b] + rest);
    assert multiset(q) == multiset{a} + multiset([b] + rest);
    assert multiset([a] + others) == multiset{a} + multiset(others);
  }

  lemma {:induction false} RevealMatters(m: FlatTree, sources: seq<string>, dest: string, a: string, b: string)
    requires WellFormed(m) && IsCanonical(dest) && IsKey(a) && a in sources && b in sources
    requires Reveals(m, dest, a, b)
    ensures !OrderDoesNotMatter(m, sources, dest)
  {
    RevealedIsMissing(m, dest, a, b);
    var p, q := TwoOrders(sources, a, b);
    MissingFirst(m, p, b, dest);
    RevealedSecond(m, q, a, b, dest);
    ReportsDiffer(m, dest, p, q, b);
    hide SameEitherWay, Reveals, IsKey, IsCanonical, WellFormed;
    assert OrderDoesNotMatter(m, sources, dest) ==> SameEitherWay(m, dest, p, q);
  }

  lemma {:induction false} ReportsDiffer(m: FlatTree, dest: string, p: seq<string>, q: seq<string>, b: string)
    requires |p| >= 1 && |q| >= 2 && p[0] == b && q[1] == b
    requires MoveAll(m, p, dest).results != [] && MoveAll(m, p, dest).results[0] == Result(b, NotFound)
    requires |MoveAll(m, q, dest).results| >= 2 && MoveAll(m, q, dest).results[1] != Result(b, NotFound)
    ensures !SameEitherWay(m, dest, p, q)
  {
    hide MoveAll;
  }

  lemma {:induction false} RevealedIsMissing(m: FlatTree, dest: string, a: string, b: string)
    requires Reveals(m, dest, a, b)
    ensures a in m && b !in m
  {
  }

  /** The order of the sources does not matter exactly when no source, by being moved,
      brings another, missing one into being. */
  lemma {:induction false} OrderMattersExactly(m: FlatTree, sources: seq<string>, dest: string)
    requires Ready(m, Elements(sources), dest) && NoDuplicates(sources)
    ensures OrderDoesNotMatter(m, sources, dest) <==> NoneRevealed(m, Elements(sources), dest)
  {
    if NoneRevealed(m, Elements(sources), dest) {
      hide Ready, NoneRevealed, NoDuplicates, SameEitherWay;
      forall a: seq<string>, b: seq<string> | multiset(a) == multiset(sources) && multiset(b) == multiset(sources)
        ensures SameEitherWay(m, dest, a, b)
      {
        SameWithoutReveals(m, sources, dest, a, b);
      }
    } else {
      hide Reveals, OrderDoesNotMatter, MayMove, IsKey, WellFormed, IsCanonical, Under, NameOf;
      var a, b :| a in Elements(sources) && b in Elements(sources) && Reveals(m, dest, a, b);
      RevealMatters(m, sources, dest, a, b);
    }
  }

  /** Every source is reported once, in order, and the three totals add up. */
  lemma {:induction false} EverySourceReported(m: FlatTree, sources: seq<string>, dest: string, policy: Policy,
                                               keep: bool)
    ensures var p := TransferAll(m, sources, dest, policy, keep);
      !p.crashed ==>
        && |p.results| == |sources|
        && (forall i :: 0 <= i < |sources| ==> p.results[i].source == sources[i])
        && CountCompleted(p.results) + CountSkipped(p.results) + CountNotFound(p.results) == |sources|
  {
    hide TransferStep, CountCompleted, CountSkipped, CountNotFound;
    if sources != [] {
      var n := |sources| - 1;
      var before := TransferAll(m, sources[..n], dest, policy, keep);
      EverySourceReported(m, sources[..n], dest, policy, keep);
      StepReports(before, sources[n], dest, policy, keep);
    }
    TotalsAddUp(TransferAll(m, sources, dest, policy, keep).results);
  }

  lemma {:induction false} StepReports(now: Progress, s: string, dest: string, policy: Policy, keep: bool)
    ensures var next := TransferStep(now, s, dest, policy, keep);
      !next.crashed ==> !now.crashed && exists o :: next.results == now.results + [Result(s, o)]
  {
    hide Place, Relocated;
  }
}
