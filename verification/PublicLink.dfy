/** Upload links: anyone with the link may add files to one folder, a limited number of
    times. The handler waits for the body before it counts, so uploads may overlap. */
module PublicLink {
  import opened Options
  import opened Paths
  import opened Naming
  import opened FileTree
  import opened Subtrees
  import opened Effects

  /** The fixed part of an upload link; no size limit means any size. */
  datatype Link = Link(base: string, maxFileBytes: Option<nat>)

  /** What `String.prototype.trim` removes. */
  predicate IsSpace(c: char) {
    || '\t' <= c <= '\r' || c == ' ' || c == '\U{A0}' || c == '\U{1680}'
    || '\U{2000}' <= c <= '\U{200A}' || c == '\U{2028}' || c == '\U{2029}'
    || c == '\U{202F}' || c == '\U{205F}' || c == '\U{3000}' || c == '\U{FEFF}'
  }

  /** White space and line terminators of sections 12.2 and 12.3 of ECMA-262, one by one. */
  lemma {:induction false} SpacesAre(c: char)
    ensures IsSpace(c) <==>
      c as int in {0x09, 0x0A, 0x0B, 0x0C, 0x0D, 0x20, 0xA0, 0x1680, 0x2000, 0x2001, 0x2002, 0x2003, 0x2004, 0x2005,
                   0x2006, 0x2007, 0x2008, 0x2009, 0x200A, 0x2028, 0x2029, 0x202F, 0x205F, 0x3000, 0xFEFF}
  {
  }

  function Trim(s: string): string {
    if s != "" && IsSpace(s[0]) then Trim(s[1..])
    else if s != "" && IsSpace(s[|s| - 1]) then Trim(s[..|s| - 1])
    else s
  }

  /** The name a file will have, or nothing if it cannot be used. */
  function UsableName(raw: string): Option<string> {
    var name := Trim(raw);
    if name == "" || name[0] == '.' || '/' in name || '\\' in name then None else Some(name)
  }

  predicate FitsLimit(link: Link, data: Bytes) {
    link.maxFileBytes.Some? && link.maxFileBytes.value > 0 ==> |data| <= link.maxFileBytes.value
  }

  /** A file that was stored, and where. */
  datatype Upload = Upload(name: string, data: Bytes, key: string)

  /** The link's changing part and the tree; `stored` is history. No number of remaining
      uses means no limit. */
  datatype Server = Server(tree: FlatTree, remaining: Option<int>, stored: seq<Upload>)

  /** Where a file of this name is put: under its name, or under the first free numbered one. */
  function FreeTarget(tree: FlatTree, base: string, name: string): string {
    var plain := base + "/" + name;
    if plain !in tree then plain
    else
      var stem, ext := base + "/" + Base(name), Extension(name);
      Numbered(stem, FirstFree(tree.Keys, stem, 1, ext), ext)
  }

  /** The handler from the moment the body has arrived. */
  function Finish(link: Link, s: Server, name: string, data: Bytes): (Server, nat) {
    if !FitsLimit(link, data) then (s, 413)
    else if s.remaining.Some? && s.remaining.value <= 0 then (s, 410)
    else
      var key := FreeTarget(s.tree, link.base, name);
      (Server(
         s.tree[key := File(data)],
         if s.remaining.Some? then Some(s.remaining.value - 1) else None,
         s.stored + [Upload(name, data, key)]),
       201)
  }

  lemma {:induction false} TargetIsFree(tree: FlatTree, base: string, name: string)
    ensures FreeTarget(tree, base, name) !in tree
  {
  }

  /** The plain name if it is free; else the one with the least number that is. */
  ghost predicate IsTarget(tree: FlatTree, base: string, name: string, key: string) {
    if base + "/" + name !in tree then key == base + "/" + name
    else
      exists i :: i >= 1 && key == NumberedKey(base, name, i) && key !in tree
                  && forall j :: 1 <= j < i ==> NumberedKey(base, name, j) in tree
  }

  function NumberedKey(base: string, name: string, i: nat): string {
    base + "/" + Base(name) + " (" + Decimal(i) + ")" + Extension(name)
  }

  lemma {:induction false} FreeTargetIs(tree: FlatTree, base: string, name: string)
    ensures IsTarget(tree, base, name, FreeTarget(tree, base, name))
  {
    hide Base, Extension, Decimal;
    if base + "/" + name in tree {
      var stem, ext := base + "/" + Base(name), Extension(name);
      var i := FirstFree(tree.Keys, stem, 1, ext);
      forall j: nat
        ensures NumberedKey(base, name, j) == Numbered(stem, j, ext)
      {
      }
      hide FirstFree, NumberedKey, Numbered;
      assert FreeTarget(tree, base, name) == NumberedKey(base, name, i);
    }
  }

  /** When the body is there: 413 if it is too large, else 410 if no use is left, else 201; then, and
      only then, it is stored, at a place that was free, and a use is counted. */
  lemma {:induction false} FinishedExactly(link: Link, s: Server, name: string, data: Bytes)
    ensures var (after, status) := Finish(link, s, name, data);
      var tooLarge := link.maxFileBytes.Some? && 0 < link.maxFileBytes.value < |data|;
      var usedUp := s.remaining.Some? && s.remaining.value <= 0;
      && (status == 413 <==> tooLarge)
      && (status == 410 <==> !tooLarge && usedUp)
      && (status == 201 <==> !tooLarge && !usedUp)
      && (status != 201 ==> after == s)
      && (status == 201 ==>
            exists key :: IsTarget(s.tree, link.base, name, key) && key !in s.tree
                          && after.tree == s.tree[key := File(data)]
                          && after.stored == s.stored + [Upload(name, data, key)]
                          && after.remaining == if s.remaining.Some? then Some(s.remaining.value - 1) else None)
  {
    FreeTargetIs(s.tree, link.base, name);
    TargetIsFree(s.tree, link.base, name);
    hide IsTarget, FreeTarget;
  }

  // ------------------------------------------------------------------- overlapping uploads

  /** `waiting` holds the requests whose name was accepted and whose body is on its way. */
  datatype Desk = Desk(server: Server, waiting: map<nat, string>)

  datatype Step = Arrives(id: nat, rawName: string) | BodyEnds(id: nat, data: Bytes) | Breaks(id: nat)

  function Take(link: Link, d: Desk, step: Step): Desk {
    match step
    case Arrives(id, rawName) =>
      if id in d.waiting || UsableName(rawName).None? then d
      else d.(waiting := d.waiting[id := UsableName(rawName).value])
    case BodyEnds(id, data) =>
      if id !in d.waiting then d
      else Desk(Finish(link, d.server, d.waiting[id], data).0, d.waiting - {id})
    case Breaks(id) => d.(waiting := d.waiting - {id})
  }

  function TakeAll(link: Link, d: Desk, steps: seq<Step>): Desk {
    if steps == [] then d
    else Take(link, TakeAll(link, d, steps[..|steps| - 1]), steps[|steps| - 1])
  }

  /** Uses are neither lost nor overdrawn; what was there before is untouched; every stored
      file lies, whole, at a key of its own that was free. */
  ghost predicate Accounted(before: Server, s: Server) {
    && before.stored <= s.stored
    && (before.remaining.Some? <==> s.remaining.Some?)
    && (before.remaining.Some? ==>
          && before.remaining.value - s.remaining.value == |s.stored| - |before.stored|
          && (before.remaining.value >= 0 ==> s.remaining.value >= 0))
    && (forall k :: k in before.tree ==> k in s.tree && s.tree[k] == before.tree[k])
    && (forall i :: |before.stored| <= i < |s.stored| ==>
          && s.stored[i].key in s.tree && s.tree[s.stored[i].key] == File(s.stored[i].data)
          && s.stored[i].key !in before.tree)
    && (forall i, j :: |before.stored| <= i < j < |s.stored| ==> s.stored[i].key != s.stored[j].key)
  }

  lemma {:induction false} FinishAccounts(link: Link, before: Server, s: Server, name: string, data: Bytes)
    requires Accounted(before, s)
    ensures Accounted(before, Finish(link, s, name, data).0)
  {
    TargetIsFree(s.tree, link.base, name);
    hide FreeTarget, FitsLimit;
    var s' := Finish(link, s, name, data).0;
    if s' != s {
      var key := FreeTarget(s.tree, link.base, name);
      assert forall i :: 0 <= i < |s.stored| ==> s'.stored[i] == s.stored[i];
      assert forall i :: |before.stored| <= i < |s.stored| ==> s.stored[i].key != key;
    }
  }

  /** Whatever uploads overlap and however: the number of uses given is the number left plus
      the number of files stored, never less than none is left, and no existing file changes. */
  lemma {:induction false} UsesAreAccounted(link: Link, d: Desk, steps: seq<Step>)
    ensures Accounted(d.server, TakeAll(link, d, steps).server)
  {
    hide Finish, Accounted;
    if steps == [] {
      NothingStored(d.server);
    } else {
      var before := TakeAll(link, d, steps[..|steps| - 1]);
      UsesAreAccounted(link, d, steps[..|steps| - 1]);
      match steps[|steps| - 1] {
        case BodyEnds(id, data) =>
          if id in before.waiting {
            FinishAccounts(link, d.server, before.server, before.waiting[id], data);
          }
        case _ =>
      }
    }
  }

  lemma {:induction false} NothingStored(s: Server)
    ensures Accounted(s, s)
  {
  }

  // ----------------------------------------------------------------- where files are put

  predicate AllSpaces(s: string) {
    forall c :: c in s ==> IsSpace(c)
  }

  /** `s` is `name` with spaces around it, all of them. */
  predicate IsTrimmed(s: string, lead: string, name: string, trail: string) {
    && s == lead + name + trail && AllSpaces(lead) && AllSpaces(trail)
    && (name != "" ==> !IsSpace(name[0]) && !IsSpace(name[|name| - 1]))
  }

  ghost predicate IsCoreOf(name: string, s: string) {
    exists lead, trail :: IsTrimmed(s, lead, name, trail)
  }

  lemma {:induction false} CoreWithoutFirst(c: char, rest: string, name: string)
    requires IsSpace(c)
    ensures IsCoreOf(name, [c] + rest) <==> IsCoreOf(name, rest)
  {
    hide IsSpace;
    if lead, trail :| IsTrimmed(rest, lead, name, trail) {
      assert IsTrimmed([c] + rest, [c] + lead, name, trail);
    }
    if lead, trail :| IsTrimmed([c] + rest, lead, name, trail) {
      assert rest == ([c] + rest)[1..];
      assert lead != "" || name == "" by { assert ([c] + rest)[0] == c; }
      if lead != "" {
        assert IsTrimmed(rest, lead[1..], name, trail);
      } else {
        assert IsTrimmed(rest, "", name, trail[1..]);
      }
    }
  }

  lemma {:induction false} CoreWithoutLast(front: string, c: char, name: string)
    requires IsSpace(c)
    ensures IsCoreOf(name, front + [c]) <==> IsCoreOf(name, front)
  {
    hide IsSpace;
    var s := front + [c];
    if lead, trail :| IsTrimmed(front, lead, name, trail) {
      assert IsTrimmed(s, lead, name, trail + [c]);
    }
    if lead, trail :| IsTrimmed(s, lead, name, trail) {
      assert front == s[..|s| - 1];
      assert trail != "" || name == "" by { assert s[|s| - 1] == c; }
      if trail != "" {
        assert IsTrimmed(front, lead, name, trail[..|trail| - 1]);
      } else {
        assert IsTrimmed(front, lead[..|lead| - 1], name, "");
      }
    }
  }

  lemma {:induction false} BareIsCore(s: string, name: string)
    requires s != "" ==> !IsSpace(s[0]) && !IsSpace(s[|s| - 1])
    ensures IsCoreOf(name, s) <==> name == s
  {
    hide IsSpace;
    assert IsTrimmed(s, "", s, "");
    if lead, trail :| IsTrimmed(s, lead, name, trail) {
      assert lead == s[..|lead|] && trail == s[|s| - |trail|..];
      assert s != "" ==> s[0] !in lead && s[|s| - 1] !in trail;
    }
  }

  lemma {:induction false} TrimExactly(s: string, name: string)
    ensures Trim(s) == name <==> IsCoreOf(name, s)
    decreases |s|
  {
    hide IsSpace, IsCoreOf;
    if s != "" && IsSpace(s[0]) {
      TrimExactly(s[1..], name);
      CoreWithoutFirst(s[0], s[1..], name);
      assert s == [s[0]] + s[1..];
    } else if s != "" && IsSpace(s[|s| - 1]) {
      TrimExactly(s[..|s| - 1], name);
      CoreWithoutLast(s[..|s| - 1], s[|s| - 1], name);
      assert s == s[..|s| - 1] + [s[|s| - 1]];
    } else {
      BareIsCore(s, name);
    }
  }

  /** The name under which a file may be stored: the one sent, without the spaces around it,
      if it is a segment that does not begin with a dot. */
  lemma {:induction false} UsableExactly(raw: string, name: string)
    ensures UsableName(raw) == Some(name) <==>
      IsSegment(name) && name[0] != '.' && IsCoreOf(name, raw)
  {
    TrimExactly(raw, name);
    hide Trim, IsCoreOf;
    assert ".."[0] == '.';
  }

  lemma {:induction false} TargetIsInBase(tree: FlatTree, base: string, name: string)
    requires IsKey(base) && IsSegment(name)
    ensures IsKey(FreeTarget(tree, base, name)) && ParentOf(FreeTarget(tree, base, name)) == base
  {
    RootIsNotAKey(base);
    ParentAndNameOfJoin(base, name);
    var cut := LeftmostTail(name, 0);
    PartOfNameIsClean(name, cut);
    var stem := base + "/" + Base(name);
    var i := FirstFree(tree.Keys, stem, 1, Extension(name));
    NumberedIsSegment(Base(name), i, Extension(name));
    JoinNumbered(base, Base(name), i, Extension(name));
    hide Numbered, FirstFree, LeftmostTail, IsKey, IsSegment, ParentOf, NameOf, Segments;
    ParentAndNameOfJoin(base, Numbered(Base(name), i, Extension(name)));
  }

  /** The handler never looks whether the shared folder is still there: a stored file is
      properly placed exactly when it is. */
  lemma {:induction false} PlacedProperlyExactly(link: Link, s: Server, raw: string, data: Bytes)
    requires WellFormed(s.tree) && IsKey(link.base) && UsableName(raw).Some?
    requires Finish(link, s, UsableName(raw).value, data).1 == 201
    ensures WellFormed(Finish(link, s, UsableName(raw).value, data).0.tree) <==> IsDir(s.tree, link.base)
  {
    var name := UsableName(raw).value;
    UsableExactly(raw, name);
    var key := FreeTarget(s.tree, link.base, name);
    TargetIsFree(s.tree, link.base, name);
    TargetIsInBase(s.tree, link.base, name);
    RootIsNotAKey(link.base);
    ParentStaysOut(key);
    hide FreeTarget, FitsLimit, IsKey, ParentOf, IsSegment, Under;
    var tree := Finish(link, s, name, data).0.tree;
    assert tree == s.tree[key := File(data)];
    if IsDir(s.tree, link.base) {
      InsertGrafts(s.tree, key, File(data));
    } else {
      assert key in tree;
    }
  }

  // ------------------------------------------------------------ overlapping is no different

  /** The name a request that is still sending its body was made with. */
  function NameSent(steps: seq<Step>, id: nat): Option<string> {
    if steps == [] then None
    else
      var before, last := steps[..|steps| - 1], steps[|steps| - 1];
      if last.id != id then NameSent(before, id)
      else match last
        case Arrives(_, raw) =>
          if NameSent(before, id).Some? || UsableName(raw).None? then NameSent(before, id) else Some(raw)
        case _ => None
  }

  /** The files whose bodies came in whole, in that order, under the names they were sent with. */
  function CameIn(steps: seq<Step>): seq<Picked> {
    if steps == [] then []
    else
      var before, last := steps[..|steps| - 1], steps[|steps| - 1];
      CameIn(before) +
      if last.BodyEnds? && NameSent(before, last.id).Some? then
        [Picked(NameSent(before, last.id).value, last.data)]
      else []
  }

  /** What is waiting are the requests whose bodies are on their way, under their usable names. */
  lemma {:induction false} WaitingExactly(link: Link, s: Server, steps: seq<Step>, id: nat)
    ensures var waiting, raw := TakeAll(link, Desk(s, map[]), steps).waiting, NameSent(steps, id);
      && (id in waiting <==> raw.Some?)
      && (raw.Some? ==> UsableName(raw.value) == Some(waiting[id]))
  {
    if steps != [] {
      WaitingExactly(link, s, steps[..|steps| - 1], id);
      hide UsableName, Finish;
    }
  }

  /** However uploads overlap, the server ends as if each file had been sent alone, in the order in
      which the bodies came in; so the first acceptable ones are stored, as many as there are uses. */
  lemma {:induction false} OverlapIsInTurn(link: Link, s: Server, steps: seq<Step>)
    requires s.stored == [] && (s.remaining.Some? ==> s.remaining.value >= 0)
    ensures var after := TakeAll(link, Desk(s, map[]), steps).server;
      && after == HandleAll(link, s, CameIn(steps))
      && FilesOf(after.stored) == FirstOf(Acceptable(link, CameIn(steps)), s.remaining)
  {
    OverlapIsHandled(link, s, steps);
    hide *;
    FirstAcceptableStored(link, s, CameIn(steps));
  }

  lemma {:induction false} OverlapIsHandled(link: Link, s: Server, steps: seq<Step>)
    ensures TakeAll(link, Desk(s, map[]), steps).server == HandleAll(link, s, CameIn(steps))
  {
    if steps != [] {
      var before, last := steps[..|steps| - 1], steps[|steps| - 1];
      OverlapIsHandled(link, s, before);
      WaitingExactly(link, s, before, last.id);
      hide UsableName, Finish, NameSent, HandleAll;
      if last.BodyEnds? && NameSent(before, last.id).Some? {
        HandleOneMore(link, s, CameIn(before), Picked(NameSent(before, last.id).value, last.data));
      } else {
        assert CameIn(steps) == CameIn(before);
      }
    } else {
      assert CameIn(steps) == [];
    }
  }

  // ----------------------------------------------------------------------- one visitor

  datatype Picked = Picked(name: string, data: Bytes)

  /** One whole request. */
  function Handle(link: Link, s: Server, file: Picked): Server {
    match UsableName(file.name)
    case None => s
    case Some(name) => Finish(link, s, name, file.data).0
  }

  function HandleAll(link: Link, s: Server, files: seq<Picked>): Server {
    if files == [] then s
    else Handle(link, HandleAll(link, s, files[..|files| - 1]), files[|files| - 1])
  }

  predicate IsAcceptable(link: Link, file: Picked) {
    UsableName(file.name).Some? && FitsLimit(link, file.data)
  }

  /** The acceptable files, under the names they are to have. */
  function Acceptable(link: Link, files: seq<Picked>): seq<Picked> {
    if files == [] then []
    else
      var last := files[|files| - 1];
      Acceptable(link, files[..|files| - 1]) +
      if IsAcceptable(link, last) then [Picked(UsableName(last.name).value, last.data)] else []
  }

  function FirstOf(files: seq<Picked>, limit: Option<int>): seq<Picked> {
    if limit.None? || |files| <= limit.value then files
    else if limit.value <= 0 then []
    else files[..limit.value]
  }

  function FilesOf(stored: seq<Upload>): seq<Picked> {
    seq(|stored|, i requires 0 <= i < |stored| => Picked(stored[i].name, stored[i].data))
  }

  /** Handled one after another, exactly the first acceptable files are stored, as many as
      there are uses left. */
  lemma {:induction false} FirstAcceptableStored(link: Link, s: Server, files: seq<Picked>)
    requires s.stored == [] && (s.remaining.Some? ==> s.remaining.value >= 0)
    ensures var after := HandleAll(link, s, files);
      && FilesOf(after.stored) == FirstOf(Acceptable(link, files), s.remaining)
      && (after.remaining.Some? <==> s.remaining.Some?)
      && (s.remaining.Some? ==> after.remaining.value == s.remaining.value - |after.stored|)
  {
    hide FreeTarget, FitsLimit, UsableName;
    if files != [] {
      var n := |files| - 1;
      FirstAcceptableStored(link, s, files[..n]);
      var before, after := HandleAll(link, s, files[..n]), HandleAll(link, s, files);
      var good := Acceptable(link, files[..n]);
      if IsAcceptable(link, files[n]) {
        var file := Picked(UsableName(files[n].name).value, files[n].data);
        if before.remaining.None? || before.remaining.value > 0 {
          assert FilesOf(after.stored) == FilesOf(before.stored) + [file];
          assert FilesOf(before.stored) == good;
        } else {
          assert after == before;
          assert (good + [file])[..s.remaining.value] == good[..s.remaining.value];
        }
      }
    }
  }

  /** The visitor's page: what was picked, what has been started, and whether one is being
      sent. `inFlight` are the requests not settled, `sent` all that were made. */
  datatype Visitor = Visitor(items: seq<Picked>, started: seq<bool>, sending: bool, inFlight: set<nat>, sent: seq<nat>)

  const IDLE := Visitor([], [], false, {}, [])

  function FirstIdle(started: seq<bool>): (i: nat)
    ensures i <= |started| && (i < |started| ==> !started[i])
    ensures forall j :: 0 <= j < i ==> started[j]
  {
    if started == [] || !started[0] then 0 else 1 + FirstIdle(started[1..])
  }

  function PumpVisitor(v: Visitor): Visitor {
    var i := FirstIdle(v.started);
    if v.sending || i == |v.started| then v
    else v.(sending := true, started := v.started[i := true], inFlight := v.inFlight + {i}, sent := v.sent + [i])
  }

  function Pick(v: Visitor, file: Picked): Visitor {
    PumpVisitor(v.(items := v.items + [file], started := v.started + [false]))
  }

  function Settled(v: Visitor, i: nat): Visitor {
    PumpVisitor(v.(sending := false, inFlight := v.inFlight - {i}))
  }

  /** The visitor and the server; `handled` are the requests the server went through with.
      A request that breaks leaves no trace there. */
  datatype Session = Session(visitor: Visitor, server: Server, handled: seq<nat>)

  datatype Move = Picks(file: Picked) | Handled(i: nat) | Dropped(i: nat)

  function MoveOn(link: Link, s: Session, move: Move): Session {
    match move
    case Picks(file) => s.(visitor := Pick(s.visitor, file))
    case Handled(i) =>
      if i !in s.visitor.inFlight || i >= |s.visitor.items| then s
      else Session(Settled(s.visitor, i), Handle(link, s.server, s.visitor.items[i]), s.handled + [i])
    case Dropped(i) =>
      if i !in s.visitor.inFlight then s else s.(visitor := Settled(s.visitor, i))
  }

  function Visit(link: Link, server: Server, moves: seq<Move>): Session {
    if moves == [] then Session(IDLE, server, [])
    else MoveOn(link, Visit(link, server, moves[..|moves| - 1]), moves[|moves| - 1])
  }

  /** Items are sent first in, first out, each exactly once, one at a time, and the queue
      rests only when everything has been sent. */
  ghost predicate InTurn(v: Visitor) {
    && |v.started| == |v.items| && |v.sent| <= |v.items|
    && (forall i :: 0 <= i < |v.started| ==> (v.started[i] <==> i < |v.sent|))
    && (forall k :: 0 <= k < |v.sent| ==> v.sent[k] == k)
    && v.inFlight == (if v.sending then {|v.sent| - 1} else {})
    && (v.sending ==> v.sent != [])
    && (!v.sending ==> |v.sent| == |v.items|)
  }

  function Chosen(items: seq<Picked>, which: seq<nat>): seq<Picked>
    requires forall k :: 0 <= k < |which| ==> which[k] < |items|
  {
    seq(|which|, k requires 0 <= k < |which| => items[which[k]])
  }

  /** The server has handled a subsequence of what was sent, in order. */
  ghost predicate HandledInTurn(link: Link, server: Server, s: Session) {
    && (forall k :: 0 <= k < |s.handled| ==> s.handled[k] < |s.visitor.sent| && s.handled[k] !in s.visitor.inFlight)
    && (forall k, l :: 0 <= k < l < |s.handled| ==> s.handled[k] < s.handled[l])
    && |s.visitor.sent| <= |s.visitor.items|
    && s.server == HandleAll(link, server, Chosen(s.visitor.items, s.handled))
  }

  lemma {:induction false} PumpInTurn(v: Visitor)
    requires |v.started| == |v.items| && |v.sent| <= |v.items| && !v.sending && v.inFlight == {}
    requires forall i :: 0 <= i < |v.started| ==> (v.started[i] <==> i < |v.sent|)
    requires forall k :: 0 <= k < |v.sent| ==> v.sent[k] == k
    ensures InTurn(PumpVisitor(v))
  {
    var i := FirstIdle(v.started);
    assert |v.sent| < |v.started| ==> !v.started[|v.sent|];
    assert i < |v.started| ==> !v.started[i];
    assert i == |v.sent|;
  }

  lemma {:induction false} PickInTurn(v: Visitor, file: Picked)
    requires InTurn(v)
    ensures InTurn(Pick(v, file))
  {
    if !v.sending {
      PumpInTurn(v.(items := v.items + [file], started := v.started + [false]));
    }
  }

  lemma {:induction false} SettledInTurn(v: Visitor, i: nat)
    requires InTurn(v) && i in v.inFlight
    ensures InTurn(Settled(v, i))
    ensures v.sent <= Settled(v, i).sent && i !in Settled(v, i).inFlight && Settled(v, i).items == v.items
    ensures forall j :: j in Settled(v, i).inFlight ==> j >= |v.sent|
  {
    assert v.inFlight - {i} == {};
    PumpInTurn(v.(sending := false, inFlight := {}));
  }

  lemma {:induction false} ChosenMore(items: seq<Picked>, which: seq<nat>, i: nat)
    requires (forall k :: 0 <= k < |which| ==> which[k] < |items|) && i < |items|
    ensures Chosen(items, which + [i]) == Chosen(items, which) + [items[i]]
  {
  }

  lemma {:induction false} HandleOneMore(link: Link, server: Server, files: seq<Picked>, file: Picked)
    ensures HandleAll(link, server, files + [file]) == Handle(link, HandleAll(link, server, files), file)
  {
  }

  lemma {:induction false} MoveInTurn(link: Link, server: Server, s: Session, move: Move)
    requires InTurn(s.visitor) && HandledInTurn(link, server, s)
    ensures InTurn(MoveOn(link, s, move).visitor) && HandledInTurn(link, server, MoveOn(link, s, move))
  {
    hide Handle, HandleAll;
    match move {
      case Picks(file) =>
        PickInTurn(s.visitor, file);
        assert Chosen(s.visitor.items + [file], s.handled) == Chosen(s.visitor.items, s.handled);
      case Handled(i) =>
        if i in s.visitor.inFlight && i < |s.visitor.items| {
          SettledInTurn(s.visitor, i);
          ChosenMore(s.visitor.items, s.handled, i);
          HandleOneMore(link, server, Chosen(s.visitor.items, s.handled), s.visitor.items[i]);
        }
      case Dropped(i) =>
        if i in s.visitor.inFlight {
          SettledInTurn(s.visitor, i);
        }
    }
  }

  lemma {:induction false} VisitInTurn(link: Link, server: Server, moves: seq<Move>)
    ensures InTurn(Visit(link, server, moves).visitor) && HandledInTurn(link, server, Visit(link, server, moves))
  {
    hide MoveOn, Handle;
    if moves != [] {
      VisitInTurn(link, server, moves[..|moves| - 1]);
      hide InTurn, HandledInTurn;
      MoveInTurn(link, server, Visit(link, server, moves[..|moves| - 1]), moves[|moves| - 1]);
    }
  }

  /** A visitor's queue stores exactly the first acceptable files of those that reached the
      server, as many as the link has uses left. */
  lemma {:induction false} VisitorStoresFirst(link: Link, server: Server, moves: seq<Move>)
    requires server.stored == [] && (server.remaining.Some? ==> server.remaining.value >= 0)
    ensures var s := Visit(link, server, moves);
      && (forall k :: 0 <= k < |s.handled| ==> s.handled[k] < |s.visitor.items|)
      && FilesOf(s.server.stored) == FirstOf(Acceptable(link, Chosen(s.visitor.items, s.handled)), server.remaining)
  {
    hide MoveOn, Handle, HandleAll, FilesOf, FirstOf, Acceptable, Visit;
    VisitInTurn(link, server, moves);
    FirstAcceptableStored(link, server,
      Chosen(Visit(link, server, moves).visitor.items, Visit(link, server, moves).handled));
  }

  lemma {:induction false} AllHandled(link: Link, server: Server, moves: seq<Move>)
    requires forall move :: move in moves ==> !move.Dropped?
    ensures var s := Visit(link, server, moves);
      |s.handled| == |s.visitor.sent| - |s.visitor.inFlight|
  {
    hide Handle;
    if moves != [] {
      var before := Visit(link, server, moves[..|moves| - 1]);
      var move := moves[|moves| - 1];
      AllHandled(link, server, moves[..|moves| - 1]);
      VisitInTurn(link, server, moves[..|moves| - 1]);
      assert move in moves;
      if move.Handled? && move.i in before.visitor.inFlight {
        SettledInTurn(before.visitor, move.i);
      }
      if move.Picks? {
        PickInTurn(before.visitor, move.file);
      }
    }
  }

  /** If no request breaks, then once the queue rests the files stored are exactly the first
      acceptable ones that were picked. */
  lemma {:induction false} UnbrokenVisitStoresFirst(link: Link, server: Server, moves: seq<Move>)
    requires server.stored == [] && (server.remaining.Some? ==> server.remaining.value >= 0)
    requires forall move :: move in moves ==> !move.Dropped?
    ensures var s := Visit(link, server, moves);
      !s.visitor.sending ==> FilesOf(s.server.stored) == FirstOf(Acceptable(link, s.visitor.items), server.remaining)
  {
    hide Handle, HandleAll, FilesOf, FirstOf, Acceptable, Visit;
    var s := Visit(link, server, moves);
    VisitInTurn(link, server, moves);
    VisitorStoresFirst(link, server, moves);
    AllHandled(link, server, moves);
    if !s.visitor.sending {
      IncreasingIsAll(s.handled, |s.visitor.items|);
      assert Chosen(s.visitor.items, s.handled) == s.visitor.items;
    }
  }

  lemma {:induction false} IncreasingIsAll(which: seq<nat>, n: nat)
    requires |which| == n && (forall k :: 0 <= k < n ==> which[k] < n)
    requires forall k, l :: 0 <= k < l < n ==> which[k] < which[l]
    ensures forall k :: 0 <= k < n ==> which[k] == k
  {
    if n > 0 {
      var front := which[..n - 1];
      assert forall k :: 0 <= k < n - 1 ==> front[k] < which[n - 1];
      IncreasingIsAll(front, n - 1);
      assert forall k :: 0 <= k < n - 1 ==> which[k] == front[k];
      if n > 1 {
        assert which[n - 2] < which[n - 1];
      }
    }
  }
}
