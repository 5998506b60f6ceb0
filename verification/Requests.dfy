/** The requests that change the file tree, each as a function from the tree before to the
    tree after and the reply, as they are without a tangled loop. `Stores` has them with the
    order of the keys, `Storage` runs them as the server does, in place. */
module Requests {
  import opened Options
  import opened Paths
  import opened Naming
  import opened FileTree

  datatype Policy = Skip | KeepBoth | Replace

  datatype Outcome = Completed(target: string) | Skipped | NotFound

  datatype Result = Result(source: string, outcome: Outcome)

  /** `Crashed` is the 500 sent for an exception nobody caught. */
  datatype Reply =
    | Refused(status: nat, code: string)
    | Stored(status: nat, path: string)
    | Batch(completed: nat, skipped: nat, failed: nat, results: seq<Result>)
    | Crashed

  datatype Answer = Answer(tree: FlatTree, reply: Reply)

  datatype Request =
    | Mkdir(path: string)
    | Put(path: string, overwrite: bool, body: Bytes)
    | Rename(path: string, newName: string)
    | Transfer(keep: bool, sources: seq<string>, destination: string, policy: Policy)
    | Delete(paths: seq<string>, ids: seq<string>)

  // ------------------------------------------------------------------- mkdir and rename

  function MkdirAnswer(m: FlatTree, raw: string): Answer {
    match ParsePath(raw)
    case Invalid => Answer(m, Refused(400, "invalid_path"))
    case Reserved => Answer(m, Refused(404, "not_found"))
    case Ok(p) =>
      if p == "/" then Answer(m, Refused(400, "invalid_path"))
      else if !IsDir(m, ParentOf(p)) then Answer(m, Refused(409, "parent_not_found"))
      else if p in m then Answer(m, Refused(409, "already_exists"))
      else Answer(m[p := Folder], Stored(201, p))
  }

  /** `s.length` in UTF-16 code units. */
  function Utf16Length(s: string): nat {
    if s == "" then 0 else (if s[0] as int < 0x1_0000 then 1 else 2) + Utf16Length(s[1..])
  }

  predicate IsAllowedName(n: string, parent: string) {
    && n != "" && Utf16Length(n) <= 255
    && '/' !in n && '\\' !in n && n != "." && n != ".."
    && !(parent == "/" && IsHiddenName(n))
  }

  function RenameAnswer(m: FlatTree, raw: string, newName: string): Answer {
    match ParsePath(raw)
    case Invalid => Answer(m, Refused(400, "bad_request"))
    case Reserved => Answer(m, Refused(404, "not_found"))
    case Ok(p) =>
      if p == "/" then Answer(m, Refused(400, "bad_request"))
      else if !IsAllowedName(newName, ParentOf(p)) then Answer(m, Refused(400, "invalid_name"))
      else if p !in m then Answer(m, Refused(404, "not_found"))
      else
        var target := JoinPath(ParentOf(p), newName);
        if target != p && target in m then Answer(m, Refused(409, "already_exists"))
        else Answer(Relocated(m, p, target, false), Stored(200, target))
  }

  // -------------------------------------------------------------------- PUT in two steps

  datatype Admission = Reject(reply: Reply) | Admit(path: string, existed: bool)

  /** Everything the PUT branch looks at before it waits for the body. */
  function PutCheck(m: FlatTree, writable: bool, raw: string, overwrite: bool): Admission {
    match ParsePath(raw)
    case Invalid => Reject(Refused(400, "invalid_path"))
    case Reserved => Reject(Refused(404, "not_found"))
    case Ok(p) =>
      if p == "/" then Reject(Refused(400, "invalid_path"))
      else if !writable then Reject(Refused(403, "read_only_storage"))
      else if !IsDir(m, ParentOf(p)) then Reject(Refused(409, "parent_not_found"))
      else if p in m && m[p].Folder? then Reject(Refused(409, "is_a_directory"))
      else if p in m && !overwrite then Reject(Refused(409, "already_exists"))
      else Admit(p, p in m)
  }

  /** What it does once the body is there, with no further look at the tree. */
  function PutStore(m: FlatTree, path: string, body: Bytes): FlatTree {
    m[path := File(body)]
  }

  function PutAnswer(m: FlatTree, writable: bool, raw: string, overwrite: bool, body: Bytes): Answer {
    match PutCheck(m, writable, raw, overwrite)
    case Reject(reply) => Answer(m, reply)
    case Admit(p, existed) => Answer(PutStore(m, p, body), Stored(if existed then 200 else 201, p))
  }

  // --------------------------------------------------------------- move, copy and delete

  /** Parsed sources, or why the whole request is refused. */
  function ParsedSources(raws: seq<string>): seq<Parsed> {
    seq(|raws|, i requires 0 <= i < |raws| => ParsePath(raws[i]))
  }

  function PathsOf(parsed: seq<Parsed>): seq<string>
    requires forall x :: x in parsed ==> x.Ok?
  {
    seq(|parsed|, i requires 0 <= i < |parsed| => parsed[i].path)
  }

  function SourcesRefusal(raws: seq<string>): (refusal: Option<Reply>)
    ensures refusal.None? ==> forall x :: x in ParsedSources(raws) ==> x.Ok? && x.path != "/"
  {
    var parsed := ParsedSources(raws);
    if |raws| < 1 || |raws| > 500 then Some(Refused(400, "bad_request"))
    else if Parsed.Invalid in parsed || Parsed.Ok("/") in parsed then Some(Refused(400, "invalid_path"))
    else if Parsed.Reserved in parsed then Some(Refused(404, "not_found"))
    else
      assert forall x :: x in parsed ==> x.Invalid? || x.Reserved? || x.Ok?;
      None
  }

  datatype Placement = At(target: string) | Occupied | Unmatched

  /** Where an existing source is going to land. */
  function Place(m: FlatTree, s: string, dest: string, policy: Policy): Placement {
    var name := NameOf(s);
    var plain := JoinPath(dest, name);
    if plain !in m || s == plain then At(plain)
    else match policy
      case Skip => Occupied
      case Replace => At(plain)
      case KeepBoth =>
        match LazyGroup(name, 0)
        case None => Unmatched
        case Some(cut) =>
          var stem := JoinPath(dest, name[..cut]);
          At(Numbered(stem, FirstFree(m.Keys, stem, 1, name[cut..]), name[cut..]))
  }

  /** How far a batch has come. A crash ends it; what was done before stays done. */
  datatype Progress = Progress(tree: FlatTree, results: seq<Result>, crashed: bool)

  function TransferStep(now: Progress, s: string, dest: string, policy: Policy, keep: bool): Progress {
    if now.crashed then now
    else if s !in now.tree then now.(results := now.results + [Result(s, NotFound)])
    else match Place(now.tree, s, dest, policy)
      case Occupied => now.(results := now.results + [Result(s, Skipped)])
      case Unmatched => now.(crashed := true)
      case At(t) => Progress(Relocated(now.tree, s, t, keep), now.results + [Result(s, Completed(t))], false)
  }

  function TransferAll(m: FlatTree, sources: seq<string>, dest: string, policy: Policy, keep: bool): Progress {
    if sources == [] then Progress(m, [], false)
    else
      var n := |sources| - 1;
      TransferStep(TransferAll(m, sources[..n], dest, policy, keep), sources[n], dest, policy, keep)
  }

  /** No re-keying loop of the batch is tangled, so that its outcome does not depend on the
      order of the keys. `Runs.TransferKeeps` says when. */
  ghost predicate BatchUntangled(m: FlatTree, sources: seq<string>, dest: string, policy: Policy, keep: bool) {
    forall i :: 0 <= i < |sources| ==> UntangledAt(m, sources, dest, policy, keep, i)
  }

  ghost predicate UntangledAt(m: FlatTree, sources: seq<string>, dest: string, policy: Policy, keep: bool, i: nat)
    requires i < |sources|
  {
    StepUntangled(TransferAll(m, sources[..i], dest, policy, keep), sources[i], dest, policy, keep)
  }

  ghost predicate StepUntangled(now: Progress, s: string, dest: string, policy: Policy, keep: bool) {
    !now.crashed && s in now.tree && Place(now.tree, s, dest, policy).At? ==>
      Untangled(now.tree, s, Place(now.tree, s, dest, policy).target, keep)
  }

  const BIN := "/.vaultbox/recycle"

  const RECYCLE := BIN + "/"

  /** Where delete puts an item. */
  function BinFor(id: string, s: string): string {
    RECYCLE + id + "__" + NameOf(s)
  }

  /** Random identifiers as `crypto.randomUUID` promises them: 36 characters, no slash,
      distinct, and never seen in the bin before. */
  ghost predicate FreshIds(m: FlatTree, ids: seq<string>) {
    && (forall i :: 0 <= i < |ids| ==> |ids[i]| == 36 && IsSegment(ids[i]))
    && (forall i, j :: 0 <= i < j < |ids| ==> ids[i] != ids[j])
    && (forall i, k :: 0 <= i < |ids| && k in m ==> !(RECYCLE + ids[i] <= k))
  }

  function DeleteStep(now: Progress, s: string, id: string): Progress {
    if s !in now.tree then now.(results := now.results + [Result(s, NotFound)])
    else
      var bin := BinFor(id, s);
      now.(tree := Relocated(now.tree, s, bin, false), results := now.results + [Result(s, Completed(bin))])
  }

  /** One identifier stands ready for each source; a missing source leaves its own unused. */
  function DeleteAll(m: FlatTree, sources: seq<string>, ids: seq<string>): (p: Progress)
    requires |sources| <= |ids|
    ensures !p.crashed
  {
    if sources == [] then Progress(m, [], false)
    else
      var n := |sources| - 1;
      DeleteStep(DeleteAll(m, sources[..n], ids), sources[n], ids[n])
  }

  function CountCompleted(results: seq<Result>): nat {
    if results == [] then 0
    else CountCompleted(results[1..]) + if results[0].outcome.Completed? then 1 else 0
  }

  function CountSkipped(results: seq<Result>): nat {
    if results == [] then 0
    else CountSkipped(results[1..]) + if results[0].outcome.Skipped? then 1 else 0
  }

  function CountNotFound(results: seq<Result>): nat {
    if results == [] then 0
    else CountNotFound(results[1..]) + if results[0].outcome.NotFound? then 1 else 0
  }

  function BatchReply(p: Progress): Reply {
    if p.crashed then Crashed
    else Batch(CountCompleted(p.results), CountSkipped(p.results), CountNotFound(p.results), p.results)
  }

  function TransferAnswer(m: FlatTree, keep: bool, raws: seq<string>, rawDest: string, policy: Policy): Answer {
    var refusal := SourcesRefusal(raws);
    if refusal.Some? then Answer(m, refusal.value)
    else match ParsePath(rawDest)
      case Invalid => Answer(m, Refused(400, "bad_request"))
      case Reserved => Answer(m, Refused(404, "not_found"))
      case Ok(dest) =>
        if !IsDir(m, dest) then Answer(m, Refused(409, "destination_not_found"))
        else
          var p := TransferAll(m, PathsOf(ParsedSources(raws)), dest, policy, keep);
          Answer(p.tree, BatchReply(p))
  }

  function DeleteAnswer(m: FlatTree, raws: seq<string>, ids: seq<string>): Answer
    requires |raws| <= |ids|
  {
    var refusal := SourcesRefusal(raws);
    if refusal.Some? then Answer(m, refusal.value)
    else
      var p := DeleteAll(m, PathsOf(ParsedSources(raws)), ids);
      Answer(p.tree, BatchReply(p))
  }

  // --------------------------------------------------------------------------- dispatch

  /** A delete draws one identifier for each item. */
  predicate HasIds(r: Request) {
    r.Delete? ==> |r.paths| <= |r.ids|
  }

  /** One authorised request to `/api/v1/roots/<rootId>/…`. Both roots are one tree; only
      the phone's may be changed. */
  function Apply(m: FlatTree, rootId: string, r: Request): Answer
    requires HasIds(r)
  {
    if rootId != "phone" && rootId != "card" then Answer(m, Refused(404, "root_not_found"))
    else if r.Put? then PutAnswer(m, rootId == "phone", r.path, r.overwrite, r.body)
    else if rootId != "phone" then Answer(m, Refused(403, "read_only_storage"))
    else match r
      case Mkdir(path) => MkdirAnswer(m, path)
      case Rename(path, newName) => RenameAnswer(m, path, newName)
      case Transfer(keep, sources, destination, policy) => TransferAnswer(m, keep, sources, destination, policy)
      case Delete(paths, ids) => DeleteAnswer(m, paths, ids)
  }

  /** No re-keying loop of this request is tangled. */
  ghost predicate RequestUntangled(m: FlatTree, r: Request)
    requires HasIds(r)
  {
    match r
    case Rename(path, newName) =>
      var answer := RenameAnswer(m, path, newName);
      answer.reply.Stored? ==> Untangled(m, ParsePath(path).path, answer.reply.path, false)
    case Transfer(keep, sources, destination, policy) =>
      var dest := ParsePath(destination);
      SourcesRefusal(sources).None? && dest.Ok? && IsDir(m, dest.path) ==>
        BatchUntangled(m, PathsOf(ParsedSources(sources)), dest.path, policy, keep)
    case Delete(paths, ids) => FreshIds(m, ids)
    case _ => true
  }
}
