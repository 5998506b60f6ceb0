/** The server as a file system on the nested tree: what each request should do and answer, told
    without keys, prefixes or loops. `TreeRefinement` proves that guarded requests do just that. */
module TreeServer {
  import opened Options
  import opened Paths
  import opened Naming
  import opened FileTree
  import opened NestedTree
  import opened Requests
  import opened Runs

  datatype TreeAnswer = TreeAnswer(tree: Tree, reply: Reply)

  function LastOf(path: seq<string>): string {
    if path == [] then "" else path[|path| - 1]
  }

  /** The names in a folder. */
  function NamesIn(tree: Tree, dir: seq<string>): set<string> {
    match Lookup(tree, dir)
    case Some(Branch(kids)) => kids.Keys
    case _ => {}
  }

  /** One item moved or copied, taking the place of whatever is at the target. */
  function MovedOnTree(tree: Tree, path: seq<string>, target: seq<string>, keep: bool): Tree {
    if path == target || path == [] || target == [] || Lookup(tree, path).None? then tree
    else Graft(Detach(if keep then tree else Detach(tree, path), target), target, Lookup(tree, path).value)
  }

  // ----------------------------------------------------------------------- single items

  function MkdirOnTree(tree: Tree, raw: string): TreeAnswer {
    match ParsePath(raw)
    case Invalid => TreeAnswer(tree, Refused(400, "invalid_path"))
    case Reserved => TreeAnswer(tree, Refused(404, "not_found"))
    case Ok(p) =>
      var path := Segments(p);
      if path == [] then TreeAnswer(tree, Refused(400, "invalid_path"))
      else if !IsFolderAt(tree, path[..|path| - 1]) then TreeAnswer(tree, Refused(409, "parent_not_found"))
      else if NodeAt(tree, path).Some? then TreeAnswer(tree, Refused(409, "already_exists"))
      else TreeAnswer(Graft(tree, path, Branch(map[])), Stored(201, p))
  }

  function PutOnTree(tree: Tree, writable: bool, raw: string, overwrite: bool, body: Bytes): TreeAnswer {
    match ParsePath(raw)
    case Invalid => TreeAnswer(tree, Refused(400, "invalid_path"))
    case Reserved => TreeAnswer(tree, Refused(404, "not_found"))
    case Ok(p) =>
      var path := Segments(p);
      if path == [] then TreeAnswer(tree, Refused(400, "invalid_path"))
      else if !writable then TreeAnswer(tree, Refused(403, "read_only_storage"))
      else if !IsFolderAt(tree, path[..|path| - 1]) then TreeAnswer(tree, Refused(409, "parent_not_found"))
      else if IsFolderAt(tree, path) then TreeAnswer(tree, Refused(409, "is_a_directory"))
      else if NodeAt(tree, path).Some? && !overwrite then TreeAnswer(tree, Refused(409, "already_exists"))
      else TreeAnswer(Graft(tree, path, Leaf(body)), Stored(if NodeAt(tree, path).Some? then 200 else 201, p))
  }

  function RenameOnTree(tree: Tree, raw: string, newName: string): TreeAnswer {
    match ParsePath(raw)
    case Invalid => TreeAnswer(tree, Refused(400, "bad_request"))
    case Reserved => TreeAnswer(tree, Refused(404, "not_found"))
    case Ok(p) =>
      var path := Segments(p);
      if path == [] then TreeAnswer(tree, Refused(400, "bad_request"))
      else
        var dir := path[..|path| - 1];
        var renamed := dir + [newName];
        if !IsAllowedName(newName, Absolute(dir)) then TreeAnswer(tree, Refused(400, "invalid_name"))
        else if NodeAt(tree, path).None? then TreeAnswer(tree, Refused(404, "not_found"))
        else if renamed != path && NodeAt(tree, renamed).Some? then TreeAnswer(tree, Refused(409, "already_exists"))
        else TreeAnswer(MovedOnTree(tree, path, renamed, false), Stored(200, Absolute(renamed)))
  }

  // ----------------------------------------------------------------------------- batches

  datatype TreePlace = TreeAt(target: seq<string>) | TreeOccupied | TreeUnmatched

  /** Where an existing item is going to land. */
  function PlaceOnTree(tree: Tree, path: seq<string>, dir: seq<string>, policy: Policy): TreePlace {
    var name := LastOf(path);
    if name !in NamesIn(tree, dir) || path == dir + [name] || policy == Replace then TreeAt(dir + [name])
    else if policy == Skip then TreeOccupied
    else if HasLineTerminator(Base(name)) then TreeUnmatched
    else
      var i := FirstFree(NamesIn(tree, dir), Base(name), 1, Extension(name));
      TreeAt(dir + [Numbered(Base(name), i, Extension(name))])
  }

  datatype TreeProgress = TreeProgress(tree: Tree, results: seq<Result>, crashed: bool)

  function StepOnTree(now: TreeProgress, path: seq<string>, dir: seq<string>, policy: Policy, keep: bool):
    TreeProgress
  {
    if now.crashed then now
    else if NodeAt(now.tree, path).None? then now.(results := now.results + [Result(Absolute(path), NotFound)])
    else match PlaceOnTree(now.tree, path, dir, policy)
      case TreeOccupied => now.(results := now.results + [Result(Absolute(path), Skipped)])
      case TreeUnmatched => now.(crashed := true)
      case TreeAt(target) =>
        TreeProgress(MovedOnTree(now.tree, path, target, keep),
                     now.results + [Result(Absolute(path), Completed(Absolute(target)))], false)
  }

  function BatchOnTree(tree: Tree, sources: seq<string>, dir: seq<string>, policy: Policy, keep: bool): TreeProgress {
    if sources == [] then TreeProgress(tree, [], false)
    else
      var n := |sources| - 1;
      StepOnTree(BatchOnTree(tree, sources[..n], dir, policy, keep), Segments(sources[n]), dir, policy, keep)
  }

  function ReplyTo(results: seq<Result>, crashed: bool): Reply {
    if crashed then Crashed
    else
      Batch(|set i | 0 <= i < |results| && results[i].outcome.Completed?|,
            |set i | 0 <= i < |results| && results[i].outcome.Skipped?|,
            |set i | 0 <= i < |results| && results[i].outcome.NotFound?|,
            results)
  }

  function TransferOnTree(tree: Tree, keep: bool, raws: seq<string>, rawDest: string, policy: Policy): TreeAnswer {
    var refusal := SourcesRefusal(raws);
    if refusal.Some? then TreeAnswer(tree, refusal.value)
    else match ParsePath(rawDest)
      case Invalid => TreeAnswer(tree, Refused(400, "bad_request"))
      case Reserved => TreeAnswer(tree, Refused(404, "not_found"))
      case Ok(dest) =>
        if !IsFolderAt(tree, Segments(dest)) then TreeAnswer(tree, Refused(409, "destination_not_found"))
        else
          var p := BatchOnTree(tree, PathsOf(ParsedSources(raws)), Segments(dest), policy, keep);
          TreeAnswer(p.tree, ReplyTo(p.results, p.crashed))
  }

  /** A deleted item goes to the bin whole. */
  function DeleteStepOnTree(now: TreeProgress, path: seq<string>, id: string): TreeProgress {
    if NodeAt(now.tree, path).None? then now.(results := now.results + [Result(Absolute(path), NotFound)])
    else
      var target := [".vaultbox", "recycle", id + "__" + LastOf(path)];
      TreeProgress(MovedOnTree(now.tree, path, target, false),
                   now.results + [Result(Absolute(path), Completed(Absolute(target)))], now.crashed)
  }

  function DeletionsOnTree(tree: Tree, sources: seq<string>, ids: seq<string>): TreeProgress
    requires |sources| <= |ids|
  {
    if sources == [] then TreeProgress(tree, [], false)
    else
      var n := |sources| - 1;
      DeleteStepOnTree(DeletionsOnTree(tree, sources[..n], ids), Segments(sources[n]), ids[n])
  }

  function DeleteOnTree(tree: Tree, raws: seq<string>, ids: seq<string>): TreeAnswer
    requires |raws| <= |ids|
  {
    var refusal := SourcesRefusal(raws);
    if refusal.Some? then TreeAnswer(tree, refusal.value)
    else
      var p := DeletionsOnTree(tree, PathsOf(ParsedSources(raws)), ids);
      TreeAnswer(p.tree, ReplyTo(p.results, p.crashed))
  }

  // ------------------------------------------------------------------------ whole requests

  function ApplyOnTree(tree: Tree, rootId: string, r: Request): TreeAnswer
    requires HasIds(r)
  {
    if rootId != "phone" && rootId != "card" then TreeAnswer(tree, Refused(404, "root_not_found"))
    else if r.Put? then PutOnTree(tree, rootId == "phone", r.path, r.overwrite, r.body)
    else if rootId != "phone" then TreeAnswer(tree, Refused(403, "read_only_storage"))
    else match r
      case Mkdir(path) => MkdirOnTree(tree, path)
      case Rename(path, newName) => RenameOnTree(tree, path, newName)
      case Transfer(keep, sources, destination, policy) => TransferOnTree(tree, keep, sources, destination, policy)
      case Delete(paths, ids) => DeleteOnTree(tree, paths, ids)
  }

  ghost function RunOnTree(tree: Tree, calls: seq<Call>): Tree
    requires forall c :: c in calls ==> HasIds(c.request)
  {
    if calls == [] then tree
    else
      var last := calls[|calls| - 1];
      ApplyOnTree(RunOnTree(tree, calls[..|calls| - 1]), last.rootId, last.request).tree
  }
}
