/** What the replies say: which names and which batches are refused, and what the totals of a batch
    count. */
module Replies {
  import opened Options
  import opened Paths
  import opened FileTree
  import opened NestedTree
  import opened Refinement
  import opened Requests
  import opened RequestFacts
  import opened Effects
  import opened Runs
  import opened TreeAnswers
  import BatchOrder

  // ---------------------------------------------------------------------------- the totals

  lemma {:induction false} CountsOneMore(results: seq<Result>, last: Result)
    ensures CountCompleted(results + [last]) == CountCompleted(results) + if last.outcome.Completed? then 1 else 0
    ensures CountSkipped(results + [last]) == CountSkipped(results) + if last.outcome.Skipped? then 1 else 0
    ensures CountNotFound(results + [last]) == CountNotFound(results) + if last.outcome.NotFound? then 1 else 0
  {
    if results == [] {
      assert (results + [last])[1..] == [];
    } else {
      assert (results + [last])[1..] == results[1..] + [last] && (results + [last])[0] == results[0];
      CountsOneMore(results[1..], last);
    }
  }

  /** Where in the sequence something of the kind is. */
  function Places<T>(s: seq<T>, p: T -> bool): set<int> {
    set i | 0 <= i < |s| && p(s[i])
  }

  lemma {:induction false} NoPlaces<T>(p: T -> bool)
    ensures Places([], p) == {}
  {
  }

  lemma {:induction false} OnePlaceMore<T>(s: seq<T>, x: T, p: T -> bool)
    ensures |Places(s + [x], p)| == |Places(s, p)| + if p(x) then 1 else 0
  {
    assert Places(s + [x], p) == Places(s, p) + if p(x) then {|s|} else {};
  }

  lemma {:induction false} CompletedAre(results: seq<Result>)
    ensures CountCompleted(results) == |Places(results, (r: Result) => r.outcome.Completed?)|
  {
    hide Places;
    if results == [] {
      NoPlaces((r: Result) => r.outcome.Completed?);
    } else {
      var n := |results| - 1;
      assert results == results[..n] + [results[n]];
      CompletedAre(results[..n]);
      CountsOneMore(results[..n], results[n]);
      OnePlaceMore(results[..n], results[n], (r: Result) => r.outcome.Completed?);
    }
  }

  lemma {:induction false} SkippedAre(results: seq<Result>)
    ensures CountSkipped(results) == |Places(results, (r: Result) => r.outcome.Skipped?)|
  {
    hide Places;
    if results == [] {
      NoPlaces((r: Result) => r.outcome.Skipped?);
    } else {
      var n := |results| - 1;
      assert results == results[..n] + [results[n]];
      SkippedAre(results[..n]);
      CountsOneMore(results[..n], results[n]);
      OnePlaceMore(results[..n], results[n], (r: Result) => r.outcome.Skipped?);
    }
  }

  lemma {:induction false} NotFoundAre(results: seq<Result>)
    ensures CountNotFound(results) == |Places(results, (r: Result) => r.outcome.NotFound?)|
  {
    hide Places;
    if results == [] {
      NoPlaces((r: Result) => r.outcome.NotFound?);
    } else {
      var n := |results| - 1;
      assert results == results[..n] + [results[n]];
      NotFoundAre(results[..n]);
      CountsOneMore(results[..n], results[n]);
      OnePlaceMore(results[..n], results[n], (r: Result) => r.outcome.NotFound?);
    }
  }

  /** The three totals count the results by their outcome. */
  lemma {:induction false} CountsAre(results: seq<Result>)
    ensures CountCompleted(results) == |set i | 0 <= i < |results| && results[i].outcome.Completed?|
    ensures CountSkipped(results) == |set i | 0 <= i < |results| && results[i].outcome.Skipped?|
    ensures CountNotFound(results) == |set i | 0 <= i < |results| && results[i].outcome.NotFound?|
  {
    hide CountCompleted, CountSkipped, CountNotFound;
    CompletedAre(results);
    SkippedAre(results);
    NotFoundAre(results);
    assert Places(results, (r: Result) => r.outcome.Completed?) ==
      set i | 0 <= i < |results| && results[i].outcome.Completed?;
    assert Places(results, (r: Result) => r.outcome.Skipped?) ==
      set i | 0 <= i < |results| && results[i].outcome.Skipped?;
    assert Places(results, (r: Result) => r.outcome.NotFound?) ==
      set i | 0 <= i < |results| && results[i].outcome.NotFound?;
  }

  lemma {:induction false} DeletionsReported(m: FlatTree, sources: seq<string>, ids: seq<string>)
    requires |sources| <= |ids|
    ensures var p := DeleteAll(m, sources, ids);
      |p.results| == |sources| && forall i :: 0 <= i < |sources| ==> p.results[i].source == sources[i]
  {
    hide BinFor, Relocated;
    if sources != [] {
      DeletionsReported(m, sources[..|sources| - 1], ids);
    }
  }

  /** Every batch that is answered reports each source sent, in order, and counts the reports by
      their outcome. */
  ghost predicate Reports(reply: Reply, raws: seq<string>)
  {
    reply.Batch? ==>
      && |reply.results| == |raws|
      && (forall i :: 0 <= i < |raws| ==>
            NamesItem(raws[i]) && reply.results[i].source == ParsePath(raws[i]).path)
      && reply.completed == |set i | 0 <= i < |raws| && reply.results[i].outcome.Completed?|
      && reply.skipped == |set i | 0 <= i < |raws| && reply.results[i].outcome.Skipped?|
      && reply.failed == |set i | 0 <= i < |raws| && reply.results[i].outcome.NotFound?|
  }

  lemma {:induction false} BatchReports(p: Progress, raws: seq<string>)
    requires SourcesRefusal(raws).None?
    requires var sources := PathsOf(ParsedSources(raws));
      !p.crashed ==> |p.results| == |sources| && forall i :: 0 <= i < |sources| ==> p.results[i].source == sources[i]
    ensures Reports(BatchReply(p), raws)
  {
    RefusedSourcesExactly(raws);
    CountsAre(p.results);
    hide CountCompleted, CountSkipped, CountNotFound, ParsePath, SourcesRefusal, PathsOf, ParsedSources;
  }

  lemma {:induction false} RepliesReport(m: FlatTree, rootId: string, r: Request)
    requires HasIds(r)
    ensures r.Transfer? ==> Reports(Apply(m, rootId, r).reply, r.sources)
    ensures r.Delete? ==> Reports(Apply(m, rootId, r).reply, r.paths)
  {
    if r.Transfer? {
      RefusedSourcesExactly(r.sources);
    }
    if r.Delete? {
      RefusedSourcesExactly(r.paths);
    }
    hide Reports, ParsePath, SourcesRefusal, TransferAll, DeleteAll, BatchReply, PathsOf, ParsedSources, IsDir,
      NamesItem;
    OthersReport();
    match r {
      case Transfer(keep, sources, destination, policy) =>
        if TransferRuns(m, sources, destination) {
          var paths, dest := PathsOf(ParsedSources(sources)), ParsePath(destination).path;
          BatchOrder.EverySourceReported(m, paths, dest, policy, keep);
          BatchReports(TransferAll(m, paths, dest, policy, keep), sources);
        }
      case Delete(paths, ids) =>
        if SourcesRefusal(paths).None? {
          DeletionsReported(m, PathsOf(ParsedSources(paths)), ids);
          BatchReports(DeleteAll(m, PathsOf(ParsedSources(paths)), ids), paths);
        }
      case _ =>
    }
  }

  lemma {:induction false} OthersReport()
    ensures forall reply: Reply, raws :: !reply.Batch? ==> Reports(reply, raws)
  {
  }

  // ------------------------------------------------------------------------- the refusals

  /** A batch is refused for the number of its sources, else for one that is no path or the root,
      else for one that is reserved; otherwise each source is an item that may be named. */
  lemma {:induction false} RefusedSourcesExactly(raws: seq<string>)
    ensures var refusal := SourcesRefusal(raws);
      var counted := 1 <= |raws| <= 500;
      var bad := exists i :: 0 <= i < |raws| && (ParsePath(raws[i]).Invalid? || ParsePath(raws[i]) == Parsed.Ok("/"));
      var reserved := exists i :: 0 <= i < |raws| && ParsePath(raws[i]).Reserved?;
      && (refusal == Some(Refused(400, "bad_request")) <==> !counted)
      && (refusal == Some(Refused(400, "invalid_path")) <==> counted && bad)
      && (refusal == Some(Refused(404, "not_found")) <==> counted && !bad && reserved)
      && (refusal == None <==> counted && forall i :: 0 <= i < |raws| ==> NamesItem(raws[i]))
    ensures SourcesRefusal(raws).None? ==>
      var paths := PathsOf(ParsedSources(raws));
      |paths| == |raws| && forall i :: 0 <= i < |raws| ==> paths[i] == ParsePath(raws[i]).path
  {
    hide ParsePath;
    var parsed := ParsedSources(raws);
    assert forall i :: 0 <= i < |raws| ==> parsed[i] == ParsePath(raws[i]);
    forall i | 0 <= i < |raws|
      ensures parsed[i] in parsed
    {
    }
  }

  /** A destination is refused for being no path, for being reserved, or for not being a folder. */
  lemma {:induction false} RefusedDestinationExactly(m: FlatTree, keep: bool, raws: seq<string>, rawDest: string,
                                                     policy: Policy)
    requires WellFormed(m) && SourcesRefusal(raws).None?
    ensures var a, dest := TransferAnswer(m, keep, raws, rawDest, policy), ParsePath(rawDest);
      && (a.reply == Refused(400, "bad_request") <==> dest.Invalid?)
      && (a.reply == Refused(404, "not_found") <==> dest.Reserved?)
      && (a.reply == Refused(409, "destination_not_found") <==> dest.Ok? && !IsFolderAt(Nested(m), PathOf(rawDest)))
      && (a.reply.Refused? ==> a.tree == m)
  {
    if ParsePath(rawDest).Ok? {
      ParsedIsCanonical(rawDest);
      FolderSeenInTree(m, ParsePath(rawDest).path);
    }
    hide ParsePath, IsDir, TransferAll, Nested, IsFolderAt, WellFormed, SourcesRefusal, Segments, IsCanonical;
  }

  lemma {:induction false} Utf16LengthOneMore(s: string, c: char)
    ensures Utf16Length(s + [c]) == Utf16Length(s) + if c as int < 0x1_0000 then 1 else 2
  {
    if s == "" {
      assert (s + [c])[1..] == "";
    } else {
      assert (s + [c])[1..] == s[1..] + [c] && (s + [c])[0] == s[0];
      Utf16LengthOneMore(s[1..], c);
    }
  }

  /** A character beyond U+FFFF counts twice. */
  lemma {:induction false} Utf16LengthCounts(s: string)
    ensures Utf16Length(s) == |s| + |Places(s, (c: char) => c as int >= 0x1_0000)|
  {
    hide Places;
    if s == "" {
      NoPlaces((c: char) => c as int >= 0x1_0000);
    } else {
      var n := |s| - 1;
      assert s == s[..n] + [s[n]];
      Utf16LengthCounts(s[..n]);
      Utf16LengthOneMore(s[..n], s[n]);
      OnePlaceMore(s[..n], s[n], (c: char) => c as int >= 0x1_0000);
    }
  }

  /** A character beyond U+FFFF counts twice. */
  lemma {:induction false} Utf16LengthIs(s: string)
    ensures Utf16Length(s) == |s| + |set i | 0 <= i < |s| && s[i] as int >= 0x1_0000|
  {
    hide Utf16Length;
    Utf16LengthCounts(s);
    assert Places(s, (c: char) => c as int >= 0x1_0000) == set i | 0 <= i < |s| && s[i] as int >= 0x1_0000;
  }

  /** A new name is allowed exactly if it is a segment of at most 255 UTF-16 units, other than
      ".", under which a request can still name the item. */
  lemma {:induction false} AllowedExactly(n: string, parent: string)
    requires IsCanonical(parent) && (parent == "/" || IsVisible(parent))
    ensures IsAllowedName(n, parent) <==>
      && IsSegment(n) && n != "."
      && |n| + (|set i | 0 <= i < |n| && n[i] as int >= 0x1_0000|) <= 255
      && ParsePath(JoinPath(parent, n)) == Parsed.Ok(JoinPath(parent, n))
  {
    Utf16LengthIs(n);
    if IsSegment(n) {
      NameIsReachable(n, parent);
    }
    hide Utf16Length, ParsePath, JoinPath, IsHiddenName, IsCanonical, IsVisible;
  }

  lemma {:induction false} NameIsReachable(n: string, parent: string)
    requires IsCanonical(parent) && (parent == "/" || IsVisible(parent)) && IsSegment(n)
    ensures ParsePath(JoinPath(parent, n)) == Parsed.Ok(JoinPath(parent, n)) <==> !(parent == "/" && IsHiddenName(n))
  {
    ParentAndNameOfJoin(parent, n);
    RootIsNotAKey(JoinPath(parent, n));
    CanonicalIsAbsolute(parent);
    hide JoinPath, ParsePath, IsKey, Segments, IsHiddenName;
    CanonicalParses(JoinPath(parent, n));
  }
}
