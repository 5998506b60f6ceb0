/** Byte ranges: what a download answers to a `Range` header, held against section 14 of
    RFC 9110. */
module Ranges {
  import opened Options
  import opened Naming
  import opened FileTree

  // ----------------------------------------------------------------------- the header

  /** What the server makes of a `Range` header. Anything it does not recognise is ignored. */
  datatype Range =
    | Everything
    | Between(first: nat, last: Option<nat>)
    | Final(length: nat)

  function FirstDash(s: string): (i: nat)
    ensures i <= |s| && '-' !in s[..i] && (i < |s| ==> s[i] == '-')
  {
    if s == "" || s[0] == '-' then 0
    else
      var i := 1 + FirstDash(s[1..]);
      assert s[..i] == [s[0]] + s[1..][..i - 1];
      i
  }

  /** `/^bytes=(\d*)-(\d*)$/`, and at least one of the two numbers. */
  function Recognise(header: string): Range {
    if !("bytes=" <= header) then Everything
    else
      var rest := header[6..];
      var cut := FirstDash(rest);
      if cut == |rest| then Everything
      else
        var a, b := rest[..cut], rest[cut + 1..];
        if !AllDigits(a) || !AllDigits(b) then Everything
        else if a != "" then Between(Number(a), if b == "" then None else Some(Number(b)))
        else if b != "" then Final(Number(b))
        else Everything
  }

  /** Two digit strings around a dash are read as just these two. */
  lemma {:induction false} RecogniseNumbers(a: string, b: string)
    requires AllDigits(a) && AllDigits(b)
    ensures Recognise("bytes=" + a + "-" + b) ==
      if a != "" then Between(Number(a), if b == "" then None else Some(Number(b)))
      else if b != "" then Final(Number(b))
      else Everything
  {
    var rest := a + "-" + b;
    assert ("bytes=" + a + "-" + b)[6..] == rest;
    assert rest[..|a|] == a && rest[|a| + 1..] == b;
    assert forall c :: c in a ==> IsDigit(c);
    FirstDashIs(rest, |a|);
    hide Number, AllDigits, FirstDash;
  }

  /** The header is acted on exactly when it has the form of the expression. */
  lemma {:induction false} RecognisedExactly(header: string)
    ensures Recognise(header) != Everything <==> exists a, b :: IsHeaderOf(header, a, b)
  {
    if Recognise(header) != Everything {
      var a, b := HeaderParts(header);
    }
    hide Recognise, IsHeaderOf;
    forall a, b | IsHeaderOf(header, a, b)
      ensures Recognise(header) != Everything
    {
      HeaderIsRecognised(header, a, b);
    }
  }

  lemma {:induction false} HeaderParts(header: string) returns (a: string, b: string)
    requires Recognise(header) != Everything
    ensures IsHeaderOf(header, a, b)
  {
    hide Number, AllDigits;
    var rest := header[6..];
    var cut := FirstDash(rest);
    hide FirstDash;
    a, b := rest[..cut], rest[cut + 1..];
    assert header == "bytes=" + rest;
    assert rest == a + "-" + b;
    assert "bytes=" + (a + "-" + b) == "bytes=" + a + "-" + b;
  }

  lemma {:induction false} HeaderIsRecognised(header: string, a: string, b: string)
    requires IsHeaderOf(header, a, b)
    ensures Recognise(header) != Everything
  {
    RecogniseNumbers(a, b);
    hide Recognise, Number, AllDigits;
  }

  ghost predicate IsHeaderOf(header: string, a: string, b: string) {
    AllDigits(a) && AllDigits(b) && (a != "" || b != "") && header == "bytes=" + a + "-" + b
  }

  lemma {:induction false} FirstDashIs(s: string, i: nat)
    requires i < |s| && s[i] == '-' && '-' !in s[..i]
    ensures FirstDash(s) == i
  {
  }

  // --------------------------------------------------------------------- the response

  datatype Response =
    | Content(status: nat, range: Option<string>, length: string, body: Bytes)
    | Unsatisfiable(unsatisfied: string)

  function IntText(n: int): string {
    if n < 0 then "-" + Decimal(-n) else Decimal(n)
  }

  function ContentRange(first: int, last: int, size: nat): string {
    "bytes " + IntText(first) + "-" + IntText(last) + "/" + Decimal(size)
  }

  function Min(a: int, b: int): int {
    if a < b then a else b
  }

  function Max(a: int, b: int): int {
    if a < b then b else a
  }

  /** `subarray(from, to)` for positions at or after the start of the data. */
  function Subarray(data: Bytes, from: nat, to: nat): Bytes {
    if from < to && from < |data| then data[from..Min(to, |data|)] else []
  }

  /** The first position that is sent. */
  function StartOf(size: nat, r: Range): nat {
    match r
    case Everything => 0
    case Between(first, _) => first
    case Final(length) => Max(0, size - length)
  }

  /** The last position that is sent; -1 when the file is empty. */
  function EndOf(size: nat, r: Range): (end: int)
    ensures end >= -1
  {
    if r.Between? && r.last.Some? then Min(size - 1, r.last.value) else size - 1
  }

  function Serve(data: Bytes, r: Range, head: bool): Response {
    var size, start, end := |data|, StartOf(|data|, r), EndOf(|data|, r);
    if r != Everything && start >= size then Unsatisfiable("bytes */" + Decimal(size))
    else Content(
      if r == Everything then 200 else 206,
      if r == Everything then None else Some(ContentRange(start, end, size)),
      IntText(end - start + 1),
      if head then [] else Subarray(data, start, end + 1))
  }

  /** `serveFile`, which settles start, end and status step by step. */
  method ServeFile(data: Bytes, header: string, head: bool) returns (response: Response)
    ensures response == Serve(data, Recognise(header), head)
  {
    hide Decimal, ContentRange, Recognise, IntText, Subarray;
    var size := |data|;
    var start: nat := 0;
    var end: int := size - 1;
    var status := 200;
    var range: Option<string> := None;
    var m := Recognise(header);
    if m != Everything {
      match m {
        case Final(length) =>
          start := Max(0, size - length);
        case Between(first, last) =>
          start := first;
          if last.Some? {
            end := Min(size - 1, last.value);
          }
      }
      if start >= size {
        return Unsatisfiable("bytes */" + Decimal(size));
      }
      status := 206;
      range := Some(ContentRange(start, end, size));
    }
    var body: Bytes := [];
    if !head {
      body := Subarray(data, start, end + 1);
    }
    return Content(status, range, IntText(end - start + 1), body);
  }

  // ------------------------------------------------------------ held against RFC 9110

  /** Section 14.1.1: a range is invalid if its last position comes before its first. */
  predicate IsInvalid(r: Range) {
    r.Between? && r.last.Some? && r.last.value < r.first
  }

  /** Section 14.1.2: a first position inside the data, or a suffix of non-zero length. */
  predicate IsSatisfiable(size: nat, r: Range) {
    match r
    case Everything => true
    case Between(first, _) => first < size
    case Final(length) => length > 0
  }

  /** The whole file, as if there had been no `Range` header. */
  predicate IsWhole(data: Bytes, response: Response) {
    response == Content(200, None, Decimal(|data|), data)
  }

  /** Positions `lo` up to and with `hi`: the range, the length and the body say the same. */
  predicate IsPart(data: Bytes, response: Response, lo: nat, hi: nat) {
    && lo <= hi < |data|
    && response == Content(206,
                           Some("bytes " + Decimal(lo) + "-" + Decimal(hi) + "/" + Decimal(|data|)),
                           Decimal(hi - lo + 1),
                           data[lo..hi + 1])
  }

  /** The response section 14.2 asks for. An invalid range may be ignored or refused. A
      satisfiable one is answered by the part it names, cut off at the end of the file; of
      an empty file no part can be named, so there the header can only be ignored. */
  predicate Meets(data: Bytes, r: Range, response: Response) {
    var size := |data|;
    if r == Everything || (r.Final? && r.length > 0 && size == 0) then IsWhole(data, response)
    else if IsInvalid(r) then IsWhole(data, response) || response == Unsatisfiable("bytes */" + Decimal(size))
    else if !IsSatisfiable(size, r) then response == Unsatisfiable("bytes */" + Decimal(size))
    else if r.Final? then IsPart(data, response, if r.length < size then size - r.length else 0, size - 1)
    else IsPart(data, response, r.first, if r.last.Some? && r.last.value < size then r.last.value else size - 1)
  }

  /** A download answers as section 14 requires, except for a range that is reversed and
      starts inside the file, and for a suffix of an empty file. */
  lemma {:induction false} MeetsExactly(data: Bytes, r: Range)
    ensures Meets(data, r, Serve(data, r, false)) <==>
      !(IsInvalid(r) && r.first < |data|) && !(r.Final? && r.length > 0 && data == [])
  {
    hide Decimal;
    assert data[0..|data|] == data;
  }

  /** 416 is answered exactly when the range is unsatisfiable, unless the file is empty. */
  lemma {:induction false} RefusedExactly(data: Bytes, r: Range, head: bool)
    ensures Serve(data, r, head).Unsatisfiable? <==>
      !IsSatisfiable(|data|, r) || (r.Final? && data == [])
  {
    hide Decimal, ContentRange;
  }

  /** A reversed range that starts inside the file is answered by an empty part, and the
      length announced for it is wrong unless the two positions are neighbours. */
  lemma {:induction false} ReversedMisstates(data: Bytes, first: nat, last: nat)
    requires last < first < |data|
    ensures var response := Serve(data, Between(first, Some(last)), false);
      response.Content? && response.status == 206 && response.body == []
      && (response.length == Decimal(|response.body|) <==> first == last + 1)
  {
  }

  /** HEAD announces what GET would send. */
  lemma {:induction false} HeadAnnouncesGet(data: Bytes, r: Range)
    ensures Serve(data, r, true) ==
      match Serve(data, r, false)
      case Content(status, range, length, _) => Content(status, range, length, [])
      case Unsatisfiable(unsatisfied) => Unsatisfiable(unsatisfied)
  {
  }

  // ---------------------------------------------------------------- putting parts together

  function PartHeader(first: nat, last: nat): string {
    "bytes=" + Decimal(first) + "-" + Decimal(last)
  }

  function RestHeader(first: nat): string {
    "bytes=" + Decimal(first) + "-"
  }

  function BodyOf(response: Response): Bytes {
    match response
    case Content(_, _, _, body) => body
    case Unsatisfiable(_) => []
  }

  /** One request for each piece between two consecutive cuts, its bodies put together. */
  function FetchPieces(data: Bytes, cuts: seq<nat>): Bytes {
    if |cuts| < 2 then []
    else
      var n := |cuts| - 1;
      var last: nat := if cuts[n] == 0 then 0 else cuts[n] - 1;
      FetchPieces(data, cuts[..n]) + BodyOf(Serve(data, Recognise(PartHeader(cuts[n - 1], last)), false))
  }

  lemma {:induction false} NumbersAreRead(first: nat, last: nat)
    ensures Recognise(PartHeader(first, last)) == Between(first, Some(last))
    ensures Recognise(RestHeader(first)) == Between(first, None)
  {
    RecogniseNumbers(Decimal(first), Decimal(last));
    RecogniseNumbers(Decimal(first), "");
    NumberOfDecimal(first);
    NumberOfDecimal(last);
    hide Decimal, Recognise, Number;
    assert RestHeader(first) == "bytes=" + Decimal(first) + "-" + "";
  }

  lemma {:induction false} BodyIsSlice(data: Bytes, from: nat, to: nat)
    requires from < to <= |data|
    ensures BodyOf(Serve(data, Between(from, Some(to - 1)), false)) == data[from..to]
    ensures to == |data| ==> BodyOf(Serve(data, Between(from, None), false)) == data[from..to]
  {
    hide ContentRange, IntText;
  }

  lemma {:induction false} PieceIsSlice(data: Bytes, from: nat, to: nat)
    requires from < to <= |data|
    ensures BodyOf(Serve(data, Recognise(PartHeader(from, to - 1)), false)) == data[from..to]
  {
    hide *;
    NumbersAreRead(from, to - 1);
    BodyIsSlice(data, from, to);
  }

  /** Whatever the cuts, fetching piece by piece gives the file up to the last one. */
  lemma {:induction false} PiecesMakeTheFile(data: Bytes, cuts: seq<nat>)
    requires cuts != [] && cuts[0] == 0 && cuts[|cuts| - 1] <= |data|
    requires forall i, j :: 0 <= i < j < |cuts| ==> cuts[i] < cuts[j]
    ensures FetchPieces(data, cuts) == data[..cuts[|cuts| - 1]]
  {
    hide Serve, Recognise, PartHeader, BodyOf;
    if |cuts| > 1 {
      var n := |cuts| - 1;
      PiecesMakeTheFile(data, cuts[..n]);
      PieceIsSlice(data, cuts[n - 1], cuts[n]);
    }
  }

  /** A broken download resumed where it stopped gives the whole file. */
  lemma {:induction false} ResumeMakesTheFile(data: Bytes, got: nat)
    requires got < |data|
    ensures data[..got] + BodyOf(Serve(data, Recognise(RestHeader(got)), false)) == data
  {
    hide *;
    NumbersAreRead(got, 0);
    BodyIsSlice(data, got, |data|);
    assert data[..got] + data[got..|data|] == data;
  }

  /** `Number` is exact only below 2^53, and beyond keeps to at least that. For a file no
      longer than 2^53 bytes it makes no difference what it gives there. */
  lemma {:induction false} RoundingIsHarmless(data: Bytes, r: Range, rounded: Range, head: bool)
    requires |data| <= 0x20_0000_0000_0000
    requires RoundsTo(r, rounded)
    ensures Serve(data, r, head) == Serve(data, rounded, head)
  {
    hide Decimal;
  }

  predicate NumberRoundsTo(n: nat, rounded: nat) {
    n == rounded || (n >= 0x20_0000_0000_0000 && rounded >= 0x20_0000_0000_0000)
  }

  predicate RoundsTo(r: Range, rounded: Range) {
    match (r, rounded)
    case (Everything, Everything) => true
    case (Final(n), Final(n')) => NumberRoundsTo(n, n')
    case (Between(n, None), Between(n', None)) => NumberRoundsTo(n, n')
    case (Between(n, Some(l)), Between(n', Some(l'))) => NumberRoundsTo(n, n') && NumberRoundsTo(l, l')
    case _ => false
  }
}
