/** What a client of an HTTP server may see of one object: the object is replaced at
    any time, requests fail, connections drop, ranges are honoured or ignored
    (sections 13.1.5, 14.2 and 15.3.7 of RFC 9110). */
module HttpServer {
  import opened Strings

  /** One version of the object.  An empty validator says that the server sends no
      strong one. */
  datatype Version = Version(data: Bytes, validator: string)

  /** A strong validator names one content: the same object may come back with it. */
  ghost predicate ValidatorsName(versions: seq<Version>) {
    forall i, j :: 0 <= i < j < |versions| && versions[i].validator == versions[j].validator != ""
      ==> versions[i].data == versions[j].data
  }

  lemma SameContent(versions: seq<Version>, i: nat, j: nat)
    requires ValidatorsName(versions) && i < |versions| && j < |versions|
    requires versions[i].validator == versions[j].validator != ""
    ensures versions[i].data == versions[j].data
  {
  }

  /** So it is where a validator is made from the content, or not sent. */
  lemma TagsName(versions: seq<Version>, tag: Bytes -> string)
    requires forall a, b :: tag(a) == tag(b) ==> a == b
    requires forall i :: 0 <= i < |versions| ==> versions[i].validator == "" || versions[i].validator == tag(versions[i].data)
    ensures ValidatorsName(versions)
  {
  }

  /** A Range header: bytes=first-last, or bytes=first-. */
  datatype Range = Range(first: nat, last: Option<int>)

  /** Of a 206, first and total are what Content-Range says; a 200 begins at 0. */
  datatype Response = Response(
    status: int, body: Bytes, contentLength: int, first: nat, total: Option<nat>, validator: string)

  /** Everything that the server and the network decide at one step. */
  datatype Choice = Choice(
    replaced: nat,          // how many versions further the object is
    fail: bool,             // the request fails
    otherStatus: bool,      // the response is neither 200 nor 206; of HEAD: it is refused
    ignoreRange: bool,
    skip: nat,              // how much later than asked a partial response begins
    cut: nat,               // how much earlier than asked it ends
    hideLength: bool,
    hideTotal: bool,
    chunk: nat,             // how many bytes one read gets at most
    drop: bool,             // the connection drops
    endNow: bool)           // the end is reported with the last bytes

  function SliceEnd(r: Range, n: nat): nat {
    match r.last
    case None => n
    case Some(l) => if l < 0 then 0 else if l + 1 < n then l + 1 else n
  }

  /** What a 206 covers: any part of the range that is asked for, but not nothing
      (section 15.3.7 lets a server send a subset only). */
  function PartFirst(first: nat, end: nat, c: Choice): (lo: nat)
    requires first < end
    ensures first <= lo < end
  {
    if first + c.skip < end then first + c.skip else first
  }

  function PartEnd(lo: nat, end: nat, c: Choice): (hi: nat)
    requires lo < end
    ensures lo < hi <= end
  {
    if c.cut < end - lo then end - c.cut else end
  }

  /** The response that the choice leads to.  A range is honoured only if If-Range,
      when sent, names the version that is served. */
  function Respond(v: Version, range: Option<Range>, ifRange: Option<string>, c: Choice): Option<Response> {
    if c.fail then None
    else if c.otherStatus then Some(Response(204, [], 0, 0, None, v.validator))
    else if range.Some? && !c.ignoreRange && (ifRange.None? || ifRange.value == v.validator) then
      var first, end := range.value.first, SliceEnd(range.value, |v.data|);
      if first >= end then None
      else
        var lo := PartFirst(first, end, c);
        var hi := PartEnd(lo, end, c);
        Some(Response(206, v.data[lo..hi], if c.hideLength then -1 else hi - lo, lo,
                      if c.hideTotal then None else Some(|v.data|), v.validator))
    else Some(Response(200, v.data, if c.hideLength then -1 else |v.data|, 0, None, v.validator))
  }

  /** The bytes of a response as they arrive, and the limit set on them, if any. */
  datatype Body = Body(pending: Bytes, limit: Option<nat>)

  datatype Ending = Fine | End | Dropped

  /** What a body can still give. */
  function Available(b: Body): Bytes {
    match b.limit
    case None => b.pending
    case Some(l) => if l < |b.pending| then b.pending[..l] else b.pending
  }

  function ChunkSize(b: Body, max: nat, c: Choice): (n: nat)
    ensures n <= max && n <= |Available(b)|
  {
    var n := if c.chunk < max then c.chunk else max;
    if n < |Available(b)| then n else |Available(b)|
  }

  /** One Read of a body: some of its bytes, and how it went.  The end comes only
      when nothing is left. */
  function ReadBody(b: Body, max: nat, c: Choice): (Body, Bytes, Ending) {
    var n := ChunkSize(b, max, c);
    var rest := Body(b.pending[n..], match b.limit case None => None case Some(l) => Some(l - n));
    if b.limit == Some(0) then (b, [], End)
    else if c.drop then (rest, b.pending[..n], Dropped)
    else if |rest.pending| == 0 && (n == 0 || c.endNow) then (rest, b.pending[..n], End)
    else (rest, b.pending[..n], Fine)
  }

  lemma ReadBodySpec(b: Body, max: nat, c: Choice)
    ensures var (rest, chunk, ending) := ReadBody(b, max, c);
            && Available(b) == chunk + Available(rest)
            && (ending == End ==> Available(rest) == [])
            && (b.limit.Some? <==> rest.limit.Some?)
            && (b.limit.Some? ==> |chunk| <= b.limit.value && rest.limit.value == b.limit.value - |chunk|)
            && |chunk| <= max
  {
    var n := ChunkSize(b, max, c);
    assert b.pending == b.pending[..n] + b.pending[n..];
    if b.limit.Some? && b.limit.value < |b.pending| {
      assert b.pending[..b.limit.value] == b.pending[..n] + b.pending[n..][..b.limit.value - n];
    }
  }

  /** What a client may rely on: the bytes of a 206 are bytes of the version that
      If-Range names, from within the range asked for, at the place that Content-Range
      says; not that they begin or end where the range does. */
  lemma PartialContent(v: Version, range: Option<Range>, ifRange: Option<string>, c: Choice, r: Response)
    requires Respond(v, range, ifRange, c) == Some(r) && r.status == 206
    ensures range.Some? && (ifRange.Some? ==> ifRange.value == v.validator)
    ensures var end := SliceEnd(range.value, |v.data|);
            && range.value.first <= r.first && r.body != [] && r.first + |r.body| <= end <= |v.data|
            && r.body == v.data[r.first..r.first + |r.body|]
  {
    var end := SliceEnd(range.value, |v.data|);
    var lo := PartFirst(range.value.first, end, c);
    assert r.body == v.data[lo..PartEnd(lo, end, c)];
  }
}
