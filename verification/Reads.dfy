/** Opening a reader, reading and resuming, as functions of what the server decides
    (blob/httpblob/httpblob.go:943-1003, 1101-1367). */
module Reads {
  import opened Strings
  import opened HttpServer
  import opened Answers

  const MAX_RESUMES := 3

  /** Where the slice of an object of n bytes ends; a negative length means at its end. */
  function Stop(n: nat, offset: nat, length: int): (stop: nat)
    ensures offset <= stop && (offset <= n ==> stop <= n)
  {
    if offset >= n || length == 0 then offset
    else if length < 0 || offset + length >= n then n
    else offset + length
  }

  /** The bytes that a caller asks for. */
  function Slice(data: Bytes, offset: nat, length: int): Bytes {
    if offset >= |data| then [] else data[offset..Stop(|data|, offset, length)]
  }

  lemma SliceIs(data: Bytes, offset: nat, length: int)
    ensures Slice(data, offset, length)
         == if offset >= |data| then [] else if length < 0 || offset + length >= |data| then data[offset..]
            else data[offset..offset + length]
  {
  }

  /** rangeHeader. */
  function RangeHeader(offset: nat, length: int): Option<Range> {
    if length > 0 then Some(Range(offset, Some(offset + length - 1)))
    else if offset > 0 then Some(Range(offset, None))
    else None
  }

  /** The server's part of a run: the contents that the object has one after the other,
      and all that the server will decide. */
  datatype Net = Net(versions: seq<Version>, choices: nat -> Choice)

  /** How far a run has come: the current version, the decisions made, the reader's
      fields, the resumes that it has ever tried, and the answers that it has accepted. */
  datatype View = View(
    current: nat, clock: nat,
    offset: nat, remaining: int, resumes: nat, body: Body,
    attempts: nat, log: seq<Answer>)

  /** The version that is current after a decision. */
  function Replaced(net: Net, current: nat, c: Choice): nat {
    if current + c.replaced < |net.versions| then current + c.replaced else current
  }

  function Draw(net: Net, v: View): View {
    v.(clock := v.clock + 1, current := Replaced(net, v.current, net.choices(v.clock)))
  }

  // ---- opening ----

  datatype Head = Head(current: nat, clock: nat, size: Option<nat>)

  /** headObject: HEAD, and if it is refused or does not tell the size a GET of one
      byte.  None if it fails, and 0 if the size cannot be learned. */
  function HeadOf(net: Net, current: nat, clock: nat): (h: Head)
    requires current < |net.versions|
    ensures h.current < |net.versions|
  {
    var c := net.choices(clock);
    var now := Replaced(net, current, c);
    if c.fail then Head(now, clock + 1, None)
    else if !c.otherStatus && !c.hideLength then Head(now, clock + 1, Some(|net.versions[now].data|))
    else
      var c2 := net.choices(clock + 1);
      var later := Replaced(net, now, c2);
      match Respond(net.versions[later], Some(Range(0, Some(0))), None, c2)
      case None => Head(later, clock + 2, if c.otherStatus then None else Some(0))
      case Some(r) =>
        Head(later, clock + 2, Some(if r.total.Some? then r.total.value
                                    else if r.contentLength >= 0 then r.contentLength else 0))
  }

  /** What sliceBody takes: a 206 as it is, and a 200 that has the bytes which are thrown
      away. */
  predicate Accepts(resp: Response, offset: nat, c: Choice) {
    resp.status == 206 || (resp.status == 200 && (offset == 0 || (!c.drop && offset <= |resp.body|)))
  }

  function BodyOf(resp: Response, offset: nat, length: int): Body
    requires resp.status == 200 ==> offset <= |resp.body|
  {
    Body(if resp.status == 200 then resp.body[offset..] else resp.body, if length > 0 then Some(length) else None)
  }

  /** The size of the object, as sliceBody reports it; negative if it is not known. */
  function SizeOf(resp: Response, offset: nat): int {
    if resp.status == 206 then
      if resp.total.Some? then resp.total.value
      else if resp.contentLength >= 0 then offset + resp.contentLength
      else resp.contentLength
    else resp.contentLength
  }

  function FirstAnswer(data: Bytes, resp: Response, offset: nat, length: int, body: Body): Answer {
    var from := if resp.status == 206 then resp.first else offset;
    Answer(offset, Stop(|data|, offset, length), from, from + |Available(body)|, 0)
  }

  /** A reader as it is made.  One of no bytes is not live: it cannot resume. */
  datatype Opened = Opened(view: View, version: nat, live: bool, validator: string)

  function OpenOf(net: Net, current: nat, clock: nat, offset: int, length: int): Option<Opened>
    requires current < |net.versions|
  {
    if offset < 0 then None
    else if length == 0 then
      var h := HeadOf(net, current, clock);
      if h.size.None? then None
      else
        Some(Opened(View(h.current, h.clock, offset, 0, 0, Body([], None), 0, [Answer(offset, offset, offset, offset, 0)]),
                    h.current, false, ""))
    else
      var c := net.choices(clock);
      var now := Replaced(net, current, c);
      var v := net.versions[now];
      var r := Respond(v, RangeHeader(offset, length), None, c);
      var c2 := net.choices(clock + 1);
      if r.None? || !Accepts(r.value, offset, c2) then None
      else
        var resp := r.value;
        var body := BodyOf(resp, offset, length);
        var later := Replaced(net, now, c2);
        var size := SizeOf(resp, offset);
        var h := if size >= 0 then Head(later, clock + 2, Some(size)) else HeadOf(net, later, clock + 2);
        var remaining := if length > 0 then length else (if h.size.Some? then h.size.value else 0) - offset;
        Some(Opened(View(h.current, h.clock, offset, remaining, 0, body, 0, [FirstAnswer(v.data, resp, offset, length, body)]),
                    now, true, resp.validator))
  }

  // ---- when a reader is made, and what it takes the size to be ----

  /** A range is asked for unless everything is, and so the first answer is a part. */
  predicate IsPart(offset: int, length: int, c: Choice) {
    (length > 0 || offset > 0) && !c.ignoreRange
  }

  /** A reader of some bytes is made if and only if the offset is not negative, the request
      gets through, and the answer is a part, for which there must be a byte at the offset,
      or the whole, of which the bytes before the offset can be read. */
  lemma OpensIff(net: Net, current: nat, clock: nat, offset: int, length: int)
    requires current < |net.versions| && length != 0
    ensures var c := net.choices(clock);
            var n := |net.versions[Replaced(net, current, c)].data|;
            OpenOf(net, current, clock, offset, length).Some?
            <==> offset >= 0 && !c.fail && !c.otherStatus
                 && (if IsPart(offset, length, c) then offset < n
                     else offset == 0 || (offset <= n && !net.choices(clock + 1).drop))
  {
    hide HeadOf, PartFirst, PartEnd;
  }

  /** And one of no bytes if and only if the HEAD is answered, or the GET of one byte in
      its stead when it is refused. */
  lemma OpensEmptyIff(net: Net, current: nat, clock: nat, offset: int)
    requires current < |net.versions|
    ensures var c, c2 := net.choices(clock), net.choices(clock + 1);
            var later := Replaced(net, Replaced(net, current, c), c2);
            OpenOf(net, current, clock, offset, 0).Some?
            <==> offset >= 0 && !c.fail
                 && (c.otherStatus ==> !c2.fail && (c2.otherStatus || c2.ignoreRange || net.versions[later].data != []))
  {
  }

  /** The first answer tells how large the object is: the whole with its length, or a part
      with the total, or with its length if it is all that was asked for. */
  predicate TellsSize(offset: int, length: int, c: Choice) {
    if IsPart(offset, length, c) then !c.hideTotal || (!c.hideLength && c.skip == 0 && c.cut == 0)
    else !c.hideLength
  }

  /** What a reader expects: the length that it is asked for; else, if the first answer
      tells, all bytes of the answering content from the offset on. */
  lemma ExpectedIs(net: Net, current: nat, clock: nat, offset: int, length: int)
    requires current < |net.versions| && OpenOf(net, current, clock, offset, length).Some? && length != 0
    ensures var o, c := OpenOf(net, current, clock, offset, length).value, net.choices(clock);
            && o.version == Replaced(net, current, c) < |net.versions|
            && (length > 0 ==> o.view.remaining == length)
            && (length < 0 && TellsSize(offset, length, c) ==>
                  o.view.remaining == |net.versions[o.version].data| - offset)
  {
    hide HeadOf;
  }

  // ---- reading ----

  predicate MayResume(live: bool, validator: string, v: View, cancelled: bool) {
    live && !cancelled && v.remaining != 0 && v.resumes < MAX_RESUMES && validator != ""
  }

  /** The body's Read, and the counting of what it gave. */
  function ChunkOf(v: View, max: nat, c: Choice): (View, Bytes, Ending)
    requires v.log != []
  {
    var (rest, chunk, how) := ReadBody(v.body, max, c);
    if |chunk| > 0 then
      (v.(body := rest, offset := v.offset + |chunk|, resumes := 0,
          remaining := if v.remaining > 0 then v.remaining - |chunk| else v.remaining,
          log := Given(v.log, |chunk|)), chunk, how)
    else (v.(body := rest), chunk, how)
  }

  /** One resume; false if the answer is not a 206. */
  function ResumeOf(net: Net, validator: string, v: View): (View, bool)
    requires v.current < |net.versions|
  {
    var v1 := Draw(net, v.(resumes := v.resumes + 1, attempts := v.attempts + 1));
    var data := net.versions[v1.current].data;
    var range := RangeHeader(v.offset, v.remaining);
    var r := Respond(net.versions[v1.current], range, Some(validator), net.choices(v.clock));
    if r.None? || r.value.status != 206 then (v1, false)
    else
      var body := Body(r.value.body, if v.remaining > 0 then Some(v.remaining) else None);
      var wanted := if range.Some? then SliceEnd(range.value, |data|) else |data|;
      var answer := Answer(v.offset, wanted, r.value.first, r.value.first + |Available(body)|, 0);
      (v1.(body := body, log := v.log + [answer]), true)
  }

  /** One Read of the reader. */
  function ReadOf(net: Net, live: bool, validator: string, v: View, max: nat, cancelled: bool): (r: (View, Bytes, Ending))
    requires v.current < |net.versions| && v.resumes <= MAX_RESUMES && v.log != []
    ensures r.0.current < |net.versions| && r.0.resumes <= MAX_RESUMES && r.0.log != []
    decreases MAX_RESUMES - v.resumes
  {
    var (v1, chunk, how) := ChunkOf(Draw(net, v), max, net.choices(v.clock));
    if how != Dropped || !MayResume(live, validator, v1, cancelled) then (v1, chunk, how)
    else
      var (v2, ok) := ResumeOf(net, validator, v1);
      if !ok then (v2, chunk, how)
      else if |chunk| > 0 then (v2, chunk, Fine)
      else ReadOf(net, live, validator, v2, max, cancelled)
  }

  /** A resume goes on exactly if the request gets through, the range is honoured and
      not past the end, and the version has the validator of the one being read. */
  lemma ResumesIff(net: Net, validator: string, v: View)
    requires v.current < |net.versions|
    ensures var c := net.choices(v.clock);
            var now := net.versions[Replaced(net, v.current, c)];
            var range := RangeHeader(v.offset, v.remaining);
            ResumeOf(net, validator, v).1
            <==> !c.fail && !c.otherStatus && !c.ignoreRange && now.validator == validator
                 && range.Some? && v.offset < SliceEnd(range.value, |now.data|)
  {
  }

  /** A Read makes at most one request for each resume that is left, and one more if it
      delivers bytes, which set the count back.  So it keeps to maxResumes if an earlier
      Read has already tried one in vain, or if it delivers nothing. */
  lemma {:induction false} RequestsOfRead(net: Net, live: bool, validator: string, v: View, max: nat, cancelled: bool)
    requires v.current < |net.versions| && v.resumes <= MAX_RESUMES && v.log != []
    ensures var (v', chunk, _) := ReadOf(net, live, validator, v, max, cancelled);
            v'.attempts - v.attempts <= MAX_RESUMES - v.resumes + if chunk == [] then 0 else 1
    decreases MAX_RESUMES - v.resumes
  {
    hide Respond, ReadBody, RangeHeader;
    var (v1, chunk, how) := ChunkOf(Draw(net, v), max, net.choices(v.clock));
    if how == Dropped && MayResume(live, validator, v1, cancelled) {
      var (v2, ok) := ResumeOf(net, validator, v1);
      if ok && |chunk| == 0 {
        RequestsOfRead(net, live, validator, v2, max, cancelled);
      }
    }
  }

  /** A Read during which the connection holds gives bytes or the end, and no error. */
  lemma ReadGoesOn(net: Net, live: bool, validator: string, v: View, max: nat, cancelled: bool)
    requires v.current < |net.versions| && v.resumes <= MAX_RESUMES && v.log != []
    requires !net.choices(v.clock).drop
    ensures var (v', chunk, how) := ReadOf(net, live, validator, v, max, cancelled);
            && how != Dropped && v'.attempts == v.attempts
            && (max > 0 && net.choices(v.clock).chunk > 0 ==> chunk != [] || how == End)
  {
  }
}
