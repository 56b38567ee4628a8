/** The reader of a byte range that resumes after dropped connections, as an object
    (blob/httpblob/httpblob.go:943-1003, 1101-1369). */
module RangeReader {
  import opened Strings
  import opened HttpServer
  import opened Answers
  import opened Reads
  import opened Tracking

  /** A remote object, whose content is replaced at any time. */
  class Server {
    const versions: seq<Version>
    const choices: nat -> Choice
    var current: nat
    var clock: nat

    constructor (versions: seq<Version>, choices: nat -> Choice)
      requires versions != [] && ValidatorsName(versions)
      ensures Valid() && this.versions == versions && this.choices == choices && current == clock == 0
    {
      this.versions, this.choices, current, clock := versions, choices, 0, 0;
    }

    ghost predicate Valid()
      reads this
    {
      current < |versions| && ValidatorsName(versions)
    }

    function GetNet(): Net {
      Net(versions, choices)
    }

    /** The next decision; the object may have been replaced by then. */
    method Next() returns (c: Choice)
      requires Valid()
      modifies this
      ensures Valid()
      ensures c == choices(old(clock)) && clock == old(clock) + 1 && current == Replaced(GetNet(), old(current), c)
    {
      c := choices(clock);
      clock := clock + 1;
      if current + c.replaced < |versions| {
        current := current + c.replaced;
      }
    }

    /** One request, with its retries. */
    method Do(range: Option<Range>, ifRange: Option<string>) returns (r: Option<Response>)
      requires Valid()
      modifies this
      ensures Valid()
      ensures clock == old(clock) + 1 && current == Replaced(GetNet(), old(current), choices(old(clock)))
      ensures r == Respond(versions[current], range, ifRange, choices(old(clock)))
    {
      var c := Next();
      r := Respond(versions[current], range, ifRange, c);
    }

    /** headObject, as far as the size goes. */
    method HeadObject() returns (size: Option<nat>)
      requires Valid()
      modifies this
      ensures Valid()
      ensures Head(current, clock, size) == HeadOf(GetNet(), old(current), old(clock))
    {
      hide Respond, Replaced, ValidatorsName;
      var c := Next();
      if c.fail {
        return None;
      }
      if !c.otherStatus && !c.hideLength {
        return Some(|versions[current].data|);
      }
      var r := Do(Some(Range(0, Some(0))), None);
      if r.None? {
        return if c.otherStatus then None else Some(0);
      }
      if r.value.total.Some? {
        return r.value.total;
      }
      return Some(if r.value.contentLength >= 0 then r.value.contentLength else 0);
    }
  }

  class Reader {
    const server: Server
    const live: bool          // false for a reader of no bytes, which has no bucket
    const validator: string

    var offset: nat           // position in the object of the next byte
    var remaining: int        // bytes still expected; negative if not known
    var resumes: nat
    var body: Body

    ghost const version: nat  // the version that is being read
    ghost const start: nat
    ghost const length: int
    ghost const expected: int // what remaining was at first
    ghost var delivered: Bytes
    ghost var attempts: nat   // how often a resume was tried, ever
    ghost var log: seq<Answer>

    constructor (server: Server, live: bool, validator: string, offset: nat, remaining: int, body: Body,
                 ghost version: nat, ghost length: int, ghost log: seq<Answer>)
      ensures this.server == server && this.live == live && this.validator == validator
      ensures this.version == version && start == offset && this.length == length && expected == remaining
      ensures delivered == []
      ensures GetView() == View(server.current, server.clock, offset, remaining, 0, body, 0, log)
    {
      this.server, this.live, this.validator := server, live, validator;
      this.offset, this.remaining, this.body, resumes := offset, remaining, body, 0;
      this.version, start, this.length, expected := version, offset, length, remaining;
      delivered, attempts, this.log := [], 0, log;
    }

    /** The content that is being read. */
    ghost function Data(): Bytes
      requires version < |server.versions|
    {
      server.versions[version].data
    }

    /** What the caller asked for, of that content. */
    ghost function Target(): Bytes
      requires version < |server.versions|
    {
      Slice(Data(), start, length)
    }

    ghost function GetView(): View
      reads this, server
    {
      View(server.current, server.clock, offset, remaining, resumes, body, attempts, log)
    }

    ghost predicate Valid()
      reads this, server
    {
      && server.Valid() && version < |server.versions|
      && (live ==> validator == server.versions[version].validator && length != 0)
      && resumes <= MAX_RESUMES && attempts <= 3 * |delivered| + resumes
      && Tracks(Data(), start, length, expected, GetView(), delivered)
    }

    /** Have the answers been such that all is well when the end is reported?  Each began
        where it was asked to, the last one went as far as it was asked to, and the size
        behind the last request was that of the content being read. */
    ghost predicate AllWell()
      requires version < |server.versions| && log != []
      reads this
    {
      && Aligned(log) && log[|log| - 1].upTo == log[|log| - 1].wanted
      && SizeRight(|Data()|, start, length, expected, log)
    }

    /** Read: some bytes, and then nothing, the end, or an error. */
    method Read(max: nat, cancelled: bool) returns (chunk: Bytes, ending: Ending)
      requires Valid()
      modifies this, server
      ensures Valid()
      ensures (GetView(), chunk, ending) == ReadOf(server.GetNet(), live, validator, old(GetView()), max, cancelled)
      // Every byte handed out is one of the content being read, whatever replaces it.
      ensures delivered == old(delivered) + chunk && |chunk| <= max
      ensures AreBytesAt(delivered, Data(), Places(log))
      // They are in order exactly if each answer that gave some began where it should.
      ensures Places(log) == Interval(start, |delivered|) <==> Aligned(log)
      ensures Aligned(log) ==> delivered <= Target()
      // The end means that all has been handed out exactly if moreover the last answer
      // went as far as it should.
      ensures (ending == End ==>
                 (Places(log) == Interval(start, Stop(|Data()|, start, length) - start) <==> AllWell()))
      ensures ending == End && AllWell() ==> delivered == Target()
      // Over the reader's life at most three requests for each byte and three more.
      ensures attempts <= 3 * (|delivered| + 1)
      // Of a positive length, what is read and what remains add up to it.
      ensures length > 0 ==> offset + remaining == start + length
    {
      hide ChunkOf, ResumeOf, Replaced, Tracks, Slice, Stop, Available, RangeHeader, Aligned, Places, Interval, AreBytesAt,
           ValidatorsName, SizeRight;
      ghost var net := server.GetNet();
      TracksSomething(this);
      while true
        invariant Valid() && delivered == old(delivered) && log != []
        invariant ReadOf(net, live, validator, old(GetView()), max, cancelled)
               == ReadOf(net, live, validator, GetView(), max, cancelled)
        decreases MAX_RESUMES - resumes
      {
        ghost var at := GetView();
        var c := server.Next();
        assert GetView() == Draw(net, at);
        TracksElsewhere(Data(), start, length, expected, at, GetView(), delivered);
        chunk, ending := ReadChunk(max, c);
        if ending != Dropped || !CanResume(cancelled) {
          WhatIsRead(this, ending);
          return;
        }
        var ok := Resume();
        if !ok || |chunk| > 0 {
          WhatIsRead(this, Fine);
          return chunk, if ok then Fine else ending;
        }
        TracksSomething(this);
      }
    }

    /** The body's Read, and the counting of what it gave. */
    method ReadChunk(max: nat, c: Choice) returns (chunk: Bytes, ending: Ending)
      requires Valid()
      modifies this
      ensures Valid() && delivered == old(delivered) + chunk && |chunk| <= max
      ensures log != [] && old(log) != [] && (GetView(), chunk, ending) == ChunkOf(old(GetView()), max, c)
      ensures chunk == [] ==> resumes == old(resumes)
      ensures ending == End ==> Available(body) == []
    {
      hide Tracks, Available, Given, ValidatorsName;
      TracksSomething(this);
      ChunkTracks(Data(), start, length, expected, GetView(), delivered, max, c);
      var (rest, got, how) := ReadBody(body, max, c);
      body, chunk, ending := rest, got, how;
      var n := |chunk|;
      if n > 0 {
        offset := offset + n;
        if remaining > 0 {
          remaining := remaining - n;
        }
        resumes := 0;
        log := Given(log, n);
      }
      delivered := delivered + chunk;
      TracksSomething(this);
    }

    predicate CanResume(cancelled: bool)
      reads this, server
      ensures CanResume(cancelled) == MayResume(live, validator, GetView(), cancelled)
    {
      live && !cancelled && remaining != 0 && resumes < MAX_RESUMES && validator != ""
    }

    /** resume: a new request for what has not been read yet. */
    method Resume() returns (ok: bool)
      requires Valid() && CanResume(false)
      modifies this, server
      ensures Valid() && delivered == old(delivered)
      ensures (GetView(), ok) == ResumeOf(server.GetNet(), validator, old(GetView()))
      ensures resumes == old(resumes) + 1
    {
      hide Respond, Tracks, SliceEnd, Available, ValidatorsName, Replaced, RangeHeader, Answers.Given;
      ghost var net, at := server.GetNet(), GetView();
      resumes := resumes + 1;
      attempts := attempts + 1;
      var range := RangeHeader(offset, remaining);
      var r := server.Do(range, Some(validator));
      if r.None? || r.value.status != 206 {
        TracksElsewhere(Data(), start, length, expected, at, GetView(), delivered);
        return false;
      }
      ghost var data := server.versions[server.current].data;
      PartialContent(server.versions[server.current], range, Some(validator), net.choices(at.clock), r.value);
      SameContent(server.versions, version, server.current);
      body := Body(r.value.body, if remaining > 0 then Some(remaining) else None);
      log := log + [Answer(offset, SliceEnd(range.value, |data|), r.value.first, r.value.first + |Available(body)|, 0)];
      ResumeTracks(net, validator, Data(), start, length, expected, at, delivered);
      return true;
    }
  }

  lemma TracksSomething(r: Reader)
    requires r.Valid()
    ensures r.log != []
  {
  }

  /** Only the reader's fields matter. */
  lemma TracksElsewhere(data: Bytes, start: nat, length: int, expected: int, v: View, w: View, delivered: Bytes)
    requires Tracks(data, start, length, expected, v, delivered)
    requires w.offset == v.offset && w.remaining == v.remaining && w.body == v.body && w.log == v.log
    ensures Tracks(data, start, length, expected, w, delivered)
  {
    hide Chained, Places, AreBytesAt, Holding, AnswersOk, RemainingOk;
  }

  lemma WhatIsRead(r: Reader, ending: Ending)
    requires r.Valid() && (ending == End ==> Available(r.body) == [])
    ensures r.log != [] && AreBytesAt(r.delivered, r.Data(), Places(r.log))
    ensures Places(r.log) == Interval(r.start, |r.delivered|) <==> Aligned(r.log)
    ensures Aligned(r.log) ==> r.delivered <= r.Target()
    ensures (ending == End ==>
               (Places(r.log) == Interval(r.start, Stop(|r.Data()|, r.start, r.length) - r.start) <==> r.AllWell()))
    ensures ending == End && r.AllWell() ==> r.delivered == r.Target()
    ensures r.length > 0 ==> r.offset + r.remaining == r.start + r.length
  {
    hide Chained, Places, AreBytesAt, Interval, Aligned, Stop, Slice, Available, SizeRight, AnswersOk, Holding;
    InOrder(r.Data(), r.start, r.length, r.expected, r.GetView(), r.delivered);
    if ending == End {
      AtTheEnd(r.Data(), r.start, r.length, r.expected, r.GetView(), r.delivered);
    }
  }

  /** sliceBody: a 206 is taken as it is; of a 200 the first bytes are thrown away. */
  method SliceBody(resp: Response, offset: nat, length: int, c: Choice) returns (body: Option<Body>, size: int)
    ensures body.Some? <==> Accepts(resp, offset, c)
    ensures body.Some? ==> body.value == BodyOf(resp, offset, length)
    ensures body.Some? ==> size == SizeOf(resp, offset)
  {
    size := resp.contentLength;
    var rest := resp.body;
    if resp.status == 206 {
      if resp.total.Some? {
        size := resp.total.value;
      } else if size >= 0 {
        size := offset + size;
      }
    } else if resp.status == 200 {
      if offset > 0 {
        if c.drop || offset > |resp.body| {
          return None, size;
        }
        rest := resp.body[offset..];
      }
    } else {
      return None, size;
    }
    return Some(Body(rest, if length > 0 then Some(length) else None)), size;
  }

  /** NewRangeReader. */
  method NewRangeReader(server: Server, offset: int, length: int) returns (r: Reader?)
    requires server.Valid()
    modifies server
    ensures server.Valid()
    ensures r != null <==> OpenOf(server.GetNet(), old(server.current), old(server.clock), offset, length).Some?
    ensures (r != null ==>
               && fresh(r) && r.server == server && r.Valid()
               && r.start == offset && r.length == length && r.delivered == [] && r.expected == r.remaining
               && Opened(r.GetView(), r.version, r.live, r.validator)
                  == OpenOf(server.GetNet(), old(server.current), old(server.clock), offset, length).value)
  {
    hide Respond, RangeHeader, Replaced, Tracks, HeadOf, Available, Stop, Accepts, BodyOf, SizeOf, ValidatorsName;
    ghost var net, current, clock := server.GetNet(), server.current, server.clock;
    if offset < 0 {
      return null;
    }
    if length == 0 {
      var head := server.HeadObject();
      if head.None? {
        return null;
      }
      OpenTracks(net, current, clock, offset, 0);
      ghost var none := [Answer(offset, offset, offset, offset, 0)];
      r := new Reader(server, false, "", offset, 0, Body([], None), server.current, 0, none);
      return;
    }
    var range := RangeHeader(offset, length);
    var resp := server.Do(range, None);
    if resp.None? {
      return null;
    }
    ghost var version := server.current;
    var c2 := server.Next();
    var body, size := SliceBody(resp.value, offset, length, c2);
    if body.None? {
      return null;
    }
    if size < 0 {
      var head := server.HeadObject();
      size := if head.Some? then head.value else 0;
    }
    var remaining := -1;
    if length > 0 {
      remaining := length;
    } else if size >= 0 {
      remaining := size - offset;
    }
    OpenTracks(net, current, clock, offset, length);
    ghost var log := [FirstAnswer(server.versions[version].data, resp.value, offset, length, body.value)];
    r := new Reader(server, true, resp.value.validator, offset, remaining, body.value, version, length, log);
  }
  lemma WholeIsAligned(log: seq<Answer>)
    requires log != [] && AllWhole(log)
    ensures Aligned(log) && log[|log| - 1].upTo == log[|log| - 1].wanted
  {
  }

  /** Opening a reader and reading from it again and again, with buffers of any sizes,
      until something else than bytes comes: io.ReadAll.  Against a server that sends
      every range in full, through any replacements, drops and resumes, what is read is at
      each moment the beginning of the slice of one content; and if the end is reported it
      is the whole slice, exactly if the size behind the last request was right, as it is
      if a length is given, no size was expected, or one not below that of the content. */
  method ReadAll(server: Server, offset: int, length: int, asks: seq<(nat, bool)>)
      returns (r: Reader?, bytes: Bytes, ending: Ending)
    requires server.Valid() && forall i: nat :: server.choices(i).skip == 0 && server.choices(i).cut == 0
    modifies server
    ensures server.Valid()
    ensures r != null <==> OpenOf(server.GetNet(), old(server.current), old(server.clock), offset, length).Some?
    ensures r == null ==> bytes == []
    ensures (r != null ==>
               && fresh(r) && r.server == server && r.Valid() && r.start == offset && r.length == length
               && bytes == r.delivered && bytes <= r.Target()
               && Places(r.log) == Interval(r.start, |bytes|))
    ensures (r != null && ending == End ==>
               && r.log != []
               && (Places(r.log) == Interval(r.start, Stop(|r.Data()|, r.start, length) - r.start)
                   <==> SizeRight(|r.Data()|, r.start, length, r.expected, r.log))
               && (length >= 0 || r.expected <= 0 || r.start + r.expected >= |r.Data()| ==> bytes == r.Target())
               && (length >= 0 || TellsSize(offset, length, server.choices(old(server.clock))) ==>
                     && bytes == r.Target()
                     && bytes == if offset >= |r.Data()| then []
                                 else if length < 0 || offset + length >= |r.Data()| then r.Data()[offset..]
                                 else r.Data()[offset..offset + length]))
  {
    hide Tracks, Aligned, Places, Interval, AreBytesAt, Slice, Stop, AllWhole, WholeRanges, ValidatorsName;
    hide ReadOf, OpenOf, TellsSize;
    ghost var net := server.GetNet();
    ghost var current, clock := server.current, server.clock;
    WholeMeans(net);
    bytes, ending := [], Fine;
    r := NewRangeReader(server, offset, length);
    if r == null {
      return;
    }
    OpenWhole(net, current, clock, offset, length);
    if length != 0 {
      ExpectedIs(net, current, clock, offset, length);
    }
    TracksSomething(r);
    WholeIsAligned(r.log);
    WhatIsRead(r, Fine);
    var i := 0;
    while i < |asks| && ending == Fine
      invariant 0 <= i <= |asks| && server.Valid() && r.Valid() && bytes == r.delivered
      invariant r.log != [] && AllWhole(r.log)
      invariant bytes <= r.Target() && Places(r.log) == Interval(r.start, |bytes|)
      invariant (ending == End ==>
                   && (Places(r.log) == Interval(r.start, Stop(|r.Data()|, r.start, length) - r.start) <==> r.AllWell())
                   && (r.AllWell() ==> bytes == r.Target()))
    {
      ReadWhole(net, r.live, r.validator, r.GetView(), asks[i].0, asks[i].1);
      var chunk;
      chunk, ending := r.Read(asks[i].0, asks[i].1);
      WholeIsAligned(r.log);
      bytes, i := bytes + chunk, i + 1;
    }
    WholeIsAligned(r.log);
    SliceIs(r.Data(), r.start, length);
  }
}
