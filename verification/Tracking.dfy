/** What a reader's fields and the answers that it has accepted have to do with the
    object that is being read (blob/httpblob/httpblob.go:1268-1367). */
module Tracking {
  import opened Strings
  import opened HttpServer
  import opened Answers
  import opened Reads

  /** What the body can still give is what the last answer still holds. */
  predicate Holding(data: Bytes, body: Body, last: Answer) {
    && last.from + last.given <= last.upTo
    && (last.upTo <= |data| || last.from == last.upTo)
    && Available(body) == if last.upTo <= |data| then data[last.from + last.given..last.upTo] else []
  }

  /** How far a resumed request goes: for a positive length to its end, and else as far
      as the size says, as long as the reader has not come that far. */
  function Wanted(n: nat, start: nat, length: int, expected: int, asked: nat): nat {
    if length < 0 && expected > 0 && asked < start + expected < n then start + expected else Stop(n, start, length)
  }

  predicate AnswerOk(n: nat, start: nat, length: int, expected: int, a: Answer, first: bool) {
    && a.wanted == (if first then Stop(n, start, length) else Wanted(n, start, length, expected, a.asked))
    && a.asked <= a.from && a.upTo <= a.wanted
    && (a.from == a.upTo ==> first && a.from == a.asked)
    && (!first && length < 0 && expected > 0 ==> a.asked != start + expected)
    && (!first ==> start < n)
  }

  predicate AnswersOk(n: nat, start: nat, length: int, expected: int, log: seq<Answer>) {
    forall i :: 0 <= i < |log| ==> AnswerOk(n, start, length, expected, log[i], i == 0)
  }

  /** remaining counts down from what was expected; if more comes than the size has said,
      it turns negative, that is unknown, or stays at zero. */
  predicate RemainingOk(start: nat, length: int, expected: int, offset: nat, remaining: int, body: Body) {
    && (length > 0 ==> remaining >= 0 && body.limit == Some(remaining) && offset + remaining == start + length)
    && (length < 0 && expected > 0 ==>
          if remaining > 0 then offset + remaining == start + expected
          else offset >= start + expected + if remaining < 0 then 1 else 0)
    && (length < 0 && expected <= 0 ==> remaining == expected)
    && (length == 0 ==> remaining == 0)
  }

  predicate Tracks(data: Bytes, start: nat, length: int, expected: int, v: View, delivered: Bytes) {
    && v.log != [] && Chained(start, v.log)
    && AreBytesAt(delivered, data, Places(v.log))
    && v.offset == start + |delivered|
    && Holding(data, v.body, v.log[|v.log| - 1])
    && AnswersOk(|data|, start, length, expected, v.log)
    && RemainingOk(start, length, expected, v.offset, v.remaining, v.body)
  }

  // ---- the three ways in which it changes ----

  lemma ChunkTracks(data: Bytes, start: nat, length: int, expected: int, v: View, delivered: Bytes, max: nat, c: Choice)
    requires Tracks(data, start, length, expected, v, delivered)
    ensures var (v', chunk, how) := ChunkOf(v, max, c);
            && Tracks(data, start, length, expected, v', delivered + chunk)
            && |chunk| <= max && (how == End ==> Available(v'.body) == [])
  {
    hide Available, AnswerOk, Chained, Places, AreBytesAt, Given, Interval;
    ReadBodySpec(v.body, max, c);
    var (v', chunk, how) := ChunkOf(v, max, c);
    var last := v.log[|v.log| - 1];
    ChunkHolding(data, v.body, last, max, c);
    if |chunk| > 0 {
      GivenMore(start, v.log, |chunk|);
      MoreBytes(delivered, data, Places(v.log), chunk, last.from + last.given);
      GivenOk(|data|, start, length, expected, v.log, |chunk|);
      GivenLast(v.log, |chunk|);
    } else {
      assert delivered + chunk == delivered;
    }
  }

  lemma GivenLast(log: seq<Answer>, n: nat)
    requires log != []
    ensures Given(log, n) != []
    ensures Given(log, n)[|Given(log, n)| - 1] == log[|log| - 1].(given := log[|log| - 1].given + n)
  {
  }

  lemma ChunkHolding(data: Bytes, body: Body, last: Answer, max: nat, c: Choice)
    requires Holding(data, body, last)
    ensures var (rest, chunk, _) := ReadBody(body, max, c);
            && Holding(data, rest, last.(given := last.given + |chunk|))
            && (|chunk| > 0 ==>
                  && last.from + last.given + |chunk| <= |data|
                  && chunk == data[last.from + last.given..last.from + last.given + |chunk|])
  {
    hide Available, ReadBody;
    ReadBodySpec(body, max, c);
    var (rest, chunk, _) := ReadBody(body, max, c);
    var all := Available(body);
    assert chunk == all[..|chunk|] && Available(rest) == all[|chunk|..];
  }

  lemma GivenOk(n: nat, start: nat, length: int, expected: int, log: seq<Answer>, k: nat)
    requires log != [] && AnswersOk(n, start, length, expected, log)
    ensures AnswersOk(n, start, length, expected, Given(log, k))
  {
    assert AnswerOk(n, start, length, expected, log[|log| - 1], |log| == 1);
    forall i | 0 <= i < |log|
      ensures AnswerOk(n, start, length, expected, Given(log, k)[i], i == 0)
    {
      assert AnswerOk(n, start, length, expected, log[i], i == 0);
    }
  }

  lemma ResumeTracks(net: Net, validator: string, data: Bytes, start: nat, length: int, expected: int, v: View,
                     delivered: Bytes)
    requires v.current < |net.versions| && Tracks(data, start, length, expected, v, delivered)
    requires v.remaining != 0 && length != 0
    requires ResumeOf(net, validator, v).1
    requires net.versions[ResumeOf(net, validator, v).0.current].data == data
    ensures Tracks(data, start, length, expected, ResumeOf(net, validator, v).0, delivered)
  {
    hide Respond, Chained, Places, AreBytesAt, Replaced, Interval, AnswersOk, SliceEnd, Available;
    ReplacedBound(net, v.current, net.choices(v.clock));
    SamePlaces(delivered, data, v.log);
    var (v', _) := ResumeOf(net, validator, v);
    var c := net.choices(v.clock);
    var range := RangeHeader(v.offset, v.remaining);
    var r := Respond(net.versions[v'.current], range, Some(validator), c).value;
    PartialContent(net.versions[v'.current], range, Some(validator), c, r);
    var a := v'.log[|v'.log| - 1];
    assert v'.log == v.log + [a];
    ChainedSnoc(start, v.log, a);
    PlacesSnoc(v.log, a);
    NoInterval(a.from, 0);
    assert Places(v.log) + [] == Places(v.log);
    BodyHolds(data, r, v.remaining, a);
    ResumedWants(|data|, start, length, expected, v.offset, v.remaining, v.body);
    AnswersSnoc(|data|, start, length, expected, v.log, a);
  }

  lemma AnswersSnoc(n: nat, start: nat, length: int, expected: int, log: seq<Answer>, a: Answer)
    requires log != [] && AnswersOk(n, start, length, expected, log) && AnswerOk(n, start, length, expected, a, false)
    ensures AnswersOk(n, start, length, expected, log + [a])
  {
    hide AnswerOk;
  }

  /** The body of a partial response, cut off at what is still expected. */
  lemma BodyHolds(data: Bytes, r: Response, remaining: int, a: Answer)
    requires r.body != [] && r.first + |r.body| <= |data| && r.body == data[r.first..r.first + |r.body|]
    requires a.from == r.first && a.given == 0 && remaining != 0
    requires a.upTo == a.from + |Available(Body(r.body, if remaining > 0 then Some(remaining) else None))|
    ensures Holding(data, Body(r.body, if remaining > 0 then Some(remaining) else None), a) && a.from < a.upTo
    ensures a.upTo <= r.first + |r.body|
  {
    assert remaining > 0 && remaining < |r.body| ==> r.body[..remaining] == data[r.first..r.first + remaining];
  }

  /** A resumed request asks for what is wanted. */
  lemma ResumedWants(n: nat, start: nat, length: int, expected: int, offset: nat, remaining: int, body: Body)
    requires RemainingOk(start, length, expected, offset, remaining, body) && remaining != 0 && length != 0 && start <= offset
    requires RangeHeader(offset, remaining).Some? && offset < SliceEnd(RangeHeader(offset, remaining).value, n)
    ensures SliceEnd(RangeHeader(offset, remaining).value, n) == Wanted(n, start, length, expected, offset)
    ensures start < n && (length < 0 && expected > 0 ==> offset != start + expected)
  {
  }

  lemma OpenTracks(net: Net, current: nat, clock: nat, offset: int, length: int)
    requires current < |net.versions| && OpenOf(net, current, clock, offset, length).Some?
    ensures var o := OpenOf(net, current, clock, offset, length).value;
            && o.version < |net.versions| && o.view.current < |net.versions|
            && o.view.offset == offset >= 0 && o.view.resumes == o.view.attempts == 0
            && (o.live <==> length != 0) && (o.live ==> o.validator == net.versions[o.version].validator)
            && Tracks(net.versions[o.version].data, offset, length, o.view.remaining, o.view, [])
  {
    hide Respond, HeadOf, Chained, Places, AreBytesAt, Replaced, Interval, AnswersOk, Available, Stop, Accepts;
    var o := OpenOf(net, current, clock, offset, length).value;
    ReplacedBound(net, current, net.choices(clock));
    var data := net.versions[o.version].data;
    StartChained(offset, o.view.log[0]);
    if length != 0 {
      var c := net.choices(clock);
      var resp := Respond(net.versions[o.version], RangeHeader(offset, length), None, c).value;
      ReplacedBound(net, o.version, net.choices(clock + 1));
      FirstHolds(net.versions[o.version], offset, length, c, net.choices(clock + 1), resp);
    } else {
      NothingHolds(data, offset, o.view.remaining);
    }
    FirstOk(|data|, offset, length, o.view.remaining, o.view.log);
  }

  lemma ReplacedBound(net: Net, current: nat, c: Choice)
    requires current < |net.versions|
    ensures Replaced(net, current, c) < |net.versions|
  {
  }

  lemma StartChained(start: nat, a: Answer)
    requires a.asked == start && a.given == 0
    ensures Chained(start, [a]) && Places([a]) == [] && forall data: Bytes :: AreBytesAt([], data, [])
  {
    assert [a][..0] == [];
    assert Interval(a.from, 0) == [];
    assert Places([a][..0]) == [];
  }

  lemma FirstOk(n: nat, start: nat, length: int, expected: int, log: seq<Answer>)
    requires |log| == 1 && AnswerOk(n, start, length, expected, log[0], true)
    ensures AnswersOk(n, start, length, expected, log)
  {
    hide AnswerOk;
  }

  lemma NothingHolds(data: Bytes, offset: nat, expected: int)
    ensures var a := Answer(offset, offset, offset, offset, 0);
            && Holding(data, Body([], None), a) && AnswerOk(|data|, offset, 0, expected, a, true)
  {
  }

  /** The first response: a 200 gives the whole slice, a 206 a part of it. */
  lemma FirstHolds(v: Version, offset: nat, length: int, c: Choice, c2: Choice, resp: Response)
    requires Respond(v, RangeHeader(offset, length), None, c) == Some(resp) && length != 0 && Accepts(resp, offset, c2)
    ensures var body := BodyOf(resp, offset, length);
            var a := FirstAnswer(v.data, resp, offset, length, body);
            && Holding(v.data, body, a)
            && forall expected :: AnswerOk(|v.data|, offset, length, expected, a, true)
    ensures resp.validator == v.validator && resp.contentLength >= -1
  {
    var body := BodyOf(resp, offset, length);
    var a := FirstAnswer(v.data, resp, offset, length, body);
    if resp.status == 206 {
      PartialContent(v, RangeHeader(offset, length), None, c, resp);
      BodyHolds(v.data, resp, if length > 0 then length else -1, a);
    } else {
      assert resp.body == v.data && body.pending == v.data[offset..];
      assert length > 0 && length < |body.pending| ==> body.pending[..length] == v.data[offset..offset + length];
    }
  }

  // ---- what it says ----

  /** The bytes handed out are in order exactly if the answers are aligned, and then they
      are the first ones of the slice. */
  lemma InOrder(data: Bytes, start: nat, length: int, expected: int, v: View, delivered: Bytes)
    requires Tracks(data, start, length, expected, v, delivered)
    ensures Places(v.log) == Interval(start, |delivered|) <==> Aligned(v.log)
    ensures Aligned(v.log) ==> delivered <= Slice(data, start, length)
  {
    hide Chained, Places, AreBytesAt, Interval, Available, Aligned, Stop;
    InOrderIffAligned(start, v.log);
    SamePlaces(delivered, data, v.log);
    if Aligned(v.log) {
      BytesInOrder(delivered, data, start);
      WithinStop(data, start, length, expected, v, delivered);
      if delivered != [] {
        var stop := Stop(|data|, start, length);
        assert data[start..stop][..|delivered|] == data[start..start + |delivered|];
      }
    }
  }

  lemma SamePlaces(bytes: Bytes, data: Bytes, log: seq<Answer>)
    requires AreBytesAt(bytes, data, Places(log))
    ensures |Places(log)| == |bytes|
  {
    hide Places;
  }

  lemma WithinStop(data: Bytes, start: nat, length: int, expected: int, v: View, delivered: Bytes)
    requires Tracks(data, start, length, expected, v, delivered) && Aligned(v.log)
    ensures start + |delivered| <= Stop(|data|, start, length)
  {
    hide Places, AreBytesAt, Interval, Available;
    var last := v.log[|v.log| - 1];
    var front := v.log[..|v.log| - 1];
    LastAsked(start, v.log);
    PlacesSnoc(front, last);
    assert v.log == front + [last];
    IntervalLength(last.from, last.given);
    SamePlaces(delivered, data, v.log);
    assert AnswerOk(|data|, start, length, expected, last, |v.log| == 1);
    assert last.wanted <= Stop(|data|, start, length);
  }

  /** Is the last request right?  The first one is; a resumed one is if the caller gave a
      length, if no size was expected, if it is not below the size of this version, or
      if more has come already than it said. */
  predicate SizeRight(n: nat, start: nat, length: int, expected: int, log: seq<Answer>)
    requires log != []
  {
    |log| == 1 || length >= 0 || expected <= 0 || start + expected >= n || log[|log| - 1].asked > start + expected
  }

  /** When the end is reported, the slice has been handed out, all of it and in order, if
      and only if the answers are aligned, the last one goes as far as it was asked to,
      and the last request was right. */
  lemma AtTheEnd(data: Bytes, start: nat, length: int, expected: int, v: View, delivered: Bytes)
    requires Tracks(data, start, length, expected, v, delivered) && Available(v.body) == []
    ensures var stop, last := Stop(|data|, start, length), v.log[|v.log| - 1];
            Places(v.log) == Interval(start, stop - start)
            <==> Aligned(v.log) && last.upTo == last.wanted && SizeRight(|data|, start, length, expected, v.log)
    ensures Places(v.log) == Interval(start, Stop(|data|, start, length) - start) ==>
              delivered == Slice(data, start, length)
  {
    hide Chained, Places, AreBytesAt, Interval, Aligned;
    var stop, last := Stop(|data|, start, length), v.log[|v.log| - 1];
    assert AnswerOk(|data|, start, length, expected, last, |v.log| == 1);
    assert last.from + last.given == last.upTo;
    CompleteIff(start, v.log, stop);
    LastWants(|data|, start, length, expected, v.log);
    if Places(v.log) == Interval(start, stop - start) {
      IntervalLength(start, stop - start);
      SamePlaces(delivered, data, v.log);
      BytesInOrder(delivered, data, start);
    }
  }

  lemma LastWants(n: nat, start: nat, length: int, expected: int, log: seq<Answer>)
    requires log != [] && AnswersOk(n, start, length, expected, log)
    ensures var last := log[|log| - 1];
            && (last.wanted == Stop(n, start, length) <==> SizeRight(n, start, length, expected, log))
            && last.wanted <= Stop(n, start, length)
  {
    assert AnswerOk(n, start, length, expected, log[|log| - 1], |log| == 1);
  }

  // ---- servers that send all of what they are asked for ----

  predicate WholeRanges(net: Net, clock: nat) {
    net.choices(clock).skip == 0 && net.choices(clock).cut == 0
  }

  lemma WholeMeans(net: Net)
    requires forall i: nat :: net.choices(i).skip == 0 && net.choices(i).cut == 0
    ensures forall i: nat :: WholeRanges(net, i)
  {
  }

  predicate AllWhole(log: seq<Answer>) {
    forall i :: 0 <= i < |log| ==> log[i].from == log[i].asked && log[i].upTo == log[i].wanted
  }

  lemma OpenWhole(net: Net, current: nat, clock: nat, offset: int, length: int)
    requires current < |net.versions| && OpenOf(net, current, clock, offset, length).Some? && WholeRanges(net, clock)
    ensures AllWhole(OpenOf(net, current, clock, offset, length).value.view.log)
  {
    hide HeadOf;
    if length != 0 {
      var c := net.choices(clock);
      var v := net.versions[Replaced(net, current, c)];
      var resp := Respond(v, RangeHeader(offset, length), None, c).value;
      if resp.status == 206 {
        PartialContent(v, RangeHeader(offset, length), None, c, resp);
      }
    }
  }

  lemma ResumeWhole(net: Net, validator: string, v: View)
    requires v.current < |net.versions| && WholeRanges(net, v.clock) && AllWhole(v.log)
    ensures AllWhole(ResumeOf(net, validator, v).0.log)
  {
    hide Replaced;
    ReplacedBound(net, v.current, net.choices(v.clock));
  }

  lemma ChunkWhole(v: View, max: nat, c: Choice)
    requires v.log != [] && AllWhole(v.log)
    ensures AllWhole(ChunkOf(v, max, c).0.log)
  {
    hide ReadBody;
  }

  /** Against such a server every answer is as it should be, so that the bytes are always
      in order, and the end is right if the size was. */
  lemma {:induction false} ReadWhole(net: Net, live: bool, validator: string, v: View, max: nat, cancelled: bool)
    requires v.current < |net.versions| && v.resumes <= MAX_RESUMES && v.log != []
    requires AllWhole(v.log) && forall i: nat :: WholeRanges(net, i)
    ensures AllWhole(ReadOf(net, live, validator, v, max, cancelled).0.log)
    decreases MAX_RESUMES - v.resumes
  {
    hide ResumeOf, AllWhole, ReadBody, WholeRanges;
    var c := net.choices(v.clock);
    var (v1, chunk, how) := ChunkOf(Draw(net, v), max, c);
    ChunkWhole(Draw(net, v), max, c);
    if how == Dropped && MayResume(live, validator, v1, cancelled) {
      var (v2, ok) := ResumeOf(net, validator, v1);
      ResumeWhole(net, validator, v1);
      ResumeBound(net, validator, v1);
      if ok && |chunk| == 0 {
        ReadWhole(net, live, validator, v2, max, cancelled);
      }
    }
  }

  lemma ResumeBound(net: Net, validator: string, v: View)
    requires v.current < |net.versions|
    ensures var v' := ResumeOf(net, validator, v).0;
            v'.current < |net.versions| && v'.resumes == v.resumes + 1 && (v.log != [] ==> v'.log != [])
  {
    hide Respond;
  }
}
