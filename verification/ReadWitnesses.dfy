/** What a reader does when answers are not what it takes them for
    (blob/httpblob/httpblob.go:1165-1183, 1238-1266, 1301-1367). */
module ReadWitnesses {
  import opened Strings
  import opened HttpServer
  import opened Answers
  import opened Reads

  /** A decision that is good in all respects. */
  const GOOD := Choice(0, false, false, false, 0, 0, false, false, 9, false, true)

  /** Some decisions, and then good ones. */
  function From(cs: seq<Choice>): nat -> Choice {
    (i: nat) => if i < |cs| then cs[i] else GOOD
  }

  /** Asked for the bytes 0-1 a server sends "bytes 1-1/2": the first byte is skipped,
      and the end reported. */
  lemma LateAnswerSkips()
    ensures var net := Net([Version([1, 2], "t")], From([GOOD.(skip := 1)]));
            var o := OpenOf(net, 0, 0, 0, 2);
            && o.Some?
            && var (v, chunk, how) := ReadOf(net, o.value.live, o.value.validator, o.value.view, 9, false);
               chunk == [2] && how == End
  {
    var net := Net([Version([1, 2], "t")], From([GOOD.(skip := 1)]));
    assert net.versions[0].data[1..2] == [2];
    var o := OpenOf(net, 0, 0, 0, 2);
    assert o.Some? && o.value.view.body == Body([2], Some(2));
  }

  /** Sent "bytes 0-0/2" instead, the end is reported after one byte of two. */
  lemma ShortAnswerEnds()
    ensures var net := Net([Version([1, 2], "t")], From([GOOD.(cut := 1)]));
            var o := OpenOf(net, 0, 0, 0, 2);
            && o.Some?
            && var (v, chunk, how) := ReadOf(net, o.value.live, o.value.validator, o.value.view, 9, false);
               chunk == [1] && how == End
  {
    var net := Net([Version([1, 2], "t")], From([GOOD.(cut := 1)]));
    assert net.versions[0].data[0..1] == [1];
    var o := OpenOf(net, 0, 0, 0, 2);
    assert o.Some? && o.value.view.body == Body([1], Some(2));
  }

  /** Three bytes come without a length; the size is learned from a shorter content that
      has replaced them; the connection drops after a byte; the first content is back,
      and the resumed request asks for one byte more only.  Every answer begins and ends
      as asked, and yet the end is reported after two bytes of three. */
  lemma OtherSizeEnds()
    ensures var net := Returning();
            var o := OpenOf(net, 0, 0, 0, -1);
            && o.Some?
            && var (v1, chunk1, how1) := ReadOf(net, o.value.live, o.value.validator, o.value.view, 9, false);
               var (v2, chunk2, how2) := ReadOf(net, o.value.live, o.value.validator, v1, 9, false);
               && chunk1 == [1] && how1 == Fine && chunk2 == [2] && how2 == End && v2.current == 2
               && Aligned(v2.log) && v2.log[|v2.log| - 1].upTo == v2.log[|v2.log| - 1].wanted
  {
    OpenReturning();
    ReadReturning();
    LastReturning();
  }

  function AtFirst(): View {
    View(1, 3, 0, 2, 0, Body([1, 2, 3], None), 0, [Answer(0, 3, 0, 3, 0)])
  }

  function Resumed(): View {
    View(2, 5, 1, 1, 1, Body([2], Some(1)), 1, [Answer(0, 3, 0, 3, 1), Answer(1, 2, 1, 2, 0)])
  }

  lemma OpenReturning()
    ensures OpenOf(Returning(), 0, 0, 0, -1) == Some(Opened(AtFirst(), 0, true, "a"))
  {
    var data: Bytes := [1, 2, 3];
    assert data[0..] == data;
  }

  lemma ReadReturning()
    ensures ReadOf(Returning(), true, "a", AtFirst(), 9, false) == (Resumed(), [1], Fine)
  {
    hide ReadBody, Respond, Given;
    DropReturning();
    ResumeReturning();
  }

  lemma LastReturning()
    ensures var (v, chunk, how) := ReadOf(Returning(), true, "a", Resumed(), 9, false);
            && chunk == [2] && how == End && v.current == 2
            && Aligned(v.log) && v.log[|v.log| - 1].upTo == v.log[|v.log| - 1].wanted
  {
    var net, v := Returning(), Resumed();
    var data: Bytes := [2];
    assert data[..1] == [2] && data[1..] == [] && Available(v.body) == data;
    assert net.choices(5) == GOOD;
    assert ReadBody(v.body, 9, GOOD) == (Body([], Some(0)), [2], End);
    GivenLast(v.log, 1);
    hide Respond, Given, From;
    var (w, chunk, how) := ChunkOf(Draw(net, v), 9, GOOD);
    assert ReadOf(net, true, "a", v, 9, false) == (w, [2], End);
  }

  lemma GivenLast(log: seq<Answer>, n: nat)
    requires |log| == 2 && log[0] == Answer(0, 3, 0, 3, 1) && log[1] == Answer(1, 2, 1, 2, 0)
    ensures Given(log, n) == [log[0], log[1].(given := n)] && Aligned(Given(log, n))
  {
  }

  function AtDrop(): View {
    View(1, 4, 1, 1, 0, Body([2, 3], None), 0, [Answer(0, 3, 0, 3, 1)])
  }

  lemma DropReturning()
    ensures ChunkOf(Draw(Returning(), AtFirst()), 9, Returning().choices(3)) == (AtDrop(), [1], Dropped)
  {
    var net, v := Returning(), AtFirst();
    var first: seq<Answer> := [Answer(0, 3, 0, 3, 0)];
    assert first[..0] == [] && Given(first, 1) == AtDrop().log;
    var data: Bytes := [1, 2, 3];
    assert data[..1] == [1] && data[1..] == [2, 3];
    assert ReadBody(v.body, 9, net.choices(3)) == (Body([2, 3], None), [1], Dropped);
    assert Draw(net, v) == v.(clock := 4);
  }

  lemma ResumeReturning()
    ensures ResumeOf(Returning(), "a", AtDrop()) == (Resumed(), true)
  {
    var net := Returning();
    var data: Bytes := [1, 2, 3];
    assert data[1..2] == [2];
    assert net.versions[2] == Version(data, "a") && net.choices(4) == GOOD.(replaced := 1);
    assert AtDrop().log + [Answer(1, 2, 1, 2, 0)] == Resumed().log;
    assert Replaced(net, 1, net.choices(4)) == 2 && RangeHeader(1, 1) == Some(Range(1, Some(1)));
    assert Respond(net.versions[2], RangeHeader(1, 1), Some("a"), net.choices(4))
        == Some(Response(206, [2], 1, 1, Some(3), "a"));
  }

  function Returning(): Net {
    Net([Version([1, 2, 3], "a"), Version([8, 9], "b"), Version([1, 2, 3], "a")],
        From([GOOD.(hideLength := true), GOOD, GOOD.(replaced := 1), GOOD.(chunk := 1, drop := true), GOOD.(replaced := 1)]))
  }

  // ---- how many requests one Read makes ----

  /** A network on which every read drops, and only the fourth one brings a byte. */
  function Dropping(): Net {
    Net([Version([1, 2, 3], "t")], (i: nat) => GOOD.(chunk := if i == 8 then 1 else 0, drop := true))
  }

  function Waiting(clock: nat, resumes: nat): View {
    View(0, clock, 0, 3, resumes, Body([1, 2, 3], Some(3)), resumes, Waited(resumes))
  }

  function Waited(resumes: nat): seq<Answer> {
    if resumes == 0 then [Answer(0, 3, 0, 3, 0)] else Waited(resumes - 1) + [Answer(0, 3, 0, 3, 0)]
  }

  lemma DroppedRead(clock: nat, resumes: nat)
    requires resumes < MAX_RESUMES && clock != 8
    ensures ReadOf(Dropping(), true, "t", Waiting(clock, resumes), 9, false)
         == ReadOf(Dropping(), true, "t", Waiting(clock + 2, resumes + 1), 9, false)
  {
    var v := Waiting(clock, resumes);
    var net := Dropping();
    assert v.body.pending[0..] == v.body.pending;
    assert net.versions[0].data[0..3] == net.versions[0].data;
    assert ChunkOf(Draw(net, v), 9, net.choices(clock)) == (Waiting(clock + 1, resumes), [], Dropped);
    assert ResumeOf(net, "t", Waiting(clock + 1, resumes)) == (Waiting(clock + 2, resumes + 1), true);
  }

  lemma OpenDropping()
    ensures OpenOf(Dropping(), 0, 0, 0, 3) == Some(Opened(Waiting(2, 0), 0, true, "t"))
  {
    var data: Bytes := [1, 2, 3];
    assert data[0..3] == data && data[..3] == data;
  }

  /** The first Read of a reader can make four requests: three that bring nothing, and a
      fourth after the byte that has set the count back. */
  lemma FourRequestsInOneRead()
    ensures var o := OpenOf(Dropping(), 0, 0, 0, 3);
            && o.Some? && o.value.view.attempts == 0
            && var (v, chunk, ending) := ReadOf(Dropping(), o.value.live, o.value.validator, o.value.view, 9, false);
               v.attempts == 4 && chunk == [1] && ending == Fine
  {
    hide ReadOf, Waited, OpenOf;
    OpenDropping();
    DroppedRead(2, 0);
    DroppedRead(4, 1);
    DroppedRead(6, 2);
    LastRead();
  }

  lemma LastRead()
    ensures var (v, chunk, ending) := ReadOf(Dropping(), true, "t", Waiting(8, 3), 9, false);
            v.attempts == 4 && chunk == [1] && ending == Fine
  {
    var net, v := Dropping(), Waiting(8, 3);
    var (v1, chunk, how) := ChunkOf(Draw(net, v), 9, net.choices(8));
    assert chunk == [1] && how == Dropped && v1.remaining == 2 && v1.resumes == 0 && v1.offset == 1;
  }

  /** Why a validator has to name one content: where two share one (as Last-Modified
      dates within a second do), a resumed read can join bytes of both. */
  lemma SharedValidatorSplices()
    ensures exists v: Version, w: Version, c: Choice, delivered: Bytes ::
              && v.validator == w.validator && delivered <= v.data
              && var r := Respond(w, RangeHeader(|delivered|, -1), Some(v.validator), c);
                 && r.Some? && r.value.status == 206
                 && !(delivered + r.value.body <= v.data) && !(delivered + r.value.body <= w.data)
  {
    var v, w := Version([1, 2], "t"), Version([3, 4], "t");
    var delivered: Bytes := [1];
    var r := Respond(w, RangeHeader(1, -1), Some("t"), GOOD);
    assert w.data[1..2] == [4];
    assert r.value.body == [4];
    assert (delivered + r.value.body)[1] == 4;
    assert (delivered + r.value.body)[0] == 1;
  }
}
