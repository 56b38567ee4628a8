/** How many requests one Read makes: when it can be more than maxResumes
    (blob/httpblob/httpblob.go:1301-1338). */
module Requests {
  import opened Strings
  import opened HttpServer
  import opened Answers
  import opened Reads

  /** The requests that one Read makes. */
  function Made(net: Net, live: bool, validator: string, v: View, max: nat, cancelled: bool): int
    requires v.current < |net.versions| && v.resumes <= MAX_RESUMES && v.log != []
  {
    ReadOf(net, live, validator, v, max, cancelled).0.attempts - v.attempts
  }

  /** A reader that may resume, has not just done so in vain, and may do so again after
      one more byte. */
  predicate MayExceed(live: bool, validator: string, v: View, max: nat, cancelled: bool) {
    && live && !cancelled && validator != "" && max > 0
    && v.resumes == 0 && v.body.limit != Some(0)
    && (v.remaining >= 2 || (v.remaining < 0 && v.offset > 0))
  }

  // ---- only then ----

  /** Nothing is read, or one byte that is the last. */
  lemma {:induction false} NeverSetBack(net: Net, live: bool, validator: string, v: View, max: nat, cancelled: bool)
    requires v.current < |net.versions| && v.resumes <= MAX_RESUMES && v.log != []
    requires max == 0 || (v.remaining == 1 && v.body.limit == Some(1))
    ensures Made(net, live, validator, v, max, cancelled) <= MAX_RESUMES - v.resumes
    decreases MAX_RESUMES - v.resumes
  {
    hide Respond, RangeHeader, Available;
    var (v1, chunk, how) := ChunkOf(Draw(net, v), max, net.choices(v.clock));
    ReadBodySpec(v.body, max, net.choices(v.clock));
    if how == Dropped && MayResume(live, validator, v1, cancelled) {
      var (v2, ok) := ResumeOf(net, validator, v1);
      if ok && |chunk| == 0 {
        NeverSetBack(net, live, validator, v2, max, cancelled);
      }
    }
  }

  /** A Read that makes two requests at least has first dropped with nothing read, and
      has resumed. */
  lemma FirstResume(net: Net, live: bool, validator: string, v: View, max: nat, cancelled: bool)
    requires v.current < |net.versions| && v.resumes <= MAX_RESUMES && v.log != []
    requires Made(net, live, validator, v, max, cancelled) > 1
    ensures live && !cancelled && validator != "" && v.remaining != 0 && v.body.limit != Some(0)
    ensures var v1 := Draw(net, v).(body := v.body);
            && v.resumes < MAX_RESUMES && ResumeOf(net, validator, v1).1
            && Made(net, live, validator, v, max, cancelled)
               == 1 + Made(net, live, validator, ResumeOf(net, validator, v1).0, max, cancelled)
  {
    hide Respond, RangeHeader;
    var (v1, chunk, how) := ChunkOf(Draw(net, v), max, net.choices(v.clock));
    assert chunk == [] && how == Dropped;
    SameRequest(net, validator, v1, v.body);
  }

  /** What a resume does has nothing to do with the body that it replaces. */
  lemma SameRequest(net: Net, validator: string, v: View, body: Body)
    requires v.current < |net.versions|
    ensures ResumeOf(net, validator, v).1 <==> ResumeOf(net, validator, v.(body := body)).1
    ensures ResumeOf(net, validator, v).1 ==>
              ResumeOf(net, validator, v).0 == ResumeOf(net, validator, v.(body := body)).0
  {
    hide Respond, RangeHeader;
  }

  lemma OnlyThen(net: Net, live: bool, validator: string, v: View, max: nat, cancelled: bool)
    requires v.current < |net.versions| && v.resumes <= MAX_RESUMES && v.log != []
    requires Made(net, live, validator, v, max, cancelled) > MAX_RESUMES
    ensures MayExceed(live, validator, v, max, cancelled)
    ensures exists i: nat ::
              i < |net.versions| && net.versions[i].validator == validator && v.offset < |net.versions[i].data|
  {
    hide ReadOf, Respond;
    RequestsOfRead(net, live, validator, v, max, cancelled);
    FirstResume(net, live, validator, v, max, cancelled);
    var v1 := Draw(net, v).(body := v.body);
    ResumesIff(net, validator, v1);
    var i := Replaced(net, v1.current, net.choices(v1.clock));
    assert net.versions[i].validator == validator && v.offset < |net.versions[i].data|;
    if max == 0 {
      NeverSetBack(net, live, validator, v, max, cancelled);
    } else if v.remaining == 1 {
      NeverSetBack(net, live, validator, ResumeOf(net, validator, v1).0, max, cancelled);
    }
  }

  // ---- and then it can happen ----

  /** Nothing goes wrong, and nothing comes. */
  const ALL_WELL := Choice(0, false, false, false, 0, 0, false, false, 0, false, false)

  /** From the clock t on, everything drops, with a byte at the fourth read only; the
      object is first replaced by the version n, which is that many further. */
  function Dropping(choices: nat -> Choice, t: nat, further: nat): nat -> Choice {
    (i: nat) =>
      if i < t then choices(i)
      else ALL_WELL.(replaced := if i == t then further else 0, chunk := if i == t + 6 then 1 else 0, drop := true)
  }

  /** The version n answers, and has the bytes that are asked for next. */
  predicate Serves(net: Net, validator: string, v: View, n: nat) {
    && v.current < |net.versions| && n < |net.versions|
    && Replaced(net, v.current, net.choices(v.clock)) == n
    && net.versions[n].validator == validator != ""
    && v.offset < |net.versions[n].data| && (v.remaining > 0 || (v.remaining < 0 && v.offset > 0))
  }

  predicate Drops(c: Choice, chunk: nat) {
    c.drop && c.chunk == chunk
  }

  predicate Calm(c: Choice) {
    c.replaced == 0 && !c.fail && !c.otherStatus && !c.ignoreRange
  }

  /** A body that drops with nothing read, and a resume. */
  lemma InVain(net: Net, validator: string, v: View, max: nat, n: nat) returns (w: View)
    requires Serves(net, validator, v, n) && v.resumes < MAX_RESUMES && v.log != [] && v.body.limit != Some(0)
    requires Drops(net.choices(v.clock), 0) && Calm(net.choices(v.clock + 1))
    ensures w.current == n && w.clock == v.clock + 2 && w.offset == v.offset && w.remaining == v.remaining
    ensures w.resumes == v.resumes + 1 && w.log != [] && Available(w.body) != []
    ensures w.body.limit == if v.remaining > 0 then Some(v.remaining as nat) else None
    ensures Made(net, true, validator, v, max, false) == 1 + Made(net, true, validator, w, max, false)
  {
    hide Respond, RangeHeader, SliceEnd;
    var (v1, chunk, how) := ChunkOf(Draw(net, v), max, net.choices(v.clock));
    assert chunk == [] && how == Dropped;
    Asks(v.offset, v.remaining, |net.versions[n].data|);
    ResumesIff(net, validator, v1);
    w := ResumeOf(net, validator, v1).0;
    var range := RangeHeader(v.offset, v.remaining);
    var c := net.choices(v.clock + 1);
    var r := Respond(net.versions[n], range, Some(validator), c).value;
    PartialContent(net.versions[n], range, Some(validator), c, r);
  }

  lemma Asks(offset: nat, remaining: int, n: nat)
    requires offset < n && (remaining > 0 || (remaining < 0 && offset > 0))
    ensures RangeHeader(offset, remaining).Some? && offset < SliceEnd(RangeHeader(offset, remaining).value, n)
  {
  }

  /** A body that drops after a byte, which is not the last one expected. */
  lemma OneByte(net: Net, validator: string, v: View, max: nat)
    requires v.current < |net.versions| && v.resumes <= MAX_RESUMES && v.log != [] && validator != "" && max > 0
    requires Available(v.body) != [] && Drops(net.choices(v.clock), 1) && (v.remaining >= 2 || v.remaining < 0)
    ensures Made(net, true, validator, v, max, false) == 1
  {
    hide ResumeOf;
    var (v1, chunk, how) := ChunkOf(Draw(net, v), max, net.choices(v.clock));
    assert |chunk| == 1 && how == Dropped;
    OneRequest(net, validator, v1);
  }

  lemma OneRequest(net: Net, validator: string, v: View)
    requires v.current < |net.versions|
    ensures ResumeOf(net, validator, v).0.attempts == v.attempts + 1
  {
    hide Respond, RangeHeader;
  }

  /** Four requests. */
  lemma Four(net: Net, choices: nat -> Choice, t: nat, further: nat, validator: string, v: View, max: nat, n: nat)
    requires net.choices == Dropping(choices, t, further) && v.clock == t && n == v.current + further
    requires v.current < |net.versions| && n < |net.versions| && v.log != []
    requires net.versions[n].validator == validator && v.offset < |net.versions[n].data|
    requires MayExceed(true, validator, v, max, false)
    ensures Made(net, true, validator, v, max, false) == 4
  {
    hide ReadOf;
    var w := InVain(net, validator, v, max, n);
    w := InVain(net, validator, w, max, n);
    w := InVain(net, validator, w, max, n);
    OneByte(net, validator, w, max);
  }

  // ---- exactly then ----

  /** The same server up to a point, and then any other decisions, with more contents. */
  ghost predicate Continues(net: Net, clock: nat, later: Net) {
    && net.versions <= later.versions && ValidatorsName(later.versions)
    && (forall i: nat :: i < clock ==> later.choices(i) == net.choices(i))
  }

  ghost predicate Exceeds(net: Net, live: bool, validator: string, v: View, max: nat, cancelled: bool) {
    && v.current < |net.versions| && v.resumes <= MAX_RESUMES && v.log != []
    && Made(net, live, validator, v, max, cancelled) > MAX_RESUMES
  }

  /** However a reader of some content has got to where it is, its next Read can make
      more than maxResumes requests, if the server goes on badly enough, if and only if the
      reader may resume and has not just done so in vain, expects two bytes at least, or
      has read some and does not know how many follow, and its content does go on. */
  lemma ExceedsIff(net: Net, version: nat, live: bool, validator: string, v: View, max: nat, cancelled: bool)
    requires version < |net.versions| && v.current < |net.versions| && ValidatorsName(net.versions)
    requires live ==> net.versions[version].validator == validator
    requires v.resumes <= MAX_RESUMES && v.log != []
    ensures (exists later: Net :: Continues(net, v.clock, later) && Exceeds(later, live, validator, v, max, cancelled))
            <==> MayExceed(live, validator, v, max, cancelled) && v.offset < |net.versions[version].data|
  {
    hide Made, ValidatorsName;
    forall later: Net | Continues(net, v.clock, later) && Exceeds(later, live, validator, v, max, cancelled)
      ensures MayExceed(live, validator, v, max, cancelled) && v.offset < |net.versions[version].data|
    {
      OnlyThen(later, live, validator, v, max, cancelled);
      var i: nat :|
        i < |later.versions| && later.versions[i].validator == validator && v.offset < |later.versions[i].data|;
      assert later.versions[version] == net.versions[version];
      SameContent(later.versions, version, i);
    }
    if MayExceed(live, validator, v, max, cancelled) && v.offset < |net.versions[version].data| {
      var n := |net.versions|;
      var later := Net(net.versions + [net.versions[version]], Dropping(net.choices, v.clock, n - v.current));
      OnceMore(net.versions, version);
      Four(later, net.choices, v.clock, n - v.current, validator, v, max, n);
      assert Continues(net, v.clock, later) && Exceeds(later, live, validator, v, max, cancelled);
    }
  }

  /** A content may come back. */
  lemma OnceMore(versions: seq<Version>, i: nat)
    requires ValidatorsName(versions) && i < |versions|
    ensures ValidatorsName(versions + [versions[i]])
  {
  }

  /** So it can, for some server, if and only if the reader's fields alone allow it. */
  lemma SomeServerExceedsIff(live: bool, validator: string, v: View, max: nat, cancelled: bool)
    requires v.resumes <= MAX_RESUMES && v.log != []
    ensures (exists net: Net :: ValidatorsName(net.versions) && Exceeds(net, live, validator, v, max, cancelled))
            <==> MayExceed(live, validator, v, max, cancelled)
  {
    hide Made, MayExceed, ValidatorsName;
    forall net: Net | ValidatorsName(net.versions) && Exceeds(net, live, validator, v, max, cancelled)
      ensures MayExceed(live, validator, v, max, cancelled)
    {
      OnlyThen(net, live, validator, v, max, cancelled);
    }
    if MayExceed(live, validator, v, max, cancelled) {
      var data := seq(v.offset + 1, _ => 0);
      var net := Net(seq(v.current + 1, _ => Version(data, validator)), (i: nat) => ALL_WELL);
      AllAlike(net.versions, data);
      ExceedsIff(net, 0, live, validator, v, max, cancelled);
      var later: Net :| Continues(net, v.clock, later) && Exceeds(later, live, validator, v, max, cancelled);
    }
  }

  lemma AllAlike(versions: seq<Version>, data: Bytes)
    requires forall i :: 0 <= i < |versions| ==> versions[i].data == data
    ensures ValidatorsName(versions)
  {
  }
}
