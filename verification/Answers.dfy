/** Which bytes a reader has handed out, as places in the object, and which places it
    should have: told from the Content-Range of the answers that it has accepted
    (blob/httpblob/httpblob.go:1238-1266, 1301-1367). */
module Answers {
  import opened Strings

  /** An answer whose body the reader took: from where on it needed bytes, up to where it
      wanted them, where the body begins, where it ends (or is cut off by the limit), and
      how many of its bytes have been handed out. */
  datatype Answer = Answer(asked: nat, wanted: nat, from: nat, upTo: nat, given: nat)

  function Interval(a: nat, n: nat): seq<nat> {
    seq(n, (i: nat) => a + i)
  }

  /** The places of the bytes handed out, in their order. */
  function Places(log: seq<Answer>): seq<nat> {
    if log == [] then []
    else
      var last := log[|log| - 1];
      Places(log[..|log| - 1]) + Interval(last.from, last.given)
  }

  /** Every answer that bytes were taken from begins where it should: the guard that
      the reader does not have. */
  predicate Aligned(log: seq<Answer>) {
    forall i :: 0 <= i < |log| && log[i].given > 0 ==> log[i].from == log[i].asked
  }

  /** Each request is for what is behind the bytes handed out so far. */
  predicate Chained(start: nat, log: seq<Answer>) {
    forall i :: 0 <= i < |log| ==> log[i].asked == start + |Places(log[..i])|
  }

  function Given(log: seq<Answer>, n: nat): seq<Answer>
    requires log != []
  {
    log[..|log| - 1] + [log[|log| - 1].(given := log[|log| - 1].given + n)]
  }

  lemma PlacesSnoc(log: seq<Answer>, a: Answer)
    ensures Places(log + [a]) == Places(log) + Interval(a.from, a.given)
  {
    assert (log + [a])[..|log|] == log;
  }

  lemma ChainedSnoc(start: nat, log: seq<Answer>, a: Answer)
    requires Chained(start, log) && a.asked == start + |Places(log)|
    ensures Chained(start, log + [a])
  {
    hide Places;
    forall i | 0 <= i < |log + [a]|
      ensures (log + [a])[i].asked == start + |Places((log + [a])[..i])|
    {
      assert (log + [a])[..i] == log[..i];
      assert log[..|log|] == log;
    }
  }

  lemma ChainedFront(start: nat, log: seq<Answer>)
    requires Chained(start, log) && log != []
    ensures Chained(start, log[..|log| - 1])
  {
    hide Places;
    var front := log[..|log| - 1];
    forall i | 0 <= i < |front|
      ensures front[i].asked == start + |Places(front[..i])|
    {
      assert front[..i] == log[..i];
    }
  }

  /** Handing out n more bytes. */
  lemma GivenMore(start: nat, log: seq<Answer>, n: nat)
    requires log != [] && Chained(start, log)
    ensures var last := log[|log| - 1];
            && Places(Given(log, n)) == Places(log) + Interval(last.from + last.given, n)
            && Chained(start, Given(log, n))
  {
    hide Places, Interval, Chained;
    var front, last := log[..|log| - 1], log[|log| - 1];
    PlacesSnoc(front, last.(given := last.given + n));
    assert log == front + [last];
    PlacesSnoc(front, last);
    IntervalSplit(last.from, last.given, n);
    assert Places(front) + (Interval(last.from, last.given) + Interval(last.from + last.given, n))
        == (Places(front) + Interval(last.from, last.given)) + Interval(last.from + last.given, n);
    ChainedFront(start, log);
    LastAsked(start, log);
    ChainedSnoc(start, front, last.(given := last.given + n));
  }

  lemma LastAsked(start: nat, log: seq<Answer>)
    requires log != [] && Chained(start, log)
    ensures log[|log| - 1].asked == start + |Places(log[..|log| - 1])|
  {
    hide Places;
  }

  lemma IntervalSplit(a: nat, m: nat, n: nat)
    ensures Interval(a, m + n) == Interval(a, m) + Interval(a + m, n)
  {
  }

  lemma NoInterval(a: nat, b: nat)
    ensures Interval(a, 0) == Interval(b, 0) == []
  {
  }

  lemma IntervalLength(a: nat, n: nat)
    ensures |Interval(a, n)| == n
  {
  }

  lemma LastAligned(log: seq<Answer>)
    requires log != [] && Aligned(log)
    ensures var last := log[|log| - 1]; last.given > 0 ==> last.from == last.asked
  {
  }

  /** A piece behind xs continues an interval if and only if xs is one itself and the
      piece, unless it is empty, begins where xs ends. */
  lemma PieceIff(a: nat, xs: seq<nat>, b: nat, n: nat)
    ensures xs + Interval(b, n) == Interval(a, |xs| + n) <==> xs == Interval(a, |xs|) && (n > 0 ==> b == a + |xs|)
  {
    var w, t := xs + Interval(b, n), Interval(a, |xs| + n);
    assert forall i :: 0 <= i < |xs| ==> w[i] == xs[i];
    assert n > 0 ==> w[|xs|] == b;
    assert t[..|xs|] == Interval(a, |xs|) && w[..|xs|] == xs;
    IntervalSplit(a, |xs|, n);
    NoInterval(b, a + |xs|);
  }

  lemma AlignedSnoc(log: seq<Answer>)
    requires log != []
    ensures var last := log[|log| - 1];
            Aligned(log) <==> Aligned(log[..|log| - 1]) && (last.given > 0 ==> last.from == last.asked)
  {
    var front := log[..|log| - 1];
    assert forall i :: 0 <= i < |front| ==> front[i] == log[i];
  }

  /** The bytes handed out are those from the start on, one after the other, if and only
      if every answer that gave some begins where it was asked to. */
  lemma {:induction false} InOrderIffAligned(start: nat, log: seq<Answer>)
    requires Chained(start, log)
    ensures Places(log) == Interval(start, |Places(log)|) <==> Aligned(log)
    decreases |log|
  {
    hide Chained, Aligned;
    if log == [] {
      NothingPlaced(start, log);
    } else {
      hide Interval;
      var front, last := log[..|log| - 1], log[|log| - 1];
      ChainedFront(start, log);
      LastAsked(start, log);
      InOrderIffAligned(start, front);
      IntervalLength(last.from, last.given);
      AlignedSnoc(log);
      PieceIff(start, Places(front), last.from, last.given);
    }
  }

  lemma NothingPlaced(start: nat, log: seq<Answer>)
    requires log == []
    ensures Places(log) == Interval(start, 0) && Aligned(log)
  {
  }

  /** At the end, when the last body has been handed out in full, all places up to stop
      have been handed out if and only if moreover the last answer goes that far. */
  lemma CompleteIff(start: nat, log: seq<Answer>, stop: nat)
    requires log != [] && Chained(start, log) && start <= stop
    requires var last := log[|log| - 1];
             last.from + last.given == last.upTo && (last.given == 0 ==> last.from == last.asked)
    ensures Places(log) == Interval(start, stop - start) <==> Aligned(log) && log[|log| - 1].upTo == stop
  {
    hide Places, Interval, Aligned, Chained;
    InOrderIffAligned(start, log);
    var front, last := log[..|log| - 1], log[|log| - 1];
    assert log == front + [last];
    PlacesSnoc(front, last);
    LastAsked(start, log);
    IntervalLength(start, stop - start);
    IntervalLength(last.from, last.given);
    if Aligned(log) {
      LastAligned(log);
    }
    assert Places(log) == Interval(start, stop - start) ==> |Places(log)| == stop - start;
  }

  /** What bytes lie at some places. */
  predicate AreBytesAt(bytes: Bytes, data: Bytes, places: seq<nat>) {
    |bytes| == |places| && forall i :: 0 <= i < |bytes| ==> places[i] < |data| && bytes[i] == data[places[i]]
  }

  lemma MoreBytes(bytes: Bytes, data: Bytes, places: seq<nat>, chunk: Bytes, at: nat)
    requires AreBytesAt(bytes, data, places)
    requires at + |chunk| <= |data| && chunk == data[at..at + |chunk|]
    ensures AreBytesAt(bytes + chunk, data, places + Interval(at, |chunk|))
  {
    var all, ps := bytes + chunk, places + Interval(at, |chunk|);
    forall i | 0 <= i < |all|
      ensures ps[i] < |data| && all[i] == data[ps[i]]
    {
      if i >= |bytes| {
        assert all[i] == chunk[i - |bytes|] && ps[i] == at + (i - |bytes|);
      }
    }
  }

  /** Places one after the other are a part of the object. */
  lemma BytesInOrder(bytes: Bytes, data: Bytes, start: nat)
    requires AreBytesAt(bytes, data, Interval(start, |bytes|))
    ensures bytes != [] ==> start + |bytes| <= |data| && bytes == data[start..start + |bytes|]
  {
    var ps := Interval(start, |bytes|);
    assert forall i :: 0 <= i < |bytes| ==> ps[i] == start + i;
    assert bytes != [] ==> ps[|bytes| - 1] < |data|;
  }
}
