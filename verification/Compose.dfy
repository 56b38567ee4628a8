/** Committing on Google Cloud Storage: objects are composed by groups of at most 32,
    round by round, until one call can make the destination (gcsmp.go:228-295). */
module Compose {
  import opened Arithmetic
  import opened Strings
  import opened Numerals
  import opened PartNames
  import opened Staging
  import opened Parts
  import opened Multipart
  import opened UploadContracts

  const MAX_SOURCES := 32

  /** One compose call. */
  datatype Call = Call(target: string, sources: seq<string>)

  /** The store after some calls, the objects that remain to be composed, and the
      calls; not ok if a source was missing. */
  datatype Composed = Composed(store: Store, names: seq<string>, calls: seq<Call>, ok: bool)

  function InterName(prefix: string, round: nat, k: nat): string {
    prefix + ("inter-" + Print(round, 10) + "-" + Print(k, 10))
  }

  function Group(sources: seq<string>): seq<string> {
    if |sources| <= MAX_SOURCES then sources else sources[..MAX_SOURCES]
  }

  /** The bytes of some objects one after the other. */
  function Joined(s: Store, names: seq<string>): Bytes {
    if names == [] then []
    else (if names[0] in s then BytesOf(s[names[0]]) else []) + Joined(s, names[1..])
  }

  predicate AllStored(s: Store, names: seq<string>) {
    forall n :: n in names ==> n in s
  }

  /** One round, from group k on. */
  function Round(s: Store, prefix: string, sources: seq<string>, round: nat, k: nat): Composed
    decreases |sources|
  {
    if sources == [] then Composed(s, [], [], true)
    else
      var group := Group(sources);
      var rest := sources[|group|..];
      if |group| == 1 then
        var c := Round(s, prefix, rest, round, k + 1);
        c.(names := group + c.names)
      else if !AllStored(s, group) then Composed(s, [], [], false)
      else
        var inter := InterName(prefix, round, k);
        var c := Round(s[inter := Raw(Joined(s, group), None)], prefix, rest, round, k + 1);
        c.(names := [inter] + c.names, calls := [Call(inter, group)] + c.calls)
  }

  /** composeTree from a round on. */
  function ComposeTree(s: Store, prefix: string, sources: seq<string>, round: nat): Composed
    decreases |sources|
  {
    if |sources| <= MAX_SOURCES then Composed(s, sources, [], true)
    else
      RoundShrinks(s, prefix, sources, round, 0);
      var c := Round(s, prefix, sources, round, 0);
      if !c.ok then c
      else
        var d := ComposeTree(c.store, prefix, c.names, round + 1);
        d.(calls := c.calls + d.calls)
  }

  function Groups(n: nat): nat {
    CeilDiv(n, MAX_SOURCES)
  }

  lemma {:induction false} RoundShrinks(s: Store, prefix: string, sources: seq<string>, round: nat, k: nat)
    ensures var c := Round(s, prefix, sources, round, k);
            c.ok ==> |c.names| == Groups(|sources|)
    ensures |sources| > MAX_SOURCES ==> Groups(|sources|) < |sources|
    decreases |sources|
  {
    if sources != [] {
      var group := Group(sources);
      var rest := sources[|group|..];
      RoundShrinks(s, prefix, rest, round, k + 1);
      if AllStored(s, group) {
        RoundShrinks(s[InterName(prefix, round, k) := Raw(Joined(s, group), None)], prefix, rest, round, k + 1);
      }
      assert |sources| > 32 ==> |rest| == |sources| - 32;
    }
  }

  // ---- names ----

  lemma DigitsHaveNoDash(n: nat)
    ensures '-' !in Print(n, 10)
  {
    hide Print;
    PrintedDigits(n, 10);
    assert '-' !in DIGITS;
  }

  lemma {:induction false} DashSplit(a: string, b: string, c: string, d: string)
    requires '-' !in a && '-' !in c && a + "-" + b == c + "-" + d
    ensures a == c && b == d
    decreases |a|
  {
    var x, y := a + "-" + b, c + "-" + d;
    assert a != "" ==> a[0] in a && x[0] == a[0] && x[1..] == a[1..] + "-" + b;
    assert c != "" ==> c[0] in c && y[0] == c[0] && y[1..] == c[1..] + "-" + d;
    assert a == "" ==> x[0] == '-' && x[1..] == b;
    assert c == "" ==> y[0] == '-' && y[1..] == d;
    if a != "" && c != "" {
      DashSplit(a[1..], b, c[1..], d);
      assert a == [a[0]] + a[1..] && c == [c[0]] + c[1..];
    }
  }

  lemma InterNamesDiffer(prefix: string, r: nat, j: nat, q: nat, k: nat)
    requires InterName(prefix, r, j) == InterName(prefix, q, k)
    ensures r == q && j == k
  {
    hide Print;
    var a, b, c, d := Print(r, 10), Print(j, 10), Print(q, 10), Print(k, 10);
    DigitsHaveNoDash(r);
    DigitsHaveNoDash(q);
    var x, y := "inter-" + a + "-" + b, "inter-" + c + "-" + d;
    assert x == InterName(prefix, r, j)[|prefix|..] && y == InterName(prefix, q, k)[|prefix|..];
    assert x[6..] == a + "-" + b && y[6..] == c + "-" + d;
    DashSplit(a, b, c, d);
    PrintedDigits(r, 10);
    PrintedDigits(q, 10);
    PrintedDigits(j, 10);
    PrintedDigits(k, 10);
  }

  /** A name that no compose call from group k of a round on will write. */
  ghost predicate NotYetWritten(prefix: string, name: string, round: nat, k: nat) {
    forall r, j: nat :: r > round || (r == round && j >= k) ==> name != InterName(prefix, r, j)
  }

  ghost predicate NoneYetWritten(prefix: string, names: seq<string>, round: nat, k: nat) {
    forall n :: n in names ==> NotYetWritten(prefix, n, round, k)
  }

  lemma PartNotWritten(key: string, id: string, number: int, round: nat, k: nat)
    ensures NotYetWritten(StagingPrefix(key, id), PartKey(key, id, number), round, k)
  {
    hide PartName, StagingPrefix, Print;
    var p := StagingPrefix(key, id);
    PartNameChars(number);
    assert 'i' !in DIGITS;
    forall r, j: nat
      ensures PartKey(key, id, number) != InterName(p, r, j)
    {
      var t := "inter-" + Print(r, 10) + "-" + Print(j, 10);
      assert InterName(p, r, j)[|p|] == t[0] == 'i';
      assert PartKey(key, id, number)[|p|] == PartName(number)[0] && PartName(number)[0] in PartName(number);
    }
  }

  lemma InterNotWritten(prefix: string, round: nat, k: nat)
    ensures NotYetWritten(prefix, InterName(prefix, round, k), round, k + 1)
  {
    hide InterName;
    forall r, j: nat | r > round || (r == round && j >= k + 1)
      ensures InterName(prefix, round, k) != InterName(prefix, r, j)
    {
      if InterName(prefix, round, k) == InterName(prefix, r, j) {
        InterNamesDiffer(prefix, round, k, r, j);
      }
    }
  }

  // ---- a round keeps the bytes ----

  lemma {:induction false} JoinedConcat(s: Store, a: seq<string>, b: seq<string>)
    ensures Joined(s, a + b) == Joined(s, a) + Joined(s, b)
    decreases |a|
  {
    if a == [] {
      assert a + b == b && [] + Joined(s, b) == Joined(s, b);
    } else {
      assert (a + b)[0] == a[0] && (a + b)[1..] == a[1..] + b;
      JoinedConcat(s, a[1..], b);
    }
  }

  lemma {:induction false} JoinedSame(s: Store, t: Store, names: seq<string>)
    requires forall n :: n in names ==> (n in s <==> n in t) && (n in s ==> s[n] == t[n])
    ensures Joined(s, names) == Joined(t, names)
    decreases |names|
  {
    if names != [] {
      assert names[0] in names;
      JoinedSame(s, t, names[1..]);
    }
  }

  /** Everything that is not written later keeps its content. */
  lemma {:induction false} RoundKeeps(s: Store, prefix: string, sources: seq<string>, round: nat, k: nat, n: string)
    requires NotYetWritten(prefix, n, round, k)
    ensures var c := Round(s, prefix, sources, round, k);
            (n in c.store <==> n in s) && (n in s ==> c.store[n] == s[n])
    decreases |sources|
  {
    hide InterName, Joined, AllStored;
    if sources != [] {
      var group := Group(sources);
      var rest := sources[|group|..];
      if |group| == 1 {
        RoundKeeps(s, prefix, rest, round, k + 1, n);
      } else if AllStored(s, group) {
        RoundKeeps(s[InterName(prefix, round, k) := Raw(Joined(s, group), None)], prefix, rest, round, k + 1, n);
      }
    }
  }

  ghost predicate RoundDone(s: Store, prefix: string, sources: seq<string>, round: nat, k: nat) {
    var c := Round(s, prefix, sources, round, k);
    && c.ok
    && Joined(c.store, c.names) == Joined(s, sources)
    && AllStored(c.store, c.names)
    && NoneYetWritten(prefix, c.names, round + 1, 0)
  }

  lemma NotWrittenNow(prefix: string, n: string, round: nat, k: nat)
    requires NotYetWritten(prefix, n, round, k)
    ensures n != InterName(prefix, round, k)
  {
    hide InterName;
  }

  lemma LaterRounds(prefix: string, n: string, round: nat, k: nat)
    requires NotYetWritten(prefix, n, round, k)
    ensures NotYetWritten(prefix, n, round + 1, 0) && NotYetWritten(prefix, n, round, k + 1)
  {
  }

  /** A round of compose calls keeps the joined bytes, whatever objects were there
      under the names that it writes. */
  lemma {:induction false} RoundKeepsBytes(s: Store, prefix: string, sources: seq<string>, round: nat, k: nat)
    requires AllStored(s, sources) && NoneYetWritten(prefix, sources, round, k)
    ensures RoundDone(s, prefix, sources, round, k)
    decreases |sources|
  {
    hide InterName, NotYetWritten, Joined;
    if sources == [] {
      JoinedNothing(s);
    } else {
      var group := Group(sources);
      var rest := sources[|group|..];
      assert sources == group + rest;
      JoinedConcat(s, group, rest);
      forall n | n in rest
        ensures NotYetWritten(prefix, n, round, k + 1)
      {
        LaterRounds(prefix, n, round, k);
      }
      if |group| == 1 {
        CarriedGroup(s, prefix, sources, round, k);
      } else {
        ComposedGroup(s, prefix, sources, round, k);
      }
    }
  }

  lemma JoinedNothing(s: Store)
    ensures Joined(s, []) == []
  {
  }

  lemma {:induction false} CarriedGroup(s: Store, prefix: string, sources: seq<string>, round: nat, k: nat)
    requires sources != [] && |Group(sources)| == 1
    requires AllStored(s, sources) && NoneYetWritten(prefix, sources, round, k)
    requires NoneYetWritten(prefix, sources[1..], round, k + 1)
    ensures RoundDone(s, prefix, sources, round, k)
    decreases |sources|, 0
  {
    hide InterName, NotYetWritten, Joined;
    var group, rest := Group(sources), sources[1..];
    assert group == [sources[0]] && sources[0] in sources && sources == group + rest;
    RoundKeepsBytes(s, prefix, rest, round, k + 1);
    var c := Round(s, prefix, rest, round, k + 1);
    LaterRounds(prefix, sources[0], round, k);
    RoundKeeps(s, prefix, rest, round, k + 1, sources[0]);
    JoinedSame(s, c.store, group);
    JoinedConcat(s, group, rest);
    JoinedConcat(c.store, group, c.names);
  }

  lemma {:induction false} ComposedGroup(s: Store, prefix: string, sources: seq<string>, round: nat, k: nat)
    requires sources != [] && |Group(sources)| != 1
    requires AllStored(s, sources) && NoneYetWritten(prefix, sources, round, k)
    requires NoneYetWritten(prefix, sources[|Group(sources)|..], round, k + 1)
    ensures RoundDone(s, prefix, sources, round, k)
    decreases |sources|, 0
  {
    hide InterName, Joined;
    var group := Group(sources);
    var rest := sources[|group|..];
    var inter := InterName(prefix, round, k);
    var t := s[inter := Raw(Joined(s, group), None)];
    assert sources == group + rest;
    assert AllStored(s, group);
    forall n | n in rest
      ensures n in sources && n != inter
    {
      assert n in sources;
      NotWrittenNow(prefix, n, round, k);
    }
    hide NotYetWritten;
    RoundKeepsBytes(t, prefix, rest, round, k + 1);
    JoinedSame(s, t, rest);
    JoinedConcat(s, group, rest);
    var c := Round(t, prefix, rest, round, k + 1);
    InterNotWritten(prefix, round, k);
    RoundKeeps(t, prefix, rest, round, k + 1, inter);
    LaterRounds(prefix, inter, round, k + 1);
    JoinedOne(c.store, inter);
    JoinedConcat(c.store, [inter], c.names);
  }

  lemma JoinedOne(s: Store, n: string)
    requires n in s
    ensures Joined(s, [n]) == BytesOf(s[n])
  {
    assert [n][1..] == [];
    assert BytesOf(s[n]) + [] == BytesOf(s[n]);
  }

  // ---- the tree ----

  predicate GoodCall(c: Call) {
    2 <= |c.sources| <= MAX_SOURCES && c.target !in c.sources
  }

  /** Every compose call of a round takes 2 to 32 sources, and writes none of them. */
  lemma {:induction false} RoundCallsGood(s: Store, prefix: string, sources: seq<string>, round: nat, k: nat)
    requires NoneYetWritten(prefix, sources, round, k)
    ensures forall c :: c in Round(s, prefix, sources, round, k).calls ==> GoodCall(c)
    decreases |sources|
  {
    hide InterName, Joined, AllStored;
    if sources != [] {
      var group := Group(sources);
      var rest := sources[|group|..];
      var inter := InterName(prefix, round, k);
      assert forall n :: n in group ==> n in sources;
      assert forall n :: n in rest ==> n in sources;
      assert |group| != 1 ==> GoodCall(Call(inter, group));
      hide NotYetWritten;
      forall n | n in rest
        ensures NotYetWritten(prefix, n, round, k + 1)
      {
        LaterRounds(prefix, n, round, k);
      }
      if |group| == 1 {
        RoundCallsGood(s, prefix, rest, round, k + 1);
      } else if AllStored(s, group) {
        RoundCallsGood(s[inter := Raw(Joined(s, group), None)], prefix, rest, round, k + 1);
      }
    }
  }

  /** composeTree leaves at most 32 objects that hold the same bytes in the same
      order; stale intermediates of an earlier attempt do not matter; all calls are
      within the limits; and what is not an intermediate is not touched. */
  lemma {:induction false} ComposeTreeKeepsBytes(s: Store, prefix: string, sources: seq<string>, round: nat)
    requires AllStored(s, sources) && NoneYetWritten(prefix, sources, round, 0)
    ensures var c := ComposeTree(s, prefix, sources, round);
            && c.ok && |c.names| <= MAX_SOURCES && (sources != [] ==> c.names != [])
            && AllStored(c.store, c.names) && Joined(c.store, c.names) == Joined(s, sources)
            && (forall d :: d in c.calls ==> GoodCall(d))
    decreases |sources|
  {
    hide InterName, Joined, NotYetWritten, Round;
    if |sources| > MAX_SOURCES {
      RoundKeepsBytes(s, prefix, sources, round, 0);
      RoundCallsGood(s, prefix, sources, round, 0);
      RoundShrinks(s, prefix, sources, round, 0);
      var c := Round(s, prefix, sources, round, 0);
      ComposeTreeKeepsBytes(c.store, prefix, c.names, round + 1);
    }
  }

  lemma {:induction false} ComposeTreeKeeps(s: Store, prefix: string, sources: seq<string>, round: nat, n: string)
    requires NotYetWritten(prefix, n, round, 0)
    ensures var c := ComposeTree(s, prefix, sources, round);
            (n in c.store <==> n in s) && (n in s ==> c.store[n] == s[n])
    decreases |sources|
  {
    hide InterName, Joined, Round;
    if |sources| > MAX_SOURCES {
      RoundShrinks(s, prefix, sources, round, 0);
      RoundKeeps(s, prefix, sources, round, 0, n);
      var c := Round(s, prefix, sources, round, 0);
      if c.ok {
        ComposeTreeKeeps(c.store, prefix, c.names, round + 1, n);
      }
    }
  }

  // ---- commit ----

  function PartNamesOf(h: Handle, ps: seq<Part>): seq<string> {
    if ps == [] then [] else [PartKey(h.key, h.id, ps[0].number)] + PartNamesOf(h, ps[1..])
  }

  /** Commit on GCS: nothing is written at the destination before the last call. */
  function GcsCommit(s: Store, h: Handle, parts: seq<Part>): (Result<()>, Store) {
    if h.finished then (Err(Closed), s)
    else
      match SortParts(parts)
      case Err(e) => (Err(e), s)
      case Ok(ordered) =>
        var c := ComposeTree(s, Prefix(h), PartNamesOf(h, ordered), 0);
        if !c.ok || !AllStored(c.store, c.names) then (Err(ReadFailed), c.store)
        else
          var made := c.store[h.key := Raw(Joined(c.store, c.names), h.opts)];
          (Ok(()), RemovePrefix(made, Prefix(h)))
  }

  lemma {:induction false} PartNamesNotWritten(h: Handle, ps: seq<Part>)
    ensures NoneYetWritten(Prefix(h), PartNamesOf(h, ps), 0, 0) && |PartNamesOf(h, ps)| == |ps|
    decreases |ps|
  {
    hide NotYetWritten, PartKey, StagingPrefix;
    if ps != [] {
      PartNotWritten(h.key, h.id, ps[0].number, 0, 0);
      PartNamesNotWritten(h, ps[1..]);
    }
  }

  /** The generic uploader's copy loop reads the same bytes. */
  lemma {:induction false} CopyIsJoined(s: Store, h: Handle, ps: seq<Part>)
    ensures CopyParts(s, h, ps).missing.None? <==> AllStored(s, PartNamesOf(h, ps))
    ensures CopyParts(s, h, ps).missing.None? ==> CopyParts(s, h, ps).bytes == Joined(s, PartNamesOf(h, ps))
    decreases |ps|
  {
    hide PartKey;
    if ps != [] {
      var k := PartKey(h.key, h.id, ps[0].number);
      var rest := PartNamesOf(h, ps[1..]);
      assert PartNamesOf(h, ps) == [k] + rest && ([k] + rest)[1..] == rest && k in [k] + rest;
      CopyIsJoined(s, h, ps[1..]);
    }
  }

  lemma DestinationNotWritten(h: Handle, round: nat, k: nat)
    ensures NotYetWritten(Prefix(h), h.key, round, k)
  {
    hide StagingPrefix, Contains, Print;
    forall r, j: nat
      ensures h.key != InterName(Prefix(h), r, j)
    {
      KeyIsNotStaged(h.key, h.id);
      assert HasPrefix(InterName(Prefix(h), r, j), Prefix(h));
    }
  }

  /** Both uploaders make the same object of the same parts: for any number of them,
      if no part is missing and the tags are the upload's own, the destination gets
      the bytes in ascending number, and nothing staged remains. */
  lemma CommitsAgree(s: Store, h: Handle, parts: seq<Part>)
    requires PassesChecks(h, parts)
    requires AllStored(s, PartNamesOf(h, SortParts(parts).value))
    ensures var (r, t) := GcsCommit(s, h, parts);
            var generic := Final(s, Multipart.Commit(s, h, parts).trace);
            && r == Ok(()) && Multipart.Commit(s, h, parts).result == Ok(())
            && h.key in t && h.key in generic && t[h.key] == generic[h.key]
            && (forall k :: k in t ==> !HasPrefix(k, Prefix(h)))
            && (forall k :: !HasPrefix(k, Prefix(h)) ==> (k in t <==> k in generic) && (k in t ==> t[k] == generic[k]))
  {
    hide SortParts, ComposeTree, PartNamesOf, Joined, StagingPrefix, CopyParts, FirstForeign, DeleteStaged, Contains,
         NotYetWritten, InterName;
    var ordered := SortParts(parts).value;
    var names := PartNamesOf(h, ordered);
    PartNamesNotWritten(h, ordered);
    ComposeTreeKeepsBytes(s, Prefix(h), names, 0);
    CopyIsJoined(s, h, ordered);
    Multipart.DeleteStagedFinal(s[h.key := Raw(CopyParts(s, h, ordered).bytes, h.opts)], h);
    CommitFinal(s, h, parts);
    KeyIsNotStaged(h.key, h.id);
    var c := ComposeTree(s, Prefix(h), names, 0);
    forall k | !HasPrefix(k, Prefix(h))
      ensures (k in c.store <==> k in s) && (k in s ==> c.store[k] == s[k])
    {
      OutsidePrefix(Prefix(h), k);
      ComposeTreeKeeps(s, Prefix(h), names, 0, k);
    }
  }

  lemma CommitFinal(s: Store, h: Handle, parts: seq<Part>)
    requires PassesChecks(h, parts) && CopyParts(s, h, SortParts(parts).value).missing.None?
    ensures var t := s[h.key := Raw(CopyParts(s, h, SortParts(parts).value).bytes, h.opts)];
            Multipart.Commit(s, h, parts).result == Ok(())
            && Final(s, Multipart.Commit(s, h, parts).trace) == Final(t, DeleteStaged(t, h))
  {
    hide SortParts, FirstForeign, CopyParts, Deletions;
  }

  lemma OutsidePrefix(prefix: string, k: string)
    requires !HasPrefix(k, prefix)
    ensures NotYetWritten(prefix, k, 0, 0)
  {
    hide Print;
    forall r, j: nat
      ensures k != InterName(prefix, r, j)
    {
      assert HasPrefix(InterName(prefix, r, j), prefix);
    }
  }

  /** A Commit on GCS that fails leaves the destination as it was. */
  lemma FailedGcsCommitKeepsDestination(s: Store, h: Handle, parts: seq<Part>)
    requires GcsCommit(s, h, parts).0.Err?
    ensures var t := GcsCommit(s, h, parts).1;
            (h.key in t <==> h.key in s) && (h.key in s ==> t[h.key] == s[h.key])
  {
    hide SortParts, ComposeTree, PartNamesOf, Joined, StagingPrefix, Contains, NotYetWritten;
    if !h.finished && SortParts(parts).Ok? {
      DestinationNotWritten(h, 0, 0);
      ComposeTreeKeeps(s, Prefix(h), PartNamesOf(h, SortParts(parts).value), 0, h.key);
    }
  }

  // ---- when a commit succeeds ----

  /** A source that is not there makes the round fail, or is carried on. */
  lemma {:induction false} RoundMisses(s: Store, prefix: string, sources: seq<string>, round: nat, k: nat, n: string)
    requires n in sources && n !in s && NotYetWritten(prefix, n, round, k)
    ensures var c := Round(s, prefix, sources, round, k); !c.ok || (n in c.names && n !in c.store)
    decreases |sources|
  {
    hide InterName, Joined, NotYetWritten;
    var group := Group(sources);
    var rest := sources[|group|..];
    assert sources == group + rest;
    NotWrittenNow(prefix, n, round, k);
    LaterRounds(prefix, n, round, k);
    RoundKeeps(s, prefix, sources, round, k, n);
    if n !in group {
      RoundMisses(s, prefix, rest, round, k + 1, n);
      RoundMisses(s[InterName(prefix, round, k) := Raw(Joined(s, group), None)], prefix, rest, round, k + 1, n);
    }
  }

  lemma {:induction false} TreeMisses(s: Store, prefix: string, sources: seq<string>, round: nat, n: string)
    requires n in sources && n !in s && NotYetWritten(prefix, n, round, 0)
    ensures var c := ComposeTree(s, prefix, sources, round); !c.ok || !AllStored(c.store, c.names)
    decreases |sources|
  {
    hide InterName, Joined, NotYetWritten, Round;
    if |sources| > MAX_SOURCES {
      RoundShrinks(s, prefix, sources, round, 0);
      RoundMisses(s, prefix, sources, round, 0, n);
      LaterRounds(prefix, n, round, 0);
      var c := Round(s, prefix, sources, round, 0);
      if c.ok {
        TreeMisses(c.store, prefix, c.names, round + 1, n);
      }
    }
  }

  lemma {:induction false} PartNamesAre(h: Handle, ps: seq<Part>)
    ensures forall k :: k in PartNamesOf(h, ps) <==> exists i :: 0 <= i < |ps| && PartKey(h.key, h.id, ps[i].number) == k
    decreases |ps|
  {
    hide PartKey;
    if ps != [] {
      PartNamesAre(h, ps[1..]);
      assert ps == [ps[0]] + ps[1..];
    }
  }

  /** The parts that a Commit on GCS takes: some, no number twice, all there.  Tags do not
      matter. */
  predicate CanCompose(s: Store, h: Handle, parts: seq<Part>) {
    !h.finished && parts != [] && !NumbersRepeat(parts) && forall i :: 0 <= i < |parts| ==> IsStored(s, h, parts[i])
  }

  lemma {:induction false} JoinedIsParted(s: Store, h: Handle, ps: seq<Part>)
    ensures Joined(s, PartNamesOf(h, ps)) == Parted(s, h, ps)
    decreases |ps|
  {
    hide PartKey;
    if ps != [] {
      JoinedIsParted(s, h, ps[1..]);
      PartedCons(s, h, ps[0], ps[1..]);
      assert ps == [ps[0]] + ps[1..] && [ps[0]][..0] == [];
      assert PartNamesOf(h, ps)[1..] == PartNamesOf(h, ps[1..]);
    }
  }

  /** Nothing but intermediates is written before the destination is made. */
  lemma InterAlone(prefix: string, k: string)
    requires !(prefix + "inter-" <= k)
    ensures NotYetWritten(prefix, k, 0, 0)
  {
    hide Print;
    forall r, j: nat
      ensures k != InterName(prefix, r, j)
    {
      assert InterName(prefix, r, j) == prefix + "inter-" + (Print(r, 10) + "-" + Print(j, 10));
    }
  }

  /** Commit on GCS succeeds if and only if it can, and then leaves just the object, as the
      generic one does.  Else the destination and all parts stay as they were, and if
      nothing was composed all is as before. */
  lemma GcsCommitIs(s: Store, h: Handle, parts: seq<Part>)
    ensures var (r, t) := GcsCommit(s, h, parts);
            && (r == Ok(()) <==> CanCompose(s, h, parts))
            && (r == Ok(()) ==> IsCommitted(s, h, parts, t))
            && (r.Err? ==> forall k :: !(StagingPrefix(h.key, h.id) + "inter-" <= k) ==>
                  (k in t <==> k in s) && (k in s ==> t[k] == s[k]))
            && (h.finished ==> r == Err(Closed) && t == s)
            && (!h.finished && parts == [] ==> r == Err(NoParts) && t == s)
            && (!h.finished && parts != [] && NumbersRepeat(parts) ==>
                  r.Err? && r.error.DuplicatePart? && IsRepeated(parts, r.error.number) && t == s)
  {
    hide SortParts, ComposeTree, PartNamesOf, Joined, StagingPrefix, NotYetWritten, InterName, IsOrder, IsStored,
         Count, IsRepeated, Parted, PartKey, NoneYetWritten, GoodCall;
    if !h.finished && (parts == [] || NumbersRepeat(parts)) {
      CannotSort(parts);
      if parts != [] {
        CountedTwice(parts, SortParts(parts).error.number);
      }
    } else if !h.finished {
      SortedIsOrder(parts);
      GcsCommitOfOrder(s, h, parts, SortParts(parts).value);
    }
  }

  lemma GcsCommitOfOrder(s: Store, h: Handle, parts: seq<Part>, ordered: seq<Part>)
    requires !h.finished && parts != [] && !NumbersRepeat(parts)
    requires SortParts(parts) == Ok(ordered) && IsOrder(parts, ordered) && forall p :: p in ordered <==> p in parts
    ensures var (r, t) := GcsCommit(s, h, parts);
            && (r == Ok(()) <==> CanCompose(s, h, parts))
            && (r == Ok(()) ==> IsCommitted(s, h, parts, t))
            && (r.Err? ==> forall k :: !(StagingPrefix(h.key, h.id) + "inter-" <= k) ==>
                  (k in t <==> k in s) && (k in s ==> t[k] == s[k]))
  {
    hide SortParts, ComposeTree, PartNamesOf, Joined, StagingPrefix, NotYetWritten, InterName, IsOrder, Parted, PartKey,
         NoneYetWritten, GoodCall;
    var names := PartNamesOf(h, ordered);
    var c := ComposeTree(s, Prefix(h), names, 0);
    forall k | !(Prefix(h) + "inter-" <= k)
      ensures (k in c.store <==> k in s) && (k in s ==> c.store[k] == s[k])
    {
      InterAlone(Prefix(h), k);
      ComposeTreeKeeps(s, Prefix(h), names, 0, k);
    }
    PartNamesAre(h, ordered);
    if AllStored(s, names) {
      PartNamesNotWritten(h, ordered);
      ComposeTreeKeepsBytes(s, Prefix(h), names, 0);
      JoinedIsParted(s, h, ordered);
      KeyIsNotStaged(h.key, h.id);
      AllAreStored(s, h, parts, ordered);
    } else {
      SomeIsMissing(s, h, parts, ordered);
    }
  }

  lemma AllAreStored(s: Store, h: Handle, parts: seq<Part>, ordered: seq<Part>)
    requires AllStored(s, PartNamesOf(h, ordered)) && forall p :: p in ordered <==> p in parts
    ensures forall i :: 0 <= i < |parts| ==> IsStored(s, h, parts[i])
  {
    hide PartKey, PartNamesOf;
    PartNamesAre(h, ordered);
    forall i | 0 <= i < |parts|
      ensures IsStored(s, h, parts[i])
    {
      assert parts[i] in ordered;
      var j :| 0 <= j < |ordered| && ordered[j] == parts[i];
      assert PartKey(h.key, h.id, ordered[j].number) in PartNamesOf(h, ordered);
    }
  }

  lemma SomeIsMissing(s: Store, h: Handle, parts: seq<Part>, ordered: seq<Part>)
    requires !AllStored(s, PartNamesOf(h, ordered)) && forall p :: p in ordered <==> p in parts
    ensures exists i :: 0 <= i < |parts| && !IsStored(s, h, parts[i])
    ensures var c := ComposeTree(s, Prefix(h), PartNamesOf(h, ordered), 0); !c.ok || !AllStored(c.store, c.names)
  {
    hide PartKey, PartNamesOf, ComposeTree, NotYetWritten;
    PartNamesAre(h, ordered);
    var n :| n in PartNamesOf(h, ordered) && n !in s;
    var j :| 0 <= j < |ordered| && PartKey(h.key, h.id, ordered[j].number) == n;
    assert ordered[j] in parts;
    var i :| 0 <= i < |parts| && parts[i] == ordered[j];
    PartNotWritten(h.key, h.id, ordered[j].number, 0, 0);
    TreeMisses(s, Prefix(h), PartNamesOf(h, ordered), 0, n);
  }

  // ---- how many rounds ----

  function Power32(k: nat): nat {
    if k == 0 then 1 else 32 * Power32(k - 1)
  }

  /** How many objects remain after k rounds. */
  function Remaining(n: nat, k: nat): nat {
    if k == 0 then n else Groups(Remaining(n, k - 1))
  }

  lemma {:induction false} PowerPositive(k: nat)
    ensures Power32(k) >= 1
  {
    if k > 0 {
      PowerPositive(k - 1);
    }
  }

  /** Rounding up round by round is rounding up once. */
  lemma {:induction false} NestedCeiling(n: nat, k: nat)
    ensures Power32(k) >= 1 && Remaining(n, k) == CeilDiv(n, Power32(k))
  {
    PowerPositive(k);
    if k > 0 {
      NestedCeiling(n, k - 1);
      var d := Power32(k - 1);
      var m := CeilDivBounds(n, d);
      var q := CeilDivBounds(m, 32);
      assert Power32(k) == 32 * d;
      Scale(n, d, m, q);
      CeilDivIs(n, 32 * d, q);
    } else {
      CeilDivIs(n, 1, n);
    }
  }

  lemma Scale(n: nat, d: nat, m: nat, q: nat)
    requires d >= 1 && m * d < n + d <= m * d + d && q * 32 < m + 32 <= q * 32 + 32
    ensures q * (32 * d) < n + 32 * d <= q * (32 * d) + 32 * d
  {
    assert q * (32 * d) == (q * 32) * d;
    assert (q * 32) * d <= (m + 31) * d by { ProductMonotone(q * 32, m + 31, d); }
    assert m * d <= (q * 32) * d by { ProductMonotone(m, q * 32, d); }
    assert (m + 31) * d == m * d + 31 * d;
  }

  /** The rounds of composeTree. */
  function Rounds(n: nat): nat {
    if n <= MAX_SOURCES then 0 else 1 + Rounds(Groups(n))
  }

  /** After k rounds that were needed, exactly ceil(n / 32^k) objects remain. */
  lemma {:induction false} RemainingShift(n: nat, k: nat)
    ensures Remaining(Groups(n), k) == Remaining(n, k + 1)
  {
    if k > 0 {
      RemainingShift(n, k - 1);
    }
  }

  /** The number of rounds is the least k with n <= 32^(k + 1). */
  lemma {:induction false} RoundsAreLeast(n: nat)
    ensures n <= Power32(Rounds(n) + 1)
    ensures Rounds(n) > 0 ==> n > Power32(Rounds(n))
    decreases n
  {
    assert Power32(1) == 32 * Power32(0);
    if n > MAX_SOURCES {
      var m := Groups(n);
      RoundsAreLeast(m);
      assert Power32(Rounds(n) + 1) == 32 * Power32(Rounds(n));
      assert Rounds(n) == Rounds(m) + 1;
      if Rounds(m) > 0 {
        assert Power32(Rounds(n)) == 32 * Power32(Rounds(m));
      }
    }
  }

  /** composeTree makes as many rounds as that, and ends with the objects that
      remain after them. */
  lemma {:induction false} ComposeTreeRounds(s: Store, prefix: string, sources: seq<string>, round: nat)
    requires AllStored(s, sources) && NoneYetWritten(prefix, sources, round, 0)
    ensures |ComposeTree(s, prefix, sources, round).names| == Remaining(|sources|, Rounds(|sources|))
    decreases |sources|
  {
    hide InterName, Joined, NotYetWritten, Round;
    if |sources| > MAX_SOURCES {
      RoundKeepsBytes(s, prefix, sources, round, 0);
      RoundShrinks(s, prefix, sources, round, 0);
      var c := Round(s, prefix, sources, round, 0);
      ComposeTreeRounds(c.store, prefix, c.names, round + 1);
      RemainingShift(|sources|, Rounds(Groups(|sources|)));
    }
  }
}
