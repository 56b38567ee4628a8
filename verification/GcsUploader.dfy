/** composeTree and Commit of the GCS uploader as they run (gcsmp.go:228-295). */
module GcsUploader {
  import opened Strings
  import opened Staging
  import opened Parts
  import opened Multipart
  import opened Compose

  class GcsBucket {
    var objects: Store
    ghost var calls: seq<Call>

    constructor ()
      ensures objects == map[] && calls == []
    {
      objects, calls := map[], [];
    }

    /** ComposerFrom(sources...).Run; GCS refuses a call outside its limits. */
    method Run(target: string, sources: seq<string>, opts: Option<Options>) returns (ok: bool)
      requires 2 <= |sources| <= MAX_SOURCES
      modifies this
      ensures ok == AllStored(old(objects), sources)
      ensures ok ==> objects == old(objects)[target := Raw(Joined(old(objects), sources), opts)]
      ensures ok ==> calls == old(calls) + [Call(target, sources)]
      ensures !ok ==> objects == old(objects) && calls == old(calls)
    {
      ok := AllStored(objects, sources);
      if ok {
        objects := objects[target := Raw(Joined(objects, sources), opts)];
        calls := calls + [Call(target, sources)];
      }
    }

    /** CopierFrom(source).Run. */
    method Copy(target: string, source: string, opts: Option<Options>) returns (ok: bool)
      modifies this
      ensures ok == (source in old(objects)) && calls == old(calls)
      ensures objects == if ok then old(objects)[target := Raw(BytesOf(old(objects)[source]), opts)] else old(objects)
    {
      ok := source in objects;
      if ok {
        objects := objects[target := Raw(BytesOf(objects[source]), opts)];
      }
    }

    method DeleteAll(prefix: string)
      modifies this
      ensures objects == RemovePrefix(old(objects), prefix) && calls == old(calls)
    {
      objects := RemovePrefix(objects, prefix);
    }
  }

  class Uploader {
    const bucket: GcsBucket
    const name: string
    const uploadID: string
    const opts: Option<Options>
    var finished: bool

    constructor (bucket: GcsBucket, name: string, uploadID: string, opts: Option<Options>)
      ensures this.bucket == bucket && Self() == Handle(name, uploadID, opts, false)
    {
      this.bucket, this.name, this.uploadID, this.opts, finished := bucket, name, uploadID, opts, false;
    }

    function Self(): Handle
      reads this
    {
      Handle(name, uploadID, opts, finished)
    }

    /** One round: groups of 32 become one object each, a group of one is carried. */
    method ComposeRound(sources: seq<string>, round: nat) returns (next: seq<string>, ok: bool)
      modifies bucket
      ensures var c := Round(old(bucket.objects), StagingPrefix(name, uploadID), sources, round, 0);
              && ok == c.ok && bucket.objects == c.store && bucket.calls == old(bucket.calls) + c.calls
              && (ok ==> next == c.names)
    {
      hide StagingPrefix, InterName, Joined, AllStored, Round, From, Group, Continues;
      var prefix := StagingPrefix(name, uploadID);
      ghost var all := Round(bucket.objects, prefix, sources, round, 0);
      ghost var calls: seq<Call> := [];
      next := [];
      var i := 0;
      ghost var k := 0;
      FromStart(sources, all);
      while i < |sources|
        invariant 0 <= k && i == MAX_SOURCES * k
        invariant bucket.calls == old(bucket.calls) + calls
        invariant Continues(all, next, calls, Round(bucket.objects, prefix, From(sources, i), round, k))
        decreases |sources| - i
      {
        var end := if i + MAX_SOURCES <= |sources| then i + MAX_SOURCES else |sources|;
        var group := sources[i..end];
        NextGroup(sources, i, group);
        ghost var left := Round(bucket.objects, prefix, From(sources, i), round, k);
        RoundStep(bucket.objects, prefix, From(sources, i), round, k);
        if |group| == 1 {
          ContinuesMore(all, next, calls, left, [group[0]], [],
                        Round(bucket.objects, prefix, From(sources, i + MAX_SOURCES), round, k + 1));
          next := next + [group[0]];
          assert calls + [] == calls;
        } else {
          var inter := InterName(prefix, round, i / MAX_SOURCES);
          ok := bucket.Run(inter, group, None);
          if !ok {
            ContinuesFailed(all, next, calls, left);
            return [], false;
          }
          ContinuesMore(all, next, calls, left, [inter], [Call(inter, group)],
                        Round(bucket.objects, prefix, From(sources, i + MAX_SOURCES), round, k + 1));
          calls := calls + [Call(inter, group)];
          next := next + [inter];
        }
        i := i + MAX_SOURCES;
        k := k + 1;
      }
      FromEnd(sources, i);
      RoundOfNone(bucket.objects, prefix, round, k);
      ContinuesDone(all, next, calls, Round(bucket.objects, prefix, [], round, k));
      return next, true;
    }

    method ComposeTree(given: seq<string>) returns (sources: seq<string>, ok: bool)
      modifies bucket
      ensures var c := Compose.ComposeTree(old(bucket.objects), StagingPrefix(name, uploadID), given, 0);
              && ok == c.ok && bucket.objects == c.store && bucket.calls == old(bucket.calls) + c.calls
              && (ok ==> sources == c.names)
    {
      hide StagingPrefix, Round, Groups;
      ghost var prefix := StagingPrefix(name, uploadID);
      ghost var all := Compose.ComposeTree(bucket.objects, prefix, given, 0);
      ghost var calls: seq<Call> := [];
      var round := 0;
      sources := given;
      while |sources| > MAX_SOURCES
        invariant bucket.calls == old(bucket.calls) + calls
        invariant var c := Compose.ComposeTree(bucket.objects, prefix, sources, round);
                  all.ok == c.ok && all.store == c.store && all.calls == calls + c.calls && all.names == c.names
        decreases |sources|
      {
        RoundShrinks(bucket.objects, prefix, sources, round, 0);
        ghost var c := Round(bucket.objects, prefix, sources, round, 0);
        var next, done := ComposeRound(sources, round);
        calls := calls + c.calls;
        if !done {
          return [], false;
        }
        sources := next;
        round := round + 1;
      }
      return sources, true;
    }

    method Commit(parts: seq<Part>) returns (result: Result<()>)
      modifies bucket, this
      ensures (result, bucket.objects) == GcsCommit(old(bucket.objects), old(Self()), parts)
      ensures Self() == old(Self()).(finished := old(finished) || result.Ok?)
      ensures (forall c :: c in old(bucket.calls) ==> GoodCall(c)) ==> forall c :: c in bucket.calls ==> GoodCall(c)
    {
      hide StagingPrefix, SortParts, Compose.ComposeTree, Joined, AllStored, Contains, GoodCall, PartKey, RemovePrefix;
      if finished {
        return Err(Closed);
      }
      var sorted := SortPartsLoop(parts);
      if sorted.Err? {
        return Err(sorted.error);
      }
      var sources := PartNamesOf(Self(), sorted.value);
      SortedNotEmpty(parts);
      FinalNames(bucket.objects, Self(), sorted.value);
      var last, ok := ComposeTree(sources);
      if !ok {
        return Err(ReadFailed);
      }
      if |last| == 1 && last[0] != name {
        SingleJoined(bucket.objects, last);
        ok := bucket.Copy(name, last[0], opts);
      } else {
        assert last[0] in last;
        LastCallGood(name, last);
        ok := bucket.Run(name, last, opts);
      }
      if !ok {
        return Err(ReadFailed);
      }
      finished := true;
      bucket.DeleteAll(StagingPrefix(name, uploadID));
      return Ok(());
    }
  }

  function From(sources: seq<string>, i: nat): seq<string> {
    if i <= |sources| then sources[i..] else []
  }

  /** all is what has been done, next and calls, followed by what is left to do. */
  ghost predicate Continues(all: Composed, next: seq<string>, calls: seq<Call>, left: Composed) {
    && all.ok == left.ok && all.store == left.store && all.calls == calls + left.calls
    && (left.ok ==> all.names == next + left.names)
  }

  lemma FromStart(sources: seq<string>, all: Composed)
    ensures From(sources, 0) == sources && Continues(all, [], [], all)
  {
    assert [] + all.calls == all.calls && [] + all.names == all.names;
  }

  lemma FromEnd(sources: seq<string>, i: nat)
    requires i >= |sources|
    ensures From(sources, i) == []
  {
  }

  lemma ContinuesMore(all: Composed, next: seq<string>, calls: seq<Call>, left: Composed,
                      names: seq<string>, more: seq<Call>, rest: Composed)
    requires Continues(all, next, calls, left) && Continues(left, names, more, rest)
    ensures Continues(all, next + names, calls + more, rest)
  {
    assert next + (names + rest.names) == (next + names) + rest.names;
    assert calls + (more + rest.calls) == (calls + more) + rest.calls;
  }

  lemma ContinuesFailed(all: Composed, next: seq<string>, calls: seq<Call>, left: Composed)
    requires Continues(all, next, calls, left) && left.calls == [] && !left.ok
    ensures !all.ok && all.store == left.store && all.calls == calls
  {
    assert calls + [] == calls;
  }

  lemma ContinuesDone(all: Composed, next: seq<string>, calls: seq<Call>, left: Composed)
    requires Continues(all, next, calls, left) && left.calls == [] && left.names == [] && left.ok
    ensures all == Composed(left.store, next, calls, true)
  {
    assert calls + [] == calls && next + [] == next;
  }

  lemma NextGroup(sources: seq<string>, i: nat, group: seq<string>)
    requires i < |sources|
    requires group == sources[i..if i + MAX_SOURCES <= |sources| then i + MAX_SOURCES else |sources|]
    ensures From(sources, i) != [] && group == Group(From(sources, i)) && 1 <= |group| <= MAX_SOURCES
    ensures From(sources, i)[|group|..] == From(sources, i + MAX_SOURCES)
  {
  }

  lemma RoundStep(s: Store, prefix: string, sources: seq<string>, round: nat, k: nat)
    requires sources != []
    ensures var group := Group(sources);
            var rest := sources[|group|..];
            var inter := InterName(prefix, round, k);
            var c := Round(s, prefix, sources, round, k);
            if |group| == 1 then
              Continues(c, [group[0]], [], Round(s, prefix, rest, round, k + 1))
            else if !AllStored(s, group) then
              c == Composed(s, [], [], false)
            else
              Continues(c, [inter], [Call(inter, group)],
                        Round(s[inter := Raw(Joined(s, group), None)], prefix, rest, round, k + 1))
  {
    hide InterName, Joined, AllStored;
    var group := Group(sources);
    assert |group| == 1 ==> group == [group[0]];
    assert forall x: seq<Call> :: [] + x == x;
  }

  lemma RoundOfNone(s: Store, prefix: string, round: nat, k: nat)
    ensures Round(s, prefix, [], round, k) == Composed(s, [], [], true)
  {
  }

  /** All names that composeTree leaves are staged ones, and there are some. */
  lemma {:induction false} RoundNamesStaged(s: Store, prefix: string, sources: seq<string>, round: nat, k: nat)
    requires forall n :: n in sources ==> HasPrefix(n, prefix)
    ensures forall n :: n in Round(s, prefix, sources, round, k).names ==> HasPrefix(n, prefix)
    decreases |sources|
  {
    hide Joined, AllStored;
    if sources != [] {
      var group := Group(sources);
      var rest := sources[|group|..];
      assert forall n :: n in rest ==> n in sources;
      assert forall n :: n in group ==> n in sources;
      if |group| == 1 {
        RoundNamesStaged(s, prefix, rest, round, k + 1);
      } else {
        RoundNamesStaged(s[InterName(prefix, round, k) := Raw(Joined(s, group), None)], prefix, rest, round, k + 1);
      }
    }
  }

  lemma {:induction false} TreeNamesStaged(s: Store, prefix: string, sources: seq<string>, round: nat)
    requires forall n :: n in sources ==> HasPrefix(n, prefix)
    ensures var c := Compose.ComposeTree(s, prefix, sources, round);
            && (forall n :: n in c.names ==> HasPrefix(n, prefix))
            && (c.ok && sources != [] ==> 1 <= |c.names| <= MAX_SOURCES)
    decreases |sources|
  {
    hide Round;
    if |sources| > MAX_SOURCES {
      RoundNamesStaged(s, prefix, sources, round, 0);
      RoundShrinks(s, prefix, sources, round, 0);
      var c := Round(s, prefix, sources, round, 0);
      if c.ok {
        TreeNamesStaged(c.store, prefix, c.names, round + 1);
      }
    }
  }

  lemma {:induction false} TreeCallsGood(s: Store, prefix: string, sources: seq<string>, round: nat)
    requires NoneYetWritten(prefix, sources, round, 0)
    ensures forall c :: c in Compose.ComposeTree(s, prefix, sources, round).calls ==> GoodCall(c)
    decreases |sources|
  {
    hide Round, NotYetWritten, GoodCall;
    if |sources| > MAX_SOURCES {
      RoundCallsGood(s, prefix, sources, round, 0);
      RoundShrinks(s, prefix, sources, round, 0);
      var c := Round(s, prefix, sources, round, 0);
      if c.ok {
        RoundNamesFresh(s, prefix, sources, round, 0);
        TreeCallsGood(c.store, prefix, c.names, round + 1);
      }
    }
  }

  lemma {:induction false} RoundNamesFresh(s: Store, prefix: string, sources: seq<string>, round: nat, k: nat)
    requires NoneYetWritten(prefix, sources, round, k)
    ensures NoneYetWritten(prefix, Round(s, prefix, sources, round, k).names, round + 1, 0)
    decreases |sources|
  {
    hide InterName, Joined, AllStored, NotYetWritten;
    if sources != [] {
      var group := Group(sources);
      var rest := sources[|group|..];
      var inter := InterName(prefix, round, k);
      InterNotWritten(prefix, round, k);
      LaterRounds(prefix, inter, round, k + 1);
      forall n | n in sources
        ensures NotYetWritten(prefix, n, round, k + 1) && NotYetWritten(prefix, n, round + 1, 0)
      {
        LaterRounds(prefix, n, round, k);
      }
      assert forall n :: n in rest ==> n in sources;
      assert forall n :: n in group ==> n in sources;
      if |group| == 1 {
        RoundNamesFresh(s, prefix, rest, round, k + 1);
      } else {
        RoundNamesFresh(s[inter := Raw(Joined(s, group), None)], prefix, rest, round, k + 1);
      }
    }
  }

  lemma {:induction false} PartNamesStaged(h: Handle, ps: seq<Part>)
    ensures |PartNamesOf(h, ps)| == |ps|
    ensures forall n :: n in PartNamesOf(h, ps) ==> HasPrefix(n, Prefix(h))
    decreases |ps|
  {
    if ps != [] {
      PartNamesStaged(h, ps[1..]);
    }
  }

  /** What Commit knows of the objects that composeTree leaves. */
  lemma FinalNames(s: Store, h: Handle, ordered: seq<Part>)
    requires ordered != []
    ensures var c := Compose.ComposeTree(s, Prefix(h), PartNamesOf(h, ordered), 0);
            && (forall d :: d in c.calls ==> GoodCall(d))
            && h.key !in c.names
            && (c.ok ==> 1 <= |c.names| <= MAX_SOURCES)
  {
    hide StagingPrefix, Contains, Compose.ComposeTree, GoodCall, NotYetWritten;
    PartNamesNotWritten(h, ordered);
    TreeCallsGood(s, Prefix(h), PartNamesOf(h, ordered), 0);
    PartNamesStaged(h, ordered);
    TreeNamesStaged(s, Prefix(h), PartNamesOf(h, ordered), 0);
    KeyIsNotStaged(h.key, h.id);
  }

  lemma SingleJoined(s: Store, names: seq<string>)
    requires |names| == 1
    ensures AllStored(s, names) <==> names[0] in s
    ensures names[0] in s ==> Joined(s, names) == BytesOf(s[names[0]])
  {
    assert names == [names[0]];
    if names[0] in s {
      JoinedOne(s, names[0]);
    }
  }

  lemma LastCallGood(name: string, last: seq<string>)
    requires 2 <= |last| <= MAX_SOURCES && name !in last
    ensures GoodCall(Call(name, last))
  {
  }

  lemma SortedNotEmpty(parts: seq<Part>)
    requires SortParts(parts).Ok?
    ensures SortParts(parts).value != []
  {
    SortPartsSpec(parts);
    assert |multiset(parts)| == |parts|;
    assert |multiset(SortParts(parts).value)| == |SortParts(parts).value|;
  }
}
