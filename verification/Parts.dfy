/** Parts and what every backend does with a list of them
    (multipart.go:91-318). */
module Parts {
  import opened Strings
  import opened PartNames

  datatype Part = Part(number: int, size: int, tag: string)

  datatype Constraints = Constraints(minPartSize: int, maxPartSize: int, maxParts: int, resumable: bool)

  datatype Error =
    | EmptyKey
    | ReservedInfix
    | Closed
    | InvalidPartNumber(number: int, max: int)
    | DuplicatePart(number: int)
    | NoParts
    | PartTooSmall(number: int)
    | ForeignPart(number: int)
    | MissingPart(number: int)
    | UploadNotFound
    | UnreadableManifest
    | ReadFailed

  datatype Result<+T> = Ok(value: T) | Err(error: Error)

  function MaxParts(c: Constraints): int {
    if c.maxParts <= 0 || c.maxParts > MAX_PART_NUMBER then MAX_PART_NUMBER else c.maxParts
  }

  function ValidatePartNumber(number: int, c: Constraints): Option<Error> {
    if number < 1 || number > MaxParts(c) then Some(InvalidPartNumber(number, MaxParts(c))) else None
  }

  // ---- sorting ----

  function InsertPart(p: Part, sorted: seq<Part>): seq<Part> {
    if sorted == [] || p.number < sorted[0].number then [p] + sorted
    else [sorted[0]] + InsertPart(p, sorted[1..])
  }

  /** sort.Slice by number. */
  function SortByNumber(parts: seq<Part>): seq<Part> {
    if parts == [] then []
    else InsertPart(parts[|parts| - 1], SortByNumber(parts[..|parts| - 1]))
  }

  predicate NumbersAscend(parts: seq<Part>) {
    forall i, j :: 0 <= i < j < |parts| ==> parts[i].number < parts[j].number
  }

  predicate NumbersSorted(parts: seq<Part>) {
    forall i, j :: 0 <= i < j < |parts| ==> parts[i].number <= parts[j].number
  }

  predicate NumbersDiffer(parts: seq<Part>) {
    forall i, j :: 0 <= i < j < |parts| ==> parts[i].number != parts[j].number
  }

  lemma {:induction false} InsertKeeps(p: Part, sorted: seq<Part>)
    requires NumbersSorted(sorted)
    ensures var r := InsertPart(p, sorted);
            NumbersSorted(r) && multiset(r) == multiset(sorted) + multiset{p}
  {
    hide InsertPart;
    if sorted == [] || p.number < sorted[0].number {
      InsertFirst(p, sorted);
      PrependSorted(p, sorted);
    } else {
      var rest := InsertPart(p, sorted[1..]);
      InsertLater(p, sorted);
      InsertKeeps(p, sorted[1..]);
      assert sorted == [sorted[0]] + sorted[1..];
      forall x | x in rest
        ensures sorted[0].number <= x.number
      {
        assert x in multiset(rest);
      }
      PrependSorted(sorted[0], rest);
    }
  }

  lemma InsertFirst(p: Part, sorted: seq<Part>)
    requires sorted == [] || p.number < sorted[0].number
    ensures InsertPart(p, sorted) == [p] + sorted
  {
  }

  lemma InsertLater(p: Part, sorted: seq<Part>)
    requires sorted != [] && sorted[0].number <= p.number
    ensures InsertPart(p, sorted) == [sorted[0]] + InsertPart(p, sorted[1..])
  {
  }

  lemma PrependSorted(p: Part, sorted: seq<Part>)
    requires NumbersSorted(sorted) && forall x :: x in sorted ==> p.number <= x.number
    ensures NumbersSorted([p] + sorted)
  {
    var r := [p] + sorted;
    forall i, j | 0 <= i < j < |r|
      ensures r[i].number <= r[j].number
    {
      assert r[j] in sorted;
    }
  }

  lemma {:induction false} SortKeeps(parts: seq<Part>)
    ensures NumbersSorted(SortByNumber(parts)) && multiset(SortByNumber(parts)) == multiset(parts)
    decreases |parts|
  {
    if parts != [] {
      SortKeeps(parts[..|parts| - 1]);
      InsertKeeps(parts[|parts| - 1], SortByNumber(parts[..|parts| - 1]));
      assert parts == parts[..|parts| - 1] + [parts[|parts| - 1]];
    }
  }

  /** Sorted sequences with the same parts are equal if the numbers differ. */
  lemma {:induction false} SortedUnique(a: seq<Part>, b: seq<Part>)
    requires NumbersAscend(a) && NumbersAscend(b) && forall p :: p in a <==> p in b
    ensures a == b
    decreases |a|
  {
    assert a != [] ==> a[0] in a;
    assert b != [] ==> b[0] in b;
    if a != [] {
      var i :| 0 <= i < |b| && b[i] == a[0];
      var j :| 0 <= j < |a| && a[j] == b[0];
      assert a[0] == b[0];
      TailParts(a);
      TailParts(b);
      SortedUnique(a[1..], b[1..]);
      assert a == [a[0]] + a[1..] && b == [b[0]] + b[1..];
    }
  }

  lemma TailParts(a: seq<Part>)
    requires a != [] && NumbersAscend(a)
    ensures NumbersAscend(a[1..]) && forall p :: p in a[1..] <==> p in a && p != a[0]
  {
    forall p | p in a[1..]
      ensures p in a && p != a[0]
    {
      var i :| 0 <= i < |a| - 1 && a[1..][i] == p;
      assert a[i + 1] == p;
    }
    assert a == [a[0]] + a[1..];
  }

  /** The first number that occurs twice in a sorted list. */
  function FirstDuplicate(sorted: seq<Part>, i: nat): Option<int>
    requires 1 <= i
    decreases |sorted| - i
  {
    if i >= |sorted| then None
    else if sorted[i].number == sorted[i - 1].number then Some(sorted[i].number)
    else FirstDuplicate(sorted, i + 1)
  }

  function SortParts(parts: seq<Part>): Result<seq<Part>> {
    if parts == [] then Err(NoParts)
    else
      var out := SortByNumber(parts);
      match FirstDuplicate(out, 1)
      case Some(n) => Err(DuplicatePart(n))
      case None => Ok(out)
  }

  lemma {:induction false} NoDuplicateAscends(sorted: seq<Part>, i: nat)
    requires 1 <= i && NumbersSorted(sorted)
    requires sorted == [] || (i <= |sorted| && NumbersAscend(sorted[..i]))
    ensures FirstDuplicate(sorted, i).None? <==> NumbersAscend(sorted)
    decreases |sorted| - i
  {
    if i < |sorted| {
      if sorted[i].number != sorted[i - 1].number {
        forall j | 0 <= j < i
          ensures sorted[j].number < sorted[i].number
        {
          assert sorted[..i][j].number <= sorted[..i][i - 1].number;
        }
        assert forall j :: 0 <= j < i ==> sorted[..i + 1][j] == sorted[..i][j];
        NoDuplicateAscends(sorted, i + 1);
      }
    } else if i == |sorted| {
      assert sorted[..i] == sorted;
    }
  }

  lemma FirstAscends(a: seq<Part>)
    ensures 1 <= |a| ==> NumbersAscend(a[..1])
  {
  }

  lemma {:induction false} DuplicateIsTwice(sorted: seq<Part>, i: nat)
    requires 1 <= i && FirstDuplicate(sorted, i).Some?
    ensures Count(sorted, FirstDuplicate(sorted, i).value) >= 2
    decreases |sorted| - i
  {
    if sorted[i].number == sorted[i - 1].number {
      CountTwice(sorted, i - 1, i);
    } else {
      DuplicateIsTwice(sorted, i + 1);
    }
  }

  /** SortParts succeeds on distinct numbers, and then returns the same parts in
      ascending order; otherwise the error names a number that was given more than once. */
  lemma SortPartsSpec(parts: seq<Part>)
    ensures SortParts(parts).Ok? <==> parts != [] && NumbersDiffer(parts)
    ensures SortParts(parts).Ok? ==>
              NumbersAscend(SortParts(parts).value) && multiset(SortParts(parts).value) == multiset(parts)
    ensures SortParts(parts).Err? && parts == [] ==> SortParts(parts).error == NoParts
    ensures SortParts(parts).Err? && parts != [] ==>
              SortParts(parts).error.DuplicatePart? && Count(parts, SortParts(parts).error.number) >= 2
  {
    hide SortByNumber, NumbersAscend, NumbersDiffer, NumbersSorted, Count;
    var out := SortByNumber(parts);
    SortKeeps(parts);
    SameSizes(out, parts);
    FirstAscends(out);
    NoDuplicateAscends(out, 1);
    if NumbersAscend(out) {
      AscendDiffers(parts, out);
    }
    if NumbersDiffer(parts) {
      DiffersAscend(parts, out);
    }
    if FirstDuplicate(out, 1).Some? {
      DuplicateIsTwice(out, 1);
      CountMultiset(out, parts, FirstDuplicate(out, 1).value);
    }
  }

  lemma SameSizes(a: seq<Part>, b: seq<Part>)
    requires multiset(a) == multiset(b)
    ensures |a| == |b|
  {
    assert |multiset(a)| == |a| && |multiset(b)| == |b|;
  }

  /** How many parts have a number. */
  function Count(parts: seq<Part>, n: int): nat {
    if parts == [] then 0
    else Count(parts[..|parts| - 1], n) + if parts[|parts| - 1].number == n then 1 else 0
  }

  lemma {:induction false} CountOnce(parts: seq<Part>, n: int)
    requires NumbersDiffer(parts)
    ensures Count(parts, n) <= 1
    ensures Count(parts, n) == 1 ==> exists i :: 0 <= i < |parts| && parts[i].number == n
    decreases |parts|
  {
    if parts != [] {
      CountOnce(parts[..|parts| - 1], n);
    }
  }

  lemma {:induction false} CountTwice(parts: seq<Part>, i: nat, j: nat)
    requires i < j < |parts| && parts[i].number == parts[j].number
    ensures Count(parts, parts[i].number) >= 2
    decreases |parts|
  {
    var front := parts[..|parts| - 1];
    if j < |front| {
      CountTwice(front, i, j);
    } else {
      CountSome(front, i);
    }
  }

  lemma {:induction false} CountSome(parts: seq<Part>, i: nat)
    requires i < |parts|
    ensures Count(parts, parts[i].number) >= 1
    decreases |parts|
  {
    if i < |parts| - 1 {
      CountSome(parts[..|parts| - 1], i);
    }
  }

  lemma {:induction false} CountMultiset(a: seq<Part>, b: seq<Part>, n: int)
    requires multiset(a) == multiset(b)
    ensures Count(a, n) == Count(b, n)
    decreases |a|
  {
    SameSizes(a, b);
    if a != [] {
      var p := a[|a| - 1];
      assert p in multiset(a);
      var i :| 0 <= i < |b| && b[i] == p;
      var c := b[..i] + b[i + 1..];
      assert a == a[..|a| - 1] + [p];
      assert b == b[..i] + [p] + b[i + 1..];
      assert multiset(a[..|a| - 1]) == multiset(a) - multiset{p};
      assert multiset(c) == multiset(b) - multiset{p};
      CountMultiset(a[..|a| - 1], c, n);
      CountConcat(b[..i] + [p], b[i + 1..], n);
      CountConcat(b[..i], b[i + 1..], n);
      assert (b[..i] + [p])[..i] == b[..i];
    }
  }

  lemma {:induction false} CountConcat(a: seq<Part>, b: seq<Part>, n: int)
    ensures Count(a + b, n) == Count(a, n) + Count(b, n)
    decreases |b|
  {
    if b == [] {
      assert a + b == a;
    } else {
      assert (a + b)[..|a + b| - 1] == a + b[..|b| - 1];
      CountConcat(a, b[..|b| - 1], n);
    }
  }

  lemma AscendDiffers(parts: seq<Part>, out: seq<Part>)
    requires multiset(out) == multiset(parts) && NumbersAscend(out)
    ensures NumbersDiffer(parts)
  {
    forall i, j | 0 <= i < j < |parts|
      ensures parts[i].number != parts[j].number
    {
      if parts[i].number == parts[j].number {
        CountTwice(parts, i, j);
        CountMultiset(out, parts, parts[i].number);
        CountOnce(out, parts[i].number);
      }
    }
  }

  lemma DiffersAscend(parts: seq<Part>, out: seq<Part>)
    requires multiset(out) == multiset(parts) && NumbersSorted(out) && NumbersDiffer(parts)
    ensures NumbersAscend(out)
  {
    forall i, j | 0 <= i < j < |out|
      ensures out[i].number < out[j].number
    {
      if out[i].number == out[j].number {
        CountTwice(out, i, j);
        CountMultiset(out, parts, out[i].number);
        CountOnce(parts, out[i].number);
      }
    }
  }

  /** The order in which parts are given does not matter. */
  lemma SortPartsPermutation(a: seq<Part>, b: seq<Part>)
    requires multiset(a) == multiset(b) && NumbersDiffer(a)
    ensures SortParts(a) == SortParts(b)
  {
    SameSizes(a, b);
    SortPartsSpec(a);
    SortPartsSpec(b);
    SortKeeps(b);
    SortKeeps(a);
    if a != [] {
      DiffersAscend(a, SortByNumber(a));
      DiffersAscend(a, SortByNumber(b));
      AscendDiffers(b, SortByNumber(b));
      forall p ensures p in SortByNumber(a) <==> p in SortByNumber(b) {
        assert p in multiset(SortByNumber(a)) <==> p in multiset(SortByNumber(b));
      }
      SortedUnique(SortByNumber(a), SortByNumber(b));
    }
  }

  /** SortParts as it runs: copy, sort, then one pass over neighbours. */
  method SortPartsLoop(parts: seq<Part>) returns (r: Result<seq<Part>>)
    ensures r == SortParts(parts)
  {
    if |parts| == 0 {
      return Err(NoParts);
    }
    var out := SortByNumber(parts);
    var i := 1;
    while i < |out|
      invariant 1 <= i && FirstDuplicate(out, 1) == FirstDuplicate(out, i)
    {
      if out[i].number == out[i - 1].number {
        return Err(DuplicatePart(out[i].number));
      }
      i := i + 1;
    }
    return Ok(out);
  }

  ghost predicate IsFirstTooSmall(parts: seq<Part>, c: Constraints, i: nat, e: Error)
    requires i < |parts|
  {
    && e == PartTooSmall(parts[i].number) && parts[i].size < c.minPartSize
    && forall j :: 0 <= j < i ==> parts[j].size >= c.minPartSize
  }

  /** CheckPartSizes: the first part but the last one that is below the minimum. */
  method CheckPartSizes(parts: seq<Part>, c: Constraints) returns (e: Option<Error>)
    ensures e.None? <==> c.minPartSize <= 0 || forall i :: 0 <= i < |parts| - 1 ==> parts[i].size >= c.minPartSize
    ensures e.Some? ==> exists i :: 0 <= i < |parts| - 1 && IsFirstTooSmall(parts, c, i, e.value)
  {
    if c.minPartSize <= 0 || |parts| < 2 {
      return None;
    }
    for i := 0 to |parts| - 1
      invariant forall j :: 0 <= j < i ==> parts[j].size >= c.minPartSize
    {
      if parts[i].size < c.minPartSize {
        assert IsFirstTooSmall(parts, c, i, PartTooSmall(parts[i].number));
        return Some(PartTooSmall(parts[i].number));
      }
    }
    return None;
  }
}
