/** When each call of an uploader succeeds, what it then leaves in the bucket, and what it
    reports else: said of numbers, tags and objects, for any store
    (blob/multipart/bucket.go:89-368, blob/multipart/gcsmp/gcsmp.go:228-275). */
module UploadContracts {
  import opened Strings
  import opened Numerals
  import opened PartNames
  import opened Staging
  import opened Parts
  import opened Multipart

  // ---- names ----

  /** The five digits of a number. */
  predicate FiveDigits(name: string, n: int) {
    && |name| == 5 && (forall i :: 0 <= i < 5 ==> '0' <= name[i] <= '9')
    && n == 10000 * (name[0] as int - '0' as int) + 1000 * (name[1] as int - '0' as int)
            + 100 * (name[2] as int - '0' as int) + 10 * (name[3] as int - '0' as int) + (name[4] as int - '0' as int)
  }

  /** Where the manifest and the parts of an upload lie. */
  lemma NamesAre(key: string, id: string, n: int)
    requires 1 <= n <= 10000
    ensures ManifestKey(key, id) == key + ".gocdkmpu." + id + "/manifest.json"
    ensures exists name :: FiveDigits(name, n) && PartKey(key, id, n) == key + ".gocdkmpu." + id + "/" + name
  {
    hide Print, FixedDigits;
    assert Power10(2) == 100 && Power10(5) == 100000;
    PrintFits(n, 5);
    FixedAreFive(n);
    var name := PartName(n);
    assert FiveDigits(name, n) && PartKey(key, id, n) == key + ".gocdkmpu." + id + "/" + name;
    assert key + ".gocdkmpu." + id + "/" + "manifest.json" == key + ".gocdkmpu." + id + "/manifest.json";
  }

  lemma FixedAreFive(n: nat)
    requires n < 100000
    ensures FiveDigits(FixedDigits(n, 5), n)
  {
    hide FixedDigits;
    var a, b, c, d := n / 10, n / 10 / 10, n / 10 / 10 / 10, n / 10 / 10 / 10 / 10;
    LastDigit(n, 5);
    LastDigit(a, 4);
    LastDigit(b, 3);
    LastDigit(c, 2);
    LastDigit(d, 1);
    NoDigits(d / 10);
    assert FixedDigits(n, 5) == [DIGITS[d % 10], DIGITS[c % 10], DIGITS[b % 10], DIGITS[a % 10], DIGITS[n % 10]];
    Decimal(n, a, b, c, d);
    FiveAre(n, d % 10, c % 10, b % 10, a % 10, n % 10);
  }

  lemma FiveAre(n: nat, d4: nat, d3: nat, d2: nat, d1: nat, d0: nat)
    requires d4 < 10 && d3 < 10 && d2 < 10 && d1 < 10 && d0 < 10
    requires n == 10000 * d4 + 1000 * d3 + 100 * d2 + 10 * d1 + d0
    ensures FiveDigits([DIGITS[d4], DIGITS[d3], DIGITS[d2], DIGITS[d1], DIGITS[d0]], n)
  {
    DigitCode(d4);
    DigitCode(d3);
    DigitCode(d2);
    DigitCode(d1);
    DigitCode(d0);
  }

  lemma Decimal(n: nat, a: nat, b: nat, c: nat, d: nat)
    requires n < 100000 && a == n / 10 && b == a / 10 && c == b / 10 && d == c / 10
    ensures n == 10000 * (d % 10) + 1000 * (c % 10) + 100 * (b % 10) + 10 * (a % 10) + n % 10
  {
  }

  lemma LastDigit(n: nat, w: nat)
    requires w > 0
    ensures FixedDigits(n, w) == FixedDigits(n / 10, w - 1) + [DIGITS[n % 10]]
  {
  }

  lemma NoDigits(n: nat)
    ensures FixedDigits(n, 0) == ""
  {
  }

  lemma DigitCode(d: nat)
    requires d < 10
    ensures DIGITS[d] as int == '0' as int + d
  {
  }

  // ---- the calls but for Commit ----

  /** NewUploader: a key that is not empty and does not contain the infix gets a manifest. */
  lemma NewUploadIs(s: Store, key: string, id: string, opts: Option<Options>)
    ensures var o := NewUpload(s, key, id, opts);
            var reserved := exists i :: OccursAt(key, ".gocdkmpu.", i);
            && (o.result.Ok? <==> key != "" && !reserved)
            && (o.result.Ok? ==> o.result.value == Handle(key, id, opts, false)
                                 && o.trace == [s[ManifestKey(key, id) := Json(key, opts)]])
            && (o.result.Err? ==> o.trace == [] && o.result.error == if key == "" then EmptyKey else ReservedInfix)
  {
    hide ManifestKey;
    assert forall i :: OccursAt(key, ".gocdkmpu.", i) ==> 0 <= i <= |key|;
  }

  /** Open: the manifest must be there, readable, and of that very key. */
  lemma OpenIs(s: Store, key: string, id: string)
    ensures var r, m := OpenUpload(s, key, id), ManifestKey(key, id);
            && (r.Ok? <==> key != "" && id != "" && m in s && s[m].Json? && s[m].key == key)
            && (r.Ok? ==> r.value == Handle(key, id, s[m].opts, false))
            && (r.Err? ==> r.error == if key != "" && id != "" && m in s && s[m].Raw? then UnreadableManifest
                                      else UploadNotFound)
  {
    hide ManifestKey;
  }

  /** UploadPart: on an unfinished handle every number from 1 to 10000 is good, and the
      part holds what the reader gives; of a reader that fails nothing stays. */
  lemma UploadPartIs(s: Store, h: Handle, number: int, r: Reader)
    ensures var o, k := UploadPart(s, h, number, r), PartKey(h.key, h.id, number);
            && (o.result.Ok? <==> !h.finished && 1 <= number <= 10000 && !r.fails)
            && (o.result.Ok? ==> o.result.value == Part(number, |r.bytes|, k) && o.trace == [s[k := Raw(r.bytes, None)]])
            && (h.finished ==> o.result == Err(Closed) && o.trace == [])
            && (!h.finished && !(1 <= number <= 10000) ==>
                  o.result == Err(InvalidPartNumber(number, 10000)) && o.trace == [])
            && (!h.finished && 1 <= number <= 10000 && r.fails ==>
                  o.result == Err(ReadFailed) && Final(s, o.trace) == s - {k})
  {
    hide PartKey;
    var k := PartKey(h.key, h.id, number);
    assert s[k := Raw(r.bytes, None)] - {k} == s - {k};
  }

  /** Abort: of an unfinished handle, removes what is staged and nothing else. */
  lemma AbortIs(s: Store, h: Handle)
    ensures var o := Abort(s, h);
            var t := Final(s, o.trace);
            && o.result == Ok(())
            && (h.finished ==> t == s)
            && (!h.finished ==> forall k :: k in t <==> k in s && !(StagingPrefix(h.key, h.id) <= k))
            && (forall k :: k in t ==> k in s && t[k] == s[k])
  {
    hide StagingPrefix, DeleteStaged;
    DeleteStagedFinal(s, h);
  }

  // ---- Commit ----

  /** The parts, in ascending order of their numbers. */
  predicate IsOrder(parts: seq<Part>, ordered: seq<Part>) {
    multiset(ordered) == multiset(parts) && forall i, j :: 0 <= i < j < |ordered| ==> ordered[i].number < ordered[j].number
  }

  predicate NumbersRepeat(parts: seq<Part>) {
    exists i, j :: 0 <= i < j < |parts| && parts[i].number == parts[j].number
  }

  /** The tag is some other upload's. */
  predicate IsForeign(h: Handle, p: Part) {
    p.tag != "" && p.tag != PartKey(h.key, h.id, p.number)
  }

  predicate IsStored(s: Store, h: Handle, p: Part) {
    PartKey(h.key, h.id, p.number) in s
  }

  /** The bytes of the stored parts, one after the other. */
  function Parted(s: Store, h: Handle, ps: seq<Part>): Bytes {
    if ps == [] then []
    else
      var k := PartKey(h.key, h.id, ps[|ps| - 1].number);
      Parted(s, h, ps[..|ps| - 1]) + if k in s && s[k].Raw? then s[k].bytes else []
  }

  lemma {:induction false} PartedCons(s: Store, h: Handle, p: Part, ps: seq<Part>)
    ensures Parted(s, h, [p] + ps) == Parted(s, h, [p]) + Parted(s, h, ps)
    decreases |ps|
  {
    hide PartKey;
    if ps == [] {
      assert [p] + ps == [p];
    } else {
      var front := ps[..|ps| - 1];
      PartedCons(s, h, p, front);
      assert ([p] + ps)[..|ps|] == [p] + front && ([p] + ps)[|ps|] == ps[|ps| - 1];
    }
  }

  lemma NothingParted(s: Store, h: Handle)
    ensures Parted(s, h, []) == []
  {
  }

  lemma CopiesFirst(s: Store, h: Handle, ps: seq<Part>)
    requires ps != []
    ensures var c, rest := CopyParts(s, h, ps), CopyParts(s, h, ps[1..]);
            if IsStored(s, h, ps[0]) then c == Copied(Parted(s, h, [ps[0]]) + rest.bytes, rest.missing)
            else c == Copied([], Some(ps[0].number))
  {
    hide PartKey;
    assert [ps[0]][..0] == [];
    NothingParted(s, h);
    if IsStored(s, h, ps[0]) {
      var own := BytesOf(s[PartKey(h.key, h.id, ps[0].number)]);
      assert [] + own == own;
    }
  }

  /** What the copy loop copies, and where it stops. */
  lemma {:induction false} CopiesUpTo(s: Store, h: Handle, ps: seq<Part>) returns (j: nat)
    ensures j <= |ps| && forall i :: 0 <= i < j ==> IsStored(s, h, ps[i])
    ensures CopyParts(s, h, ps).bytes == Parted(s, h, ps[..j])
    ensures if j == |ps| then CopyParts(s, h, ps).missing.None?
            else !IsStored(s, h, ps[j]) && CopyParts(s, h, ps).missing == Some(ps[j].number)
  {
    hide IsStored, Parted;
    NothingParted(s, h);
    if ps == [] {
      j := 0;
    } else {
      CopiesFirst(s, h, ps);
      hide CopyParts;
      if IsStored(s, h, ps[0]) {
        var m := CopiesUpTo(s, h, ps[1..]);
        j := m + 1;
        PartedCons(s, h, ps[0], ps[1..][..m]);
        assert ps[..j] == [ps[0]] + ps[1..][..m];
      } else {
        j := 0;
        assert ps[..0] == [];
      }
    }
  }

  lemma {:induction false} ForeignIs(h: Handle, ps: seq<Part>) returns (j: nat)
    ensures j <= |ps| && forall i :: 0 <= i < j ==> !IsForeign(h, ps[i])
    ensures if j == |ps| then FirstForeign(h, ps).None? else IsForeign(h, ps[j]) && FirstForeign(h, ps) == Some(ps[j].number)
  {
    hide PartKey;
    if ps == [] || IsForeign(h, ps[0]) {
      j := 0;
    } else {
      var m := ForeignIs(h, ps[1..]);
      j := m + 1;
    }
  }

  /** The parts that a Commit takes: some, no number twice, all of this upload, all there. */
  predicate CanCommit(s: Store, h: Handle, parts: seq<Part>) {
    && !h.finished && parts != [] && !NumbersRepeat(parts)
    && forall i :: 0 <= i < |parts| ==> !IsForeign(h, parts[i]) && IsStored(s, h, parts[i])
  }

  /** The bucket after a Commit: the object with the parts' bytes in ascending number and
      the upload's options, nothing staged, and all else as before. */
  ghost predicate IsCommitted(s: Store, h: Handle, parts: seq<Part>, t: Store) {
    && (exists ordered :: IsOrder(parts, ordered) && h.key in t && t[h.key] == Raw(Parted(s, h, ordered), h.opts))
    && (forall k :: k != h.key ==> (k in t <==> k in s && !(StagingPrefix(h.key, h.id) <= k)))
    && (forall k :: k != h.key && k in t ==> t[k] == s[k])
  }

  lemma SortedIsOrder(parts: seq<Part>)
    requires parts != [] && !NumbersRepeat(parts)
    ensures SortParts(parts).Ok? && IsOrder(parts, SortParts(parts).value)
    ensures forall p :: p in SortParts(parts).value <==> p in parts
  {
    hide SortParts;
    SortPartsSpec(parts);
    forall p ensures p in SortParts(parts).value <==> p in parts {
      assert p in multiset(SortParts(parts).value) <==> p in multiset(parts);
    }
  }

  lemma CannotSort(parts: seq<Part>)
    requires parts == [] || NumbersRepeat(parts)
    ensures SortParts(parts).Err?
    ensures if parts == [] then SortParts(parts).error == NoParts
            else SortParts(parts).error.DuplicatePart? && Count(parts, SortParts(parts).error.number) >= 2
  {
    hide SortParts, Count;
    SortPartsSpec(parts);
  }

  /** A number is given twice. */
  predicate IsRepeated(parts: seq<Part>, n: int) {
    exists i, j :: 0 <= i < j < |parts| && parts[i].number == parts[j].number == n
  }

  lemma {:induction false} CountedTwice(parts: seq<Part>, n: int)
    ensures Count(parts, n) >= 1 ==> exists i :: 0 <= i < |parts| && parts[i].number == n
    ensures Count(parts, n) >= 2 ==> IsRepeated(parts, n)
  {
    if parts != [] {
      var front, last := parts[..|parts| - 1], |parts| - 1;
      CountedTwice(front, n);
      if Count(parts, n) >= 2 {
        if parts[last].number == n {
          var i :| 0 <= i < |front| && front[i].number == n;
          assert parts[i].number == parts[last].number == n;
        } else {
          var i, j :| 0 <= i < j < |front| && front[i].number == front[j].number == n;
          assert parts[i].number == parts[j].number == n;
        }
      } else if Count(parts, n) == 1 && parts[last].number != n {
        var i :| 0 <= i < |front| && front[i].number == n;
        assert parts[i].number == n;
      }
    }
  }

  /** Commit succeeds if and only if it can, and then leaves just the object. */
  lemma CommitIs(s: Store, h: Handle, parts: seq<Part>)
    ensures var o := Commit(s, h, parts);
            && (o.result == Ok(()) <==> CanCommit(s, h, parts))
            && (CanCommit(s, h, parts) ==> IsCommitted(s, h, parts, Final(s, o.trace)))
  {
    hide SortParts, FirstForeign, CopyParts, StagingPrefix, DeleteStaged, IsOrder, IsForeign, IsStored, Parted;
    if !h.finished && parts != [] && !NumbersRepeat(parts) {
      SortedIsOrder(parts);
      var ordered := SortParts(parts).value;
      var i := ForeignIs(h, ordered);
      var j := CopiesUpTo(s, h, ordered);
      SameParts(s, h, parts, ordered);
      assert i < |ordered| ==> ordered[i] in ordered;
      assert j < |ordered| ==> ordered[j] in ordered;
      if i == |ordered| && j == |ordered| {
        assert ordered[..j] == ordered;
        var made := s[h.key := Raw(Parted(s, h, ordered), h.opts)];
        DeleteStagedFinal(made, h);
        KeyIsNotStaged(h.key, h.id);
      }
    } else if !h.finished {
      CannotSort(parts);
    }
  }

  lemma SameParts(s: Store, h: Handle, parts: seq<Part>, ordered: seq<Part>)
    requires forall p :: p in ordered <==> p in parts
    ensures (forall i :: 0 <= i < |parts| ==> !IsForeign(h, parts[i])) <==> forall p :: p in ordered ==> !IsForeign(h, p)
    ensures (forall i :: 0 <= i < |parts| ==> IsStored(s, h, parts[i])) <==> forall p :: p in ordered ==> IsStored(s, h, p)
  {
    hide IsForeign, IsStored;
    assert forall p :: p in parts <==> exists i :: 0 <= i < |parts| && parts[i] == p;
  }

  /** The part at i is the foreign one with the least number. */
  predicate IsLeastForeign(h: Handle, parts: seq<Part>, i: nat) {
    && i < |parts| && IsForeign(h, parts[i])
    && forall j :: 0 <= j < |parts| && IsForeign(h, parts[j]) ==> parts[i].number <= parts[j].number
  }

  /** In ascending order the part at j is the first one that is missing. */
  predicate IsFirstMissing(s: Store, h: Handle, parts: seq<Part>, ordered: seq<Part>, j: nat) {
    && IsOrder(parts, ordered) && j < |ordered| && !IsStored(s, h, ordered[j])
    && forall i :: 0 <= i < j ==> IsStored(s, h, ordered[i])
  }

  /** And if it cannot, the error tells why, the first of these reasons; the bucket stays as
      it was, but if a part is missing: then what had been copied is published. */
  lemma CommitFailsAs(s: Store, h: Handle, parts: seq<Part>)
    requires !CanCommit(s, h, parts)
    ensures var o := Commit(s, h, parts);
            var t := Final(s, o.trace);
            o.result.Err? &&
            if h.finished then o.result.error == Closed && t == s
            else if parts == [] then o.result.error == NoParts && t == s
            else if NumbersRepeat(parts) then
              o.result.error.DuplicatePart? && IsRepeated(parts, o.result.error.number) && t == s
            else if exists i :: 0 <= i < |parts| && IsForeign(h, parts[i]) then
              t == s && exists i: nat :: IsLeastForeign(h, parts, i) && o.result.error == ForeignPart(parts[i].number)
            else exists ordered: seq<Part>, j: nat ::
              && IsFirstMissing(s, h, parts, ordered, j) && o.result.error == MissingPart(ordered[j].number)
              && t == s[h.key := Raw(Parted(s, h, ordered[..j]), h.opts)]
  {
    hide SortParts, FirstForeign, CopyParts, StagingPrefix, DeleteStaged, IsForeign, IsStored, Parted, Count, IsRepeated;
    if !h.finished && parts != [] && !NumbersRepeat(parts) {
      SortedIsOrder(parts);
      var ordered := SortParts(parts).value;
      var i := ForeignIs(h, ordered);
      var j := CopiesUpTo(s, h, ordered);
      SameParts(s, h, parts, ordered);
      assert i < |ordered| ==> ordered[i] in ordered;
      assert j < |ordered| ==> ordered[j] in ordered;
      if i < |ordered| {
        LeastForeign(h, parts, ordered, i);
      } else {
        assert forall p :: p in ordered ==> !IsForeign(h, p);
        assert j < |ordered|;
        assert IsFirstMissing(s, h, parts, ordered, j);
      }
    } else if !h.finished {
      CannotSort(parts);
      if parts != [] {
        CountedTwice(parts, SortParts(parts).error.number);
      }
    }
  }

  lemma LeastForeign(h: Handle, parts: seq<Part>, ordered: seq<Part>, i: nat)
    requires IsOrder(parts, ordered) && i < |ordered| && IsForeign(h, ordered[i])
    requires forall j :: 0 <= j < i ==> !IsForeign(h, ordered[j])
    requires forall p :: p in ordered <==> p in parts
    ensures exists m: nat :: IsLeastForeign(h, parts, m) && parts[m].number == ordered[i].number
  {
    hide IsForeign;
    assert ordered[i] in ordered;
    var m: nat :| m < |parts| && parts[m] == ordered[i];
    forall j | 0 <= j < |parts| && IsForeign(h, parts[j])
      ensures parts[m].number <= parts[j].number
    {
      assert parts[j] in ordered;
      var n :| 0 <= n < |ordered| && ordered[n] == parts[j];
    }
    assert IsLeastForeign(h, parts, m);
  }

  /** Which part numbers an uploader takes that has some limit, or none. */
  lemma PartNumbersAre(number: int, c: Constraints)
    ensures var max := if 1 <= c.maxParts <= 10000 then c.maxParts else 10000;
            ValidatePartNumber(number, c)
            == if 1 <= number <= max then None else Some(InvalidPartNumber(number, max))
  {
  }
}
