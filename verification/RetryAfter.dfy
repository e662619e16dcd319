/**
 `parse_retry_after` (src/backoff.rs): delta-seconds of the `Retry-After` header,
 section 7.1.3 of RFC 7231. The specification compares durations; the code compares whole seconds.
 */
module RetryAfterHeader {
  import opened Wrappers
  import opened Durations
  import opened Text
  import opened HeaderText

  datatype RetryAfter =
    | Absent
    | Honor(asked: Duration)
    | TooLong(requested: Duration)
    | Unintelligible(raw: string)

  /** `raw` is one number, or a comma-merged list of copies of one number. */
  ghost predicate Reads(raw: string, n: u64) {
    forall segment | segment in Segments(raw) :: ParseU64(segment) == Some(n)
  }

  /** The first value that reads as a number. */
  ghost predicate FirstReading(values: seq<string>, i: nat, n: u64) {
    && i < |values|
    && Reads(values[i], n)
    && forall j: nat, m: u64 | j < i :: !Reads(values[j], m)
  }

  ghost predicate NothingReads(values: seq<string>) {
    forall i: nat, n: u64 | i < |values| :: !Reads(values[i], n)
  }

  function Reading(raw: string): Option<u64> {
    var first := ParseU64(Segments(raw)[0]);
    if first.Some? && forall segment | segment in Segments(raw) :: ParseU64(segment) == first
    then first
    else None
  }

  /** Position of the first value that reads, or the length when none does. */
  function FirstReadable(values: seq<string>): (i: nat)
    ensures i <= |values|
    ensures i < |values| ==> Reading(values[i]).Some?
  {
    if values == [] || Reading(values[0]).Some? then 0 else 1 + FirstReadable(values[1..])
  }

  function Decide(values: seq<string>, cap: Duration): (r: RetryAfter)
    ensures r.Honor? ==> 0 < r.asked <= cap
  {
    if cap == 0 || values == [] then Absent
    else
      var i := FirstReadable(values);
      if i == |values| then Unintelligible(Join(values, ", "))
      else
        var n := Reading(values[i]).value;
        if n == 0 then Absent
        else if FromSecs(n) > cap then TooLong(FromSecs(n))
        else Honor(FromSecs(n))
  }

  lemma {:induction false} NothingReadsBefore(values: seq<string>)
    ensures forall j | 0 <= j < FirstReadable(values) :: Reading(values[j]).None?
  {
    if values != [] && Reading(values[0]).None? {
      NothingReadsBefore(values[1..]);
      forall j | 0 <= j < FirstReadable(values) ensures Reading(values[j]).None? {
        assert j > 0 ==> values[j] == values[1..][j - 1];
      }
    }
  }

  /** Only whole seconds are ever honoured, so nothing is when the cap is below one second. */
  lemma HonouredWholeSeconds(values: seq<string>, cap: Duration)
    requires Decide(values, cap).Honor?
    ensures NANOS_PER_SEC <= Decide(values, cap).asked <= FromSecs(AsSecs(cap))
  {
    hide Reading, FirstReadable;
  }

  lemma ReadingMeaning(raw: string)
    ensures Reading(raw).Some? ==> Reads(raw, Reading(raw).value)
    ensures Reading(raw).None? ==> forall m: u64 :: !Reads(raw, m)
  {
    assert Segments(raw)[0] in Segments(raw);
  }

  lemma ReadingUnique(raw: string, n: u64)
    requires Reads(raw, n)
    ensures Reading(raw) == Some(n)
  {
    assert Segments(raw)[0] in Segments(raw);
  }

  /**
   The decision, stated without the code's order of tests: the first readable value decides alone,
   an honoured wait is positive and within the cap, and the header is unintelligible exactly when
   there is a cap, there is a header, and no value of it reads.
   */
  lemma DecisionMeaning(values: seq<string>, cap: Duration)
    ensures Decide(values, cap).Unintelligible? <==> cap > 0 && values != [] && NothingReads(values)
    ensures forall n: u64, i: nat | cap > 0 && FirstReading(values, i, n) ::
              && (Decide(values, cap) == Honor(FromSecs(n)) <==> 0 < FromSecs(n) <= cap)
              && (Decide(values, cap) == TooLong(FromSecs(n)) <==> cap < FromSecs(n))
              && (Decide(values, cap).Absent? <==> n == 0)
    ensures cap == 0 || values == [] ==> Decide(values, cap).Absent?
    ensures Decide(values, cap).TooLong? ==> cap < Decide(values, cap).requested
    ensures Decide(values, cap).Unintelligible? ==> Decide(values, cap).raw == Join(values, ", ")
  {
    var k := FirstReadable(values);
    NothingReadsBefore(values);
    forall j | 0 <= j < |values|
      ensures Reading(values[j]).None? ==> forall m: u64 :: !Reads(values[j], m)
      ensures Reading(values[j]).Some? ==> Reads(values[j], Reading(values[j]).value)
    {
      ReadingMeaning(values[j]);
    }
    forall n: u64, i: nat | FirstReading(values, i, n)
      ensures i == k && Reading(values[i]) == Some(n)
    {
      ReadingUnique(values[i], n);
    }
  }

  /** A merged list reads as `n` exactly when every merged part does. */
  lemma MergedPartsAgree(parts: seq<string>, n: u64)
    requires parts != []
    requires forall part | part in parts :: ',' !in part
    ensures Reads(Join(parts, ","), n) <==> forall part | part in parts :: ParseU64(Trim(part)) == Some(n)
  {
    SegmentsOfJoin(parts);
    var segments := Segments(Join(parts, ","));
    forall part | part in parts ensures Trim(part) in segments {
      var i :| 0 <= i < |parts| && parts[i] == part;
      assert segments[i] == Trim(part);
    }
  }

  /** One printed number reads as itself. */
  lemma DecimalReads(n: u64)
    ensures Reads(Decimal(n), n)
    ensures Reading(Decimal(n)) == Some(n)
  {
    DecimalRoundTrip(n);
    DecimalParses(n);
    assert Join([Decimal(n)], ",") == Decimal(n);
    MergedPartsAgree([Decimal(n)], n);
    ReadingUnique(Decimal(n), n);
  }

  /** However many copies of one decimal a proxy merged, they decide like a single copy. */
  lemma MergedCopiesDecideAlike(n: u64, copies: nat, cap: Duration)
    requires copies > 0
    ensures Decide([Join(seq(copies, i => Decimal(n)), ",")], cap) == Decide([Decimal(n)], cap)
  {
    var parts := seq(copies, i => Decimal(n));
    DecimalRoundTrip(n);
    DecimalReads(n);
    DecimalParses(n);
    MergedPartsAgree(parts, n);
    var merged := Join(parts, ",");
    ReadingUnique(merged, n);
  }

  /** A printed number between spaces and tabs. */
  ghost predicate IsPadded(part: string, n: u64) {
    exists p, q :: AllBlank(p) && AllBlank(q) && part == p + Decimal(n) + q
  }

  lemma PaddedReads(part: string, n: u64)
    requires IsPadded(part, n)
    ensures ',' !in part && ParseU64(Trim(part)) == Some(n)
  {
    hide Decimal, Trim, ParseU64, Value, IsWhitespace;
    var p, q :| AllBlank(p) && AllBlank(q) && part == p + Decimal(n) + q;
    var s := Decimal(n);
    DecimalVisible(n);
    DecimalParses(n);
    TrimOfPadded(p, s, q);
    TrimOfPadded([], s, []);
    assert [] + s + [] == s;
    assert forall c | c in part :: c in p || c in s || c in q;
  }

  lemma DecimalVisible(n: nat)
    ensures EndsVisibly(Decimal(n)) && ',' !in Decimal(n)
  {
    DecimalRoundTrip(n);
    var s := Decimal(n);
    assert s[0] in s && s[|s| - 1] in s;
  }

  /**
   However many copies of one decimal a proxy merged, and however it spaced them, they decide like a
   single copy: honoured within the cap, too long above it, and absent at zero.
   */
  lemma PaddedCopiesDecideAlike(parts: seq<string>, n: u64, cap: Duration)
    requires parts != [] && cap > 0
    requires forall part | part in parts :: IsPadded(part, n)
    ensures Decide([Join(parts, ",")], cap) == Decide([Decimal(n)], cap)
    ensures Decide([Join(parts, ",")], cap)
            == if n == 0 then Absent else if FromSecs(n) > cap then TooLong(FromSecs(n)) else Honor(FromSecs(n))
  {
    hide IsPadded, Segments, ParseU64, Trim;
    forall part | part in parts ensures ',' !in part && ParseU64(Trim(part)) == Some(n) {
      PaddedReads(part, n);
    }
    MergedPartsAgree(parts, n);
    ReadingUnique(Join(parts, ","), n);
    DecimalReads(n);
  }

  /** The usual form of a merged header, with a space behind every comma. */
  lemma MergedWithSpaces(n: u64, cap: Duration)
    requires 0 < FromSecs(n) <= cap
    ensures Decide([Decimal(n) + ", " + Decimal(n)], cap) == Honor(FromSecs(n))
  {
    var first, second := Decimal(n), " " + Decimal(n);
    assert first == [] + Decimal(n) + [] && second == " " + Decimal(n) + [];
    assert AllBlank([]) && AllBlank(" ");
    assert IsPadded(first, n) && IsPadded(second, n);
    assert Join([first, second], ",") == first + "," + second == first + ", " + Decimal(n) by {
      assert [first, second][1..] == [second];
    }
    PaddedCopiesDecideAlike([first, second], n, cap);
  }

  lemma FirstReadableIs(values: seq<string>, i: nat)
    requires i <= |values|
    requires forall j | 0 <= j < i :: Reading(values[j]).None?
    requires i < |values| ==> Reading(values[i]).Some?
    ensures FirstReadable(values) == i
  {
    NothingReadsBefore(values);
  }

  lemma TrimmedReading(raw: string)
    ensures Trim(Trim(raw)) == Trim(raw)
    ensures Reading(Trim(raw)) == Reading(raw)
    ensures Trim(raw) == [] ==> Reading(raw).None?
  {
    TrimIdempotent(raw);
    SegmentsIgnoreTrim(raw);
    if Trim(raw) == [] {
      assert Segments([]) == [[]];
    }
  }

  /** The code's parse of one trimmed value: `Some` only if all comma segments agree. */
  method ParseValue(t: string) returns (parsed: Option<u64>)
    requires Trim(t) == t
    ensures parsed == Reading(t)
  {
    if ',' in t {
      var segments := Segments(t);
      var first := ParseU64(segments[0]);
      if first.None? {
        return None;
      }
      var allEqual := true;
      var k := 1;
      while k < |segments|
        invariant 1 <= k <= |segments|
        invariant allEqual
        invariant forall j | 0 <= j < k :: ParseU64(segments[j]) == first
      {
        assert segments[k] in segments;
        if segments[k] == [] {
          assert ParseU64(segments[k]).None?;
          allEqual := false;
          break;
        }
        if ParseU64(segments[k]) != first {
          allEqual := false;
          break;
        }
        k := k + 1;
      }
      parsed := if allEqual then first else None;
    } else {
      SegmentsOfOne(t);
      parsed := ParseU64(t);
    }
  }

  method ParseRetryAfter(values: seq<string>, cap: Duration) returns (r: RetryAfter)
    ensures r == Decide(values, cap)
  {
    if cap == 0 {
      return Absent;
    }
    if values == [] {
      return Absent;
    }
    var i := 0;
    while i < |values|
      invariant 0 <= i <= |values|
      invariant forall j | 0 <= j < i :: Reading(values[j]).None?
    {
      var t := Trim(values[i]);
      TrimmedReading(values[i]);
      if t == [] {
        i := i + 1;
        continue;
      }
      var parsed := ParseValue(t);
      if parsed.Some? {
        FirstReadableIs(values, i);
        var n := parsed.value;
        if n == 0 {
          return Absent;
        }
        var requested := FromSecs(n);
        if n > AsSecs(cap) {
          return TooLong(requested);
        }
        return Honor(requested);
      }
      i := i + 1;
    }
    FirstReadableIs(values, i);
    return Unintelligible(Join(values, ", "));
  }
}
