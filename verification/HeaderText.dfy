/** How a header value is read: trimming, splitting at commas, and parsing delta-seconds. */
module HeaderText {
  import opened Wrappers
  import opened Durations
  import opened Text

  /** `char::is_whitespace`: the Unicode White_Space property. */
  predicate IsWhitespace(c: char) {
    var n := c as int;
    || 0x9 <= n <= 0xD || n == 0x20 || n == 0x85 || n == 0xA0 || n == 0x1680
    || 0x2000 <= n <= 0x200A || n == 0x2028 || n == 0x2029 || n == 0x202F || n == 0x205F || n == 0x3000
  }

  /** The 25 code points that have the property. */
  const WHITE_SPACE: seq<int> :=
    [0x9, 0xA, 0xB, 0xC, 0xD, 0x20, 0x85, 0xA0, 0x1680, 0x2000, 0x2001, 0x2002, 0x2003, 0x2004, 0x2005,
     0x2006, 0x2007, 0x2008, 0x2009, 0x200A, 0x2028, 0x2029, 0x202F, 0x205F, 0x3000]

  lemma WhitespaceIsListed(c: char)
    ensures |WHITE_SPACE| == 25
    ensures IsWhitespace(c) <==> exists i :: 0 <= i < |WHITE_SPACE| && WHITE_SPACE[i] == c as int
  {
    var n := c as int;
    if 0x9 <= n <= 0xD {
      assert WHITE_SPACE[n - 0x9] == n;
    } else if 0x2000 <= n <= 0x200A {
      assert WHITE_SPACE[9 + (n - 0x2000)] == n;
    } else if IsWhitespace(c) {
      assert WHITE_SPACE[5] == 0x20 && WHITE_SPACE[6] == 0x85 && WHITE_SPACE[7] == 0xA0 && WHITE_SPACE[8] == 0x1680;
      assert WHITE_SPACE[20] == 0x2028 && WHITE_SPACE[21] == 0x2029 && WHITE_SPACE[22] == 0x202F;
      assert WHITE_SPACE[23] == 0x205F && WHITE_SPACE[24] == 0x3000;
    }
  }

  function TrimStart(s: string): string {
    if s != [] && IsWhitespace(s[0]) then TrimStart(s[1..]) else s
  }

  function TrimEnd(s: string): string {
    if s != [] && IsWhitespace(s[|s| - 1]) then TrimEnd(s[..|s| - 1]) else s
  }

  function Trim(s: string): string { TrimEnd(TrimStart(s)) }

  // ---- numbers ----

  /** `str::parse::<u64>`: an optional `+`, then at least one digit, no overflow. */
  function ParseU64(s: string): Option<u64> {
    var digits := if s != [] && s[0] == '+' then s[1..] else s;
    if digits != [] && AllDigits(digits) && Value(digits) < 0x1_0000_0000_0000_0000
    then Some(Value(digits))
    else None
  }

  /** A printed number survives trimming and parses back. */
  lemma DecimalParses(n: u64)
    ensures ParseU64(Trim(Decimal(n))) == Some(n)
  {
    DecimalRoundTrip(n);
    var s := Decimal(n);
    assert IsDigit(s[0]) && IsDigit(s[|s| - 1]);
  }

  lemma ParsedHasForm(s: string, n: u64) returns (k: nat)
    requires ParseU64(s) == Some(n)
    ensures s == Zeros(k) + Decimal(n) || s == "+" + (Zeros(k) + Decimal(n))
  {
    hide Decimal, Value, Zeros;
    var digits := if s != [] && s[0] == '+' then s[1..] else s;
    DigitsMeaning(digits);
    k := |digits| - |Decimal(n)|;
    assert s == digits || s == "+" + digits;
  }

  lemma FormParses(k: nat, n: u64)
    ensures ParseU64(Zeros(k) + Decimal(n)) == Some(n)
    ensures ParseU64("+" + (Zeros(k) + Decimal(n))) == Some(n)
  {
    hide Decimal, Value, Zeros;
    DecimalRoundTrip(n);
    ZerosAddNothing(k, Decimal(n));
    var body := Zeros(k) + Decimal(n);
    assert body[0] in body && IsDigit(body[0]);
    assert ("+" + body)[1..] == body;
  }

  /** The parser accepts exactly an optional plus, leading zeros and the printed number. */
  lemma ParseMeaning(s: string, n: u64)
    ensures ParseU64(s) == Some(n)
            <==> exists k: nat :: s == Zeros(k) + Decimal(n) || s == "+" + (Zeros(k) + Decimal(n))
  {
    hide ParseU64, Decimal, Zeros;
    if ParseU64(s) == Some(n) {
      var k := ParsedHasForm(s, n);
    }
    if k: nat :| s == Zeros(k) + Decimal(n) || s == "+" + (Zeros(k) + Decimal(n)) {
      FormParses(k, n);
    }
  }

  // ---- comma-separated lists ----

  /** Position of the first comma, or the length when there is none. */
  function FirstComma(s: string): (i: nat)
    ensures i <= |s|
  {
    if s == [] || s[0] == ',' then 0 else 1 + FirstComma(s[1..])
  }

  /** `split(',').map(str::trim)`: the trimmed segments, always at least one. */
  function Segments(s: string): (segments: seq<string>)
    ensures segments != []
    decreases |s|
  {
    var i := FirstComma(s);
    if i == |s| then [Trim(s)] else [Trim(s[..i])] + Segments(s[i + 1..])
  }

  lemma {:induction false} FirstCommaFound(s: string)
    ensures forall k | 0 <= k < FirstComma(s) :: s[k] != ','
    ensures FirstComma(s) < |s| ==> s[FirstComma(s)] == ','
  {
    if s != [] && s[0] != ',' {
      FirstCommaFound(s[1..]);
      forall k | 0 <= k < FirstComma(s) ensures s[k] != ',' {
        if k > 0 {
          assert s[k] == s[1..][k - 1];
        }
      }
    }
  }

  lemma FirstCommaAt(s: string, i: nat)
    requires i <= |s| && ',' !in s[..i] && (i < |s| ==> s[i] == ',')
    ensures FirstComma(s) == i
  {
    FirstCommaFound(s);
    assert forall k :: 0 <= k < i ==> s[..i][k] == s[k];
  }

  lemma SegmentsOfCons(head: string, tail: string)
    requires ',' !in head
    ensures Segments(head + ([','] + tail)) == [Trim(head)] + Segments(tail)
  {
    var s := head + ([','] + tail);
    FirstCommaAt(s, |head|);
    assert s[..|head|] == head && s[|head| + 1..] == tail;
  }

  lemma SegmentsOfOne(s: string)
    requires ',' !in s
    ensures Segments(s) == [Trim(s)]
  {
    assert s[..|s|] == s;
    FirstCommaAt(s, |s|);
  }

  function TrimAll(parts: seq<string>): (r: seq<string>)
    ensures |r| == |parts|
    ensures forall i | 0 <= i < |parts| :: r[i] == Trim(parts[i])
  {
    if parts == [] then [] else [Trim(parts[0])] + TrimAll(parts[1..])
  }

  /** Splitting undoes joining, one trimmed segment per joined part. */
  lemma {:induction false} SegmentsOfJoin(parts: seq<string>)
    requires parts != []
    requires forall part | part in parts :: ',' !in part
    ensures Segments(Join(parts, ",")) == TrimAll(parts)
  {
    if |parts| == 1 {
      SegmentsOfOne(parts[0]);
    } else {
      var tail := Join(parts[1..], ",");
      assert Join(parts, ",") == parts[0] + ([','] + tail);
      SegmentsOfCons(parts[0], tail);
      SegmentsOfJoin(parts[1..]);
    }
  }

  // ---- trimming ----

  lemma {:induction false} TrimDropsLastSpace(s: string)
    requires s != [] && IsWhitespace(s[|s| - 1])
    ensures Trim(s) == Trim(s[..|s| - 1])
  {
    var shorter := s[..|s| - 1];
    if |s| == 1 {
      assert s[1..] == shorter == [];
    } else if IsWhitespace(s[0]) {
      TrimDropsLastSpace(s[1..]);
      assert s[1..][..|s| - 2] == shorter[1..];
    } else {
      assert TrimStart(s) == s && TrimStart(shorter) == shorter;
    }
  }

  lemma {:induction false} TrimEndKeepsStart(s: string)
    requires s == [] || !IsWhitespace(s[0])
    ensures TrimEnd(s) == [] || !IsWhitespace(TrimEnd(s)[0])
    ensures TrimEnd(s) == [] || !IsWhitespace(TrimEnd(s)[|TrimEnd(s)| - 1])
  {
    if s != [] && IsWhitespace(s[|s| - 1]) {
      TrimEndKeepsStart(s[..|s| - 1]);
    }
  }

  lemma {:induction false} TrimStartResult(s: string)
    ensures TrimStart(s) == [] || !IsWhitespace(TrimStart(s)[0])
  {
    if s != [] && IsWhitespace(s[0]) {
      TrimStartResult(s[1..]);
    }
  }

  /** The white space that may surround a list element: section 3.2.3 of RFC 7230. */
  predicate IsBlank(c: char) { c == ' ' || c == '\t' }

  predicate AllBlank(s: string) { forall c | c in s :: IsBlank(c) }

  /** What a trimmed text keeps: visible ASCII at both ends, whatever is between. */
  predicate EndsVisibly(s: string) {
    s != [] ==> '!' <= s[0] <= '~' && '!' <= s[|s| - 1] <= '~'
  }

  lemma {:induction false} TrimStartOfPadded(p: string, s: string)
    requires AllBlank(p) && (s != [] ==> '!' <= s[0] <= '~')
    ensures TrimStart(p + s) == s
  {
    if p == [] {
      assert p + s == s;
    } else {
      assert p[0] in p && forall c | c in p[1..] :: c in p;
      assert (p + s)[1..] == p[1..] + s;
      TrimStartOfPadded(p[1..], s);
    }
  }

  lemma {:induction false} TrimEndOfPadded(s: string, q: string)
    requires AllBlank(q) && (s != [] ==> '!' <= s[|s| - 1] <= '~')
    ensures TrimEnd(s + q) == s
  {
    if q == [] {
      assert s + q == s;
    } else {
      var front := q[..|q| - 1];
      assert q[|q| - 1] in q && forall c | c in front :: c in q;
      assert (s + q)[..|s + q| - 1] == s + front;
      TrimEndOfPadded(s, front);
    }
  }

  lemma {:induction false} BlankTrimsAway(s: string)
    requires AllBlank(s)
    ensures Trim(s) == []
  {
    assert s + [] == s;
    TrimStartOfPadded(s, []);
  }

  /** Trimming removes exactly the spaces and tabs around a text that begins and ends visibly. */
  lemma TrimOfPadded(p: string, s: string, q: string)
    requires AllBlank(p) && AllBlank(q) && EndsVisibly(s)
    ensures Trim(p + s + q) == s
  {
    if s == [] {
      BlankTrimsAway(p + s + q);
    } else {
      assert p + s + q == p + (s + q);
      TrimStartOfPadded(p, s + q);
      TrimEndOfPadded(s, q);
    }
  }

  lemma TrimIdempotent(s: string)
    ensures Trim(Trim(s)) == Trim(s)
  {
    TrimStartResult(s);
    TrimEndKeepsStart(TrimStart(s));
  }

  lemma {:induction false} SegmentsIgnoreFirstSpace(s: string)
    requires s != [] && IsWhitespace(s[0])
    ensures Segments(s) == Segments(s[1..])
  {
    var i := FirstComma(s);
    assert i == 1 + FirstComma(s[1..]);
    assert s[..i][1..] == s[1..][..i - 1];
    if i < |s| {
      assert s[i + 1..] == s[1..][i..];
    }
  }

  lemma SpaceIsNoComma(c: char)
    requires IsWhitespace(c)
    ensures c != ','
  {
  }

  lemma {:induction false} SegmentsIgnoreLastSpace(s: string)
    requires s != [] && IsWhitespace(s[|s| - 1])
    ensures Segments(s) == Segments(s[..|s| - 1])
    decreases |s|
  {
    hide Trim, FirstComma, IsWhitespace;
    var shorter := s[..|s| - 1];
    var i := FirstComma(s);
    FirstCommaFound(s);
    SpaceIsNoComma(s[|s| - 1]);
    if i == |s| {
      assert s[..|s|] == s;
      assert forall c | c in shorter :: c in s;
      FirstCommaAt(shorter, |shorter|);
      TrimDropsLastSpace(s);
    } else {
      assert s[..i] == shorter[..i];
      FirstCommaAt(shorter, i);
      SegmentsIgnoreLastSpace(s[i + 1..]);
      assert s[i + 1..][..|s| - i - 2] == shorter[i + 1..];
    }
  }

  lemma {:induction false} SegmentsIgnoreTrimStart(s: string)
    ensures Segments(TrimStart(s)) == Segments(s)
  {
    if s != [] && IsWhitespace(s[0]) {
      SegmentsIgnoreFirstSpace(s);
      SegmentsIgnoreTrimStart(s[1..]);
    }
  }

  lemma {:induction false} SegmentsIgnoreTrimEnd(s: string)
    ensures Segments(TrimEnd(s)) == Segments(s)
  {
    if s != [] && IsWhitespace(s[|s| - 1]) {
      SegmentsIgnoreLastSpace(s);
      SegmentsIgnoreTrimEnd(s[..|s| - 1]);
    }
  }

  /** Trimming a header value before splitting it changes no segment. */
  lemma SegmentsIgnoreTrim(s: string)
    ensures Segments(Trim(s)) == Segments(s)
  {
    SegmentsIgnoreTrimStart(s);
    SegmentsIgnoreTrimEnd(TrimStart(s));
  }
}
