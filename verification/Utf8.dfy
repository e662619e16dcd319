/**
 Strings as sequences of code points, their UTF-8 bytes, and the byte search behind
 `str::floor_char_boundary`.
 */
module Utf8 {
  type Byte = b: nat | b < 256

  function Width(c: char): (w: nat)
    ensures 1 <= w <= 4
  {
    var n := c as int;
    if n < 0x80 then 1 else if n < 0x800 then 2 else if n < 0x1_0000 then 3 else 4
  }

  function EncodeChar(c: char): (bytes: seq<Byte>)
    ensures |bytes| == Width(c)
  {
    var n := c as int;
    if n < 0x80 then [n]
    else if n < 0x800 then [0xC0 + n / 0x40, 0x80 + n % 0x40]
    else if n < 0x1_0000 then [0xE0 + n / 0x1000, 0x80 + n / 0x40 % 0x40, 0x80 + n % 0x40]
    else [0xF0 + n / 0x4_0000, 0x80 + n / 0x1000 % 0x40, 0x80 + n / 0x40 % 0x40, 0x80 + n % 0x40]
  }

  function Encode(s: string): seq<Byte> {
    if s == [] then [] else EncodeChar(s[0]) + Encode(s[1..])
  }

  /** `str::len`, in bytes. */
  function ByteLen(s: string): nat {
    if s == [] then 0 else Width(s[0]) + ByteLen(s[1..])
  }

  predicate IsContinuation(b: Byte) { 0x80 <= b < 0xC0 }

  predicate IsAscii(s: string) { forall c | c in s :: c < 128 as char }

  lemma CharBytes(c: char)
    ensures !IsContinuation(EncodeChar(c)[0])
    ensures forall i | 0 < i < Width(c) :: IsContinuation(EncodeChar(c)[i])
  {
  }

  /** The well-formed byte sequences of one character: the syntax of section 4 of RFC 3629. */
  predicate IsWellFormedChar(b: seq<Byte>) {
    || (|b| == 1 && b[0] < 0x80)
    || (|b| == 2 && 0xC2 <= b[0] <= 0xDF && IsContinuation(b[1]))
    || (|b| == 3 && IsContinuation(b[1]) && IsContinuation(b[2])
        && (|| (b[0] == 0xE0 && b[1] >= 0xA0) || 0xE1 <= b[0] <= 0xEC
            || (b[0] == 0xED && b[1] <= 0x9F) || 0xEE <= b[0] <= 0xEF))
    || (|b| == 4 && IsContinuation(b[1]) && IsContinuation(b[2]) && IsContinuation(b[3])
        && ((b[0] == 0xF0 && b[1] >= 0x90) || 0xF1 <= b[0] <= 0xF3 || (b[0] == 0xF4 && b[1] <= 0x8F)))
  }

  /** The six bits a continuation byte carries. */
  function Bits(b: Byte): (v: int)
    requires IsContinuation(b)
  {
    b as int - 0x80
  }

  /** The code point such a sequence stands for: section 3 of RFC 3629, read backwards. */
  function CodePoint(b: seq<Byte>): int
    requires IsWellFormedChar(b)
  {
    var lead := b[0] as int;
    if |b| == 1 then lead
    else if |b| == 2 then (lead - 0xC0) * 0x40 + Bits(b[1])
    else if |b| == 3 then (lead - 0xE0) * 0x1000 + Bits(b[1]) * 0x40 + Bits(b[2])
    else (lead - 0xF0) * 0x4_0000 + Bits(b[1]) * 0x1000 + Bits(b[2]) * 0x40 + Bits(b[3])
  }

  lemma SixBitDigits(n: nat)
    ensures n == n / 0x40 * 0x40 + n % 0x40
    ensures n / 0x40 == n / 0x1000 * 0x40 + n / 0x40 % 0x40
    ensures n / 0x1000 == n / 0x4_0000 * 0x40 + n / 0x1000 % 0x40
  {
  }

  /** Every character is encoded by a well-formed sequence, and by the one that stands for it. */
  lemma EncodeCharRoundTrip(c: char)
    ensures IsWellFormedChar(EncodeChar(c)) && CodePoint(EncodeChar(c)) == c as int
  {
    SixBitDigits(c as int);
    WellFormed(c);
  }

  lemma WellFormed(c: char)
    ensures IsWellFormedChar(EncodeChar(c))
  {
  }

  lemma {:induction false} EncodedLength(s: string)
    ensures |Encode(s)| == ByteLen(s)
  {
    if s != [] {
      EncodedLength(s[1..]);
    }
  }

  lemma {:induction false} ByteLenAppend(s: string, t: string)
    ensures ByteLen(s + t) == ByteLen(s) + ByteLen(t)
  {
    if s == [] {
      assert s + t == t;
    } else {
      assert (s + t)[1..] == s[1..] + t;
      ByteLenAppend(s[1..], t);
    }
  }

  lemma {:induction false} EncodeAppend(s: string, t: string)
    ensures Encode(s + t) == Encode(s) + Encode(t)
  {
    if s == [] {
      assert s + t == t;
    } else {
      assert (s + t)[1..] == s[1..] + t;
      EncodeAppend(s[1..], t);
    }
  }

  lemma {:induction false} AtLeastOneByteEach(s: string)
    ensures ByteLen(s) >= |s|
    ensures ByteLen(s) == |s| <==> IsAscii(s)
  {
    if s != [] {
      AtLeastOneByteEach(s[1..]);
      assert s[0] in s;
      assert forall c | c in s :: c == s[0] || c in s[1..];
      assert forall c | c in s[1..] :: c in s;
    }
  }

  /** ASCII is exactly what takes one byte a character. */
  lemma AsciiLength(s: string)
    ensures IsAscii(s) <==> ByteLen(s) == |s|
  {
    AtLeastOneByteEach(s);
  }

  /** `str::floor_char_boundary` on the bytes: step back while the index points into a character. */
  function FloorCharBoundary(bytes: seq<Byte>, index: nat): (cut: nat)
    ensures cut <= |bytes|
    ensures cut <= index
  {
    if index >= |bytes| then |bytes|
    else if index == 0 || !IsContinuation(bytes[index]) then index
    else FloorCharBoundary(bytes, index - 1)
  }

  /** How many leading characters fit in `budget` bytes. */
  function CharsWithin(s: string, budget: nat): (k: nat)
    ensures k <= |s|
  {
    if s == [] || Width(s[0]) > budget then 0 else 1 + CharsWithin(s[1..], budget - Width(s[0]))
  }

  /** The longest prefix of at most `budget` bytes. */
  function TakeBytes(s: string, budget: nat): string { s[..CharsWithin(s, budget)] }

  lemma ByteLenOneMore(c: char, s: string)
    ensures ByteLen([c] + s) == Width(c) + ByteLen(s)
  {
    assert ([c] + s)[1..] == s;
  }

  /** The prefix fits, the next character would not, and so at most three bytes are wasted. */
  lemma {:induction false} TakeBytesMaximal(s: string, budget: nat)
    ensures TakeBytes(s, budget) == s[..CharsWithin(s, budget)] <= s
    ensures ByteLen(TakeBytes(s, budget)) <= budget
    ensures ByteLen(s) <= budget <==> CharsWithin(s, budget) == |s|
    ensures ByteLen(s) > budget ==>
              var k := CharsWithin(s, budget);
              k < |s| && ByteLen(s[..k + 1]) > budget && ByteLen(s[..k]) + 3 >= budget
  {
    if s != [] {
      var c, rest := s[0], s[1..];
      ByteLenOneMore(c, rest);
      assert s == [c] + rest;
      if Width(c) <= budget {
        var k := CharsWithin(rest, budget - Width(c));
        TakeBytesMaximal(rest, budget - Width(c));
        ByteLenOneMore(c, rest[..k]);
        assert s[..k + 1] == [c] + rest[..k];
        if k < |rest| {
          ByteLenOneMore(c, rest[..k + 1]);
          assert s[..k + 2] == [c] + rest[..k + 1];
        }
      } else {
        ByteLenOneMore(c, []);
        assert s[..1] == [c] + [];
      }
    }
  }

  lemma {:induction false} SearchInside(bytes: seq<Byte>, start: nat, index: nat)
    requires start <= index < |bytes|
    requires !IsContinuation(bytes[start])
    requires forall i | start < i <= index :: IsContinuation(bytes[i])
    ensures FloorCharBoundary(bytes, index) == start
  {
    if index > start {
      SearchInside(bytes, start, index - 1);
    }
  }

  lemma {:induction false} SearchShifted(front: seq<Byte>, back: seq<Byte>, index: nat)
    requires back == [] || !IsContinuation(back[0])
    requires |front| <= index
    ensures FloorCharBoundary(front + back, index) == |front| + FloorCharBoundary(back, index - |front|)
  {
    if |front| < index < |front + back| {
      assert (front + back)[index] == back[index - |front|];
      if IsContinuation(back[index - |front|]) {
        SearchShifted(front, back, index - 1);
      }
    } else if index == |front| && back != [] {
      assert (front + back)[index] == back[0];
    }
  }

  lemma FirstByte(s: string)
    ensures s == [] <==> Encode(s) == []
    ensures s != [] ==> !IsContinuation(Encode(s)[0])
  {
    if s != [] {
      CharBytes(s[0]);
    }
  }

  /** A character that fits is kept, and the search goes on behind it. */
  lemma SearchPastFirst(s: string, budget: nat)
    requires s != [] && Width(s[0]) <= budget
    ensures FloorCharBoundary(Encode(s), budget)
            == Width(s[0]) + FloorCharBoundary(Encode(s[1..]), budget - Width(s[0]))
    ensures TakeBytes(s, budget) == [s[0]] + TakeBytes(s[1..], budget - Width(s[0]))
  {
    hide EncodeChar, FloorCharBoundary;
    FirstByte(s[1..]);
    SearchShifted(EncodeChar(s[0]), Encode(s[1..]), budget);
  }

  /** A character that does not fit is where the search ends. */
  lemma SearchBeforeFirst(s: string, budget: nat)
    requires s != [] && Width(s[0]) > budget
    ensures FloorCharBoundary(Encode(s), budget) == 0 && TakeBytes(s, budget) == []
  {
    hide EncodeChar, FloorCharBoundary;
    CharBytes(s[0]);
    var bytes := Encode(s);
    assert forall i | 0 <= i <= budget :: bytes[i] == EncodeChar(s[0])[i];
    SearchInside(bytes, 0, budget);
  }

  lemma EncodeOneMore(c: char, s: string)
    ensures Encode([c] + s) == EncodeChar(c) + Encode(s)
  {
    assert ([c] + s)[1..] == s;
  }

  /** The byte search finds exactly the longest prefix of whole characters. */
  lemma {:induction false} FloorIsTakeBytes(s: string, budget: nat)
    ensures Encode(s)[..FloorCharBoundary(Encode(s), budget)] == Encode(TakeBytes(s, budget))
    ensures FloorCharBoundary(Encode(s), budget) == ByteLen(TakeBytes(s, budget))
  {
    hide EncodeChar, FloorCharBoundary, TakeBytes, ByteLen, Encode;
    if s == [] {
      NothingToTake(budget);
    } else if Width(s[0]) <= budget {
      var rest, left := s[1..], budget - Width(s[0]);
      SearchPastFirst(s, budget);
      FloorIsTakeBytes(rest, left);
      EncodeOneMore(s[0], rest);
      EncodeOneMore(s[0], TakeBytes(rest, left));
      ByteLenOneMore(s[0], TakeBytes(rest, left));
      assert s == [s[0]] + rest;
    } else {
      SearchBeforeFirst(s, budget);
      NothingToTake(budget);
    }
  }

  lemma NothingToTake(budget: nat)
    ensures Encode([]) == [] && ByteLen([]) == 0 && TakeBytes([], budget) == [] && FloorCharBoundary([], budget) == 0
  {
  }

  /** The search looks at no more than the three bytes before the index. */
  lemma FloorIsNear(s: string, budget: nat)
    requires ByteLen(s) > budget
    ensures budget <= FloorCharBoundary(Encode(s), budget) + 3
  {
    FloorIsTakeBytes(s, budget);
    TakeBytesMaximal(s, budget);
  }
}
