/** Decimal numbers and joined strings, as the source's formatting prints them. */
module Text {
  predicate IsDigit(c: char) { '0' <= c <= '9' }

  predicate AllDigits(s: string) { forall c | c in s :: IsDigit(c) }

  function DigitValue(c: char): (v: nat)
    requires IsDigit(c)
    ensures v < 10
  {
    c as int - '0' as int
  }

  function Value(s: string): nat
    requires AllDigits(s)
  {
    if s == [] then 0 else 10 * Value(s[..|s| - 1]) + DigitValue(s[|s| - 1])
  }

  /** How the source prints an unsigned integer. */
  function Decimal(n: nat): string {
    if n < 10 then [('0' as int + n) as char] else Decimal(n / 10) + [('0' as int + n % 10) as char]
  }

  lemma {:induction false} DecimalRoundTrip(n: nat)
    ensures Decimal(n) != [] && AllDigits(Decimal(n)) && Value(Decimal(n)) == n
  {
    var last := [('0' as int + n % 10) as char];
    if n < 10 {
      assert Decimal(n)[..0] == [];
    } else {
      DecimalRoundTrip(n / 10);
      assert Decimal(n)[..|Decimal(n)| - 1] == Decimal(n / 10);
    }
  }

  lemma DecimalInjective(m: nat, n: nat)
    requires Decimal(m) == Decimal(n)
    ensures m == n
  {
    DecimalRoundTrip(m);
    DecimalRoundTrip(n);
  }

  function Zeros(k: nat): string { seq(k, i => '0') }

  lemma DigitPrinted(c: char)
    requires IsDigit(c)
    ensures Decimal(DigitValue(c)) == [c]
  {
  }

  lemma DecimalOneMore(n: nat, c: char)
    requires n > 0 && IsDigit(c)
    ensures Decimal(10 * n + DigitValue(c)) == Decimal(n) + [c]
  {
  }

  lemma ValueOneMore(s: string, c: char)
    requires AllDigits(s) && IsDigit(c)
    ensures AllDigits(s + [c]) && Value(s + [c]) == 10 * Value(s) + DigitValue(c)
  {
    assert (s + [c])[..|s|] == s;
  }

  /** A string of digits is its value, printed, behind leading zeros. */
  lemma {:induction false} DigitsMeaning(s: string)
    requires s != [] && AllDigits(s)
    ensures |Decimal(Value(s))| <= |s| && s == Zeros(|s| - |Decimal(Value(s))|) + Decimal(Value(s))
  {
    hide Decimal, Value, DigitValue;
    var front, last := s[..|s| - 1], s[|s| - 1];
    assert s == front + [last];
    ValueOneMore(front, last);
    if front == [] {
      EmptyValue();
      DigitPrinted(last);
      assert s == Zeros(0) + [last];
    } else {
      DigitsMeaning(front);
      if Value(front) == 0 {
        ZeroPrinted();
        DigitPrinted(last);
        assert front == Zeros(|front|);
      } else {
        DecimalOneMore(Value(front), last);
      }
    }
  }

  lemma EmptyValue()
    ensures Value([]) == 0
  {
  }

  lemma ZeroPrinted()
    ensures Decimal(0) == "0"
  {
  }

  lemma {:induction false} ZerosAddNothing(k: nat, s: string)
    requires AllDigits(s)
    ensures AllDigits(Zeros(k) + s) && Value(Zeros(k) + s) == Value(s)
    decreases |s|, k
  {
    var padded := Zeros(k) + s;
    if s != [] {
      assert padded[..|padded| - 1] == Zeros(k) + s[..|s| - 1];
      ZerosAddNothing(k, s[..|s| - 1]);
    } else if k > 0 {
      assert padded[..k - 1] == Zeros(k - 1) + [];
      ZerosAddNothing(k - 1, []);
    }
  }

  function Join(parts: seq<string>, separator: string): string {
    if parts == [] then []
    else if |parts| == 1 then parts[0]
    else parts[0] + separator + Join(parts[1..], separator)
  }

  /** Joining one more part appends the separator and the part. */
  lemma {:induction false} JoinOneMore(parts: seq<string>, last: string, separator: string)
    ensures Join([], separator) == "" && Join([last], separator) == last
    ensures parts != [] ==> Join(parts + [last], separator) == Join(parts, separator) + separator + last
  {
    if |parts| > 1 {
      assert (parts + [last])[1..] == parts[1..] + [last];
      JoinOneMore(parts[1..], last, separator);
    } else if |parts| == 1 {
      assert (parts + [last])[1..] == [last];
    }
  }
}
