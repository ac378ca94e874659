/** `itoa` of server/rate_limit_tiers.go: decimal text of an int64, written backwards
    into a 20-byte buffer. */
module Decimal {

  const MAX64 := 0x7FFF_FFFF_FFFF_FFFF
  const MIN64 := -0x8000_0000_0000_0000

  /** Two's-complement negation: the smallest value is its own negation. */
  function Negate64(n: int): int {
    if n == MIN64 then MIN64 else -n
  }

  function Pow10(k: nat): nat {
    if k == 0 then 1 else 10 * Pow10(k - 1)
  }

  predicate Digits(s: string) {
    forall i :: 0 <= i < |s| ==> '0' <= s[i] <= '9'
  }

  /** The number a run of digits denotes, read left to right. */
  function Value(s: string): nat
    requires Digits(s)
  {
    if s == [] then 0 else 10 * Value(s[..|s| - 1]) + (s[|s| - 1] as int - '0' as int)
  }

  datatype Parsed = NotANumber | Number(n: int)

  function ParseInt(s: string): Parsed {
    if s == [] then NotANumber
    else if s[0] == '-' then
      if |s| > 1 && Digits(s[1..]) then Number(0 - Value(s[1..])) else NotANumber
    else if Digits(s) then Number(Value(s)) else NotANumber
  }

  /** No leading zero and no minus zero. */
  predicate Canonical(s: string) {
    s == "0" || (|s| > 0 && '1' <= s[0] <= '9') || (|s| > 1 && s[0] == '-' && '1' <= s[1] <= '9')
  }

  lemma {:induction false} ValuePrepend(c: char, s: string)
    requires '0' <= c <= '9' && Digits(s)
    ensures Digits([c] + s) && Value([c] + s) == (c as int - '0' as int) * Pow10(|s|) + Value(s)
    decreases |s|
  {
    if s == [] {
      assert [c] + s == [c];
    } else {
      var front, d, p := s[..|s| - 1], c as int - '0' as int, Pow10(|s| - 1);
      ValuePrepend(c, front);
      assert ([c] + s)[..|s|] == [c] + front;
      assert 10 * (d * p) == d * (10 * p);
    }
  }

  lemma SplitDigit(n: int, k: nat, v: int)
    ensures n * Pow10(k) + v == n / 10 * Pow10(k + 1) + (n % 10 * Pow10(k) + v)
  {
    var p := Pow10(k);
    assert Pow10(k + 1) == 10 * p;
    assert n == 10 * (n / 10) + n % 10;
    calc {
      n * p;
      (10 * (n / 10) + n % 10) * p;
      10 * (n / 10) * p + n % 10 * p;
      n / 10 * (10 * p) + n % 10 * p;
    }
  }

  lemma Pow10Of19()
    ensures MAX64 < Pow10(19)
  {
    assert Pow10(5) == 100000;
    assert Pow10(10) == 10000000000;
    assert Pow10(15) == 1000000000000000;
  }

  /** One more digit in front of those already written. */
  lemma OneMoreDigit(n: int, m: int, digits: string, c: char)
    requires m >= 0 && Digits(digits) && n == m * Pow10(|digits|) + Value(digits) && c as int == m % 10 + '0' as int
    ensures Digits([c] + digits) && n == m / 10 * Pow10(|digits| + 1) + Value([c] + digits)
  {
    SplitDigit(m, |digits|, Value(digits));
    ValuePrepend(c, digits);
  }

  lemma OneDigitLess(m: int, k: nat)
    requires 0 < m < Pow10(k)
    ensures k >= 1 && m / 10 < Pow10(k - 1) && (m / 10 == 0 ==> m % 10 != 0)
  {}

  /** The digits written so far, with `m` still to write. */
  ghost predicate Written(digits: string, n: int, m: int) {
    Digits(digits) && n == m * Pow10(|digits|) + Value(digits) && (m == 0 ==> digits != [] && digits[0] != '0')
  }

  lemma WriteDigit(digits: string, n: int, m: int, c: char, room: nat)
    requires Written(digits, n, m) && 0 < m < Pow10(room) && c as int == m % 10 + '0' as int
    ensures Written([c] + digits, n, m / 10) && room >= 1 && m / 10 < Pow10(room - 1)
  {
    OneDigitLess(m, room);
    OneMoreDigit(n, m, digits, c);
  }

  /** The digit loop of a positive number: its canonical digits at the end of the buffer,
      with room left for a sign. */
  method FillDigits(buf: array<char>, n: int) returns (pos: nat)
    requires buf.Length == 20 && 0 < n <= MAX64
    modifies buf
    ensures 1 <= pos < 20 && Digits(buf[pos..]) && Value(buf[pos..]) == n && buf[pos] != '0'
  {
    pos := 20;
    var m := n;
    Pow10Of19();
    assert Written(buf[20..], n, m);
    while m > 0
      invariant 1 <= pos <= 20 && 0 <= m < Pow10(pos - 1) && Written(buf[pos..], n, m)
      decreases m
    {
      ghost var before := buf[pos..];
      WriteDigit(before, n, m, (m % 10 + '0' as int) as char, pos - 1);
      pos := pos - 1;
      buf[pos] := (m % 10 + '0' as int) as char;
      assert buf[pos..] == [buf[pos]] + before;
      m := m / 10;
    }
  }

  /** Round trip and canonical form for every int64 but the smallest, whose text is a
      bare minus sign. Every store stays inside the 20 bytes. */
  method Itoa(n: int) returns (s: string)
    requires MIN64 <= n <= MAX64
    ensures ParseInt(s) == Number(n) && Canonical(s) <==> n != MIN64
    ensures n == MIN64 ==> s == "-"
    ensures |s| <= 20
  {
    if n == 0 {
      s := "0";
      assert Value("0") == 0;
      return;
    }
    var neg, m := false, n;
    if m < 0 {
      neg := true;
      m := Negate64(m);
    }
    var buf := new char[20];
    var pos := 20;
    if m > 0 {
      pos := FillDigits(buf, m);
    }
    ghost var digits := buf[pos..];
    if neg {
      pos := pos - 1;
      buf[pos] := '-';
      assert buf[pos..] == ['-'] + digits;
    }
    s := buf[pos..];
    assert neg ==> s[1..] == digits;
  }
}
