/** The length in front of a compressed chunk: a decimal number padded with zeros to a fixed
    width, read back from a C string. */
module ChunkHeader {

  function Pow10(k: nat): nat {
    if k == 0 then 1 else 10 * Pow10(k - 1)
  }

  predicate IsDigit(c: char) {
    '0' <= c <= '9'
  }

  predicate IsSpace(c: char) {
    c in {' ', '\t', '\n', '\r', '\U{0B}', '\U{0C}'}
  }

  function DigitOf(d: nat): char
    requires d < 10
  {
    "0123456789"[d]
  }

  function ValueOf(c: char): nat
    requires IsDigit(c)
  {
    c as int - '0' as int
  }

  function Decimal(n: nat): string {
    if n < 10 then [DigitOf(n)] else Decimal(n / 10) + [DigitOf(n % 10)]
  }

  function Zeros(k: nat): string {
    if k == 0 then [] else ['0'] + Zeros(k - 1)
  }

  // The number as it is printed: never shortened, whatever the width.
  function Padded(n: nat, width: nat): string {
    var d := Decimal(n);
    if |d| < width then Zeros(width - |d|) + d else d
  }

  // The value of the digits in front of s, after digits of value acc.
  function DigitsValue(s: string, acc: nat): nat {
    if s == [] || !IsDigit(s[0]) then acc else DigitsValue(s[1..], 10 * acc + ValueOf(s[0]))
  }

  function Atoll(s: string): int {
    if s == [] then 0
    else if IsSpace(s[0]) then Atoll(s[1..])
    else if s[0] == '-' then var v: int := DigitsValue(s[1..], 0); -v
    else if s[0] == '+' then DigitsValue(s[1..], 0)
    else DigitsValue(s, 0)
  }

  predicate AllDigits(s: string) {
    forall i :: 0 <= i < |s| ==> IsDigit(s[i])
  }

  lemma {:induction false} ValueSnoc(s: string, c: char, acc: nat)
    requires AllDigits(s) && IsDigit(c)
    ensures DigitsValue(s + [c], acc) == 10 * DigitsValue(s, acc) + ValueOf(c)
    decreases |s|
  {
    if s == [] {
      assert ([] + [c])[1..] == [];
    } else {
      ValueSnoc(s[1..], c, 10 * acc + ValueOf(s[0]));
      assert (s + [c])[1..] == s[1..] + [c];
    }
  }

  lemma {:induction false} DecimalValue(n: nat)
    ensures AllDigits(Decimal(n)) && DigitsValue(Decimal(n), 0) == n && |Decimal(n)| >= 1
  {
    if n >= 10 {
      DecimalValue(n / 10);
      ValueSnoc(Decimal(n / 10), DigitOf(n % 10), 0);
    } else {
      assert DigitsValue([DigitOf(n)], 0) == DigitsValue([DigitOf(n)][1..], ValueOf(DigitOf(n)));
    }
  }

  // Numbers are written with the digits in their order, the last one for the units.
  lemma DecimalSteps(n: nat, d: nat)
    requires d < 10
    ensures Decimal(d) == [('0' as int + d) as char]
    ensures n > 0 ==> Decimal(10 * n + d) == Decimal(n) + [('0' as int + d) as char]
  {
    assert "0123456789"[d] == ('0' as int + d) as char;
    assert n > 0 ==> (10 * n + d) / 10 == n && (10 * n + d) % 10 == d;
  }

  // A C number: spaces in front are skipped, a sign is heeded, each further digit counts for
  // its place, and what is no digit ends the number.
  lemma AtollSteps(s: string, d: nat, c: char)
    requires AllDigits(s) && d < 10 && !IsDigit(c)
    ensures Atoll(s + [('0' as int + d) as char]) == 10 * Atoll(s) + d
    ensures Atoll(s + [c]) == Atoll(s)
    ensures Atoll(['-'] + s) == -Atoll(s) && Atoll(['+'] + s) == Atoll(s) && Atoll([' '] + s) == Atoll(s)
  {
    var digit := ('0' as int + d) as char;
    ValueSnoc(s, digit, 0);
    AtollDigits(s);
    AtollDigits(s + [digit]);
    assert (['-'] + s)[1..] == s && (['+'] + s)[1..] == s && ([' '] + s)[1..] == s;
    DigitsStop(s, [c], 0);
  }

  lemma {:induction false} ZerosValue(k: nat, s: string)
    requires AllDigits(s)
    ensures |Zeros(k)| == k && AllDigits(Zeros(k) + s) && DigitsValue(Zeros(k) + s, 0) == DigitsValue(s, 0)
  {
    if k == 0 {
      assert Zeros(0) + s == s;
    } else {
      ZerosValue(k - 1, s);
      assert (Zeros(k) + s)[1..] == Zeros(k - 1) + s && (Zeros(k) + s)[0] == '0';
    }
  }

  lemma {:induction false} DecimalLength(n: nat, width: nat)
    requires width >= 1
    ensures |Decimal(n)| <= width <==> n < Pow10(width)
    decreases n
  {
    if n < 10 {
      TenAtLeast(width);
    } else if width > 1 {
      DecimalLength(n / 10, width - 1);
    } else {
      DecimalValue(n / 10);
      assert Pow10(1) == 10 * Pow10(0);
    }
  }

  lemma {:induction false} TenAtLeast(k: nat)
    requires k >= 1
    ensures Pow10(k) >= 10
  {
    if k == 1 {
      assert Pow10(1) == 10 * Pow10(0);
    } else {
      TenAtLeast(k - 1);
    }
  }

  lemma {:induction false} ValueBelow(s: string)
    requires AllDigits(s)
    ensures DigitsValue(s, 0) < Pow10(|s|)
    decreases |s|
  {
    if s != [] {
      var init := s[..|s| - 1];
      ValueBelow(init);
      ValueSnoc(init, s[|s| - 1], 0);
      assert s == init + [s[|s| - 1]];
    }
  }

  // The leading sign and spaces of a C number never occur in front of digits.
  lemma AtollDigits(s: string)
    requires AllDigits(s)
    ensures Atoll(s) == DigitsValue(s, 0)
  {
  }

  // What is read back from the first width characters is the number exactly when it has at
  // most width digits; its header then is exactly that wide.
  lemma HeaderRoundTrip(n: nat, width: nat)
    requires width >= 1
    ensures |Padded(n, width)| == width <==> n < Pow10(width)
    ensures |Padded(n, width)| >= width
    ensures Atoll(Padded(n, width)[..width]) == n <==> n < Pow10(width)
  {
    var p := Padded(n, width);
    DecimalValue(n);
    DecimalLength(n, width);
    if |Decimal(n)| < width {
      ZerosValue(width - |Decimal(n)|, Decimal(n));
    }
    assert AllDigits(p[..width]);
    AtollDigits(p[..width]);
    if n < Pow10(width) {
      assert p[..width] == p;
    } else {
      ValueBelow(p[..width]);
    }
  }

  lemma {:induction false} DigitsStop(h: string, junk: string, acc: nat)
    requires junk != [] && !IsDigit(junk[0])
    ensures DigitsValue(h + junk, acc) == DigitsValue(h, acc)
    decreases |h|
  {
    if h != [] {
      assert (h + junk)[1..] == h[1..] + junk;
      if IsDigit(h[0]) {
        DigitsStop(h[1..], junk, 10 * acc + ValueOf(h[0]));
      }
    } else {
      assert h + junk == junk;
    }
  }

  // What is in the buffer behind the terminating zero does not matter.
  lemma {:induction false} AtollStops(h: string, junk: string)
    ensures Atoll(h + ['\0'] + junk) == Atoll(h)
    decreases |h|
  {
    var end := ['\0'] + junk;
    assert h + ['\0'] + junk == h + end;
    if h == [] {
      assert h + end == end;
    } else {
      assert (h + end)[1..] == h[1..] + end;
      if IsSpace(h[0]) {
        AtollStops(h[1..], junk);
        assert h[1..] + ['\0'] + junk == h[1..] + end;
      } else {
        DigitsStop(h[1..], end, 0);
        DigitsStop(h, end, 0);
      }
    }
  }

  // Reads the C string in the buffer.
  method ReadNumber(buffer: array<char>) returns (v: int)
    ensures v == Atoll(buffer[..])
  {
    var i := 0;
    while i < buffer.Length && IsSpace(buffer[i])
      invariant i <= buffer.Length && Atoll(buffer[..]) == Atoll(buffer[i..])
    {
      assert buffer[i..][1..] == buffer[i + 1..];
      i := i + 1;
    }
    if i == buffer.Length {
      return 0;
    }
    var negative := buffer[i] == '-';
    if negative || buffer[i] == '+' {
      assert buffer[i..][1..] == buffer[i + 1..];
      i := i + 1;
    }
    var n := 0;
    ghost var goal := DigitsValue(buffer[i..], 0);
    while i < buffer.Length && IsDigit(buffer[i])
      invariant i <= buffer.Length && n >= 0 && DigitsValue(buffer[i..], n) == goal
    {
      assert buffer[i..][1..] == buffer[i + 1..];
      n := 10 * n + ValueOf(buffer[i]);
      i := i + 1;
    }
    v := if negative then -n else n;
  }
}
