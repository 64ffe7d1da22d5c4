module Wrappers {
  datatype Option<+T> = None | Some(value: T)

  datatype Result<+T, +E> = Ok(value: T) | Err(error: E)
}

/** Division facts the solver needs help with. */
module Arith {
  lemma MulAtLeast(k: int, d: int)
    requires k >= 1 && d > 0
    ensures k * d >= d
  {
  }

  lemma Euclid(x: int, d: int, q: int, r: int)
    requires d > 0 && 0 <= r < d && x == q * d + r
    ensures x / d == q
  {
    var k, m := x / d, x % d;
    assert x == k * d + m;
    assert (q - k) * d == m - r;
    assert (k - q) * d == r - m;
    if q > k {
      MulAtLeast(q - k, d);
    } else if q < k {
      MulAtLeast(k - q, d);
    }
  }

  lemma DivStep(x: nat, d: int)
    requires d > 0
    ensures x / d == if x < d then 0 else 1 + (x - d) / d
  {
    if x < d {
      Euclid(x, d, 0, x);
    } else {
      var k, m := (x - d) / d, (x - d) % d;
      assert x - d == k * d + m;
      assert (1 + k) * d == d + k * d;
      Euclid(x, d, 1 + k, m);
    }
  }

  lemma {:induction false} DivMonotone(x: nat, y: nat, d: int)
    requires x <= y && d > 0
    ensures 0 <= x / d <= y / d
    decreases y
  {
    DivStep(x, d);
    DivStep(y, d);
    if y >= d {
      DivMonotone(if x >= d then x - d else 0, y - d, d);
    }
  }
}

/** Decimal printing and parsing and the trimming of white space, as Go's
    strconv and strings packages do them. */
module Text {
  import opened Wrappers

  // ------------------------------------------------------------- decimals

  predicate IsDigit(c: char) { '0' <= c <= '9' }

  predicate AllDigits(s: string) { forall i :: 0 <= i < |s| ==> IsDigit(s[i]) }

  function DigitChar(d: nat): (c: char)
    requires d < 10
    ensures IsDigit(c) && DigitValue(c) == d
  {
    '0' + d as char
  }

  function DigitValue(c: char): (d: nat)
    requires IsDigit(c)
    ensures d < 10
  {
    (c as int - '0' as int)
  }

  /** The decimal numeral of n, without leading zeros. */
  function Digits(n: nat): (s: string)
    ensures s != [] && AllDigits(s)
  {
    if n < 10 then [DigitChar(n)] else Digits(n / 10) + [DigitChar(n % 10)]
  }

  /** The number a string of digits denotes. */
  function Value(s: string): nat
    requires AllDigits(s)
  {
    if s == "" then 0 else Value(s[..|s| - 1]) * 10 + DigitValue(s[|s| - 1])
  }

  lemma {:induction false} ValueOfDigits(n: nat)
    ensures Value(Digits(n)) == n
  {
    if n < 10 {
      assert Digits(n)[..0] == "";
    } else {
      ValueOfDigits(n / 10);
      assert Digits(n)[..|Digits(n)| - 1] == Digits(n / 10);
    }
  }

  function Itoa(n: int): (s: string)
    ensures s != [] && AllDigits(if n < 0 then s[1..] else s)
  {
    if n < 0 then "-" + Digits(-n) else Digits(n)
  }

  lemma ItoaInjective(m: int, n: int)
    requires Itoa(m) == Itoa(n)
    ensures m == n
  {
    assert m < 0 ==> Itoa(m)[0] == '-' && Itoa(m)[1..] == Digits(-m);
    assert n < 0 ==> Itoa(n)[0] == '-' && Itoa(n)[1..] == Digits(-n);
    ValueOfDigits(if m < 0 then -m else m);
    ValueOfDigits(if n < 0 then -n else n);
  }

  lemma ItoaAvoids(n: int, c: char)
    requires !IsDigit(c) && c != '-'
    ensures c !in Itoa(n)
  {
    if n < 0 {
      assert Itoa(n) == ['-'] + Itoa(n)[1..];
    }
  }

  /** `%0*d` for a number that is not negative. */
  function ZeroPad(width: nat, n: nat): string {
    var d := Digits(n);
    seq(if |d| < width then width - |d| else 0, _ => '0') + d
  }

  function Pow10(k: nat): nat { if k == 0 then 1 else 10 * Pow10(k - 1) }

  lemma {:induction false} DigitsLength(n: nat, k: nat)
    requires 1 <= k && n < Pow10(k)
    ensures |Digits(n)| <= k
  {
    if n >= 10 {
      assert k > 1;
      DigitsLength(n / 10, k - 1);
    }
  }

  lemma {:induction false} ValueOfLeadingZeros(z: nat, s: string)
    requires AllDigits(s)
    ensures AllDigits(seq(z, _ => '0') + s) && Value(seq(z, _ => '0') + s) == Value(s)
    decreases |s|
  {
    var p := seq(z, _ => '0');
    if s == "" {
      assert p + s == p;
      ValueOfZeros(z);
    } else {
      ValueOfLeadingZeros(z, s[..|s| - 1]);
      assert (p + s)[..|p + s| - 1] == p + s[..|s| - 1];
    }
  }

  lemma {:induction false} ValueOfZeros(z: nat)
    ensures Value(seq(z, _ => '0')) == 0
  {
    if z > 0 {
      ValueOfZeros(z - 1);
      assert seq(z, _ => '0')[..z - 1] == seq(z - 1, _ => '0');
    }
  }

  /** A padded number has exactly `width` digits when it fits, and keeps its value. */
  lemma ZeroPadFits(width: nat, n: nat)
    requires 1 <= width && n < Pow10(width)
    ensures |ZeroPad(width, n)| == width && AllDigits(ZeroPad(width, n)) && Value(ZeroPad(width, n)) == n
  {
    DigitsLength(n, width);
    ValueOfDigits(n);
    ValueOfLeadingZeros(width - |Digits(n)|, Digits(n));
  }

  /** The decimal digits of n, at least `width` of them, with zeros in front only to make
      up the width. */
  predicate Padded(s: string, width: nat, n: nat) {
    AllDigits(s) && Value(s) == n && |s| >= width && (|s| > width ==> |s| == 1 || s[0] != '0')
  }

  lemma {:induction false} NoLeadingZero(n: nat)
    requires n > 0
    ensures Digits(n)[0] != '0'
  {
    if n >= 10 {
      NoLeadingZero(n / 10);
    }
  }

  lemma ZeroPadExact(width: nat, n: nat)
    ensures Padded(ZeroPad(width, n), width, n)
  {
    ValueOfDigits(n);
    ValueOfLeadingZeros(if |Digits(n)| < width then width - |Digits(n)| else 0, Digits(n));
    if n > 0 {
      NoLeadingZero(n);
    }
  }

  // -------------------------------------------------- strconv.ParseInt(v, 10, 64)

  const MAX_INT64: int := 0x7fff_ffff_ffff_ffff
  const MAX_UINT64: int := 0xffff_ffff_ffff_ffff

  datatype Scan = Number(n: nat) | Syntax | Range

  /** Digits from left to right; stops at the first bad character or overflow. */
  function ScanDigits(s: string, acc: nat): Scan {
    if s == "" then Number(acc)
    else if !IsDigit(s[0]) then Syntax
    else
      var n := acc * 10 + DigitValue(s[0]);
      if n > MAX_UINT64 then Range else ScanDigits(s[1..], n)
  }

  /** The number ParseInt returns, with its error dropped: 0 when the syntax is
      wrong and the nearest bound when the number is out of range. */
  function ParseInt64(v: string): (n: int)
    ensures -MAX_INT64 - 1 <= n <= MAX_INT64
  {
    if v == "" then 0
    else
      var neg := v[0] == '-';
      var body := if v[0] == '-' || v[0] == '+' then v[1..] else v;
      if body == "" then 0
      else match ScanDigits(body, 0)
        case Syntax => 0
        case Range => if neg then -MAX_INT64 - 1 else MAX_INT64
        case Number(n) =>
          if neg then (if n > MAX_INT64 + 1 then -MAX_INT64 - 1 else 0 - n as int)
          else if n > MAX_INT64 then MAX_INT64 else n
  }

  lemma {:induction false} ScanDigitsOf(n: nat, rest: string)
    requires n <= MAX_UINT64
    ensures ScanDigits(Digits(n) + rest, 0) == ScanDigits(rest, n)
  {
    if n < 10 {
      assert (Digits(n) + rest)[1..] == rest;
    } else {
      ScanDigitsOf(n / 10, [DigitChar(n % 10)] + rest);
      assert Digits(n) + rest == Digits(n / 10) + ([DigitChar(n % 10)] + rest);
      assert ([DigitChar(n % 10)] + rest)[1..] == rest;
    }
  }

  /** Parsing undoes printing on the whole of int64's non-negative half. */
  lemma ParseOfItoa(n: nat)
    requires n <= MAX_INT64
    ensures ParseInt64(Itoa(n)) == n
  {
    ScanDigitsOf(n, "");
    assert Digits(n) + "" == Digits(n);
  }

  /** The first k characters are the digits `s` begins with. */
  predicate DigitsUpTo(s: string, k: int) {
    0 <= k <= |s| && AllDigits(s[..k]) && (k < |s| ==> !IsDigit(s[k]))
  }

  /** The number of a string of digits, read from the left after `acc`. */
  function ValueAfter(acc: nat, s: string): (n: nat)
    requires AllDigits(s)
    ensures n >= acc
    decreases s
  {
    if s == "" then acc else ValueAfter(acc * 10 + DigitValue(s[0]), s[1..])
  }

  lemma {:induction false} ValueFromLeft(s: string)
    requires AllDigits(s)
    ensures ValueAfter(0, s) == Value(s)
  {
    if s != "" {
      ValueFromLeft(s[..|s| - 1]);
      ValueAfterLast(0, s);
    }
  }

  lemma {:induction false} ValueAfterLast(acc: nat, s: string)
    requires AllDigits(s) && s != ""
    ensures ValueAfter(acc, s) == ValueAfter(acc, s[..|s| - 1]) * 10 + DigitValue(s[|s| - 1])
    decreases |s|
  {
    if |s| > 1 {
      ValueAfterLast(acc * 10 + DigitValue(s[0]), s[1..]);
      assert s[1..][..|s| - 2] == s[..|s| - 1][1..];
    }
  }

  lemma {:induction false} ScanDigitsExact(s: string, acc: nat, k: nat)
    requires DigitsUpTo(s, k) && acc <= MAX_UINT64
    ensures ScanDigits(s, acc) ==
      if ValueAfter(acc, s[..k]) > MAX_UINT64 then Range
      else if k == |s| then Number(ValueAfter(acc, s[..k]))
      else Syntax
  {
    if k > 0 {
      assert IsDigit(s[..k][0]) && s[..k][1..] == s[1..][..k - 1];
      var n := acc * 10 + DigitValue(s[0]);
      if n <= MAX_UINT64 {
        ScanDigitsExact(s[1..], n, k - 1);
      }
    }
  }

  function Clamp(n: int): int {
    if n > MAX_INT64 then MAX_INT64 else if n < -MAX_INT64 - 1 then -MAX_INT64 - 1 else n
  }

  /** `v` is its sign and `body`. */
  predicate Signed(v: string, body: string, neg: bool) {
    || (v == body && !neg && (body != "" ==> body[0] != '+' && body[0] != '-'))
    || v == [if neg then '-' else '+'] + body
  }

  /** ParseInt with its error dropped: a signed numeral gives its number, or the nearest
      bound; so do digits past every bound, whatever follows; anything else gives 0. */
  lemma ParseExact(v: string, body: string, neg: bool, k: nat)
    requires Signed(v, body, neg) && DigitsUpTo(body, k)
    ensures var n: int := Value(body[..k]);
      ParseInt64(v) == if k > 0 && (k == |body| || n > MAX_UINT64) then Clamp(if neg then -n else n) else 0
  {
    if v != "" {
      assert body == if v[0] == '-' || v[0] == '+' then v[1..] else v;
      assert neg == (v[0] == '-');
      ValueFromLeft(body[..k]);
      ScanDigitsExact(body, 0, k);
    }
  }

  // -------------------------------------------------------- white space

  /** unicode.IsSpace. */
  predicate IsSpace(c: char) {
    var n := c as int;
    || 0x9 <= n <= 0xD || n == 0x20 || n == 0x85 || n == 0xA0 || n == 0x1680 || 0x2000 <= n <= 0x200A
    || n == 0x2028 || n == 0x2029 || n == 0x202F || n == 0x205F || n == 0x3000
  }

  function TrimSpace(s: string): (r: string)
    ensures r != "" ==> !IsSpace(r[0]) && !IsSpace(r[|r| - 1])
    ensures s != "" && !IsSpace(s[0]) && !IsSpace(s[|s| - 1]) ==> r == s
  {
    if s == "" then s
    else if IsSpace(s[0]) then TrimSpace(s[1..])
    else if IsSpace(s[|s| - 1]) then TrimSpace(s[..|s| - 1])
    else s
  }

  /** `s` is `inner` with white space around it and none at its own edges. */
  ghost predicate Trims(s: string, inner: string, i: int) {
    && 0 <= i && i + |inner| <= |s| && s[i..i + |inner|] == inner
    && (forall k :: 0 <= k < i || i + |inner| <= k < |s| ==> IsSpace(s[k]))
    && (inner != "" ==> !IsSpace(inner[0]) && !IsSpace(inner[|inner| - 1]))
  }

  /** Trimming yields what stands between the white space, and there is one such part. */
  lemma {:induction false} TrimExact(s: string) returns (i: nat)
    ensures Trims(s, TrimSpace(s), i)
    decreases |s|
  {
    i := 0;
    if s != "" && IsSpace(s[0]) {
      var j := TrimExact(s[1..]);
      i := j + 1;
    } else if s != "" && IsSpace(s[|s| - 1]) {
      i := TrimExact(s[..|s| - 1]);
    }
  }

  lemma {:induction false} TrimUnique(s: string, inner: string, i: int)
    requires Trims(s, inner, i)
    ensures TrimSpace(s) == inner
    decreases |s|
  {
    if s == "" {
    } else if IsSpace(s[0]) {
      TrimUnique(s[1..], inner, if i > 0 then i - 1 else 0);
    } else if IsSpace(s[|s| - 1]) {
      TrimUnique(s[..|s| - 1], inner, i);
    }
  }
}
