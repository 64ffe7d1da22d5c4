/** One-time codes: internal/security/totp.go, after section 5.3 of RFC 4226
    and sections 4.2 and 5.2 of RFC 6238. Instants are nanoseconds since the
    Unix epoch.  */
module Totp {
  import opened Wrappers
  import Arith
  import opened Text

  type byte = b: int | 0 <= b < 256

  /** The primitives the code calls and this model does not look into. */
  datatype Crypto = Crypto(
    hmac: (seq<byte>, seq<byte>) -> seq<byte>,        // HMAC-SHA-1 of a key and a message
    decodeSecret: string -> Option<seq<byte>>,        // trim, upper-case, base32
    verifyPassword: (string, string) -> bool,         // password against argon2id hash
    hashToken: string -> string)                      // hex SHA-256

  /** HMAC-SHA-1 yields 20 bytes. */
  ghost predicate Sha1Sized(c: Crypto) {
    forall k, m :: |c.hmac(k, m)| == 20
  }

  const DIGITS: nat := 6
  const PERIOD: int := 30
  const SKEW: int := 1
  const SECOND: int := 1_000_000_000

  /** The first instant past what int64 seconds can express. */
  const HORIZON: int := 0x8000_0000_0000_0000 * SECOND

  /** uint64(t.Unix()) / 30: whole seconds, wrapped at 2^64. */
  function Counter(t: int): nat { (t / SECOND) % 0x1_0000_0000_0000_0000 / PERIOD }

  /** binary.BigEndian.PutUint64. */
  function BigEndian(width: nat, n: nat): (s: seq<byte>)
    ensures |s| == width
  {
    if width == 0 then [] else BigEndian(width - 1, n / 256) + [n % 256]
  }

  function FromBigEndian(s: seq<byte>): nat {
    if s == [] then 0 else FromBigEndian(s[..|s| - 1]) * 256 + s[|s| - 1] as int
  }

  function Pow256(k: nat): nat { if k == 0 then 1 else 256 * Pow256(k - 1) }

  lemma {:induction false} BigEndianRoundTrip(width: nat, n: nat)
    requires n < Pow256(width)
    ensures FromBigEndian(BigEndian(width, n)) == n
  {
    if width > 0 {
      BigEndianRoundTrip(width - 1, n / 256);
      assert BigEndian(width, n)[..width - 1] == BigEndian(width - 1, n / 256);
    }
  }

  /** The counter always fits the eight-byte message, so distinct periods are
      authenticated by distinct messages. */
  lemma CounterMessageInjective(t: int, u: int)
    requires BigEndian(8, Counter(t)) == BigEndian(8, Counter(u))
    ensures Counter(t) == Counter(u)
  {
    assert Pow256(8) == 0x1_0000_0000_0000_0000;
    BigEndianRoundTrip(8, Counter(t));
    BigEndianRoundTrip(8, Counter(u));
  }

  /** Dynamic truncation (section 5.3 of RFC 4226): the low four bits of the last
      byte choose four bytes, read big-endian with the sign bit cleared. */
  function Truncate(mac: seq<byte>): nat
    requires |mac| == 20
  {
    var offset := mac[19] % 16;
    FromBigEndian(mac[offset..offset + 4]) % 0x8000_0000
  }

  /** The six-digit code for a secret at an instant, None when the secret does
      not decode. */
  function Code(c: Crypto, secret: string, t: int): (r: Option<string>)
    requires Sha1Sized(c)
  {
    match c.decodeSecret(secret)
    case None => None
    case Some(key) => Some(ZeroPad(DIGITS, Truncate(c.hmac(key, BigEndian(8, Counter(t)))) % Pow10(DIGITS)))
  }

  lemma FourBytes(a: byte, b: byte, c: byte, d: byte)
    ensures FromBigEndian([a, b, c, d]) == ((a as int * 256 + b as int) * 256 + c as int) * 256 + d as int
  {
    assert [a, b, c, d][..3] == [a, b, c];
    assert [a, b, c][..2] == [a, b];
    assert [a, b][..1] == [a];
    assert [a][..0] == [];
    assert FromBigEndian([a]) == a as int;
    assert FromBigEndian([a, b]) == a as int * 256 + b as int;
    assert FromBigEndian([a, b, c]) == (a as int * 256 + b as int) * 256 + c as int;
  }

  /** Clearing the sign bit of the first byte is the remainder modulo 2^31. */
  lemma TruncateByShifts(mac: seq<byte>)
    requires |mac| == 20
    ensures var o: nat := mac[19] % 16;
      Truncate(mac) == (mac[o] % 128) as int * 0x100_0000 + mac[o + 1] as int * 0x1_0000
        + mac[o + 2] as int * 0x100 + mac[o + 3] as int
  {
    var o: nat := mac[19] % 16;
    assert mac[o..o + 4] == [mac[o], mac[o + 1], mac[o + 2], mac[o + 3]];
    FourBytes(mac[o], mac[o + 1], mac[o + 2], mac[o + 3]);
  }

  /** Eight bytes read as one big-endian word. */
  function Word(m: seq<byte>): nat
    requires |m| == 8
  {
    ((((((m[0] as int * 256 + m[1] as int) * 256 + m[2] as int) * 256 + m[3] as int) * 256 + m[4] as int) * 256
      + m[5] as int) * 256 + m[6] as int) * 256 + m[7] as int
  }

  lemma WordRead(m: seq<byte>)
    requires |m| == 8
    ensures FromBigEndian(m) == Word(m)
  {
    FourBytes(m[0], m[1], m[2], m[3]);
    assert m[..4] == [m[0], m[1], m[2], m[3]];
    assert m[..5][..4] == m[..4] && m[..6][..5] == m[..5] && m[..7][..6] == m[..6];
    var four := FromBigEndian(m[..4]);
    assert FromBigEndian(m[..5]) == four * 256 + m[4] as int;
    assert FromBigEndian(m[..6]) == (four * 256 + m[4] as int) * 256 + m[5] as int;
    assert FromBigEndian(m[..7]) == ((four * 256 + m[4] as int) * 256 + m[5] as int) * 256 + m[6] as int;
  }

  /** The code is told by the MAC, under the decoded secret, of the eight bytes that count
      the half minutes since the epoch: the last byte's low bits say where four bytes
      start, and those, less their sign bit, end in the six digits of the code. */
  lemma CodeExact(c: Crypto, secret: string, t: int) returns (message: seq<byte>)
    requires Sha1Sized(c) && 0 <= t < HORIZON
    ensures |message| == 8 && Word(message) == t / 30_000_000_000
    ensures match c.decodeSecret(secret)
      case None => Code(c, secret, t).None?
      case Some(k) =>
        var mac := c.hmac(k, message);
        var o: nat := mac[19] % 16;
        var word: nat := (mac[o] % 128) as int * 0x100_0000 + mac[o + 1] as int * 0x1_0000
          + mac[o + 2] as int * 0x100 + mac[o + 3] as int;
        && Code(c, secret, t).Some?
        && |Code(c, secret, t).value| == 6 && AllDigits(Code(c, secret, t).value)
        && Value(Code(c, secret, t).value) == word % 1_000_000
  {
    message := BigEndian(8, Counter(t));
    assert Pow256(8) == 0x1_0000_0000_0000_0000;
    BigEndianRoundTrip(8, Counter(t));
    WordRead(message);
    Periods(t);
    if c.decodeSecret(secret).Some? {
      var mac := c.hmac(c.decodeSecret(secret).value, message);
      TruncateByShifts(mac);
      assert Pow10(6) == 1_000_000;
      ZeroPadFits(6, Truncate(mac) % 1_000_000);
    }
  }

  lemma Periods(t: int)
    requires 0 <= t < HORIZON
    ensures Counter(t) == t / 30_000_000_000
  {
    var k, m := t / SECOND / 30, t / SECOND % 30;
    assert t == k * 30_000_000_000 + (m * SECOND + t % SECOND);
    Arith.Euclid(t, 30_000_000_000, k, m * SECOND + t % SECOND);
  }

  /** `totpCode`: the bytes are picked and shifted one by one; the indices stay
      inside the 20-byte MAC. */
  method TotpCode(c: Crypto, secret: string, t: int) returns (r: Option<string>)
    requires Sha1Sized(c)
    ensures r == Code(c, secret, t)
    ensures r.Some? ==> |r.value| == 6 && AllDigits(r.value)
  {
    var decoded := c.decodeSecret(secret);
    if decoded.None? {
      return None;
    }
    var sum := c.hmac(decoded.value, BigEndian(8, Counter(t)));
    var offset: nat := sum[|sum| - 1] % 16;
    var binCode: nat := (sum[offset] % 128) as int * 0x100_0000 + sum[offset + 1] as int * 0x1_0000
      + sum[offset + 2] as int * 0x100 + sum[offset + 3] as int;
    TruncateByShifts(sum);
    var mod: nat := 1;
    for i := 0 to DIGITS
      invariant mod == Pow10(i)
    {
      mod := mod * 10;
    }
    ZeroPadFits(DIGITS, binCode % mod);
    return Some(ZeroPad(DIGITS, binCode % mod));
  }

  lemma CodeIsSixDigits(c: Crypto, secret: string, t: int)
    requires Sha1Sized(c) && Code(c, secret, t).Some?
    ensures |Code(c, secret, t).value| == 6 && AllDigits(Code(c, secret, t).value)
  {
    ZeroPadFits(DIGITS, Truncate(c.hmac(c.decodeSecret(secret).value, BigEndian(8, Counter(t)))) % Pow10(DIGITS));
  }

  /** Codes are accepted for the current period and one period either side. */
  ghost predicate Accepts(c: Crypto, secret: string, code: string, now: int)
    requires Sha1Sized(c)
  {
    exists w: int :: -SKEW <= w <= SKEW && AcceptedAt(c, secret, TrimSpace(code), now, w)
  }

  /** `code` is the code of the period w periods away. */
  ghost predicate AcceptedAt(c: Crypto, secret: string, code: string, now: int, w: int)
    requires Sha1Sized(c)
  {
    Code(c, secret, now + w * PERIOD * SECOND) == Some(code)
  }

  /** `verifyTOTPAt`: a bounded search that accepts exactly those codes. */
  method VerifyTotpAt(c: Crypto, secret: string, code: string, now: int) returns (ok: bool)
    requires Sha1Sized(c)
    ensures ok <==> Accepts(c, secret, code, now)
  {
    var trimmed := TrimSpace(code);
    if |trimmed| != DIGITS {
      forall w: int | Code(c, secret, now + w * PERIOD * SECOND) == Some(trimmed) ensures false {
        CodeIsSixDigits(c, secret, now + w * PERIOD * SECOND);
      }
      return false;
    }
    var w := -SKEW;
    while w <= SKEW
      invariant -SKEW <= w <= SKEW + 1
      invariant forall v: int :: -SKEW <= v < w ==> !AcceptedAt(c, secret, trimmed, now, v)
    {
      var want := TotpCode(c, secret, now + w * PERIOD * SECOND);
      if want.None? {
        assert forall v: int :: !AcceptedAt(c, secret, trimmed, now, v);
        return false;
      }
      if want.value == trimmed {
        assert AcceptedAt(c, secret, trimmed, now, w);
        return true;
      }
      w := w + 1;
    }
    return false;
  }

  /** Instants at most one period apart lie in the same or adjacent periods, so
      trying the periods either side of the check finds the generator's. */
  lemma CountersAdjacent(generated: int, checked: int)
    requires 0 <= generated < HORIZON && 0 <= checked < HORIZON
    requires -PERIOD * SECOND <= generated - checked <= PERIOD * SECOND
    ensures exists w: int :: -SKEW <= w <= SKEW && Counter(checked + w * PERIOD * SECOND) == Counter(generated)
  {
    var g, k := generated / SECOND, checked / SECOND;
    assert -30 <= g - k <= 30;
    var w := g / PERIOD - k / PERIOD;
    assert -1 <= w <= 1;
    PeriodsLater(checked, w);
  }

  /** Moving an instant by whole periods moves its counter by as many. */
  lemma PeriodsLater(t: int, w: int)
    requires 0 <= t < HORIZON && -1 <= w <= 1 && 0 <= t / SECOND / PERIOD + w
    ensures Counter(t + w * PERIOD * SECOND) == t / SECOND / PERIOD + w
  {
    var k, m := t / SECOND, t % SECOND;
    assert t + w * PERIOD * SECOND == (k + w * PERIOD) * SECOND + m;
    Arith.Euclid(t + w * PERIOD * SECOND, SECOND, k + w * PERIOD, m);
    assert k + w * PERIOD >= 0;
  }

  /** A generated code is accepted at any check at most one period away, from the
      epoch on. */
  lemma FreshCodeAccepted(c: Crypto, secret: string, generated: int, checked: int)
    requires Sha1Sized(c) && Code(c, secret, generated).Some?
    requires 0 <= generated < HORIZON && 0 <= checked < HORIZON
    requires -PERIOD * SECOND <= generated - checked <= PERIOD * SECOND
    ensures Accepts(c, secret, Code(c, secret, generated).value, checked)
  {
    var code := Code(c, secret, generated).value;
    CodeIsSixDigits(c, secret, generated);
    assert TrimSpace(code) == code;
    CountersAdjacent(generated, checked);
    var w: int :| -SKEW <= w <= SKEW && Counter(checked + w * PERIOD * SECOND) == Counter(generated);
    SameCounterSameCode(c, secret, checked + w * PERIOD * SECOND, generated);
    assert AcceptedAt(c, secret, code, checked, w);
  }

  lemma SameCounterSameCode(c: Crypto, secret: string, s: int, t: int)
    requires Sha1Sized(c) && Counter(s) == Counter(t)
    ensures Code(c, secret, s) == Code(c, secret, t)
  {
  }
}
