/** Percent-encoding, query strings and lines, as Go's net/url and strings packages
    do them; Go strings are byte sequences, so what is escaped is the UTF-8 text. */
module Url {
  import opened Wrappers

  type Byte = b: int | 0 <= b < 256

  function Utf8(c: char): seq<Byte> {
    var n := c as int;
    if n < 0x80 then [n]
    else if n < 0x800 then [0xC0 + n / 64, 0x80 + n % 64]
    else if n < 0x1_0000 then [0xE0 + n / 4096, 0x80 + n / 64 % 64, 0x80 + n % 64]
    else [0xF0 + n / 262144, 0x80 + n / 4096 % 64, 0x80 + n / 64 % 64, 0x80 + n % 64]
  }

  function Encode(s: string): seq<Byte> {
    if s == "" then [] else Utf8(s[0]) + Encode(s[1..])
  }

  /** A byte that continues a character. */
  predicate Tail(b: Byte) { 0x80 <= b < 0xC0 }

  /** The bytes of a character (section 3 of RFC 3629): the first tells how many there are,
      and the rest carry six bits each. */
  predicate IsUtf8(bs: seq<Byte>, n: int) {
    || (|bs| == 1 && bs[0] < 0x80 && n == bs[0])
    || (|bs| == 2 && 0xC0 <= bs[0] < 0xE0 && Tail(bs[1]) && n == (bs[0] - 0xC0) as int * 64 + (bs[1] - 0x80) as int)
    || (|bs| == 3 && 0xE0 <= bs[0] < 0xF0 && Tail(bs[1]) && Tail(bs[2])
        && n == ((bs[0] - 0xE0) as int * 64 + (bs[1] - 0x80) as int) * 64 + (bs[2] - 0x80) as int)
    || (|bs| == 4 && 0xF0 <= bs[0] < 0xF8 && Tail(bs[1]) && Tail(bs[2]) && Tail(bs[3])
        && n == (((bs[0] - 0xF0) as int * 64 + (bs[1] - 0x80) as int) * 64 + (bs[2] - 0x80) as int) * 64
                + (bs[3] - 0x80) as int)
  }

  lemma Utf8Exact(c: char)
    ensures IsUtf8(Utf8(c), c as int)
  {
    var n := c as int;
    assert n / 64 / 64 == n / 4096 && n / 64 / 64 / 64 == n / 262144;
  }

  /** No character's bytes begin another's, so a text is determined by its bytes. */
  lemma Utf8First(c: char, x: seq<Byte>, d: char, y: seq<Byte>)
    requires Utf8(c) + x == Utf8(d) + y
    ensures c == d && x == y
  {
    Utf8Exact(c);
    Utf8Exact(d);
    var a, b := Utf8(c), Utf8(d);
    assert (a + x)[0] == a[0] && (b + y)[0] == b[0];
    assert |a| == |b|;
    assert a == (a + x)[..|a|] && b == (b + y)[..|b|];
    assert x == (a + x)[|a|..] && y == (b + y)[|b|..];
  }

  lemma {:induction false} EncodeInjective(s: string, t: string)
    requires Encode(s) == Encode(t)
    ensures s == t
  {
    if s != "" && t != "" {
      Utf8First(s[0], Encode(s[1..]), t[0], Encode(t[1..]));
      EncodeInjective(s[1..], t[1..]);
      assert s == [s[0]] + s[1..] && t == [t[0]] + t[1..];
    } else if s != "" {
      Utf8Exact(s[0]);
    } else if t != "" {
      Utf8Exact(t[0]);
    }
  }

  /** Bytes read as characters one by one. */
  function AsText(bs: seq<Byte>): (s: string)
    ensures |s| == |bs|
  {
    seq(|bs|, i requires 0 <= i < |bs| => bs[i] as char)
  }

  // -------------------------------------------------------------------- escaping

  predicate Unreserved(c: char) {
    'a' <= c <= 'z' || 'A' <= c <= 'Z' || '0' <= c <= '9' || c == '-' || c == '_' || c == '.' || c == '~'
  }

  /** What PathEscape (or, with `query`, QueryEscape) leaves as it is. */
  predicate Safe(c: char, query: bool) {
    Unreserved(c) || (!query && (c == '$' || c == '&' || c == '+' || c == '=' || c == ':' || c == '@'))
  }

  function HexDigit(d: int): (c: char)
    requires 0 <= d < 16
    ensures Unreserved(c) && HexValue(c) == Some(d)
  {
    if d < 10 then (48 + d) as char else (55 + d) as char
  }

  function HexValue(c: char): (d: Option<int>)
    ensures d.Some? ==> 0 <= d.value < 16
  {
    if '0' <= c <= '9' then Some(c as int - 48)
    else if 'A' <= c <= 'F' then Some(c as int - 55)
    else if 'a' <= c <= 'f' then Some(c as int - 87)
    else None
  }

  function EscapeByte(b: Byte, query: bool): string {
    if Safe(b as char, query) then [b as char]
    else if query && b == 32 then "+"
    else ['%', HexDigit(b / 16), HexDigit(b % 16)]
  }

  function Escape(bs: seq<Byte>, query: bool): string {
    if bs == [] then "" else EscapeByte(bs[0], query) + Escape(bs[1..], query)
  }

  /** PathUnescape or QueryUnescape; None stands for the malformed-escape error. */
  function Unescape(s: string, query: bool): Option<seq<Byte>> {
    if s == "" then Some([])
    else if s[0] == '%' then
      if |s| < 3 then None
      else
        match (HexValue(s[1]), HexValue(s[2]), Unescape(s[3..], query))
        case (Some(h), Some(l), Some(rest)) => Some([16 * h + l] + rest)
        case _ => None
    else
      match Unescape(s[1..], query)
      case Some(rest) =>
        if query && s[0] == '+' then Some([32] + rest) else Some(Utf8(s[0]) + rest)
      case None => None
  }

  /** No spaces, control characters or anything beyond ASCII. */
  predicate Visible(s: string) { forall i :: 0 <= i < |s| ==> '!' <= s[i] <= '~' }

  lemma {:induction false} EscapeVisible(bs: seq<Byte>, query: bool)
    ensures var s := Escape(bs, query);
      && Visible(s)
      && forall i :: 0 <= i < |s| ==> s[i] != '/' && s[i] != '?' && s[i] != '#' && (query ==> s[i] != '&' && s[i] != ';')
  {
    if bs != [] {
      EscapeVisible(bs[1..], query);
    }
  }

  lemma {:induction false} UnescapeEscape(bs: seq<Byte>, query: bool)
    ensures Unescape(Escape(bs, query), query) == Some(bs)
  {
    if bs != [] {
      UnescapeEscape(bs[1..], query);
      var e, rest := EscapeByte(bs[0], query), Escape(bs[1..], query);
      assert bs == [bs[0]] + bs[1..];
      if |e| == 1 {
        assert (e + rest)[1..] == rest;
      } else {
        assert (e + rest)[3..] == rest;
      }
    }
  }

  predicate Plain(s: string) { forall i :: 0 <= i < |s| ==> Unreserved(s[i]) }

  lemma {:induction false} PlainEncode(s: string)
    requires Plain(s)
    ensures |Encode(s)| == |s| && AsText(Encode(s)) == s
  {
    if s != "" {
      PlainEncode(s[1..]);
      assert AsText(Encode(s)) == [s[0]] + AsText(Encode(s[1..]));
    }
  }

  lemma {:induction false} PlainUnescape(s: string, query: bool)
    requires Plain(s)
    ensures Unescape(s, query) == Some(Encode(s))
  {
    if s != "" {
      PlainUnescape(s[1..], query);
    }
  }

  // --------------------------------------------------------------- cut and split

  function Before(s: string, c: char): string {
    if s == "" || s[0] == c then "" else [s[0]] + Before(s[1..], c)
  }

  /** What follows the first `c`; empty without one. */
  function AfterFirst(s: string, c: char): string {
    if s == "" then "" else if s[0] == c then s[1..] else AfterFirst(s[1..], c)
  }

  function Split(s: string, c: char): (parts: seq<string>)
    ensures parts != []
  {
    if s == "" then [""]
    else
      var parts := Split(s[1..], c);
      if s[0] == c then [""] + parts else [[s[0]] + parts[0]] + parts[1..]
  }

  function JoinWith(parts: seq<string>, c: char): string {
    if parts == [] then ""
    else if |parts| == 1 then parts[0]
    else parts[0] + [c] + JoinWith(parts[1..], c)
  }

  lemma {:induction false} CutAt(a: string, c: char, b: string)
    requires c !in a
    ensures Before(a + [c] + b, c) == a && AfterFirst(a + [c] + b, c) == b
  {
    var s := a + [c] + b;
    if a == "" {
      assert s[1..] == b;
    } else {
      CutAt(a[1..], c, b);
      assert s[1..] == a[1..] + [c] + b;
    }
  }

  lemma {:induction false} SplitNone(s: string, c: char)
    requires c !in s
    ensures Split(s, c) == [s]
  {
    if s != "" {
      SplitNone(s[1..], c);
      assert [s[0]] + s[1..] == s;
    }
  }

  lemma PushFirst(x: char, pa: seq<string>, pb: seq<string>)
    requires pa != []
    ensures [[x] + (pa + pb)[0]] + (pa + pb)[1..] == ([[x] + pa[0]] + pa[1..]) + pb
  {
    assert (pa + pb)[1..] == pa[1..] + pb;
  }

  lemma {:induction false} SplitAt(a: string, c: char, b: string)
    ensures Split(a + [c] + b, c) == Split(a, c) + Split(b, c)
  {
    var s := a + [c] + b;
    if a == "" {
      assert s[1..] == b;
    } else {
      SplitAt(a[1..], c, b);
      assert s[1..] == a[1..] + [c] + b;
      var pa, pb := Split(a[1..], c), Split(b, c);
      assert s[0] == a[0];
      if a[0] == c {
        assert [""] + (pa + pb) == ([""] + pa) + pb;
      } else {
        PushFirst(a[0], pa, pb);
      }
    }
  }

  /** Splitting gives back what was joined. */
  lemma {:induction false} SplitJoin(parts: seq<string>, c: char)
    requires parts != [] && forall i :: 0 <= i < |parts| ==> c !in parts[i]
    ensures Split(JoinWith(parts, c), c) == parts
  {
    SplitNone(parts[0], c);
    if |parts| > 1 {
      SplitJoin(parts[1..], c);
      SplitAt(parts[0], c, JoinWith(parts[1..], c));
      assert parts == [parts[0]] + parts[1..];
    }
  }

  lemma {:induction false} SplitAvoids(s: string, c: char, k: nat)
    requires k < |Split(s, c)|
    ensures c !in Split(s, c)[k]
  {
    if s != "" {
      if s[0] == c {
        if k > 0 {
          SplitAvoids(s[1..], c, k - 1);
        }
      } else {
        SplitAvoids(s[1..], c, k);
      }
    }
  }

  // --------------------------------------------------------------- query strings

  type Pairs = seq<(seq<Byte>, seq<Byte>)>

  function ParsePart(part: string): Pairs {
    if part == "" || ';' in part then []
    else
      match (Unescape(Before(part, '='), true), Unescape(AfterFirst(part, '='), true))
      case (Some(key), Some(value)) => [(key, value)]
      case _ => []
  }

  function ParseParts(parts: seq<string>): Pairs {
    if parts == [] then [] else ParsePart(parts[0]) + ParseParts(parts[1..])
  }

  /** url.ParseQuery, malformed parts dropped. */
  function ParseQuery(query: string): Pairs { ParseParts(Split(query, '&')) }

  /** Values.Get: the first value of the key, else empty. */
  function Get(pairs: Pairs, key: seq<Byte>): seq<Byte> {
    if pairs == [] then [] else if pairs[0].0 == key then pairs[0].1 else Get(pairs[1..], key)
  }

  lemma ParseCut(key: string, value: string)
    requires '=' !in key && ';' !in key && ';' !in value
    ensures ParsePart(key + "=" + value) ==
            match (Unescape(key, true), Unescape(value, true))
            case (Some(k), Some(v)) => [(k, v)]
            case _ => []
  {
    assert key + "=" + value == key + ['='] + value;
    CutAt(key, '=', value);
  }

  /** A parameter written with QueryEscape is read back. */
  lemma ParsePartOf(key: string, value: seq<Byte>)
    requires Plain(key) && key != ""
    ensures ParsePart(key + "=" + Escape(value, true)) == [(Encode(key), value)]
    ensures '&' !in key + "=" + Escape(value, true)
  {
    EscapeVisible(value, true);
    ParseCut(key, Escape(value, true));
    PlainUnescape(key, true);
    UnescapeEscape(value, true);
  }
}
