/** The HLS handlers (internal/server/handlers_hls.go): the master playlist, the
    rewriting of media playlists, and the session keys both lead to. */
module Hls {
  import opened Wrappers
  import opened Text
  import opened Url
  import Abr

  const API_KEY: string := "api_key"
  const TICKS: string := "StartTimeTicks"
  const TICKS_LOWER: string := "startTimeTicks"

  // ------------------------------------------------------------ the request side

  function TicksUnder(q: Pairs, key: seq<Byte>, lower: seq<Byte>): (n: nat)
    ensures n <= MAX_INT64
  {
    var v := if Get(q, key) == [] then Get(q, lower) else Get(q, key);
    var n := ParseInt64(AsText(v));
    if n < 0 then 0 else n
  }

  /** hlsStartTicks of a request's query string. */
  function HlsStartTicks(query: string): (n: nat)
    ensures n <= MAX_INT64
  {
    TicksUnder(ParseQuery(query), Encode(TICKS), Encode(TICKS_LOWER))
  }

  function SessionKey(itemId: string, startTicks: int, quality: string): string {
    itemId + ":" + Itoa(startTicks) + ":" + quality
  }

  // ---------------------------------------------------------------- what is sent

  /** The query both playlists put on their URIs. */
  function QuerySuffix(token: string, startTicks: int): string {
    "?" + Query(token, startTicks)
  }

  function Query(token: string, startTicks: int): string { QueryUnder(API_KEY, TICKS, Encode(token), startTicks) }

  function QueryUnder(apiKey: string, ticksKey: string, token: seq<Byte>, startTicks: int): string {
    var key := apiKey + "=" + Escape(token, true);
    if startTicks > 0 then key + "&" + (ticksKey + "=" + Itoa(startTicks)) else key
  }

  predicate IsUri(line: string) {
    var trimmed := TrimSpace(line);
    trimmed != "" && trimmed[0] != '#'
  }

  function RewriteLine(line: string, prefix: string, suffix: string): string {
    if IsUri(line) then prefix + Escape(Encode(TrimSpace(line)), false) + suffix else line
  }

  function RewriteLines(lines: seq<string>, prefix: string, suffix: string): (out: seq<string>)
    ensures |out| == |lines| && forall i :: 0 <= i < |lines| ==> out[i] == RewriteLine(lines[i], prefix, suffix)
  {
    seq(|lines|, i requires 0 <= i < |lines| => RewriteLine(lines[i], prefix, suffix))
  }

  /** rewriteSegments' loop body. */
  method RewriteOne(line: string, prefix: string, suffix: string) returns (out: string)
    ensures out == RewriteLine(line, prefix, suffix)
  {
    var trimmed := TrimSpace(line);
    if trimmed == "" || trimmed[0] == '#' {
      return line;
    }
    out := prefix + Escape(Encode(trimmed), false) + suffix;
  }

  method RewriteSegments(playlist: string, prefix: string, token: string, startTicks: int) returns (out: string)
    ensures out == JoinWith(RewriteLines(Split(playlist, '\n'), prefix, QuerySuffix(token, startTicks)), '\n')
  {
    var q := QuerySuffix(token, startTicks);
    var lines := Split(playlist, '\n');
    ghost var was := lines;
    for i := 0 to |lines|
      invariant |lines| == |was|
      invariant forall k :: 0 <= k < i ==> lines[k] == RewriteLine(was[k], prefix, q)
      invariant forall k :: i <= k < |lines| ==> lines[k] == was[k]
    {
      var line := RewriteOne(lines[i], prefix, q);
      lines := lines[i := line];
    }
    assert lines == RewriteLines(was, prefix, q);
    out := JoinWith(lines, '\n');
  }

  const EXTM3U: string := "#EXTM3U"
  const VERSION: string := "#EXT-X-VERSION:3"
  const STREAM_INF: string := "#EXT-X-STREAM-INF:BANDWIDTH="
  const RESOLUTION: string := ",RESOLUTION="
  const DIR: string := "hls/"
  const MAIN: string := "/main.m3u8"

  function StreamInf(rd: Abr.Rendition): string {
    if rd.width > 0 && rd.height > 0 then
      STREAM_INF + Itoa(rd.bandwidth) + RESOLUTION + Itoa(rd.width) + "x" + Itoa(rd.height)
    else STREAM_INF + Itoa(rd.bandwidth)
  }

  function VariantRef(rd: Abr.Rendition, token: string, startTicks: int): string {
    DIR + Escape(Encode(rd.name), false) + MAIN + QuerySuffix(token, startTicks)
  }

  /** The lines of the master playlist, each to be ended by a newline. */
  function MasterLines(rs: seq<Abr.Rendition>, token: string, startTicks: int): seq<string> {
    if rs == [] then [EXTM3U, VERSION]
    else
      var n := |rs| - 1;
      MasterLines(rs[..n], token, startTicks) + [StreamInf(rs[n]), VariantRef(rs[n], token, startTicks)]
  }

  function Ended(lines: seq<string>): string {
    if lines == [] then "" else Ended(lines[..|lines| - 1]) + lines[|lines| - 1] + "\n"
  }

  /** handleHlsMaster, up to the ladder and the offset. */
  method HandleHlsMaster(width: int, height: int, bitrate: int, token: string, query: string) returns (text: string)
    ensures text == Ended(MasterLines(Abr.Ladder(width, height, bitrate), token, HlsStartTicks(query)))
  {
    var renditions := Abr.SelectRenditions(width, height, bitrate);
    text := MasterPlaylist(renditions, token, HlsStartTicks(query));
  }

  /** And its loop. */
  method MasterPlaylist(renditions: seq<Abr.Rendition>, token: string, startTicks: int) returns (text: string)
    ensures text == Ended(MasterLines(renditions, token, startTicks))
  {
    text := Heading();
    for i := 0 to |renditions|
      invariant text == Ended(MasterLines(renditions[..i], token, startTicks))
    {
      MasterMore(renditions, i, token, startTicks);
      text := text + StreamInf(renditions[i]) + "\n";
      text := text + VariantRef(renditions[i], token, startTicks) + "\n";
    }
    assert renditions[..|renditions|] == renditions;
  }

  function Heading(): (text: string)
    ensures text == Ended([EXTM3U, VERSION])
  {
    EndedTwo([], EXTM3U, VERSION);
    assert [] + [EXTM3U, VERSION] == [EXTM3U, VERSION];
    "" + EXTM3U + "\n" + VERSION + "\n"
  }

  lemma MasterMore(rs: seq<Abr.Rendition>, i: nat, token: string, startTicks: int)
    requires i < |rs|
    ensures Ended(MasterLines(rs[..i + 1], token, startTicks))
         == Ended(MasterLines(rs[..i], token, startTicks)) + StreamInf(rs[i]) + "\n"
            + VariantRef(rs[i], token, startTicks) + "\n"
  {
    assert rs[..i + 1][..i] == rs[..i];
    EndedTwo(MasterLines(rs[..i], token, startTicks), StreamInf(rs[i]), VariantRef(rs[i], token, startTicks));
  }

  lemma EndedTwo(lines: seq<string>, a: string, b: string)
    ensures Ended(lines + [a, b]) == Ended(lines) + a + "\n" + b + "\n"
  {
    var n := |lines|;
    assert (lines + [a, b])[..n + 1] == lines + [a];
    assert (lines + [a])[..n] == lines;
  }

  // ----------------------------------------------------- reading the suffix back

  lemma DigitsUnescape(n: nat)
    ensures Plain(Itoa(n))
    ensures Unescape(Itoa(n), true) == Some(Encode(Itoa(n))) && AsText(Encode(Itoa(n))) == Itoa(n)
  {
    PlainUnescape(Itoa(n), true);
    PlainEncode(Itoa(n));
  }

  lemma TicksPart(key: string, n: nat)
    requires Plain(key) && key != ""
    ensures ParsePart(key + "=" + Itoa(n)) == [(Encode(key), Encode(Itoa(n)))]
    ensures '&' !in key + "=" + Itoa(n)
  {
    var digits := Itoa(n);
    DigitsUnescape(n);
    ParseCut(key, digits);
    PlainUnescape(key, true);
  }

  lemma ParseOne(part: string, pair: (seq<Byte>, seq<Byte>))
    requires '&' !in part && ParsePart(part) == [pair]
    ensures ParseQuery(part) == [pair]
  {
    SplitNone(part, '&');
    assert [part][1..] == [];
    assert ParseParts([part]) == ParsePart(part) + ParseParts([]);
  }

  lemma ParseTwo(part: string, more: string, pair: (seq<Byte>, seq<Byte>), next: (seq<Byte>, seq<Byte>))
    requires '&' !in part && ParsePart(part) == [pair] && '&' !in more && ParsePart(more) == [next]
    ensures ParseQuery(part + "&" + more) == [pair, next]
  {
    SplitNone(part, '&');
    SplitAt(part, '&', more);
    ParseOne(more, next);
    SplitNone(more, '&');
    assert ([part] + [more])[1..] == [more];
    assert ParseParts([part] + [more]) == ParsePart(part) + ParseParts([more]);
  }

  lemma PlainKey(key: string)
    requires key in [API_KEY, TICKS, TICKS_LOWER]
    ensures Plain(key)
  {
  }

  lemma KeysApart()
    ensures Encode(API_KEY) != Encode(TICKS) && Encode(API_KEY) != Encode(TICKS_LOWER)
  {
    var a, b, c := API_KEY, TICKS, TICKS_LOWER;
    PlainKey(a);
    PlainKey(b);
    PlainKey(c);
    PlainEncode(a);
    PlainEncode(b);
    PlainEncode(c);
    assert |a| == 7 && |b| == 14 && |c| == 14;
  }

  lemma GetTwo(a: seq<Byte>, x: seq<Byte>, b: seq<Byte>, y: seq<Byte>)
    requires a != b
    ensures Get([(a, x), (b, y)], a) == x && Get([(a, x), (b, y)], b) == y
  {
    var pairs: Pairs := [(a, x), (b, y)];
    assert pairs[1..] == [(b, y)];
  }

  lemma ReadBackUnder(apiKey: string, ticksKey: string, lower: string, token: seq<Byte>, startTicks: nat)
    requires startTicks <= MAX_INT64
    requires Plain(apiKey) && apiKey != "" && Plain(ticksKey) && ticksKey != ""
    requires Encode(apiKey) != Encode(ticksKey) && Encode(apiKey) != Encode(lower)
    ensures var q := ParseQuery(QueryUnder(apiKey, ticksKey, token, startTicks));
      TicksUnder(q, Encode(ticksKey), Encode(lower)) == startTicks && Get(q, Encode(apiKey)) == token
  {
    var key := apiKey + "=" + Escape(token, true);
    var first := (Encode(apiKey), token);
    ParsePartOf(apiKey, token);
    if startTicks > 0 {
      TicksPart(ticksKey, startTicks);
      ParseTwo(key, ticksKey + "=" + Itoa(startTicks), first, (Encode(ticksKey), Encode(Itoa(startTicks))));
      GetTwo(Encode(apiKey), token, Encode(ticksKey), Encode(Itoa(startTicks)));
      DigitsUnescape(startTicks);
      ParseOfItoa(startTicks);
    } else {
      ParseOne(key, first);
      GetOne(first, Encode(ticksKey));
      GetOne(first, Encode(lower));
      GetOne(first, Encode(apiKey));
    }
  }

  lemma GetOne(pair: (seq<Byte>, seq<Byte>), key: seq<Byte>)
    ensures Get([pair], key) == if pair.0 == key then pair.1 else []
  {
    assert [pair][1..] == [];
  }

  /** The query says what was put in it: the token, and the offset of the request. */
  lemma QueryReadBack(token: string, startTicks: nat)
    requires startTicks <= MAX_INT64
    ensures HlsStartTicks(Query(token, startTicks)) == startTicks
    ensures Get(ParseQuery(Query(token, startTicks)), Encode(API_KEY)) == Encode(token)
  {
    var a, b, c := API_KEY, TICKS, TICKS_LOWER;
    KeysApart();
    PlainKey(a);
    PlainKey(b);
    ReadBackUnder(a, b, c, Encode(token), startTicks);
  }

  lemma VisibleItoa(n: int)
    ensures Visible(Itoa(n))
  {
    if n < 0 {
      assert Itoa(n) == ['-'] + Itoa(n)[1..];
    }
  }

  lemma VisibleCat(a: string, b: string)
    requires Visible(a) && Visible(b)
    ensures Visible(a + b)
    ensures a != "" ==> (a + b)[0] == a[0]
  {
  }

  lemma QueryVisible(apiKey: string, ticksKey: string, token: seq<Byte>, startTicks: int)
    requires Visible(apiKey) && Visible(ticksKey)
    ensures Visible(QueryUnder(apiKey, ticksKey, token, startTicks))
  {
    EscapeVisible(token, true);
    VisibleItoa(startTicks);
    VisibleCat(apiKey, "=");
    VisibleCat(apiKey + "=", Escape(token, true));
    VisibleCat(ticksKey, "=");
    VisibleCat(ticksKey + "=", Itoa(startTicks));
    VisibleCat(apiKey + "=" + Escape(token, true), "&");
    VisibleCat(apiKey + "=" + Escape(token, true) + "&", ticksKey + "=" + Itoa(startTicks));
  }

  lemma SuffixVisible(token: string, startTicks: int)
    ensures Visible(QuerySuffix(token, startTicks))
  {
    PlainKey(API_KEY);
    PlainKey(TICKS);
    QueryVisible(API_KEY, TICKS, Encode(token), startTicks);
  }
}
