/** What a reader finds in the playlists and the queries of the HLS handlers
    (internal/server/handlers_hls.go), part by part. */
module HlsLaws {
  import opened Wrappers
  import opened Text
  import opened Url
  import opened Hls
  import opened HlsAgreement
  import Abr

  // ------------------------------------------------------------------- URI lines

  /** The first character of the line that is not white space is at i, and is no '#'. */
  predicate StartsUri(line: string, i: int) {
    0 <= i < |line| && !IsSpace(line[i]) && line[i] != '#' && forall j :: 0 <= j < i ==> IsSpace(line[j])
  }

  /** A line is a URI (section 4.1 of RFC 8216) when it is neither blank nor a tag or a
      comment, white space in front aside. */
  lemma UriExact(line: string)
    ensures IsUri(line) <==> exists i :: StartsUri(line, i)
  {
    var r := TrimSpace(line);
    var k := TrimExact(line);
    if IsUri(line) {
      assert line[k] == line[k..k + |r|][0];
      assert StartsUri(line, k);
    }
    if i :| StartsUri(line, i) {
      assert k <= i < k + |r|;
      assert line[i] == line[k..k + |r|][i - k];
      assert line[k] == line[k..k + |r|][0];
    }
  }

  // ---------------------------------------------------------------- the tag line

  lemma CutEqual(s: string, a: string, c: char, b: string)
    requires c !in a && s == a + [c] + b
    ensures Before(s, c) == a && AfterFirst(s, c) == b
  {
    CutAt(a, c, b);
  }

  lemma {:induction false} BeforeNone(s: string, c: char)
    requires c !in s
    ensures Before(s, c) == s
  {
    if s != "" {
      BeforeNone(s[1..], c);
      assert s == [s[0]] + s[1..];
    }
  }

  /** The value of the tag's first attribute, and what follows it. */
  function FirstValue(line: string): string { Before(AfterFirst(line, '='), ',') }

  function Others(line: string): string { AfterFirst(AfterFirst(line, '='), ',') }

  /** A rendition's tag line (section 4.3.4.2 of RFC 8216): its bandwidth, and where they
      are known its width and height, in that order. */
  ghost predicate TagSays(line: string, rd: Abr.Rendition) {
    && Before(line, '=') == "#EXT-X-STREAM-INF:BANDWIDTH"
    && FirstValue(line) == Itoa(rd.bandwidth)
    && if rd.width > 0 && rd.height > 0 then
         && Before(Others(line), '=') == "RESOLUTION"
         && Before(AfterFirst(Others(line), '='), 'x') == Itoa(rd.width)
         && AfterFirst(AfterFirst(Others(line), '='), 'x') == Itoa(rd.height)
       else ',' !in line
  }

  lemma TagParts(head: string, band: string, res: string, w: string, h: string)
    requires '=' !in head && ',' !in band && '=' !in res && 'x' !in w
    ensures var line := head + "=" + band + "," + res + "=" + w + "x" + h;
      && Before(line, '=') == head && FirstValue(line) == band
      && Before(Others(line), '=') == res
      && Before(AfterFirst(Others(line), '='), 'x') == w && AfterFirst(AfterFirst(Others(line), '='), 'x') == h
  {
    var line, size := head + "=" + band + "," + res + "=" + w + "x" + h, w + "x" + h;
    CutEqual(line, head, '=', band + "," + res + "=" + size);
    CutEqual(band + "," + res + "=" + size, band, ',', res + "=" + size);
    CutEqual(res + "=" + size, res, '=', size);
    CutEqual(size, w, 'x', h);
  }

  lemma HeadCut(head: string, res: string)
    requires head == STREAM_INF && res == RESOLUTION
    ensures head == "#EXT-X-STREAM-INF:BANDWIDTH" + "=" && '=' !in "#EXT-X-STREAM-INF:BANDWIDTH"
    ensures res == "," + "RESOLUTION" + "=" && '=' !in "RESOLUTION" && ',' !in head
  {
  }

  lemma StreamInfSays(rd: Abr.Rendition)
    ensures TagSays(StreamInf(rd), rd)
  {
    var head, band, res := "#EXT-X-STREAM-INF:BANDWIDTH", Itoa(rd.bandwidth), "RESOLUTION";
    var w, h := Itoa(rd.width), Itoa(rd.height);
    HeadCut(STREAM_INF, RESOLUTION);
    ItoaAvoids(rd.bandwidth, ',');
    ItoaAvoids(rd.width, 'x');
    if rd.width > 0 && rd.height > 0 {
      assert StreamInf(rd) == head + "=" + band + "," + res + "=" + w + "x" + h;
      TagParts(head, band, res, w, h);
    } else {
      CutEqual(StreamInf(rd), head, '=', band);
      BeforeNone(band, ',');
    }
  }

  // ------------------------------------------------------------ the master playlist

  lemma {:induction false} PlainEscape(s: string)
    requires Plain(s)
    ensures Escape(Encode(s), false) == s
  {
    if s != "" {
      PlainEscape(s[1..]);
      assert Encode(s) == [s[0] as int] + Encode(s[1..]);
      assert s == [s[0]] + s[1..];
    }
  }

  lemma {:induction false} MasterLength(rs: seq<Abr.Rendition>, token: string, startTicks: int)
    ensures |MasterLines(rs, token, startTicks)| == 2 + 2 * |rs|
    ensures IsHeading(MasterLines(rs, token, startTicks))
  {
    if rs != [] {
      MasterLength(rs[..|rs| - 1], token, startTicks);
    }
  }

  predicate IsHeading(lines: seq<string>) {
    |lines| >= 2 && lines[0] == "#EXTM3U" && lines[1] == "#EXT-X-VERSION:3"
  }

  /** A variant's line names its playlist by the rendition, and carries the token. */
  ghost predicate VariantSays(line: string, name: string, token: string) {
    && PathPart(line) == "hls/" + name + "/main.m3u8"
    && Get(ParseQuery(QueryOf(line)), Encode("api_key")) == Encode(token)
  }

  lemma VariantSaid(rd: Abr.Rendition, token: string, startTicks: nat)
    requires Plain(rd.name) && startTicks <= MAX_INT64
    ensures VariantSays(VariantRef(rd, token, startTicks), rd.name, token)
  {
    var dir, main, name := DIR, MAIN, rd.name;
    PathsVisible();
    PlainEscape(name);
    assert forall i :: 0 <= i < |name| ==> name[i] != '?';
    CutQuery(dir + name + main, token, startTicks);
    QueryReadBack(token, startTicks);
  }

  /** Every other line from `first` on says what it should of its rendition. */
  ghost predicate EachSays(lines: seq<string>, rs: seq<Abr.Rendition>, first: nat,
                           says: (string, Abr.Rendition) -> bool)
  {
    first + 2 * |rs| < |lines| + 2 && forall i :: 0 <= i < |rs| ==> says(lines[first + 2 * i], rs[i])
  }

  ghost function TagTest(): (string, Abr.Rendition) -> bool { (line, rd) => TagSays(line, rd) }

  ghost function VariantTest(token: string): (string, Abr.Rendition) -> bool {
    (line, rd: Abr.Rendition) => VariantSays(line, rd.name, token)
  }

  /** Two header lines, and for each rendition its tag and then its variant. */
  ghost predicate MasterSays(lines: seq<string>, rs: seq<Abr.Rendition>, token: string) {
    IsHeading(lines) && EachSays(lines, rs, 2, TagTest()) && EachSays(lines, rs, 3, VariantTest(token))
  }

  lemma AddOne(lines: seq<string>, rs: seq<Abr.Rendition>, first: nat, says: (string, Abr.Rendition) -> bool,
               tag: string, ref: string)
    requires rs != [] && |lines| == 2 * |rs| && 2 <= first <= 3 && EachSays(lines, rs[..|rs| - 1], first, says)
    requires says(if first == 2 then tag else ref, rs[|rs| - 1])
    ensures EachSays(lines + [tag, ref], rs, first, says)
  {
    var n, all := |rs| - 1, lines + [tag, ref];
    forall i | 0 <= i < |rs| ensures says(all[first + 2 * i], rs[i]) {
      assert i < n ==> all[first + 2 * i] == lines[first + 2 * i] && rs[..n][i] == rs[i];
    }
  }

  lemma {:induction false} MasterMade(rs: seq<Abr.Rendition>, token: string, startTicks: nat)
    requires startTicks <= MAX_INT64 && forall i :: 0 <= i < |rs| ==> Plain(rs[i].name)
    ensures MasterSays(MasterLines(rs, token, startTicks), rs, token)
  {
    MasterLength(rs, token, startTicks);
    if rs != [] {
      var n := |rs| - 1;
      MasterMade(rs[..n], token, startTicks);
      MasterLength(rs[..n], token, startTicks);
      StreamInfSays(rs[n]);
      VariantSaid(rs[n], token, startTicks);
      var front := MasterLines(rs[..n], token, startTicks);
      AddOne(front, rs, 2, TagTest(), StreamInf(rs[n]), VariantRef(rs[n], token, startTicks));
      AddOne(front, rs, 3, VariantTest(token), StreamInf(rs[n]), VariantRef(rs[n], token, startTicks));
    }
  }

  lemma MoreSays(lines: seq<string>, more: seq<string>, rs: seq<Abr.Rendition>, first: nat,
                 says: (string, Abr.Rendition) -> bool)
    requires EachSays(lines, rs, first, says)
    ensures EachSays(lines + more, rs, first, says)
  {
  }

  lemma MoreLines(lines: seq<string>, more: seq<string>, rs: seq<Abr.Rendition>, token: string)
    requires MasterSays(lines, rs, token)
    ensures MasterSays(lines + more, rs, token)
  {
    MoreSays(lines, more, rs, 2, TagTest());
    MoreSays(lines, more, rs, 3, VariantTest(token));
  }

  /** The master playlist, line by line: the header, and each rung of the ladder with its
      tag and its variant; every line is ended. */
  lemma MasterExact(width: int, height: int, bitrate: int, token: string, startTicks: nat)
    requires startTicks <= MAX_INT64
    ensures var rs := Abr.Ladder(width, height, bitrate);
      var lines := Split(Ended(MasterLines(rs, token, startTicks)), '\n');
      MasterSays(lines, rs, token) && |lines| == 2 * |rs| + 3 && lines[|lines| - 1] == ""
  {
    var rs := Abr.Ladder(width, height, bitrate);
    forall i | 0 <= i < |rs| ensures Plain(rs[i].name) {
      LadderNamesPlain(width, height, bitrate, i);
    }
    MasterMade(rs, token, startTicks);
    MasterLength(rs, token, startTicks);
    MasterLinesUris(rs, token, startTicks);
    SplitEnded(MasterLines(rs, token, startTicks));
    MoreLines(MasterLines(rs, token, startTicks), [""], rs, token);
  }

  // ------------------------------------------------------------------- the offset

  lemma ParseOfNumeral(n: int)
    requires -MAX_INT64 - 1 <= n <= MAX_INT64
    ensures ParseInt64(Itoa(n)) == n
  {
    if n >= 0 {
      ParseOfItoa(n);
    } else {
      var d := Digits(-n);
      assert d[..|d|] == d;
      ValueOfDigits(-n);
      ParseExact(Itoa(n), d, true, |d|);
    }
  }

  lemma NumeralPlain(n: int)
    ensures Plain(Itoa(n)) && Itoa(n) != ""
    ensures AsText(Encode(Itoa(n))) == Itoa(n) && Encode(Itoa(n)) != []
  {
    assert n < 0 ==> Itoa(n) == ['-'] + Itoa(n)[1..];
    PlainEncode(Itoa(n));
  }

  lemma NumeralPart(key: string, n: int)
    requires Plain(key) && key != ""
    ensures ParsePart(key + "=" + Itoa(n)) == [(Encode(key), Encode(Itoa(n)))]
    ensures '&' !in key + "=" + Itoa(n) && AsText(Encode(Itoa(n))) == Itoa(n) && Encode(Itoa(n)) != []
  {
    NumeralPlain(n);
    ParseCut(key, Itoa(n));
    PlainUnescape(key, true);
    PlainUnescape(Itoa(n), true);
  }

  lemma OneTick(key: string, upper: string, lower: string, n: int)
    requires Plain(key) && key != "" && -MAX_INT64 - 1 <= n <= MAX_INT64
    requires Encode(upper) != Encode(lower) && (key == upper || key == lower)
    ensures TicksUnder(ParseQuery(key + "=" + Itoa(n)), Encode(upper), Encode(lower)) == if n < 0 then 0 else n
  {
    NumeralPart(key, n);
    ParseOfNumeral(n);
    ParseOne(key + "=" + Itoa(n), (Encode(key), Encode(Itoa(n))));
    GetOne((Encode(key), Encode(Itoa(n))), Encode(upper));
    GetOne((Encode(key), Encode(Itoa(n))), Encode(lower));
  }

  lemma TwoTicks(upper: string, lower: string, m: int, n: int)
    requires Plain(upper) && upper != "" && Plain(lower) && lower != "" && -MAX_INT64 - 1 <= n <= MAX_INT64
    requires Encode(upper) != Encode(lower)
    ensures var q := lower + "=" + Itoa(m) + "&" + (upper + "=" + Itoa(n));
      TicksUnder(ParseQuery(q), Encode(upper), Encode(lower)) == if n < 0 then 0 else n
  {
    NumeralPart(lower, m);
    NumeralPart(upper, n);
    ParseOfNumeral(n);
    var a, b := (Encode(lower), Encode(Itoa(m))), (Encode(upper), Encode(Itoa(n)));
    ParseTwo(lower + "=" + Itoa(m), upper + "=" + Itoa(n), a, b);
    GetTwo(a.0, a.1, b.0, b.1);
  }

  predicate Spellings(upper: string, lower: string) { upper == "StartTimeTicks" && lower == "startTimeTicks" }

  lemma TickKeys(upper: string, lower: string)
    requires Spellings(upper, lower)
    ensures upper == TICKS && lower == TICKS_LOWER
    ensures Plain(upper) && Plain(lower) && Encode(upper) != Encode(lower)
  {
    PlainKey(upper);
    PlainKey(lower);
    PlainEncode(upper);
    PlainEncode(lower);
    assert upper[0] != lower[0];
  }

  /** The offset is read under either spelling, the capital one first; a negative one is
      taken for the start, and so is none. */
  lemma StartTicksExact(upper: string, lower: string, m: int, n: int)
    requires Spellings(upper, lower) && -MAX_INT64 - 1 <= n <= MAX_INT64
    ensures HlsStartTicks(upper + "=" + Itoa(n)) == if n < 0 then 0 else n
    ensures HlsStartTicks(lower + "=" + Itoa(n)) == if n < 0 then 0 else n
    ensures HlsStartTicks(lower + "=" + Itoa(m) + "&" + (upper + "=" + Itoa(n))) == if n < 0 then 0 else n
    ensures HlsStartTicks("") == 0
  {
    TickKeys(upper, lower);
    OneTick(upper, upper, lower, n);
    OneTick(lower, upper, lower, n);
    TwoTicks(upper, lower, m, n);
    NoTicks(Encode(upper), Encode(lower));
  }

  lemma NoTicks(upper: seq<Byte>, lower: seq<Byte>)
    ensures TicksUnder(ParseQuery(""), upper, lower) == 0
  {
    assert ParseParts([""]) == ParsePart("") + ParseParts([""][1..]);
    assert ParseQuery("") == [];
  }
}
