/** From the master playlist to a segment: every URI the handlers write leads back to
    the rendition, the offset and the session it was written for. */
module HlsAgreement {
  import opened Wrappers
  import opened Text
  import opened Url
  import opened Hls
  import Abr

  // ------------------------------------------------------- what a player requests

  /** The URI lines of a playlist. */
  function Uris(lines: seq<string>): seq<string> {
    if lines == [] then []
    else
      var n := |lines| - 1;
      Uris(lines[..n]) + if IsUri(lines[n]) then [lines[n]] else []
  }

  function QueryOf(uri: string): string { AfterFirst(uri, '?') }

  function PathPart(uri: string): string { Before(uri, '?') }

  /** The part of a path below `dir`. */
  function Under(path: string, dir: string): string { if dir <= path then path[|dir|..] else path }

  /** The {quality} of a request for `hls/{quality}/main.m3u8`. */
  function QualityOf(uri: string): Option<seq<Byte>> { Unescape(Before(Under(PathPart(uri), DIR), '/'), false) }

  /** The {seg} of a request for `prefix{seg}`. */
  function SegmentOf(uri: string, prefix: string): Option<seq<Byte>> { Unescape(Under(PathPart(uri), prefix), false) }

  /** The URIs of a master playlist's text. */
  function MasterUriList(width: int, height: int, bitrate: int, token: string, query: string): seq<string> {
    Uris(Split(Ended(MasterLines(Abr.Ladder(width, height, bitrate), token, HlsStartTicks(query))), '\n'))
  }

  /** The lines of a rewritten media playlist's text. */
  function RewrittenLines(playlist: string, prefix: string, token: string, startTicks: int): seq<string> {
    Split(JoinWith(RewriteLines(Split(playlist, '\n'), prefix, QuerySuffix(token, startTicks)), '\n'), '\n')
  }

  // ---------------------------------------------------------------- visible lines

  predicate OneLine(s: string) { '\n' !in s }

  lemma VisibleLine(s: string)
    requires Visible(s) && s != ""
    ensures TrimSpace(s) == s && OneLine(s) && (IsUri(s) <==> s[0] != '#')
  {
  }

  lemma ConstantsVisible()
    ensures Visible(EXTM3U) && Visible(VERSION) && Visible(STREAM_INF) && Visible(RESOLUTION)
  {
  }

  lemma PathsVisible()
    ensures Visible(DIR) && Visible(MAIN) && '?' !in DIR && '?' !in MAIN && MAIN[0] == '/'
  {
  }

  lemma StreamInfIsTag(rd: Abr.Rendition)
    ensures OneLine(StreamInf(rd)) && !IsUri(StreamInf(rd))
  {
    var head, res := STREAM_INF, RESOLUTION;
    ConstantsVisible();
    assert head[0] == '#';
    VisibleItoa(rd.bandwidth);
    VisibleItoa(rd.width);
    VisibleItoa(rd.height);
    var s := head + Itoa(rd.bandwidth);
    VisibleCat(head, Itoa(rd.bandwidth));
    VisibleCat(s, res);
    VisibleCat(s + res, Itoa(rd.width));
    VisibleCat(s + res + Itoa(rd.width), "x");
    VisibleCat(s + res + Itoa(rd.width) + "x", Itoa(rd.height));
    VisibleLine(StreamInf(rd));
  }

  lemma VariantRefIsUri(rd: Abr.Rendition, token: string, startTicks: int)
    ensures OneLine(VariantRef(rd, token, startTicks)) && IsUri(VariantRef(rd, token, startTicks))
  {
    var dir, main, name := DIR, MAIN, Escape(Encode(rd.name), false);
    PathsVisible();
    assert dir[0] == 'h';
    EscapeVisible(Encode(rd.name), false);
    SuffixVisible(token, startTicks);
    VisibleCat(dir, name);
    VisibleCat(dir + name, main);
    VisibleCat(dir + name + main, QuerySuffix(token, startTicks));
    VisibleLine(VariantRef(rd, token, startTicks));
  }

  // -------------------------------------------------------------- the master's URIs

  lemma {:induction false} EndedFirst(lines: seq<string>)
    requires lines != []
    ensures Ended(lines) == lines[0] + "\n" + Ended(lines[1..])
  {
    var n := |lines| - 1;
    if n > 0 {
      EndedFirst(lines[..n]);
      assert lines[..n][1..] == lines[1..][..n - 1];
    }
  }

  lemma {:induction false} SplitEnded(lines: seq<string>)
    requires forall i :: 0 <= i < |lines| ==> OneLine(lines[i])
    ensures Split(Ended(lines), '\n') == lines + [""]
  {
    if lines != [] {
      SplitEnded(lines[1..]);
      EndedFirst(lines);
      SplitAt(lines[0], '\n', Ended(lines[1..]));
      SplitNone(lines[0], '\n');
      assert lines == [lines[0]] + lines[1..];
    }
  }

  function Refs(rs: seq<Abr.Rendition>, token: string, startTicks: int): (out: seq<string>)
    ensures |out| == |rs| && forall i :: 0 <= i < |rs| ==> out[i] == VariantRef(rs[i], token, startTicks)
  {
    seq(|rs|, i requires 0 <= i < |rs| => VariantRef(rs[i], token, startTicks))
  }

  lemma RefsSnoc(rs: seq<Abr.Rendition>, token: string, startTicks: int)
    requires rs != []
    ensures var n := |rs| - 1;
      Refs(rs, token, startTicks) == Refs(rs[..n], token, startTicks) + [VariantRef(rs[n], token, startTicks)]
  {
  }

  lemma UrisSnoc(lines: seq<string>, line: string)
    ensures Uris(lines + [line]) == Uris(lines) + if IsUri(line) then [line] else []
  {
    assert (lines + [line])[..|lines|] == lines;
  }

  lemma HeadingHasNoUri()
    ensures Uris([EXTM3U, VERSION]) == [] && OneLine(EXTM3U) && OneLine(VERSION)
  {
    ConstantsVisible();
    VisibleLine(EXTM3U);
    VisibleLine(VERSION);
    UrisSnoc([], EXTM3U);
    UrisSnoc([EXTM3U], VERSION);
    assert [] + [EXTM3U] == [EXTM3U] && [EXTM3U] + [VERSION] == [EXTM3U, VERSION];
  }

  ghost predicate OneLines(lines: seq<string>) { forall i :: 0 <= i < |lines| ==> OneLine(lines[i]) }

  lemma AddVariant(lines: seq<string>, tag: string, ref: string)
    requires OneLines(lines) && OneLine(tag) && !IsUri(tag) && OneLine(ref) && IsUri(ref)
    ensures OneLines(lines + [tag, ref]) && Uris(lines + [tag, ref]) == Uris(lines) + [ref]
  {
    UrisSnoc(lines, tag);
    UrisSnoc(lines + [tag], ref);
    assert lines + [tag] + [ref] == lines + [tag, ref];
  }

  lemma {:induction false} MasterLinesUris(rs: seq<Abr.Rendition>, token: string, startTicks: int)
    ensures Uris(MasterLines(rs, token, startTicks)) == Refs(rs, token, startTicks)
    ensures OneLines(MasterLines(rs, token, startTicks))
  {
    if rs == [] {
      HeadingHasNoUri();
    } else {
      var n := |rs| - 1;
      var tag, ref := StreamInf(rs[n]), VariantRef(rs[n], token, startTicks);
      MasterLinesUris(rs[..n], token, startTicks);
      StreamInfIsTag(rs[n]);
      VariantRefIsUri(rs[n], token, startTicks);
      AddVariant(MasterLines(rs[..n], token, startTicks), tag, ref);
      RefsSnoc(rs, token, startTicks);
      assert MasterLines(rs, token, startTicks) == MasterLines(rs[..n], token, startTicks) + [tag, ref];
    }
  }

  /** The URIs of the master playlist's text are one variant for each rendition. */
  lemma MasterUris(rs: seq<Abr.Rendition>, token: string, startTicks: int)
    ensures Uris(Split(Ended(MasterLines(rs, token, startTicks)), '\n')) == Refs(rs, token, startTicks)
  {
    MasterLinesUris(rs, token, startTicks);
    var lines := MasterLines(rs, token, startTicks);
    SplitEnded(lines);
    UrisSnoc(lines, "");
  }

  // ------------------------------------------------------------ a variant's request

  lemma CutQuery(path: string, token: string, startTicks: int)
    requires '?' !in path
    ensures PathPart(path + QuerySuffix(token, startTicks)) == path
    ensures QueryOf(path + QuerySuffix(token, startTicks)) == Query(token, startTicks)
  {
    CutAt(path, '?', Query(token, startTicks));
    assert path + QuerySuffix(token, startTicks) == path + ['?'] + Query(token, startTicks);
  }

  lemma QualityUnder(dir: string, name: seq<Byte>, main: string)
    requires '?' !in dir && '?' !in main && main != "" && main[0] == '/'
    ensures var path := dir + Escape(name, false) + main;
      '?' !in path && Unescape(Before(Under(path, dir), '/'), false) == Some(name)
  {
    var e := Escape(name, false);
    var path := dir + e + main;
    EscapeVisible(name, false);
    assert path == dir + (e + main);
    assert path[|dir|..] == e + main;
    assert e + main == e + ['/'] + main[1..];
    CutAt(e, '/', main[1..]);
    UnescapeEscape(name, false);
  }

  lemma VariantReadBack(rd: Abr.Rendition, token: string, startTicks: nat)
    requires startTicks <= MAX_INT64
    ensures var uri := VariantRef(rd, token, startTicks);
      QualityOf(uri) == Some(Encode(rd.name)) && HlsStartTicks(QueryOf(uri)) == startTicks
  {
    var dir, main := DIR, MAIN;
    PathsVisible();
    QualityUnder(dir, Encode(rd.name), main);
    CutQuery(dir + Escape(Encode(rd.name), false) + main, token, startTicks);
    QueryReadBack(token, startTicks);
  }

  lemma LadderNamesPlain(width: int, height: int, bitrate: int, i: nat)
    requires i < |Abr.Ladder(width, height, bitrate)|
    ensures Plain(Abr.Ladder(width, height, bitrate)[i].name)
  {
    if height > 0 {
      Abr.HeightsDescend(height);
    }
  }

  /** Every variant the master playlist lists is found again: its URI's quality names
      that rendition and no other, and its offset is the master request's. */
  lemma EveryVariantFound(width: int, height: int, bitrate: int, token: string, query: string, i: nat)
    requires i < |Abr.Ladder(width, height, bitrate)|
    ensures var rs := Abr.Ladder(width, height, bitrate);
      var uris := MasterUriList(width, height, bitrate, token, query);
      && |uris| == |rs|
      && QualityOf(uris[i]).Some?
      && (forall j :: 0 <= j < |rs| ==> (rs[j].name == AsText(QualityOf(uris[i]).value) <==> j == i))
      && HlsStartTicks(QueryOf(uris[i])) == HlsStartTicks(query)
  {
    var rs := Abr.Ladder(width, height, bitrate);
    MasterUris(rs, token, HlsStartTicks(query));
    VariantReadBack(rs[i], token, HlsStartTicks(query));
    LadderNamesPlain(width, height, bitrate, i);
    PlainEncode(rs[i].name);
    forall j | 0 <= j < |rs| ensures rs[j].name == rs[i].name <==> j == i {
      Abr.LadderNamesApart(width, height, bitrate, i, j);
    }
  }

  // ------------------------------------------------------------- rewritten playlists

  lemma RewrittenOneLine(line: string, prefix: string, token: string, startTicks: int)
    requires OneLine(line) && OneLine(prefix)
    ensures OneLine(RewriteLine(line, prefix, QuerySuffix(token, startTicks)))
  {
    EscapeVisible(Encode(TrimSpace(line)), false);
    SuffixVisible(token, startTicks);
  }

  /** Rewriting keeps a playlist's lines apart and in place: tag lines and blank lines
      (section 4.1 of RFC 8216) are unchanged, and each URI line becomes one line. */
  lemma RewritingLinewise(playlist: string, prefix: string, token: string, startTicks: int)
    requires OneLine(prefix)
    ensures var was := Split(playlist, '\n');
      var lines := RewrittenLines(playlist, prefix, token, startTicks);
      && |lines| == |was|
      && forall i :: 0 <= i < |was| ==>
           lines[i] == if IsUri(was[i]) then RewriteLine(was[i], prefix, QuerySuffix(token, startTicks)) else was[i]
  {
    var was := Split(playlist, '\n');
    var out := RewriteLines(was, prefix, QuerySuffix(token, startTicks));
    forall i | 0 <= i < |out| ensures '\n' !in out[i] {
      SplitAvoids(playlist, '\n', i);
      RewrittenOneLine(was[i], prefix, token, startTicks);
    }
    SplitJoin(out, '\n');
  }

  /** A rewritten line requests the segment the playlist named, with the playlist's
      token and offset. */
  lemma SegmentReadBack(line: string, prefix: string, token: string, startTicks: nat)
    requires IsUri(line) && '?' !in prefix && startTicks <= MAX_INT64
    ensures var uri := RewriteLine(line, prefix, QuerySuffix(token, startTicks));
      && SegmentOf(uri, prefix) == Some(Encode(TrimSpace(line)))
      && HlsStartTicks(QueryOf(uri)) == startTicks
      && Get(ParseQuery(QueryOf(uri)), Encode(API_KEY)) == Encode(token)
  {
    var seg := Escape(Encode(TrimSpace(line)), false);
    EscapeVisible(Encode(TrimSpace(line)), false);
    CutQuery(prefix + seg, token, startTicks);
    assert (prefix + seg)[|prefix|..] == seg;
    UnescapeEscape(Encode(TrimSpace(line)), false);
    QueryReadBack(token, startTicks);
  }

  // ------------------------------------------------------------------- session keys

  lemma RewrittenReadBack(playlist: string, prefix: string, token: string, startTicks: nat, k: nat)
    requires OneLine(prefix) && '?' !in prefix && startTicks <= MAX_INT64
    requires k < |Split(playlist, '\n')| && IsUri(Split(playlist, '\n')[k])
    ensures var lines := RewrittenLines(playlist, prefix, token, startTicks);
      && k < |lines|
      && SegmentOf(lines[k], prefix) == Some(Encode(TrimSpace(Split(playlist, '\n')[k])))
      && HlsStartTicks(QueryOf(lines[k])) == startTicks
  {
    RewritingLinewise(playlist, prefix, token, startTicks);
    SegmentReadBack(Split(playlist, '\n')[k], prefix, token, startTicks);
  }

  /** The session key of the request for a variant's playlist, with `{id}` in the path. */
  function VariantKey(itemId: string, uri: string): string {
    SessionKey(itemId, HlsStartTicks(QueryOf(uri)), if QualityOf(uri).Some? then AsText(QualityOf(uri).value) else "")
  }

  /** And of the request for a segment, relative to that playlist's URI. */
  function SegmentKey(itemId: string, uri: string, segment: string): string {
    SessionKey(itemId, HlsStartTicks(QueryOf(segment)), if QualityOf(uri).Some? then AsText(QualityOf(uri).value) else "")
  }

  lemma VariantKeyIs(width: int, height: int, bitrate: int, itemId: string, token: string, query: string, i: nat)
    requires i < |Abr.Ladder(width, height, bitrate)|
    ensures var uris := MasterUriList(width, height, bitrate, token, query);
      && i < |uris|
      && HlsStartTicks(QueryOf(uris[i])) == HlsStartTicks(query)
      && VariantKey(itemId, uris[i])
         == SessionKey(itemId, HlsStartTicks(query), Abr.Ladder(width, height, bitrate)[i].name)
  {
    EveryVariantFound(width, height, bitrate, token, query, i);
  }

  /** All the way: whatever playlist a listed variant is answered with, each URI line
      of it requests that very segment, from the session the variant's own request is
      for, at the offset of the master request. */
  lemma SegmentsKeepTheirSession(width: int, height: int, bitrate: int, itemId: string, token: string, query: string,
                                 i: nat, playlist: string, k: nat)
    requires i < |Abr.Ladder(width, height, bitrate)|
    requires k < |Split(playlist, '\n')| && IsUri(Split(playlist, '\n')[k])
    ensures var uris := MasterUriList(width, height, bitrate, token, query);
      i < |uris| &&
      var lines := RewrittenLines(playlist, "", token, HlsStartTicks(QueryOf(uris[i])));
      && k < |lines|
      && SegmentOf(lines[k], "") == Some(Encode(TrimSpace(Split(playlist, '\n')[k])))
      && SegmentKey(itemId, uris[i], lines[k]) == VariantKey(itemId, uris[i])
  {
    VariantKeyIs(width, height, bitrate, itemId, token, query, i);
    var uri := MasterUriList(width, height, bitrate, token, query)[i];
    RewrittenReadBack(playlist, "", token, HlsStartTicks(QueryOf(uri)), k);
  }

  lemma FromTheLeft(id: string, n: string, quality: string, id': string, n': string, quality': string)
    requires id + ":" + n + ":" + quality == id' + ":" + n' + ":" + quality'
    requires ':' !in id && ':' !in id' && ':' !in n && ':' !in n'
    ensures id == id' && n == n' && quality == quality'
  {
    var rest, rest' := n + [':'] + quality, n' + [':'] + quality';
    assert id + ":" + n + ":" + quality == id + [':'] + rest;
    assert id' + ":" + n' + ":" + quality' == id' + [':'] + rest';
    CutAt(id, ':', rest);
    CutAt(id', ':', rest');
    CutAt(n, ':', quality);
    CutAt(n', ':', quality');
  }

  lemma FromTheRight(id: string, n: string, quality: string, id': string, n': string, quality': string)
    requires id + ":" + n + ":" + quality == id' + ":" + n' + ":" + quality'
    requires ':' !in quality && ':' !in quality' && ':' !in n && ':' !in n'
    ensures id == id' && n == n' && quality == quality'
  {
    SuffixApart(id + [':'] + n, quality, id' + [':'] + n', quality');
    SuffixApart(id, n, id', n');
  }

  /** Session keys tell item, offset and quality apart whenever item IDs have no
      colon; equally when qualities have none. */
  lemma SessionKeyInjective(id: string, ticks: int, quality: string, id': string, ticks': int, quality': string)
    requires SessionKey(id, ticks, quality) == SessionKey(id', ticks', quality')
    requires (':' !in id && ':' !in id') || (':' !in quality && ':' !in quality')
    ensures id == id' && ticks == ticks' && quality == quality'
  {
    var n, n' := Itoa(ticks), Itoa(ticks');
    ItoaAvoids(ticks, ':');
    ItoaAvoids(ticks', ':');
    if ':' !in id && ':' !in id' {
      FromTheLeft(id, n, quality, id', n', quality');
    } else {
      FromTheRight(id, n, quality, id', n', quality');
    }
    ItoaInjective(ticks, ticks');
  }

  lemma SuffixApart(a: string, b: string, a': string, b': string)
    requires a + [':'] + b == a' + [':'] + b' && ':' !in b && ':' !in b'
    ensures a == a' && b == b'
  {
    var s := a + [':'] + b;
    assert s[|a|] == ':' && s[|a'|] == ':';
    assert forall k :: |a| < k < |s| ==> s[k] == b[k - |a| - 1];
    assert forall k :: |a'| < k < |s| ==> s[k] == b'[k - |a'| - 1];
    assert |a| == |a'|;
    assert a == s[..|a|] && a' == s[..|a'|] && b == s[|a| + 1..] && b' == s[|a'| + 1..];
  }

  /** Some session of one item has the key of some session of the other. */
  ghost predicate ShareKey(id: string, id': string) {
    exists t: nat, q, t': nat, q' ::
      t <= MAX_INT64 && t' <= MAX_INT64 && SessionKey(id, t, q) == SessionKey(id', t', q')
  }

  /** `id'` goes on where a key of `id` has its offset. */
  ghost predicate Extends(id: string, n: nat, id': string) {
    n <= MAX_INT64 && id + ":" + Itoa(n) + ":" <= id' + ":"
  }

  lemma ExtendsShares(id: string, n: nat, id': string)
    requires Extends(id, n, id')
    ensures ShareKey(id, id') && ShareKey(id', id)
  {
    var head := id + ":" + Itoa(n) + ":";
    var rest := (id' + ":")[|head|..];
    var q := rest + Itoa(0) + ":";
    assert id' + ":" == head + rest;
    assert SessionKey(id, n, q) == head + q == SessionKey(id', 0, "");
  }

  /** A colon after a place in `n` can only come after all of `n`. */
  lemma ColonAfter(id: string, n: string, q: string, k: nat)
    requires ':' !in n && |id| < k < |id + ":" + n + ":" + q| && (id + ":" + n + ":" + q)[k] == ':'
    ensures k >= |id| + 1 + |n|
  {
    assert forall i :: |id| < i < |id| + 1 + |n| ==> (id + ":" + n + ":" + q)[i] == n[i - |id| - 1];
  }

  /** Of two equal keys, the shorter item ID's offset lies inside the longer ID. */
  lemma SharedExtends(id: string, t: nat, q: string, id': string, t': nat, q': string)
    requires t <= MAX_INT64 && SessionKey(id, t, q) == SessionKey(id', t', q') && |id| < |id'|
    ensures Extends(id, t, id')
  {
    var k, head := SessionKey(id, t, q), id + ":" + Itoa(t) + ":";
    ItoaAvoids(t, ':');
    assert k == head + q;
    assert k[|id'|] == ':' && k[..|id'| + 1] == id' + ":";
    ColonAfter(id, Itoa(t), q, |id'|);
    assert k[..|head|] == head;
  }

  lemma SharedSameLength(id: string, t: nat, q: string, id': string, t': nat, q': string)
    requires SessionKey(id, t, q) == SessionKey(id', t', q') && |id| == |id'|
    ensures id == id'
  {
    assert SessionKey(id, t, q)[..|id|] == id && SessionKey(id', t', q')[..|id'|] == id';
  }

  /** Two items can share a session key exactly when one ID, with some offset after it,
      begins the other. */
  lemma SessionKeysShareExactly(id: string, id': string)
    requires id != id'
    ensures ShareKey(id, id') <==> exists n: nat :: Extends(id, n, id') || Extends(id', n, id)
  {
    if ShareKey(id, id') {
      var t: nat, q, t': nat, q' :|
        t <= MAX_INT64 && t' <= MAX_INT64 && SessionKey(id, t, q) == SessionKey(id', t', q');
      if |id| < |id'| {
        SharedExtends(id, t, q, id', t', q');
      } else if |id'| < |id| {
        SharedExtends(id', t', q', id, t, q);
      } else {
        SharedSameLength(id, t, q, id', t', q');
      }
    }
    if n: nat :| Extends(id, n, id') || Extends(id', n, id) {
      if Extends(id, n, id') {
        ExtendsShares(id, n, id');
      } else {
        ExtendsShares(id', n, id);
      }
    }
  }

  /** With a colon in both an item ID and a quality two sessions can share a key. */
  lemma SessionKeysCanCollide()
    ensures SessionKey("a:1", 2, "x") == SessionKey("a", 1, "2:x")
  {
    assert Itoa(1) == "1" && Itoa(2) == "2";
  }
}
