/** The programme guide (internal/livetv/service.go): grouping a guide's programmes
    and querying them by channel. */
module Guide {
  import opened Wrappers
  import opened Sorting

  type Instant = int

  /** Go's zero time. */
  const ZERO: Instant := 0

  datatype Program = Program(id: string, tvg: string, title: string, start: Instant, stop: Instant)

  datatype Channel = Channel(id: string, name: string, tvg: string)

  datatype GuideChannel = GuideChannel(id: string, names: seq<string>)

  datatype Entry = Entry(channel: string, program: Program)

  // -------------------------------------------------------------------- grouping

  function StartsNoLater(a: Program, b: Program): bool { a.start <= b.start }

  /** One channel's programmes, in document order. */
  function Bucket(progs: seq<Program>, tvg: string): seq<Program> {
    if progs == [] then []
    else
      var n := |progs| - 1;
      Bucket(progs[..n], tvg) + if progs[n].tvg == tvg then [progs[n]] else []
  }

  predicate HasTvg(progs: seq<Program>, tvg: string) { exists i :: 0 <= i < |progs| && progs[i].tvg == tvg }

  ghost predicate IsGrouping(byTvg: map<string, seq<Program>>, progs: seq<Program>) {
    && (forall tvg :: tvg in byTvg <==> HasTvg(progs, tvg))
    && forall tvg :: tvg in byTvg ==> byTvg[tvg] == Sort(Bucket(progs, tvg), StartsNoLater)
  }

  /** groupPrograms' running window. */
  function WindowStart(progs: seq<Program>): Instant {
    if progs == [] then ZERO
    else
      var n := |progs| - 1;
      var start := WindowStart(progs[..n]);
      if start == ZERO || progs[n].start < start then progs[n].start else start
  }

  function WindowEnd(progs: seq<Program>): Instant {
    if progs == [] then ZERO
    else
      var n := |progs| - 1;
      var end := WindowEnd(progs[..n]);
      if end == ZERO || progs[n].stop > end then progs[n].stop else end
  }

  /** Grouped but not yet sorted. */
  ghost predicate Bucketed(byTvg: map<string, seq<Program>>, progs: seq<Program>) {
    && (forall tvg :: tvg in byTvg <==> HasTvg(progs, tvg))
    && forall tvg :: Bucket(progs, tvg) == if tvg in byTvg then byTvg[tvg] else []
  }

  lemma HasTvgMore(progs: seq<Program>, p: Program, tvg: string)
    ensures HasTvg(progs + [p], tvg) <==> HasTvg(progs, tvg) || p.tvg == tvg
  {
    var all := progs + [p];
    assert all[|progs|] == p;
    if HasTvg(progs, tvg) {
      var k :| 0 <= k < |progs| && progs[k].tvg == tvg;
      assert all[k].tvg == tvg;
    }
  }

  lemma BucketedMore(byTvg: map<string, seq<Program>>, progs: seq<Program>, p: Program)
    requires Bucketed(byTvg, progs)
    ensures Bucketed(byTvg[p.tvg := (if p.tvg in byTvg then byTvg[p.tvg] else []) + [p]], progs + [p])
  {
    assert (progs + [p])[..|progs|] == progs;
    forall tvg ensures HasTvg(progs + [p], tvg) <==> HasTvg(progs, tvg) || p.tvg == tvg {
      HasTvgMore(progs, p, tvg);
    }
  }

  method GroupPrograms(progs: seq<Program>) returns (byTvg: map<string, seq<Program>>, start: Instant, end: Instant)
    ensures IsGrouping(byTvg, progs)
    ensures start == WindowStart(progs) && end == WindowEnd(progs)
  {
    byTvg, start, end := map[], ZERO, ZERO;
    for i := 0 to |progs|
      invariant Bucketed(byTvg, progs[..i])
      invariant start == WindowStart(progs[..i]) && end == WindowEnd(progs[..i])
    {
      var p := progs[i];
      BucketedMore(byTvg, progs[..i], p);
      assert progs[..i + 1] == progs[..i] + [p] && progs[..i + 1][..i] == progs[..i];
      byTvg := byTvg[p.tvg := (if p.tvg in byTvg then byTvg[p.tvg] else []) + [p]];
      if start == ZERO || p.start < start {
        start := p.start;
      }
      if end == ZERO || p.stop > end {
        end := p.stop;
      }
    }
    assert progs[..|progs|] == progs;
    byTvg := SortBuckets(byTvg);
  }

  /** groupPrograms' second loop. */
  method SortBuckets(byTvg: map<string, seq<Program>>) returns (sorted: map<string, seq<Program>>)
    ensures sorted.Keys == byTvg.Keys
    ensures forall tvg :: tvg in byTvg ==> sorted[tvg] == Sort(byTvg[tvg], StartsNoLater)
  {
    sorted := byTvg;
    var todo := byTvg.Keys;
    while todo != {}
      invariant todo <= byTvg.Keys && sorted.Keys == byTvg.Keys
      invariant forall tvg :: tvg in todo ==> sorted[tvg] == byTvg[tvg]
      invariant forall tvg :: tvg in byTvg && tvg !in todo ==> sorted[tvg] == Sort(byTvg[tvg], StartsNoLater)
      decreases |todo|
    {
      var tvg :| tvg in todo;
      sorted := sorted[tvg := Sort(sorted[tvg], StartsNoLater)];
      todo := todo - {tvg};
    }
  }

  lemma {:induction false} BucketExact(progs: seq<Program>, tvg: string, p: Program)
    ensures multiset(Bucket(progs, tvg))[p] == if p.tvg == tvg then multiset(progs)[p] else 0
  {
    if progs != [] {
      var n := |progs| - 1;
      BucketExact(progs[..n], tvg, p);
      LastCounts(progs, p);
    }
  }

  lemma LastCounts(progs: seq<Program>, p: Program)
    requires progs != []
    ensures multiset(progs)[p] == multiset(progs[..|progs| - 1])[p] + if progs[|progs| - 1] == p then 1 else 0
  {
    assert progs == progs[..|progs| - 1] + [progs[|progs| - 1]];
  }

  /** Grouping partitions the programmes, as a multiset, into buckets by channel,
      each in order of start with ties in document order. */
  lemma GroupingPartitions(byTvg: map<string, seq<Program>>, progs: seq<Program>, p: Program)
    requires IsGrouping(byTvg, progs)
    ensures forall tvg :: tvg in byTvg ==> multiset(byTvg[tvg])[p] == if tvg == p.tvg then multiset(progs)[p] else 0
    ensures p in progs ==> p.tvg in byTvg && p in byTvg[p.tvg]
    ensures forall tvg :: tvg in byTvg ==> SortedBy(byTvg[tvg], StartsNoLater)
    ensures forall tvg :: tvg in byTvg ==>
      Class(byTvg[tvg], p, StartsNoLater) == Class(Bucket(progs, tvg), p, StartsNoLater)
  {
    forall tvg | tvg in byTvg
      ensures multiset(byTvg[tvg])[p] == if tvg == p.tvg then multiset(progs)[p] else 0
      ensures SortedBy(byTvg[tvg], StartsNoLater)
      ensures Class(byTvg[tvg], p, StartsNoLater) == Class(Bucket(progs, tvg), p, StartsNoLater)
    {
      SortCorrect(Bucket(progs, tvg), StartsNoLater);
      BucketExact(progs, tvg, p);
    }
    if p in progs {
      var i :| 0 <= i < |progs| && progs[i] == p;
      assert HasTvg(progs, p.tvg);
      assert multiset(progs)[p] > 0;
      assert p in multiset(byTvg[p.tvg]);
    }
  }

  // ------------------------------------------------------------------ the window

  ghost predicate IsMinStart(progs: seq<Program>, t: Instant) {
    (exists i :: 0 <= i < |progs| && progs[i].start == t) && forall i :: 0 <= i < |progs| ==> t <= progs[i].start
  }

  ghost predicate IsMaxStop(progs: seq<Program>, t: Instant) {
    (exists i :: 0 <= i < |progs| && progs[i].stop == t) && forall i :: 0 <= i < |progs| ==> progs[i].stop <= t
  }

  /** The running start is the least start so far, unless that is the zero time and
      was forgotten for a later one. */
  lemma {:induction false} StartTracks(progs: seq<Program>)
    requires progs != []
    ensures IsMinStart(progs, WindowStart(progs)) || (WindowStart(progs) > ZERO && IsMinStart(progs, ZERO))
    ensures WindowStart(progs) == ZERO ==> progs[|progs| - 1].start == ZERO
    ensures progs[|progs| - 1].start == ZERO ==> WindowStart(progs) <= ZERO
  {
    var n := |progs| - 1;
    if n > 0 {
      StartTracks(progs[..n]);
      MinStartMore(progs, WindowStart(progs[..n]));
      MinStartMore(progs, ZERO);
    }
  }

  lemma MinStartMore(progs: seq<Program>, t: Instant)
    requires progs != []
    ensures var n := |progs| - 1;
      IsMinStart(progs[..n], t) ==> IsMinStart(progs, if progs[n].start < t then progs[n].start else t)
  {
    var n := |progs| - 1;
    assert forall k :: 0 <= k < n ==> progs[..n][k] == progs[k];
    if IsMinStart(progs[..n], t) {
      var i :| 0 <= i < n && progs[..n][i].start == t;
      assert progs[i].start == t;
    }
  }

  /** When the window's start is the least start: always, but for guides whose least
      start is the zero time and whose last programme starts later. */
  lemma WindowStartExact(progs: seq<Program>, least: Instant)
    requires IsMinStart(progs, least)
    ensures WindowStart(progs) == least <==> least != ZERO || progs[|progs| - 1].start == ZERO
  {
    StartTracks(progs);
  }

  lemma {:induction false} EndTracks(progs: seq<Program>)
    requires progs != []
    ensures IsMaxStop(progs, WindowEnd(progs)) || (WindowEnd(progs) < ZERO && IsMaxStop(progs, ZERO))
    ensures WindowEnd(progs) == ZERO ==> progs[|progs| - 1].stop == ZERO
    ensures progs[|progs| - 1].stop == ZERO ==> WindowEnd(progs) >= ZERO
  {
    var n := |progs| - 1;
    if n > 0 {
      EndTracks(progs[..n]);
      MaxStopMore(progs, WindowEnd(progs[..n]));
      MaxStopMore(progs, ZERO);
    }
  }

  lemma MaxStopMore(progs: seq<Program>, t: Instant)
    requires progs != []
    ensures var n := |progs| - 1;
      IsMaxStop(progs[..n], t) ==> IsMaxStop(progs, if progs[n].stop > t then progs[n].stop else t)
  {
    var n := |progs| - 1;
    assert forall k :: 0 <= k < n ==> progs[..n][k] == progs[k];
    if IsMaxStop(progs[..n], t) {
      var i :| 0 <= i < n && progs[..n][i].stop == t;
      assert progs[i].stop == t;
    }
  }

  lemma WindowEndExact(progs: seq<Program>, latest: Instant)
    requires IsMaxStop(progs, latest)
    ensures WindowEnd(progs) == latest <==> latest != ZERO || progs[|progs| - 1].stop == ZERO
  {
    EndTracks(progs);
  }

  // ------------------------------------------------------------- the name index

  /** The (name, id) pairs of the guide's channels, in document order. */
  function Named(chans: seq<GuideChannel>): seq<(string, string)> {
    if chans == [] then []
    else
      var n := |chans| - 1;
      var c := chans[n];
      Named(chans[..n]) + seq(|c.names|, i requires 0 <= i < |c.names| => (c.names[i], c.id))
  }

  ghost predicate FirstBearer(named: seq<(string, string)>, norm: string -> string, k: string, i: int) {
    0 <= i < |named| && norm(named[i].0) == k && forall j :: 0 <= j < i ==> norm(named[j].0) != k
  }

  /** `idx` maps each non-empty normalized name to the id of its first bearer. */
  ghost predicate IndexesFirst(idx: map<string, string>, named: seq<(string, string)>, norm: string -> string) {
    && (forall k :: k in idx ==> k != "" && exists i :: FirstBearer(named, norm, k, i) && idx[k] == named[i].1)
    && forall i :: 0 <= i < |named| && norm(named[i].0) != "" ==> norm(named[i].0) in idx
  }

  lemma IndexMore(idx: map<string, string>, named: seq<(string, string)>, norm: string -> string, pair: (string, string))
    requires IndexesFirst(idx, named, norm)
    ensures var k := norm(pair.0);
      IndexesFirst(if k != "" && k !in idx then idx[k := pair.1] else idx, named + [pair], norm)
  {
    var all, k := named + [pair], norm(pair.0);
    assert forall j :: 0 <= j < |named| ==> all[j] == named[j];
    forall key | key in idx ensures exists i :: FirstBearer(all, norm, key, i) && idx[key] == all[i].1 {
      var i :| FirstBearer(named, norm, key, i) && idx[key] == named[i].1;
      assert FirstBearer(all, norm, key, i);
    }
    if k != "" && k !in idx {
      assert all[|named|] == pair;
      assert FirstBearer(all, norm, k, |named|);
    }
  }

  method BuildNameIndex(chans: seq<GuideChannel>, norm: string -> string) returns (idx: map<string, string>)
    ensures IndexesFirst(idx, Named(chans), norm)
  {
    idx := map[];
    for i := 0 to |chans|
      invariant IndexesFirst(idx, Named(chans[..i]), norm)
    {
      var c := chans[i];
      ghost var before := Named(chans[..i]);
      ghost var row := seq(|c.names|, j requires 0 <= j < |c.names| => (c.names[j], c.id));
      assert before + row[..0] == before;
      for j := 0 to |c.names|
        invariant IndexesFirst(idx, before + row[..j], norm)
      {
        var k := norm(c.names[j]);
        assert before + row[..j + 1] == before + row[..j] + [row[j]];
        IndexMore(idx, before + row[..j], norm, row[j]);
        if k != "" {
          if k !in idx {
            idx := idx[k := c.id];
          }
        }
      }
      assert row[..|c.names|] == row && chans[..i + 1][..i] == chans[..i];
    }
    assert chans[..|chans|] == chans;
  }

  // -------------------------------------------------------------------- querying

  /** What the service holds between reloads. */
  datatype Loaded = Loaded(channels: seq<Channel>, byId: map<string, Channel>, byTvg: map<string, seq<Program>>,
                           names: map<string, string>, aliases: map<string, string>)

  /** resolveTvgIDLocked. */
  function Resolve(g: Loaded, norm: string -> string, ch: Channel): string {
    var n := norm(ch.name);
    if n in g.aliases then g.aliases[n]
    else if ch.tvg != "" && ch.tvg in g.byTvg then ch.tvg
    else if n in g.names then g.names[n]
    else ch.tvg
  }

  predicate Overlaps(p: Program, from: Instant, to: Instant) { p.stop > from && p.start < to }

  predicate Covers(p: Program, at: Instant) { p.start <= at < p.stop }

  function Targets(g: Loaded, ids: seq<string>): seq<Channel> {
    if ids == [] then g.channels else Found(g, ids)
  }

  function Found(g: Loaded, ids: seq<string>): seq<Channel> {
    if ids == [] then []
    else
      var n := |ids| - 1;
      Found(g, ids[..n]) + if ids[n] in g.byId then [g.byId[ids[n]]] else []
  }

  function Airing(id: string, progs: seq<Program>, from: Instant, to: Instant): seq<Entry> {
    if progs == [] then []
    else
      var n := |progs| - 1;
      Airing(id, progs[..n], from, to) + if Overlaps(progs[n], from, to) then [Entry(id, progs[n])] else []
  }

  function ProgramsOf(g: Loaded, norm: string -> string, ch: Channel): seq<Program> {
    var tvg := Resolve(g, norm, ch);
    if tvg != "" && tvg in g.byTvg then g.byTvg[tvg] else []
  }

  function Entries(g: Loaded, norm: string -> string, chans: seq<Channel>, from: Instant, to: Instant): seq<Entry> {
    if chans == [] then []
    else
      var n := |chans| - 1;
      Entries(g, norm, chans[..n], from, to) + Airing(chans[n].id, ProgramsOf(g, norm, chans[n]), from, to)
  }

  lemma EntriesMore(g: Loaded, norm: string -> string, chans: seq<Channel>, i: nat, from: Instant, to: Instant)
    requires i < |chans|
    ensures Entries(g, norm, chans[..i + 1], from, to)
         == Entries(g, norm, chans[..i], from, to) + Airing(chans[i].id, ProgramsOf(g, norm, chans[i]), from, to)
  {
    assert chans[..i + 1][..i] == chans[..i];
  }

  function AirsNoLater(a: Entry, b: Entry): bool { a.program.start <= b.program.start }

  function Listing(g: Loaded, norm: string -> string, ids: seq<string>, from: Instant, to: Instant): seq<Entry> {
    Sort(Entries(g, norm, Targets(g, ids), from, to), AirsNoLater)
  }

  function FirstCovering(progs: seq<Program>, at: Instant): (r: Option<Program>)
    ensures r.Some? ==> r.value in progs && Covers(r.value, at)
    ensures r.None? ==> forall p :: p in progs ==> !Covers(p, at)
  {
    if progs == [] then None
    else if Covers(progs[0], at) then Some(progs[0])
    else FirstCovering(progs[1..], at)
  }

  function Current(g: Loaded, norm: string -> string, id: string, at: Instant): Option<Entry> {
    if id !in g.byId then None
    else
      match FirstCovering(ProgramsOf(g, norm, g.byId[id]), at)
      case Some(p) => Some(Entry(g.byId[id].id, p))
      case None => None
  }

  /** The last channel of each id wins. */
  function ById(channels: seq<Channel>): map<string, Channel> {
    if channels == [] then map[]
    else
      var n := |channels| - 1;
      ById(channels[..n])[channels[n].id := channels[n]]
  }

  class Service {
    const norm: string -> string
    const aliases: map<string, string>
    var channels: seq<Channel>
    var byId: map<string, Channel>
    var programsByTvg: map<string, seq<Program>>
    var nameIndex: map<string, string>
    var guideStart: Instant
    var guideEnd: Instant

    function View(): Loaded
      reads this
    {
      Loaded(channels, byId, programsByTvg, nameIndex, aliases)
    }

    constructor (norm: string -> string, aliases: map<string, string>)
      ensures this.norm == norm && View() == Loaded([], map[], map[], map[], aliases)
      ensures guideStart == guideEnd == ZERO
    {
      this.norm, this.aliases := norm, aliases;
      channels, byId, programsByTvg, nameIndex, guideStart, guideEnd := [], map[], map[], map[], ZERO, ZERO;
    }

    /** reload, given what was parsed from the playlist and the guides. */
    method Reload(parsed: seq<Channel>, progs: seq<Program>, chans: seq<GuideChannel>)
      modifies this
      ensures channels == parsed && byId == ById(parsed) && IsGrouping(programsByTvg, progs)
      ensures if progs == [] then nameIndex == map[] else IndexesFirst(nameIndex, Named(chans), norm)
      ensures guideStart == WindowStart(progs) && guideEnd == WindowEnd(progs)
    {
      var ids: map<string, Channel> := map[];
      for i := 0 to |parsed|
        invariant ids == ById(parsed[..i])
      {
        assert parsed[..i + 1][..i] == parsed[..i];
        ids := ids[parsed[i].id := parsed[i]];
      }
      assert parsed[..|parsed|] == parsed;
      var byTvg, start, end := map[], ZERO, ZERO;
      var names := map[];
      if |progs| > 0 {
        byTvg, start, end := GroupPrograms(progs);
        names := BuildNameIndex(chans, norm);
      }
      channels, byId := parsed, ids;
      programsByTvg, nameIndex := byTvg, names;
      guideStart, guideEnd := start, end;
    }

    method Programs(channelIds: seq<string>, from: Instant, to: Instant) returns (out: seq<Entry>)
      ensures out == Listing(View(), norm, channelIds, from, to)
    {
      var targets := channels;
      if |channelIds| != 0 {
        targets := FindChannels(channelIds);
      }
      out := [];
      for i := 0 to |targets|
        invariant out == Entries(View(), norm, targets[..i], from, to)
      {
        EntriesMore(View(), norm, targets, i, from, to);
        var ch := targets[i];
        var tvg := Resolve(View(), norm, ch);
        if tvg == "" || tvg !in programsByTvg {
          continue;
        }
        var more := Overlapping(ch.id, programsByTvg[tvg], from, to);
        out := out + more;
      }
      assert targets[..|targets|] == targets;
      out := Sort(out, AirsNoLater);
    }

    /** Programs' first loop. */
    method FindChannels(ids: seq<string>) returns (targets: seq<Channel>)
      ensures targets == Found(View(), ids)
    {
      targets := [];
      for i := 0 to |ids|
        invariant targets == Found(View(), ids[..i])
      {
        assert ids[..i + 1][..i] == ids[..i];
        if ids[i] in byId {
          targets := targets + [byId[ids[i]]];
        }
      }
      assert ids[..|ids|] == ids;
    }

    /** Programs' inner loop. */
    method Overlapping(id: string, progs: seq<Program>, from: Instant, to: Instant) returns (out: seq<Entry>)
      ensures out == Airing(id, progs, from, to)
    {
      out := [];
      for i := 0 to |progs|
        invariant out == Airing(id, progs[..i], from, to)
      {
        assert progs[..i + 1][..i] == progs[..i];
        if progs[i].stop > from && progs[i].start < to {
          out := out + [Entry(id, progs[i])];
        }
      }
      assert progs[..|progs|] == progs;
    }

    method CurrentProgram(channelId: string, at: Instant) returns (out: Option<Entry>)
      ensures out == Current(View(), norm, channelId, at)
    {
      if channelId !in byId {
        return None;
      }
      var ch := byId[channelId];
      var tvg := Resolve(View(), norm, ch);
      if tvg == "" || tvg !in programsByTvg {
        return None;
      }
      var list := programsByTvg[tvg];
      assert list[0..] == list;
      for i := 0 to |list|
        invariant FirstCovering(list, at) == FirstCovering(list[i..], at)
      {
        assert list[i..][0] == list[i] && list[i..][1..] == list[i + 1..];
        if !(list[i].start > at) && list[i].stop > at {
          return Some(Entry(ch.id, list[i]));
        }
      }
      return None;
    }
  }
}
