/** What the guide's answers (internal/livetv/service.go) say of the channels and the
    programmes that were loaded. */
module GuideLaws {
  import opened Wrappers
  import opened Sorting
  import opened Guide

  // ------------------------------------------------------------------ resolution

  /** The last channel parsed under an id is the one looked up. */
  lemma {:induction false} ByIdExact(channels: seq<Channel>, i: nat)
    requires i < |channels|
    ensures forall id :: id in ById(channels) <==> exists k :: 0 <= k < |channels| && channels[k].id == id
    ensures (forall k :: i < k < |channels| ==> channels[k].id != channels[i].id) ==>
      ById(channels)[channels[i].id] == channels[i]
  {
    var n := |channels| - 1;
    if n == 0 {
      assert channels[..0] == [];
      assert forall id :: id in ById(channels) <==> id == channels[0].id;
    } else {
      var front := channels[..n];
      ByIdExact(front, if i < n then i else 0);
      forall id ensures id in ById(channels) <==> exists k :: 0 <= k < |channels| && channels[k].id == id {
        assert id in ById(front) <==> exists k :: 0 <= k < n && front[k].id == id;
        assert forall k :: 0 <= k < n ==> front[k] == channels[k];
      }
    }
  }

  /** The l-th name of the k-th guide channel normalizes to n. */
  ghost predicate NamedAs(chans: seq<GuideChannel>, norm: string -> string, n: string, k: int, l: int) {
    0 <= k < |chans| && 0 <= l < |chans[k].names| && norm(chans[k].names[l]) == n
  }

  /** And no name before it does. */
  ghost predicate FirstNamed(chans: seq<GuideChannel>, norm: string -> string, n: string, k: int, l: int) {
    NamedAs(chans, norm, n, k, l) && forall i, j :: NamedAs(chans, norm, n, i, j) ==> k < i || (k == i && l <= j)
  }

  lemma FrontNamed(chans: seq<GuideChannel>, norm: string -> string, n: string, k: int, l: int)
    requires chans != [] && NamedAs(chans[..|chans| - 1], norm, n, k, l)
    ensures NamedAs(chans, norm, n, k, l) && k < |chans| - 1
  {
    assert chans[..|chans| - 1][k] == chans[k];
  }

  lemma {:induction false} NoneNamed(chans: seq<GuideChannel>, norm: string -> string, n: string)
    requires forall k, l :: !NamedAs(chans, norm, n, k, l)
    ensures forall i :: 0 <= i < |Named(chans)| ==> norm(Named(chans)[i].0) != n
  {
    if chans != [] {
      var last := |chans| - 1;
      forall k, l ensures !NamedAs(chans[..last], norm, n, k, l) {
        if NamedAs(chans[..last], norm, n, k, l) {
          FrontNamed(chans, norm, n, k, l);
        }
      }
      NoneNamed(chans[..last], norm, n);
      var front := Named(chans[..last]);
      forall i | |front| <= i < |Named(chans)| ensures norm(Named(chans)[i].0) != n {
        assert !NamedAs(chans, norm, n, last, i - |front|);
      }
    }
  }

  lemma {:induction false} FirstNamedBears(chans: seq<GuideChannel>, norm: string -> string, n: string, k: nat, l: nat)
    returns (i: nat)
    requires FirstNamed(chans, norm, n, k, l)
    ensures FirstBearer(Named(chans), norm, n, i) && Named(chans)[i].1 == chans[k].id
    decreases |chans|
  {
    var last := |chans| - 1;
    var front := chans[..last];
    forall a, b | NamedAs(front, norm, n, a, b) ensures NamedAs(chans, norm, n, a, b) && a < last {
      FrontNamed(chans, norm, n, a, b);
    }
    if k < last {
      assert NamedAs(front, norm, n, k, l);
      i := FirstNamedBears(front, norm, n, k, l);
    } else {
      NoneNamed(front, norm, n);
      i := |Named(front)| + l;
      forall j | |Named(front)| <= j < i ensures norm(Named(chans)[j].0) != n {
        assert !NamedAs(chans, norm, n, k, j - |Named(front)|);
      }
    }
  }

  /** A name that can be looked up is one the guide has, and it belongs to the first guide
      channel that bears it. */
  lemma NameIndexExact(names: map<string, string>, chans: seq<GuideChannel>, norm: string -> string, n: string)
    requires IndexesFirst(names, Named(chans), norm)
    ensures n in names ==> n != "" && exists k, l :: NamedAs(chans, norm, n, k, l)
    ensures n != "" ==> forall k, l :: FirstNamed(chans, norm, n, k, l) ==> n in names && names[n] == chans[k].id
  {
    if n in names && forall k, l :: !NamedAs(chans, norm, n, k, l) {
      NoneNamed(chans, norm, n);
      assert false;
    }
    if n != "" {
      forall k, l | FirstNamed(chans, norm, n, k, l) ensures n in names && names[n] == chans[k].id {
        var i := FirstNamedBears(chans, norm, n, k, l);
        var j :| FirstBearer(Named(chans), norm, n, j) && names[n] == Named(chans)[j].1;
        assert i == j;
      }
    }
  }

  /** The tables the last reload made from the guide's programmes and channels. */
  ghost predicate GuideLoaded(g: Loaded, norm: string -> string, progs: seq<Program>, chans: seq<GuideChannel>) {
    IsGrouping(g.byTvg, progs) && if progs == [] then g.names == map[] else IndexesFirst(g.names, Named(chans), norm)
  }

  /** The guide channel of a playlist channel: the operator's alias for its name; else its
      own tvg-id if the guide has a programme there; else the first guide channel of that
      name; else its tvg-id after all. */
  lemma ResolveExact(g: Loaded, norm: string -> string, progs: seq<Program>, chans: seq<GuideChannel>, ch: Channel)
    requires GuideLoaded(g, norm, progs, chans)
    ensures var n, r := norm(ch.name), Resolve(g, norm, ch);
      if n in g.aliases then r == g.aliases[n]
      else if ch.tvg != "" && exists p :: p in progs && p.tvg == ch.tvg then r == ch.tvg
      else
        && (progs != [] && n != "" ==> forall k, l :: FirstNamed(chans, norm, n, k, l) ==> r == chans[k].id)
        && (progs == [] || n == "" || (forall k, l :: !NamedAs(chans, norm, n, k, l)) ==> r == ch.tvg)
  {
    if progs != [] {
      NameIndexExact(g.names, chans, norm, norm(ch.name));
    }
    assert (exists p :: p in progs && p.tvg == ch.tvg) <==> HasTvg(progs, ch.tvg);
  }

  // ------------------------------------------------------------------ the listing

  lemma {:induction false} AiringExact(id: string, progs: seq<Program>, from: Instant, to: Instant, e: Entry)
    ensures e in Airing(id, progs, from, to) <==> e.channel == id && e.program in progs && Overlaps(e.program, from, to)
  {
    if progs != [] {
      var n := |progs| - 1;
      AiringExact(id, progs[..n], from, to, e);
      assert progs == progs[..n] + [progs[n]];
    }
  }

  lemma {:induction false} EntriesExact(g: Loaded, norm: string -> string, chans: seq<Channel>, from: Instant,
                                        to: Instant, e: Entry)
    ensures e in Entries(g, norm, chans, from, to) <==>
      Overlaps(e.program, from, to)
      && exists ch :: ch in chans && e.channel == ch.id && e.program in ProgramsOf(g, norm, ch)
  {
    if chans != [] {
      var n := |chans| - 1;
      EntriesExact(g, norm, chans[..n], from, to, e);
      AiringExact(chans[n].id, ProgramsOf(g, norm, chans[n]), from, to, e);
      assert chans == chans[..n] + [chans[n]];
    }
  }

  lemma BucketMembers(byTvg: map<string, seq<Program>>, progs: seq<Program>, tvg: string, p: Program)
    requires IsGrouping(byTvg, progs)
    ensures tvg in byTvg && p in byTvg[tvg] <==> p in progs && p.tvg == tvg
  {
    GroupingPartitions(byTvg, progs, p);
    if tvg in byTvg {
      assert p in byTvg[tvg] <==> multiset(byTvg[tvg])[p] > 0;
      assert p in progs <==> multiset(progs)[p] > 0;
    }
  }

  lemma ListedIn(g: Loaded, norm: string -> string, progs: seq<Program>, ids: seq<string>, from: Instant, to: Instant,
                 e: Entry)
    requires IsGrouping(g.byTvg, progs)
    ensures e in Listing(g, norm, ids, from, to) <==>
      && e.program in progs && e.program.stop > from && e.program.start < to
      && exists ch :: ch in Targets(g, ids) && ch.id == e.channel
           && Resolve(g, norm, ch) == e.program.tvg && e.program.tvg != ""
  {
    var chans := Targets(g, ids);
    SortMembers(Entries(g, norm, chans, from, to), AirsNoLater);
    EntriesExact(g, norm, chans, from, to, e);
    forall ch | ch in chans
      ensures e.program in ProgramsOf(g, norm, ch) <==>
        e.program in progs && Resolve(g, norm, ch) == e.program.tvg && e.program.tvg != ""
    {
      BucketMembers(g.byTvg, progs, Resolve(g, norm, ch), e.program);
    }
  }

  /** The k-th of the ids asked for, or of all channels when none are, is a channel that
      is listed as `id` and resolves to guide channel `tvg`. */
  ghost predicate Wanted(g: Loaded, norm: string -> string, ids: seq<string>, id: string, tvg: string, k: int) {
    if ids == [] then
      0 <= k < |g.channels| && g.channels[k].id == id && Resolve(g, norm, g.channels[k]) == tvg
    else
      && 0 <= k < |ids| && ids[k] in g.byId
      && g.byId[ids[k]].id == id && Resolve(g, norm, g.byId[ids[k]]) == tvg
  }

  /** The k-th of the ids asked for, or of all channels when none are, is `ch`. */
  ghost predicate Place(g: Loaded, ids: seq<string>, ch: Channel, k: int) {
    if ids == [] then 0 <= k < |g.channels| && g.channels[k] == ch
    else 0 <= k < |ids| && ids[k] in g.byId && g.byId[ids[k]] == ch
  }

  lemma {:induction false} FoundAt(g: Loaded, ids: seq<string>, a: nat) returns (k: nat)
    requires a < |Found(g, ids)|
    ensures k < |ids| && ids[k] in g.byId && Found(g, ids)[a] == g.byId[ids[k]]
    decreases |ids|
  {
    k := |ids| - 1;
    if a < |Found(g, ids[..k])| {
      k := FoundAt(g, ids[..k], a);
    }
  }

  lemma TargetAt(g: Loaded, ids: seq<string>, a: nat) returns (k: nat)
    requires a < |Targets(g, ids)|
    ensures Place(g, ids, Targets(g, ids)[a], k)
  {
    k := a;
    if ids != [] {
      k := FoundAt(g, ids, a);
    }
  }

  lemma {:induction false} PlaceTaken(g: Loaded, ids: seq<string>, ch: Channel, k: nat)
    requires Place(g, ids, ch, k)
    ensures ch in Targets(g, ids)
    decreases |ids|
  {
    if ids != [] {
      var n := |ids| - 1;
      if k < n {
        assert ids[..n][k] == ids[k] && ids[..n] != [];
        PlaceTaken(g, ids[..n], ch, k);
      }
    }
  }

  /** After a reload the listing holds exactly the guide's programmes that overlap the
      window and that a channel asked for resolves to, and is in order of start. */
  lemma ListingExact(g: Loaded, norm: string -> string, progs: seq<Program>, ids: seq<string>, from: Instant,
                     to: Instant, e: Entry)
    requires IsGrouping(g.byTvg, progs)
    ensures e in Listing(g, norm, ids, from, to) <==>
      && e.program in progs && e.program.tvg != "" && e.program.stop > from && e.program.start < to
      && exists k :: Wanted(g, norm, ids, e.channel, e.program.tvg, k)
    ensures forall i, j :: 0 <= i < j < |Listing(g, norm, ids, from, to)| ==>
      Listing(g, norm, ids, from, to)[i].program.start <= Listing(g, norm, ids, from, to)[j].program.start
  {
    var out := Listing(g, norm, ids, from, to);
    ListedIn(g, norm, progs, ids, from, to, e);
    TargetWanted(g, norm, ids, e.channel, e.program.tvg);
    SortCorrect(Entries(g, norm, Targets(g, ids), from, to), AirsNoLater);
    forall i, j | 0 <= i < j < |out| ensures out[i].program.start <= out[j].program.start {
      SortedPairs(out, AirsNoLater, i, j);
    }
  }

  lemma TargetWanted(g: Loaded, norm: string -> string, ids: seq<string>, id: string, tvg: string)
    ensures (exists k :: Wanted(g, norm, ids, id, tvg, k)) <==>
      exists ch :: ch in Targets(g, ids) && ch.id == id && Resolve(g, norm, ch) == tvg
  {
    if k :| Wanted(g, norm, ids, id, tvg, k) {
      var ch := if ids == [] then g.channels[k] else g.byId[ids[k]];
      PlaceTaken(g, ids, ch, k);
    }
    if ch :| ch in Targets(g, ids) && ch.id == id && Resolve(g, norm, ch) == tvg {
      var a :| 0 <= a < |Targets(g, ids)| && Targets(g, ids)[a] == ch;
      var k := TargetAt(g, ids, a);
      assert Wanted(g, norm, ids, id, tvg, k);
    }
  }

  /** How many of the channels are listed as `id` and resolve to guide channel `tvg`. */
  function Askers(g: Loaded, norm: string -> string, chans: seq<Channel>, id: string, tvg: string): nat {
    if chans == [] then 0
    else
      var n := |chans| - 1;
      Askers(g, norm, chans[..n], id, tvg) + if Asks(g, norm, chans[n], id, tvg) then 1 else 0
  }

  lemma {:induction false} AiringCount(id: string, progs: seq<Program>, from: Instant, to: Instant, e: Entry)
    ensures multiset(Airing(id, progs, from, to))[e]
         == if e.channel == id && Overlaps(e.program, from, to) then multiset(progs)[e.program] else 0
  {
    if progs != [] {
      var n := |progs| - 1;
      AiringCount(id, progs[..n], from, to, e);
      assert progs == progs[..n] + [progs[n]];
    }
  }

  lemma ProgramsCount(g: Loaded, norm: string -> string, progs: seq<Program>, ch: Channel, p: Program)
    requires IsGrouping(g.byTvg, progs)
    ensures multiset(ProgramsOf(g, norm, ch))[p]
         == if p.tvg != "" && Resolve(g, norm, ch) == p.tvg then multiset(progs)[p] else 0
  {
    GroupingPartitions(g.byTvg, progs, p);
    if p !in progs {
      assert multiset(progs)[p] == 0;
    }
  }

  predicate Asks(g: Loaded, norm: string -> string, ch: Channel, id: string, tvg: string) {
    ch.id == id && Resolve(g, norm, ch) == tvg
  }

  /** The entry's programme counts in this window. */
  predicate Counts(e: Entry, from: Instant, to: Instant) { e.program.tvg != "" && Overlaps(e.program, from, to) }

  lemma ChannelCount(g: Loaded, norm: string -> string, progs: seq<Program>, ch: Channel, from: Instant, to: Instant,
                     e: Entry)
    requires IsGrouping(g.byTvg, progs)
    ensures multiset(Airing(ch.id, ProgramsOf(g, norm, ch), from, to))[e]
         == if Counts(e, from, to) && Asks(g, norm, ch, e.channel, e.program.tvg) then multiset(progs)[e.program] else 0
  {
    AiringCount(ch.id, ProgramsOf(g, norm, ch), from, to, e);
    ProgramsCount(g, norm, progs, ch, e.program);
  }

  lemma CountCat<T>(a: seq<T>, b: seq<T>, x: T)
    ensures multiset(a + b)[x] == multiset(a)[x] + multiset(b)[x]
  {
  }

  /** c for every channel that asks. */
  function Copies(g: Loaded, norm: string -> string, chans: seq<Channel>, id: string, tvg: string, c: nat): nat {
    if chans == [] then 0
    else
      var n := |chans| - 1;
      Copies(g, norm, chans[..n], id, tvg, c) + if Asks(g, norm, chans[n], id, tvg) then c else 0
  }

  lemma {:induction false} CopiesTimes(g: Loaded, norm: string -> string, chans: seq<Channel>, id: string, tvg: string,
                                       c: nat)
    ensures Copies(g, norm, chans, id, tvg, c) == Askers(g, norm, chans, id, tvg) * c
  {
    if chans != [] {
      var front := chans[..|chans| - 1];
      CopiesTimes(g, norm, front, id, tvg, c);
      var k := Askers(g, norm, front, id, tvg);
      assert (k + 1) * c == k * c + c;
    }
  }

  lemma {:induction false} EntriesCount(g: Loaded, norm: string -> string, progs: seq<Program>, chans: seq<Channel>,
                                        from: Instant, to: Instant, e: Entry)
    requires IsGrouping(g.byTvg, progs)
    ensures multiset(Entries(g, norm, chans, from, to))[e]
         == if Counts(e, from, to) then Copies(g, norm, chans, e.channel, e.program.tvg, multiset(progs)[e.program])
            else 0
  {
    if chans != [] {
      var front, ch := chans[..|chans| - 1], chans[|chans| - 1];
      EntriesCount(g, norm, progs, front, from, to, e);
      ChannelCount(g, norm, progs, ch, from, to, e);
      CountCat(Entries(g, norm, front, from, to), Airing(ch.id, ProgramsOf(g, norm, ch), from, to), e);
    }
  }

  ghost function Spots(called: int -> bool, n: nat): set<int> { set k | 0 <= k < n && called(k) }

  lemma SpotsMore(called: int -> bool, n: nat)
    ensures |Spots(called, n + 1)| == |Spots(called, n)| + if called(n) then 1 else 0
  {
    assert Spots(called, n + 1) == Spots(called, n) + if called(n) then {n as int} else {};
  }

  /** The places among the first n of what was asked for that call for an entry. */
  ghost function Places(g: Loaded, norm: string -> string, ids: seq<string>, id: string, tvg: string, n: nat): set<int> {
    Spots(k => Wanted(g, norm, ids, id, tvg, k), n)
  }

  /** All of them. */
  ghost function Wanters(g: Loaded, norm: string -> string, ids: seq<string>, id: string, tvg: string): set<int> {
    Places(g, norm, ids, id, tvg, if ids == [] then |g.channels| else |ids|)
  }

  lemma AskersMore(g: Loaded, norm: string -> string, chans: seq<Channel>, ch: Channel, id: string, tvg: string)
    ensures Askers(g, norm, chans + [ch], id, tvg)
         == Askers(g, norm, chans, id, tvg) + if Asks(g, norm, ch, id, tvg) then 1 else 0
  {
    assert (chans + [ch])[..|chans|] == chans;
  }

  lemma {:induction false} AskersOfAll(g: Loaded, norm: string -> string, id: string, tvg: string, n: nat)
    requires n <= |g.channels|
    ensures Askers(g, norm, g.channels[..n], id, tvg) == |Places(g, norm, [], id, tvg, n)|
  {
    if n == 0 {
      assert Places(g, norm, [], id, tvg, n) == {};
    } else {
      SpotsMore(k => Wanted(g, norm, [], id, tvg, k), n - 1);
      AskersOfAll(g, norm, id, tvg, n - 1);
      AskersMore(g, norm, g.channels[..n - 1], g.channels[n - 1], id, tvg);
      assert g.channels[..n] == g.channels[..n - 1] + [g.channels[n - 1]];
    }
  }

  lemma FoundMore(g: Loaded, ids: seq<string>, n: nat)
    requires n < |ids|
    ensures Found(g, ids[..n + 1]) == Found(g, ids[..n]) + if ids[n] in g.byId then [g.byId[ids[n]]] else []
  {
    assert ids[..n + 1][..n] == ids[..n];
  }

  lemma AskersFoundMore(g: Loaded, norm: string -> string, ids: seq<string>, id: string, tvg: string, n: nat)
    requires n < |ids|
    ensures Askers(g, norm, Found(g, ids[..n + 1]), id, tvg)
         == Askers(g, norm, Found(g, ids[..n]), id, tvg) + if Wanted(g, norm, ids, id, tvg, n) then 1 else 0
  {
    FoundMore(g, ids, n);
    var front := Found(g, ids[..n]);
    if ids[n] in g.byId {
      AskersMore(g, norm, front, g.byId[ids[n]], id, tvg);
    } else {
      assert front + [] == front;
    }
  }

  lemma {:induction false} AskersOfFound(g: Loaded, norm: string -> string, ids: seq<string>, id: string, tvg: string,
                                         n: nat)
    requires ids != [] && n <= |ids|
    ensures Askers(g, norm, Found(g, ids[..n]), id, tvg) == |Places(g, norm, ids, id, tvg, n)|
  {
    if n == 0 {
      assert Places(g, norm, ids, id, tvg, n) == {};
    } else {
      SpotsMore(k => Wanted(g, norm, ids, id, tvg, k), n - 1);
      AskersOfFound(g, norm, ids, id, tvg, n - 1);
      AskersFoundMore(g, norm, ids, id, tvg, n - 1);
    }
  }

  lemma AskersWanters(g: Loaded, norm: string -> string, ids: seq<string>, id: string, tvg: string)
    ensures Askers(g, norm, Targets(g, ids), id, tvg) == |Wanters(g, norm, ids, id, tvg)|
  {
    if ids == [] {
      AskersOfAll(g, norm, id, tvg, |g.channels|);
      assert g.channels[..|g.channels|] == g.channels;
    } else {
      AskersOfFound(g, norm, ids, id, tvg, |ids|);
      assert ids[..|ids|] == ids;
    }
  }

  /** The listing has each overlapping programme as often as the guide does, for every
      place in the ids asked for (or in the channels) that calls for it. */
  lemma ListingCount(g: Loaded, norm: string -> string, progs: seq<Program>, ids: seq<string>, from: Instant,
                     to: Instant, e: Entry)
    requires IsGrouping(g.byTvg, progs)
    ensures multiset(Listing(g, norm, ids, from, to))[e]
         == if e.program.tvg != "" && e.program.stop > from && e.program.start < to
            then |Wanters(g, norm, ids, e.channel, e.program.tvg)| * multiset(progs)[e.program]
            else 0
  {
    SortCorrect(Entries(g, norm, Targets(g, ids), from, to), AirsNoLater);
    EntriesCount(g, norm, progs, Targets(g, ids), from, to, e);
    CopiesTimes(g, norm, Targets(g, ids), e.channel, e.program.tvg, multiset(progs)[e.program]);
    AskersWanters(g, norm, ids, e.channel, e.program.tvg);
  }

  /** Entry p comes from programme m. */
  lemma {:induction false} AiringAt(id: string, progs: seq<Program>, from: Instant, to: Instant, es: seq<Entry>, p: nat)
    returns (m: nat)
    requires es == Airing(id, progs, from, to) && p < |es|
    ensures m < |progs| && es[p] == Entry(id, progs[m])
    decreases |progs|
  {
    m := |progs| - 1;
    var front := Airing(id, progs[..m], from, to);
    if p < |front| {
      m := AiringAt(id, progs[..m], from, to, front, p);
    }
  }

  lemma {:induction false} AiringInOrder(id: string, progs: seq<Program>, from: Instant, to: Instant, es: seq<Entry>,
                                         p: nat, q: nat)
    returns (m: nat, n: nat)
    requires es == Airing(id, progs, from, to) && p < q < |es|
    ensures m < n < |progs| && es[p] == Entry(id, progs[m]) && es[q] == Entry(id, progs[n])
    decreases |progs|
  {
    n := |progs| - 1;
    var front := Airing(id, progs[..n], from, to);
    if q < |front| {
      m, n := AiringInOrder(id, progs[..n], from, to, front, p, q);
    } else {
      m := AiringAt(id, progs[..n], from, to, front, p);
    }
  }

  /** `e` is the m-th programme of the a-th channel. */
  ghost predicate At(g: Loaded, norm: string -> string, chans: seq<Channel>, e: Entry, a: int, m: int) {
    && 0 <= a < |chans| && 0 <= m < |ProgramsOf(g, norm, chans[a])|
    && e == Entry(chans[a].id, ProgramsOf(g, norm, chans[a])[m])
  }

  lemma {:induction false} EntryAt(g: Loaded, norm: string -> string, chans: seq<Channel>, from: Instant, to: Instant,
                                   es: seq<Entry>, p: nat)
    returns (a: nat, m: nat)
    requires es == Entries(g, norm, chans, from, to) && p < |es|
    ensures At(g, norm, chans, es[p], a, m)
    decreases |chans|
  {
    a := |chans| - 1;
    var front := Entries(g, norm, chans[..a], from, to);
    var more := Airing(chans[a].id, ProgramsOf(g, norm, chans[a]), from, to);
    if p < |front| {
      a, m := EntryAt(g, norm, chans[..a], from, to, front, p);
    } else {
      m := AiringAt(chans[a].id, ProgramsOf(g, norm, chans[a]), from, to, more, p - |front|);
    }
  }

  lemma {:induction false} EntriesInOrder(g: Loaded, norm: string -> string, chans: seq<Channel>, from: Instant,
                                          to: Instant, es: seq<Entry>, p: nat, q: nat)
    returns (a: nat, m: nat, b: nat, n: nat)
    requires es == Entries(g, norm, chans, from, to) && p < q < |es|
    ensures At(g, norm, chans, es[p], a, m) && At(g, norm, chans, es[q], b, n)
    ensures a < b || (a == b && m < n)
    decreases |chans|
  {
    b := |chans| - 1;
    var front, list := Entries(g, norm, chans[..b], from, to), ProgramsOf(g, norm, chans[b]);
    var more := Airing(chans[b].id, list, from, to);
    if q < |front| {
      a, m, b, n := EntriesInOrder(g, norm, chans[..b], from, to, front, p, q);
    } else if p < |front| {
      a, m := EntryAt(g, norm, chans[..b], from, to, front, p);
      n := AiringAt(chans[b].id, list, from, to, more, q - |front|);
    } else {
      a := b;
      m, n := AiringInOrder(chans[b].id, list, from, to, more, p - |front|, q - |front|);
    }
  }

  /** The channels found stand in the order of the ids asked for. */
  lemma {:induction false} FoundInOrder(g: Loaded, ids: seq<string>, a: nat, b: nat) returns (k: nat, l: nat)
    requires a < b < |Found(g, ids)|
    ensures k < l < |ids| && ids[k] in g.byId && ids[l] in g.byId
    ensures Found(g, ids)[a] == g.byId[ids[k]] && Found(g, ids)[b] == g.byId[ids[l]]
    decreases |ids|
  {
    l := |ids| - 1;
    if b < |Found(g, ids[..l])| {
      k, l := FoundInOrder(g, ids[..l], a, b);
    } else {
      k := FoundAt(g, ids[..l], a);
    }
  }

  lemma {:induction false} BucketAt(progs: seq<Program>, tvg: string, a: nat) returns (m: nat)
    requires a < |Bucket(progs, tvg)|
    ensures m < |progs| && progs[m] == Bucket(progs, tvg)[a] && progs[m].tvg == tvg
    decreases |progs|
  {
    m := |progs| - 1;
    if a < |Bucket(progs[..m], tvg)| {
      m := BucketAt(progs[..m], tvg, a);
    }
  }

  lemma {:induction false} BucketInOrder(progs: seq<Program>, tvg: string, a: nat, b: nat) returns (m: nat, n: nat)
    requires a < b < |Bucket(progs, tvg)|
    ensures m < n < |progs| && progs[m] == Bucket(progs, tvg)[a] && progs[n] == Bucket(progs, tvg)[b]
    decreases |progs|
  {
    n := |progs| - 1;
    if b < |Bucket(progs[..n], tvg)| {
      m, n := BucketInOrder(progs[..n], tvg, a, b);
    } else {
      m := BucketAt(progs[..n], tvg, a);
    }
  }

  /** `e` is there for the k-th place in what was asked for and the m-th programme. */
  ghost predicate CalledFor(g: Loaded, norm: string -> string, progs: seq<Program>, ids: seq<string>, e: Entry, k: int,
                            m: int)
  {
    Wanted(g, norm, ids, e.channel, e.program.tvg, k) && 0 <= m < |progs| && progs[m] == e.program
  }

  /** Programmes of one channel that start together are in document order. */
  lemma DocumentOrder(g: Loaded, progs: seq<Program>, tvg: string, a: nat, b: nat) returns (m: nat, n: nat)
    requires IsGrouping(g.byTvg, progs) && tvg in g.byTvg && a < b < |g.byTvg[tvg]|
    requires g.byTvg[tvg][a].start == g.byTvg[tvg][b].start
    ensures m < n < |progs| && progs[m] == g.byTvg[tvg][a] && progs[n] == g.byTvg[tvg][b]
    ensures progs[m].tvg == tvg == progs[n].tvg
  {
    var bucket, list := Bucket(progs, tvg), g.byTvg[tvg];
    SortStable(bucket, StartsNoLater, a, b);
    var p, q :| 0 <= p < q < |bucket| && bucket[p] == list[a] && bucket[q] == list[b];
    m, n := BucketInOrder(progs, tvg, p, q);
    BucketMembers(g.byTvg, progs, tvg, list[a]);
    BucketMembers(g.byTvg, progs, tvg, list[b]);
  }

  lemma TargetsInOrder(g: Loaded, ids: seq<string>, a: nat, b: nat) returns (k: nat, l: nat)
    requires a < b < |Targets(g, ids)|
    ensures k < l && Place(g, ids, Targets(g, ids)[a], k) && Place(g, ids, Targets(g, ids)[b], l)
  {
    if ids == [] {
      k, l := a, b;
    } else {
      k, l := FoundInOrder(g, ids, a, b);
    }
  }

  lemma OnePlace(g: Loaded, norm: string -> string, progs: seq<Program>, ids: seq<string>, x: Entry, y: Entry, a: nat,
                 s: nat, t: nat)
    returns (k: nat, m: nat, n: nat)
    requires IsGrouping(g.byTvg, progs) && x.program.start == y.program.start && s < t
    requires At(g, norm, Targets(g, ids), x, a, s) && At(g, norm, Targets(g, ids), y, a, t)
    ensures CalledFor(g, norm, progs, ids, x, k, m) && CalledFor(g, norm, progs, ids, y, k, n) && m < n
  {
    k := TargetAt(g, ids, a);
    m, n := DocumentOrder(g, progs, Resolve(g, norm, Targets(g, ids)[a]), s, t);
  }

  lemma WantedFrom(g: Loaded, norm: string -> string, progs: seq<Program>, ids: seq<string>, e: Entry, a: nat, s: nat,
                   k: nat)
    returns (m: nat)
    requires IsGrouping(g.byTvg, progs) && At(g, norm, Targets(g, ids), e, a, s) && Place(g, ids, Targets(g, ids)[a], k)
    ensures CalledFor(g, norm, progs, ids, e, k, m)
  {
    BucketMembers(g.byTvg, progs, Resolve(g, norm, Targets(g, ids)[a]), e.program);
    m :| 0 <= m < |progs| && progs[m] == e.program;
  }

  lemma TwoPlaces(g: Loaded, norm: string -> string, progs: seq<Program>, ids: seq<string>, x: Entry, y: Entry, a: nat,
                  s: nat, b: nat, t: nat)
    returns (k: nat, m: nat, l: nat, n: nat)
    requires IsGrouping(g.byTvg, progs) && a < b
    requires At(g, norm, Targets(g, ids), x, a, s) && At(g, norm, Targets(g, ids), y, b, t)
    ensures CalledFor(g, norm, progs, ids, x, k, m) && CalledFor(g, norm, progs, ids, y, l, n) && k < l
  {
    k, l := TargetsInOrder(g, ids, a, b);
    m := WantedFrom(g, norm, progs, ids, x, a, s, k);
    n := WantedFrom(g, norm, progs, ids, y, b, t, l);
  }

  /** Entries that start together are listed in the order of what they were asked for by,
      and those of one place in document order. */
  lemma ListingTies(g: Loaded, norm: string -> string, progs: seq<Program>, ids: seq<string>, from: Instant, to: Instant,
                    i: nat, j: nat)
    returns (k: nat, m: nat, l: nat, n: nat)
    requires IsGrouping(g.byTvg, progs) && i < j < |Listing(g, norm, ids, from, to)|
    requires Listing(g, norm, ids, from, to)[i].program.start == Listing(g, norm, ids, from, to)[j].program.start
    ensures CalledFor(g, norm, progs, ids, Listing(g, norm, ids, from, to)[i], k, m)
    ensures CalledFor(g, norm, progs, ids, Listing(g, norm, ids, from, to)[j], l, n)
    ensures k < l || (k == l && m < n)
  {
    var es := Entries(g, norm, Targets(g, ids), from, to);
    SortStable(es, AirsNoLater, i, j);
    var p, q :| 0 <= p < q < |es| && es[p] == Sort(es, AirsNoLater)[i] && es[q] == Sort(es, AirsNoLater)[j];
    var a, s, b, t := EntriesInOrder(g, norm, Targets(g, ids), from, to, es, p, q);
    if a == b {
      k, m, n := OnePlace(g, norm, progs, ids, es[p], es[q], a, s, t);
      l := k;
    } else {
      k, m, l, n := TwoPlaces(g, norm, progs, ids, es[p], es[q], a, s, b, t);
    }
  }

  lemma {:induction false} FirstCoveringEarliest(progs: seq<Program>, at: Instant, q: Program)
    requires SortedBy(progs, StartsNoLater) && q in progs && Covers(q, at)
    ensures FirstCovering(progs, at).Some? && FirstCovering(progs, at).value.start <= q.start
  {
    assert progs == [progs[0]] + progs[1..];
    if !Covers(progs[0], at) {
      FirstCoveringEarliest(progs[1..], at, q);
    }
  }

  /** The guide has `q` on the air at `at` on guide channel `tvg`. */
  ghost predicate OnAir(progs: seq<Program>, tvg: string, at: Instant, q: Program) {
    q in progs && q.tvg == tvg && q.start <= at < q.stop
  }

  lemma FirstCoveringExact(byTvg: map<string, seq<Program>>, progs: seq<Program>, tvg: string, at: Instant)
    requires IsGrouping(byTvg, progs)
    ensures match FirstCovering(if tvg in byTvg then byTvg[tvg] else [], at)
            case Some(p) => OnAir(progs, tvg, at, p) && forall q :: OnAir(progs, tvg, at, q) ==> p.start <= q.start
            case None => forall q :: !OnAir(progs, tvg, at, q)
  {
    var list := if tvg in byTvg then byTvg[tvg] else [];
    forall q ensures q in list <==> q in progs && q.tvg == tvg {
      BucketMembers(byTvg, progs, tvg, q);
    }
    if tvg in byTvg {
      SortCorrect(Bucket(progs, tvg), StartsNoLater);
    }
    forall q | OnAir(progs, tvg, at, q)
      ensures FirstCovering(list, at).Some? && FirstCovering(list, at).value.start <= q.start
    {
      FirstCoveringEarliest(list, at, q);
    }
  }

  lemma FirstCons(x: Program, rest: seq<Program>, at: Instant)
    ensures FirstCovering([x] + rest, at) == if Covers(x, at) then Some(x) else FirstCovering(rest, at)
  {
    assert ([x] + rest)[1..] == rest;
  }

  lemma {:induction false} FirstInClass(s: seq<Program>, le: (Program, Program) -> bool, at: Instant, p: Program)
    requires FirstCovering(s, at) == Some(p) && le(p, p)
    ensures FirstCovering(Class(s, p, le), at) == Some(p)
  {
    var rest := Class(s[1..], p, le);
    FirstCons(s[0], rest, at);
    if !Covers(s[0], at) {
      FirstInClass(s[1..], le, at, p);
      assert [] + rest == rest;
    }
  }

  lemma {:induction false} ClassSnoc(s: seq<Program>, le: (Program, Program) -> bool, x: Program, p: Program)
    ensures Class(s + [x], p, le) == Class(s, p, le) + if le(p, x) && le(x, p) then [x] else []
  {
    if s == [] {
      assert [x][1..] == [] && s + [x] == [x];
    } else {
      assert (s + [x])[1..] == s[1..] + [x];
      ClassSnoc(s[1..], le, x, p);
    }
  }

  lemma {:induction false} FirstSnoc(s: seq<Program>, x: Program, at: Instant)
    ensures FirstCovering(s + [x], at)
         == if FirstCovering(s, at).Some? then FirstCovering(s, at) else if Covers(x, at) then Some(x) else None
  {
    if s == [] {
      assert s + [x] == [x] + [];
      FirstCons(x, [], at);
    } else {
      assert s + [x] == [s[0]] + (s[1..] + [x]);
      FirstCons(s[0], s[1..] + [x], at);
      FirstSnoc(s[1..], x, at);
    }
  }

  /** A programme on the air before the m-th that started with it. */
  ghost predicate OnAirBefore(progs: seq<Program>, tvg: string, at: Instant, m: nat, n: int)
    requires m < |progs|
  {
    0 <= n < m && progs[n].tvg == tvg && Covers(progs[n], at) && progs[n].start == progs[m].start
  }

  lemma BucketClass(progs: seq<Program>, tvg: string, p: Program)
    requires progs != []
    ensures var front, last := progs[..|progs| - 1], progs[|progs| - 1];
      Class(Bucket(progs, tvg), p, StartsNoLater)
      == Class(Bucket(front, tvg), p, StartsNoLater) + if last.tvg == tvg && last.start == p.start then [last] else []
  {
    var last := progs[|progs| - 1];
    var front := Bucket(progs[..|progs| - 1], tvg);
    if last.tvg == tvg {
      ClassSnoc(front, StartsNoLater, last, p);
    } else {
      assert Bucket(progs, tvg) == front;
    }
  }

  lemma NoneBefore(progs: seq<Program>, tvg: string, at: Instant, m: nat)
    requires m < |progs|
    requires FirstCovering(Class(Bucket(progs[..m], tvg), progs[m], StartsNoLater), at).None?
    ensures forall n :: !OnAirBefore(progs, tvg, at, m, n)
  {
    var front := Bucket(progs[..m], tvg);
    ClassMember(front, progs[m], StartsNoLater);
    forall n | 0 <= n < m && progs[n].tvg == tvg ensures progs[n] in front {
      assert progs[..m][n] == progs[n];
      BucketHolds(progs[..m], tvg, n);
    }
  }

  lemma {:induction false} FirstInDocument(progs: seq<Program>, tvg: string, at: Instant, p: Program) returns (m: nat)
    requires FirstCovering(Class(Bucket(progs, tvg), p, StartsNoLater), at) == Some(p)
    ensures m < |progs| && progs[m] == p && forall n :: !OnAirBefore(progs, tvg, at, m, n)
    decreases |progs|
  {
    m := |progs| - 1;
    var front := progs[..m];
    var same := Class(Bucket(front, tvg), p, StartsNoLater);
    BucketClass(progs, tvg, p);
    assert same + [] == same;
    FirstSnoc(same, progs[m], at);
    if FirstCovering(same, at).Some? {
      m := FirstInDocument(front, tvg, at, p);
      forall n ensures !OnAirBefore(progs, tvg, at, m, n) {
        assert !OnAirBefore(front, tvg, at, m, n);
      }
    } else {
      NoneBefore(progs, tvg, at, m);
    }
  }

  lemma {:induction false} BucketHolds(progs: seq<Program>, tvg: string, n: nat)
    requires n < |progs| && progs[n].tvg == tvg
    ensures progs[n] in Bucket(progs, tvg)
  {
    if n < |progs| - 1 {
      assert progs[..|progs| - 1][n] == progs[n];
      BucketHolds(progs[..|progs| - 1], tvg, n);
    }
  }

  /** Of the programmes that started together it is the first of the document. */
  lemma CurrentTies(g: Loaded, norm: string -> string, progs: seq<Program>, id: string, at: Instant) returns (m: nat)
    requires IsGrouping(g.byTvg, progs) && Current(g, norm, id, at).Some?
    ensures m < |progs| && Current(g, norm, id, at) == Some(Entry(g.byId[id].id, progs[m]))
    ensures forall n :: !OnAirBefore(progs, progs[m].tvg, at, m, n)
  {
    var tvg := Resolve(g, norm, g.byId[id]);
    var p := FirstCovering(g.byTvg[tvg], at).value;
    FirstInClass(g.byTvg[tvg], StartsNoLater, at, p);
    SortCorrect(Bucket(progs, tvg), StartsNoLater);
    BucketMembers(g.byTvg, progs, tvg, p);
    m := FirstInDocument(progs, tvg, at, p);
  }

  /** After a reload CurrentProgram answers exactly when the guide has a programme
      on the air then, on the guide channel the channel resolves to; and it answers
      with the one that started first. */
  lemma CurrentExact(g: Loaded, norm: string -> string, progs: seq<Program>, id: string, at: Instant)
    requires IsGrouping(g.byTvg, progs)
    ensures match Current(g, norm, id, at)
            case Some(e) =>
              && id in g.byId && e.channel == g.byId[id].id && Resolve(g, norm, g.byId[id]) != ""
              && OnAir(progs, Resolve(g, norm, g.byId[id]), at, e.program)
              && forall q :: OnAir(progs, Resolve(g, norm, g.byId[id]), at, q) ==> e.program.start <= q.start
            case None =>
              id in g.byId && Resolve(g, norm, g.byId[id]) != "" ==>
                forall q :: !OnAir(progs, Resolve(g, norm, g.byId[id]), at, q)
  {
    if id in g.byId {
      FirstCoveringExact(g.byTvg, progs, Resolve(g, norm, g.byId[id]), at);
    }
  }
}
