/** The adaptive-bitrate ladder (internal/transcode/abr.go). */
module Abr {
  import opened Text

  datatype Rendition = Rendition(name: string, height: int, width: int, videoKbps: int, audioKbps: int, bandwidth: int)

  const AUTO := Rendition("auto", 0, 0, 0, 128, 3_000_000)

  const LADDER: seq<int> := [1080, 720, 480, 360]

  function VideoKbpsFor(height: int): int {
    if height >= 1080 then 5000
    else if height >= 720 then 2800
    else if height >= 480 then 1400
    else if height >= 360 then 800
    else 500
  }

  function AudioKbpsFor(height: int): int {
    if height >= 1080 then 160 else if height >= 480 then 128 else 96
  }

  /** `w &^ 1` for a number that is not negative. */
  function ClearLowBit(w: nat): nat { w - w % 2 }

  function EvenWidth(srcW: int, srcH: int, targetH: int): int
    requires targetH >= 0
  {
    if srcW <= 0 || srcH <= 0 then 0
    else
      QuotientNatural(srcW, targetH, srcH);
      ClearLowBit(srcW * targetH / srcH + 1)
  }

  lemma QuotientNatural(a: nat, b: nat, c: int)
    requires c > 0
    ensures a * b / c >= 0
  {
  }

  /** The standard rungs below `height`, highest first. */
  function Below(rungs: seq<int>, height: int): seq<int> {
    if rungs == [] then []
    else
      var n := |rungs| - 1;
      Below(rungs[..n], height) + if rungs[n] < height then [rungs[n]] else []
  }

  function Heights(height: int): (hs: seq<int>)
    requires height > 0
    ensures 1 <= |hs| <= 4
  {
    var hs := [height] + Below(LADDER, height);
    if |hs| > 4 then hs[..4] else hs
  }

  function Rung(width: int, height: int, bitrate: int, h: int): Rendition
    requires h >= 0
  {
    var cap := bitrate / 1000;
    var vk := if bitrate > 0 && h == height && 0 < cap < VideoKbpsFor(h) then cap else VideoKbpsFor(h);
    var ak := AudioKbpsFor(h);
    Rendition(Itoa(h), h, EvenWidth(width, height, h), vk, ak, (vk + ak) * 1100)
  }

  function Rungs(width: int, height: int, bitrate: int, hs: seq<int>): (rs: seq<Rendition>)
    requires forall i :: 0 <= i < |hs| ==> hs[i] >= 0
    ensures |rs| == |hs| && forall i :: 0 <= i < |hs| ==> rs[i] == Rung(width, height, bitrate, hs[i])
  {
    seq(|hs|, i requires 0 <= i < |hs| => Rung(width, height, bitrate, hs[i]))
  }

  function Ladder(width: int, height: int, bitrate: int): (rs: seq<Rendition>) {
    if height <= 0 then [AUTO.(bandwidth := if bitrate > AUTO.bandwidth then bitrate else AUTO.bandwidth)]
    else
      HeightsDescend(height);
      Rungs(width, height, bitrate, Heights(height))
  }

  /** SelectRenditions' target heights. */
  method TargetHeights(height: int) returns (heights: seq<int>)
    requires height > 0
    ensures heights == Heights(height)
  {
    heights := [height];
    for i := 0 to |LADDER|
      invariant heights == [height] + Below(LADDER[..i], height)
    {
      assert LADDER[..i + 1] == LADDER[..i] + [LADDER[i]];
      BelowSnoc(LADDER[..i], LADDER[i], height);
      if LADDER[i] < height {
        heights := heights + [LADDER[i]];
      }
    }
    assert LADDER[..|LADDER|] == LADDER;
    if |heights| > 4 {
      heights := heights[..4];
    }
  }

  method MakeRung(width: int, height: int, bitrate: int, h: int) returns (rd: Rendition)
    requires h >= 0
    ensures rd == Rung(width, height, bitrate, h)
  {
    var vk := VideoKbpsFor(h);
    if bitrate > 0 && h == height {
      var srcKbps := bitrate / 1000;
      if srcKbps > 0 && srcKbps < vk {
        vk := srcKbps;
      }
    }
    var ak := AudioKbpsFor(h);
    rd := Rendition(Itoa(h), h, EvenWidth(width, height, h), vk, ak, (vk + ak) * 1100);
  }

  method SelectRenditions(width: int, height: int, bitrate: int) returns (out: seq<Rendition>)
    ensures out == Ladder(width, height, bitrate)
  {
    if height <= 0 {
      var auto := AUTO;
      if bitrate > auto.bandwidth {
        auto := auto.(bandwidth := bitrate);
      }
      return [auto];
    }
    HeightsDescend(height);
    var heights := TargetHeights(height);
    out := MakeRungs(width, height, bitrate, heights);
  }

  /** SelectRenditions' second loop. */
  method MakeRungs(width: int, height: int, bitrate: int, heights: seq<int>) returns (out: seq<Rendition>)
    requires forall i :: 0 <= i < |heights| ==> heights[i] >= 0
    ensures out == Rungs(width, height, bitrate, heights)
  {
    out := [];
    for i := 0 to |heights|
      invariant out == Rungs(width, height, bitrate, heights)[..i]
    {
      var rd := MakeRung(width, height, bitrate, heights[i]);
      out := out + [rd];
    }
  }

  lemma BelowSnoc(rungs: seq<int>, rung: int, height: int)
    ensures Below(rungs + [rung], height) == Below(rungs, height) + if rung < height then [rung] else []
  {
    assert (rungs + [rung])[..|rungs|] == rungs;
  }

  ghost predicate Descends(hs: seq<int>, top: int) {
    && (forall i :: 0 <= i < |hs| ==> 0 < hs[i] < top && hs[i] in LADDER)
    && forall i, j :: 0 <= i < j < |hs| ==> hs[j] < hs[i]
  }

  lemma {:induction false} BelowDescends(rungs: seq<int>, height: int)
    requires forall i :: 0 <= i < |rungs| ==> rungs[i] > 0 && rungs[i] in LADDER
    requires forall i, j :: 0 <= i < j < |rungs| ==> rungs[j] < rungs[i]
    ensures Descends(Below(rungs, height), height)
    ensures forall x :: x in Below(rungs, height) ==> x in rungs
  {
    if rungs != [] {
      var n := |rungs| - 1;
      BelowDescends(rungs[..n], height);
      assert rungs == rungs[..n] + [rungs[n]];
      var front := Below(rungs[..n], height);
      forall i | 0 <= i < |front| ensures front[i] > rungs[n] {
        assert front[i] in rungs[..n];
      }
    }
  }

  /** The rungs go strictly down from the source height. */
  lemma HeightsDescend(height: int)
    requires height > 0
    ensures var hs := Heights(height);
      hs[0] == height && Descends(hs[1..], height)
    ensures var hs := Heights(height);
      && (forall i :: 0 <= i < |hs| ==> 0 < hs[i] <= height)
      && forall i, j :: 0 <= i < j < |hs| ==> hs[j] < hs[i]
  {
    var below, hs := Below(LADDER, height), Heights(height);
    BelowDescends(LADDER, height);
    assert forall i :: 0 <= i < |hs[1..]| ==> hs[1..][i] == below[i];
    assert forall i :: 0 < i < |hs| ==> hs[i] == hs[1..][i - 1];
  }

  /** The first rendition of that name. */
  method FindRendition(rs: seq<Rendition>, name: string) returns (found: bool, rd: Rendition)
    ensures found <==> exists i :: 0 <= i < |rs| && rs[i].name == name
    ensures found ==> exists i :: 0 <= i < |rs| && rs[i] == rd && rd.name == name
                                  && forall j :: 0 <= j < i ==> rs[j].name != name
  {
    for i := 0 to |rs|
      invariant forall j :: 0 <= j < i ==> rs[j].name != name
    {
      if rs[i].name == name {
        return true, rs[i];
      }
    }
    return false, Rendition("", 0, 0, 0, 0, 0);
  }

  /** Every ladder: at most four renditions, heights strictly decreasing from the
      source's own and so never upscaled, each the only one of its name. */
  lemma LadderNamesApart(width: int, height: int, bitrate: int, i: nat, j: nat)
    requires i < |Ladder(width, height, bitrate)| && j < |Ladder(width, height, bitrate)|
    ensures var rs := Ladder(width, height, bitrate);
      && (rs[i].name == rs[j].name <==> i == j)
      && (i < j ==> rs[j].height < rs[i].height)
      && (height > 0 ==> rs[0].height == height && rs[i].height <= height)
      && |rs| <= 4
  {
    if height > 0 {
      HeightsDescend(height);
      var hs := Heights(height);
      if Itoa(hs[i]) == Itoa(hs[j]) {
        ItoaInjective(hs[i], hs[j]);
      }
    }
  }

  /** The advertised width is even, within one pixel of the source's proportions, and
      no wider than the source made even. */
  lemma WidthFits(srcW: int, srcH: int, h: int)
    requires srcW > 0 && 0 < h <= srcH
    ensures var w := EvenWidth(srcW, srcH, h);
      && w % 2 == 0 && w <= srcW + srcW % 2
      && w * srcH - srcH <= srcW * h < w * srcH + srcH
  {
    var q := srcW * h / srcH;
    var m := srcW * h % srcH;
    var w := EvenWidth(srcW, srcH, h);
    QuotientNatural(srcW, h, srcH);
    assert srcW * h == q * srcH + m && 0 <= m < srcH;
    assert w == q || w == q + 1;
    if w == q + 1 {
      assert w * srcH == q * srcH + srcH;
    }
    if q > srcW {
      Exceeds(srcW, srcH, h, q);
    }
  }

  lemma Exceeds(srcW: int, srcH: int, h: int, q: int)
    requires 0 < srcW < q && 0 < h <= srcH
    ensures q * srcH > srcW * h
  {
    Mono(srcW + 1, q, srcH);
    Mono(h, srcH, srcW);
    assert (srcW + 1) * srcH == srcW * srcH + srcH;
  }

  lemma Mono(a: int, b: int, c: int)
    requires a <= b && c >= 0
    ensures a * c <= b * c
  {
  }

  lemma RungCapped(width: int, height: int, bitrate: int, h: nat)
    ensures var rd := Rung(width, height, bitrate, h);
      && 0 < rd.videoKbps <= VideoKbpsFor(h)
      && (h == height && bitrate >= 1000 ==> rd.videoKbps * 1000 <= bitrate)
      && (h != height ==> rd.videoKbps == VideoKbpsFor(h))
  {
    var cap := bitrate / 1000;
    assert bitrate >= 1000 ==> cap >= 1 && cap * 1000 <= bitrate;
  }

  /** No rung asks for more than its table entry, and the top one not for more than
      the source has (when that is a whole kilobit at least). */
  lemma TopRungCapped(width: int, height: int, bitrate: int, i: nat)
    requires height > 0 && i < |Ladder(width, height, bitrate)|
    ensures var rd := Ladder(width, height, bitrate)[i];
      && 0 < rd.videoKbps <= VideoKbpsFor(rd.height)
      && (i == 0 && bitrate >= 1000 ==> rd.videoKbps * 1000 <= bitrate)
      && (i > 0 ==> rd.videoKbps == VideoKbpsFor(rd.height))
  {
    HeightsDescend(height);
    RungCapped(width, height, bitrate, Heights(height)[i]);
  }

  // -------------------------------------------------------- the ladder, in numbers

  /** The heights offered for a source: its own, and the standard ones below it, of which
      at most three. */
  function Offered(height: int): seq<int> {
    if height > 1080 then [height, 1080, 720, 480]
    else if height > 720 then [height, 720, 480, 360]
    else if height > 480 then [height, 480, 360]
    else if height > 360 then [height, 360]
    else [height]
  }

  function OneBelow(rung: int, height: int): seq<int> { if rung < height then [rung] else [] }

  lemma BelowFour(a: int, b: int, c: int, d: int, height: int)
    ensures Below([a, b, c, d], height)
         == OneBelow(a, height) + OneBelow(b, height) + OneBelow(c, height) + OneBelow(d, height)
  {
    BelowSnoc([], a, height);
    BelowSnoc([a], b, height);
    BelowSnoc([a, b], c, height);
    BelowSnoc([a, b, c], d, height);
    assert [] + [a] == [a] && [a] + [b] == [a, b] && [a, b] + [c] == [a, b, c] && [a, b, c] + [d] == [a, b, c, d];
  }

  lemma HeightsOffered(height: int)
    requires height > 0
    ensures Heights(height) == Offered(height)
  {
    BelowFour(LADDER[0], LADDER[1], LADDER[2], LADDER[3], height);
    assert LADDER == [LADDER[0], LADDER[1], LADDER[2], LADDER[3]];
  }

  /** The table's bitrate, or the source's `cap` where there is one and it is lower. */
  function Capped(cap: int, table: int): int { if 0 < cap < table then cap else table }

  /** The bitrates, in kbit/s, for video and sound at a height. */
  predicate Rates(h: int, cap: int, video: int, audio: int) {
    && (h >= 1080 ==> video == Capped(cap, 5000) && audio == 160)
    && (720 <= h < 1080 ==> video == Capped(cap, 2800) && audio == 128)
    && (480 <= h < 720 ==> video == Capped(cap, 1400) && audio == 128)
    && (360 <= h < 480 ==> video == Capped(cap, 800) && audio == 96)
    && (h < 360 ==> video == Capped(cap, 500) && audio == 96)
  }

  /** A rung is named by its height, has the height's bitrates, and asks for a tenth more
      than both for the container. */
  predicate RungSays(rd: Rendition, width: int, h: int, cap: int) {
    && rd.height == h && rd.name == Itoa(h) && rd.bandwidth == (rd.videoKbps + rd.audioKbps) * 1100
    && Rates(h, cap, rd.videoKbps, rd.audioKbps)
    && (width <= 0 ==> rd.width == 0)
  }

  lemma RungExact(width: int, height: int, bitrate: int, h: nat)
    ensures RungSays(Rung(width, height, bitrate, h), width, h, if h == height && bitrate > 0 then bitrate / 1000 else 0)
  {
  }

  /** The whole ladder: without a known height the automatic rendition alone; else a rung
      for each height offered, the top one at no more than the source's bitrate. */
  lemma LadderExact(width: int, height: int, bitrate: int)
    ensures var rs := Ladder(width, height, bitrate);
      if height <= 0 then
        rs == [Rendition("auto", 0, 0, 0, 128, if bitrate > 3_000_000 then bitrate else 3_000_000)]
      else
        && |rs| == |Offered(height)|
        && forall i :: 0 <= i < |rs| ==>
             RungSays(rs[i], width, Offered(height)[i], if i == 0 && bitrate > 0 then bitrate / 1000 else 0)
  {
    if height > 0 {
      HeightsDescend(height);
      HeightsOffered(height);
      var hs := Heights(height);
      forall i | 0 <= i < |hs|
        ensures RungSays(Rung(width, height, bitrate, hs[i]), width, hs[i],
                         if i == 0 && bitrate > 0 then bitrate / 1000 else 0)
      {
        RungExact(width, height, bitrate, hs[i]);
      }
    }
  }
}
