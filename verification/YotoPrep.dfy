// Chapters to Yoto-legal tracks: subdivision and greedy merging
// (modules/nixos/services/yoto-share/yoto-prep.py). Seconds, bytes and rates are reals.

module YotoPrep {
  import opened Seqs

  const TRACK_SECONDS: real := 3480.0      // 58 minutes
  const TRACK_BYTES: real := 99614720.0    // 95 MiB
  const SLICE_SECONDS: real := 1800.0

  // A chapter entry as probed; its title has been stripped.
  datatype Chapter = Chapter(title: string, start: real, end: real)

  datatype Segment = Segment(title: string, start: real, end: real) {
    function Duration(): real { end - start }
  }

  const DURATION: Segment -> real := (s: Segment) => s.Duration()

  predicate Fits(duration: real, bytesPerSec: real) {
    duration <= TRACK_SECONDS && duration * bytesPerSec <= TRACK_BYTES
  }

  // Consecutive pieces that share their end points and cover [a, b].
  ghost predicate Tiles(pieces: seq<Segment>, a: real, b: real) {
    && pieces != []
    && pieces[0].start == a
    && pieces[|pieces| - 1].end == b
    && forall i | 0 < i < |pieces| :: pieces[i].start == pieces[i - 1].end
  }

  // ---- numbers in titles ----

  function Decimal(n: nat): string {
    (if n < 10 then "" else Decimal(n / 10)) + [("0123456789")[n % 10]]
  }

  function PartTitle(title: string, p: nat, parts: nat): string {
    title + " (Part " + Decimal(p + 1) + " of " + Decimal(parts) + ")"
  }

  // ---- the raw segments: kept chapters, or 30-minute slices ----

  function MinReal(a: real, b: real): real { if a <= b then a else b }

  function Clipped(ch: Chapter, position: nat, duration: real): Segment {
    Segment(if ch.title != "" then ch.title else "Chapter " + Decimal(position), ch.start, MinReal(ch.end, duration))
  }

  function KeptChapters(chapters: seq<Chapter>, duration: real): seq<Segment> {
    if chapters == [] then []
    else
      var n := |chapters|;
      var seg := Clipped(chapters[n - 1], n, duration);
      KeptChapters(chapters[..n - 1], duration) + if seg.Duration() < 1.0 then [] else [seg]
  }

  // What is kept of the first n chapters: in their order, exactly those that last a second once
  // clipped to the file.
  ghost predicate Keeps(chapters: seq<Chapter>, n: nat, duration: real, kept: seq<Segment>, origin: seq<nat>)
    requires n <= |chapters|
  {
    && |kept| == |origin| && (forall j, k | 0 <= j < k < |origin| :: origin[j] < origin[k])
    && (forall j | 0 <= j < |origin| ::
          && origin[j] < n && kept[j] == Clipped(chapters[origin[j]], origin[j] + 1, duration)
          && kept[j].Duration() >= 1.0)
    && (forall i: nat | i < n && Clipped(chapters[i], i + 1, duration).Duration() >= 1.0 :: i in origin)
  }

  lemma {:induction false} KeepShort(chapters: seq<Chapter>, n: nat, duration: real, kept: seq<Segment>,
                                     origin: seq<nat>)
    requires n < |chapters| && Keeps(chapters, n, duration, kept, origin)
    requires Clipped(chapters[n], n + 1, duration).Duration() < 1.0
    ensures Keeps(chapters, n + 1, duration, kept, origin)
  {
  }

  lemma {:induction false} KeepLong(chapters: seq<Chapter>, n: nat, duration: real, kept: seq<Segment>,
                                    origin: seq<nat>)
    requires n < |chapters| && Keeps(chapters, n, duration, kept, origin)
    requires Clipped(chapters[n], n + 1, duration).Duration() >= 1.0
    ensures Keeps(chapters, n + 1, duration, kept + [Clipped(chapters[n], n + 1, duration)], origin + [n])
  {
    var all := origin + [n];
    assert all[|origin|] == n;
    forall k: nat | k < n && Clipped(chapters[k], k + 1, duration).Duration() >= 1.0
      ensures k in all
    {
      assert k in origin;
    }
  }

  function SliceCount(duration: real): (n: nat)
    ensures n >= 1
  {
    var whole := (duration / SLICE_SECONDS).Floor;
    var n := whole + if whole as real == duration / SLICE_SECONDS then 0 else 1;
    if n >= 1 then n else 1
  }

  function Slice(i: nat, duration: real): Segment {
    var start := i as real * SLICE_SECONDS;
    Segment("Part " + Decimal(i + 1), start, MinReal(start + SLICE_SECONDS, duration))
  }

  function RawSegments(chapters: seq<Chapter>, duration: real): (raw: seq<Segment>)
    ensures raw != []
  {
    var kept := KeptChapters(chapters, duration);
    if kept != [] then kept else seq(SliceCount(duration), i requires i >= 0 => Slice(i, duration))
  }

  // Without a usable chapter the slices cover the whole file, and none is empty.
  lemma {:induction false} SlicesTile(chapters: seq<Chapter>, duration: real)
    requires duration > 0.0
    requires KeptChapters(chapters, duration) == []
    ensures Tiles(RawSegments(chapters, duration), 0.0, duration)
    ensures forall s | s in RawSegments(chapters, duration) :: 0.0 < s.Duration() <= SLICE_SECONDS
  {
    var n := SliceCount(duration);
    var q := duration / SLICE_SECONDS;
    assert q * SLICE_SECONDS == duration;
    assert (n - 1) as real < q <= n as real;
    var raw := RawSegments(chapters, duration);
    forall i | 0 <= i < n
      ensures raw[i].start == i as real * SLICE_SECONDS < duration
      ensures raw[i].end == if i == n - 1 then duration else (i + 1) as real * SLICE_SECONDS
    {
      assert i as real <= (n - 1) as real;
      assert raw[i] == Slice(i, duration);
      if i < n - 1 { assert (i + 1) as real <= (n - 1) as real; }
    }
  }

  lemma {:induction false} SecondsLong(chapters: seq<Chapter>, duration: real, kept: seq<Segment>, origin: seq<nat>)
    requires Keeps(chapters, |chapters|, duration, kept, origin)
    ensures forall s | s in kept :: s.Duration() >= 1.0 && s.end <= duration
  {
    forall s | s in kept
      ensures s.Duration() >= 1.0 && s.end <= duration
    {
      var j: nat :| j < |kept| && kept[j] == s;
      assert s == Clipped(chapters[origin[j]], origin[j] + 1, duration);
    }
  }

  lemma {:induction false} KeptAre(chapters: seq<Chapter>, duration: real, n: nat) returns (origin: seq<nat>)
    requires n <= |chapters|
    ensures Keeps(chapters, n, duration, KeptChapters(chapters[..n], duration), origin)
  {
    if n == 0 {
      return [];
    }
    origin := KeptAre(chapters, duration, n - 1);
    assert chapters[..n][..n - 1] == chapters[..n - 1];
    if Clipped(chapters[n - 1], n, duration).Duration() < 1.0 {
      KeepShort(chapters, n - 1, duration, KeptChapters(chapters[..n - 1], duration), origin);
    } else {
      KeepLong(chapters, n - 1, duration, KeptChapters(chapters[..n - 1], duration), origin);
      origin := origin + [n - 1];
    }
  }

  // Of a file of positive duration every raw segment is non-empty and within the file.
  lemma {:induction false} RawPositive(chapters: seq<Chapter>, duration: real)
    requires duration > 0.0
    ensures forall s | s in RawSegments(chapters, duration) :: s.Duration() > 0.0 && s.end <= duration
  {
    if KeptChapters(chapters, duration) == [] {
      SlicesTile(chapters, duration);
    } else {
      var origin := KeptAre(chapters, duration, |chapters|);
      assert chapters[..|chapters|] == chapters;
      SecondsLong(chapters, duration, KeptChapters(chapters, duration), origin);
    }
  }

  // ---- subdividing one segment ----

  ghost predicate PartsFit(duration: real, parts: int, bytesPerSec: real)
    requires parts >= 1
  {
    Fits(duration / parts as real, bytesPerSec)
  }

  // The even division of a segment into the fewest parts that meet both track limits.
  ghost predicate EvenDivision(seg: Segment, pieces: seq<Segment>, bytesPerSec: real) {
    var n := |pieces|;
    && Tiles(pieces, seg.start, seg.end)
    && PartsFit(seg.Duration(), n, bytesPerSec)
    && (forall k | 1 <= k < n :: !PartsFit(seg.Duration(), k, bytesPerSec))
    && (forall p | 0 <= p < n :: pieces[p].Duration() == seg.Duration() / n as real)
    && (forall p | 0 <= p < n :: pieces[p].title == if n == 1 then seg.title else PartTitle(seg.title, p, n))
  }

  lemma {:induction false} QuotientTimes(d: real, k: int, r: real)
    requires k >= 1
    ensures d / k as real * r == (d * r) / k as real
  {
  }

  lemma {:induction false} MulMono(x: real, y: real, m: real)
    requires x <= y && m >= 0.0
    ensures x * m <= y * m
  {
  }

  // Enough parts: from this count on, both limits hold.
  ghost function Ceiling(x: real): nat {
    if x < 0.0 then 0 else x.Floor + 1
  }

  lemma {:induction false} CeilingCovers(d: real, limit: real, k: int)
    requires limit > 0.0 && k >= 1 && k >= Ceiling(d / limit)
    ensures d / k as real <= limit
  {
    var x := d / limit;
    assert x * limit == d;
    MulMono(x, k as real, limit);
  }

  ghost function EnoughParts(duration: real, bytesPerSec: real): nat {
    1 + Ceiling(duration / TRACK_SECONDS) + Ceiling(duration * bytesPerSec / TRACK_BYTES)
  }

  lemma {:induction false} EnoughPartsFit(duration: real, bytesPerSec: real, k: int)
    requires k >= EnoughParts(duration, bytesPerSec)
    ensures PartsFit(duration, k, bytesPerSec)
  {
    CeilingCovers(duration, TRACK_SECONDS, k);
    CeilingCovers(duration * bytesPerSec, TRACK_BYTES, k);
    QuotientTimes(duration, k, bytesPerSec);
  }

  method CountParts(duration: real, bytesPerSec: real) returns (parts: nat)
    ensures parts >= 1 && PartsFit(duration, parts, bytesPerSec)
    ensures forall k | 1 <= k < parts :: !PartsFit(duration, k, bytesPerSec)
  {
    parts := 1;
    ghost var enough: int := EnoughParts(duration, bytesPerSec);
    while duration / parts as real > TRACK_SECONDS || duration / parts as real * bytesPerSec > TRACK_BYTES
      invariant parts >= 1
      invariant forall k | 1 <= k < parts :: !PartsFit(duration, k, bytesPerSec)
      decreases enough - parts
    {
      if parts >= enough { EnoughPartsFit(duration, bytesPerSec, parts); }
      parts := parts + 1;
    }
  }

  lemma {:induction false} TimesParts(d: real, parts: nat, step: real)
    requires parts >= 1 && step == d / parts as real
    ensures Times(parts, step) == d
  {
    TimesIsProduct(parts, step);
  }

  method CutEvenly(seg: Segment, parts: nat, step: real) returns (pieces: seq<Segment>)
    requires parts >= 2 && Times(parts, step) == seg.Duration()
    ensures |pieces| == parts && Tiles(pieces, seg.start, seg.end)
    ensures forall p | 0 <= p < parts :: pieces[p].Duration() == step
    ensures forall p | 0 <= p < parts :: pieces[p].title == PartTitle(seg.title, p, parts)
  {
    pieces := [];
    for p := 0 to parts
      invariant |pieces| == p
      invariant p == 0 || Tiles(pieces, seg.start, seg.start + Times(p, step))
      invariant forall i | 0 <= i < p :: pieces[i].Duration() == step
      invariant forall i | 0 <= i < p :: pieces[i].title == PartTitle(seg.title, i, parts)
    {
      var start := seg.start + Times(p, step);
      var end := if p < parts - 1 then seg.start + Times(p + 1, step) else seg.end;
      pieces := pieces + [Segment(PartTitle(seg.title, p, parts), start, end)];
    }
  }

  method Subdivide(seg: Segment, bytesPerSec: real) returns (pieces: seq<Segment>)
    ensures EvenDivision(seg, pieces, bytesPerSec)
  {
    var parts := CountParts(seg.Duration(), bytesPerSec);
    var step := seg.Duration() / parts as real;
    TimesParts(seg.Duration(), parts, step);
    if parts == 1 {
      pieces := [seg];
    } else {
      pieces := CutEvenly(seg, parts, step);
    }
  }

  method KeepChapters(chapters: seq<Chapter>, duration: real) returns (segments: seq<Segment>, ghost origin: seq<nat>)
    ensures segments == KeptChapters(chapters, duration)
    ensures Keeps(chapters, |chapters|, duration, segments, origin)
  {
    segments, origin := [], [];
    for i := 0 to |chapters|
      invariant segments == KeptChapters(chapters[..i], duration)
      invariant Keeps(chapters, i, duration, segments, origin)
    {
      assert chapters[..i + 1][..i] == chapters[..i];
      var ch := chapters[i];
      var end := MinReal(ch.end, duration);
      var seg := Segment(if ch.title != "" then ch.title else "Chapter " + Decimal(i + 1), ch.start, end);
      assert seg == Clipped(ch, i + 1, duration);
      if end - ch.start < 1.0 {
        KeepShort(chapters, i, duration, segments, origin);
        continue;
      }
      KeepLong(chapters, i, duration, segments, origin);
      segments, origin := segments + [seg], origin + [i];
    }
    assert chapters[..|chapters|] == chapters;
  }

  method CollectRaw(chapters: seq<Chapter>, duration: real) returns (segments: seq<Segment>, ghost origin: seq<nat>)
    ensures segments == RawSegments(chapters, duration)
    ensures Keeps(chapters, |chapters|, duration, if origin == [] then [] else segments, origin)
  {
    segments, origin := KeepChapters(chapters, duration);
    if segments == [] {
      for i := 0 to SliceCount(duration)
        invariant segments == seq(i, k requires k >= 0 => Slice(k, duration))
      {
        segments := segments + [Slice(i, duration)];
      }
    }
  }

  // The divisions of all raw segments, one group of tracks each.
  ghost predicate Divided(raw: seq<Segment>, groups: seq<seq<Segment>>, bytesPerSec: real) {
    |groups| == |raw| && forall i | 0 <= i < |groups| :: EvenDivision(raw[i], groups[i], bytesPerSec)
  }

  lemma {:induction false} DivideNext(raw: seq<Segment>, groups: seq<seq<Segment>>, pieces: seq<Segment>, i: nat,
                                      bytesPerSec: real)
    requires i < |raw| && Divided(raw[..i], groups, bytesPerSec) && EvenDivision(raw[i], pieces, bytesPerSec)
    ensures Divided(raw[..i + 1], groups + [pieces], bytesPerSec)
    ensures Flatten(groups + [pieces]) == Flatten(groups) + pieces
  {
    var next := groups + [pieces];
    assert next[..i] == groups;
    forall k | 0 <= k <= i ensures EvenDivision(raw[..i + 1][k], next[k], bytesPerSec) {
      if k < i { assert next[k] == groups[k] && raw[..i][k] == raw[k]; }
    }
  }

  method SubdivideAll(raw: seq<Segment>, bytesPerSec: real) returns (out: seq<Segment>, ghost groups: seq<seq<Segment>>)
    ensures Divided(raw, groups, bytesPerSec) && out == Flatten(groups)
  {
    out, groups := [], [];
    for i := 0 to |raw|
      invariant Divided(raw[..i], groups, bytesPerSec)
      invariant out == Flatten(groups)
    {
      var pieces := Subdivide(raw[i], bytesPerSec);
      DivideNext(raw, groups, pieces, i, bytesPerSec);
      out, groups := out + pieces, groups + [pieces];
    }
    assert raw[..|raw|] == raw;
  }

  method BuildSegments(chapters: seq<Chapter>, duration: real, bytesPerSec: real)
    returns (out: seq<Segment>, ghost groups: seq<seq<Segment>>)
    ensures Divided(RawSegments(chapters, duration), groups, bytesPerSec)
    ensures out == Flatten(groups)
  {
    var segments, origin := CollectRaw(chapters, duration);
    out, groups := SubdivideAll(segments, bytesPerSec);
  }

  // ---- what a division promises ----

  lemma {:induction false} TilesDuration(pieces: seq<Segment>, a: real, b: real)
    requires Tiles(pieces, a, b)
    ensures Sum(DURATION, pieces) == b - a
  {
    var n := |pieces|;
    if n == 1 {
      assert pieces[..0] == [];
    } else {
      TilesDuration(pieces[..n - 1], a, pieces[n - 2].end);
    }
  }

  lemma {:induction false} ScaledQuotient(total: real, rate: real, k: int, bytes: real, limit: real)
    requires k >= 1 && bytes == total * rate && bytes / k as real <= limit
    ensures total / k as real * rate <= limit
  {
    QuotientTimes(total, k, rate);
  }

  lemma {:induction false} AverageBytes(other: seq<Segment>, bytesPerSec: real)
    requires other != []
    requires forall s | s in other :: s.Duration() * bytesPerSec <= TRACK_BYTES
    ensures Sum(DURATION, other) / |other| as real * bytesPerSec <= TRACK_BYTES
  {
    var bytes := (s: Segment) => s.Duration() * bytesPerSec;
    SumScaled(other, bytesPerSec, bytes);
    AverageBound(bytes, other, TRACK_BYTES);
    ScaledQuotient(Sum(DURATION, other), bytesPerSec, |other|, Sum(bytes, other), TRACK_BYTES);
  }

  // If k pieces are all legal, so is one k-th of their total.
  lemma {:induction false} AverageFits(other: seq<Segment>, bytesPerSec: real)
    requires other != []
    requires forall s | s in other :: Fits(s.Duration(), bytesPerSec)
    ensures PartsFit(Sum(DURATION, other), |other|, bytesPerSec)
  {
    assert Sum(DURATION, other) / |other| as real <= TRACK_SECONDS by {
      AverageBound(DURATION, other, TRACK_SECONDS);
    }
    AverageBytes(other, bytesPerSec);
  }

  // No division of the segment into legal tracks, even or not, uses fewer pieces.
  lemma {:induction false} FewestParts(seg: Segment, pieces: seq<Segment>, other: seq<Segment>, bytesPerSec: real)
    requires EvenDivision(seg, pieces, bytesPerSec)
    requires Tiles(other, seg.start, seg.end)
    requires forall s | s in other :: Fits(s.Duration(), bytesPerSec)
    ensures |pieces| <= |other|
  {
    TilesDuration(other, seg.start, seg.end);
    AverageFits(other, bytesPerSec);
  }

  lemma {:induction false} SumScaled(xs: seq<Segment>, rate: real, bytes: Segment -> real)
    requires forall s :: bytes(s) == s.Duration() * rate
    ensures Sum(bytes, xs) == Sum(DURATION, xs) * rate
  {
    if xs != [] {
      SumScaled(xs[..|xs| - 1], rate, bytes);
    }
  }

  // Building tracks conserves the duration of every raw segment.
  lemma {:induction false} BuildConserves(raw: seq<Segment>, groups: seq<seq<Segment>>, bytesPerSec: real)
    requires Divided(raw, groups, bytesPerSec)
    ensures Sum(DURATION, Flatten(groups)) == Sum(DURATION, raw)
  {
    if raw != [] {
      var n := |raw| - 1;
      BuildConserves(raw[..n], groups[..n], bytesPerSec);
      TilesDuration(groups[n], raw[n].start, raw[n].end);
      SumConcat(DURATION, Flatten(groups[..n]), groups[n]);
    }
  }

  // Every track built meets both limits.
  lemma {:induction false} BuildFits(raw: seq<Segment>, groups: seq<seq<Segment>>, bytesPerSec: real)
    requires Divided(raw, groups, bytesPerSec)
    ensures forall s | s in Flatten(groups) :: Fits(s.Duration(), bytesPerSec)
  {
    forall s | s in Flatten(groups) ensures Fits(s.Duration(), bytesPerSec) {
      var i := InFlatten(groups, s);
      assert EvenDivision(raw[i], groups[i], bytesPerSec);
    }
  }

  // No track of a file of positive duration is empty.
  lemma {:induction false} BuildPositive(chapters: seq<Chapter>, duration: real, groups: seq<seq<Segment>>,
                                         bytesPerSec: real)
    requires duration > 0.0 && Divided(RawSegments(chapters, duration), groups, bytesPerSec)
    ensures forall s | s in Flatten(groups) :: s.Duration() > 0.0
  {
    var raw := RawSegments(chapters, duration);
    RawPositive(chapters, duration);
    forall s | s in Flatten(groups) ensures s.Duration() > 0.0 {
      var i := InFlatten(groups, s);
      assert EvenDivision(raw[i], groups[i], bytesPerSec);
      assert raw[i] in raw;
      QuotientPositive(raw[i].Duration(), |groups[i]|);
    }
  }

  lemma {:induction false} QuotientPositive(d: real, k: int)
    requires d > 0.0 && k >= 1
    ensures d / k as real > 0.0
  {
  }

  lemma {:induction false} TilesConcat(left: seq<Segment>, right: seq<Segment>, a: real, m: real, b: real)
    requires Tiles(left, a, m) && Tiles(right, m, b)
    ensures Tiles(left + right, a, b)
  {
  }

  // If the raw segments tile the file, so do the tracks.
  lemma {:induction false} BuildTiles(raw: seq<Segment>, groups: seq<seq<Segment>>, bytesPerSec: real, a: real, b: real)
    requires Divided(raw, groups, bytesPerSec) && Tiles(raw, a, b)
    ensures Tiles(Flatten(groups), a, b)
  {
    var n := |raw| - 1;
    assert Tiles(groups[n], raw[n].start, raw[n].end);
    if n == 0 {
      assert Flatten(groups[..0]) == [];
    } else {
      BuildTiles(raw[..n], groups[..n], bytesPerSec, a, raw[n - 1].end);
      TilesConcat(Flatten(groups[..n]), groups[n], a, raw[n].start, b);
    }
  }
}
