// Planning a book's cards from several sources with their own byte rates
// (plan_book in modules/nixos/services/yoto-share/server.py).

module YotoServer {
  import opened Seqs
  import opened YotoPrep
  import C = YotoCards

  // Decimal megabytes, tighter than the command-line limits.
  const TRACK_LIMIT: real := 95000000.0
  const CARD_LIMIT: real := 490000000.0
  const CARD_SPAN: real := 17990.0         // CARD_SECONDS - 10

  // One probed audio file; title is its title tag, or the file stem.
  datatype Source = Source(title: string, duration: real, size: nat, passthrough: bool, chapters: seq<Chapter>)

  datatype Track = Track(source: nat, segment: Segment, estimatedBytes: real) {
    function Duration(): real { segment.Duration() }
  }

  datatype Plan = Cards(cards: seq<seq<Track>>) | InvalidDuration

  const SECONDS: Track -> real := (t: Track) => t.Duration()
  const BYTES: Track -> real := (t: Track) => t.estimatedBytes

  // A source with its byte rate, and the rate scaled so that the splitter's binary track limit
  // means the decimal one.
  datatype Rated = Rated(source: Source, rate: real, scaled: real)

  ghost predicate RatedFrom(r: Rated, s: Source) {
    && r.source == s && s.duration > 0.0
    && r.rate == (if s.passthrough then s.size as real / s.duration else 16000.0)
    && r.scaled == r.rate * TRACK_BYTES / TRACK_LIMIT
  }

  function PlannedChapters(s: Source, music: bool, several: bool): seq<Chapter> {
    if music || (s.chapters == [] && several) then [Chapter(s.title, 0.0, s.duration)] else s.chapters
  }

  predicate TrackLegal(t: Track) {
    t.Duration() <= TRACK_SECONDS && t.estimatedBytes <= TRACK_LIMIT
  }

  predicate CardLegal(c: seq<Track>) {
    |c| <= C.CARD_TRACKS && Sum(SECONDS, c) <= CARD_SPAN && Sum(BYTES, c) <= CARD_LIMIT
  }

  const FITS: seq<Track> -> bool := (c: seq<Track>) => CardLegal(c)

  function Estimated(i: nat, seg: Segment, rate: real): Track {
    Track(i, seg, seg.Duration() * rate)
  }

  // The tracks of file i: its divided segments in order, with bytes at the file's own rate.
  ghost predicate TracksAt(chapters: seq<Chapter>, duration: real, i: nat, rate: real, scaled: real,
                           tracks: seq<Track>, groups: seq<seq<Segment>>) {
    && Divided(RawSegments(chapters, duration), groups, scaled)
    && |tracks| == |Flatten(groups)|
    && forall k | 0 <= k < |tracks| :: tracks[k] == Estimated(i, Flatten(groups)[k], rate)
  }

  ghost predicate TracksOf(r: Rated, i: nat, music: bool, several: bool, tracks: seq<Track>,
                           groups: seq<seq<Segment>>)
  {
    TracksAt(PlannedChapters(r.source, music, several), r.source.duration, i, r.rate, r.scaled, tracks, groups)
  }

  method Estimate(i: nat, segments: seq<Segment>, rate: real) returns (tracks: seq<Track>)
    ensures |tracks| == |segments|
    ensures forall k | 0 <= k < |tracks| :: tracks[k] == Estimated(i, segments[k], rate)
  {
    tracks := [];
    for k := 0 to |segments|
      invariant |tracks| == k
      invariant forall j | 0 <= j < k :: tracks[j] == Estimated(i, segments[j], rate)
    {
      tracks := tracks + [Estimated(i, segments[k], rate)];
    }
  }

  method SourceTracks(r: Rated, i: nat, music: bool, several: bool)
    returns (tracks: seq<Track>, ghost groups: seq<seq<Segment>>)
    ensures TracksOf(r, i, music, several, tracks, groups)
  {
    var segments;
    segments, groups := BuildSegments(PlannedChapters(r.source, music, several), r.source.duration, r.scaled);
    tracks := Estimate(i, segments, r.rate);
  }

  // Legal at the scaled rate means within 95 decimal megabytes at the real rate.
  lemma {:induction false} ScaledFit(d: real, rate: real)
    requires d * (rate * TRACK_BYTES / TRACK_LIMIT) <= TRACK_BYTES
    ensures d * rate <= TRACK_LIMIT
  {
    var x := d * rate;
    assert d * (rate * TRACK_BYTES / TRACK_LIMIT) == x * TRACK_BYTES / TRACK_LIMIT;
  }

  lemma {:induction false} EstimatedLegal(i: nat, seg: Segment, rate: real, scaled: real)
    requires Fits(seg.Duration(), scaled) && scaled == rate * TRACK_BYTES / TRACK_LIMIT
    ensures TrackLegal(Estimated(i, seg, rate))
  {
    ScaledFit(seg.Duration(), rate);
  }

  lemma {:induction false} TrackAtFits(chapters: seq<Chapter>, duration: real, i: nat, rate: real, scaled: real,
                                       tracks: seq<Track>, groups: seq<seq<Segment>>, k: nat)
    requires TracksAt(chapters, duration, i, rate, scaled, tracks, groups) && k < |tracks|
    ensures Fits(tracks[k].Duration(), scaled) && tracks[k] == Estimated(i, tracks[k].segment, rate)
  {
    BuildFits(RawSegments(chapters, duration), groups, scaled);
    assert Flatten(groups)[k] in Flatten(groups);
  }

  lemma {:induction false} TrackFits(r: Rated, i: nat, music: bool, several: bool, tracks: seq<Track>,
                                     groups: seq<seq<Segment>>, t: Track)
    requires TracksOf(r, i, music, several, tracks, groups) && t in tracks
    ensures Fits(t.Duration(), r.scaled) && t == Estimated(i, t.segment, r.rate)
  {
    var k :| 0 <= k < |tracks| && tracks[k] == t;
    TrackAtFits(PlannedChapters(r.source, music, several), r.source.duration, i, r.rate, r.scaled, tracks, groups, k);
  }

  lemma {:induction false} TrackIsLegal(r: Rated, i: nat, t: Track)
    requires Fits(t.Duration(), r.scaled) && t == Estimated(i, t.segment, r.rate)
    requires r.scaled == r.rate * TRACK_BYTES / TRACK_LIMIT
    ensures TrackLegal(t)
  {
    EstimatedLegal(i, t.segment, r.rate, r.scaled);
  }

  // ---- the whole book ----

  predicate Several(sources: seq<Rated>) { |sources| > 1 }

  // What it takes to be the tracks of source i.
  ghost function OfSource(rated: seq<Rated>, music: bool): (nat, seq<Track>, seq<seq<Segment>>) -> bool {
    (i: nat, tracks, groups) => i < |rated| && TracksOf(rated[i], i, music, Several(rated), tracks, groups)
  }

  // The tracks of the first k sources, in order, with the divisions they come from.
  ghost predicate BookTracks(rated: seq<Rated>, music: bool, k: nat, parts: seq<seq<Track>>,
                             divisions: seq<seq<seq<Segment>>>)
  {
    |parts| == |divisions| == k <= |rated| && EachFits(OfSource(rated, music), parts, divisions)
  }

  ghost predicate EachFits(fits: (nat, seq<Track>, seq<seq<Segment>>) -> bool, parts: seq<seq<Track>>,
                           divisions: seq<seq<seq<Segment>>>)
    requires |parts| == |divisions|
  {
    forall i {:trigger parts[i]} | 0 <= i < |parts| :: fits(i, parts[i], divisions[i])
  }

  lemma {:induction false} EachFitsNext(fits: (nat, seq<Track>, seq<seq<Segment>>) -> bool, parts: seq<seq<Track>>,
                                        divisions: seq<seq<seq<Segment>>>, tracks: seq<Track>,
                                        groups: seq<seq<Segment>>)
    requires |parts| == |divisions| && EachFits(fits, parts, divisions) && fits(|parts|, tracks, groups)
    ensures EachFits(fits, parts + [tracks], divisions + [groups])
  {
    var p, d := parts + [tracks], divisions + [groups];
    forall i | 0 <= i < |p|
      ensures fits(i, p[i], d[i])
    {
      if i < |parts| {
        assert p[i] == parts[i] && d[i] == divisions[i];
      }
    }
  }

  ghost predicate AllRated(rated: seq<Rated>, sources: seq<Source>) {
    |rated| == |sources| && forall i | 0 <= i < |rated| :: RatedFrom(rated[i], sources[i])
  }

  lemma {:induction false} SourceTrackLegal(rated: seq<Rated>, source: Source, music: bool, i: nat,
                                            tracks: seq<Track>, groups: seq<seq<Segment>>, t: Track)
    requires i < |rated| && RatedFrom(rated[i], source) && OfSource(rated, music)(i, tracks, groups) && t in tracks
    ensures TrackLegal(t)
  {
    TrackFits(rated[i], i, music, Several(rated), tracks, groups, t);
    TrackIsLegal(rated[i], i, t);
  }

  lemma {:induction false} BookTracksLegal(sources: seq<Source>, rated: seq<Rated>, music: bool,
                                           parts: seq<seq<Track>>, divisions: seq<seq<seq<Segment>>>)
    requires AllRated(rated, sources) && BookTracks(rated, music, |rated|, parts, divisions)
    ensures forall t | t in Flatten(parts) :: TrackLegal(t)
  {
    forall t | t in Flatten(parts) ensures TrackLegal(t) {
      var i := InFlatten(parts, t);
      assert RatedFrom(rated[i], sources[i]);
      SourceTrackLegal(rated, sources[i], music, i, parts[i], divisions[i], t);
    }
  }

  lemma {:induction false} FlattenNext(parts: seq<seq<Track>>, tracks: seq<Track>)
    ensures Flatten(parts + [tracks]) == Flatten(parts) + tracks
  {
    assert (parts + [tracks])[..|parts|] == parts;
  }

  // Each source with its rate; not ok when a duration is missing or invalid.
  method RateSources(sources: seq<Source>) returns (ok: bool, rated: seq<Rated>)
    ensures ok <==> forall s | s in sources :: s.duration > 0.0
    ensures ok ==> AllRated(rated, sources)
  {
    ok, rated := true, [];
    for i := 0 to |sources|
      invariant AllRated(rated, sources[..i])
      invariant forall k | 0 <= k < i :: sources[k].duration > 0.0
    {
      var s := sources[i];
      if s.duration <= 0.0 {
        ok := false;
        return;
      }
      var rate := if s.passthrough then s.size as real / s.duration else 16000.0;
      rated := rated + [Rated(s, rate, rate * TRACK_BYTES / TRACK_LIMIT)];
    }
    assert sources[..|sources|] == sources;
  }

  method CollectTracks(rated: seq<Rated>, music: bool)
    returns (tracks: seq<Track>, ghost parts: seq<seq<Track>>, ghost divisions: seq<seq<seq<Segment>>>)
    ensures BookTracks(rated, music, |rated|, parts, divisions) && tracks == Flatten(parts)
  {
    tracks, parts, divisions := [], [], [];
    for i := 0 to |rated|
      invariant BookTracks(rated, music, i, parts, divisions) && tracks == Flatten(parts)
    {
      var more, groups := SourceTracks(rated[i], i, music, Several(rated));
      EachFitsNext(OfSource(rated, music), parts, divisions, more, groups);
      FlattenNext(parts, more);
      tracks, parts, divisions := tracks + more, parts + [more], divisions + [groups];
    }
  }

  // Total seconds and bytes by summation, then the shared search with the server's limits.
  method PlanBook(sources: seq<Source>, music: bool)
    returns (plan: Plan, ghost rated: seq<Rated>, ghost parts: seq<seq<Track>>, ghost divisions: seq<seq<seq<Segment>>>,
             ghost first: nat, ghost n: nat)
    ensures plan.Cards? <==> forall s | s in sources :: s.duration > 0.0
    ensures plan.Cards? ==>
              && AllRated(rated, sources) && BookTracks(rated, music, |rated|, parts, divisions)
              && C.LeastCount(Sum(SECONDS, Flatten(parts)), Sum(BYTES, Flatten(parts)), |Flatten(parts)|,
                              CARD_LIMIT, first)
              && C.Searched(Flatten(parts), SECONDS, FITS, first, n, plan.cards)
  {
    var ok, files := RateSources(sources);
    rated, parts, divisions, first, n := files, [], [], 0, 0;
    if !ok {
      plan := InvalidDuration;
      return;
    }
    var tracks;
    tracks, parts, divisions := CollectTracks(files, music);
    var seconds := C.SumOf(tracks, SECONDS);
    var bytes := C.SumOf(tracks, BYTES);
    var count := C.MinimumCount(seconds, bytes, |tracks|, CARD_LIMIT);
    first := count;
    var cards;
    cards, n := C.SearchCount(tracks, SECONDS, FITS, count);
    plan := Cards(cards);
  }

  lemma {:induction false} SearchedCardsLegal(tracks: seq<Track>, cards: seq<seq<Track>>, first: nat, n: nat)
    requires forall t | t in tracks :: TrackLegal(t)
    requires C.Searched(tracks, SECONDS, FITS, first, n, cards)
    ensures Flatten(cards) == tracks
    ensures forall c | c in cards :: c != [] && CardLegal(c)
  {
    forall t | t in tracks ensures FITS([t]) {
      SumOne(SECONDS, t);
      SumOne(BYTES, t);
    }
    C.SearchedLegal(tracks, SECONDS, FITS, first, n, cards);
    forall c | c in cards ensures CardLegal(c) {
      assert FITS(c);
    }
  }

  // Whatever the search found, also on the one-track-per-card fallback, the cards hold every
  // track in order and each meets the seconds, bytes and track-count limits.
  lemma {:induction false} PlanLegal(sources: seq<Source>, rated: seq<Rated>, music: bool, parts: seq<seq<Track>>,
                                     divisions: seq<seq<seq<Segment>>>, cards: seq<seq<Track>>, first: nat, n: nat)
    requires AllRated(rated, sources) && BookTracks(rated, music, |rated|, parts, divisions)
    requires C.Searched(Flatten(parts), SECONDS, FITS, first, n, cards)
    ensures Flatten(cards) == Flatten(parts)
    ensures forall c | c in cards :: c != [] && CardLegal(c) && forall t | t in c :: TrackLegal(t)
  {
    BookTracksLegal(sources, rated, music, parts, divisions);
    SearchedCardsLegal(Flatten(parts), cards, first, n);
    forall c, t | c in cards && t in c ensures TrackLegal(t) {
      CardMember(cards, c, t);
    }
  }

  lemma {:induction false} CardMember(cards: seq<seq<Track>>, c: seq<Track>, t: Track)
    requires c in cards && t in c
    ensures t in Flatten(cards)
  {
    var k := |cards| - 1;
    if c in cards[..k] { CardMember(cards[..k], c, t); }
  }

  // When the first count fits, no legal grouping of the book's tracks has fewer cards.
  lemma {:induction false} PlanIsMinimal(tracks: seq<Track>, cards: seq<seq<Track>>, first: nat, other: seq<seq<Track>>)
    requires tracks != [] && Flatten(other) == tracks && forall c | c in other :: CardLegal(c)
    requires C.LeastCount(Sum(SECONDS, tracks), Sum(BYTES, tracks), |tracks|, CARD_LIMIT, first)
    requires C.Searched(tracks, SECONDS, FITS, first, first, cards)
    ensures |cards| <= |other|
  {
    SumFlatten(SECONDS, other, C.CARD_SECONDS);
    SumFlatten(BYTES, other, CARD_LIMIT);
    LengthFlatten(other, C.CARD_TRACKS);
    assert C.Enough(Sum(SECONDS, tracks), Sum(BYTES, tracks), |tracks|, CARD_LIMIT, |other|);
    if first <= |tracks| {
      C.EvenSplitConserves(tracks, SECONDS, first);
    }
  }

  // The playing time of every source is conserved when it is planned as one chapter of at
  // least a second (music, or one file of several without chapters).
  lemma {:induction false} WholeFileConserved(r: Rated, s: Source, i: nat, music: bool, several: bool,
                                              tracks: seq<Track>, groups: seq<seq<Segment>>)
    requires r.source == s && s.duration >= 1.0 && TracksOf(r, i, music, several, tracks, groups)
    requires music || (s.chapters == [] && several)
    ensures Sum(SECONDS, tracks) == s.duration
    ensures Tiles(Flatten(groups), 0.0, s.duration)
  {
    var chapters := PlannedChapters(s, music, several);
    assert chapters[..0] == [];
    assert KeptChapters(chapters[..0], s.duration) == [];
    var raw := RawSegments(chapters, s.duration);
    assert raw == [Clipped(chapters[0], 1, s.duration)];
    BuildTiles(raw, groups, r.scaled, 0.0, s.duration);
    TilesDuration(Flatten(groups), 0.0, s.duration);
    SecondsOf(Flatten(groups), i, tracks, r.rate);
  }

  lemma {:induction false} SecondsOf(segments: seq<Segment>, i: nat, tracks: seq<Track>, rate: real)
    requires |tracks| == |segments| && forall k | 0 <= k < |tracks| :: tracks[k] == Estimated(i, segments[k], rate)
    ensures Sum(SECONDS, tracks) == Sum(DURATION, segments)
  {
    if tracks != [] {
      SecondsOf(segments[..|segments| - 1], i, tracks[..|tracks| - 1], rate);
    }
  }
}
