// Gluing consecutive chapters into the longest Yoto-legal tracks
// (merge_segments in modules/nixos/services/yoto-share/yoto-prep.py).

module YotoMerge {
  import opened Seqs
  import opened YotoPrep

  // ---- order-preserving groupings, as the indices where groups begin ----

  ghost predicate Grouping(cuts: seq<nat>, n: nat) {
    && |cuts| >= 1 && cuts[0] == 0 && cuts[|cuts| - 1] == n
    && forall i, j | 0 <= i < j < |cuts| :: cuts[i] < cuts[j]
  }

  // The test the loop makes before gluing segment k onto the track that began at lo.
  ghost predicate CanGlue(segs: seq<Segment>, lo: nat, k: nat, bytesPerSec: real)
    requires lo < k < |segs|
  {
    && -1.0 < segs[k].start - segs[k - 1].end < 1.0
    && Fits(segs[k - 1].end - segs[lo].start + segs[k].Duration(), bytesPerSec)
  }

  ghost predicate Glued(segs: seq<Segment>, lo: nat, hi: nat, bytesPerSec: real)
    requires lo <= hi <= |segs|
  {
    forall k | lo < k < hi :: CanGlue(segs, lo, k, bytesPerSec)
  }

  ghost predicate AllGlued(segs: seq<Segment>, cuts: seq<nat>, bytesPerSec: real)
    requires Grouping(cuts, |segs|)
  {
    forall i | 0 < i < |cuts| :: Glued(segs, cuts[i - 1], cuts[i], bytesPerSec)
  }

  // No group could have taken the segment after it.
  ghost predicate Maximal(segs: seq<Segment>, cuts: seq<nat>, bytesPerSec: real)
    requires Grouping(cuts, |segs|)
  {
    forall i | 0 < i < |cuts| - 1 :: !CanGlue(segs, cuts[i - 1], cuts[i], bytesPerSec)
  }

  function TrackOf(segs: seq<Segment>, lo: nat, hi: nat): Segment
    requires lo < hi <= |segs|
  {
    Segment(segs[lo].title, segs[lo].start, segs[hi - 1].end)
  }

  ghost predicate TracksOf(segs: seq<Segment>, cuts: seq<nat>, out: seq<Segment>)
    requires Grouping(cuts, |segs|)
  {
    && |out| == |cuts| - 1
    && forall i | 0 <= i < |out| :: out[i] == TrackOf(segs, cuts[i], cuts[i + 1])
  }

  function Abs(x: real): real { if x < 0.0 then -x else x }

  // The closed groups so far: each glued, and each stopped by a failed test.
  ghost predicate Closed(segs: seq<Segment>, cuts: seq<nat>, out: seq<Segment>, bytesPerSec: real) {
    && |cuts| >= 1 && cuts[0] == 0 && cuts[|cuts| - 1] < |segs| && |out| == |cuts| - 1
    && (forall i, j | 0 <= i < j < |cuts| :: cuts[i] < cuts[j])
    && (forall i | 0 < i < |cuts| ::
          && Glued(segs, cuts[i - 1], cuts[i], bytesPerSec)
          && !CanGlue(segs, cuts[i - 1], cuts[i], bytesPerSec)
          && out[i - 1] == TrackOf(segs, cuts[i - 1], cuts[i]))
  }

  lemma {:induction false} CloseGroup(segs: seq<Segment>, cuts: seq<nat>, out: seq<Segment>, k: nat, bytesPerSec: real)
    requires Closed(segs, cuts, out, bytesPerSec)
    requires cuts[|cuts| - 1] < k < |segs|
    requires Glued(segs, cuts[|cuts| - 1], k, bytesPerSec) && !CanGlue(segs, cuts[|cuts| - 1], k, bytesPerSec)
    ensures Closed(segs, cuts + [k], out + [TrackOf(segs, cuts[|cuts| - 1], k)], bytesPerSec)
  {
  }

  lemma {:induction false} CloseLast(segs: seq<Segment>, cuts: seq<nat>, out: seq<Segment>, bytesPerSec: real)
    requires Closed(segs, cuts, out, bytesPerSec)
    requires Glued(segs, cuts[|cuts| - 1], |segs|, bytesPerSec)
    ensures var all := cuts + [|segs|];
            && Grouping(all, |segs|) && AllGlued(segs, all, bytesPerSec) && Maximal(segs, all, bytesPerSec)
            && TracksOf(segs, all, out + [TrackOf(segs, cuts[|cuts| - 1], |segs|)])
  {
    var all, tracks := cuts + [|segs|], out + [TrackOf(segs, cuts[|cuts| - 1], |segs|)];
    forall i | 0 <= i < |tracks| ensures tracks[i] == TrackOf(segs, all[i], all[i + 1]) {
      if i < |out| { assert out[i + 1 - 1] == TrackOf(segs, cuts[i + 1 - 1], cuts[i + 1]); }
    }
  }

  method MergeSegments(segments: seq<Segment>, bytesPerSec: real)
    returns (out: seq<Segment>, ghost cuts: seq<nat>)
    ensures Grouping(cuts, |segments|)
    ensures AllGlued(segments, cuts, bytesPerSec) && Maximal(segments, cuts, bytesPerSec)
    ensures TracksOf(segments, cuts, out)
  {
    out, cuts := [], [0];
    if segments == [] {
      return;
    }
    var cur := segments[0];
    for k := 1 to |segments|
      invariant Closed(segments, cuts, out, bytesPerSec) && cuts[|cuts| - 1] < k
      invariant cur == TrackOf(segments, cuts[|cuts| - 1], k)
      invariant Glued(segments, cuts[|cuts| - 1], k, bytesPerSec)
    {
      var seg := segments[k];
      var combined := cur.end - cur.start + seg.Duration();
      var contiguous := Abs(seg.start - cur.end) < 1.0;
      if contiguous && combined <= TRACK_SECONDS && combined * bytesPerSec <= TRACK_BYTES {
        cur := cur.(end := seg.end);
      } else {
        CloseGroup(segments, cuts, out, k, bytesPerSec);
        out, cuts := out + [cur], cuts + [k];
        cur := Segment(seg.title, seg.start, seg.end);
      }
    }
    CloseLast(segments, cuts, out, bytesPerSec);
    out, cuts := out + [cur], cuts + [|segments|];
  }

  // ---- optimality: greedy stays ahead of every other grouping ----

  ghost predicate StartsOrdered(segs: seq<Segment>) {
    forall i, j | 0 <= i <= j < |segs| :: segs[i].start <= segs[j].start
  }

  // A later beginning can only make the gluing test easier.
  lemma {:induction false} LaterStartGlues(segs: seq<Segment>, lo: nat, lo': nat, k: nat, bytesPerSec: real)
    requires StartsOrdered(segs) && bytesPerSec >= 0.0
    requires lo <= lo' < k < |segs| && CanGlue(segs, lo, k, bytesPerSec)
    ensures CanGlue(segs, lo', k, bytesPerSec)
  {
    MulMono(segs[k - 1].end - segs[lo'].start + segs[k].Duration(),
            segs[k - 1].end - segs[lo].start + segs[k].Duration(), bytesPerSec);
  }

  lemma {:induction false} StaysAhead(segs: seq<Segment>, greedy: seq<nat>, other: seq<nat>, bytesPerSec: real, j: nat)
    requires StartsOrdered(segs) && bytesPerSec >= 0.0
    requires Grouping(greedy, |segs|) && Maximal(segs, greedy, bytesPerSec)
    requires Grouping(other, |segs|) && AllGlued(segs, other, bytesPerSec)
    requires j < |greedy| && j < |other|
    ensures greedy[j] >= other[j]
  {
    if j > 0 {
      StaysAhead(segs, greedy, other, bytesPerSec, j - 1);
      if greedy[j] < other[j] {
        assert other[j] <= |segs|;
        assert j < |greedy| - 1;
        assert Glued(segs, other[j - 1], other[j], bytesPerSec);
        LaterStartGlues(segs, other[j - 1], greedy[j - 1], greedy[j], bytesPerSec);
      }
    }
  }

  // The greedy result has no more tracks than any grouping whose groups pass the gluing test.
  lemma {:induction false} MergeIsOptimal(segs: seq<Segment>, greedy: seq<nat>, other: seq<nat>, bytesPerSec: real)
    requires StartsOrdered(segs) && bytesPerSec >= 0.0
    requires Grouping(greedy, |segs|) && Maximal(segs, greedy, bytesPerSec)
    requires Grouping(other, |segs|) && AllGlued(segs, other, bytesPerSec)
    ensures |greedy| <= |other|
  {
    if |other| < |greedy| {
      var j := |other| - 1;
      StaysAhead(segs, greedy, other, bytesPerSec, j);
    }
  }

  // Chapters in reading order, with only sub-second slivers missing between neighbours.
  ghost predicate Contiguous(segs: seq<Segment>) {
    && (forall i | 0 <= i < |segs| :: segs[i].start <= segs[i].end)
    && (forall i | 0 < i < |segs| :: 0.0 <= segs[i].start - segs[i - 1].end < 1.0)
  }

  lemma {:induction false} ContiguousOrdered(segs: seq<Segment>, i: nat, j: nat)
    requires Contiguous(segs) && i <= j < |segs|
    ensures segs[i].start <= segs[j].start
    ensures segs[i].end <= segs[j].end
  {
    if i < j { ContiguousOrdered(segs, i, j - 1); }
  }

  ghost predicate LegalTracks(segs: seq<Segment>, cuts: seq<nat>, bytesPerSec: real)
    requires Grouping(cuts, |segs|)
  {
    forall i | 0 < i < |cuts| :: Fits(TrackOf(segs, cuts[i - 1], cuts[i]).Duration(), bytesPerSec)
  }

  lemma {:induction false} FitsLess(a: real, b: real, bytesPerSec: real)
    requires a <= b && bytesPerSec >= 0.0 && Fits(b, bytesPerSec)
    ensures Fits(a, bytesPerSec)
  {
    MulMono(a, b, bytesPerSec);
  }

  lemma {:induction false} LegalIsGlued(segs: seq<Segment>, lo: nat, hi: nat, bytesPerSec: real)
    requires Contiguous(segs) && bytesPerSec >= 0.0
    requires lo < hi <= |segs| && Fits(TrackOf(segs, lo, hi).Duration(), bytesPerSec)
    ensures Glued(segs, lo, hi, bytesPerSec)
  {
    forall k | lo < k < hi ensures CanGlue(segs, lo, k, bytesPerSec) {
      ContiguousOrdered(segs, k, hi - 1);
      FitsLess(segs[k - 1].end - segs[lo].start + segs[k].Duration(), TrackOf(segs, lo, hi).Duration(), bytesPerSec);
    }
  }

  // On contiguous chapters no order-preserving grouping into legal tracks has fewer tracks.
  lemma {:induction false} FewestTracks(segs: seq<Segment>, greedy: seq<nat>, other: seq<nat>, bytesPerSec: real)
    requires Contiguous(segs) && bytesPerSec >= 0.0
    requires Grouping(greedy, |segs|) && Maximal(segs, greedy, bytesPerSec)
    requires Grouping(other, |segs|) && LegalTracks(segs, other, bytesPerSec)
    ensures |greedy| <= |other|
  {
    forall i, j | 0 <= i <= j < |segs| ensures segs[i].start <= segs[j].start {
      ContiguousOrdered(segs, i, j);
    }
    forall i | 0 < i < |other| ensures Glued(segs, other[i - 1], other[i], bytesPerSec) {
      LegalIsGlued(segs, other[i - 1], other[i], bytesPerSec);
    }
    MergeIsOptimal(segs, greedy, other, bytesPerSec);
  }

  // ---- legality of the merged tracks ----

  // A merged track exceeds the limits by less than one second (and that second's bytes),
  // and not at all when no sliver precedes its last chapter.
  lemma {:induction false} MergedNearlyLegal(segs: seq<Segment>, lo: nat, hi: nat, bytesPerSec: real)
    requires bytesPerSec >= 0.0 && lo < hi <= |segs|
    requires Glued(segs, lo, hi, bytesPerSec) && Fits(segs[lo].Duration(), bytesPerSec)
    ensures var d := TrackOf(segs, lo, hi).Duration();
            d < TRACK_SECONDS + 1.0 && (d - 1.0) * bytesPerSec <= TRACK_BYTES
    ensures hi - lo == 1 || segs[hi - 1].start <= segs[hi - 2].end ==>
              Fits(TrackOf(segs, lo, hi).Duration(), bytesPerSec)
  {
    var d := TrackOf(segs, lo, hi).Duration();
    if hi - lo == 1 {
      MulMono(d - 1.0, d, bytesPerSec);
    } else {
      assert CanGlue(segs, lo, hi - 1, bytesPerSec);
      var combined := segs[hi - 2].end - segs[lo].start + segs[hi - 1].Duration();
      MulMono(d - 1.0, combined, bytesPerSec);
      if segs[hi - 1].start <= segs[hi - 2].end { MulMono(d, combined, bytesPerSec); }
    }
  }

  // So every track of a merge of legal segments stays under 58 minutes and one second.
  lemma {:induction false} MergeNearlyLegal(segs: seq<Segment>, cuts: seq<nat>, out: seq<Segment>, bytesPerSec: real)
    requires bytesPerSec >= 0.0 && forall s | s in segs :: Fits(s.Duration(), bytesPerSec)
    requires Grouping(cuts, |segs|) && AllGlued(segs, cuts, bytesPerSec) && TracksOf(segs, cuts, out)
    ensures forall t | t in out ::
              t.Duration() < TRACK_SECONDS + 1.0 && (t.Duration() - 1.0) * bytesPerSec <= TRACK_BYTES
    ensures (forall k | 0 < k < |segs| :: segs[k].start <= segs[k - 1].end) ==>
              forall t | t in out :: Fits(t.Duration(), bytesPerSec)
  {
    forall i | 0 <= i < |out|
      ensures out[i].Duration() < TRACK_SECONDS + 1.0 && (out[i].Duration() - 1.0) * bytesPerSec <= TRACK_BYTES
      ensures (forall k | 0 < k < |segs| :: segs[k].start <= segs[k - 1].end) ==> Fits(out[i].Duration(), bytesPerSec)
    {
      assert Glued(segs, cuts[i + 1 - 1], cuts[i + 1], bytesPerSec);
      MergedNearlyLegal(segs, cuts[i], cuts[i + 1], bytesPerSec);
    }
  }

  lemma {:induction false} NoCutBetween(segs: seq<Segment>, cuts: seq<nat>, bytesPerSec: real)
    requires |segs| == 2 && Grouping(cuts, 2) && Maximal(segs, cuts, bytesPerSec)
    ensures CanGlue(segs, 0, 1, bytesPerSec) ==> |cuts| == 2
  {
    assert |cuts| >= 2;
    if |cuts| > 2 {
      assert 0 == cuts[0] < cuts[1] < cuts[|cuts| - 1] == 2;
      assert !CanGlue(segs, cuts[0], cuts[1], bytesPerSec);
    }
  }

  // The excess is real: with half a second missing between them, these two legal chapters are
  // always merged, into one track of 58 minutes and half a second.
  lemma {:induction false} SliverOverruns(cuts: seq<nat>, out: seq<Segment>)
    requires Grouping(cuts, 2)
    requires var segs := [Segment("a", 0.0, 3000.0), Segment("b", 3000.5, 3480.5)];
             AllGlued(segs, cuts, 1.0) && Maximal(segs, cuts, 1.0) && TracksOf(segs, cuts, out)
    ensures Fits(3000.0, 1.0) && Fits(3480.5 - 3000.5, 1.0)
    ensures out == [Segment("a", 0.0, 3480.5)] && out[0].Duration() == TRACK_SECONDS + 0.5
  {
    var segs := [Segment("a", 0.0, 3000.0), Segment("b", 3000.5, 3480.5)];
    assert CanGlue(segs, 0, 1, 1.0);
    NoCutBetween(segs, cuts, 1.0);
    assert out[0] == TrackOf(segs, 0, 2);
  }

  // Merging loses nothing: tracks that tile a span still tile it.
  lemma {:induction false} MergedTiles(segs: seq<Segment>, cuts: seq<nat>, out: seq<Segment>, a: real, b: real)
    requires Tiles(segs, a, b) && Grouping(cuts, |segs|) && TracksOf(segs, cuts, out)
    ensures Tiles(out, a, b) && Sum(DURATION, out) == Sum(DURATION, segs)
  {
    forall i | 0 < i < |out| ensures out[i].start == out[i - 1].end {
      assert out[i - 1] == TrackOf(segs, cuts[i - 1], cuts[i]);
      assert out[i] == TrackOf(segs, cuts[i], cuts[i + 1]);
      assert segs[cuts[i]].start == segs[cuts[i] - 1].end;
    }
    assert |cuts| > 1;
    assert out[0] == TrackOf(segs, cuts[0], cuts[1]);
    assert out[|out| - 1] == TrackOf(segs, cuts[|out| - 1], cuts[|out|]);
    TilesDuration(segs, a, b);
    TilesDuration(out, a, b);
  }
}
