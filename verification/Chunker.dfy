// Splitting a transcript into overlapping chunks
// (make_chunks in hermes/skills/media/youtube-library/scripts/ingest_video.py).
module Chunker {
  import opened Seqs

  datatype Segment = Segment(start: real, duration: real, text: string)

  // The segments lo, ..., hi - 1 that make one chunk.
  datatype Window = Window(lo: nat, hi: nat)

  function Size(s: Segment): nat {
    |s.text| + 16
  }

  function Cost(segs: seq<Segment>, lo: nat, hi: nat): (c: nat)
    requires lo <= hi <= |segs|
    decreases hi
  {
    if lo == hi then 0 else Cost(segs, lo, hi - 1) + Size(segs[hi - 1])
  }

  lemma {:induction false} CostSplits(segs: seq<Segment>, lo: nat, mid: nat, hi: nat)
    requires lo <= mid <= hi <= |segs|
    ensures Cost(segs, lo, hi) == Cost(segs, lo, mid) + Cost(segs, mid, hi)
    decreases hi
  {
    if mid < hi {
      CostSplits(segs, lo, mid, hi - 1);
    }
  }

  // A chunk fits the limit or is one segment, and nothing more would have fitted.
  ghost predicate IsChunk(segs: seq<Segment>, w: Window, limit: int) {
    && w.lo < w.hi <= |segs|
    && (w.hi == w.lo + 1 || Cost(segs, w.lo, w.hi) <= limit)
    && (w.hi < |segs| ==> Cost(segs, w.lo, w.hi + 1) > limit)
  }

  // The next chunk begins after this one's first segment and no later than its end, far enough
  // back to repeat `overlap` worth of it if that is possible, and no further back than that.
  ghost predicate Follows(segs: seq<Segment>, w: Window, next: nat, overlap: int)
    requires w.hi <= |segs|
  {
    && w.lo < next <= w.hi < |segs|
    && (next == w.lo + 1 || Cost(segs, next, w.hi) >= overlap)
    && (next == w.hi || Cost(segs, next + 1, w.hi) < overlap)
  }

  ghost predicate Chunking(segs: seq<Segment>, ws: seq<Window>, limit: int, overlap: int) {
    && (ws != [] ==> ws[0].lo == 0)
    && (forall i :: 0 <= i < |ws| ==> IsChunk(segs, ws[i], limit))
    && (forall i, j :: 0 <= i && j == i + 1 < |ws| ==> Follows(segs, ws[i], ws[j].lo, overlap))
  }

  ghost predicate Complete(segs: seq<Segment>, ws: seq<Window>) {
    if segs == [] then ws == [] else ws != [] && ws[|ws| - 1].hi == |segs|
  }

  // ---- the loops ----

  method EndOf(segs: seq<Segment>, start: nat, limit: int) returns (end: nat)
    requires start < |segs|
    ensures IsChunk(segs, Window(start, end), limit)
  {
    end := start;
    var used := 0;
    while end < |segs|
      invariant start <= end <= |segs|
      invariant used == Cost(segs, start, end)
      invariant end > start + 1 ==> used <= limit
    {
      var size := Size(segs[end]);
      if end > start && used + size > limit {
        break;
      }
      used := used + size;
      end := end + 1;
    }
  }

  method Rewind(segs: seq<Segment>, start: nat, end: nat, overlap: int) returns (nextStart: nat)
    requires start < end < |segs|
    ensures Follows(segs, Window(start, end), nextStart, overlap)
  {
    var rewind := 0;
    nextStart := end;
    while nextStart > start + 1 && rewind < overlap
      invariant start < nextStart <= end
      invariant rewind == Cost(segs, nextStart, end)
      invariant nextStart == end || Cost(segs, nextStart + 1, end) < overlap
    {
      CostSplits(segs, nextStart - 1, nextStart, end);
      nextStart := nextStart - 1;
      rewind := rewind + Size(segs[nextStart]);
    }
  }

  method MakeChunks(segs: seq<Segment>, limit: int, overlap: int)
    returns (chunks: seq<seq<Segment>>, ghost ws: seq<Window>)
    ensures Chunking(segs, ws, limit, overlap) && Complete(segs, ws)
    ensures |chunks| == |ws| && forall i :: 0 <= i < |ws| ==> chunks[i] == segs[ws[i].lo..ws[i].hi]
  {
    chunks, ws := [], [];
    var start := 0;
    while start < |segs|
      invariant start <= |segs| && (ws == [] ==> start == 0)
      invariant Chunking(segs, ws, limit, overlap)
      invariant |chunks| == |ws| && forall i :: 0 <= i < |ws| ==> chunks[i] == segs[ws[i].lo..ws[i].hi]
      invariant ws != [] ==> Follows(segs, ws[|ws| - 1], start, overlap)
      decreases |segs| - start
    {
      var end := EndOf(segs, start, limit);
      chunks := chunks + [segs[start..end]];
      ws := ws + [Window(start, end)];
      if end >= |segs| {
        break;
      }
      start := Rewind(segs, start, end, overlap);
    }
  }

  // ---- what follows from being a chunking ----

  lemma {:induction false} CostGrows(segs: seq<Segment>, lo: nat, hi: nat, lo2: nat, hi2: nat)
    requires lo2 <= lo <= hi <= hi2 <= |segs|
    ensures Cost(segs, lo, hi) <= Cost(segs, lo2, hi2)
    ensures lo2 < lo || hi < hi2 ==> Cost(segs, lo, hi) < Cost(segs, lo2, hi2)
    decreases hi2 - hi + lo - lo2
  {
    if hi < hi2 {
      CostGrows(segs, lo, hi, lo2, hi2 - 1);
    } else if lo2 < lo {
      CostSplits(segs, lo2, lo2 + 1, hi);
      assert Cost(segs, lo2, lo2 + 1) == Cost(segs, lo2, lo2) + Size(segs[lo2]);
      CostGrows(segs, lo, hi, lo2 + 1, hi);
    }
  }

  // Starts advance, ends never go back, and no segment between chunks is skipped.
  lemma {:induction false} Advances(segs: seq<Segment>, w: Window, v: Window, limit: int, overlap: int)
    requires IsChunk(segs, w, limit) && IsChunk(segs, v, limit) && Follows(segs, w, v.lo, overlap)
    ensures w.lo < v.lo <= w.hi <= v.hi
  {
    if v.hi < w.hi {
      CostGrows(segs, v.lo, v.hi + 1, w.lo, w.hi);
    }
  }

  // The next chunk adds nothing exactly when the repeated part leaves no room for one more
  // segment.
  lemma {:induction false} AddsNothingIff(segs: seq<Segment>, w: Window, v: Window, limit: int, overlap: int)
    requires IsChunk(segs, w, limit) && IsChunk(segs, v, limit) && Follows(segs, w, v.lo, overlap)
    ensures v.hi == w.hi <==> v.lo < w.hi && Cost(segs, v.lo, w.hi + 1) > limit
  {
    Advances(segs, w, v, limit, overlap);
    if w.hi < v.hi && v.lo < w.hi {
      CostGrows(segs, v.lo, w.hi + 1, v.lo, v.hi);
    }
  }

  // With room for the overlap and two of the largest segments, to within one character, every
  // chunk adds something.
  lemma {:induction false} AlwaysAdds(segs: seq<Segment>, w: Window, v: Window, limit: int, overlap: int, largest: nat)
    requires IsChunk(segs, w, limit) && IsChunk(segs, v, limit) && Follows(segs, w, v.lo, overlap)
    requires forall s :: s in segs ==> Size(s) <= largest
    requires overlap + 2 * largest <= limit + 1
    ensures w.hi < v.hi
  {
    Advances(segs, w, v, limit, overlap);
    AddsNothingIff(segs, w, v, limit, overlap);
    if v.lo < w.hi {
      CostSplits(segs, v.lo, v.lo + 1, w.hi);
      assert Cost(segs, v.lo, v.lo + 1) == Cost(segs, v.lo, v.lo) + Size(segs[v.lo]);
      assert Size(segs[v.lo]) <= largest && Size(segs[w.hi]) <= largest;
    }
  }

  // The bound is exact: one character more, and a chunk can end where its predecessor did.
  lemma {:induction false} BoundIsExact(segs: seq<Segment>)
    requires |segs| == 4 && Size(segs[0]) == 17
    requires Size(segs[1]) == 20 && Size(segs[2]) == 20 && Size(segs[3]) == 20
    ensures var limit, overlap := 59, 21;
            && overlap + 2 * 20 == limit + 2
            && Chunking(segs, [Window(0, 3), Window(1, 3), Window(2, 4)], limit, overlap)
            && Complete(segs, [Window(0, 3), Window(1, 3), Window(2, 4)])
  {
  }

  lemma {:induction false} EndIsUnique(segs: seq<Segment>, v: Window, w: Window, limit: int)
    requires IsChunk(segs, v, limit) && IsChunk(segs, w, limit) && v.lo == w.lo
    ensures v.hi == w.hi
  {
    if v.hi < w.hi {
      CostGrows(segs, v.lo, v.hi + 1, w.lo, w.hi);
    } else if w.hi < v.hi {
      CostGrows(segs, w.lo, w.hi + 1, v.lo, v.hi);
    }
  }

  lemma {:induction false} NextIsUnique(segs: seq<Segment>, w: Window, a: nat, b: nat, overlap: int)
    requires w.hi <= |segs| && Follows(segs, w, a, overlap) && Follows(segs, w, b, overlap)
    ensures a == b
  {
    if a < b {
      CostGrows(segs, b, w.hi, a + 1, w.hi);
    } else if b < a {
      CostGrows(segs, a, w.hi, b + 1, w.hi);
    }
  }

  lemma {:induction false} ChunkingIsUnique(segs: seq<Segment>, vs: seq<Window>, ws: seq<Window>, limit: int,
                                            overlap: int, n: nat)
    requires Chunking(segs, vs, limit, overlap) && Chunking(segs, ws, limit, overlap)
    requires n <= |vs| && n <= |ws|
    ensures vs[..n] == ws[..n]
  {
    if n > 0 {
      ChunkingIsUnique(segs, vs, ws, limit, overlap, n - 1);
      var v, w := vs[n - 1], ws[n - 1];
      if n > 1 {
        var u := vs[n - 2];
        assert u == ws[n - 2] by { assert vs[..n - 1][n - 2] == ws[..n - 1][n - 2]; }
        assert Follows(segs, u, v.lo, overlap) && Follows(segs, u, w.lo, overlap);
        NextIsUnique(segs, u, v.lo, w.lo, overlap);
      }
      EndIsUnique(segs, v, w, limit);
      assert vs[..n] == vs[..n - 1] + [v] && ws[..n] == ws[..n - 1] + [w];
    }
  }

  // Only the last chunk reaches the end.
  lemma {:induction false} EndIsLast(segs: seq<Segment>, ws: seq<Window>, limit: int, overlap: int, i: nat)
    requires Chunking(segs, ws, limit, overlap) && i < |ws| && ws[i].hi == |segs|
    ensures i == |ws| - 1
  {
    var j := i + 1;
    assert j < |ws| ==> Follows(segs, ws[i], ws[j].lo, overlap);
  }

  // The loops have no freedom: a transcript has one chunking.
  lemma {:induction false} OneChunking(segs: seq<Segment>, vs: seq<Window>, ws: seq<Window>, limit: int, overlap: int)
    requires Chunking(segs, vs, limit, overlap) && Complete(segs, vs)
    requires Chunking(segs, ws, limit, overlap) && Complete(segs, ws)
    ensures vs == ws
  {
    var n := if |vs| <= |ws| then |vs| else |ws|;
    ChunkingIsUnique(segs, vs, ws, limit, overlap, n);
    if n > 0 {
      assert vs[n - 1] == vs[..n][n - 1] == ws[n - 1];
      EndIsLast(segs, vs, limit, overlap, n - 1);
      EndIsLast(segs, ws, limit, overlap, n - 1);
    }
    assert vs[..n] == vs && ws[..n] == ws;
  }

  // ---- nothing lost, nothing out of order ----

  // What chunk i has that chunk i - 1 did not.
  function Added(segs: seq<Segment>, ws: seq<Window>, i: nat): (part: seq<Segment>)
    requires i < |ws| && ws[i].lo <= ws[i].hi <= |segs|
    requires i > 0 ==> ws[i].lo <= ws[i - 1].hi <= ws[i].hi
  {
    var chunk := segs[ws[i].lo..ws[i].hi];
    if i == 0 then chunk else chunk[ws[i - 1].hi - ws[i].lo..]
  }

  lemma {:induction false} ChunkAt(segs: seq<Segment>, ws: seq<Window>, limit: int, overlap: int, i: nat)
    requires Chunking(segs, ws, limit, overlap) && i < |ws|
    ensures ws[i].lo < ws[i].hi <= |segs|
    ensures i > 0 ==> ws[i - 1].lo < ws[i].lo <= ws[i - 1].hi <= ws[i].hi
  {
    if i > 0 {
      assert Follows(segs, ws[i - 1], ws[i].lo, overlap);
      Advances(segs, ws[i - 1], ws[i], limit, overlap);
    }
  }

  ghost function Rebuilt(segs: seq<Segment>, ws: seq<Window>, limit: int, overlap: int, n: nat): (all: seq<Segment>)
    requires Chunking(segs, ws, limit, overlap) && n <= |ws|
  {
    if n == 0 then []
    else
      ChunkAt(segs, ws, limit, overlap, n - 1);
      Rebuilt(segs, ws, limit, overlap, n - 1) + Added(segs, ws, n - 1)
  }

  lemma {:induction false} TakeMore<T>(s: seq<T>, lo: nat, from: nat, hi: nat)
    requires lo <= from <= hi <= |s|
    ensures s[..from] + s[lo..hi][from - lo..] == s[..hi]
  {
    assert s[lo..hi][from - lo..] == s[from..hi];
  }

  lemma {:induction false} RebuiltPrefix(segs: seq<Segment>, ws: seq<Window>, limit: int, overlap: int, n: nat)
    requires Chunking(segs, ws, limit, overlap) && 0 < n <= |ws|
    ensures ws[n - 1].hi <= |segs| && Rebuilt(segs, ws, limit, overlap, n) == segs[..ws[n - 1].hi]
  {
    ChunkAt(segs, ws, limit, overlap, n - 1);
    var w := ws[n - 1];
    if n == 1 {
      assert Rebuilt(segs, ws, limit, overlap, 0) == [];
      TakeMore(segs, w.lo, 0, w.hi);
      assert segs[..0] == [] && segs[w.lo..w.hi] == segs[..w.hi];
    } else {
      RebuiltPrefix(segs, ws, limit, overlap, n - 1);
      TakeMore(segs, w.lo, ws[n - 2].hi, w.hi);
    }
  }

  // With the overlaps dropped, the chunks are the transcript.
  lemma {:induction false} ChunksRebuild(segs: seq<Segment>, ws: seq<Window>, limit: int, overlap: int)
    requires Chunking(segs, ws, limit, overlap) && Complete(segs, ws)
    ensures Rebuilt(segs, ws, limit, overlap, |ws|) == segs
  {
    if ws != [] {
      RebuiltPrefix(segs, ws, limit, overlap, |ws|);
      assert segs[..|segs|] == segs;
    }
  }
}
