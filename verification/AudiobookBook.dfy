// A whole book: silences kept apart, boundaries chosen, chapters finalised
// (analyze_book and finalize_chapters in scripts/audiobook-chapter-rebuild.py).
module AudiobookBook {
  import opened Options
  import opened AudiobookScan
  import opened AudiobookFill
  import opened AudiobookChapters

  // ---- what the chooser returns on candidates that are apart ----

  // In time order, every two at least three quarters of a second apart.
  ghost predicate Apart(s: seq<Candidate>) {
    forall i, j :: 0 <= i < j < |s| ==> s[i].time + 0.75 <= s[j].time
  }

  // The last spoken chapter's position.
  function LastSpoken(s: seq<Candidate>, titles: nat): (p: nat)
    requires Greedy(s, |s|, titles) != []
    ensures p < |s|
  {
    var g := Greedy(s, |s|, titles);
    g[|g| - 1]
  }

  lemma {:induction false} BetweenIsRest(debug: seq<Row>, n: nat, lo: real, last: nat)
    requires Placed(debug) && n <= |debug|
    requires forall i :: 0 <= i < |debug| ==> (i > last <==> debug[i].use.Unused? && lo < debug[i].time)
    ensures Between(debug, n, lo, None) == if n <= last then [] else debug[last + 1..n]
  {
    if n > 0 {
      BetweenIsRest(debug, n - 1, lo, last);
      assert n - 1 > last <==> debug[n - 1].use.Unused? && lo < debug[n - 1].time;
      if n - 1 > last {
        assert debug[last + 1..n] == debug[last + 1..n - 1] + [debug[n - 1]];
      }
    }
  }

  lemma {:induction false} RestStays(debug: seq<Row>, lo: real, last: nat)
    requires Placed(debug) && last < |debug| && InTimeOrder(debug, RowTime)
    requires forall i :: 0 <= i < |debug| ==> (i > last <==> debug[i].use.Unused? && lo < debug[i].time)
    ensures RowsAfter(debug, lo) == debug[last + 1..]
  {
    BetweenIsRest(debug, |debug|, lo, last);
    var rows := debug[last + 1..];
    assert rows == debug[last + 1..|debug|];
    SortedStays(rows, |rows|, RowTime);
  }

  // A row is a candidate for the tail exactly when it comes after the last spoken chapter.
  lemma {:induction false} TailRow(s: seq<Candidate>, titles: nat, i: nat)
    requires Apart(s) && Greedy(s, |s|, titles) != [] && i < |s|
    ensures var row, last := RowOf(s, Greedy(s, |s|, titles), i), LastSpoken(s, titles);
            i > last <==> row.use.Unused? && s[last].time < row.time
  {
    var g, last := Greedy(s, |s|, titles), LastSpoken(s, titles);
    GreedyIsChain(s, |s|, titles);
    if i == last {
      assert g[|g| - 1] in g;
    } else if i > last {
      assert i !in g;
      assert s[last].time + 0.75 <= s[i].time;
    } else {
      assert s[i].time + 0.75 <= s[last].time;
    }
  }

  lemma {:induction false} ReportInOrder(s: seq<Candidate>, titles: nat)
    requires Apart(s)
    ensures InTimeOrder(Report(s, titles), RowTime)
  {
    var debug := Report(s, titles);
    forall i, j | 0 <= i < j < |debug|
      ensures RowTime(debug[i]) <= RowTime(debug[j])
    {
      RoundKeepsOrder(s[i].time, s[j].time);
    }
  }

  // So the tail rows are the reports of the candidates after it.
  lemma {:induction false} TrailingIsRest(s: seq<Candidate>, titles: nat)
    requires Apart(s) && Greedy(s, |s|, titles) != [] && |Greedy(s, |s|, titles)| + 1 < Cap(titles)
    ensures Trailing(s, titles) == Report(s, titles)[LastSpoken(s, titles) + 1..]
    ensures |Report(s, titles)| == |s|
  {
    var debug, last := Report(s, titles), LastSpoken(s, titles);
    forall i | 0 <= i < |debug|
      ensures i > last <==> debug[i].use.Unused? && s[last].time < debug[i].time
    {
      TailRow(s, titles, i);
    }
    ReportInOrder(s, titles);
    RestStays(debug, s[last].time, last);
  }

  // The candidate that becomes chapter i + 2: a spoken one, or one right after the last of them.
  function MarkOf(g: seq<nat>, i: nat): (p: nat)
    requires i < |g| || g != []
  {
    if i < |g| then g[i] else g[|g| - 1] + 1 + (i - |g|)
  }

  function Mark(s: seq<Candidate>, titles: nat, i: nat): (p: nat)
    requires i < |Greedy(s, |s|, titles)| || Greedy(s, |s|, titles) != []
  {
    MarkOf(Greedy(s, |s|, titles), i)
  }

  // The chooser succeeds exactly when the spoken chain, with the candidates after it, is long
  // enough; and never when it is longer than the titles.
  predicate Succeeds(s: seq<Candidate>, titles: nat) {
    var g := Greedy(s, |s|, titles);
    |g| + 1 == titles || (g != [] && |g| + 1 < titles && titles - |g| <= |s| - LastSpoken(s, titles))
  }

  // A book with one title fails when somebody says "chapter two", although it needs no
  // boundary at all; a book with none always fails.
  lemma {:induction false} SingleTitle(s: seq<Candidate>)
    ensures Succeeds(s, 1) <==> forall i :: 0 <= i < |s| ==> s[i].number != Some(2)
    ensures !Succeeds(s, 0)
  {
    var g := Greedy(s, |s|, 1);
    GreedyIsChain(s, |s|, 1);
    assert g != [] ==> s[g[0]].number == Some(2);
    if i :| 0 <= i < |s| && s[i].number == Some(2) {
      assert Chain(s, |s|, [i]);
      StaysAhead(s, |s|, 1, [i]);
    }
  }

  lemma {:induction false} ReachedCount(s: seq<Candidate>, titles: nat)
    requires Apart(s)
    ensures |Reached(s, titles)| == titles - 1 <==> Succeeds(s, titles)
  {
    var g := Greedy(s, |s|, titles);
    if g != [] && |g| + 1 < titles {
      TrailingIsRest(s, titles);
    }
  }

  // Rows for the candidates behind the one at last.
  ghost predicate RowsBehind(s: seq<Candidate>, last: nat, rows: seq<Row>) {
    && |rows| == |s| - 1 - last
    && forall k :: 0 <= k < |rows| ==> rows[k].time == Round3(s[last + 1 + k].time)
  }

  lemma {:induction false} TailTimes(s: seq<Candidate>, titles: nat)
    requires Apart(s) && Greedy(s, |s|, titles) != [] && |Greedy(s, |s|, titles)| + 1 < titles
    ensures RowsBehind(s, LastSpoken(s, titles), Trailing(s, titles))
  {
    TrailingIsRest(s, titles);
  }

  function TailRows(s: seq<Candidate>, titles: nat): (rows: seq<Row>) {
    if Greedy(s, |s|, titles) == [] then [] else Trailing(s, titles)
  }

  // Rows for the candidates behind the spoken ones g, enough of them for the titles.
  ghost predicate Completes(s: seq<Candidate>, g: seq<nat>, rows: seq<Row>, titles: nat) {
    && |g| < titles
    && (forall j :: 0 <= j < |g| ==> g[j] < |s|)
    && (|g| + 1 < titles ==>
          g != [] && titles - |g| <= |s| - g[|g| - 1] && RowsBehind(s, g[|g| - 1], rows))
  }

  lemma {:induction false} TailCompletes(s: seq<Candidate>, titles: nat)
    requires Apart(s) && Succeeds(s, titles)
    ensures Completes(s, Greedy(s, |s|, titles), TailRows(s, titles), titles)
  {
    if |Greedy(s, |s|, titles)| + 1 < titles {
      TailTimes(s, titles);
    }
  }

  lemma {:induction false} MarkTime(s: seq<Candidate>, g: seq<nat>, rows: seq<Row>, titles: nat, i: nat)
    requires i < titles - 1 && Completes(s, g, rows, titles)
    ensures var all := Extended(TimesAt(s, g), rows, titles);
            && |all| == titles - 1 && MarkOf(g, i) < |s|
            && all[i] == if i < |g| then s[MarkOf(g, i)].time else Round3(s[MarkOf(g, i)].time)
  {
  }

  // A spoken boundary keeps its time; a tail boundary keeps it to the millisecond.
  lemma {:induction false} ReachedTime(s: seq<Candidate>, titles: nat, i: nat)
    requires Apart(s) && Succeeds(s, titles) && i < titles - 1
    ensures |Reached(s, titles)| == titles - 1 && Mark(s, titles, i) < |s|
    ensures var time := s[Mark(s, titles, i)].time;
            Reached(s, titles)[i] == if i < |Greedy(s, |s|, titles)| then time else Round3(time)
  {
    TailCompletes(s, titles);
    MarkTime(s, Greedy(s, |s|, titles), TailRows(s, titles), titles, i);
  }

  lemma {:induction false} ReachedMark(s: seq<Candidate>, titles: nat, i: nat)
    requires Apart(s) && Succeeds(s, titles) && i < titles - 1
    ensures |Reached(s, titles)| == titles - 1 && Mark(s, titles, i) < |s|
    ensures Round3(Reached(s, titles)[i]) == Round3(s[Mark(s, titles, i)].time)
  {
    ReachedTime(s, titles, i);
    RoundTwice(s[Mark(s, titles, i)].time);
  }

  lemma {:induction false} MarksAdvance(s: seq<Candidate>, titles: nat, i: nat, j: nat)
    requires Succeeds(s, titles) && i < j < titles - 1
    ensures Mark(s, titles, i) < Mark(s, titles, j) < |s|
  {
    GreedyIsChain(s, |s|, titles);
    ChainOrder(s, Greedy(s, |s|, titles), i, j);
  }

  lemma {:induction false} ChainOrder(s: seq<Candidate>, g: seq<nat>, i: nat, j: nat)
    requires Chain(s, |s|, g) && i < j
    ensures j < |g| ==> g[i] < g[j] < |s|
    ensures i < |g| ==> g[i] <= g[|g| - 1] < |s|
  {
  }

  lemma {:induction false} RoundedApart(x: real, y: real)
    requires x + 0.75 <= y
    ensures Round3(x) < Round3(y)
  {
  }

  // The boundaries, rounded to milliseconds, still advance.
  lemma {:induction false} ReachedAdvances(s: seq<Candidate>, titles: nat, i: nat, j: nat)
    requires Apart(s) && Succeeds(s, titles) && i < j < titles - 1
    ensures |Reached(s, titles)| == titles - 1 && Round3(Reached(s, titles)[i]) < Round3(Reached(s, titles)[j])
  {
    ReachedMark(s, titles, i);
    ReachedMark(s, titles, j);
    MarksAdvance(s, titles, i, j);
    RoundedApart(s[Mark(s, titles, i)].time, s[Mark(s, titles, j)].time);
  }

  // ---- finalize_chapters ----

  method FinalizeChapters(chapters: seq<Chapter>, duration: real) returns (fixed: seq<Chapter>)
    ensures |fixed| == |chapters|
    ensures forall i :: 0 <= i < |fixed| ==> fixed[i] == Finalized(chapters, duration, i)
  {
    fixed := [];
    for index := 0 to |chapters|
      invariant |fixed| == index
      invariant forall i :: 0 <= i < index ==> fixed[i] == Finalized(chapters, duration, i)
    {
      var chapter := chapters[index];
      var end := if index == |chapters| - 1 then duration else chapters[index + 1].start;
      fixed := fixed + [Chapter(index, Round3(chapter.start), Round3(end), chapter.title)];
    }
  }

  function Finalized(chapters: seq<Chapter>, duration: real, i: nat): (c: Chapter)
    requires i < |chapters|
  {
    Chapter(i, Round3(chapters[i].start),
            Round3(if i == |chapters| - 1 then duration else chapters[i + 1].start), chapters[i].title)
  }

  // One chapter for each title, from zero to the rounded duration, each ending where the next
  // begins.
  ghost predicate Tiles(chapters: seq<Chapter>, titles: seq<string>, duration: real) {
    && |chapters| == |titles| > 0
    && (forall i :: 0 <= i < |titles| ==> chapters[i].id == i && chapters[i].title == titles[i])
    && chapters[0].start == 0.0
    && (forall i, j :: 0 <= i && j == i + 1 < |titles| ==> chapters[i].end == chapters[j].start)
    && chapters[|titles| - 1].end == Round3(duration)
  }

  ghost predicate Advances(chapters: seq<Chapter>) {
    forall i, j :: 0 <= i < j < |chapters| ==> chapters[i].start < chapters[j].start
  }

  lemma {:induction false} FinalizedTiles(titles: seq<string>, times: seq<real>, duration: real, fixed: seq<Chapter>)
    requires |titles| == |times| + 1 && |fixed| == |titles|
    requires forall i :: 0 <= i < |fixed| ==> fixed[i] == Finalized(Seeds(titles, times), duration, i)
    ensures Tiles(fixed, titles, duration)
    ensures forall i :: 0 < i < |fixed| ==> fixed[i].start == Round3(times[i - 1])
  {
    assert Round3(0.0) == 0.0 by { assert (0.0).Floor == 0; }
  }

  lemma {:induction false} StartsAdvance(times: seq<real>, fixed: seq<Chapter>)
    requires |fixed| == |times| + 1 && fixed[0].start == 0.0
    requires forall i :: 0 < i < |fixed| ==> fixed[i].start == times[i - 1]
    requires forall i, j :: 0 <= i < j < |times| ==> times[i] < times[j]
    ensures Advances(fixed) <==> times == [] || times[0] > 0.0
  {
    if times != [] && times[0] > 0.0 {
      forall i, j | 0 <= i < j < |fixed|
        ensures fixed[i].start < fixed[j].start
      {
        assert fixed[j].start == times[j - 1] >= times[0];
      }
    }
    if times != [] && Advances(fixed) {
      assert fixed[0].start < fixed[1].start;
    }
  }

  function RoundedTimes(times: seq<real>): (r: seq<real>)
    ensures |r| == |times| && forall i :: 0 <= i < |r| ==> r[i] == Round3(times[i])
  {
    seq(|times|, i requires 0 <= i < |times| => Round3(times[i]))
  }

  lemma {:induction false} RoundedAdvance(s: seq<Candidate>, titles: nat)
    requires Apart(s) && Succeeds(s, titles) && |Reached(s, titles)| == titles - 1
    ensures var r := RoundedTimes(Reached(s, titles)); forall i, j :: 0 <= i < j < |r| ==> r[i] < r[j]
  {
    var r := RoundedTimes(Reached(s, titles));
    forall i, j | 0 <= i < j < |r|
      ensures r[i] < r[j]
    {
      ReachedAdvances(s, titles, i, j);
    }
  }

  lemma {:induction false} FirstRounded(s: seq<Candidate>, titles: nat)
    requires Apart(s) && Succeeds(s, titles) && titles >= 2
    ensures |Reached(s, titles)| == titles - 1 && Mark(s, titles, 0) < |s|
    ensures Round3(Reached(s, titles)[0]) > 0.0 <==> s[Mark(s, titles, 0)].time > 0.0005
  {
    ReachedMark(s, titles, 0);
    RoundsAboveZero(s[Mark(s, titles, 0)].time);
  }

  // A book's chapters advance exactly when its first boundary does not round to zero.
  lemma {:induction false} AdvancesIff(s: seq<Candidate>, titles: seq<string>, duration: real, fixed: seq<Chapter>)
    requires Apart(s) && Succeeds(s, |titles|) && |fixed| == |titles|
    requires |Reached(s, |titles|)| == |titles| - 1
    requires forall i :: 0 <= i < |fixed| ==> fixed[i] == Finalized(Seeds(titles, Reached(s, |titles|)), duration, i)
    ensures |titles| >= 2 ==> Mark(s, |titles|, 0) < |s|
    ensures Advances(fixed) <==> |titles| < 2 || s[Mark(s, |titles|, 0)].time > 0.0005
  {
    var times := Reached(s, |titles|);
    FinalizedTiles(titles, times, duration, fixed);
    RoundedAdvance(s, |titles|);
    StartsAdvance(RoundedTimes(times), fixed);
    if |titles| >= 2 {
      FirstRounded(s, |titles|);
    }
  }

  // No chapter is empty.
  ghost predicate EachLasts(chapters: seq<Chapter>) {
    forall i :: 0 <= i < |chapters| ==> chapters[i].start < chapters[i].end
  }

  lemma {:induction false} StepsAdvance(chapters: seq<Chapter>, i: nat, j: nat)
    requires EachLasts(chapters) && i < j < |chapters|
    requires forall a, b :: 0 <= a && b == a + 1 < |chapters| ==> chapters[a].end == chapters[b].start
    ensures chapters[i].start < chapters[j].start
  {
    if i < j - 1 {
      StepsAdvance(chapters, i, j - 1);
    }
    assert chapters[j - 1].end == chapters[j].start;
  }

  lemma {:induction false} EachLastsIff(chapters: seq<Chapter>, titles: seq<string>, duration: real)
    requires Tiles(chapters, titles, duration)
    ensures EachLasts(chapters) <==> Advances(chapters) && chapters[|titles| - 1].start < Round3(duration)
  {
    if EachLasts(chapters) {
      forall i, j | 0 <= i < j < |chapters|
        ensures chapters[i].start < chapters[j].start
      {
        StepsAdvance(chapters, i, j);
      }
    } else {
      var i :| 0 <= i < |chapters| && chapters[i].start >= chapters[i].end;
      if i < |chapters| - 1 {
        assert chapters[i].end == chapters[i + 1].start;
      }
    }
  }

  // Where the last chapter begins, before rounding.
  function LastBegins(s: seq<Candidate>, titles: nat): (time: real)
    requires Succeeds(s, titles) && (titles >= 2 ==> Mark(s, titles, titles - 2) < |s|)
  {
    if titles < 2 then 0.0 else s[Mark(s, titles, titles - 2)].time
  }

  lemma {:induction false} LastStart(titles: seq<string>, times: seq<real>, duration: real, fixed: seq<Chapter>)
    requires |titles| == |times| + 1 && |fixed| == |titles|
    requires forall i :: 0 <= i < |fixed| ==> fixed[i] == Finalized(Seeds(titles, times), duration, i)
    ensures fixed[|times|].start == Round3(if times == [] then 0.0 else times[|times| - 1])
  {
    assert Round3(0.0) == 0.0 by { assert (0.0).Floor == 0; }
    FinalizedTiles(titles, times, duration, fixed);
  }

  lemma {:induction false} LastReached(s: seq<Candidate>, titles: nat, i: nat)
    requires Apart(s) && Succeeds(s, titles) && i == titles - 2
    ensures Mark(s, titles, i) < |s|
    ensures |Reached(s, titles)| == titles - 1 && Round3(Reached(s, titles)[i]) == Round3(LastBegins(s, titles))
  {
    ReachedMark(s, titles, i);
  }

  lemma {:induction false} LastStarts(s: seq<Candidate>, titles: nat, times: seq<real>, fixed: seq<Chapter>)
    requires Apart(s) && Succeeds(s, titles) && times == Reached(s, titles)
    requires |times| + 1 == titles == |fixed|
    requires fixed[|times|].start == Round3(if times == [] then 0.0 else times[|times| - 1])
    ensures titles >= 2 ==> Mark(s, titles, titles - 2) < |s|
    ensures fixed[titles - 1].start == Round3(LastBegins(s, titles))
  {
    if times != [] {
      LastReached(s, titles, titles - 2);
    }
  }

  // ---- keeping silences apart, across thresholds ----

  predicate Near(x: real, y: real) {
    -0.75 < x - y < 0.75
  }

  // The times seen after the first n candidates of a threshold.
  function KeptApart(seen: seq<real>, candidates: seq<real>, n: nat): (kept: seq<real>)
    requires n <= |candidates|
    ensures |seen| <= |kept|
  {
    if n == 0 then seen
    else
      var kept := KeptApart(seen, candidates, n - 1);
      if exists i :: 0 <= i < |kept| && Near(candidates[n - 1], kept[i]) then kept else kept + [candidates[n - 1]]
  }

  method KeepApart(seen: seq<real>, candidates: seq<real>) returns (kept: seq<real>)
    ensures kept == KeptApart(seen, candidates, |candidates|)
  {
    kept := seen;
    for n := 0 to |candidates|
      invariant kept == KeptApart(seen, candidates, n)
    {
      if exists i :: 0 <= i < |kept| && Near(candidates[n], kept[i]) {
        continue;
      }
      kept := kept + [candidates[n]];
    }
  }

  ghost predicate PairwiseApart(times: seq<real>) {
    forall i, j :: 0 <= i < j < |times| ==> !Near(times[i], times[j])
  }

  // No two kept silences are near each other, nothing kept is invented, and everything dropped
  // is near something kept.
  lemma {:induction false} KeptIsApart(seen: seq<real>, candidates: seq<real>, n: nat)
    requires PairwiseApart(seen) && n <= |candidates|
    ensures PairwiseApart(KeptApart(seen, candidates, n))
    ensures forall t :: t in KeptApart(seen, candidates, n) ==> t in seen || t in candidates
  {
    if n > 0 {
      KeptIsApart(seen, candidates, n - 1);
    }
  }

  ghost predicate Covered(t: real, kept: seq<real>) {
    exists i :: 0 <= i < |kept| && Near(t, kept[i])
  }

  lemma {:induction false} KeptCovers(seen: seq<real>, candidates: seq<real>, n: nat, k: nat)
    requires k < n <= |candidates|
    ensures Covered(candidates[k], KeptApart(seen, candidates, n))
  {
    var kept := KeptApart(seen, candidates, n - 1);
    var now := KeptApart(seen, candidates, n);
    if k < n - 1 {
      KeptCovers(seen, candidates, n - 1, k);
      var i :| 0 <= i < |kept| && Near(candidates[k], kept[i]);
      assert Near(candidates[k], now[i]);
    } else if now == kept + [candidates[k]] {
      assert Near(candidates[k], now[|kept|]);
    }
  }

  // ---- analyze_book ----

  // What was heard after each kept silence; the transcription is an input.
  function Transcribed(times: seq<real>, hear: real -> Option<int>): (s: seq<Candidate>)
    ensures |s| == |times|
  {
    seq(|times|, i requires 0 <= i < |times| => Candidate(times[i], hear(times[i])))
  }

  lemma {:induction false} InsertApart(s: seq<Candidate>, x: Candidate)
    requires Apart(s) && forall i :: 0 <= i < |s| ==> !Near(s[i].time, x.time)
    ensures Apart(Insert(s, x, CandidateTime))
  {
    var k := Slot(s, |s|, x, CandidateTime);
    assert k > 0 ==> CandidateTime(s[k - 1]) <= x.time;
    assert k < |s| ==> x.time < CandidateTime(s[k]);
    var r := Insert(s, x, CandidateTime);
    assert forall i :: 0 <= i < k ==> r[i] == s[i] && s[i].time + 0.75 <= x.time;
    assert forall i :: k < i < |r| ==> r[i] == s[i - 1] && x.time + 0.75 <= s[i - 1].time;
  }

  lemma {:induction false} SortedFrom(s: seq<Candidate>, n: nat, i: nat)
    requires n <= |s| && i < n
    ensures exists k :: 0 <= k < n && SortFirst(s, n, CandidateTime)[i] == s[k]
  {
    SortKeeps(s, n, CandidateTime);
    var r := SortFirst(s, n, CandidateTime);
    assert r[i] in multiset(r);
    assert r[i] in s[..n];
  }

  // Sorted, silences that are pairwise apart are apart in time order.
  lemma {:induction false} SortedApart(s: seq<Candidate>, n: nat)
    requires n <= |s| && forall i, j :: 0 <= i < j < |s| ==> !Near(s[i].time, s[j].time)
    ensures Apart(SortFirst(s, n, CandidateTime))
  {
    if n > 0 {
      SortedApart(s, n - 1);
      var r := SortFirst(s, n - 1, CandidateTime);
      forall i | 0 <= i < |r|
        ensures !Near(r[i].time, s[n - 1].time)
      {
        SortedFrom(s, n - 1, i);
        var k :| 0 <= k < n - 1 && r[i] == s[k];
      }
      InsertApart(r, s[n - 1]);
    }
  }

  // The silences kept up to and including the first n thresholds.
  function SeenAfter(silences: seq<seq<real>>, n: nat): (seen: seq<real>)
    requires n <= |silences|
  {
    if n == 0 then [] else KeptApart(SeenAfter(silences, n - 1), silences[n - 1], |silences[n - 1]|)
  }

  // The candidates the chooser is given at a threshold, in the order it sorts them.
  function CandidatesAt(silences: seq<seq<real>>, k: nat, hear: real -> Option<int>): (s: seq<Candidate>)
    requires k < |silences|
  {
    SortByTime(Transcribed(SeenAfter(silences, k + 1), hear), CandidateTime)
  }

  lemma {:induction false} SeenApart(silences: seq<seq<real>>, n: nat)
    requires n <= |silences|
    ensures PairwiseApart(SeenAfter(silences, n))
    ensures forall t :: t in SeenAfter(silences, n) ==> exists k :: 0 <= k < n && t in silences[k]
  {
    if n > 0 {
      SeenApart(silences, n - 1);
      KeptIsApart(SeenAfter(silences, n - 1), silences[n - 1], |silences[n - 1]|);
    }
  }

  // A finished book: it tiles; it advances exactly when its first boundary is more than half a
  // millisecond in; and no chapter is empty exactly when, moreover, the last one begins before the
  // end, to the millisecond.
  ghost predicate IsBook(chapters: seq<Chapter>, s: seq<Candidate>, titles: seq<string>, duration: real) {
    && Succeeds(s, |titles|)
    && Tiles(chapters, titles, duration)
    && (|titles| >= 2 ==> Mark(s, |titles|, |titles| - 2) < |s|)
    && (Advances(chapters) <==> |titles| < 2 || s[Mark(s, |titles|, 0)].time > 0.0005)
    && (EachLasts(chapters) <==>
          (|titles| < 2 || s[Mark(s, |titles|, 0)].time > 0.0005)
          && Round3(LastBegins(s, |titles|)) < Round3(duration))
  }

  method TryThreshold(titles: seq<string>, duration: real, seen: seq<real>, hear: real -> Option<int>)
    returns (chapters: Option<seq<Chapter>>)
    requires PairwiseApart(seen)
    ensures var s := SortByTime(Transcribed(seen, hear), CandidateTime);
            && (chapters.Some? <==> Succeeds(s, |titles|))
            && (chapters.Some? ==> IsBook(chapters.value, s, titles, duration))
  {
    var debug, seeds := ChooseBoundaries(titles, Transcribed(seen, hear));
    ghost var s := SortByTime(Transcribed(seen, hear), CandidateTime);
    SortedApart(Transcribed(seen, hear), |seen|);
    ReachedCount(s, |titles|);
    if seeds.None? {
      return None;
    }
    var fixed := FinalizeChapters(seeds.value, duration);
    FinalizedTiles(titles, Reached(s, |titles|), duration, fixed);
    AdvancesIff(s, titles, duration, fixed);
    EachLastsIff(fixed, titles, duration);
    LastStart(titles, Reached(s, |titles|), duration, fixed);
    LastStarts(s, |titles|, Reached(s, |titles|), fixed);
    chapters := Some(fixed);
  }

  // A threshold with silences, on which the chooser succeeds.
  ghost predicate SucceedsAt(silences: seq<seq<real>>, k: nat, hear: real -> Option<int>, titles: nat)
    requires k < |silences|
  {
    silences[k] != [] && Succeeds(CandidatesAt(silences, k, hear), titles)
  }

  // The first threshold that succeeds decides; no book only when none does.
  method AnalyzeBook(titles: seq<string>, duration: real, silences: seq<seq<real>>, hear: real -> Option<int>)
    returns (chapters: Option<seq<Chapter>>, ghost at: nat)
    ensures at <= |silences| && forall k :: 0 <= k < at ==> !SucceedsAt(silences, k, hear, |titles|)
    ensures chapters.None? <==> at == |silences|
    ensures chapters.Some? ==> SucceedsAt(silences, at, hear, |titles|)
    ensures chapters.Some? ==> IsBook(chapters.value, CandidatesAt(silences, at, hear), titles, duration)
  {
    var seen: seq<real> := [];
    for k := 0 to |silences|
      invariant seen == SeenAfter(silences, k)
      invariant forall i :: 0 <= i < k ==> !SucceedsAt(silences, i, hear, |titles|)
    {
      var candidates := silences[k];
      if candidates == [] {
        continue;
      }
      seen := KeepApart(seen, candidates);
      SeenApart(silences, k + 1);
      chapters := TryThreshold(titles, duration, seen, hear);
      if chapters.Some? {
        return chapters, k;
      }
    }
    return None, |silences|;
  }

  lemma {:induction false} CandidateWasHeard(silences: seq<seq<real>>, k: nat, hear: real -> Option<int>, i: nat)
    requires k < |silences| && i < |CandidatesAt(silences, k, hear)|
    ensures exists j :: 0 <= j <= k && CandidatesAt(silences, k, hear)[i].time in silences[j]
  {
    var seen := SeenAfter(silences, k + 1);
    var heard := Transcribed(seen, hear);
    SortedFrom(heard, |heard|, i);
    var j :| 0 <= j < |heard| && SortFirst(heard, |heard|, CandidateTime)[i] == heard[j];
    SeenApart(silences, k + 1);
    assert seen[j] in seen;
  }

  // With every silence more than half a millisecond in, the chapters advance strictly from zero.
  lemma {:induction false} BookAdvances(chapters: seq<Chapter>, silences: seq<seq<real>>, at: nat,
                                        hear: real -> Option<int>, titles: seq<string>, duration: real)
    requires at < |silences| && IsBook(chapters, CandidatesAt(silences, at, hear), titles, duration)
    requires forall k, t :: 0 <= k < |silences| && t in silences[k] ==> t > 0.0005
    ensures Advances(chapters)
  {
    if |titles| >= 2 {
      CandidateWasHeard(silences, at, hear, Mark(CandidatesAt(silences, at, hear), |titles|, 0));
    }
  }

  // And if every silence is also more than a millisecond before the end, no chapter is empty.
  lemma {:induction false} BookLasts(chapters: seq<Chapter>, silences: seq<seq<real>>, at: nat,
                                     hear: real -> Option<int>, titles: seq<string>, duration: real)
    requires at < |silences| && silences[at] != []
    requires IsBook(chapters, CandidatesAt(silences, at, hear), titles, duration)
    requires forall k, t :: 0 <= k < |silences| && t in silences[k] ==> 0.0005 < t && t + 0.001 < duration
    ensures EachLasts(chapters)
  {
    var s := CandidatesAt(silences, at, hear);
    if |titles| < 2 {
      var t := silences[at][0];
      assert t in silences[at];
      assert LastBegins(s, |titles|) == 0.0 < t;
    } else {
      CandidateWasHeard(silences, at, hear, Mark(s, |titles|, 0));
      CandidateWasHeard(silences, at, hear, Mark(s, |titles|, |titles| - 2));
      assert LastBegins(s, |titles|) + 0.001 < duration;
    }
  }
}
