// choose_boundaries as a whole, and what it chooses
// (scripts/audiobook-chapter-rebuild.py).
module AudiobookChapters {
  import opened Options
  import opened AudiobookScan
  import opened AudiobookFill

  datatype Chapter = Chapter(id: nat, start: real, end: real, title: string)

  // ---- the boundaries, given candidates in time order ----

  function Report(s: seq<Candidate>, titles: nat): (debug: seq<Row>)
    ensures IsReport(s, Greedy(s, |s|, titles), debug) && Placed(debug)
  {
    var g := Greedy(s, |s|, titles);
    seq(Scanned(s, titles), i requires 0 <= i < |s| => RowOf(s, g, i))
  }

  // The unused rows after a time, in time order.
  function RowsAfter(debug: seq<Row>, time: real): (rows: seq<Row>)
    requires Placed(debug)
    ensures RowsOf(rows, debug)
  {
    SortedRows(Between(debug, |debug|, time, None), debug)
  }

  // Those after the last spoken chapter.
  function Trailing(s: seq<Candidate>, titles: nat): (rows: seq<Row>)
    requires |Greedy(s, |s|, titles)| > 0
  {
    var g := Greedy(s, |s|, titles);
    RowsAfter(Report(s, titles), s[g[|g| - 1]].time)
  }

  function TimesAt(s: seq<Candidate>, g: seq<nat>): (times: seq<real>)
    requires forall j :: 0 <= j < |g| ==> g[j] < |s|
    ensures |times| == |g| && forall j :: 0 <= j < |g| ==> times[j] == s[g[j]].time
  {
    seq(|g|, j requires 0 <= j < |g| => s[g[j]].time)
  }

  function SpokenTimes(s: seq<Candidate>, titles: nat): (times: seq<real>)
    ensures |times| == |Greedy(s, |s|, titles)|
  {
    TimesAt(s, Greedy(s, |s|, titles))
  }

  function RowTimes(rows: seq<Row>, k: nat): (times: seq<real>)
    requires k <= |rows|
    ensures |times| == k && forall i :: 0 <= i < k ==> times[i] == rows[i].time
  {
    seq(k, i requires 0 <= i < k => rows[i].time)
  }

  // The tail fill: the rows complete the chapters, or none is used.
  function Extended(times: seq<real>, rows: seq<Row>, titles: nat): (all: seq<real>) {
    var needed := titles - 1 - |times|;
    if needed > 0 && |rows| >= needed then times + RowTimes(rows, needed) else times
  }

  // The times of the chapters 2, 3, ... in the end.
  function Reached(s: seq<Candidate>, titles: nat): (times: seq<real>) {
    var spoken := SpokenTimes(s, titles);
    Extended(spoken, if spoken == [] then [] else Trailing(s, titles), titles)
  }

  // ---- dictionaries in key order ----

  lemma {:induction false} Inhabited(s: set<int>)
    requires s != {}
    ensures exists k :: k in s
  {
    if forall k :: k !in s {
      assert false;
    }
  }

  predicate IsLeast(s: set<int>, k: int) {
    k in s && forall x | x in s :: k <= x
  }

  lemma {:induction false} Least(s: set<int>) returns (k: int)
    requires s != {}
    ensures IsLeast(s, k)
    decreases |s|
  {
    Inhabited(s);
    k :| k in s;
    var rest := s - {k};
    if rest != {} {
      var m := Least(rest);
      LesserIsLeast(s, k, m);
      k := if k <= m then k else m;
    } else {
      assert s == {k} + rest;
    }
  }

  lemma {:induction false} LesserIsLeast(s: set<int>, k: int, m: int)
    requires k in s && IsLeast(s - {k}, m)
    ensures IsLeast(s, if k <= m then k else m)
  {
    forall x | x in s
      ensures (if k <= m then k else m) <= x
    {
      assert x == k || x in s - {k};
    }
  }

  lemma {:induction false} HasLeast(s: set<int>)
    requires s != {}
    ensures exists k :: IsLeast(s, k)
  {
    var k := Least(s);
  }

  method SortedKeys(m: map<int, real>) returns (keys: seq<int>)
    ensures forall i, j :: 0 <= i < j < |keys| ==> keys[i] < keys[j]
    ensures forall k :: k in keys <==> k in m
  {
    var rest := m.Keys;
    keys := [];
    while rest != {}
      invariant rest <= m.Keys
      invariant forall i, j :: 0 <= i < j < |keys| ==> keys[i] < keys[j]
      invariant forall k :: k in keys <==> k in m && k !in rest
      invariant forall i, k :: 0 <= i < |keys| && k in rest ==> keys[i] < k
      decreases |rest|
    {
      HasLeast(rest);
      var k :| k in rest && IsLeast(rest, k);
      keys := keys + [k];
      rest := rest - {k};
    }
  }

  lemma {:induction false} KeysAt(keys: seq<int>, end: int, i: nat)
    requires forall a, b :: 0 <= a < b < |keys| ==> keys[a] < keys[b]
    requires forall k :: k in keys <==> 2 <= k < end
    requires i < |keys|
    ensures forall j :: 0 <= j <= i ==> keys[j] == j + 2
  {
    if i > 0 {
      KeysAt(keys, end, i - 1);
      assert keys[i - 1] < keys[i];
    }
    assert keys[i] in keys;
    assert i + 2 <= keys[i];
    assert i + 2 in keys;
  }

  // The keys 2 .. end - 1 in order, and how many they are.
  lemma {:induction false} KeysAre(keys: seq<int>, end: int)
    requires 2 <= end
    requires forall a, b :: 0 <= a < b < |keys| ==> keys[a] < keys[b]
    requires forall k :: k in keys <==> 2 <= k < end
    ensures |keys| == end - 2 && forall j :: 0 <= j < |keys| ==> keys[j] == j + 2
  {
    if keys != [] {
      KeysAt(keys, end, |keys| - 1);
      assert keys[|keys| - 1] in keys;
    }
    assert |keys| + 2 !in keys;
  }

  // ---- the chooser ----

  function Seeds(titles: seq<string>, times: seq<real>): (chapters: seq<Chapter>)
    requires |titles| == |times| + 1
    ensures |chapters| == |titles|
  {
    seq(|titles|, i requires 0 <= i < |titles| => Chapter(i, ([0.0] + times)[i], (times + [0.0])[i], titles[i]))
  }

  // The dictionary with the chapters 2, 3, ... at these times.
  function Numbered(times: seq<real>): (accepted: map<int, real>)
    ensures forall n :: n in accepted <==> 2 <= n < |times| + 2
    ensures forall n :: n in accepted ==> accepted[n] == times[n - 2]
    decreases |times|
  {
    if times == [] then map[]
    else Numbered(times[..|times| - 1])[|times| + 1 := times[|times| - 1]]
  }

  lemma {:induction false} NumberOneMore(times: seq<real>, t: real)
    ensures Numbered(times + [t]) == Numbered(times)[|times| + 2 := t]
  {
    assert (times + [t])[..|times|] == times;
  }

  lemma {:induction false} RowTimesStep(times: seq<real>, rows: seq<Row>, k: nat)
    requires 0 < k <= |rows|
    ensures times + RowTimes(rows, k) == times + RowTimes(rows, k - 1) + [rows[k - 1].time]
  {
  }

  lemma {:induction false} TailAdds(p: Progress, times: seq<real>, rows: seq<Row>, k: nat)
    requires p.accepted == Numbered(times) && k <= |rows| && RowsOf(rows, p.debug)
    ensures Assign(p, rows, k, |times| + 2, TailFill).accepted == Numbered(times + RowTimes(rows, k))
  {
    if k == 0 {
      assert times + RowTimes(rows, 0) == times;
    } else {
      TailAdds(p, times, rows, k - 1);
      RowTimesStep(times, rows, k);
      NumberOneMore(times + RowTimes(rows, k - 1), rows[k - 1].time);
    }
  }

  lemma {:induction false} CountNumbered(times: seq<real>)
    ensures |Numbered(times)| == |times|
    decreases |times|
  {
    if times != [] {
      CountNumbered(times[..|times| - 1]);
    }
  }

  lemma {:induction false} NoGaps(p: Progress, keys: seq<int>, times: seq<real>)
    requires p.accepted == Numbered(times) && Placed(p.debug)
    requires |keys| == |times| && forall j :: 0 <= j < |keys| ==> keys[j] == j + 2
    ensures Known([1] + keys, p.accepted) && GapsFilled(p, [1] + keys, |keys|) == p
  {
    var known := [1] + keys;
    assert forall i :: 0 <= i < |known| ==> known[i] == i + 1;
    NoGapsToFill(p, known, |keys|);
  }

  method FillScanned(accepted: map<int, real>, debug: seq<Row>, ghost times: seq<real>) returns (p: Progress)
    requires accepted == Numbered(times) && Placed(debug)
    ensures p == Progress(accepted, debug)
  {
    var keys := SortedKeys(accepted);
    KeysAre(keys, |times| + 2);
    NoGaps(Progress(accepted, debug), keys, times);
    p := FillGaps(Progress(accepted, debug), [1] + keys);
  }

  method MaxKey(accepted: map<int, real>, ghost times: seq<real>) returns (last: int)
    requires accepted == Numbered(times) && times != []
    ensures last == |times| + 1
  {
    var keys := SortedKeys(accepted);
    KeysAre(keys, |times| + 2);
    last := keys[|keys| - 1];
  }

  lemma {:induction false} ScanHolds(s: seq<Candidate>, titles: nat, accepted: map<int, real>, debug: seq<Row>)
    requires IsAccepted(s, Greedy(s, |s|, titles), accepted)
    requires |debug| == Scanned(s, titles) && IsReport(s, Greedy(s, |s|, titles), debug)
    ensures accepted == Numbered(SpokenTimes(s, titles)) && debug == Report(s, titles)
  {
  }

  method ScanAndFillGaps(s: seq<Candidate>, titles: nat) returns (p: Progress)
    ensures p == Progress(Numbered(SpokenTimes(s, titles)), Report(s, titles))
  {
    var accepted, debug := Scan(s, titles);
    ScanHolds(s, titles, accepted, debug);
    p := FillScanned(accepted, debug, SpokenTimes(s, titles));
  }

  method FillTail(p: Progress, last: int, titles: nat, ghost times: seq<real>) returns (q: Progress)
    requires p.accepted == Numbered(times) && times != [] && last == |times| + 1 && Placed(p.debug)
    ensures q.accepted == Numbered(Extended(times, RowsAfter(p.debug, times[|times| - 1]), titles))
  {
    q := p;
    if last < titles {
      var trailing := RowsAfter(p.debug, p.accepted[last]);
      var needed := titles - last;
      if |trailing| >= needed {
        TailAdds(p, times, trailing, needed);
        q := AssignRows(p, trailing, needed, last + 1, TailFill);
      }
    }
  }

  // The scan, the gap fill and the tail fill, one after the other.
  method AcceptBoundaries(s: seq<Candidate>, titles: nat) returns (p: Progress)
    ensures p.accepted == Numbered(Reached(s, titles))
  {
    p := ScanAndFillGaps(s, titles);
    ghost var spoken := SpokenTimes(s, titles);
    CountNumbered(spoken);
    if |p.accepted| > 0 {
      var last := MaxKey(p.accepted, spoken);
      p := FillTail(p, last, titles, spoken);
    }
  }

  // The times of the accepted chapters 2, 3, ... in turn, one for each title but the first.
  method ListTimes(accepted: map<int, real>, titles: nat, ghost times: seq<real>) returns (list: seq<real>)
    requires accepted == Numbered(times) && |times| == titles - 1
    ensures list == times
  {
    list := seq(titles - 1, i requires 0 <= i < titles - 1 => accepted[i + 2]);
  }

  // An error exactly when the times reached are not one for each title but the first.
  method ChooseBoundaries(titles: seq<string>, candidates: seq<Candidate>)
    returns (debug: seq<Row>, chapters: Option<seq<Chapter>>)
    ensures var times := Reached(SortByTime(candidates, CandidateTime), |titles|);
            chapters == if |times| == |titles| - 1 then Some(Seeds(titles, times)) else None
  {
    var s := SortByTime(candidates, CandidateTime);
    var p := AcceptBoundaries(s, |titles|);
    debug := p.debug;
    ghost var reached := Reached(s, |titles|);
    CountNumbered(reached);
    if |p.accepted| != |titles| - 1 {
      return debug, None;
    }
    var times := ListTimes(p.accepted, |titles|, reached);
    chapters := Some(Seeds(titles, times));
  }
}
