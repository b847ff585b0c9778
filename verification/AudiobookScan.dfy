// The boundary chooser of scripts/audiobook-chapter-rebuild.py: a greedy scan for spoken
// chapter numbers, a gap fill, a tail fill.  A candidate is a silence in the recording; the
// number is what was heard just after it, None when no chapter number was.
module AudiobookScan {
  import opened Options

  datatype Candidate = Candidate(time: real, number: Option<int>)

  // Why a candidate became a boundary, if it did.
  datatype Use = Unused | Spoken | GapFill | TailFill

  // A line of the debug report; `at` is its place there, by which it is updated later.
  datatype Row = Row(at: nat, time: real, number: Option<int>, use: Use)

  // ---- rounding to milliseconds, ties to even ----

  function RoundHalfEven(x: real): (n: int)
    ensures x - 0.5 <= n as real <= x + 0.5
  {
    var below := x.Floor;
    var rest := x - below as real;
    if rest < 0.5 || (rest == 0.5 && below % 2 == 0) then below else below + 1
  }

  function Round3(x: real): (r: real)
    ensures x - 0.0005 <= r <= x + 0.0005
  {
    RoundHalfEven(x * 1000.0) as real / 1000.0
  }

  lemma {:induction false} RoundKeepsOrder(x: real, y: real)
    requires x <= y
    ensures Round3(x) <= Round3(y)
  {
    var a, b := x * 1000.0, y * 1000.0;
    assert a.Floor <= b.Floor;
    assert RoundHalfEven(a) <= RoundHalfEven(b);
  }

  lemma {:induction false} RoundTwice(x: real)
    ensures Round3(Round3(x)) == Round3(x)
  {
    var n := RoundHalfEven(x * 1000.0);
    assert (n as real / 1000.0) * 1000.0 == n as real;
    assert (n as real).Floor == n;
  }

  // The first boundary survives rounding exactly when it is more than half a millisecond in.
  lemma {:induction false} RoundsAboveZero(x: real)
    ensures Round3(x) > 0.0 <==> x > 0.0005
  {
    var a := x * 1000.0;
    if x > 0.0005 {
      assert a.Floor >= 0;
      assert RoundHalfEven(a) >= 1;
    } else {
      assert a.Floor <= 0;
      assert RoundHalfEven(a) <= 0;
    }
  }

  // ---- what the scan accepts ----

  // The number after which the scan stops: the test comes only after an acceptance, so a
  // single-title book still accepts a spoken chapter two.
  function Cap(titles: nat): (c: nat)
    ensures c >= 2
  {
    if titles < 2 then 2 else titles
  }

  // The positions accepted among the first n candidates: each time, the first that says the
  // next number.
  function Greedy(s: seq<Candidate>, n: nat, titles: nat): (g: seq<nat>)
    requires n <= |s|
    ensures |g| < Cap(titles)
    ensures forall j :: 0 <= j < |g| ==> g[j] < n
  {
    if n == 0 then []
    else
      var g := Greedy(s, n - 1, titles);
      if |g| + 2 <= Cap(titles) && s[n - 1].number == Some(|g| + 2) then g + [n - 1] else g
  }

  // Positions below n, in time order, that say two, three, four, ...
  predicate Chain(s: seq<Candidate>, n: nat, p: seq<nat>)
    requires n <= |s|
  {
    && (forall j :: 0 <= j < |p| ==> p[j] < n && s[p[j]].number == Some(j + 2))
    && (forall j, k :: 0 <= j < k < |p| ==> p[j] < p[k])
  }

  lemma {:induction false} GreedyIsChain(s: seq<Candidate>, n: nat, titles: nat)
    requires n <= |s|
    ensures Chain(s, n, Greedy(s, n, titles))
  {
    if n > 0 {
      GreedyIsChain(s, n - 1, titles);
    }
  }

  // No chain, however chosen, gets further than the scan, or gets anywhere sooner.
  lemma {:induction false} StaysAhead(s: seq<Candidate>, n: nat, titles: nat, p: seq<nat>)
    requires n <= |s| && Chain(s, n, p) && |p| < Cap(titles)
    ensures |p| <= |Greedy(s, n, titles)|
    ensures forall j :: 0 <= j < |p| ==> Greedy(s, n, titles)[j] <= p[j]
  {
    if n == 0 {
    } else if p != [] && p[|p| - 1] == n - 1 {
      var q := p[..|p| - 1];
      StaysAhead(s, n - 1, titles, q);
      assert forall j :: 0 <= j < |q| ==> p[j] == q[j];
    } else {
      StaysAhead(s, n - 1, titles, p);
    }
  }

  // So the scan accepts 2..m exactly when the numbers 2..m can be heard in that order.
  ghost predicate Heard(s: seq<Candidate>, m: nat) {
    exists p: seq<nat> :: |p| + 1 == m && Chain(s, |s|, p)
  }

  lemma {:induction false} LongestChain(s: seq<Candidate>, titles: nat, m: nat)
    requires 1 <= m <= Cap(titles)
    ensures m <= |Greedy(s, |s|, titles)| + 1 <==> Heard(s, m)
  {
    var g := Greedy(s, |s|, titles);
    GreedyIsChain(s, |s|, titles);
    if m <= |g| + 1 {
      assert Chain(s, |s|, g[..m - 1]) && |g[..m - 1]| + 1 == m;
    }
    if Heard(s, m) {
      var p: seq<nat> :| |p| + 1 == m && Chain(s, |s|, p);
      StaysAhead(s, |s|, titles, p);
    }
  }

  // ---- the scan ----

  // How many candidates the scan looks at.
  function Scanned(s: seq<Candidate>, titles: nat): (n: nat)
    ensures n <= |s|
  {
    var g := Greedy(s, |s|, titles);
    if |g| + 1 == Cap(titles) then g[|g| - 1] + 1 else |s|
  }

  function RowOf(s: seq<Candidate>, g: seq<nat>, i: nat): (row: Row)
    requires i < |s|
  {
    Row(i, Round3(s[i].time), s[i].number, if i in g then Spoken else Unused)
  }

  ghost predicate IsReport(s: seq<Candidate>, g: seq<nat>, debug: seq<Row>) {
    |debug| <= |s| && forall i :: 0 <= i < |debug| ==> debug[i] == RowOf(s, g, i)
  }

  ghost predicate IsAccepted(s: seq<Candidate>, g: seq<nat>, accepted: map<int, real>)
    requires forall j :: 0 <= j < |g| ==> g[j] < |s|
  {
    && (forall n :: n in accepted <==> 2 <= n < |g| + 2)
    && (forall n :: n in accepted ==> accepted[n] == s[g[n - 2]].time)
  }

  lemma {:induction false} FullChainStays(s: seq<Candidate>, titles: nat, i: nat, n: nat)
    requires i <= n <= |s| && |Greedy(s, i, titles)| + 1 == Cap(titles)
    ensures Greedy(s, n, titles) == Greedy(s, i, titles)
  {
    if i < n {
      FullChainStays(s, titles, i, n - 1);
    }
  }

  // What one candidate adds to the report and to the accepted boundaries.
  lemma {:induction false} Missed(s: seq<Candidate>, g: seq<nat>, debug: seq<Row>)
    requires IsReport(s, g, debug) && |debug| < |s|
    requires forall j :: 0 <= j < |g| ==> g[j] < |debug|
    ensures IsReport(s, g, debug + [Row(|debug|, Round3(s[|debug|].time), s[|debug|].number, Unused)])
  {
  }

  lemma {:induction false} Taken(s: seq<Candidate>, g: seq<nat>, debug: seq<Row>)
    requires IsReport(s, g, debug) && |debug| < |s|
    ensures IsReport(s, g + [|debug|], debug + [Row(|debug|, Round3(s[|debug|].time), s[|debug|].number, Spoken)])
  {
    var h, later := g + [|debug|], debug + [Row(|debug|, Round3(s[|debug|].time), s[|debug|].number, Spoken)];
    assert h[|g|] == |debug|;
    forall i | 0 <= i < |debug|
      ensures later[i] == RowOf(s, h, i)
    {
      assert debug[i] == RowOf(s, g, i);
      assert i in g <==> i in h;
    }
  }

  lemma {:induction false} Accepted(s: seq<Candidate>, g: seq<nat>, i: nat, accepted: map<int, real>)
    requires i < |s| && forall j :: 0 <= j < |g| ==> g[j] < i
    requires IsAccepted(s, g, accepted)
    ensures IsAccepted(s, g + [i], accepted[|g| + 2 := s[i].time])
  {
  }

  // One round of the scan: a candidate that does not say the next number, and one that does.
  lemma {:induction false} ScanSkips(s: seq<Candidate>, titles: nat, g: seq<nat>, debug: seq<Row>)
    requires |debug| < |s| && g == Greedy(s, |debug|, titles) && IsReport(s, g, debug)
    requires s[|debug|].number != Some(|g| + 2)
    ensures var i := |debug|;
            && g == Greedy(s, i + 1, titles)
            && IsReport(s, g, debug + [Row(i, Round3(s[i].time), s[i].number, Unused)])
  {
    Missed(s, g, debug);
  }

  lemma {:induction false} ScanTakes(s: seq<Candidate>, titles: nat, g: seq<nat>, accepted: map<int, real>,
                                     debug: seq<Row>)
    requires |debug| < |s| && g == Greedy(s, |debug|, titles) && |g| + 2 <= Cap(titles)
    requires IsAccepted(s, g, accepted) && IsReport(s, g, debug) && s[|debug|].number == Some(|g| + 2)
    ensures var i := |debug|;
            && g + [i] == Greedy(s, i + 1, titles)
            && IsAccepted(s, g + [i], accepted[|g| + 2 := s[i].time])
            && IsReport(s, g + [i], debug + [Row(i, Round3(s[i].time), s[i].number, Spoken)])
  {
    Taken(s, g, debug);
    Accepted(s, g, |debug|, accepted);
  }

  method Scan(s: seq<Candidate>, titles: nat) returns (accepted: map<int, real>, debug: seq<Row>)
    ensures IsAccepted(s, Greedy(s, |s|, titles), accepted)
    ensures |debug| == Scanned(s, titles) && IsReport(s, Greedy(s, |s|, titles), debug)
  {
    accepted, debug := map[], [];
    var nextChapter := 2;
    ghost var g := [];
    var i := 0;
    while i < |s|
      invariant 0 <= i <= |s| && |debug| == i
      invariant g == Greedy(s, i, titles) && nextChapter == |g| + 2 <= Cap(titles)
      invariant IsAccepted(s, g, accepted) && IsReport(s, g, debug)
    {
      if s[i].number != Some(nextChapter) {
        ScanSkips(s, titles, g, debug);
        debug := debug + [Row(i, Round3(s[i].time), s[i].number, Unused)];
        i := i + 1;
        continue;
      }
      ScanTakes(s, titles, g, accepted, debug);
      debug := debug + [Row(i, Round3(s[i].time), s[i].number, Spoken)];
      accepted := accepted[nextChapter := s[i].time];
      nextChapter := nextChapter + 1;
      g := g + [i];
      i := i + 1;
      if nextChapter > titles {
        FullChainStays(s, titles, i, |s|);
        assert Scanned(s, titles) == i;
        return;
      }
    }
  }
}
