// What choose_boundaries does with the candidates the scan passed over: a fill of the gaps
// between accepted chapters, then a fill of the tail (scripts/audiobook-chapter-rebuild.py).
module AudiobookFill {
  import opened Options
  import opened AudiobookScan

  // ---- sorting by time, stable ----

  predicate InTimeOrder<T(!new)>(s: seq<T>, time: T -> real) {
    forall i, j :: 0 <= i < j < |s| ==> time(s[i]) <= time(s[j])
  }

  // Where x goes: behind everything that is not later.
  function Slot<T(!new)>(s: seq<T>, n: nat, x: T, time: T -> real): (k: nat)
    requires n <= |s|
    ensures k <= n
    ensures k > 0 ==> time(s[k - 1]) <= time(x)
    ensures forall i :: k <= i < n ==> time(x) < time(s[i])
  {
    if n == 0 || time(s[n - 1]) <= time(x) then n else Slot(s, n - 1, x, time)
  }

  function Insert<T(!new)>(s: seq<T>, x: T, time: T -> real): (r: seq<T>)
    ensures |r| == |s| + 1
  {
    var k := Slot(s, |s|, x, time);
    s[..k] + [x] + s[k..]
  }

  // The first n, sorted.
  function SortFirst<T(!new)>(s: seq<T>, n: nat, time: T -> real): (r: seq<T>)
    requires n <= |s|
    ensures |r| == n
  {
    if n == 0 then [] else Insert(SortFirst(s, n - 1, time), s[n - 1], time)
  }

  function SortByTime<T(!new)>(s: seq<T>, time: T -> real): (r: seq<T>)
    ensures |r| == |s|
  {
    SortFirst(s, |s|, time)
  }

  lemma {:induction false} InsertKeeps<T(!new)>(s: seq<T>, x: T, time: T -> real)
    ensures multiset(Insert(s, x, time)) == multiset(s) + multiset{x}
  {
    var k := Slot(s, |s|, x, time);
    assert s == s[..k] + s[k..];
  }

  lemma {:induction false} InsertSorts<T(!new)>(s: seq<T>, x: T, time: T -> real)
    requires InTimeOrder(s, time)
    ensures InTimeOrder(Insert(s, x, time), time)
  {
    var k := Slot(s, |s|, x, time);
    var r := Insert(s, x, time);
    assert forall i :: 0 <= i < k ==> r[i] == s[i] && time(s[i]) <= time(x);
    assert r[k] == x;
    assert forall i :: k < i < |r| ==> r[i] == s[i - 1];
  }

  lemma {:induction false} TakeOneMore<T(!new)>(s: seq<T>, n: nat)
    requires 0 < n <= |s|
    ensures multiset(s[..n]) == multiset(s[..n - 1]) + multiset{s[n - 1]}
  {
    assert s[..n] == s[..n - 1] + [s[n - 1]];
  }

  lemma {:induction false} KeepsNext<T(!new)>(s: seq<T>, n: nat, sorted: seq<T>, time: T -> real)
    requires n < |s| && multiset(sorted) == multiset(s[..n])
    ensures multiset(Insert(sorted, s[n], time)) == multiset(s[..n + 1])
  {
    InsertKeeps(sorted, s[n], time);
    TakeOneMore(s, n + 1);
  }

  // Sorting loses nothing, puts everything in order, and leaves alone what is in order.
  lemma {:induction false} SortKeeps<T(!new)>(s: seq<T>, n: nat, time: T -> real)
    requires n <= |s|
    ensures multiset(SortFirst(s, n, time)) == multiset(s[..n])
  {
    if n > 0 {
      SortKeeps(s, n - 1, time);
      KeepsNext(s, n - 1, SortFirst(s, n - 1, time), time);
    } else {
      assert s[..n] == [];
    }
  }

  lemma {:induction false} SortSorts<T(!new)>(s: seq<T>, n: nat, time: T -> real)
    requires n <= |s|
    ensures InTimeOrder(SortFirst(s, n, time), time)
  {
    if n > 0 {
      SortSorts(s, n - 1, time);
      InsertSorts(SortFirst(s, n - 1, time), s[n - 1], time);
    }
  }

  lemma {:induction false} LastStays<T(!new)>(s: seq<T>, n: nat, time: T -> real)
    requires n < |s| && InTimeOrder(s, time)
    ensures Insert(s[..n], s[n], time) == s[..n + 1]
  {
    var r, x := s[..n], s[n];
    if n > 0 {
      assert r[n - 1] == s[n - 1] && time(s[n - 1]) <= time(x);
    }
    assert Slot(r, n, x, time) == n;
    assert r[..n] == r && r[n..] == [];
  }

  lemma {:induction false} SortedStays<T(!new)>(s: seq<T>, n: nat, time: T -> real)
    requires n <= |s| && InTimeOrder(s, time)
    ensures SortFirst(s, n, time) == s[..n]
  {
    if n > 0 {
      SortedStays(s, n - 1, time);
      LastStays(s, n - 1, time);
    }
  }

  function RowTime(r: Row): real { r.time }
  function CandidateTime(c: Candidate): real { c.time }

  // ---- filling ----

  // The boundaries so far, and the report whose rows they come from.
  datatype Progress = Progress(accepted: map<int, real>, debug: seq<Row>)

  ghost predicate Placed(debug: seq<Row>) {
    forall i :: 0 <= i < |debug| ==> debug[i].at == i
  }

  predicate RowsOf(rows: seq<Row>, debug: seq<Row>) {
    forall i :: 0 <= i < |rows| ==> rows[i].at < |debug|
  }

  lemma {:induction false} SortedRowsOf(rows: seq<Row>, debug: seq<Row>)
    requires RowsOf(rows, debug)
    ensures RowsOf(SortByTime(rows, RowTime), debug)
  {
    SortKeeps(rows, |rows|, RowTime);
    assert rows[..|rows|] == rows;
    var r := SortByTime(rows, RowTime);
    forall i | 0 <= i < |r|
      ensures r[i].at < |debug|
    {
      assert r[i] in multiset(r);
      assert r[i] in multiset(rows);
      assert r[i] in rows;
    }
  }

  // The unused rows among the first n, after lo and, if a bound is given, before hi.
  function Between(debug: seq<Row>, n: nat, lo: real, hi: Option<real>): (rows: seq<Row>)
    requires n <= |debug| && Placed(debug)
    ensures RowsOf(rows, debug)
  {
    if n == 0 then []
    else
      var rows := Between(debug, n - 1, lo, hi);
      var r := debug[n - 1];
      if r.use.Unused? && lo < r.time && (hi.Some? ==> r.time < hi.value) then rows + [r] else rows
  }

  // The first k rows become the chapters first, first + 1, ...
  function Assign(p: Progress, rows: seq<Row>, k: nat, first: int, use: Use): (q: Progress)
    requires k <= |rows| && RowsOf(rows, p.debug)
    ensures |q.debug| == |p.debug|
    ensures forall n :: n in p.accepted ==> n in q.accepted
  {
    if k == 0 then p
    else
      var q := Assign(p, rows, k - 1, first, use);
      var r := rows[k - 1];
      Progress(q.accepted[first + k - 1 := r.time], q.debug[r.at := r.(use := use)])
  }

  lemma {:induction false} AssignKeepsPlaces(p: Progress, rows: seq<Row>, k: nat, first: int, use: Use)
    requires k <= |rows| && RowsOf(rows, p.debug)
    requires Placed(p.debug)
    ensures Placed(Assign(p, rows, k, first, use).debug)
  {
    if k > 0 {
      AssignKeepsPlaces(p, rows, k - 1, first, use);
    }
  }

  method AssignRows(p: Progress, rows: seq<Row>, k: nat, first: int, use: Use) returns (q: Progress)
    requires k <= |rows| && RowsOf(rows, p.debug)
    requires Placed(p.debug)
    ensures q == Assign(p, rows, k, first, use) && Placed(q.debug)
  {
    q := p;
    for i := 0 to k
      invariant q == Assign(p, rows, i, first, use)
    {
      var r := rows[i];
      q := Progress(q.accepted[first + i := r.time], q.debug[r.at := r.(use := use)]);
    }
    AssignKeepsPlaces(p, rows, k, first, use);
  }

  function SortedRows(rows: seq<Row>, debug: seq<Row>): (r: seq<Row>)
    requires RowsOf(rows, debug)
    ensures RowsOf(r, debug) && |r| == |rows|
  {
    SortedRowsOf(rows, debug);
    SortByTime(rows, RowTime)
  }

  // The rows that could fill a gap, in time order.
  function GapRows(p: Progress, left: int, right: int): (rows: seq<Row>)
    requires right in p.accepted && (left == 1 || left in p.accepted) && Placed(p.debug)
    ensures RowsOf(rows, p.debug)
  {
    var from := if left == 1 then 0.0 else p.accepted[left];
    SortedRows(Between(p.debug, |p.debug|, from, Some(p.accepted[right])), p.debug)
  }

  // One step of the gap fill: chapters strictly between left and right, when there are rows
  // enough for all of them.
  function FillGap(p: Progress, left: int, right: int): (q: Progress)
    requires left < right && right in p.accepted && (left == 1 || left in p.accepted)
    requires Placed(p.debug)
    ensures |q.debug| == |p.debug| && Placed(q.debug)
    ensures forall n :: n in p.accepted ==> n in q.accepted
    ensures right == left + 1 ==> q == p
  {
    var rows := GapRows(p, left, right);
    var needed := right - left - 1;
    if needed == 0 || |rows| < needed then p
    else
      AssignKeepsPlaces(p, rows, needed, left + 1, GapFill);
      Assign(p, rows, needed, left + 1, GapFill)
  }

  // The numbers known before the gap fill: 1, then the accepted ones in order.
  ghost predicate Known(known: seq<int>, accepted: map<int, real>) {
    && |known| > 0 && known[0] == 1
    && (forall i :: 0 < i < |known| ==> known[i] in accepted)
    && (forall i, j :: 0 <= i < j < |known| ==> known[i] < known[j])
  }

  ghost function GapsFilled(p: Progress, known: seq<int>, n: nat): (q: Progress)
    requires Known(known, p.accepted) && n < |known| && Placed(p.debug)
    ensures |q.debug| == |p.debug| && Placed(q.debug)
    ensures forall k :: k in p.accepted ==> k in q.accepted
  {
    if n == 0 then p else FillGap(GapsFilled(p, known, n - 1), known[n - 1], known[n])
  }

  method FillOneGap(p: Progress, left: int, right: int) returns (q: Progress)
    requires left < right && right in p.accepted && (left == 1 || left in p.accepted)
    requires Placed(p.debug)
    ensures q == FillGap(p, left, right)
  {
    q := p;
    if right - left <= 1 {
      return;
    }
    var rows := GapRows(p, left, right);
    var needed := right - left - 1;
    if |rows| < needed {
      return;
    }
    q := AssignRows(p, rows, needed, left + 1, GapFill);
  }

  method FillGaps(p: Progress, known: seq<int>) returns (q: Progress)
    requires Known(known, p.accepted) && Placed(p.debug)
    ensures q == GapsFilled(p, known, |known| - 1)
  {
    q := p;
    for n := 1 to |known|
      invariant q == GapsFilled(p, known, n - 1)
    {
      q := FillOneGap(q, known[n - 1], known[n]);
    }
  }

  // After the scan there are no gaps, so the gap fill never adds anything.
  lemma {:induction false} NoGapsToFill(p: Progress, known: seq<int>, n: nat)
    requires Known(known, p.accepted) && n < |known| && Placed(p.debug)
    requires forall i :: 0 <= i < |known| ==> known[i] == i + 1
    ensures GapsFilled(p, known, n) == p
  {
    if n > 0 {
      NoGapsToFill(p, known, n - 1);
    }
  }
}
