// Packing tracks onto cards: the midpoint split and the search for a card count
// (_split_evenly and pack_cards in modules/nixos/services/yoto-share/yoto-prep.py).

module YotoCards {
  import opened Seqs
  import opened YotoPrep

  const CARD_SECONDS: real := 18000.0      // 5 hours
  const CARD_BYTES: real := 524288000.0    // 500 MiB
  const CARD_TRACKS: nat := 100

  // ---- the midpoint split ----

  // Conversion of a float to an integer drops the fraction.
  function Truncate(x: real): int {
    if x >= 0.0 then x.Floor else -((-x).Floor)
  }

  function Midpoint<T>(items: seq<T>, dur: T -> real, i: nat): real
    requires i < |items|
  {
    Sum(dur, items[..i]) + dur(items[i]) / 2.0
  }

  // The card of a share x, the last one at most.
  function Cap(x: real, n: nat): int {
    var k := Truncate(x);
    if n - 1 <= k then n - 1 else k
  }

  // The card a midpoint falls in, before the monotonicity clamp.
  function CardAt(mid: real, total: real, n: nat): int {
    if total == 0.0 then 0 else Cap(mid / total * n as real, n)
  }

  function RawSlot<T>(items: seq<T>, dur: T -> real, n: nat, i: nat): int
    requires i < |items|
  {
    CardAt(Midpoint(items, dur, i), Sum(dur, items), n)
  }

  function Slot<T>(items: seq<T>, dur: T -> real, n: nat, i: nat): (k: nat)
    requires i < |items| && n >= 1
    ensures k < n
  {
    var raw, last := RawSlot(items, dur, n, i), if i == 0 then 0 else Slot(items, dur, n, i - 1);
    if raw >= last then raw else last
  }

  function Bins<T>(items: seq<T>, dur: T -> real, n: nat, i: nat): (bins: seq<seq<T>>)
    requires i <= |items| && (n >= 1 || items == [])
    ensures |bins| == n
  {
    if i == 0 then seq(n, _ => [])
    else
      var bins, k := Bins(items, dur, n, i - 1), Slot(items, dur, n, i - 1);
      bins[k := bins[k] + [items[i - 1]]]
  }

  function EvenSplit<T>(items: seq<T>, dur: T -> real, n: nat): seq<seq<T>>
    requires n >= 1 || items == []
  {
    NonEmpty(Bins(items, dur, n, |items|))
  }

  method SumOf<T>(items: seq<T>, dur: T -> real) returns (total: real)
    ensures total == Sum(dur, items)
  {
    total := 0.0;
    for i := 0 to |items|
      invariant total == Sum(dur, items[..i])
    {
      assert items[..i + 1][..i] == items[..i];
      total := total + dur(items[i]);
    }
    assert items[..|items|] == items;
  }

  method SplitEvenly<T>(items: seq<T>, dur: T -> real, n: nat) returns (cards: seq<seq<T>>)
    requires n >= 1 || items == []
    ensures cards == EvenSplit(items, dur, n)
  {
    var total := SumOf(items, dur);
    cards := seq(n, _ => []);
    var cum, last := 0.0, 0;
    for i := 0 to |items|
      invariant cum == Sum(dur, items[..i])
      invariant cards == Bins(items, dur, n, i)
      invariant last == if i == 0 then 0 else Slot(items, dur, n, i - 1)
    {
      assert items[..i + 1][..i] == items[..i];
      var seg := items[i];
      var mid := cum + dur(seg) / 2.0;
      var k := CardAt(mid, total, n);
      k := if k >= last then k else last;
      cards := cards[k := cards[k] + [seg]];
      last := k;
      cum := cum + dur(seg);
    }
    cards := NonEmpty(cards);
  }

  // ---- order and conservation ----

  lemma {:induction false} FlattenAppendAt<T>(bins: seq<seq<T>>, k: nat, x: T)
    requires k < |bins| && forall j | k < j < |bins| :: bins[j] == []
    ensures Flatten(bins[k := bins[k] + [x]]) == Flatten(bins) + [x]
  {
    var n := |bins| - 1;
    var next := bins[k := bins[k] + [x]];
    if k == n {
      assert next[..n] == bins[..n];
    } else {
      assert next[..n] == bins[..n][k := bins[..n][k] + [x]];
      FlattenAppendAt(bins[..n], k, x);
    }
  }

  lemma {:induction false} FlattenEmpties<T>(n: nat)
    ensures Flatten(seq<seq<T>>(n, _ => [])) == []
  {
    if n > 0 {
      FlattenEmpties<T>(n - 1);
      assert seq<seq<T>>(n, _ => [])[..n - 1] == seq<seq<T>>(n - 1, _ => []);
    }
  }

  lemma {:induction false} BinsInOrder<T>(items: seq<T>, dur: T -> real, n: nat, i: nat)
    requires i <= |items| && (n >= 1 || items == [])
    ensures Flatten(Bins(items, dur, n, i)) == items[..i]
    ensures forall k | 0 <= k < n && (i == 0 || k > Slot(items, dur, n, i - 1)) :: Bins(items, dur, n, i)[k] == []
  {
    if i == 0 {
      FlattenEmpties<T>(n);
    } else {
      BinsInOrder(items, dur, n, i - 1);
      TakeNext(items, i - 1);
      FlattenAppendAt(Bins(items, dur, n, i - 1), Slot(items, dur, n, i - 1), items[i - 1]);
    }
  }

  // At most n cards, none empty, holding exactly the items in order.
  lemma {:induction false} EvenSplitConserves<T>(items: seq<T>, dur: T -> real, n: nat)
    requires n >= 1 || items == []
    ensures Flatten(EvenSplit(items, dur, n)) == items
    ensures |EvenSplit(items, dur, n)| <= n
    ensures forall c | c in EvenSplit(items, dur, n) :: c != []
  {
    BinsInOrder(items, dur, n, |items|);
    NonEmptyKeeps(Bins(items, dur, n, |items|));
    assert items[..|items|] == items;
  }

  // ---- balance ----

  ghost predicate Bounded<T>(items: seq<T>, dur: T -> real, m: real) {
    forall x | x in items :: 0.0 <= dur(x) <= m
  }

  lemma {:induction false} SumPrefix<T>(items: seq<T>, dur: T -> real, m: real, i: nat, j: nat)
    requires Bounded(items, dur, m) && i <= j <= |items|
    ensures Sum(dur, items[..j]) - Sum(dur, items[..i]) == Sum(dur, items[i..j]) >= 0.0
  {
    assert items[..j] == items[..i] + items[i..j];
    SumConcat(dur, items[..i], items[i..j]);
    SumNonNegative(dur, items[i..j]);
  }

  lemma {:induction false} MidpointsOrdered<T>(items: seq<T>, dur: T -> real, m: real, i: nat)
    requires Bounded(items, dur, m) && i + 1 < |items|
    ensures 0.0 <= Midpoint(items, dur, i) <= Midpoint(items, dur, i + 1)
  {
    SumPrefix(items, dur, m, 0, i);
    assert items[..0] == [];
    assert items[..i + 1][..i] == items[..i];
  }

  lemma {:induction false} QuotientMono(a: real, b: real, total: real, n: nat)
    requires 0.0 <= a <= b && total > 0.0
    ensures 0.0 <= a / total * n as real <= b / total * n as real
  {
    MulMono(a / total, b / total, n as real);
  }

  lemma {:induction false} FloorMono(x: real, y: real)
    requires x <= y
    ensures x.Floor <= y.Floor
  {
    assert x.Floor as real <= x;
    assert y < (y.Floor + 1) as real;
  }

  lemma {:induction false} CardAtMono(a: real, b: real, total: real, n: nat)
    requires 0.0 <= a <= b && total >= 0.0 && n >= 1
    ensures 0 <= CardAt(a, total, n) <= CardAt(b, total, n)
  {
    if total != 0.0 {
      QuotientMono(a, b, total, n);
      FloorMono(a / total * n as real, b / total * n as real);
    }
  }

  // With non-negative durations the clamp never fires.
  lemma {:induction false} ClampNeverFires<T>(items: seq<T>, dur: T -> real, m: real, n: nat, i: nat)
    requires Bounded(items, dur, m) && n >= 1 && i < |items|
    ensures Slot(items, dur, n, i) == RawSlot(items, dur, n, i)
    ensures i > 0 ==> RawSlot(items, dur, n, i - 1) <= RawSlot(items, dur, n, i)
  {
    SumNonNegative(dur, items);
    if i == 0 {
      assert items[..0] == [];
      CardAtMono(0.0, Midpoint(items, dur, 0), Sum(dur, items), n);
    } else {
      ClampNeverFires(items, dur, m, n, i - 1);
      MidpointsOrdered(items, dur, m, i - 1);
      CardAtMono(Midpoint(items, dur, i - 1), Midpoint(items, dur, i), Sum(dur, items), n);
    }
  }

  // Items lo .. hi - 1 make up bin k after i items: a run that, once left, stays left.
  ghost predicate IsRun<T>(items: seq<T>, dur: T -> real, n: nat, i: nat, k: nat, lo: nat, hi: nat, bin: seq<T>)
    requires n >= 1 && i <= |items|
  {
    && lo <= hi <= i && bin == items[lo..hi]
    && (forall j | lo <= j < hi :: Slot(items, dur, n, j) == k)
    && (lo < hi < i ==> Slot(items, dur, n, i - 1) > k)
  }

  lemma {:induction false} ExtendRun<T>(items: seq<T>, dur: T -> real, n: nat, i: nat, k: nat, lo: nat, hi: nat,
                                        bin: seq<T>)
    requires n >= 1 && i < |items| && IsRun(items, dur, n, i, k, lo, hi, bin) && Slot(items, dur, n, i) == k
    ensures IsRun(items, dur, n, i + 1, k, if lo == hi then i else lo, i + 1, bin + [items[i]])
  {
    if lo < hi {
      assert hi == i;
      assert items[lo..i + 1] == items[lo..i] + [items[i]];
    }
  }

  // A bin is a run of consecutive items that share its slot.
  lemma {:induction false} BinIsRun<T>(items: seq<T>, dur: T -> real, n: nat, i: nat, k: nat) returns (lo: nat, hi: nat)
    requires n >= 1 && i <= |items| && k < n
    ensures IsRun(items, dur, n, i, k, lo, hi, Bins(items, dur, n, i)[k])
  {
    if i == 0 {
      return 0, 0;
    }
    lo, hi := BinIsRun(items, dur, n, i - 1, k);
    if Slot(items, dur, n, i - 1) == k {
      ExtendRun(items, dur, n, i - 1, k, lo, hi, Bins(items, dur, n, i - 1)[k]);
      lo, hi := if lo == hi then i - 1 else lo, i;
    }
  }

  lemma {:induction false} FloorRange(x: real)
    ensures x.Floor as real <= x < x.Floor as real + 1.0
  {
  }

  // A midpoint on card k lies within [k, k + 1] widths of total / n.
  lemma {:induction false} CardWindow(mid: real, total: real, n: nat, w: real)
    requires n >= 1 && 0.0 <= mid <= total && total > 0.0 && w == total / n as real
    ensures var k := CardAt(mid, total, n); Times(k, w) <= mid <= Times(k + 1, w)
  {
    var x, k := mid / total * n as real, CardAt(mid, total, n);
    assert w * n as real == total;
    ProductOfShares(mid, total, n, w);
    QuotientMono(0.0, mid, total, n);
    FloorRange(x);
    AboveWidth(x, w, k, mid);
    if k == n - 1 { TimesIsProduct(n, w); } else { BelowWidth(x, w, k + 1, mid); }
  }

  lemma {:induction false} BelowWidth(x: real, w: real, k: nat, mid: real)
    requires w >= 0.0 && x * w == mid && x <= k as real
    ensures mid <= Times(k, w)
  {
    var y := k as real;
    MulMono(x, y, w);
    TimesIsProduct(k, w);
  }

  lemma {:induction false} AboveWidth(x: real, w: real, k: nat, mid: real)
    requires w >= 0.0 && x * w == mid && k as real <= x
    ensures Times(k, w) <= mid
  {
    var y := k as real;
    MulMono(y, x, w);
    TimesIsProduct(k, w);
  }

  lemma {:induction false} ProductOfShares(mid: real, total: real, n: nat, w: real)
    requires n >= 1 && total > 0.0 && w * n as real == total
    ensures mid / total * n as real * w == mid
  {
    var s := mid / total;
    assert s * total == mid;
    assert s * n as real * w == s * (w * n as real);
  }

  lemma {:induction false} RunMidpoints<T>(items: seq<T>, dur: T -> real, m: real, lo: nat, hi: nat)
    requires Bounded(items, dur, m) && lo < hi <= |items|
    ensures Sum(dur, items[lo..hi]) == Midpoint(items, dur, hi - 1) - Midpoint(items, dur, lo)
                                       + dur(items[lo]) / 2.0 + dur(items[hi - 1]) / 2.0
  {
    SumPrefix(items, dur, m, lo, hi);
    assert items[..hi][..hi - 1] == items[..hi - 1];
  }

  lemma {:induction false} MidpointRange<T>(items: seq<T>, dur: T -> real, m: real, i: nat)
    requires Bounded(items, dur, m) && i < |items|
    ensures 0.0 <= Midpoint(items, dur, i) <= Sum(dur, items)
  {
    SumPrefix(items, dur, m, 0, i);
    SumPrefix(items, dur, m, i + 1, |items|);
    assert items[..|items|] == items;
    assert items[..0] == [];
    assert items[..i + 1][..i] == items[..i];
  }

  // Midpoints on one card are at most one width apart.
  lemma {:induction false} SameCardApart(a: real, b: real, total: real, n: nat, k: nat)
    requires n >= 1 && 0.0 <= a <= total && 0.0 <= b <= total
    requires CardAt(a, total, n) == k && CardAt(b, total, n) == k
    ensures b - a <= total / n as real
  {
    if total > 0.0 {
      var w := total / n as real;
      CardWindow(a, total, n, w);
      CardWindow(b, total, n, w);
    }
  }

  // A run of items whose midpoints share a card lasts at most one width plus the longest item.
  lemma {:induction false} RunBalanced<T>(items: seq<T>, dur: T -> real, m: real, n: nat, lo: nat, hi: nat, k: nat)
    requires Bounded(items, dur, m) && n >= 1 && lo < hi <= |items|
    requires Slot(items, dur, n, lo) == k && Slot(items, dur, n, hi - 1) == k
    ensures Sum(dur, items[lo..hi]) <= Sum(dur, items) / n as real + m
  {
    ClampNeverFires(items, dur, m, n, lo);
    ClampNeverFires(items, dur, m, n, hi - 1);
    MidpointRange(items, dur, m, lo);
    MidpointRange(items, dur, m, hi - 1);
    SameCardApart(Midpoint(items, dur, lo), Midpoint(items, dur, hi - 1), Sum(dur, items), n, k);
    RunMidpoints(items, dur, m, lo, hi);
  }

  lemma {:induction false} IndexOf<T>(bins: seq<seq<T>>, c: seq<T>) returns (k: nat)
    requires c in NonEmpty(bins)
    ensures k < |bins| && bins[k] == c && c != []
  {
    NonEmptyKeeps(bins);
    k :| k < |bins| && bins[k] == c;
  }

  ghost predicate AllShort<T>(cards: seq<seq<T>>, dur: T -> real, limit: real) {
    forall c | c in cards :: Sum(dur, c) <= limit
  }

  // Each card of the split lasts at most total / n plus the longest single item.
  lemma {:induction false} EvenSplitBalanced<T>(items: seq<T>, dur: T -> real, m: real, n: nat)
    requires Bounded(items, dur, m) && n >= 1
    ensures AllShort(EvenSplit(items, dur, n), dur, Sum(dur, items) / n as real + m)
  {
    var bins := Bins(items, dur, n, |items|);
    forall c | c in EvenSplit(items, dur, n)
      ensures Sum(dur, c) <= Sum(dur, items) / n as real + m
    {
      assert EvenSplit(items, dur, n) == NonEmpty(bins);
      var k := IndexOf(bins, c);
      var lo, hi := BinIsRun(items, dur, n, |items|, k);
      RunBalanced(items, dur, m, n, lo, hi, k);
    }
  }

  // ---- the search for a card count ----

  predicate AllFit<T>(cards: seq<seq<T>>, fits: seq<T> -> bool) {
    forall i | 0 <= i < |cards| :: fits(cards[i])
  }

  // Every count from first up to n - 1 was tried, and its split has a card that does not fit.
  ghost predicate Rejected<T>(items: seq<T>, dur: T -> real, fits: seq<T> -> bool, first: nat, n: nat) {
    1 <= first <= n && forall m: nat | first <= m < n :: m <= |items| && !AllFit(EvenSplit(items, dur, m), fits)
  }

  // The outcome of trying n = first, first + 1, ... up to one card per item: the first split
  // whose cards all fit, or else one card per item.
  ghost predicate Searched<T>(items: seq<T>, dur: T -> real, fits: seq<T> -> bool, first: nat, n: nat,
                              cards: seq<seq<T>>)
  {
    && Rejected(items, dur, fits, first, n)
    && if n <= |items| then cards == EvenSplit(items, dur, n) && AllFit(cards, fits)
       else cards == Singles(items)
  }

  // Whatever the outcome, the cards hold the items in order, none is empty, and all fit
  // provided each item fits a card of its own.
  lemma {:induction false} SearchedLegal<T>(items: seq<T>, dur: T -> real, fits: seq<T> -> bool, first: nat, n: nat,
                                            cards: seq<seq<T>>)
    requires Searched(items, dur, fits, first, n, cards)
    ensures Flatten(cards) == items && forall c | c in cards :: c != []
    ensures (forall x | x in items :: fits([x])) ==> AllFit(cards, fits)
  {
    if n <= |items| {
      EvenSplitConserves(items, dur, n);
    } else {
      FlattenSingles(items);
    }
  }

  lemma {:induction false} RejectNext<T>(items: seq<T>, dur: T -> real, fits: seq<T> -> bool, first: nat, n: nat,
                                         cards: seq<seq<T>>)
    requires Rejected(items, dur, fits, first, n) && n <= |items|
    requires cards == EvenSplit(items, dur, n) && !AllFit(cards, fits)
    ensures Rejected(items, dur, fits, first, n + 1)
  {
  }

  // The search loop of pack_cards; plan_book (server.py) runs the same search with its own limits.
  method SearchCount<T>(items: seq<T>, dur: T -> real, fits: seq<T> -> bool, first: nat)
    returns (cards: seq<seq<T>>, n: nat)
    requires first >= 1
    ensures Searched(items, dur, fits, first, n, cards)
  {
    n := first;
    while n <= |items|
      invariant Rejected(items, dur, fits, first, n)
    {
      cards := SplitEvenly(items, dur, n);
      if AllFit(cards, fits) {
        return;
      }
      RejectNext(items, dur, fits, first, n, cards);
      n := n + 1;
    }
    cards := Singles(items);
  }

  // ---- pack_cards ----

  // A quotient rounded up, but at least 1.
  function RoundUp(x: real): (n: nat)
    ensures n >= 1
  {
    var q := -((-x).Floor);
    if q >= 1 then q else 1
  }

  function MaxNat(a: nat, b: nat): nat { if a >= b then a else b }

  // n cards together hold that many seconds, bytes and tracks.
  ghost predicate Enough(seconds: real, bytes: real, tracks: nat, cardBytes: real, n: nat) {
    seconds <= n as real * CARD_SECONDS && bytes <= n as real * cardBytes && tracks <= n * CARD_TRACKS
  }

  // The theoretical minimum card count: the least positive n whose joint capacity is enough.
  ghost predicate LeastCount(seconds: real, bytes: real, tracks: nat, cardBytes: real, n: nat) {
    n >= 1 && Enough(seconds, bytes, tracks, cardBytes, n)
    && forall m | 1 <= m < n :: !Enough(seconds, bytes, tracks, cardBytes, m)
  }

  lemma {:induction false} RoundUpIs(x: real, n: nat)
    requires n >= 1
    ensures RoundUp(x) <= n <==> x <= n as real
  {
    FloorRange(-x);
  }

  lemma {:induction false} RoundUpCovers(a: real, limit: real, n: nat)
    requires limit > 0.0 && n >= 1
    ensures a <= n as real * limit <==> RoundUp(a / limit) <= n
  {
    var q := a / limit;
    RoundUpIs(q, n);
    assert q * limit == a;
    if q <= n as real { MulMono(q, n as real, limit); } else { MulStrict(n as real, q, limit); }
  }

  // The count pack_cards starts from.
  method MinimumCount(seconds: real, bytes: real, tracks: nat, cardBytes: real) returns (n: nat)
    requires cardBytes > 0.0
    ensures LeastCount(seconds, bytes, tracks, cardBytes, n)
  {
    n := MaxNat(RoundUp(seconds / CARD_SECONDS),
                MaxNat(RoundUp(bytes / cardBytes), RoundUp(tracks as real / CARD_TRACKS as real)));
    forall m: nat | m >= 1 ensures Enough(seconds, bytes, tracks, cardBytes, m) <==> n <= m {
      RoundUpCovers(seconds, CARD_SECONDS, m);
      RoundUpCovers(bytes, cardBytes, m);
      RoundUpCovers(tracks as real, CARD_TRACKS as real, m);
    }
  }

  predicate CardLegal(c: seq<Segment>, bytesPerSec: real) {
    Sum(DURATION, c) <= CARD_SECONDS && Sum(DURATION, c) * bytesPerSec <= CARD_BYTES && |c| <= CARD_TRACKS
  }

  function CardFits(bytesPerSec: real): seq<Segment> -> bool {
    (c: seq<Segment>) => CardLegal(c, bytesPerSec)
  }

  method PackCards(segments: seq<Segment>, bytesPerSec: real)
    returns (cards: seq<seq<Segment>>, ghost first: nat, ghost n: nat)
    ensures LeastCount(Sum(DURATION, segments), Sum(DURATION, segments) * bytesPerSec, |segments|, CARD_BYTES, first)
    ensures Searched(segments, DURATION, CardFits(bytesPerSec), first, n, cards)
  {
    var totalSec := SumOf(segments, DURATION);
    var totalBytes := totalSec * bytesPerSec;
    assert totalBytes == Sum(DURATION, segments) * bytesPerSec;
    var count := MinimumCount(totalSec, totalBytes, |segments|, CARD_BYTES);
    first := count;
    cards, n := SearchCount(segments, DURATION, CardFits(bytesPerSec), count);
  }

  lemma {:induction false} MulStrict(x: real, y: real, m: real)
    requires x < y && m > 0.0
    ensures x * m < y * m
  {
  }

  lemma {:induction false} BytesTotal(cards: seq<seq<Segment>>, bytesPerSec: real)
    requires forall g | g in cards :: CardLegal(g, bytesPerSec)
    ensures Sum(DURATION, Flatten(cards)) * bytesPerSec <= |cards| as real * CARD_BYTES
  {
    var bytes := (s: Segment) => s.Duration() * bytesPerSec;
    forall g | g in cards ensures Sum(bytes, g) <= CARD_BYTES {
      SumScaled(g, bytesPerSec, bytes);
    }
    SumFlatten(bytes, cards, CARD_BYTES);
    SumScaled(Flatten(cards), bytesPerSec, bytes);
  }

  // Any legal grouping has at least the starting count of cards.
  lemma {:induction false} LegalNeedsCount(segments: seq<Segment>, bytesPerSec: real, other: seq<seq<Segment>>,
                                           first: nat)
    requires segments != [] && Flatten(other) == segments
    requires forall g | g in other :: CardLegal(g, bytesPerSec)
    requires LeastCount(Sum(DURATION, segments), Sum(DURATION, segments) * bytesPerSec, |segments|, CARD_BYTES, first)
    ensures first <= |other|
  {
    SumFlatten(DURATION, other, CARD_SECONDS);
    BytesTotal(other, bytesPerSec);
    LengthFlatten(other, CARD_TRACKS);
    assert Enough(Sum(DURATION, segments), Sum(DURATION, segments) * bytesPerSec, |segments|, CARD_BYTES, |other|);
  }

  // When the first count tried fits, no legal grouping has fewer cards.
  lemma {:induction false} FirstFitIsMinimal(segments: seq<Segment>, bytesPerSec: real, cards: seq<seq<Segment>>,
                                             first: nat, other: seq<seq<Segment>>)
    requires segments != [] && Flatten(other) == segments
    requires forall g | g in other :: CardLegal(g, bytesPerSec)
    requires LeastCount(Sum(DURATION, segments), Sum(DURATION, segments) * bytesPerSec, |segments|, CARD_BYTES, first)
    requires Searched(segments, DURATION, CardFits(bytesPerSec), first, first, cards)
    ensures |cards| <= |other|
  {
    LegalNeedsCount(segments, bytesPerSec, other, first);
    if first <= |segments| {
      EvenSplitConserves(segments, DURATION, first);
    }
  }

  lemma {:induction false} SumSlice(c: seq<Segment>, longest: real, j: nat, k: nat)
    requires Bounded(c, DURATION, longest) && j <= k <= |c|
    ensures 0.0 <= Sum(DURATION, c[j..k]) <= Sum(DURATION, c)
  {
    SumPrefix(c, DURATION, longest, 0, j);
    SumPrefix(c, DURATION, longest, j, k);
    SumPrefix(c, DURATION, longest, k, |c|);
    assert c[..0] == [] && c[..|c|] == c;
  }

  lemma {:induction false} MemberFits(c: seq<Segment>, longest: real, bytesPerSec: real, s: Segment)
    requires Bounded(c, DURATION, longest) && bytesPerSec >= 0.0 && s in c && CardLegal(c, bytesPerSec)
    ensures CardLegal([s], bytesPerSec)
  {
    var j: nat :| j < |c| && c[j] == s;
    assert c[j..j + 1] == [s];
    SumSlice(c, longest, j, j + 1);
    MulMono(Sum(DURATION, [s]), Sum(DURATION, c), bytesPerSec);
  }

  lemma {:induction false} MembersFit(cards: seq<seq<Segment>>, longest: real, bytesPerSec: real, s: Segment)
    requires Bounded(Flatten(cards), DURATION, longest) && bytesPerSec >= 0.0 && s in Flatten(cards)
    requires forall c | c in cards :: CardLegal(c, bytesPerSec)
    ensures CardLegal([s], bytesPerSec)
  {
    var i := InFlatten(cards, s);
    forall x | x in cards[i]
      ensures x in Flatten(cards)
    {
      IntoFlatten(cards, i, x);
    }
    MemberFits(cards[i], longest, bytesPerSec, s);
  }

  lemma {:induction false} IntoFlatten<T>(groups: seq<seq<T>>, i: nat, x: T)
    requires i < |groups| && x in groups[i]
    ensures x in Flatten(groups)
  {
    if i < |groups| - 1 {
      IntoFlatten(groups[..|groups| - 1], i, x);
    }
  }

  // Packing ends in non-empty cards that hold the tracks in order, and they are all legal exactly
  // when each track on its own fits a card.
  lemma {:induction false} PackedLegal(segments: seq<Segment>, bytesPerSec: real, longest: real,
                                       cards: seq<seq<Segment>>, first: nat, n: nat)
    requires Bounded(segments, DURATION, longest) && bytesPerSec >= 0.0
    requires Searched(segments, DURATION, CardFits(bytesPerSec), first, n, cards)
    ensures Flatten(cards) == segments && forall c | c in cards :: c != []
    ensures (forall c | c in cards :: CardLegal(c, bytesPerSec)) <==>
              forall s | s in segments :: CardLegal([s], bytesPerSec)
  {
    SearchedLegal(segments, DURATION, CardFits(bytesPerSec), first, n, cards);
    if forall c | c in cards :: CardLegal(c, bytesPerSec) {
      forall s | s in segments
        ensures CardLegal([s], bytesPerSec)
      {
        MembersFit(cards, longest, bytesPerSec, s);
      }
    }
    if forall s | s in segments :: CardLegal([s], bytesPerSec) {
      assert forall s | s in segments :: CardFits(bytesPerSec)([s]);
      forall c | c in cards
        ensures CardLegal(c, bytesPerSec)
      {
        assert CardFits(bytesPerSec)(c);
      }
    }
  }

  // A track within the track limits does.
  lemma {:induction false} TrackFitsCard(s: Segment, bytesPerSec: real)
    requires Fits(s.Duration(), bytesPerSec)
    ensures CardLegal([s], bytesPerSec)
  {
    SumOne(DURATION, s);
  }

  // ---- when the search succeeds ----

  lemma {:induction false} GroupNoLonger<T>(groups: seq<seq<T>>, k: nat)
    requires k < |groups|
    ensures |groups[k]| <= |Flatten(groups)|
  {
    if k < |groups| - 1 { GroupNoLonger(groups[..|groups| - 1], k); }
  }

  // The mean card of k plus the longest track is within the card limits.
  ghost predicate Roomy(segments: seq<Segment>, bytesPerSec: real, m: real, k: nat)
    requires k >= 1
  {
    var longest := Sum(DURATION, segments) / k as real + m;
    longest <= CARD_SECONDS && longest * bytesPerSec <= CARD_BYTES
  }

  lemma {:induction false} ShortCardFits(c: seq<Segment>, longest: real, bytesPerSec: real)
    requires bytesPerSec >= 0.0 && |c| <= CARD_TRACKS && Sum(DURATION, c) <= longest
    requires longest <= CARD_SECONDS && longest * bytesPerSec <= CARD_BYTES
    ensures CardFits(bytesPerSec)(c)
  {
    MulMono(Sum(DURATION, c), longest, bytesPerSec);
  }

  lemma {:induction false} ShortCardsFit(cards: seq<seq<Segment>>, longest: real, bytesPerSec: real)
    requires bytesPerSec >= 0.0 && |Flatten(cards)| <= CARD_TRACKS && AllShort(cards, DURATION, longest)
    requires longest <= CARD_SECONDS && longest * bytesPerSec <= CARD_BYTES
    ensures AllFit(cards, CardFits(bytesPerSec))
  {
    forall i | 0 <= i < |cards| ensures CardFits(bytesPerSec)(cards[i]) {
      GroupNoLonger(cards, i);
      assert cards[i] in cards;
      ShortCardFits(cards[i], longest, bytesPerSec);
    }
  }

  lemma {:induction false} SplitFitsWithin(segments: seq<Segment>, bytesPerSec: real, k: nat, longest: real)
    requires k >= 1 && bytesPerSec >= 0.0 && |segments| <= CARD_TRACKS
    requires AllShort(EvenSplit(segments, DURATION, k), DURATION, longest)
    requires longest <= CARD_SECONDS && longest * bytesPerSec <= CARD_BYTES
    ensures AllFit(EvenSplit(segments, DURATION, k), CardFits(bytesPerSec))
  {
    EvenSplitConserves(segments, DURATION, k);
    ShortCardsFit(EvenSplit(segments, DURATION, k), longest, bytesPerSec);
  }

  lemma {:induction false} SplitFits(segments: seq<Segment>, bytesPerSec: real, m: real, k: nat)
    requires Bounded(segments, DURATION, m) && k >= 1 && bytesPerSec >= 0.0 && |segments| <= CARD_TRACKS
    requires Roomy(segments, bytesPerSec, m, k)
    ensures AllFit(EvenSplit(segments, DURATION, k), CardFits(bytesPerSec))
  {
    EvenSplitBalanced(segments, DURATION, m, k);
    SplitFitsWithin(segments, bytesPerSec, k, Sum(DURATION, segments) / k as real + m);
  }

  // With at most 100 tracks the search stops no later than at the first roomy count.
  lemma {:induction false} PackStopsWhenRoomy(segments: seq<Segment>, bytesPerSec: real, m: real,
                                              cards: seq<seq<Segment>>, first: nat, n: nat, k: nat)
    requires Searched(segments, DURATION, CardFits(bytesPerSec), first, n, cards)
    requires Bounded(segments, DURATION, m) && bytesPerSec >= 0.0 && |segments| <= CARD_TRACKS
    requires first <= k <= |segments| && Roomy(segments, bytesPerSec, m, k)
    ensures n <= k
  {
    SplitFits(segments, bytesPerSec, m, k);
  }

  lemma {:induction false} OnePerTrackIsRoomy(segments: seq<Segment>, bytesPerSec: real, m: real)
    requires Bounded(segments, DURATION, m) && segments != [] && bytesPerSec >= 0.0
    requires 2.0 * m <= CARD_SECONDS && 2.0 * m * bytesPerSec <= CARD_BYTES
    ensures Roomy(segments, bytesPerSec, m, |segments|)
  {
    AverageBound(DURATION, segments, m);
    MulMono(Sum(DURATION, segments) / |segments| as real + m, 2.0 * m, bytesPerSec);
  }

  // With at most 100 tracks, none more than half a card, an even split always fits:
  // the one-card-per-track fallback is never used.
  lemma {:induction false} PackNeverFallsBack(segments: seq<Segment>, bytesPerSec: real, m: real,
                                              cards: seq<seq<Segment>>, first: nat, n: nat)
    requires Searched(segments, DURATION, CardFits(bytesPerSec), first, n, cards)
    requires Bounded(segments, DURATION, m) && bytesPerSec >= 0.0 && first <= |segments| <= CARD_TRACKS
    requires 2.0 * m <= CARD_SECONDS && 2.0 * m * bytesPerSec <= CARD_BYTES
    ensures n <= |segments| && cards == EvenSplit(segments, DURATION, n)
  {
    OnePerTrackIsRoomy(segments, bytesPerSec, m);
    PackStopsWhenRoomy(segments, bytesPerSec, m, cards, first, n, |segments|);
  }

  // ---- and when it does not: more than 100 short tracks that no split separates ----

  lemma {:induction false} SwapTimes(a: real, b: real, c: real)
    ensures a * b * c == a * c * b
  {
  }

  lemma {:induction false} ShareTimes(mid: real, total: real, n: nat)
    requires total > 0.0
    ensures mid / total * n as real * total == mid * n as real
  {
    var q := mid / total;
    assert q * total == mid;
    SwapTimes(q, n as real, total);
  }

  lemma {:induction false} NotAbove(x: real, y: real, total: real, a: real, b: real)
    requires total > 0.0 && x * total == a && y * total == b && a <= b
    ensures x <= y
  {
    if y < x {
      MulStrict(y, x, total);
    }
  }

  lemma {:induction false} Below(x: real, y: real, total: real, a: real, b: real)
    requires total > 0.0 && x * total == a && y * total == b && a < b
    ensures x < y
  {
    if y <= x {
      MulMono(y, x, total);
    }
  }

  lemma {:induction false} CapIs(x: real, n: nat, k: nat)
    requires k < n && k as real <= x && (k < n - 1 ==> x < (k + 1) as real)
    ensures Cap(x, n) == k
  {
    FloorRange(x);
  }

  // The card of a midpoint, from products alone.
  lemma {:induction false} CardAtIs(mid: real, total: real, n: nat, k: nat)
    requires total > 0.0 && k < n
    requires k as real * total <= mid * n as real && (k < n - 1 ==> mid * n as real < (k + 1) as real * total)
    ensures CardAt(mid, total, n) == k
  {
    var x, y := mid / total * n as real, mid * n as real;
    assert x * total == y by { ShareTimes(mid, total, n); }
    NotAbove(k as real, x, total, k as real * total, y);
    if k < n - 1 {
      Below(x, (k + 1) as real, total, y, (k + 1) as real * total);
    }
    CapIs(x, n, k);
  }

  lemma {:induction false} BelowFirstCut(mid: real, total: real, n: nat, upTo: real)
    requires n >= 1 && 0.0 <= mid < upTo && upTo * n as real <= total
    ensures CardAt(mid, total, n) == 0
  {
    MulStrict(mid, upTo, n as real);
    MulMono(0.0, mid, n as real);
    CardAtIs(mid, total, n, 0);
  }

  lemma {:induction false} LeadSharesCard(items: seq<Segment>, m: real, n: nat, i: nat, upTo: real)
    requires Bounded(items, DURATION, m) && 1 <= n && i < |items|
    requires 0.0 < items[i].Duration() && Sum(DURATION, items[..i + 1]) <= upTo
             && upTo * n as real <= Sum(DURATION, items)
    ensures Slot(items, DURATION, n, i) == 0
  {
    MidpointRange(items, DURATION, m, i);
    assert items[..i + 1][..i] == items[..i];
    ClampNeverFires(items, DURATION, m, n, i);
    BelowFirstCut(Midpoint(items, DURATION, i), Sum(DURATION, items), n, upTo);
  }

  lemma {:induction false} LeadFillsFirstBin(items: seq<Segment>, n: nat, lead: nat, i: nat)
    requires n >= 1 && lead <= i <= |items|
    requires forall j | 0 <= j < lead :: Slot(items, DURATION, n, j) == 0
    ensures |Bins(items, DURATION, n, i)[0]| >= lead
  {
    if i > 0 {
      LeadFillsFirstBin(items, n, if lead < i then lead else i - 1, i - 1);
    }
  }

  lemma {:induction false} LeadOverfills(items: seq<Segment>, bytesPerSec: real, lead: nat, n: nat)
    requires n >= 1 && CARD_TRACKS < lead <= |items|
    requires forall j | 0 <= j < lead :: Slot(items, DURATION, n, j) == 0
    ensures !AllFit(EvenSplit(items, DURATION, n), CardFits(bytesPerSec))
  {
    var bins := Bins(items, DURATION, n, |items|);
    LeadFillsFirstBin(items, n, lead, |items|);
    NonEmptyKeeps(bins);
    assert bins[0] in bins && bins[0] in EvenSplit(items, DURATION, n);
    assert !CardFits(bytesPerSec)(bins[0]);
  }

  lemma {:induction false} LeadSlots(items: seq<Segment>, m: real, lead: nat, n: nat, upTo: real)
    requires Bounded(items, DURATION, m) && 1 <= n && lead <= |items|
    requires forall i | 0 <= i < lead :: items[i].Duration() > 0.0
    requires upTo == Sum(DURATION, items[..lead]) && upTo * n as real <= Sum(DURATION, items)
    ensures forall j | 0 <= j < lead :: Slot(items, DURATION, n, j) == 0
  {
    forall j | 0 <= j < lead ensures Slot(items, DURATION, n, j) == 0 {
      SumPrefix(items, DURATION, m, j + 1, lead);
      LeadSharesCard(items, m, n, j, upTo);
    }
  }

  lemma {:induction false} ScaleDown(x: real, n: nat, k: nat, limit: real)
    requires x >= 0.0 && n <= k && x * k as real <= limit
    ensures x * n as real <= limit
  {
    MulMono(n as real, k as real, x);
  }

  // If 101 or more leading tracks together last no longer than one even share of the book,
  // no split separates them and the book falls back to one card per track.
  lemma {:induction false} ShortLeadFallsBack(items: seq<Segment>, bytesPerSec: real, m: real, lead: nat,
                                              cards: seq<seq<Segment>>, first: nat, n: nat)
    requires Searched(items, DURATION, CardFits(bytesPerSec), first, n, cards)
    requires Bounded(items, DURATION, m) && CARD_TRACKS < lead <= |items|
    requires forall i | 0 <= i < lead :: items[i].Duration() > 0.0
    requires Sum(DURATION, items[..lead]) * |items| as real <= Sum(DURATION, items)
    ensures cards == Singles(items)
  {
    var upTo := Sum(DURATION, items[..lead]);
    if n <= |items| {
      SumPrefix(items, DURATION, m, 0, lead);
      assert items[..0] == [];
      ScaleDown(upTo, n, |items|, Sum(DURATION, items));
      LeadSlots(items, m, lead, n, upTo);
      LeadOverfills(items, bytesPerSec, lead, n);
    }
  }

  function Repeat(s: Segment, n: nat): (r: seq<Segment>)
    ensures |r| == n && forall x | x in r :: x == s
  {
    seq(n, _ => s)
  }

  lemma {:induction false} SumRepeat(s: Segment, n: nat)
    ensures Sum(DURATION, Repeat(s, n)) == Times(n, s.Duration())
  {
    if n > 0 {
      assert Repeat(s, n)[..n - 1] == Repeat(s, n - 1);
      SumRepeat(s, n - 1);
    }
  }

  function ShortThenLong(): seq<Segment> {
    Repeat(Segment("s", 0.0, 1.0), 101) + Repeat(Segment("l", 0.0, 3480.0), 101)
  }

  lemma {:induction false} ShortThenLongTotals()
    ensures Sum(DURATION, ShortThenLong()) == 351581.0
    ensures Sum(DURATION, ShortThenLong()[..101]) == 101.0
    ensures Sum(DURATION, ShortThenLong()[..100]) == 100.0
  {
    var short, long := Segment("s", 0.0, 1.0), Segment("l", 0.0, 3480.0);
    SumRepeat(short, 101);
    TimesIsProduct(101, 1.0);
    SumRepeat(long, 101);
    TimesIsProduct(101, 3480.0);
    SumConcat(DURATION, Repeat(short, 101), Repeat(long, 101));
    assert ShortThenLong()[..101] == Repeat(short, 101);
    SumRepeat(short, 100);
    TimesIsProduct(100, 1.0);
    assert ShortThenLong()[..100] == Repeat(short, 100);
  }

  // Those tracks fit 103 legal cards in order: the first hundred together, the others alone.
  lemma {:induction false} ShortThenLongIn103() returns (other: seq<seq<Segment>>)
    ensures Flatten(other) == ShortThenLong() && |other| == 103
    ensures forall c | c in other :: CardLegal(c, 16000.0)
  {
    var items := ShortThenLong();
    other := [items[..100]] + Singles(items[100..]);
    FlattenCons(items[..100], Singles(items[100..]));
    FlattenSingles(items[100..]);
    assert items == items[..100] + items[100..];
    ShortThenLongTotals();
    forall i | 0 <= i < |other| ensures CardLegal(other[i], 16000.0) {
      if i > 0 {
        assert other[i] == [items[99 + i]];
        assert other[i][..0] == [];
      }
    }
  }

  // So the result is not always the fewest cards: 101 one-second tracks followed by 101 of
  // 58 minutes are given 202 cards, though 103 would do.
  lemma {:induction false} FallbackIsNotMinimal(cards: seq<seq<Segment>>, first: nat, n: nat)
    requires Searched(ShortThenLong(), DURATION, CardFits(16000.0), first, n, cards)
    ensures |cards| == 202
    ensures exists other: seq<seq<Segment>> ::
              Flatten(other) == ShortThenLong() && |other| == 103 && forall c | c in other :: CardLegal(c, 16000.0)
  {
    ShortThenLongTotals();
    ShortLeadFallsBack(ShortThenLong(), 16000.0, 3480.0, 101, cards, first, n);
    var other := ShortThenLongIn103();
  }
}
