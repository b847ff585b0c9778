// When pack_cards finds the fewest cards, and when it does not
// (modules/nixos/services/yoto-share/yoto-prep.py).
module YotoFewest {
  import opened Seqs
  import opened YotoPrep
  import opened YotoCards
  import opened YotoMerge

  // ---- the fewest cards there can be: filling each card before the next ----

  // Where the cards begin when the first n items are put on, each on the last card if it fits.
  function Fill<T>(items: seq<T>, fits: seq<T> -> bool, n: nat): (starts: seq<nat>)
    requires n <= |items|
    ensures Starts(starts, n)
  {
    if n == 0 then []
    else
      var starts := Fill(items, fits, n - 1);
      if starts != [] && fits(items[starts[|starts| - 1]..n]) then starts else starts + [n - 1]
  }

  // Beginnings of non-empty cards that together hold n items.
  predicate Starts(starts: seq<nat>, n: nat) {
    if starts == [] then n == 0
    else starts[|starts| - 1] < n && Starts(starts[..|starts| - 1], starts[|starts| - 1])
  }

  function CardsAt<T>(items: seq<T>, starts: seq<nat>, n: nat): (cards: seq<seq<T>>)
    requires n <= |items| && Starts(starts, n)
    ensures |cards| == |starts|
    decreases |starts|
  {
    if starts == [] then []
    else
      var last := starts[|starts| - 1];
      CardsAt(items, starts[..|starts| - 1], last) + [items[last..n]]
  }

  lemma {:induction false} CardsHoldAll<T>(items: seq<T>, starts: seq<nat>, n: nat)
    requires n <= |items| && Starts(starts, n)
    ensures Flatten(CardsAt(items, starts, n)) == items[..n]
    decreases |starts|
  {
    if starts != [] {
      var last := starts[|starts| - 1];
      CardsHoldAll(items, starts[..|starts| - 1], last);
      var cards := CardsAt(items, starts, n);
      assert cards[..|cards| - 1] == CardsAt(items, starts[..|starts| - 1], last);
      assert items[..n] == items[..last] + items[last..n];
    }
  }

  lemma {:induction false} LastCardGrows<T>(items: seq<T>, starts: seq<nat>, n: nat)
    requires 0 < n <= |items| && Starts(starts, n - 1) && starts != []
    ensures var i := |starts| - 1;
            CardsAt(items, starts, n) == CardsAt(items, starts, n - 1)[i := items[starts[i]..n]]
  {
  }

  lemma {:induction false} NewCardFits<T>(items: seq<T>, fits: seq<T> -> bool, starts: seq<nat>, n: nat)
    requires 0 < n <= |items| && Starts(starts, n - 1) && fits([items[n - 1]])
    requires AllFit(CardsAt(items, starts, n - 1), fits)
    ensures AllFit(CardsAt(items, starts + [n - 1], n), fits)
  {
    assert (starts + [n - 1])[..|starts|] == starts;
    assert items[n - 1..n] == [items[n - 1]];
    assert CardsAt(items, starts + [n - 1], n) == CardsAt(items, starts, n - 1) + [[items[n - 1]]];
  }

  lemma {:induction false} CardsFit<T>(items: seq<T>, fits: seq<T> -> bool, n: nat)
    requires n <= |items| && forall x | x in items :: fits([x])
    ensures AllFit(CardsAt(items, Fill(items, fits, n), n), fits)
  {
    if n > 0 {
      CardsFit(items, fits, n - 1);
      var starts := Fill(items, fits, n - 1);
      if starts != [] && fits(items[starts[|starts| - 1]..n]) {
        LastCardGrows(items, starts, n);
      } else {
        NewCardFits(items, fits, starts, n);
      }
    }
  }

  // Any stretch of what fits fits.
  ghost predicate Shrinks<T>(items: seq<T>, fits: seq<T> -> bool) {
    forall a: nat, j: nat, k: nat, b: nat | a <= j < k <= b <= |items| && fits(items[a..b]) :: fits(items[j..k])
  }

  // Against groups that hold p items and a last one, still growing, of the rest: the filled
  // cards are no more, and when they are as many the last one begins no earlier.
  lemma {:induction false} FillIsAhead<T>(items: seq<T>, fits: seq<T> -> bool, n: nat, init: seq<seq<T>>, p: nat)
    requires p <= n <= |items| && Shrinks(items, fits) && AllFit(init, fits)
    requires Flatten(init) == items[..p] && (p < n ==> fits(items[p..n]))
    ensures var starts := Fill(items, fits, n);
            if p == n then |starts| <= |init|
            else |starts| <= |init| + 1 && (|starts| == |init| + 1 ==> starts[|starts| - 1] >= p)
    decreases n, |init|
  {
    if p == n {
      if init != [] {
        var g := init[|init| - 1];
        assert Flatten(init) == Flatten(init[..|init| - 1]) + g;
        assert Flatten(init[..|init| - 1]) == items[..p - |g|] && g == items[p - |g|..p];
        FillIsAhead(items, fits, n, init[..|init| - 1], p - |g|);
      }
    } else {
      FillIsAhead(items, fits, n - 1, init, p);
      var starts := Fill(items, fits, n - 1);
      assert |starts| == |init| + 1 ==> fits(items[starts[|starts| - 1]..n]);
    }
  }

  lemma {:induction false} FillIsLeast<T>(items: seq<T>, fits: seq<T> -> bool, other: seq<seq<T>>)
    requires Shrinks(items, fits) && Flatten(other) == items && AllFit(other, fits)
    ensures |Fill(items, fits, |items|)| <= |other|
  {
    assert items[..|items|] == items;
    FillIsAhead(items, fits, |items|, other, |items|);
  }

  // ---- on tracks: the least number of legal cards ----

  ghost predicate Legal(cards: seq<seq<Segment>>, segments: seq<Segment>, bytesPerSec: real) {
    Flatten(cards) == segments && forall c | c in cards :: CardLegal(c, bytesPerSec)
  }

  // The number of cards when they are filled one after the other.
  function FillCount(segments: seq<Segment>, bytesPerSec: real): (n: nat) {
    |Fill(segments, CardFits(bytesPerSec), |segments|)|
  }

  // What is packed: tracks of at most `longest`, of which three fit a card.
  ghost predicate Packable(segments: seq<Segment>, bytesPerSec: real, longest: real) {
    && segments != [] && bytesPerSec >= 0.0 && Bounded(segments, DURATION, longest)
    && 3.0 * longest <= CARD_SECONDS && 3.0 * longest * bytesPerSec <= CARD_BYTES
  }

  // The outcome of pack_cards.
  ghost predicate Packed(segments: seq<Segment>, bytesPerSec: real, first: nat, n: nat, cards: seq<seq<Segment>>) {
    && LeastCount(Sum(DURATION, segments), Sum(DURATION, segments) * bytesPerSec, |segments|, CARD_BYTES, first)
    && Searched(segments, DURATION, CardFits(bytesPerSec), first, n, cards)
  }

  lemma {:induction false} OneFits(s: Segment, bytesPerSec: real, longest: real)
    requires 0.0 <= s.Duration() <= longest && bytesPerSec >= 0.0
    requires 3.0 * longest <= CARD_SECONDS && 3.0 * longest * bytesPerSec <= CARD_BYTES
    ensures CardFits(bytesPerSec)([s])
  {
    SumOne(DURATION, s);
    MulMono(s.Duration(), 3.0 * longest, bytesPerSec);
  }

  lemma {:induction false} SliceOfSlice<T>(s: seq<T>, a: nat, j: nat, k: nat, b: nat)
    requires a <= j <= k <= b <= |s|
    ensures s[j..k] == s[a..b][j - a..k - a]
  {
    var c := s[a..b];
    assert forall i | 0 <= i < k - j :: s[j..k][i] == s[j + i] == c[j - a + i] == c[j - a..k - a][i];
  }

  lemma {:induction false} StretchFits(segments: seq<Segment>, bytesPerSec: real, longest: real,
                                       a: nat, j: nat, k: nat, b: nat)
    requires Bounded(segments, DURATION, longest) && bytesPerSec >= 0.0 && a <= j < k <= b <= |segments|
    requires CardLegal(segments[a..b], bytesPerSec)
    ensures CardLegal(segments[j..k], bytesPerSec)
  {
    var c := segments[a..b];
    SliceOfSlice(segments, a, j, k, b);
    SumSlice(c, longest, j - a, k - a);
    MulMono(Sum(DURATION, segments[j..k]), Sum(DURATION, c), bytesPerSec);
  }

  lemma {:induction false} CardFitsShrinks(segments: seq<Segment>, bytesPerSec: real, longest: real)
    requires Bounded(segments, DURATION, longest) && bytesPerSec >= 0.0
    ensures Shrinks(segments, CardFits(bytesPerSec))
  {
    forall a: nat, j: nat, k: nat, b: nat |
      a <= j < k <= b <= |segments| && CardFits(bytesPerSec)(segments[a..b])
      ensures CardFits(bytesPerSec)(segments[j..k])
    {
      StretchFits(segments, bytesPerSec, longest, a, j, k, b);
    }
  }

  lemma {:induction false} LegalFits(cards: seq<seq<Segment>>, bytesPerSec: real)
    ensures AllFit(cards, CardFits(bytesPerSec)) <==> forall c | c in cards :: CardLegal(c, bytesPerSec)
  {
    if AllFit(cards, CardFits(bytesPerSec)) {
      forall c | c in cards ensures CardLegal(c, bytesPerSec) {
        var i :| 0 <= i < |cards| && cards[i] == c;
        assert CardFits(bytesPerSec)(cards[i]);
      }
    }
  }

  // Filling cards in turn is legal, and no legal grouping has fewer cards.
  lemma {:induction false} FillCountIsLeast(segments: seq<Segment>, bytesPerSec: real, longest: real)
    returns (filled: seq<seq<Segment>>)
    requires Packable(segments, bytesPerSec, longest)
    ensures Legal(filled, segments, bytesPerSec) && |filled| == FillCount(segments, bytesPerSec)
    ensures forall other | Legal(other, segments, bytesPerSec) :: FillCount(segments, bytesPerSec) <= |other|
  {
    var fits := CardFits(bytesPerSec);
    forall s | s in segments ensures fits([s]) {
      OneFits(s, bytesPerSec, longest);
    }
    var starts := Fill(segments, fits, |segments|);
    filled := CardsAt(segments, starts, |segments|);
    CardsHoldAll(segments, starts, |segments|);
    assert segments[..|segments|] == segments;
    CardsFit(segments, fits, |segments|);
    LegalFits(filled, bytesPerSec);
    CardFitsShrinks(segments, bytesPerSec, longest);
    forall other | Legal(other, segments, bytesPerSec)
      ensures FillCount(segments, bytesPerSec) <= |other|
    {
      LegalFits(other, bytesPerSec);
      FillIsLeast(segments, fits, other);
    }
  }

  // ---- a roomy first count, and two cards, are always found ----

  // If the mean card of the first count plus the longest track is within the limits, the result
  // has the fewest cards.
  lemma {:induction false} RoomyFirstIsFewest(segments: seq<Segment>, bytesPerSec: real, longest: real, first: nat,
                                              n: nat, cards: seq<seq<Segment>>, other: seq<seq<Segment>>)
    requires Packed(segments, bytesPerSec, first, n, cards) && Legal(other, segments, bytesPerSec)
    requires segments != [] && bytesPerSec >= 0.0 && Bounded(segments, DURATION, longest) && |segments| <= CARD_TRACKS
    requires Roomy(segments, bytesPerSec, longest, first)
    ensures |cards| <= |other|
  {
    LegalNeedsCount(segments, bytesPerSec, other, first);
    if first <= |segments| {
      PackStopsWhenRoomy(segments, bytesPerSec, longest, cards, first, n, first);
      EvenSplitConserves(segments, DURATION, n);
    }
  }

  lemma {:induction false} NextOfTwo<T>(items: seq<T>, dur: T -> real, i: nat, p: nat)
    requires p <= i < |items| && Bins(items, dur, 2, i) == [items[..p], items[p..i]]
    ensures Slot(items, dur, 2, i) == 0 && p == i ==> Bins(items, dur, 2, i + 1) == [items[..i + 1], []]
    ensures Slot(items, dur, 2, i) == 1 ==> Bins(items, dur, 2, i + 1) == [items[..p], items[p..i + 1]]
  {
    assert items[..i + 1] == items[..i] + [items[i]];
    assert items[p..i + 1] == items[p..i] + [items[i]];
  }

  // Two bins: the items before and after one cut.
  lemma {:induction false} TwoBins<T>(items: seq<T>, dur: T -> real, i: nat) returns (p: nat)
    requires i <= |items|
    ensures p <= i && Bins(items, dur, 2, i) == [items[..p], items[p..i]]
    ensures forall j | 0 <= j < p :: Slot(items, dur, 2, j) == 0
    ensures forall j | p <= j < i :: Slot(items, dur, 2, j) == 1
  {
    if i == 0 {
      assert Bins(items, dur, 2, 0) == [[], []];
      assert items[..0] == [] && items[0..0] == [];
      return 0;
    }
    p := TwoBins(items, dur, i - 1);
    NextOfTwo(items, dur, i - 1, p);
    if Slot(items, dur, 2, i - 1) == 0 {
      p := i;
      assert items[i..i] == [];
    }
  }

  lemma {:induction false} HalfWay(mid: real, total: real)
    requires 0.0 <= mid && total > 0.0
    ensures CardAt(mid, total, 2) == if mid < total / 2.0 then 0 else 1
  {
    CardAtIs(mid, total, 2, if mid < total / 2.0 then 0 else 1);
  }

  // An item on the first card has its midpoint in the first half, or there is nothing to halve.
  lemma {:induction false} OnFirst(items: seq<Segment>, m: real, i: nat)
    requires Bounded(items, DURATION, m) && i < |items| && Slot(items, DURATION, 2, i) == 0
    ensures Midpoint(items, DURATION, i) <= Sum(DURATION, items) / 2.0
  {
    ClampNeverFires(items, DURATION, m, 2, i);
    MidpointRange(items, DURATION, m, i);
    if Sum(DURATION, items) > 0.0 {
      HalfWay(Midpoint(items, DURATION, i), Sum(DURATION, items));
    }
  }

  lemma {:induction false} OnSecond(items: seq<Segment>, m: real, i: nat)
    requires Bounded(items, DURATION, m) && i < |items| && Slot(items, DURATION, 2, i) == 1
    ensures Midpoint(items, DURATION, i) >= Sum(DURATION, items) / 2.0
  {
    ClampNeverFires(items, DURATION, m, 2, i);
    MidpointRange(items, DURATION, m, i);
    if Sum(DURATION, items) > 0.0 {
      HalfWay(Midpoint(items, DURATION, i), Sum(DURATION, items));
    }
  }

  lemma {:induction false} EarlierCut(items: seq<Segment>, m: real, p: nat, c: nat)
    requires Bounded(items, DURATION, m) && c < p <= |items| && Slot(items, DURATION, 2, p - 1) == 0
    ensures var total, left, here := Sum(DURATION, items), Sum(DURATION, items[..p]), Sum(DURATION, items[..c]);
            here <= left <= total && left <= total - here
  {
    OnFirst(items, m, p - 1);
    SumPrefix(items, DURATION, m, c, p - 1);
    SumPrefix(items, DURATION, m, p - 1, p);
    SumPrefix(items, DURATION, m, p, |items|);
    assert items[..|items|] == items && items[..p][..p - 1] == items[..p - 1];
  }

  lemma {:induction false} LaterCut(items: seq<Segment>, m: real, p: nat, c: nat)
    requires Bounded(items, DURATION, m) && p < c <= |items| && Slot(items, DURATION, 2, p) == 1
    ensures var total, left, here := Sum(DURATION, items), Sum(DURATION, items[..p]), Sum(DURATION, items[..c]);
            left <= here && total - left <= here
  {
    OnSecond(items, m, p);
    SumPrefix(items, DURATION, m, p, p + 1);
    SumPrefix(items, DURATION, m, p + 1, c);
    assert items[..p + 1][..p] == items[..p];
  }

  // The midpoint cut is the one nearest to half the total: at any other cut one card is at least
  // as long as both of its cards.
  lemma {:induction false} NearestCut(items: seq<Segment>, m: real, p: nat, c: nat)
    requires Bounded(items, DURATION, m) && p <= |items| && c <= |items|
    requires forall j | 0 <= j < p :: Slot(items, DURATION, 2, j) == 0
    requires forall j | p <= j < |items| :: Slot(items, DURATION, 2, j) == 1
    ensures var total, left, here := Sum(DURATION, items), Sum(DURATION, items[..p]), Sum(DURATION, items[..c]);
            var longer := if here >= total - here then here else total - here;
            left <= longer && total - left <= longer
  {
    if c < p {
      EarlierCut(items, m, p, c);
    } else if p < c {
      LaterCut(items, m, p, c);
    }
  }

  lemma {:induction false} SecondSum(items: seq<Segment>, c: nat)
    requires c <= |items|
    ensures Sum(DURATION, items[c..]) == Sum(DURATION, items) - Sum(DURATION, items[..c])
  {
    assert items == items[..c] + items[c..];
    SumConcat(DURATION, items[..c], items[c..]);
  }

  ghost predicate ShortEnough(seconds: real, bytesPerSec: real) {
    seconds <= CARD_SECONDS && seconds * bytesPerSec <= CARD_BYTES
  }

  lemma {:induction false} BothFit(a: seq<Segment>, b: seq<Segment>, limit: real, bytesPerSec: real)
    requires bytesPerSec >= 0.0 && |a| + |b| <= CARD_TRACKS && ShortEnough(limit, bytesPerSec)
    requires Sum(DURATION, a) <= limit && Sum(DURATION, b) <= limit
    ensures AllFit(NonEmpty([a, b]), CardFits(bytesPerSec))
  {
    ShortCardFits(a, limit, bytesPerSec);
    ShortCardFits(b, limit, bytesPerSec);
    NonEmptyKeeps([a, b]);
    forall i | 0 <= i < |NonEmpty([a, b])|
      ensures CardFits(bytesPerSec)(NonEmpty([a, b])[i])
    {
      assert NonEmpty([a, b])[i] in [a, b];
    }
  }

  lemma {:induction false} LongerCard(items: seq<Segment>, bytesPerSec: real, c: nat) returns (limit: real)
    requires c <= |items| && CardLegal(items[..c], bytesPerSec) && CardLegal(items[c..], bytesPerSec)
    ensures ShortEnough(limit, bytesPerSec)
    ensures Sum(DURATION, items[..c]) <= limit && Sum(DURATION, items) - Sum(DURATION, items[..c]) <= limit
  {
    SecondSum(items, c);
    var a, b := Sum(DURATION, items[..c]), Sum(DURATION, items[c..]);
    limit := if a >= b then a else b;
  }

  // If some cut in two is legal, the midpoint cut is.
  lemma {:induction false} SplitInTwoFits(items: seq<Segment>, bytesPerSec: real, m: real, c: nat)
    requires Bounded(items, DURATION, m) && bytesPerSec >= 0.0 && |items| <= CARD_TRACKS && c <= |items|
    requires CardLegal(items[..c], bytesPerSec) && CardLegal(items[c..], bytesPerSec)
    ensures AllFit(EvenSplit(items, DURATION, 2), CardFits(bytesPerSec))
  {
    var limit := LongerCard(items, bytesPerSec, c);
    var p := TwoBins(items, DURATION, |items|);
    assert items[p..] == items[p..|items|];
    SecondSum(items, p);
    NearestCut(items, m, p, c);
    BothFit(items[..p], items[p..], limit, bytesPerSec);
  }

  lemma {:induction false} FlattenFew<T>(groups: seq<seq<T>>)
    ensures |groups| == 0 ==> Flatten(groups) == []
    ensures |groups| == 1 ==> Flatten(groups) == groups[0]
    ensures |groups| == 2 ==> Flatten(groups) == groups[0] + groups[1]
  {
    if groups != [] {
      FlattenCons(groups[0], groups[1..]);
      assert groups == [groups[0]] + groups[1..];
      if |groups| == 2 {
        FlattenCons(groups[1], []);
        assert groups[1..] == [groups[1]] + [];
      }
    }
  }

  lemma {:induction false} SplitInOneFits(items: seq<Segment>, bytesPerSec: real)
    requires CardLegal(items, bytesPerSec) && items != []
    ensures AllFit(EvenSplit(items, DURATION, 1), CardFits(bytesPerSec))
  {
    EvenSplitConserves(items, DURATION, 1);
    OnlyGroup(EvenSplit(items, DURATION, 1), items);
  }

  lemma {:induction false} OnlyGroup<T>(groups: seq<seq<T>>, all: seq<T>)
    requires |groups| <= 1 && Flatten(groups) == all
    ensures forall i | 0 <= i < |groups| :: groups[i] == all
  {
    FlattenFew(groups);
  }

  // With at most 100 tracks, a book that fits two legal cards gets no more than it needs.
  lemma {:induction false} TwoCardsAreFewest(segments: seq<Segment>, bytesPerSec: real, m: real, first: nat, n: nat,
                                             cards: seq<seq<Segment>>, other: seq<seq<Segment>>)
    requires Packed(segments, bytesPerSec, first, n, cards) && Legal(other, segments, bytesPerSec)
    requires segments != [] && bytesPerSec >= 0.0 && Bounded(segments, DURATION, m) && |segments| <= CARD_TRACKS
    requires |other| <= 2
    ensures |cards| <= |other|
  {
    LegalNeedsCount(segments, bytesPerSec, other, first);
    if CardLegal(segments, bytesPerSec) {
      assert Enough(Sum(DURATION, segments), Sum(DURATION, segments) * bytesPerSec, |segments|, CARD_BYTES, 1);
      SplitInOneFits(segments, bytesPerSec);
      EvenSplitConserves(segments, DURATION, 1);
    } else {
      var c := TwoParts(segments, bytesPerSec, other);
      SplitInTwoFits(segments, bytesPerSec, m, c);
      if n <= |segments| {
        EvenSplitConserves(segments, DURATION, n);
      }
    }
  }

  lemma {:induction false} TwoParts(segments: seq<Segment>, bytesPerSec: real, other: seq<seq<Segment>>)
    returns (c: nat)
    requires Legal(other, segments, bytesPerSec) && |other| <= 2 && segments != [] && !CardLegal(segments, bytesPerSec)
    ensures |other| == 2 && 0 < c < |segments|
    ensures CardLegal(segments[..c], bytesPerSec) && CardLegal(segments[c..], bytesPerSec)
  {
    FlattenFew(other);
    assert segments[0..] == segments == segments[..|segments|];
    c := |other[0]|;
    assert segments[..c] == other[0] && segments[c..] == other[1];
  }

  // ---- no card is left empty while tracks are short against a card's share ----

  lemma {:induction false} CapStep(x: real, y: real, n: nat)
    requires 0.0 <= x <= y <= x + 1.0
    ensures Cap(y, n) <= Cap(x, n) + 1
  {
    FloorRange(x);
    FloorRange(y);
  }

  lemma {:induction false} CardAtCap(mid: real, total: real, n: nat)
    requires total != 0.0
    ensures CardAt(mid, total, n) == Cap(mid / total * n as real, n)
  {
  }

  lemma {:induction false} CardAtStep(a: real, b: real, gap: real, total: real, n: nat)
    requires 0.0 <= a <= b <= a + gap && total > 0.0 && n >= 1 && n as real * gap <= total
    ensures CardAt(b, total, n) <= CardAt(a, total, n) + 1
  {
    var x, y := a / total * n as real, b / total * n as real;
    assert 0.0 <= x <= y by { QuotientMono(a, b, total, n); }
    assert y <= x + 1.0 by { ShareStep(a, b, gap, total, n); }
    assert CardAt(a, total, n) == Cap(x, n) by { CardAtCap(a, total, n); }
    assert CardAt(b, total, n) == Cap(y, n) by { CardAtCap(b, total, n); }
    CapStep(x, y, n);
  }

  lemma {:induction false} ShareStep(a: real, b: real, gap: real, total: real, n: nat)
    requires b <= a + gap && total > 0.0 && n as real * gap <= total
    ensures b / total * n as real <= a / total * n as real + 1.0
  {
    var k, x, y := n as real, a / total * n as real, b / total * n as real;
    var ak, bk, gk := a * k, b * k, gap * k;
    assert x * total == ak by { ShareTimes(a, total, n); }
    assert y * total == bk by { ShareTimes(b, total, n); }
    assert bk <= ak + gk by {
      MulMono(b, a + gap, k);
      AddTimes(k, a, gap);
    }
    StepOfShares(x, y, total, ak, bk);
  }

  lemma {:induction false} OneMoreTimes(x: real, t: real)
    ensures (x + 1.0) * t == x * t + t
  {
  }

  lemma {:induction false} StepOfShares(x: real, y: real, total: real, a: real, b: real)
    requires total > 0.0 && x * total == a && y * total == b && b <= a + total
    ensures y <= x + 1.0
  {
    var z := x + 1.0;
    assert z * total == a + total by { OneMoreTimes(x, total); }
    NotAbove(y, z, total, b, a + total);
  }

  lemma {:induction false} LastShare(mid: real, half: real, total: real, n: nat)
    requires 0.0 <= mid && total > 0.0 && n >= 1 && mid + half >= total && n as real * half <= total
    ensures CardAt(mid, total, n) == n - 1
  {
    var k, last := n as real, (n - 1) as real;
    var lt, mk, hk, kt := last * total, mid * k, half * k, k * total;
    assert kt <= mk + hk by {
      MulMono(total, mid + half, k);
      AddTimes(k, mid, half);
    }
    assert kt == lt + total by { OneMoreTimes(last, total); }
    CardAtIs(mid, total, n, n - 1);
  }

  lemma {:induction false} SlotSteps(items: seq<Segment>, m: real, n: nat, i: nat)
    requires Bounded(items, DURATION, m) && n >= 1 && 0 < i < |items|
    requires Sum(DURATION, items) > 0.0 && n as real * m <= Sum(DURATION, items)
    ensures Slot(items, DURATION, n, i) <= Slot(items, DURATION, n, i - 1) + 1
  {
    ClampNeverFires(items, DURATION, m, n, i);
    ClampNeverFires(items, DURATION, m, n, i - 1);
    MidpointsOrdered(items, DURATION, m, i - 1);
    assert items[..i][..i - 1] == items[..i - 1];
    CardAtStep(Midpoint(items, DURATION, i - 1), Midpoint(items, DURATION, i), m, Sum(DURATION, items), n);
  }

  lemma {:induction false} FirstSlot(items: seq<Segment>, m: real, n: nat)
    requires Bounded(items, DURATION, m) && n >= 1 && items != []
    requires Sum(DURATION, items) > 0.0 && n as real * m <= Sum(DURATION, items)
    ensures Slot(items, DURATION, n, 0) == 0
  {
    ClampNeverFires(items, DURATION, m, n, 0);
    assert items[..0] == [];
    if m == 0.0 {
      SumBound(DURATION, items, 0.0);
    }
    BelowFirstCut(Midpoint(items, DURATION, 0), Sum(DURATION, items), n, m);
  }

  lemma {:induction false} LastSlot(items: seq<Segment>, m: real, n: nat)
    requires Bounded(items, DURATION, m) && n >= 1 && items != []
    requires Sum(DURATION, items) > 0.0 && n as real * m <= Sum(DURATION, items)
    ensures Slot(items, DURATION, n, |items| - 1) == n - 1
  {
    var i := |items| - 1;
    ClampNeverFires(items, DURATION, m, n, i);
    MidpointRange(items, DURATION, m, i);
    assert items[..|items|] == items && items[..|items|][..i] == items[..i];
    LastShare(Midpoint(items, DURATION, i), m, Sum(DURATION, items), n);
  }

  // Every slot up to that of item i is some item's.
  lemma {:induction false} SlotTaken(items: seq<Segment>, m: real, n: nat, i: nat, k: nat) returns (j: nat)
    requires Bounded(items, DURATION, m) && n >= 1 && i < |items| && k <= Slot(items, DURATION, n, i)
    requires Sum(DURATION, items) > 0.0 && n as real * m <= Sum(DURATION, items)
    ensures j <= i && Slot(items, DURATION, n, j) == k
  {
    if k == Slot(items, DURATION, n, i) {
      return i;
    }
    if i == 0 {
      FirstSlot(items, m, n);
    } else {
      SlotSteps(items, m, n, i);
      j := SlotTaken(items, m, n, i - 1, k);
    }
  }

  lemma {:induction false} SlotFills<T>(items: seq<T>, dur: T -> real, n: nat, i: nat, j: nat)
    requires n >= 1 && j < i <= |items|
    ensures Bins(items, dur, n, i)[Slot(items, dur, n, j)] != []
  {
    if j < i - 1 {
      SlotFills(items, dur, n, i - 1, j);
    }
  }

  lemma {:induction false} NoneEmpty<T>(groups: seq<seq<T>>)
    requires forall i | 0 <= i < |groups| :: groups[i] != []
    ensures NonEmpty(groups) == groups
  {
    if groups != [] {
      NoneEmpty(groups[..|groups| - 1]);
    }
  }

  lemma {:induction false} NoCardEmpty(items: seq<Segment>, m: real, n: nat)
    requires Bounded(items, DURATION, m) && n >= 1 && items != []
    requires Sum(DURATION, items) > 0.0 && n as real * m <= Sum(DURATION, items)
    ensures |EvenSplit(items, DURATION, n)| == n
  {
    var bins := Bins(items, DURATION, n, |items|);
    LastSlot(items, m, n);
    forall k | 0 <= k < |bins|
      ensures bins[k] != []
    {
      var j := SlotTaken(items, m, n, |items| - 1, k);
      SlotFills(items, DURATION, n, |items|, j);
    }
    NoneEmpty(bins);
  }

  // ---- exactly when the result is the fewest ----

  lemma {:induction false} LongMean(q: real, m: real, bytesPerSec: real)
    requires bytesPerSec >= 0.0 && 3.0 * m <= CARD_SECONDS && 3.0 * m * bytesPerSec <= CARD_BYTES
    requires q + m > CARD_SECONDS || (q + m) * bytesPerSec > CARD_BYTES
    ensures q > 2.0 * m
  {
    if q + m <= 3.0 * m {
      MulMono(q + m, 3.0 * m, bytesPerSec);
    }
  }

  lemma {:induction false} RoomForOneMore(total: real, m: real, k: nat)
    requires k >= 1 && m >= 0.0 && total / k as real > 2.0 * m
    ensures total > 0.0 && (k + 1) as real * m <= total
  {
    var q, r := total / k as real, k as real;
    assert q * r == total;
    var rm, double, next := r * m, 2.0 * m * r, (k + 1) as real * m;
    assert double < total by { MulStrict(2.0 * m, q, r); }
    assert double == rm + rm;
    assert m <= rm by { MulMono(1.0, r, m); }
    assert next == rm + m by { OneMoreTimes(r, m); }
    TwiceIsMore(total, m, rm, double, next);
  }

  lemma {:induction false} TwiceIsMore(total: real, m: real, rm: real, double: real, next: real)
    requires 0.0 <= m <= rm && double == rm + rm < total && next == rm + m
    ensures total > 0.0 && next <= total
  {
  }

  lemma {:induction false} NotRoomyIsLong(segments: seq<Segment>, bytesPerSec: real, longest: real, k: nat)
    requires k >= 1 && longest >= 0.0 && bytesPerSec >= 0.0
    requires 3.0 * longest <= CARD_SECONDS && 3.0 * longest * bytesPerSec <= CARD_BYTES
    requires !Roomy(segments, bytesPerSec, longest, k)
    ensures Sum(DURATION, segments) > 0.0 && (k + 1) as real * longest <= Sum(DURATION, segments)
  {
    var total := Sum(DURATION, segments);
    LongMean(total / k as real, longest, bytesPerSec);
    RoomForOneMore(total, longest, k);
  }

  lemma {:induction false} RejectedIsLong(segments: seq<Segment>, bytesPerSec: real, longest: real, k: nat)
    requires Packable(segments, bytesPerSec, longest) && |segments| <= CARD_TRACKS && k >= 1
    requires !AllFit(EvenSplit(segments, DURATION, k), CardFits(bytesPerSec))
    ensures Sum(DURATION, segments) > 0.0 && (k + 1) as real * longest <= Sum(DURATION, segments)
  {
    if Roomy(segments, bytesPerSec, longest, k) {
      SplitFits(segments, bytesPerSec, longest, k);
    }
    assert segments[0] in segments;
    NotRoomyIsLong(segments, bytesPerSec, longest, k);
  }

  lemma {:induction false} TwoFit(longest: real, bytesPerSec: real)
    requires longest >= 0.0 && bytesPerSec >= 0.0
    requires 3.0 * longest <= CARD_SECONDS && 3.0 * longest * bytesPerSec <= CARD_BYTES
    ensures 2.0 * longest <= CARD_SECONDS && 2.0 * longest * bytesPerSec <= CARD_BYTES
  {
    MulMono(2.0 * longest, 3.0 * longest, bytesPerSec);
  }

  lemma {:induction false} EndsOnSplit(segments: seq<Segment>, bytesPerSec: real, longest: real, first: nat, n: nat,
                                       cards: seq<seq<Segment>>)
    requires Packable(segments, bytesPerSec, longest) && |segments| <= CARD_TRACKS && first <= |segments|
    requires Searched(segments, DURATION, CardFits(bytesPerSec), first, n, cards)
    ensures n <= |segments| && cards == EvenSplit(segments, DURATION, n)
  {
    assert segments[0] in segments;
    TwoFit(longest, bytesPerSec);
    PackNeverFallsBack(segments, bytesPerSec, longest, cards, first, n);
  }

  lemma {:induction false} LastRejected(segments: seq<Segment>, bytesPerSec: real, first: nat, n: nat,
                                        cards: seq<seq<Segment>>)
    requires Searched(segments, DURATION, CardFits(bytesPerSec), first, n, cards) && first < n <= |segments|
    ensures !AllFit(EvenSplit(segments, DURATION, n - 1), CardFits(bytesPerSec))
  {
  }

  lemma {:induction false} FullAfterRejection(segments: seq<Segment>, bytesPerSec: real, longest: real, n: nat)
    requires Packable(segments, bytesPerSec, longest) && |segments| <= CARD_TRACKS && 1 < n <= |segments|
    requires !AllFit(EvenSplit(segments, DURATION, n - 1), CardFits(bytesPerSec))
    ensures |EvenSplit(segments, DURATION, n)| == n
  {
    var k := n - 1;
    RejectedIsLong(segments, bytesPerSec, longest, k);
    assert k + 1 == n;
    NoCardEmpty(segments, longest, n);
  }

  // With at most 100 tracks the search ends on an even split, and leaves no card empty unless it
  // stops at once.
  lemma {:induction false} StopsOnFullCards(segments: seq<Segment>, bytesPerSec: real, longest: real, first: nat,
                                            n: nat, cards: seq<seq<Segment>>)
    requires Packable(segments, bytesPerSec, longest) && |segments| <= CARD_TRACKS && first <= |segments|
    requires Searched(segments, DURATION, CardFits(bytesPerSec), first, n, cards)
    ensures n <= |segments| && (first < n ==> |cards| == n)
  {
    EndsOnSplit(segments, bytesPerSec, longest, first, n, cards);
    if first < n {
      LastRejected(segments, bytesPerSec, first, n, cards);
      FullAfterRejection(segments, bytesPerSec, longest, n);
    }
  }

  lemma {:induction false} SinglesLegal(segments: seq<Segment>, bytesPerSec: real, longest: real)
    requires Packable(segments, bytesPerSec, longest)
    ensures Legal(Singles(segments), segments, bytesPerSec)
  {
    FlattenSingles(segments);
    forall c | c in Singles(segments)
      ensures CardLegal(c, bytesPerSec)
    {
      var i :| 0 <= i < |segments| && Singles(segments)[i] == c;
      assert segments[i] in segments;
      OneFits(segments[i], bytesPerSec, longest);
      assert CardFits(bytesPerSec)([segments[i]]);
    }
  }

  lemma {:induction false} FirstIsSmall(segments: seq<Segment>, bytesPerSec: real, longest: real, first: nat)
    requires Packable(segments, bytesPerSec, longest)
    requires LeastCount(Sum(DURATION, segments), Sum(DURATION, segments) * bytesPerSec, |segments|, CARD_BYTES, first)
    ensures first <= FillCount(segments, bytesPerSec) <= |segments|
  {
    var filled := FillCountIsLeast(segments, bytesPerSec, longest);
    LegalNeedsCount(segments, bytesPerSec, filled, first);
    SinglesLegal(segments, bytesPerSec, longest);
  }

  lemma {:induction false} PackedIsLegal(segments: seq<Segment>, bytesPerSec: real, longest: real, first: nat, n: nat,
                                         cards: seq<seq<Segment>>)
    requires Packable(segments, bytesPerSec, longest)
    requires Searched(segments, DURATION, CardFits(bytesPerSec), first, n, cards)
    ensures Legal(cards, segments, bytesPerSec)
  {
    forall s | s in segments
      ensures CardFits(bytesPerSec)([s])
    {
      OneFits(s, bytesPerSec, longest);
    }
    SearchedLegal(segments, DURATION, CardFits(bytesPerSec), first, n, cards);
    LegalFits(cards, bytesPerSec);
  }

  // Whenever the even split into the least legal number of cards fits, the result has it.
  lemma {:induction false} FewestIf(segments: seq<Segment>, bytesPerSec: real, longest: real, first: nat, n: nat,
                                    cards: seq<seq<Segment>>)
    requires Packable(segments, bytesPerSec, longest) && Packed(segments, bytesPerSec, first, n, cards)
    requires AllFit(EvenSplit(segments, DURATION, FillCount(segments, bytesPerSec)), CardFits(bytesPerSec))
    ensures |cards| == FillCount(segments, bytesPerSec)
  {
    FirstIsSmall(segments, bytesPerSec, longest, first);
    EvenSplitConserves(segments, DURATION, n);
    PackedIsLegal(segments, bytesPerSec, longest, first, n, cards);
    var filled := FillCountIsLeast(segments, bytesPerSec, longest);
  }

  // And if no card of the last split tried was left empty, only then.
  lemma {:induction false} OnlyThen(segments: seq<Segment>, bytesPerSec: real, longest: real, first: nat, n: nat,
                                    cards: seq<seq<Segment>>)
    requires Packable(segments, bytesPerSec, longest) && Packed(segments, bytesPerSec, first, n, cards)
    requires n <= |segments| && (first < n ==> |cards| == n)
    requires |cards| == FillCount(segments, bytesPerSec)
    ensures AllFit(EvenSplit(segments, DURATION, FillCount(segments, bytesPerSec)), CardFits(bytesPerSec))
  {
    FirstIsSmall(segments, bytesPerSec, longest, first);
    EvenSplitConserves(segments, DURATION, n);
  }

  // With at most 100 tracks: pack_cards uses the fewest cards exactly when the even split into as
  // many cards as filling them in turn takes fits.
  lemma {:induction false} FewestIff(segments: seq<Segment>, bytesPerSec: real, longest: real, first: nat, n: nat,
                                     cards: seq<seq<Segment>>)
    requires Packable(segments, bytesPerSec, longest) && |segments| <= CARD_TRACKS
    requires Packed(segments, bytesPerSec, first, n, cards)
    ensures (forall other | Legal(other, segments, bytesPerSec) :: |cards| <= |other|) <==>
              AllFit(EvenSplit(segments, DURATION, FillCount(segments, bytesPerSec)), CardFits(bytesPerSec))
  {
    var filled := FillCountIsLeast(segments, bytesPerSec, longest);
    PackedIsLegal(segments, bytesPerSec, longest, first, n, cards);
    FirstIsSmall(segments, bytesPerSec, longest, first);
    StopsOnFullCards(segments, bytesPerSec, longest, first, n, cards);
    if AllFit(EvenSplit(segments, DURATION, FillCount(segments, bytesPerSec)), CardFits(bytesPerSec)) {
      FewestIf(segments, bytesPerSec, longest, first, n, cards);
    } else if |cards| == FillCount(segments, bytesPerSec) {
      OnlyThen(segments, bytesPerSec, longest, first, n, cards);
    }
  }

  lemma {:induction false} AtByteLimit(d: real, bytesPerSec: real)
    requires bytesPerSec > 0.0 && d * bytesPerSec <= TRACK_BYTES
    ensures d <= TRACK_BYTES / bytesPerSec && 3.0 * (TRACK_BYTES / bytesPerSec) * bytesPerSec <= CARD_BYTES
  {
    var q := TRACK_BYTES / bytesPerSec;
    assert q * bytesPerSec == TRACK_BYTES;
    if q < d {
      MulStrict(q, d, bytesPerSec);
    }
  }

  // Tracks within the track limits are packable, at every rate.
  lemma {:induction false} TracksArePackable(segments: seq<Segment>, bytesPerSec: real) returns (longest: real)
    requires segments != [] && bytesPerSec >= 0.0
    requires forall s | s in segments :: s.Duration() >= 0.0 && Fits(s.Duration(), bytesPerSec)
    ensures Packable(segments, bytesPerSec, longest)
  {
    if TRACK_SECONDS * bytesPerSec <= TRACK_BYTES {
      return TRACK_SECONDS;
    }
    longest := TRACK_BYTES / bytesPerSec;
    AtByteLimit(0.0, bytesPerSec);
    forall s | s in segments
      ensures s.Duration() <= longest
    {
      AtByteLimit(s.Duration(), bytesPerSec);
    }
    assert longest * bytesPerSec == TRACK_BYTES;
    if TRACK_SECONDS < longest {
      MulMono(TRACK_SECONDS, longest, bytesPerSec);
    }
  }

  // ---- more than 100 tracks ----

  lemma {:induction false} ShareOfMore(total: real, f: nat, n: nat, share: real)
    requires total >= 0.0 && f < n && share * (f + 1) as real == total
    ensures total / n as real <= share
  {
    var m := (f + 1) as real;
    if share < 0.0 {
      MulStrict(share, 0.0, m);
    }
    MulMono(m, n as real, share);
    QuotientBound(total, n, share);
  }

  // The book is longer than f * (f + 1) of its longest tracks.
  ghost predicate Long(total: real, longest: real, f: nat) {
    f as real * (f + 1) as real * longest < total
  }

  lemma {:induction false} Regroup(k: real, m: real, longest: real, total: real)
    requires k * m * longest < total
    ensures k * longest * m < total
  {
  }

  lemma {:induction false} ShareBeyond(total: real, longest: real, f: nat, q: real)
    requires Long(total, longest, f) && q * (f + 1) as real == total
    ensures f as real * longest < q
  {
    var k, m := f as real, (f + 1) as real;
    Regroup(k, m, longest, total);
    var kl := k * longest;
    if q <= kl {
      MulMono(q, kl, m);
    }
  }

  // Then f cards of a share of f + 1 and one more track do not make up the book.
  lemma {:induction false} FewCannotHold(total: real, longest: real, f: nat, share: real, c: nat, limit: real)
    requires Long(total, longest, f) && longest >= 0.0 && share * (f + 1) as real == total
    requires c <= f && limit == share + longest
    ensures c as real * limit < total
  {
    var k := f as real;
    ShareBeyond(total, longest, f, share);
    MulMono(0.0, longest, k);
    OneMoreTimes(k, share);
    AddTimes(k, share, longest);
    MulMono(c as real, k, limit);
  }

  lemma {:induction false} AddTimes(k: real, a: real, b: real)
    ensures k * (a + b) == a * k + b * k
  {
  }

  lemma {:induction false} ShortBelow(cards: seq<seq<Segment>>, lower: real, limit: real)
    requires AllShort(cards, DURATION, lower) && lower <= limit
    ensures Sum(DURATION, Flatten(cards)) <= Times(|cards|, limit)
  {
    SumFlatten(DURATION, cards, limit);
    TimesIsProduct(|cards|, limit);
  }

  lemma {:induction false} SplitHolds(items: seq<Segment>, longest: real, n: nat, limit: real)
    requires Bounded(items, DURATION, longest) && n >= 1 && Sum(DURATION, items) / n as real + longest <= limit
    ensures Sum(DURATION, items) <= Times(|EvenSplit(items, DURATION, n)|, limit)
  {
    EvenSplitBalanced(items, DURATION, longest, n);
    EvenSplitConserves(items, DURATION, n);
    ShortBelow(EvenSplit(items, DURATION, n), Sum(DURATION, items) / n as real + longest, limit);
  }

  // A bound on a card of n shares that c <= f cards cannot live up to.
  lemma {:induction false} TooShort(total: real, longest: real, f: nat, n: nat, c: nat) returns (limit: real)
    requires Long(total, longest, f) && longest >= 0.0 && total >= 0.0 && c <= f < n
    ensures total / n as real + longest <= limit && Times(c, limit) < total
  {
    var share := total / (f + 1) as real;
    assert share * (f + 1) as real == total;
    ShareOfMore(total, f, n, share);
    limit := share + longest;
    FewCannotHold(total, longest, f, share, c, limit);
    TimesIsProduct(c, limit);
  }

  // f cards of a split into more than f shares cannot hold a long book.
  lemma {:induction false} MoreThanFill(items: seq<Segment>, longest: real, f: nat, n: nat)
    requires Bounded(items, DURATION, longest) && items != [] && f < n && Long(Sum(DURATION, items), longest, f)
    ensures |EvenSplit(items, DURATION, n)| > f
  {
    assert items[0] in items;
    SumNonNegative(DURATION, items);
    if |EvenSplit(items, DURATION, n)| <= f {
      var limit := TooShort(Sum(DURATION, items), longest, f, n, |EvenSplit(items, DURATION, n)|);
      SplitHolds(items, longest, n, limit);
    }
  }

  lemma {:induction false} LongIsMany(items: seq<Segment>, longest: real, f: nat)
    requires Bounded(items, DURATION, longest) && items != [] && Long(Sum(DURATION, items), longest, f)
    ensures |items| > f
  {
    assert items[0] in items;
    MoreThanFill(items, longest, f, MaxNat(|items|, f + 1));
    if |items| <= f {
      EvenSplitNoMore(items, f + 1);
    }
  }

  lemma {:induction false} NonEmptyCount<T>(groups: seq<seq<T>>)
    requires forall g | g in groups :: g != []
    ensures |groups| <= |Flatten(groups)|
  {
    if groups != [] {
      var init := groups[..|groups| - 1];
      assert groups[|groups| - 1] in groups;
      assert forall g | g in init :: g in groups;
      NonEmptyCount(init);
    }
  }

  // There are never more cards than tracks.
  lemma {:induction false} EvenSplitNoMore(items: seq<Segment>, n: nat)
    requires n >= 1
    ensures |EvenSplit(items, DURATION, n)| <= |items|
  {
    EvenSplitConserves(items, DURATION, n);
    NonEmptyCount(EvenSplit(items, DURATION, n));
  }

  // So if the search gave f cards it tried no more than f.
  lemma {:induction false} LongStops(segments: seq<Segment>, longest: real, fits: seq<Segment> -> bool, f: nat,
                                     first: nat, n: nat, cards: seq<seq<Segment>>)
    requires Bounded(segments, DURATION, longest) && segments != [] && Long(Sum(DURATION, segments), longest, f)
    requires Searched(segments, DURATION, fits, first, n, cards) && |cards| == f
    ensures n <= f && n <= |segments|
  {
    LongIsMany(segments, longest, f);
    if f < n <= |segments| {
      MoreThanFill(segments, longest, f, n);
    }
  }

  lemma {:induction false} FullStop(segments: seq<Segment>, fits: seq<Segment> -> bool, f: nat, first: nat, n: nat,
                                    cards: seq<seq<Segment>>)
    requires Searched(segments, DURATION, fits, first, n, cards) && n <= f == |cards| && n <= |segments|
    ensures AllFit(EvenSplit(segments, DURATION, f), fits)
  {
    EvenSplitConserves(segments, DURATION, n);
  }

  lemma {:induction false} LongOnlyThen(segments: seq<Segment>, bytesPerSec: real, longest: real, first: nat, n: nat,
                                        cards: seq<seq<Segment>>)
    requires Packable(segments, bytesPerSec, longest) && Packed(segments, bytesPerSec, first, n, cards)
    requires Long(Sum(DURATION, segments), longest, FillCount(segments, bytesPerSec))
    requires |cards| == FillCount(segments, bytesPerSec)
    ensures AllFit(EvenSplit(segments, DURATION, FillCount(segments, bytesPerSec)), CardFits(bytesPerSec))
  {
    var f := FillCount(segments, bytesPerSec);
    LongStops(segments, longest, CardFits(bytesPerSec), f, first, n, cards);
    FullStop(segments, CardFits(bytesPerSec), f, first, n, cards);
  }

  lemma {:induction false} FewestIsFillCount(segments: seq<Segment>, bytesPerSec: real, longest: real,
                                             cards: seq<seq<Segment>>)
    requires Packable(segments, bytesPerSec, longest) && Legal(cards, segments, bytesPerSec)
    ensures (forall other | Legal(other, segments, bytesPerSec) :: |cards| <= |other|) <==>
              |cards| == FillCount(segments, bytesPerSec)
  {
    var filled := FillCountIsLeast(segments, bytesPerSec, longest);
  }

  // With any number of tracks, if they last longer than f * (f + 1) of the longest, f being the
  // least number of legal cards: the cards are the fewest exactly when the even split into f fits.
  lemma {:induction false} FewestIffLong(segments: seq<Segment>, bytesPerSec: real, longest: real, first: nat, n: nat,
                                         cards: seq<seq<Segment>>)
    requires Packable(segments, bytesPerSec, longest) && Packed(segments, bytesPerSec, first, n, cards)
    requires Long(Sum(DURATION, segments), longest, FillCount(segments, bytesPerSec))
    ensures (forall other | Legal(other, segments, bytesPerSec) :: |cards| <= |other|) <==>
              AllFit(EvenSplit(segments, DURATION, FillCount(segments, bytesPerSec)), CardFits(bytesPerSec))
  {
    PackedIsLegal(segments, bytesPerSec, longest, first, n, cards);
    FewestIsFillCount(segments, bytesPerSec, longest, cards);
    if AllFit(EvenSplit(segments, DURATION, FillCount(segments, bytesPerSec)), CardFits(bytesPerSec)) {
      FewestIf(segments, bytesPerSec, longest, first, n, cards);
    } else if |cards| == FillCount(segments, bytesPerSec) {
      LongOnlyThen(segments, bytesPerSec, longest, first, n, cards);
    }
  }

  // ---- packing what was built, merged or not ----

  lemma {:induction false} MergedFitsCard(t: Segment, bytesPerSec: real)
    requires t.Duration() < TRACK_SECONDS + 1.0 && (t.Duration() - 1.0) * bytesPerSec <= TRACK_BYTES
    requires bytesPerSec <= CARD_BYTES - TRACK_BYTES
    ensures CardLegal([t], bytesPerSec)
  {
    SumOne(DURATION, t);
    OneMoreTimes(t.Duration() - 1.0, bytesPerSec);
  }

  // Cards of merged tracks are legal too: always when no sliver is missing between the chapters,
  // and with slivers at any rate up to 405 MiB a second.
  lemma {:induction false} MergedPackedLegal(segs: seq<Segment>, cuts: seq<nat>, out: seq<Segment>, bytesPerSec: real,
                                             cards: seq<seq<Segment>>, first: nat, n: nat)
    requires bytesPerSec >= 0.0 && forall s | s in segs :: Fits(s.Duration(), bytesPerSec)
    requires Grouping(cuts, |segs|) && AllGlued(segs, cuts, bytesPerSec) && TracksOf(segs, cuts, out)
    requires Searched(out, DURATION, CardFits(bytesPerSec), first, n, cards)
    requires bytesPerSec <= CARD_BYTES - TRACK_BYTES || forall k | 0 < k < |segs| :: segs[k].start <= segs[k - 1].end
    ensures Legal(cards, out, bytesPerSec) && forall c | c in cards :: c != []
  {
    MergeNearlyLegal(segs, cuts, out, bytesPerSec);
    forall t | t in out
      ensures CardFits(bytesPerSec)([t])
    {
      if Fits(t.Duration(), bytesPerSec) {
        TrackFitsCard(t, bytesPerSec);
      } else {
        MergedFitsCard(t, bytesPerSec);
      }
    }
    SearchedLegal(out, DURATION, CardFits(bytesPerSec), first, n, cards);
    LegalFits(cards, bytesPerSec);
  }

  // From the chapters to the cards, unmerged: all tracks in order on non-empty legal cards.
  lemma {:induction false} BuiltPackedLegal(chapters: seq<Chapter>, duration: real, bytesPerSec: real,
                                            groups: seq<seq<Segment>>, cards: seq<seq<Segment>>, first: nat, n: nat)
    requires Divided(RawSegments(chapters, duration), groups, bytesPerSec)
    requires Searched(Flatten(groups), DURATION, CardFits(bytesPerSec), first, n, cards)
    ensures Legal(cards, Flatten(groups), bytesPerSec) && forall c | c in cards :: c != []
    ensures Sum(DURATION, Flatten(cards)) == Sum(DURATION, RawSegments(chapters, duration))
  {
    var raw := RawSegments(chapters, duration);
    BuildFits(raw, groups, bytesPerSec);
    BuildConserves(raw, groups, bytesPerSec);
    forall s | s in Flatten(groups)
      ensures CardFits(bytesPerSec)([s])
    {
      TrackFitsCard(s, bytesPerSec);
    }
    SearchedLegal(Flatten(groups), DURATION, CardFits(bytesPerSec), first, n, cards);
    LegalFits(cards, bytesPerSec);
  }

  // And the tracks of a file of positive duration are packable.
  lemma {:induction false} BuiltArePackable(chapters: seq<Chapter>, duration: real, bytesPerSec: real,
                                            groups: seq<seq<Segment>>) returns (longest: real)
    requires duration > 0.0 && bytesPerSec >= 0.0 && Divided(RawSegments(chapters, duration), groups, bytesPerSec)
    ensures Packable(Flatten(groups), bytesPerSec, longest)
  {
    var raw := RawSegments(chapters, duration);
    BuildFits(raw, groups, bytesPerSec);
    BuildPositive(chapters, duration, groups, bytesPerSec);
    assert EvenDivision(raw[0], groups[0], bytesPerSec);
    IntoFlatten(groups, 0, groups[0][0]);
    longest := TracksArePackable(Flatten(groups), bytesPerSec);
  }

  lemma {:induction false} OneMoreSecond(d: real, bytesPerSec: real)
    requires bytesPerSec > 0.0 && (d - 1.0) * bytesPerSec <= TRACK_BYTES
    ensures d <= TRACK_BYTES / bytesPerSec + 1.0
  {
    AtByteLimit(d - 1.0, bytesPerSec);
  }

  lemma {:induction false} MergedDuration(segs: seq<Segment>, lo: nat, hi: nat)
    requires StartsOrdered(segs) && (forall s | s in segs :: s.Duration() >= 0.0) && lo < hi <= |segs|
    ensures TrackOf(segs, lo, hi).Duration() >= 0.0
  {
    assert segs[hi - 1] in segs;
  }

  lemma {:induction false} ThreeMerged(bytesPerSec: real, longest: real)
    requires 0.0 <= bytesPerSec && 3.0 * (TRACK_BYTES + bytesPerSec) <= CARD_BYTES
    requires longest * bytesPerSec <= TRACK_BYTES + bytesPerSec
    ensures 3.0 * longest * bytesPerSec <= CARD_BYTES
  {
    assert 3.0 * longest * bytesPerSec == 3.0 * (longest * bytesPerSec);
  }

  // How long a merged track can be: a second more than the stricter limit.
  function LongestMerged(bytesPerSec: real): real
    requires bytesPerSec >= 0.0
  {
    var seconds := TRACK_SECONDS + 1.0;
    if seconds * bytesPerSec <= TRACK_BYTES + bytesPerSec then seconds else TRACK_BYTES / bytesPerSec + 1.0
  }

  lemma {:induction false} MergedLongest(bytesPerSec: real, longest: real)
    requires bytesPerSec >= 0.0 && 3.0 * (TRACK_BYTES + bytesPerSec) <= CARD_BYTES
    requires longest == LongestMerged(bytesPerSec)
    ensures 3.0 * longest <= CARD_SECONDS && 3.0 * longest * bytesPerSec <= CARD_BYTES
  {
    var seconds := TRACK_SECONDS + 1.0;
    if longest != seconds {
      var q := TRACK_BYTES / bytesPerSec;
      assert q * bytesPerSec == TRACK_BYTES;
      OneMoreTimes(q, bytesPerSec);
      if seconds < longest {
        MulMono(seconds, longest, bytesPerSec);
      }
    }
    ThreeMerged(bytesPerSec, longest);
  }

  lemma {:induction false} MergedBelow(t: Segment, bytesPerSec: real, longest: real)
    requires t.Duration() < TRACK_SECONDS + 1.0 && (t.Duration() - 1.0) * bytesPerSec <= TRACK_BYTES
    requires bytesPerSec >= 0.0 && longest == LongestMerged(bytesPerSec)
    ensures t.Duration() <= longest
  {
    if longest != TRACK_SECONDS + 1.0 {
      OneMoreSecond(t.Duration(), bytesPerSec);
    }
  }

  // Merged tracks are packable up to 71 MiB a second, slivers included.
  lemma {:induction false} MergedArePackable(segs: seq<Segment>, cuts: seq<nat>, out: seq<Segment>, bytesPerSec: real)
    returns (longest: real)
    requires segs != [] && bytesPerSec >= 0.0 && 3.0 * (TRACK_BYTES + bytesPerSec) <= CARD_BYTES
    requires StartsOrdered(segs) && forall s | s in segs :: s.Duration() >= 0.0 && Fits(s.Duration(), bytesPerSec)
    requires Grouping(cuts, |segs|) && AllGlued(segs, cuts, bytesPerSec) && TracksOf(segs, cuts, out)
    ensures Packable(out, bytesPerSec, longest)
  {
    longest := LongestMerged(bytesPerSec);
    MergeNearlyLegal(segs, cuts, out, bytesPerSec);
    forall t | t in out
      ensures 0.0 <= t.Duration() <= longest
    {
      var i: nat :| i < |out| && out[i] == t;
      MergedDuration(segs, cuts[i], cuts[i + 1]);
      MergedBelow(t, bytesPerSec, longest);
    }
    MergedLongest(bytesPerSec, longest);
    assert out[0] == TrackOf(segs, cuts[0], cuts[1]);
  }
}
