// Books that pack_cards does not give the fewest cards, and one that gets them although the split
// it should have found does not fit (modules/nixos/services/yoto-share/yoto-prep.py).
module YotoUneven {
  import opened Seqs
  import opened YotoPrep
  import opened YotoCards
  import opened YotoFewest

  // ---- an ordinary book that gets one card too many ----

  lemma {:induction false} SlotsGoUp(items: seq<Segment>, n: nat, j: nat, i: nat)
    requires n >= 1 && j <= i < |items|
    ensures Slot(items, DURATION, n, j) <= Slot(items, DURATION, n, i)
  {
    if j < i {
      SlotsGoUp(items, n, j, i - 1);
    }
  }

  lemma {:induction false} FirstGroupLeads<T>(groups: seq<seq<T>>)
    requires groups != []
    ensures groups[0] <= Flatten(groups)
  {
    FlattenCons(groups[0], groups[1..]);
    assert groups == [groups[0]] + groups[1..];
  }

  lemma {:induction false} LeadInFirstBin(items: seq<Segment>, n: nat, lead: nat) returns (hi: nat)
    requires n >= 1 && lead < |items| && Slot(items, DURATION, n, lead) == 0
    ensures lead < hi <= |items| && Bins(items, DURATION, n, |items|)[0] == items[..hi]
  {
    forall j | 0 <= j < lead + 1
      ensures Slot(items, DURATION, n, j) == 0
    {
      SlotsGoUp(items, n, j, lead);
    }
    LeadFillsFirstBin(items, n, lead + 1, |items|);
    BinsInOrder(items, DURATION, n, |items|);
    assert items[..|items|] == items;
    var bins := Bins(items, DURATION, n, |items|);
    FirstGroupLeads(bins);
    hi := |bins[0]|;
  }

  lemma {:induction false} LongBinRejected(items: seq<Segment>, bytesPerSec: real, n: nat, hi: nat)
    requires n >= 1 && 0 < hi <= |items| && Bins(items, DURATION, n, |items|)[0] == items[..hi]
    requires Sum(DURATION, items[..hi]) > CARD_SECONDS
    ensures !AllFit(EvenSplit(items, DURATION, n), CardFits(bytesPerSec))
  {
    var bins := Bins(items, DURATION, n, |items|);
    NonEmptyKeeps(bins);
    assert bins[0] in EvenSplit(items, DURATION, n);
    assert !CardFits(bytesPerSec)(bins[0]);
  }

  // Leading tracks that all go to the first card and last more than 5 hours: the split is rejected.
  lemma {:induction false} LongLeadRejected(items: seq<Segment>, bytesPerSec: real, m: real, n: nat, lead: nat)
    requires Bounded(items, DURATION, m) && n >= 1 && lead < |items|
    requires Slot(items, DURATION, n, lead) == 0 && Sum(DURATION, items[..lead + 1]) > CARD_SECONDS
    ensures !AllFit(EvenSplit(items, DURATION, n), CardFits(bytesPerSec))
  {
    var hi := LeadInFirstBin(items, n, lead);
    SumPrefix(items, DURATION, m, lead + 1, hi);
    LongBinRejected(items, bytesPerSec, n, hi);
  }

  function Lasting(seconds: real): Segment {
    Segment("t", 0.0, seconds)
  }

  // Seventeen tracks in three runs, of 17000, 17996 and 18000 seconds.
  function UnevenRuns(): seq<seq<Segment>> {
    [Repeat(Lasting(3400.0), 5), [Lasting(1001.0)] + Repeat(Lasting(3399.0), 5), Repeat(Lasting(3000.0), 6)]
  }

  function UnevenBook(): seq<Segment> {
    Flatten(UnevenRuns())
  }

  lemma {:induction false} RunTotal(seconds: real, n: nat)
    ensures Sum(DURATION, Repeat(Lasting(seconds), n)) == n as real * seconds
  {
    SumRepeat(Lasting(seconds), n);
    TimesIsProduct(n, seconds);
  }

  lemma {:induction false} UnevenTotals()
    ensures Sum(DURATION, UnevenRuns()[0]) == 17000.0
    ensures Sum(DURATION, UnevenRuns()[1]) == 17996.0
    ensures Sum(DURATION, UnevenRuns()[2]) == 18000.0
  {
    RunTotal(3400.0, 5);
    RunTotal(3399.0, 5);
    RunTotal(3000.0, 6);
    SumOne(DURATION, Lasting(1001.0));
    SumConcat(DURATION, [Lasting(1001.0)], Repeat(Lasting(3399.0), 5));
  }

  lemma {:induction false} UnevenIs()
    ensures UnevenBook() == UnevenRuns()[0] + UnevenRuns()[1] + UnevenRuns()[2] && |UnevenBook()| == 17
    ensures Sum(DURATION, UnevenBook()) == 52996.0 && Sum(DURATION, UnevenBook()[..5]) == 17000.0
    ensures Sum(DURATION, UnevenBook()[..6]) == 18001.0 && UnevenBook()[5] == Lasting(1001.0)
  {
    var runs := UnevenRuns();
    FlattenFew([runs[0], runs[1]]);
    assert runs == [runs[0], runs[1]] + [runs[2]];
    FlattenConcat([runs[0], runs[1]], [runs[2]]);
    FlattenFew([runs[2]]);
    UnevenTotals();
    SumConcat(DURATION, runs[0] + runs[1], runs[2]);
    SumConcat(DURATION, runs[0], runs[1]);
    assert UnevenBook()[..5] == runs[0];
    assert UnevenBook()[..6] == runs[0] + [Lasting(1001.0)];
    SumConcat(DURATION, runs[0], [Lasting(1001.0)]);
    SumOne(DURATION, Lasting(1001.0));
  }

  lemma {:induction false} UnevenIsPackable()
    ensures Packable(UnevenBook(), 16000.0, 3400.0)
    ensures forall s | s in UnevenBook() :: Fits(s.Duration(), 16000.0)
  {
    UnevenIs();
    forall s | s in UnevenBook()
      ensures 0.0 <= s.Duration() <= 3400.0 && Fits(s.Duration(), 16000.0)
    {
      assert s in UnevenRuns()[0] || s in UnevenRuns()[1] || s in UnevenRuns()[2];
    }
  }

  lemma {:induction false} UnevenFirst(first: nat)
    requires LeastCount(52996.0, 52996.0 * 16000.0, 17, CARD_BYTES, first)
    ensures first == 3
  {
    assert Enough(52996.0, 52996.0 * 16000.0, 17, CARD_BYTES, 3);
  }

  lemma {:induction false} SixthIsFirstCards(book: seq<Segment>)
    requires Bounded(book, DURATION, 3400.0) && |book| == 17 && book[5] == Lasting(1001.0)
    requires Sum(DURATION, book) == 52996.0 && Sum(DURATION, book[..5]) == 17000.0
    ensures Slot(book, DURATION, 3, 5) == 0
  {
    ClampNeverFires(book, DURATION, 3400.0, 3, 5);
    BelowFirstCut(17500.5, 52996.0, 3, 17660.0);
  }

  lemma {:induction false} UnevenRejected()
    ensures !AllFit(EvenSplit(UnevenBook(), DURATION, 3), CardFits(16000.0))
  {
    UnevenIs();
    assert Bounded(UnevenBook(), DURATION, 3400.0) by { UnevenIsPackable(); }
    SixthIsFirstCards(UnevenBook());
    LongLeadRejected(UnevenBook(), 16000.0, 3400.0, 3, 5);
  }

  lemma {:induction false} UnevenRunsLegal()
    ensures Legal(UnevenRuns(), UnevenBook(), 16000.0) && |UnevenRuns()| == 3
  {
    UnevenTotals();
    assert |UnevenRuns()[0]| == 5 && |UnevenRuns()[1]| == 6 && |UnevenRuns()[2]| == 6;
  }

  lemma {:induction false} UnevenEnds(book: seq<Segment>, first: nat, n: nat, cards: seq<seq<Segment>>)
    requires Packable(book, 16000.0, 3400.0) && |book| == 17 && Sum(DURATION, book) == 52996.0
    requires !AllFit(EvenSplit(book, DURATION, 3), CardFits(16000.0)) && Packed(book, 16000.0, first, n, cards)
    ensures first == 3 && |cards| >= 4
  {
    UnevenFirst(first);
    StopsOnFullCards(book, 16000.0, 3400.0, first, n, cards);
  }

  // Seventeen legal tracks that fit three cards, which is the first count tried, but whose even
  // split into three puts 18001 seconds on the first card: the result has at least four.
  lemma {:induction false} UnevenIsNotMinimal(first: nat, n: nat, cards: seq<seq<Segment>>)
    requires Packed(UnevenBook(), 16000.0, first, n, cards)
    ensures |UnevenBook()| == 17 && forall s | s in UnevenBook() :: Fits(s.Duration(), 16000.0)
    ensures first == 3 && |cards| >= 4
    ensures Legal(UnevenRuns(), UnevenBook(), 16000.0) && |UnevenRuns()| == 3
  {
    UnevenIs();
    UnevenIsPackable();
    UnevenRejected();
    UnevenRunsLegal();
    UnevenEnds(UnevenBook(), first, n, cards);
  }

  // ---- a book of more than 100 tracks that gets the fewest cards all the same ----

  // One long track, one of 800 seconds, 99 short ones, one of 500 and 99 short ones.
  function HollowBook(): seq<Segment> {
    [Lasting(3200.0), Lasting(800.0)] + Repeat(Lasting(12.0), 99) + ([Lasting(500.0)] + Repeat(Lasting(15.0), 99))
  }

  lemma {:induction false} HollowFront(k: nat)
    requires k <= 99
    ensures Sum(DURATION, [Lasting(3200.0), Lasting(800.0)] + Repeat(Lasting(12.0), k)) == 4000.0 + k as real * 12.0
  {
    var two := [Lasting(3200.0), Lasting(800.0)];
    SumConcat(DURATION, [two[0]], [two[1]]);
    assert two == [two[0]] + [two[1]];
    SumOne(DURATION, two[0]);
    SumOne(DURATION, two[1]);
    RunTotal(12.0, k);
    SumConcat(DURATION, two, Repeat(Lasting(12.0), k));
  }

  lemma {:induction false} HollowPrefix(k: nat)
    requires k <= 99
    ensures |HollowBook()| == 201 && Sum(DURATION, HollowBook()[..k + 2]) == 4000.0 + k as real * 12.0
  {
    HollowFront(k);
    assert HollowBook()[..k + 2] == [Lasting(3200.0), Lasting(800.0)] + Repeat(Lasting(12.0), k);
  }

  lemma {:induction false} HollowTotal()
    ensures Sum(DURATION, HollowBook()) == 7173.0
  {
    var back := [Lasting(500.0)] + Repeat(Lasting(15.0), 99);
    HollowFront(99);
    RunTotal(15.0, 99);
    SumOne(DURATION, Lasting(500.0));
    SumConcat(DURATION, [Lasting(500.0)], Repeat(Lasting(15.0), 99));
    SumConcat(DURATION, [Lasting(3200.0), Lasting(800.0)] + Repeat(Lasting(12.0), 99), back);
  }

  // What of it matters: the midpoints on either side of the cuts.
  ghost predicate Hollow(book: seq<Segment>) {
    && |book| == 201 && Bounded(book, DURATION, 3200.0) && Sum(DURATION, book) == 7173.0
    && Midpoint(book, DURATION, 0) == 1600.0 && Midpoint(book, DURATION, 1) == 3600.0
    && Midpoint(book, DURATION, 67) == 4786.0 && Midpoint(book, DURATION, 100) == 5182.0
    && Midpoint(book, DURATION, 101) == 5438.0
  }

  lemma {:induction false} HollowMidpoints()
    ensures var book := HollowBook();
            && |book| == 201 && Midpoint(book, DURATION, 0) == 1600.0 && Midpoint(book, DURATION, 1) == 3600.0
            && Midpoint(book, DURATION, 67) == 4786.0 && Midpoint(book, DURATION, 100) == 5182.0
            && Midpoint(book, DURATION, 101) == 5438.0
  {
    var book := HollowBook();
    assert book[..0] == [] && book[..1] == [Lasting(3200.0)];
    SumOne(DURATION, Lasting(3200.0));
    HollowPrefix(65);
    HollowPrefix(98);
    HollowPrefix(99);
    assert book[67] == Lasting(12.0) && book[100] == Lasting(12.0) && book[101] == Lasting(500.0);
  }

  lemma {:induction false} HollowTrack(s: Segment)
    requires s in HollowBook()
    ensures 0.0 <= s.Duration() <= 3200.0
  {
    assert s in [Lasting(3200.0), Lasting(800.0), Lasting(500.0)] || s in Repeat(Lasting(12.0), 99)
           || s in Repeat(Lasting(15.0), 99);
  }

  lemma {:induction false} HollowIs()
    ensures Hollow(HollowBook())
  {
    HollowMidpoints();
    HollowTotal();
    forall s | s in HollowBook()
      ensures 0.0 <= s.Duration() <= 3200.0
    {
      HollowTrack(s);
    }
  }

  lemma {:induction false} HollowSlot(book: seq<Segment>, n: nat, i: nat, mid: real, k: nat)
    requires Hollow(book) && i < 201 && mid == Midpoint(book, DURATION, i) && k < n && mid >= 0.0
    requires k as real * 7173.0 <= mid * n as real && (k < n - 1 ==> mid * n as real < (k + 1) as real * 7173.0)
    ensures Slot(book, DURATION, n, i) == k
  {
    ClampNeverFires(book, DURATION, 3200.0, n, i);
    CardAtIs(mid, 7173.0, n, k);
  }

  lemma {:induction false} HollowSlots(book: seq<Segment>)
    requires Hollow(book)
    ensures Slot(book, DURATION, 3, 67) == 2
    ensures Slot(book, DURATION, 4, 0) == 0 && Slot(book, DURATION, 4, 1) == 2
    ensures Slot(book, DURATION, 4, 100) == 2 && Slot(book, DURATION, 4, 101) == 3
  {
    HollowSlot(book, 3, 67, 4786.0, 2);
    HollowSlot(book, 4, 0, 1600.0, 0);
    HollowSlot(book, 4, 1, 3600.0, 2);
    HollowSlot(book, 4, 100, 5182.0, 2);
    HollowSlot(book, 4, 101, 5438.0, 3);
  }

  lemma {:induction false} TailFillsBin(items: seq<Segment>, n: nat, k: nat, from: nat, i: nat)
    requires n >= 1 && k < n && from <= i <= |items|
    requires forall j | from <= j < i :: Slot(items, DURATION, n, j) == k
    ensures |Bins(items, DURATION, n, i)[k]| >= i - from
  {
    if from < i {
      TailFillsBin(items, n, k, from, i - 1);
    }
  }

  // The last card of three would hold more than 100 tracks.
  lemma {:induction false} ThreeRejected(book: seq<Segment>)
    requires Hollow(book)
    ensures !AllFit(EvenSplit(book, DURATION, 3), CardFits(16000.0))
  {
    HollowSlots(book);
    forall j | 67 <= j < 201
      ensures Slot(book, DURATION, 3, j) == 2
    {
      SlotsGoUp(book, 3, 67, j);
    }
    TailFillsBin(book, 3, 2, 67, 201);
    CrowdedBinRejected(book, 3, 2);
  }

  lemma {:induction false} CrowdedBinRejected(book: seq<Segment>, n: nat, k: nat)
    requires k < n && |Bins(book, DURATION, n, |book|)[k]| > CARD_TRACKS
    ensures !AllFit(EvenSplit(book, DURATION, n), CardFits(16000.0))
  {
    var bins := Bins(book, DURATION, n, |book|);
    NonEmptyKeeps(bins);
    assert bins[k] in EvenSplit(book, DURATION, n);
    assert !CardFits(16000.0)(bins[k]);
  }

  lemma {:induction false} ShortRuns(book: seq<Segment>, lo: nat, hi: nat, k: nat)
    requires Hollow(book) && lo < hi <= 201
    requires Slot(book, DURATION, 4, lo) == k && Slot(book, DURATION, 4, hi - 1) == k
    ensures k != 1 && hi - lo <= 100
  {
    HollowSlots(book);
    if lo == 0 {
      if hi > 1 {
        SlotsGoUp(book, 4, 1, hi - 1);
      }
    } else {
      SlotsGoUp(book, 4, 1, lo);
      if lo <= 100 {
        SlotsGoUp(book, 4, lo, 100);
      }
      if hi - 1 >= 101 {
        SlotsGoUp(book, 4, 101, hi - 1);
      }
    }
  }

  lemma {:induction false} FourFit(book: seq<Segment>)
    requires Hollow(book)
    ensures AllFit(EvenSplit(book, DURATION, 4), CardFits(16000.0))
  {
    var cards := EvenSplit(book, DURATION, 4);
    forall i | 0 <= i < |cards|
      ensures CardFits(16000.0)(cards[i])
    {
      var k := IndexOf(Bins(book, DURATION, 4, 201), cards[i]);
      var lo, hi := BinIsRun(book, DURATION, 4, 201, k);
      ShortRuns(book, lo, hi, k);
      SumSlice(book, 3200.0, lo, hi);
      ShortCardFits(cards[i], 7173.0, 16000.0);
    }
  }

  lemma {:induction false} DropsEmpty<T>(groups: seq<seq<T>>, k: nat)
    requires k < |groups| && groups[k] == []
    ensures |NonEmpty(groups)| < |groups|
  {
    if k < |groups| - 1 {
      DropsEmpty(groups[..|groups| - 1], k);
    } else {
      NonEmptyKeeps(groups[..|groups| - 1]);
    }
  }

  // Of four shares the second stays empty.
  lemma {:induction false} FourAreThree(book: seq<Segment>)
    requires Hollow(book)
    ensures |EvenSplit(book, DURATION, 4)| <= 3
  {
    var lo, hi := BinIsRun(book, DURATION, 4, 201, 1);
    if lo < hi {
      ShortRuns(book, lo, hi, 1);
    }
    DropsEmpty(Bins(book, DURATION, 4, 201), 1);
  }

  lemma {:induction false} HollowFirst(first: nat)
    requires LeastCount(7173.0, 7173.0 * 16000.0, 201, CARD_BYTES, first)
    ensures first == 3
  {
    assert Enough(7173.0, 7173.0 * 16000.0, 201, CARD_BYTES, 3);
  }

  lemma {:induction false} HollowPackable(book: seq<Segment>)
    requires Hollow(book)
    ensures Packable(book, 16000.0, 3200.0)
  {
  }

  lemma {:induction false} HollowEnds(book: seq<Segment>, first: nat, n: nat, cards: seq<seq<Segment>>)
    requires Hollow(book) && Packed(book, 16000.0, first, n, cards)
    ensures first == 3 && |cards| <= 3
  {
    HollowFirst(first);
    ThreeRejected(book);
    FourFit(book);
    FourAreThree(book);
    assert n == 4;
  }

  lemma {:induction false} HollowFill(book: seq<Segment>, first: nat, n: nat, cards: seq<seq<Segment>>)
    requires Hollow(book) && Packed(book, 16000.0, first, n, cards)
    ensures FillCount(book, 16000.0) == |cards| == 3
  {
    HollowPackable(book);
    HollowEnds(book, first, n, cards);
    PackedIsLegal(book, 16000.0, 3200.0, first, n, cards);
    FirstIsSmall(book, 16000.0, 3200.0, first);
    var filled := FillCountIsLeast(book, 16000.0, 3200.0);
  }

  // So with more than 100 tracks the cards can be the fewest although the split into the least
  // number does not fit: here the split into four leaves a card empty, and fits.
  lemma {:induction false} HollowIsFewest(first: nat, n: nat, cards: seq<seq<Segment>>)
    requires Packed(HollowBook(), 16000.0, first, n, cards)
    ensures Packable(HollowBook(), 16000.0, 3200.0) && |HollowBook()| == 201
    ensures forall other | Legal(other, HollowBook(), 16000.0) :: |cards| <= |other|
    ensures !AllFit(EvenSplit(HollowBook(), DURATION, FillCount(HollowBook(), 16000.0)), CardFits(16000.0))
  {
    HollowIs();
    HollowPackable(HollowBook());
    HollowFill(HollowBook(), first, n, cards);
    ThreeRejected(HollowBook());
    var filled := FillCountIsLeast(HollowBook(), 16000.0, 3200.0);
  }
}
