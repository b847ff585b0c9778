// One managed block in a Markdown file (merge_text in scripts/merge-markdown-block.py), on the
// level of begin markers, end markers and single characters.
module MarkdownBlock {
  datatype Token = Begin | End | Ch(c: char)
  datatype Span = Span(lo: nat, hi: nat)
  datatype Error = Unbalanced | Nested
  datatype Result = Ok(text: seq<Token>) | Err(error: Error)

  const NL := Ch('\n')

  predicate Blank(t: Token) {
    t.Ch? && (t.c == ' ' || '\t' <= t.c <= '\r' || '\U{1C}' <= t.c <= '\U{1F}')
  }

  // ---- stripping ----

  function StripEnd(t: seq<Token>, n: nat): (k: nat)
    requires n <= |t|
    ensures k <= n
    ensures forall i :: k <= i < n ==> Blank(t[i])
    ensures k > 0 ==> !Blank(t[k - 1])
  {
    if n > 0 && Blank(t[n - 1]) then StripEnd(t, n - 1) else n
  }

  function StripStart(t: seq<Token>, n: nat): (k: nat)
    requires n <= |t|
    ensures n <= k <= |t|
    decreases |t| - n
  {
    if n < |t| && Blank(t[n]) then StripStart(t, n + 1) else n
  }

  function RStrip(t: seq<Token>): seq<Token> {
    t[..StripEnd(t, |t|)]
  }

  function Strip(t: seq<Token>): seq<Token> {
    RStrip(t[StripStart(t, 0)..])
  }

  lemma {:induction false} StripEndIs(t: seq<Token>, n: nat, k: nat)
    requires k <= n <= |t|
    requires forall i :: k <= i < n ==> Blank(t[i])
    requires k > 0 ==> !Blank(t[k - 1])
    ensures StripEnd(t, n) == k
  {
    if k < n {
      StripEndIs(t, n - 1, k);
    }
  }

  // Stripping a join reaches into the first part only when the second is all blank.
  lemma {:induction false} StripJoin(a: seq<Token>, b: seq<Token>)
    ensures RStrip(a + b) == if RStrip(b) == [] then RStrip(a) else a + RStrip(b)
  {
    var k := StripEnd(b, |b|);
    if k > 0 {
      StripEndIs(a + b, |a + b|, |a| + k);
      assert (a + b)[..|a| + k] == a + b[..k];
    } else {
      var j := StripEnd(a, |a|);
      StripEndIs(a + b, |a + b|, j);
      assert (a + b)[..j] == a[..j];
    }
  }

  lemma {:induction false} StripTwice(t: seq<Token>)
    ensures RStrip(RStrip(t)) == RStrip(t)
    ensures RStrip(RStrip(t) + [NL]) == RStrip(t)
  {
    var r := RStrip(t);
    StripEndIs(r, |r|, |r|);
    StripEndIs([NL], 1, 0);
    StripJoin(r, [NL]);
  }

  // ---- markers ----

  function Next(t: seq<Token>, from: nat, marker: Token): (i: nat)
    requires from <= |t|
    ensures from <= i <= |t|
    ensures forall j :: from <= j < i ==> t[j] != marker
    ensures i < |t| ==> t[i] == marker
    decreases |t| - from
  {
    if from == |t| || t[from] == marker then from else Next(t, from + 1, marker)
  }

  function Count(t: seq<Token>, from: nat, marker: Token): (n: nat)
    requires from <= |t|
    decreases |t| - from
  {
    if from == |t| then 0 else (if t[from] == marker then 1 else 0) + Count(t, from + 1, marker)
  }

  // Where the match that starts at a begin marker ends: at the first end marker, with a newline
  // right after it.
  function MatchEnd(t: seq<Token>, end: nat): (hi: nat)
    requires end < |t|
    ensures end < hi <= |t|
  {
    if end + 1 < |t| && t[end + 1] == NL then end + 2 else end + 1
  }

  // The matches from a position on, left to right and without overlap.
  function Matches(t: seq<Token>, from: nat): (spans: seq<Span>)
    requires from <= |t|
    decreases |t| - from
  {
    var begin := Next(t, from, Begin);
    var end := Next(t, begin, End);
    if end == |t| then [] else [Span(begin, MatchEnd(t, end))] + Matches(t, MatchEnd(t, end))
  }

  // The markers from a position on read begin, end, begin, end, ...; `open` after a begin.
  predicate Alternates(t: seq<Token>, from: nat, open: bool)
    requires from <= |t|
    decreases |t| - from
  {
    if from == |t| then !open
    else match t[from]
      case Begin => !open && Alternates(t, from + 1, true)
      case End => open && Alternates(t, from + 1, false)
      case Ch(_) => Alternates(t, from + 1, open)
  }

  predicate WellFormed(t: seq<Token>) {
    Alternates(t, 0, false)
  }

  lemma {:induction false} CountSkips(t: seq<Token>, from: nat, to: nat, marker: Token)
    requires from <= to <= |t|
    ensures Count(t, to, marker) <= Count(t, from, marker)
    ensures (forall j :: from <= j < to ==> t[j] != marker) ==> Count(t, from, marker) == Count(t, to, marker)
    decreases |t| - from
  {
    if from < to {
      CountSkips(t, from + 1, to, marker);
    }
  }

  // While closed and without a begin marker, an end marker is what spoils it; while open and
  // without an end marker, a begin marker is.
  lemma {:induction false} ClosedRun(t: seq<Token>, from: nat, to: nat)
    requires from <= to <= |t| && forall j :: from <= j < to ==> t[j] != Begin
    ensures Alternates(t, from, false) <==> Alternates(t, to, false) && Count(t, from, End) == Count(t, to, End)
    decreases |t| - from
  {
    if from < to {
      ClosedRun(t, from + 1, to);
      CountSkips(t, from + 1, to, End);
    }
  }

  lemma {:induction false} OpenRun(t: seq<Token>, from: nat, to: nat)
    requires from <= to <= |t| && forall j :: from <= j < to ==> t[j] != End
    ensures Alternates(t, from, true) <==> Alternates(t, to, true) && Count(t, from, Begin) == Count(t, to, Begin)
    decreases |t| - from
  {
    if from < to {
      OpenRun(t, from + 1, to);
      CountSkips(t, from + 1, to, Begin);
    }
  }

  // Every match takes a begin marker and an end marker after it.
  lemma {:induction false} MatchesTakeMarkers(t: seq<Token>, from: nat)
    requires from <= |t|
    ensures |Matches(t, from)| <= Count(t, from, Begin)
    ensures |Matches(t, from)| <= Count(t, Next(t, from, Begin), End)
    decreases |t| - from
  {
    var begin := Next(t, from, Begin);
    var end := Next(t, begin, End);
    if end < |t| {
      var hi := MatchEnd(t, end);
      MatchesTakeMarkers(t, hi);
      CountSkips(t, from, begin, Begin);
      CountSkips(t, begin + 1, hi, Begin);
      CountSkips(t, begin, end, End);
      CountSkips(t, end + 1, hi, End);
      CountSkips(t, hi, Next(t, hi, Begin), End);
    }
  }

  // Across one match: an end marker is used up, and all is well only if no other begin marker
  // was inside.
  lemma {:induction false} AcrossMatch(t: seq<Token>, begin: nat, end: nat)
    requires begin < end < |t| && t[begin] == Begin && end == Next(t, begin, End)
    ensures var hi := MatchEnd(t, end);
            && Count(t, begin, End) == 1 + Count(t, hi, End)
            && Count(t, begin, Begin) >= 1 + Count(t, hi, Begin)
            && (Alternates(t, begin, false) <==>
                  Count(t, begin, Begin) == 1 + Count(t, hi, Begin) && Alternates(t, hi, false))
  {
    OpenRun(t, begin + 1, end);
    CountSkips(t, begin, end, End);
    CountSkips(t, begin + 1, end, Begin);
    CountSkips(t, end, MatchEnd(t, end), Begin);
    CountSkips(t, end + 1, MatchEnd(t, end), End);
  }

  // The two tests together accept exactly the texts whose markers alternate.
  lemma {:induction false} TestsAccept(t: seq<Token>, from: nat)
    requires from <= |t|
    ensures Alternates(t, from, false) <==>
              Count(t, from, Begin) == Count(t, from, End) && |Matches(t, from)| == Count(t, from, Begin)
    decreases |t| - from
  {
    var begin := Next(t, from, Begin);
    var end := Next(t, begin, End);
    ClosedRun(t, from, begin);
    CountSkips(t, from, begin, Begin);
    CountSkips(t, from, begin, End);
    MatchesTakeMarkers(t, from);
    if end < |t| {
      var hi := MatchEnd(t, end);
      AcrossMatch(t, begin, end);
      TestsAccept(t, hi);
      MatchesTakeMarkers(t, hi);
    } else if begin < |t| {
      OpenRun(t, begin + 1, end);
    }
  }

  // ---- the merge ----

  function Inside(body: seq<Token>): (inside: seq<Token>) {
    [NL] + Strip(body) + [NL]
  }

  function Block(body: seq<Token>): (block: seq<Token>) {
    [Begin] + Inside(body) + [End]
  }

  // The text outside all matches from a position on.
  function Outside(t: seq<Token>, from: nat): (rest: seq<Token>)
    requires from <= |t|
    decreases |t| - from
  {
    var begin := Next(t, from, Begin);
    var end := Next(t, begin, End);
    if end == |t| then t[from..] else t[from..begin] + Outside(t, MatchEnd(t, end))
  }

  // Before and after the block in the merged text: an existing first block is replaced where it
  // stands and the others vanish; without one, the block goes to the end.
  function Before(t: seq<Token>): (pre: seq<Token>) {
    if Count(t, 0, Begin) > 0 then t[..Next(t, 0, Begin)]
    else if RStrip(t) == [] then [] else RStrip(t) + [NL, NL]
  }

  function After(t: seq<Token>): (tail: seq<Token>) {
    var end := Next(t, Next(t, 0, Begin), End);
    if Count(t, 0, Begin) > 0 && end < |t| then [NL] + Outside(t, MatchEnd(t, end)) else []
  }

  function Merged(t: seq<Token>, body: seq<Token>): (text: seq<Token>) {
    RStrip(Before(t) + Block(body) + After(t)) + [NL]
  }

  // Everything up to the first match, the block, and what is outside the matches after it.
  ghost function Replaced(t: seq<Token>, block: seq<Token>): (text: seq<Token>)
    requires Matches(t, 0) != []
  {
    var span := Matches(t, 0)[0];
    t[..span.lo] + block + ([NL] + Outside(t, span.hi))
  }

  lemma {:induction false} NextPiece(t: seq<Token>, from: nat, merged: seq<Token>, all: seq<Token>)
    requires from <= |t| && Matches(t, from) != [] && merged + Outside(t, from) == all
    ensures var span := Matches(t, from)[0];
            from <= span.lo <= span.hi <= |t| && merged + t[from..span.lo] + Outside(t, span.hi) == all
  {
  }

  lemma {:induction false} DropOne(matches: seq<Span>, index: nat)
    requires index < |matches|
    ensures matches[index..] != [] && matches[index..][0] == matches[index]
    ensures matches[index..][1..] == matches[index + 1..]
  {
  }

  method JoinPieces(original: seq<Token>, block: seq<Token>, matches: seq<Span>, ghost all: seq<Token>)
    returns (merged: seq<Token>)
    requires matches == Matches(original, 0) && matches != [] && all == Replaced(original, block)
    ensures merged == all
  {
    merged := [];
    var cursor: nat := 0;
    for index := 0 to |matches|
      invariant cursor <= |original| && matches[index..] == Matches(original, cursor)
      invariant index == 0 ==> cursor == 0 && merged == []
      invariant index > 0 ==> merged + Outside(original, cursor) == all
    {
      DropOne(matches, index);
      var span := matches[index];
      if index > 0 {
        NextPiece(original, cursor, merged, all);
      }
      merged := merged + original[cursor..span.lo];
      if index == 0 {
        assert merged == original[0..span.lo];
        merged := merged + block + [NL];
      }
      cursor := span.hi;
    }
    merged := merged + original[cursor..];
  }

  method MergeText(original: seq<Token>, body: seq<Token>) returns (result: Result)
    ensures result.Ok? <==> WellFormed(original)
    ensures result.Ok? ==> result.text == Merged(original, body)
    ensures result.Err? ==>
              (result.error == Unbalanced <==> Count(original, 0, Begin) != Count(original, 0, End))
  {
    TestsAccept(original, 0);
    MatchesTakeMarkers(original, 0);
    var block := Block(body);
    var beginCount := Count(original, 0, Begin);
    if beginCount != Count(original, 0, End) {
      return Err(Unbalanced);
    }
    var merged;
    if beginCount > 0 {
      var matches := Matches(original, 0);
      if |matches| != beginCount {
        return Err(Nested);
      }
      merged := JoinPieces(original, block, matches, Replaced(original, block));
    } else {
      merged := RStrip(original);
      if merged != [] {
        merged := merged + [NL, NL];
      }
      merged := merged + block;
      assert merged == Before(original) + block + [];
    }
    result := Ok(RStrip(merged) + [NL]);
  }

  // ---- what the merged text is like ----

  ghost predicate MarkerFree(t: seq<Token>) {
    forall i :: 0 <= i < |t| ==> t[i].Ch?
  }

  lemma {:induction false} SameCount(t: seq<Token>, from: nat, to: nat, marker: Token)
    requires from <= to <= |t| && Count(t, from, marker) == Count(t, to, marker)
    ensures forall j :: from <= j < to ==> t[j] != marker
    decreases |t| - from
  {
    if from < to {
      CountSkips(t, from + 1, to, marker);
      SameCount(t, from + 1, to, marker);
    }
  }

  lemma {:induction false} OutsideFree(t: seq<Token>, from: nat)
    requires from <= |t| && Alternates(t, from, false)
    ensures MarkerFree(Outside(t, from))
    ensures MarkerFree(t[from..Next(t, from, Begin)])
    decreases |t| - from
  {
    var begin := Next(t, from, Begin);
    var end := Next(t, begin, End);
    ClosedRun(t, from, begin);
    SameCount(t, from, begin, End);
    if end < |t| {
      AcrossMatch(t, begin, end);
      OutsideFree(t, MatchEnd(t, end));
    } else if begin < |t| {
      OpenRun(t, begin + 1, end);
    }
  }

  // One plain block: a begin marker, an end marker with a newline after it, and no other.
  ghost predicate OnePair(t: seq<Token>, begin: nat, end: nat) {
    && begin < end && end + 1 < |t| && t[begin] == Begin && t[end] == End && t[end + 1] == NL
    && forall j :: 0 <= j < |t| && j != begin && j != end ==> t[j].Ch?
  }

  lemma {:induction false} PairIsWellFormed(t: seq<Token>, begin: nat, end: nat)
    requires OnePair(t, begin, end)
    ensures WellFormed(t) && Count(t, 0, Begin) == 1
  {
    CountSkips(t, 0, begin, Begin);
    CountSkips(t, begin + 1, |t|, Begin);
    CountSkips(t, 0, begin, End);
    CountSkips(t, end + 2, |t|, Begin);
    CountSkips(t, end + 2, |t|, End);
    ClosedRun(t, 0, begin);
    AcrossMatch(t, begin, end);
    ClosedRun(t, end + 2, |t|);
  }

  // What follows the block in the end.
  function Tail(t: seq<Token>): (post: seq<Token>) {
    RStrip(After(t)) + [NL]
  }

  lemma {:induction false} StripAfterBlock(pre: seq<Token>, block: seq<Token>, tail: seq<Token>)
    requires block != [] && !Blank(block[|block| - 1])
    ensures RStrip(pre + block + tail) == pre + block + RStrip(tail)
  {
    StripJoin(pre + block, tail);
    StripEndIs(pre + block, |pre + block|, |pre + block|);
  }

  lemma {:induction false} FirstMatch(t: seq<Token>)
    requires WellFormed(t) && Count(t, 0, Begin) > 0
    ensures var end := Next(t, Next(t, 0, Begin), End);
            Next(t, 0, Begin) < end < |t| && Alternates(t, MatchEnd(t, end), false)
  {
    var begin := Next(t, 0, Begin);
    var end := Next(t, begin, End);
    ClosedRun(t, 0, begin);
    CountSkips(t, 0, begin, Begin);
    if end < |t| {
      AcrossMatch(t, begin, end);
    } else {
      OpenRun(t, begin + 1, end);
    }
  }

  lemma {:induction false} NoMarkers(t: seq<Token>)
    requires WellFormed(t) && Count(t, 0, Begin) == 0
    ensures MarkerFree(t)
  {
    TestsAccept(t, 0);
    SameCount(t, 0, |t|, Begin);
    SameCount(t, 0, |t|, End);
  }

  lemma {:induction false} AroundFree(t: seq<Token>)
    requires WellFormed(t)
    ensures MarkerFree(Before(t)) && MarkerFree(After(t))
  {
    if Count(t, 0, Begin) > 0 {
      FirstMatch(t);
      OutsideFree(t, 0);
      assert t[0..Next(t, 0, Begin)] == Before(t);
      OutsideFree(t, MatchEnd(t, Next(t, Next(t, 0, Begin), End)));
    } else {
      NoMarkers(t);
    }
  }

  lemma {:induction false} TailStart(after: seq<Token>)
    requires after != [] ==> after[0] == NL
    ensures (RStrip(after) + [NL])[0] == NL
    ensures MarkerFree(after) ==> MarkerFree(RStrip(after) + [NL])
  {
  }

  // The block stands once, between texts without markers; whatever preceded an existing first
  // block precedes it still.
  lemma {:induction false} OneBlock(t: seq<Token>, body: seq<Token>)
    requires WellFormed(t)
    ensures Merged(t, body) == Before(t) + Block(body) + Tail(t)
    ensures MarkerFree(Before(t)) && MarkerFree(Tail(t)) && Tail(t)[0] == NL
  {
    var block := Block(body);
    StripAfterBlock(Before(t), block, After(t));
    AroundFree(t);
    TailStart(After(t));
  }

  lemma {:induction false} PairOf(pre: seq<Token>, inside: seq<Token>, post: seq<Token>, m: seq<Token>)
    requires MarkerFree(pre) && MarkerFree(inside) && MarkerFree(post) && post != [] && post[0] == NL
    requires m == pre + ([Begin] + inside + [End]) + post
    ensures OnePair(m, |pre|, |pre| + 1 + |inside|)
  {
  }

  // The parts of a text with one plain block are what they look like.
  lemma {:induction false} PartsOf(pre: seq<Token>, inside: seq<Token>, post: seq<Token>, m: seq<Token>)
    requires MarkerFree(pre) && MarkerFree(inside) && MarkerFree(post) && post != [] && post[0] == NL
    requires m == pre + ([Begin] + inside + [End]) + post
    ensures WellFormed(m) && Count(m, 0, Begin) == 1
    ensures Before(m) == pre && After(m) == post && Outside(m, 0) == pre + post[1..]
  {
    var begin, end := |pre|, |pre| + 1 + |inside|;
    PairOf(pre, inside, post, m);
    PairIsWellFormed(m, begin, end);
    assert Next(m, 0, Begin) == begin && Next(m, begin, End) == end && MatchEnd(m, end) == end + 2;
    assert Next(m, end + 2, Begin) == |m|;
    assert m[..begin] == m[0..begin] == pre;
    assert m[end + 2..] == post[1..];
    assert post == [NL] + post[1..];
  }

  lemma {:induction false} MergedParts(t: seq<Token>, body: seq<Token>)
    requires WellFormed(t) && MarkerFree(body)
    ensures var m := Merged(t, body);
            && WellFormed(m) && Count(m, 0, Begin) == 1
            && Before(m) == Before(t) && After(m) == Tail(t)
            && Outside(m, 0) == Before(t) + Tail(t)[1..]
  {
    OneBlock(t, body);
    PartsOf(Before(t), Inside(body), Tail(t), Merged(t, body));
  }

  // Merging again changes nothing.
  lemma {:induction false} SecondMergeChangesNothing(t: seq<Token>, body: seq<Token>)
    requires WellFormed(t) && MarkerFree(body)
    ensures WellFormed(Merged(t, body)) && Merged(Merged(t, body), body) == Merged(t, body)
  {
    MergedParts(t, body);
    OneBlock(t, body);
    OneBlock(Merged(t, body), body);
    StripTwice(After(t));
  }

  lemma {:induction false} ReplacedKeeps(t: seq<Token>)
    requires WellFormed(t) && Count(t, 0, Begin) > 0
    ensures RStrip(Before(t) + Tail(t)[1..]) == RStrip(Outside(t, 0))
  {
    FirstMatch(t);
    var rest := Outside(t, MatchEnd(t, Next(t, Next(t, 0, Begin), End)));
    OutsideEndsAlike(Before(t), rest);
    assert t[0..Next(t, 0, Begin)] == t[..Next(t, 0, Begin)];
  }

  lemma {:induction false} AppendedKeeps(t: seq<Token>)
    requires Count(t, 0, Begin) == 0
    ensures RStrip(Before(t) + Tail(t)[1..]) == RStrip(Outside(t, 0))
  {
    NoMatch(t);
    StripTwice(t);
    StripJoin(RStrip(t), [NL, NL]);
    StripEndIs([NL, NL], 2, 0);
    assert Before(t) + [] == Before(t);
  }

  // Nothing outside the managed blocks is lost, added or moved, up to blanks at the end.
  lemma {:induction false} OutsideKept(t: seq<Token>, body: seq<Token>)
    requires WellFormed(t) && MarkerFree(body)
    ensures RStrip(Outside(Merged(t, body), 0)) == RStrip(Outside(t, 0))
  {
    MergedParts(t, body);
    if Count(t, 0, Begin) > 0 {
      ReplacedKeeps(t);
    } else {
      AppendedKeeps(t);
    }
  }

  lemma {:induction false} NoMatch(t: seq<Token>)
    requires Count(t, 0, Begin) == 0
    ensures Outside(t, 0) == t && After(t) == [] && Tail(t) == [NL]
  {
    SameCount(t, 0, |t|, Begin);
    assert t[0..] == t;
  }

  lemma {:induction false} OutsideEndsAlike(pre: seq<Token>, rest: seq<Token>)
    ensures RStrip(pre + (RStrip([NL] + rest) + [NL])[1..]) == RStrip(pre + rest)
  {
    StripJoin([NL], rest);
    StripEndIs([NL], 1, 0);
    StripJoin(pre, rest);
    if RStrip(rest) == [] {
      assert (RStrip([NL] + rest) + [NL])[1..] == [];
      assert pre + [] == pre;
    } else {
      assert (RStrip([NL] + rest) + [NL])[1..] == RStrip(rest) + [NL];
      StripTwice(rest);
      StripJoin(pre, RStrip(rest) + [NL]);
    }
  }
}
