// Sequence and real-number vocabulary shared by the models.

module Seqs {
  // The members of all groups, in order.
  function Flatten<T>(groups: seq<seq<T>>): seq<T> {
    if groups == [] then [] else Flatten(groups[..|groups| - 1]) + groups[|groups| - 1]
  }

  lemma {:induction false} FlattenConcat<T>(a: seq<seq<T>>, b: seq<seq<T>>)
    ensures Flatten(a + b) == Flatten(a) + Flatten(b)
  {
    if b == [] {
      assert a + b == a;
    } else {
      var init, last := b[..|b| - 1], b[|b| - 1];
      assert (a + b)[..|a + b| - 1] == a + init;
      FlattenConcat(a, init);
      assert Flatten(a) + Flatten(init) + last == Flatten(a) + (Flatten(init) + last);
    }
  }

  lemma {:induction false} FlattenCons<T>(g: seq<T>, rest: seq<seq<T>>)
    ensures Flatten([g] + rest) == g + Flatten(rest)
  {
    FlattenConcat([g], rest);
    assert [g][..0] == [];
  }

  lemma {:induction false} InFlatten<T>(groups: seq<seq<T>>, x: T) returns (i: nat)
    requires x in Flatten(groups)
    ensures i < |groups| && x in groups[i]
  {
    i := |groups| - 1;
    if x !in groups[i] {
      i := InFlatten(groups[..i], x);
    }
  }

  lemma {:induction false} ConcatTail<T>(a: seq<T>, b: seq<T>)
    requires a != []
    ensures (a + b)[0] == a[0] && (a + b)[1..] == a[1..] + b
  {
  }

  lemma {:induction false} Rejoin<T>(a: seq<T>, b: seq<T>)
    requires a != []
    ensures [a[0]] + (a[1..] + b) == a + b
  {
  }

  lemma {:induction false} InitLast<T>(s: seq<T>)
    requires s != []
    ensures s == s[..|s| - 1] + [s[|s| - 1]]
  {
  }

  lemma {:induction false} HeadMidTail<T>(s: seq<T>, n: nat)
    requires 0 < n <= |s|
    ensures s == [s[0]] + s[1..n] + s[n..]
  {
  }

  lemma {:induction false} DropAt<T>(s: seq<T>, n: nat, i: nat)
    requires n + i < |s|
    ensures s[n..][i] == s[n + i]
  {
  }

  lemma {:induction false} TakeTake<T>(s: seq<T>, n: nat, i: nat)
    requires i <= n <= |s|
    ensures s[..n][..i] == s[..i]
  {
  }

  lemma {:induction false} DropSplit<T>(s: seq<T>, i: nat, j: nat)
    requires i <= j <= |s|
    ensures s[i..] == s[i..j] + s[j..]
  {
  }

  lemma {:induction false} TakeNext<T>(s: seq<T>, n: nat)
    requires n < |s|
    ensures s[..n + 1] == s[..n] + [s[n]]
  {
  }

  // Total of a measure over a sequence.
  function Sum<T>(f: T -> real, xs: seq<T>): real {
    if xs == [] then 0.0 else Sum(f, xs[..|xs| - 1]) + f(xs[|xs| - 1])
  }

  lemma {:induction false} SumConcat<T>(f: T -> real, a: seq<T>, b: seq<T>)
    ensures Sum(f, a + b) == Sum(f, a) + Sum(f, b)
  {
    if b == [] {
      assert a + b == a;
    } else {
      assert (a + b)[..|a + b| - 1] == a + b[..|b| - 1];
      SumConcat(f, a, b[..|b| - 1]);
    }
  }

  lemma {:induction false} SumOne<T>(f: T -> real, x: T)
    ensures Sum(f, [x]) == f(x)
  {
    assert [x][..0] == [];
  }

  lemma {:induction false} SumNonNegative<T>(f: T -> real, xs: seq<T>)
    requires forall x | x in xs :: f(x) >= 0.0
    ensures Sum(f, xs) >= 0.0
  {
    if xs != [] {
      SumNonNegative(f, xs[..|xs| - 1]);
    }
  }

  // n * x as repeated addition; keeps products out of loops.
  function Times(n: nat, x: real): real {
    if n == 0 then 0.0 else Times(n - 1, x) + x
  }

  lemma {:induction false} TimesIsProduct(n: nat, x: real)
    ensures Times(n, x) == n as real * x
  {
    if n > 0 {
      TimesIsProduct(n - 1, x);
      OneMore(n - 1, x);
    }
  }

  lemma {:induction false} OneMore(n: nat, m: real)
    ensures (n + 1) as real * m == n as real * m + m
  {
  }

  // A sum over at most n items that are each at most m is at most n * m.
  lemma {:induction false} SumBound<T>(f: T -> real, xs: seq<T>, m: real)
    requires forall x | x in xs :: f(x) <= m
    ensures Sum(f, xs) <= |xs| as real * m
  {
    if xs != [] {
      SumBound(f, xs[..|xs| - 1], m);
      OneMore(|xs| - 1, m);
    }
  }

  lemma {:induction false} QuotientBound(d: real, k: int, limit: real)
    requires k >= 1
    ensures d / k as real <= limit <==> d <= k as real * limit
  {
    assert d / k as real * k as real == d;
  }

  lemma {:induction false} AverageBound<T>(f: T -> real, xs: seq<T>, m: real)
    requires xs != [] && forall x | x in xs :: f(x) <= m
    ensures Sum(f, xs) / |xs| as real <= m
  {
    SumBound(f, xs, m);
    QuotientBound(Sum(f, xs), |xs|, m);
  }

  lemma {:induction false} SumFlattenTimes<T>(f: T -> real, groups: seq<seq<T>>, m: real)
    requires forall g | g in groups :: Sum(f, g) <= m
    ensures Sum(f, Flatten(groups)) <= Times(|groups|, m)
  {
    if groups != [] {
      var init, last := groups[..|groups| - 1], groups[|groups| - 1];
      SumFlattenTimes(f, init, m);
      SumConcat(f, Flatten(init), last);
    }
  }

  // The sum of the group sums is the sum of the members.
  lemma {:induction false} SumFlatten<T>(f: T -> real, groups: seq<seq<T>>, m: real)
    requires forall g | g in groups :: Sum(f, g) <= m
    ensures Sum(f, Flatten(groups)) <= |groups| as real * m
  {
    SumFlattenTimes(f, groups, m);
    TimesIsProduct(|groups|, m);
  }

  lemma {:induction false} LengthFlatten<T>(groups: seq<seq<T>>, m: nat)
    requires forall g | g in groups :: |g| <= m
    ensures |Flatten(groups)| <= |groups| * m
  {
    if groups != [] {
      LengthFlatten(groups[..|groups| - 1], m);
      assert |groups| * m == (|groups| - 1) * m + m;
    }
  }

  function NonEmpty<T>(groups: seq<seq<T>>): seq<seq<T>> {
    if groups == [] then []
    else
      var g := groups[|groups| - 1];
      NonEmpty(groups[..|groups| - 1]) + if g == [] then [] else [g]
  }

  // Dropping empty groups loses nothing, and only non-empty groups remain.
  lemma {:induction false} OneGroup<T>(g: seq<T>)
    ensures Flatten(if g == [] then [] else [g]) == g
  {
    assert g != [] ==> [g][..0] == [];
  }

  lemma {:induction false} NonEmptyKeeps<T>(groups: seq<seq<T>>)
    ensures Flatten(NonEmpty(groups)) == Flatten(groups)
    ensures |NonEmpty(groups)| <= |groups|
    ensures forall g :: g in NonEmpty(groups) <==> g in groups && g != []
  {
    if groups != [] {
      var g := groups[|groups| - 1];
      NonEmptyKeeps(groups[..|groups| - 1]);
      FlattenConcat(NonEmpty(groups[..|groups| - 1]), if g == [] then [] else [g]);
      OneGroup(g);
      InitLast(groups);
    }
  }

  function Singles<T>(xs: seq<T>): (r: seq<seq<T>>)
    ensures |r| == |xs|
    ensures forall i | 0 <= i < |xs| :: r[i] == [xs[i]]
  {
    seq(|xs|, i requires 0 <= i < |xs| => [xs[i]])
  }

  lemma {:induction false} FlattenSingles<T>(xs: seq<T>)
    ensures Flatten(Singles(xs)) == xs
  {
    if xs == [] {
      assert Singles(xs) == [];
    } else {
      var init := xs[..|xs| - 1];
      FlattenSingles(init);
      assert Singles(xs)[..|xs| - 1] == Singles(init);
      assert xs == init + [xs[|xs| - 1]];
    }
  }
}
