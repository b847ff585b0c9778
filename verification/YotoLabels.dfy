// Card folder labels (card_label in modules/nixos/services/yoto-share/yoto-prep.py):
// 0 is "Card A", 25 "Card Z", 26 "Card AA".

module YotoLabels {
  predicate IsLetters(s: string) { forall i | 0 <= i < |s| :: 'A' <= s[i] <= 'Z' }

  // Bijective base 26: the letters standing for n, most significant first; none for 0.
  function Letters(n: nat): (s: string)
    ensures IsLetters(s)
  {
    if n == 0 then "" else Letters((n - 1) / 26) + ['A' + ((n - 1) % 26) as char]
  }

  // The number a row of letters stands for.
  function Value(s: string): nat
    requires IsLetters(s)
  {
    if s == "" then 0 else Value(s[..|s| - 1]) * 26 + (s[|s| - 1] as int - 'A' as int) + 1
  }

  method CardLabel(index: nat) returns (name: string)
    ensures name == "Card " + Letters(index + 1)
  {
    var letters := "";
    var n: nat := index + 1;
    while n != 0
      invariant Letters(n) + letters == Letters(index + 1)
    {
      var rem := (n - 1) % 26;
      n := (n - 1) / 26;
      letters := ['A' + rem as char] + letters;
    }
    name := "Card " + letters;
  }

  lemma {:induction false} ValueOfLetters(n: nat)
    ensures Value(Letters(n)) == n
  {
    if n > 0 {
      ValueOfLetters((n - 1) / 26);
      assert Letters(n)[..|Letters(n)| - 1] == Letters((n - 1) / 26);
    }
  }

  lemma {:induction false} DigitOut(rest: nat, d: nat)
    requires d < 26
    ensures (rest * 26 + d) / 26 == rest && (rest * 26 + d) % 26 == d
  {
  }

  lemma {:induction false} LettersNext(rest: nat, d: nat)
    requires d < 26
    ensures Letters(rest * 26 + d + 1) == Letters(rest) + ['A' + d as char]
  {
    DigitOut(rest, d);
  }

  lemma {:induction false} LettersOfValue(s: string)
    requires IsLetters(s)
    ensures Letters(Value(s)) == s
  {
    if s != "" {
      var init, d := s[..|s| - 1], s[|s| - 1] as int - 'A' as int;
      LettersOfValue(init);
      LettersNext(Value(init), d);
      assert 'A' + d as char == s[|s| - 1];
      assert s == init + [s[|s| - 1]];
    }
  }

  // No two cards of a book share a label, and every non-empty row of letters is the label of
  // exactly one card.
  lemma {:induction false} LabelsAreUnique(i: nat, j: nat)
    ensures Letters(i + 1) == Letters(j + 1) <==> i == j
  {
    if Letters(i + 1) == Letters(j + 1) {
      SameNumber(i + 1, j + 1);
    }
  }

  lemma {:induction false} SameNumber(m: nat, n: nat)
    requires Letters(m) == Letters(n)
    ensures m == n
  {
    ValueOfLetters(m);
    ValueOfLetters(n);
  }
}
