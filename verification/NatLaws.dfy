/** What the natural order amounts to, in the numbers of the characters alone. */
module NatLaws {
  import opened NatCompare

  /** No digits, and none of the characters that are skipped. */
  predicate IsWord(s: seq<Char>) {
    forall k | 0 <= k < |s| :: !(48 <= s[k] <= 57) && s[k] != 32 && !(9 <= s[k] <= 13)
  }

  /** A common beginning without digits and spaces decides nothing. */
  lemma {:induction false} CommonBeginning(a: seq<Char>, i: nat, b: seq<Char>, j: nat, n: nat, fold: bool)
    requires IsString(a) && IsString(b) && i + n < |a| && j + n < |b|
    requires a[i..i + n] == b[j..j + n] && IsWord(a[i..i + n])
    ensures Natural(a, i, b, j, fold) == Natural(a, i + n, b, j + n, fold)
    decreases n
  {
    if n > 0 {
      assert a[i] == a[i..i + n][0] && b[j] == b[j..j + n][0];
      assert a[i + 1..i + n] == a[i..i + n][1..] && b[j + 1..j + n] == b[j..j + n][1..];
      CommonBeginning(a, i + 1, b, j + 1, n - 1, fold);
    }
  }

  /** Strings without digits and spaces: the first characters that differ decide, as numbers. The
      one that ends a string is 0, so characters above 127, which are negative, come before it. */
  lemma FirstDifference(a: seq<Char>, b: seq<Char>, k: nat)
    requires IsString(a) && IsString(b) && IsWord(a) && IsWord(b)
    requires k < |a| && k < |b| && a[..k] == b[..k] && a[k] != b[k]
    ensures Natural(a, 0, b, 0, false) == if a[k] < b[k] then -1 else 1
  {
    CommonBeginning(a, 0, b, 0, k, false);
  }

  /** Two strings that are alike so far and end here are the same. */
  lemma EndsTogether(a: seq<Char>, b: seq<Char>, i: nat)
    requires IsString(a) && IsString(b) && i < |a| && i < |b| && a[..i] == b[..i] && a[i] == b[i] == 0
    ensures a == b
  {
    assert |a| == i + 1 == |b|;
    assert a == a[..i] + [a[i]] && b == b[..i] + [b[i]];
  }

  lemma GoesOn(a: seq<Char>, b: seq<Char>, i: nat)
    requires IsString(a) && IsString(b) && a != b && i < |a| && i < |b| && a[..i] == b[..i] && a[i] == b[i]
    ensures i + 1 < |a| && i + 1 < |b| && a[..i + 1] == b[..i + 1]
  {
    if a[i] == 0 {
      EndsTogether(a, b, i);
      assert false;
    }
    assert a[..i + 1] == a[..i] + [a[i]] && b[..i + 1] == b[..i] + [b[i]];
  }

  /** And if they are not the same, there is a first difference. */
  lemma {:induction false} HasDifference(a: seq<Char>, b: seq<Char>, i: nat) returns (k: nat)
    requires IsString(a) && IsString(b) && a != b
    requires i < |a| && i < |b| && a[..i] == b[..i]
    ensures k < |a| && k < |b| && a[..k] == b[..k] && a[k] != b[k]
    decreases |a| - i
  {
    k := i;
    if a[i] == b[i] {
      GoesOn(a, b, i);
      k := HasDifference(a, b, i + 1);
    }
  }

  /** After a common beginning, numbers without leading zeros compare by value, whatever their
      lengths. */
  lemma NumbersDecide(a: seq<Char>, b: seq<Char>, k: nat, fold: bool)
    requires IsString(a) && IsString(b) && k < |a| && k < |b| && a[..k] == b[..k] && IsWord(a[..k])
    requires 49 <= a[k] <= 57 && 49 <= b[k] <= 57
    ensures var x, y := Decimal(Run(a, k)), Decimal(Run(b, k));
      (x < y ==> Natural(a, 0, b, 0, fold) == -1) && (x > y ==> Natural(a, 0, b, 0, fold) == 1)
  {
    CommonBeginning(a, 0, b, 0, k, fold);
    ByLengthIsNumeric(Run(a, k), Run(b, k));
  }

  // ---------- folding ----------

  /** Every small letter replaced by its capital. */
  function Capitals(s: seq<Char>): (r: seq<Char>)
    ensures |r| == |s|
  {
    seq(|s|, k requires 0 <= k < |s| => if 97 <= s[k] <= 122 then s[k] - 32 else s[k])
  }

  lemma {:induction false} RunOfCapitals(s: seq<Char>, i: nat)
    requires i <= |s|
    ensures Run(Capitals(s), i) == Run(s, i)
    decreases |s| - i
  {
    if i < |s| {
      RunOfCapitals(s, i + 1);
    }
  }

  lemma {:induction false} SpacesOfCapitals(s: seq<Char>, i: nat)
    requires IsString(s) && i < |s|
    ensures IsString(Capitals(s)) && SkipSpaces(Capitals(s), i) == SkipSpaces(s, i)
    decreases |s| - i
  {
    if IsSpace(s[i]) {
      SpacesOfCapitals(s, i + 1);
    }
  }

  /** Folding compares the strings in capitals. */
  lemma {:induction false} FoldingIsCapitals(a: seq<Char>, i: nat, b: seq<Char>, j: nat)
    requires IsString(a) && IsString(b) && i < |a| && j < |b|
    ensures IsString(Capitals(a)) && IsString(Capitals(b))
    ensures Natural(a, i, b, j, true) == Natural(Capitals(a), i, Capitals(b), j, false)
    decreases |a| - i
  {
    SpacesOfCapitals(a, i);
    SpacesOfCapitals(b, j);
    var i', j' := SkipSpaces(a, i), SkipSpaces(b, j);
    RunOfCapitals(a, i');
    RunOfCapitals(b, j');
    assert Heads(a, i', b, j', true) == Heads(Capitals(a), i', Capitals(b), j', false);
    if Heads(a, i', b, j', true) == 0 && a[i'] != 0 && b[j'] != 0 {
      FoldingIsCapitals(a, i' + 1, b, j' + 1);
    }
  }

  /** Strings that differ in the case of letters only are the same with folding. */
  lemma CaseDoesNotMatter(a: seq<Char>, b: seq<Char>)
    requires IsString(a) && IsString(b) && Capitals(a) == Capitals(b)
    ensures Natural(a, 0, b, 0, true) == 0
  {
    FoldingIsCapitals(a, 0, b, 0);
    NaturalIsReflexive(Capitals(a), 0, false);
  }

  // ---------- spaces ----------

  lemma {:induction false} SameSuffixRun(a: seq<Char>, i: nat, a': seq<Char>, i': nat)
    requires i <= |a| && i' <= |a'| && a[i..] == a'[i'..]
    ensures Run(a, i) == Run(a', i')
    decreases |a| - i
  {
    if i < |a| {
      assert a[i] == a[i..][0] && a'[i'] == a'[i'..][0];
      assert a[i + 1..] == a[i..][1..] && a'[i' + 1..] == a'[i'..][1..];
      SameSuffixRun(a, i + 1, a', i' + 1);
    }
  }

  lemma {:induction false} SameSuffixSpaces(a: seq<Char>, i: nat, a': seq<Char>, i': nat)
    requires IsString(a) && IsString(a') && i < |a| && i' < |a'| && a[i..] == a'[i'..]
    ensures SkipSpaces(a, i) - i == SkipSpaces(a', i') - i'
    decreases |a| - i
  {
    assert a[i] == a[i..][0] && a'[i'] == a'[i'..][0];
    if IsSpace(a[i]) {
      assert a[i + 1..] == a[i..][1..] && a'[i' + 1..] == a'[i'..][1..];
      SameSuffixSpaces(a, i + 1, a', i' + 1);
    }
  }

  lemma SameSuffixAt(a: seq<Char>, p: nat, a': seq<Char>, p': nat, b: seq<Char>, q: nat, fold: bool)
    requires p < |a| && p' < |a'| && q < |b| && a[p..] == a'[p'..]
    ensures a[p] == a'[p'] && Heads(a, p, b, q, fold) == Heads(a', p', b, q, fold)
  {
    assert a[p] == a[p..][0] && a'[p'] == a'[p'..][0];
    SameSuffixRun(a, p, a', p');
  }

  /** One step of either comparison, if the rest is the same. */
  lemma SameStep(a: seq<Char>, p: nat, a': seq<Char>, p': nat, b: seq<Char>, q: nat, fold: bool, h: int)
    requires IsString(a) && IsString(a') && IsString(b) && p < |a| && p' < |a'| && q < |b| && a[p] == a'[p']
    requires h == Heads(a, p, b, q, fold) == Heads(a', p', b, q, fold)
    requires h == 0 && a[p] != 0 && b[q] != 0 ==>
               Natural(a, p + 1, b, q + 1, fold) == Natural(a', p' + 1, b, q + 1, fold)
    ensures NaturalAt(a, p, b, q, fold) == NaturalAt(a', p', b, q, fold)
  {
  }

  lemma RestOfSuffix(a: seq<Char>, i: nat, a': seq<Char>, i': nat, m: nat)
    requires i + m <= |a| && i' + m <= |a'| && a[i..] == a'[i'..]
    ensures a[i + m..] == a'[i' + m..]
  {
    assert a[i + m..] == a[i..][m..] && a'[i' + m..] == a'[i'..][m..];
  }

  /** Only what is still ahead matters. */
  lemma {:induction false} SameSuffix(a: seq<Char>, i: nat, a': seq<Char>, i': nat, b: seq<Char>, j: nat, fold: bool)
    requires IsString(a) && IsString(a') && IsString(b) && i < |a| && i' < |a'| && j < |b| && a[i..] == a'[i'..]
    ensures Natural(a, i, b, j, fold) == Natural(a', i', b, j, fold)
    decreases |a| - i, 1
  {
    SameSuffixSpaces(a, i, a', i');
    var p, p', q := SkipSpaces(a, i), SkipSpaces(a', i'), SkipSpaces(b, j);
    RestOfSuffix(a, i, a', i', p - i);
    SameSuffixPast(a, p, a', p', b, q, fold);
  }

  lemma {:induction false} SameSuffixPast(a: seq<Char>, p: nat, a': seq<Char>, p': nat, b: seq<Char>, q: nat,
                                          fold: bool)
    requires IsString(a) && IsString(a') && IsString(b) && p < |a| && p' < |a'| && q < |b| && a[p..] == a'[p'..]
    ensures NaturalAt(a, p, b, q, fold) == NaturalAt(a', p', b, q, fold)
    decreases |a| - p, 0
  {
    SameSuffixAt(a, p, a', p', b, q, fold);
    var h := Heads(a, p, b, q, fold);
    if h == 0 && a[p] != 0 && b[q] != 0 {
      RestOfSuffix(a, p, a', p', 1);
      SameSuffix(a, p + 1, a', p' + 1, b, q + 1, fold);
    }
    SameStep(a, p, a', p', b, q, fold, h);
  }

  /** The string with a character put in before the one at `k`. */
  function Inserted(s: seq<Char>, k: nat, c: Char): (r: seq<Char>)
    requires k < |s|
    ensures |r| == |s| + 1
  {
    s[..k] + [c] + s[k..]
  }

  /** The character at `k` does not go on a number. */
  predicate BetweenNumbers(s: seq<Char>, k: nat)
    requires k < |s|
  {
    k == 0 || !(48 <= s[k - 1] <= 57) || !(48 <= s[k] <= 57)
  }

  lemma {:induction false} RunStays(s: seq<Char>, k: nat, c: Char, p: nat)
    requires p < k < |s| && BetweenNumbers(s, k) && (c == 32 || 9 <= c <= 13)
    ensures Run(Inserted(s, k, c), p) == Run(s, p)
    decreases k - p
  {
    var r := Inserted(s, k, c);
    assert r[p] == s[p];
    if IsDigit(s[p]) {
      if p + 1 < k {
        RunStays(s, k, c, p + 1);
      } else {
        assert r[k] == c;
        assert Run(r, k) == [] && Run(s, k) == [];
      }
    }
  }

  lemma {:induction false} SkipsInserted(s: seq<Char>, k: nat, c: Char, i: nat)
    requires IsString(s) && i <= k < |s| && (c == 32 || 9 <= c <= 13)
    ensures IsString(Inserted(s, k, c))
    ensures var p, p' := SkipSpaces(s, i), SkipSpaces(Inserted(s, k, c), i);
      if p < k then p' == p else p' == p + 1
    decreases k - i
  {
    var r := Inserted(s, k, c);
    assert forall m | 0 <= m < |s| :: if m < k then r[m] == s[m] else r[m + 1] == s[m];
    if i == k {
      assert r[k] == c && r[k + 1..] == s[k..];
      SameSuffixSpaces(s, k, r, k + 1);
    } else if IsSpace(s[i]) {
      SkipsInserted(s, k, c, i + 1);
    }
  }

  lemma HeadsStay(a: seq<Char>, k: nat, c: Char, p: nat, b: seq<Char>, q: nat, fold: bool)
    requires p < k < |a| && q < |b| && BetweenNumbers(a, k) && (c == 32 || 9 <= c <= 13)
    ensures Inserted(a, k, c)[p] == a[p] && Heads(Inserted(a, k, c), p, b, q, fold) == Heads(a, p, b, q, fold)
  {
    RunStays(a, k, c, p);
  }

  /** A space changes nothing wherever it does not cut a number in two. */
  lemma {:induction false} SpaceDoesNotMatter(a: seq<Char>, k: nat, c: Char, i: nat, b: seq<Char>, j: nat, fold: bool)
    requires IsString(a) && IsString(b) && i <= k < |a| && j < |b|
    requires BetweenNumbers(a, k) && (c == 32 || 9 <= c <= 13)
    ensures IsString(Inserted(a, k, c))
    ensures Natural(Inserted(a, k, c), i, b, j, fold) == Natural(a, i, b, j, fold)
    decreases |a| - i, 1
  {
    var r := Inserted(a, k, c);
    SkipsInserted(a, k, c, i);
    var p, q := SkipSpaces(a, i), SkipSpaces(b, j);
    if p < k {
      SpaceComesLater(a, k, c, p, b, q, fold);
    } else {
      assert r[p + 1..] == a[p..];
      SameSuffixPast(a, p, r, p + 1, b, q, fold);
    }
  }

  lemma {:induction false} SpaceComesLater(a: seq<Char>, k: nat, c: Char, p: nat, b: seq<Char>, q: nat, fold: bool)
    requires IsString(a) && IsString(b) && p < k < |a| && q < |b| && IsString(Inserted(a, k, c))
    requires BetweenNumbers(a, k) && (c == 32 || 9 <= c <= 13)
    ensures NaturalAt(Inserted(a, k, c), p, b, q, fold) == NaturalAt(a, p, b, q, fold)
    decreases |a| - p, 0
  {
    HeadsStay(a, k, c, p, b, q, fold);
    var h := Heads(a, p, b, q, fold);
    if h == 0 && a[p] != 0 && b[q] != 0 {
      SpaceDoesNotMatter(a, k, c, p + 1, b, q + 1, fold);
    }
    SameStep(Inserted(a, k, c), p, a, p, b, q, fold, h);
  }

  // ---------- fractions ----------

  function Zeros(n: nat): (r: seq<Char>)
    ensures |r| == n && AllDigits(r)
  {
    seq(n, _ => ZERO)
  }

  /** A greater first digit outweighs all that follow. */
  lemma {:induction false} FirstDigitDecides(d: Char, x: seq<Char>, e: Char, y: seq<Char>)
    requires IsDigit(d) && IsDigit(e) && AllDigits(x) && AllDigits(y) && |x| == |y| && d < e
    ensures Decimal([d] + x) < Decimal([e] + y)
    decreases |x|
  {
    var n := |x|;
    if n == 0 {
      assert ([d] + x)[..0] == [] && ([e] + y)[..0] == [];
    } else {
      assert ([d] + x)[..n] == [d] + x[..n - 1] && ([e] + y)[..n] == [e] + y[..n - 1];
      FirstDigitDecides(d, x[..n - 1], e, y[..n - 1]);
    }
  }

  /** And the same one adds the same to both. */
  lemma {:induction false} FirstDigitAdds(d: Char, x: seq<Char>, y: seq<Char>)
    requires IsDigit(d) && AllDigits(x) && AllDigits(y) && |x| == |y|
    ensures Decimal([d] + x) - Decimal([d] + y) == Decimal(x) - Decimal(y)
    decreases |x|
  {
    var n := |x|;
    if n > 0 {
      assert ([d] + x)[..n] == [d] + x[..n - 1] && ([d] + y)[..n] == [d] + y[..n - 1];
      FirstDigitAdds(d, x[..n - 1], y[..n - 1]);
    }
  }

  /** The digits with zeros after them, `n` in all, as a number. */
  function Fraction(x: seq<Char>, n: nat): (r: nat)
    requires AllDigits(x) && |x| <= n
  {
    Decimal(x + Zeros(n - |x|))
  }

  lemma FractionFromLeft(x: seq<Char>, n: nat) returns (x': seq<Char>)
    requires AllDigits(x) && 0 < |x| <= n
    ensures |x'| == n - 1 && AllDigits(x') && IsDigit(x[0])
    ensures Fraction(x[1..], n - 1) == Decimal(x') && Fraction(x, n) == Decimal([x[0]] + x')
  {
    x' := x[1..] + Zeros(n - |x|);
    assert x + Zeros(n - |x|) == [x[0]] + x';
  }

  lemma FirstDigits(x: seq<Char>, y: seq<Char>, n: nat)
    requires AllDigits(x) && AllDigits(y) && 0 < |x| <= n && 0 < |y| <= n
    ensures x[0] < y[0] ==> Fraction(x, n) < Fraction(y, n)
    ensures x[0] == y[0] ==> Fraction(x, n) - Fraction(y, n) == Fraction(x[1..], n - 1) - Fraction(y[1..], n - 1)
  {
    var x' := FractionFromLeft(x, n);
    var y' := FractionFromLeft(y, n);
    if x[0] < y[0] {
      FirstDigitDecides(x[0], x', y[0], y');
    } else if x[0] == y[0] {
      FirstDigitAdds(x[0], x', y');
    }
  }

  /** Digits after a point: they compare as fractions, and of equal fractions the shorter one is
      less. */
  lemma {:induction false} LexicalIsFractional(x: seq<Char>, y: seq<Char>, n: nat)
    requires AllDigits(x) && AllDigits(y) && |x| <= n && |y| <= n
    ensures Fraction(x, n) < Fraction(y, n) ==> Lexical(x, y) == -1
    ensures Fraction(x, n) > Fraction(y, n) ==> Lexical(x, y) == 1
    ensures Fraction(x, n) == Fraction(y, n) ==>
              Lexical(x, y) == if |x| < |y| then -1 else if |x| > |y| then 1 else 0
    decreases n
  {
    if x == [] {
      NothingIsZero(n);
    } else if y == [] {
      NothingIsZero(n);
    } else {
      FirstDigits(x, y, n);
      FirstDigits(y, x, n);
      if x[0] == y[0] {
        LexicalIsFractional(x[1..], y[1..], n - 1);
      }
    }
  }

  lemma NothingIsZero(n: nat)
    ensures AllDigits([]) && Fraction([], n) == 0
  {
    ZerosAreZero(n);
    assert [] + Zeros(n) == Zeros(n);
  }

  lemma {:induction false} ZerosAreZero(n: nat)
    ensures Decimal(Zeros(n)) == 0
    decreases n
  {
    if n > 0 {
      ZerosAreZero(n - 1);
      assert Zeros(n)[..n - 1] == Zeros(n - 1);
    }
  }

  /** With a leading zero on either side the numbers after a common beginning are compared so. */
  lemma FractionsDecide(a: seq<Char>, b: seq<Char>, k: nat, n: nat, fold: bool)
    requires IsString(a) && IsString(b) && k < |a| && k < |b| && a[..k] == b[..k] && IsWord(a[..k])
    requires 48 <= a[k] <= 57 && 48 <= b[k] <= 57 && (a[k] == 48 || b[k] == 48)
    requires |Run(a, k)| <= n && |Run(b, k)| <= n
    ensures var x, y := Run(a, k), Run(b, k);
      var u, v := Fraction(x, n), Fraction(y, n);
      && (u < v || (u == v && |x| < |y|) ==> Natural(a, 0, b, 0, fold) == -1)
      && (u > v || (u == v && |x| > |y|) ==> Natural(a, 0, b, 0, fold) == 1)
  {
    CommonBeginning(a, 0, b, 0, k, fold);
    LexicalIsFractional(Run(a, k), Run(b, k), n);
  }
}
