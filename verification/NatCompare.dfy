/** Natural-order comparison of strings (`upcl/strnatcmp.c`). */
module NatCompare {
  /** A signed character, as in a C string; the character functions are those of the C locale. */
  type Char = c: int | -128 <= c < 128

  const ZERO: Char := 48

  predicate IsDigit(c: Char) { 48 <= c <= 57 }
  predicate IsSpace(c: Char) { c == 32 || 9 <= c <= 13 }
  function Upper(c: Char): Char { if 97 <= c <= 122 then c - 32 else c }

  /** The characters of a string and the NUL that ends it: whatever reads inside the sequence reads
      nothing past the terminator. */
  predicate IsString(s: seq<Char>) {
    |s| > 0 && s[|s| - 1] == 0 && forall k | 0 <= k < |s| - 1 :: s[k] != 0
  }

  function Sign(n: int): int {
    if n < 0 then -1 else if n > 0 then 1 else 0
  }

  function Order(x: int, y: int): int {
    Sign(x - y)
  }

  // ---------- runs of digits ----------

  predicate AllDigits(x: seq<Char>) {
    forall k | 0 <= k < |x| :: IsDigit(x[k])
  }

  /** The run of digits at `i`. */
  function Run(s: seq<Char>, i: nat): (x: seq<Char>)
    requires i <= |s|
    ensures AllDigits(x)
    decreases |s| - i
  {
    if i < |s| && IsDigit(s[i]) then [s[i]] + Run(s, i + 1) else []
  }

  function Decimal(x: seq<Char>): (n: nat)
    requires AllDigits(x)
  {
    if x == [] then 0 else 10 * Decimal(x[..|x| - 1]) + (x[|x| - 1] - 48)
  }

  /** A run that is known to go on until `p`. */
  lemma {:induction false} RunFrom(s: seq<Char>, i: nat, p: nat)
    requires i <= p <= |s| && forall k | i <= k < p :: IsDigit(s[k])
    ensures Run(s, i) == s[i..p] + Run(s, p)
    decreases p - i
  {
    if i < p {
      RunFrom(s, i + 1, p);
      assert s[i..p] == [s[i]] + s[i + 1..p];
      assert [s[i]] + (s[i + 1..p] + Run(s, p)) == s[i..p] + Run(s, p);
    } else {
      assert s[i..p] == [];
    }
  }

  lemma RunEnds(s: seq<Char>, i: nat, p: nat)
    requires i <= p < |s| && !IsDigit(s[p]) && forall k | i <= k < p :: IsDigit(s[k])
    ensures Run(s, i) == s[i..p]
  {
    RunFrom(s, i, p);
    assert Run(s, p) == [];
  }

  lemma RunGoesOn(s: seq<Char>, i: nat, p: nat)
    requires i <= p < |s| && IsDigit(s[p]) && forall k | i <= k < p :: IsDigit(s[k])
    ensures |Run(s, i)| > p - i
  {
    RunFrom(s, i, p);
  }

  /** The longer number is the greater, and of two of the same length the one with the greater value. */
  function ByLength(x: seq<Char>, y: seq<Char>): int
    requires AllDigits(x) && AllDigits(y)
  {
    if |x| != |y| then Sign(|x| - |y|) else Sign(Decimal(x) - Decimal(y))
  }

  /** Character by character, a prefix first. */
  function Lexical(x: seq<Char>, y: seq<Char>): (r: int)
    ensures r == -1 || r == 0 || r == 1
  {
    if x == [] && y == [] then 0
    else if x == [] then -1
    else if y == [] then 1
    else if x[0] < y[0] then -1
    else if x[0] > y[0] then 1
    else Lexical(x[1..], y[1..])
  }

  /** `compare_right`. */
  method CompareRight(a: seq<Char>, i: nat, b: seq<Char>, j: nat) returns (r: int)
    requires IsString(a) && IsString(b) && i < |a| && j < |b|
    ensures r == ByLength(Run(a, i), Run(b, j))
  {
    var bias := 0;
    var p: nat, q: nat := i, j;
    while true
      invariant Alike(a, i, p, b, j, q, bias)
      decreases |a| - p
    {
      if !IsDigit(a[p]) && !IsDigit(b[q]) {
        RunEnds(a, i, p);
        RunEnds(b, j, q);
        return bias;
      } else if !IsDigit(a[p]) {
        RunEnds(a, i, p);
        RunGoesOn(b, j, q);
        return -1;
      } else if !IsDigit(b[q]) {
        RunGoesOn(a, i, p);
        RunEnds(b, j, q);
        return 1;
      }
      OneMoreDigit(a, i, p, b, j, q, bias);
      if a[p] < b[q] {
        if bias == 0 {
          bias := -1;
        }
      } else if a[p] > b[q] {
        if bias == 0 {
          bias := 1;
        }
      }
      p, q := p + 1, q + 1;
    }
  }

  /** Both runs reach this far, and `bias` compares the numbers so far. */
  ghost predicate Alike(a: seq<Char>, i: nat, p: nat, b: seq<Char>, j: nat, q: nat, bias: int) {
    && i <= p < |a| && j <= q < |b| && p - i == q - j
    && (forall k | i <= k < p :: IsDigit(a[k])) && (forall k | j <= k < q :: IsDigit(b[k]))
    && bias == Sign(Decimal(a[i..p]) - Decimal(b[j..q]))
  }

  lemma OneMoreDigit(a: seq<Char>, i: nat, p: nat, b: seq<Char>, j: nat, q: nat, bias: int)
    requires IsString(a) && IsString(b) && Alike(a, i, p, b, j, q, bias) && IsDigit(a[p]) && IsDigit(b[q])
    ensures Alike(a, i, p + 1, b, j, q + 1,
                  if bias != 0 then bias else if a[p] < b[q] then -1 else if a[p] > b[q] then 1 else 0)
  {
    assert a[i..p + 1][..p - i] == a[i..p] && b[j..q + 1][..q - j] == b[j..q];
  }

  /** `compare_left`. */
  method CompareLeft(a: seq<Char>, i: nat, b: seq<Char>, j: nat) returns (r: int)
    requires IsString(a) && IsString(b) && i < |a| && j < |b|
    ensures r == Lexical(Run(a, i), Run(b, j))
  {
    var p, q := i, j;
    while true
      invariant i <= p < |a| && j <= q < |b|
      invariant Lexical(Run(a, i), Run(b, j)) == Lexical(Run(a, p), Run(b, q))
      decreases |a| - p
    {
      if !IsDigit(a[p]) && !IsDigit(b[q]) {
        return 0;
      } else if !IsDigit(a[p]) {
        return -1;
      } else if !IsDigit(b[q]) {
        return 1;
      } else if a[p] < b[q] {
        return -1;
      } else if a[p] > b[q] {
        return 1;
      }
      p, q := p + 1, q + 1;
    }
  }

  // ---------- whole strings ----------

  function SkipSpaces(s: seq<Char>, i: nat): (k: nat)
    requires IsString(s) && i < |s|
    ensures i <= k < |s| && !IsSpace(s[k])
    decreases |s| - i
  {
    if IsSpace(s[i]) then SkipSpaces(s, i + 1) else i
  }

  /** Two runs: as fractions if one of them begins with a zero, by their size otherwise. */
  function Runs(x: seq<Char>, y: seq<Char>): int
    requires x != [] && y != [] && AllDigits(x) && AllDigits(y)
  {
    if x[0] == ZERO || y[0] == ZERO then Lexical(x, y) else ByLength(x, y)
  }

  /** What the characters at `i` and `j` decide, with the runs that begin there. */
  function Heads(a: seq<Char>, i: nat, b: seq<Char>, j: nat, fold: bool): int
    requires i < |a| && j < |b|
  {
    var r := if IsDigit(a[i]) && IsDigit(b[j]) then Runs(Run(a, i), Run(b, j)) else 0;
    if r != 0 then r
    else if fold then Order(Upper(a[i]), Upper(b[j]))
    else Order(a[i], b[j])
  }

  /** The order of the strings from `i` and `j` on. */
  function Natural(a: seq<Char>, i: nat, b: seq<Char>, j: nat, fold: bool): int
    requires IsString(a) && IsString(b) && i < |a| && j < |b|
    decreases |a| - i, 1
  {
    NaturalAt(a, SkipSpaces(a, i), b, SkipSpaces(b, j), fold)
  }

  /** The same, past the spaces. */
  function NaturalAt(a: seq<Char>, i: nat, b: seq<Char>, j: nat, fold: bool): int
    requires IsString(a) && IsString(b) && i < |a| && j < |b|
    decreases |a| - i, 0
  {
    var h := Heads(a, i, b, j, fold);
    if h != 0 || a[i] == 0 || b[j] == 0 then h else Natural(a, i + 1, b, j + 1, fold)
  }

  /** Heads that compare the same end their strings together or not at all. */
  lemma SameHeads(a: seq<Char>, i: nat, b: seq<Char>, j: nat, fold: bool)
    requires IsString(a) && IsString(b) && i < |a| && j < |b| && Heads(a, i, b, j, fold) == 0
    ensures a[i] == 0 <==> b[j] == 0
    ensures a[i] != 0 ==> i + 1 < |a| && j + 1 < |b|
  {
  }

  /** `strnatcmp0`. */
  method StrNatCmp(a: seq<Char>, b: seq<Char>, fold: bool) returns (r: int)
    requires IsString(a) && IsString(b)
    ensures r == Natural(a, 0, b, 0, fold)
  {
    var ai, bi := 0, 0;
    while true
      invariant 0 <= ai < |a| && 0 <= bi < |b|
      invariant Natural(a, 0, b, 0, fold) == Natural(a, ai, b, bi, fold)
      decreases |a| - ai
    {
      ai := PastSpaces(a, ai);
      bi := PastSpaces(b, bi);
      assert Natural(a, 0, b, 0, fold) == NaturalAt(a, ai, b, bi, fold);
      var decided;
      decided, r := CompareHeads(a, ai, b, bi, fold);
      if decided {
        return r;
      }
      SameHeads(a, ai, b, bi, fold);
      ai, bi := ai + 1, bi + 1;
    }
  }

  /** Two digits: the runs they begin are compared, as fractions or by their size. */
  method CompareRuns(a: seq<Char>, i: nat, b: seq<Char>, j: nat) returns (r: int)
    requires IsString(a) && IsString(b) && i < |a| && j < |b|
    ensures r == if IsDigit(a[i]) && IsDigit(b[j]) then Runs(Run(a, i), Run(b, j)) else 0
  {
    r := 0;
    if IsDigit(a[i]) && IsDigit(b[j]) {
      if a[i] == ZERO || b[j] == ZERO {
        r := CompareLeft(a, i, b, j);
      } else {
        r := CompareRight(a, i, b, j);
      }
    }
  }

  method CompareChars(x: Char, y: Char, fold: bool) returns (r: int)
    ensures r == if fold then Order(Upper(x), Upper(y)) else Order(x, y)
  {
    var ca, cb := x, y;
    if fold {
      ca, cb := Upper(ca), Upper(cb);
    }
    if ca < cb {
      return -1;
    } else if ca > cb {
      return 1;
    }
    return 0;
  }

  /** What is decided without going on: the characters differ, or the runs that begin with
      them, or both strings are at their end. */
  method CompareHeads(a: seq<Char>, i: nat, b: seq<Char>, j: nat, fold: bool) returns (decided: bool, r: int)
    requires IsString(a) && IsString(b) && i < |a| && j < |b|
    ensures r == Heads(a, i, b, j, fold)
    ensures decided <==> r != 0 || (a[i] == 0 && b[j] == 0)
  {
    r := CompareRuns(a, i, b, j);
    if r != 0 {
      return true, r;
    }
    if a[i] == 0 && b[j] == 0 {
      return true, 0;
    }
    r := CompareChars(a[i], b[j], fold);
    decided := r != 0;
  }

  method PastSpaces(s: seq<Char>, i: nat) returns (k: nat)
    requires IsString(s) && i < |s|
    ensures k == SkipSpaces(s, i)
  {
    k := i;
    while IsSpace(s[k])
      invariant i <= k < |s| && SkipSpaces(s, i) == SkipSpaces(s, k)
      decreases |s| - k
    {
      k := k + 1;
    }
  }

  // ---------- it is an order ----------

  /** Without leading zeros the longer number is the greater: the comparison is that of the values. */
  lemma ByLengthIsNumeric(x: seq<Char>, y: seq<Char>)
    requires AllDigits(x) && AllDigits(y) && x != [] && y != [] && x[0] != ZERO && y[0] != ZERO
    ensures ByLength(x, y) == Sign(Decimal(x) - Decimal(y))
  {
    DecimalBounds(x);
    DecimalBounds(y);
    if |x| < |y| {
      Pow10Grows(|x|, |y| - 1);
    } else if |y| < |x| {
      Pow10Grows(|y|, |x| - 1);
    }
  }

  function Pow10(n: nat): (r: nat)
    ensures r > 0
  {
    if n == 0 then 1 else 10 * Pow10(n - 1)
  }

  lemma {:induction false} Pow10Grows(m: nat, n: nat)
    requires m <= n
    ensures Pow10(m) <= Pow10(n)
    decreases n
  {
    if m < n {
      Pow10Grows(m, n - 1);
    }
  }

  lemma {:induction false} DecimalBounds(x: seq<Char>)
    requires AllDigits(x) && x != []
    ensures Decimal(x) < Pow10(|x|)
    ensures x[0] != ZERO ==> Pow10(|x| - 1) <= Decimal(x)
  {
    if |x| > 1 {
      DecimalBounds(x[..|x| - 1]);
    }
  }

  /** Runs of one length are the same if their numbers are. */
  lemma {:induction false} DecimalIsInjective(x: seq<Char>, y: seq<Char>)
    requires AllDigits(x) && AllDigits(y) && |x| == |y| && Decimal(x) == Decimal(y)
    ensures x == y
  {
    if x != [] {
      var n := |x| - 1;
      assert x[n] == y[n] && Decimal(x[..n]) == Decimal(y[..n]);
      DecimalIsInjective(x[..n], y[..n]);
      assert x == x[..n] + [x[n]] && y == y[..n] + [y[n]];
    }
  }

  lemma {:induction false} LexicalSwaps(x: seq<Char>, y: seq<Char>)
    ensures Lexical(y, x) == -Lexical(x, y)
  {
    if x != [] && y != [] && x[0] == y[0] {
      LexicalSwaps(x[1..], y[1..]);
    }
  }

  lemma {:induction false} LexicalIsExact(x: seq<Char>, y: seq<Char>)
    ensures Lexical(x, y) == 0 <==> x == y
  {
    if x != [] && y != [] && x[0] == y[0] {
      LexicalIsExact(x[1..], y[1..]);
      assert x == [x[0]] + x[1..] && y == [y[0]] + y[1..];
    }
  }

  lemma {:induction false} LexicalChains(x: seq<Char>, y: seq<Char>, z: seq<Char>)
    requires Lexical(x, y) <= 0 && Lexical(y, z) <= 0
    ensures Lexical(x, z) <= 0
  {
    if x != [] && y != [] && z != [] && x[0] == y[0] == z[0] {
      LexicalChains(x[1..], y[1..], z[1..]);
    }
  }

  lemma RunsAreExact(x: seq<Char>, y: seq<Char>)
    requires x != [] && y != [] && AllDigits(x) && AllDigits(y)
    ensures Runs(x, y) == 0 <==> x == y
  {
    LexicalIsExact(x, y);
    if |x| == |y| && Decimal(x) == Decimal(y) {
      DecimalIsInjective(x, y);
    }
  }

  lemma RunsSwap(x: seq<Char>, y: seq<Char>)
    requires x != [] && y != [] && AllDigits(x) && AllDigits(y)
    ensures Runs(y, x) == -Runs(x, y)
  {
    LexicalSwaps(x, y);
  }

  /** A run with a leading zero is below one without. */
  lemma RunsChain(x: seq<Char>, y: seq<Char>, z: seq<Char>)
    requires x != [] && y != [] && z != [] && AllDigits(x) && AllDigits(y) && AllDigits(z)
    requires Runs(x, y) <= 0 && Runs(y, z) <= 0
    ensures Runs(x, z) <= 0
  {
    if x[0] == ZERO && y[0] == ZERO && z[0] == ZERO {
      LexicalChains(x, y, z);
    }
  }

  /** Comparing a string with itself gives zero. */
  lemma {:induction false} NaturalIsReflexive(a: seq<Char>, i: nat, fold: bool)
    requires IsString(a) && i < |a|
    ensures Natural(a, i, a, i, fold) == 0
    decreases |a| - i
  {
    var k := SkipSpaces(a, i);
    if IsDigit(a[k]) {
      RunsAreExact(Run(a, k), Run(a, k));
    }
    if a[k] != 0 {
      NaturalIsReflexive(a, k + 1, fold);
    }
  }

  lemma HeadsSwap(a: seq<Char>, i: nat, b: seq<Char>, j: nat, fold: bool)
    requires i < |a| && j < |b|
    ensures Heads(b, j, a, i, fold) == -Heads(a, i, b, j, fold)
  {
    if IsDigit(a[i]) && IsDigit(b[j]) {
      RunsSwap(Run(a, i), Run(b, j));
    }
  }

  /** Swapping the strings negates the result. */
  lemma {:induction false} NaturalIsAntisymmetric(a: seq<Char>, i: nat, b: seq<Char>, j: nat, fold: bool)
    requires IsString(a) && IsString(b) && i < |a| && j < |b|
    ensures Natural(b, j, a, i, fold) == -Natural(a, i, b, j, fold)
    decreases |a| - i
  {
    var i', j' := SkipSpaces(a, i), SkipSpaces(b, j);
    HeadsSwap(a, i', b, j', fold);
    if Heads(a, i', b, j', fold) == 0 && a[i'] != 0 && b[j'] != 0 {
      NaturalIsAntisymmetric(a, i' + 1, b, j' + 1, fold);
    }
  }

  /** A digit beside another character: all digits are on the same side of it. */
  lemma HeadsChain(a: seq<Char>, i: nat, b: seq<Char>, j: nat, c: seq<Char>, k: nat, fold: bool)
    requires i < |a| && j < |b| && k < |c|
    requires Heads(a, i, b, j, fold) <= 0 && Heads(b, j, c, k, fold) <= 0
    ensures Heads(a, i, c, k, fold) <= 0
  {
    if IsDigit(a[i]) && IsDigit(b[j]) {
      RunsAreExact(Run(a, i), Run(b, j));
    }
    if IsDigit(b[j]) && IsDigit(c[k]) {
      RunsAreExact(Run(b, j), Run(c, k));
    }
    if IsDigit(a[i]) && IsDigit(c[k]) {
      RunsAreExact(Run(a, i), Run(c, k));
      if IsDigit(b[j]) {
        RunsChain(Run(a, i), Run(b, j), Run(c, k));
      }
    }
  }

  /** The comparison is transitive, so that sorting by it is well defined: spaces, leading zeros and
      folding case make it no cycles. */
  lemma {:induction false} NaturalIsTransitive(a: seq<Char>, i: nat, b: seq<Char>, j: nat, c: seq<Char>, k: nat,
                                               fold: bool)
    requires IsString(a) && IsString(b) && IsString(c) && i < |a| && j < |b| && k < |c|
    requires Natural(a, i, b, j, fold) <= 0 && Natural(b, j, c, k, fold) <= 0
    ensures Natural(a, i, c, k, fold) <= 0
    decreases |a| - i
  {
    var i', j', k' := SkipSpaces(a, i), SkipSpaces(b, j), SkipSpaces(c, k);
    HeadsChain(a, i', b, j', c, k', fold);
    HeadsSwap(a, i', b, j', fold);
    HeadsSwap(b, j', c, k', fold);
    HeadsSwap(a, i', c, k', fold);
    if Heads(a, i', c, k', fold) == 0 && a[i'] != 0 && c[k'] != 0 {
      HeadsChain(b, j', c, k', a, i', fold);
      HeadsChain(c, k', a, i', b, j', fold);
      SameHeads(a, i', b, j', fold);
      NaturalIsTransitive(a, i' + 1, b, j' + 1, c, k' + 1, fold);
    }
  }
}
