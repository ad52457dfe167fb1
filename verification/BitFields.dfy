/** Lists of bit fields and their shifts (`upcl/c/bit_combine_expression.cpp`). */
module BitFields {
  import opened Arithmetic

  const SIZE_T: nat := 0x1_0000_0000_0000_0000

  /** A sub-expression: so many bits, with this value. */
  datatype Field = Field(width: nat, value: nat)

  function Pow2(n: nat): (r: nat)
    ensures r > 0
  {
    if n == 0 then 1 else 2 * Pow2(n - 1)
  }

  function Width(fs: seq<Field>): nat {
    if fs == [] then 0 else fs[0].width + Width(fs[1..])
  }

  /** The value of the list, the most significant field first. */
  function Value(fs: seq<Field>): nat {
    if fs == [] then 0 else fs[0].value * Pow2(Width(fs[1..])) + Value(fs[1..])
  }

  ghost predicate InRange(fs: seq<Field>) {
    forall i | 0 <= i < |fs| :: fs[i].value < Pow2(fs[i].width)
  }

  function Zeros(n: nat): Field {
    Field(n, 0)
  }

  /** `CBITSLICE`: `count` bits of `f` from bit `from` on. */
  function Slice(f: Field, from: nat, count: nat): Field {
    Field(count, f.value / Pow2(from) % Pow2(count))
  }

  // ---------- powers of two ----------

  lemma {:induction false} PowAdds(m: nat, n: nat)
    ensures Pow2(m + n) == Pow2(m) * Pow2(n)
  {
    if m > 0 {
      PowAdds(m - 1, n);
      assert Pow2(m + n) == 2 * (Pow2(m - 1) * Pow2(n));
      Associates(2, Pow2(m - 1), Pow2(n));
    }
  }

  lemma {:induction false} PowGrows(m: nat, n: nat)
    requires m <= n
    ensures Pow2(m) <= Pow2(n)
    decreases n
  {
    if m < n {
      PowGrows(m, n - 1);
    }
  }

  /** Dropping low bits of a value put above others. */
  lemma DivideShifted(a: nat, w: nat, y: nat, c: nat)
    requires c <= w
    ensures (a * Pow2(w) + y) / Pow2(c) == a * Pow2(w - c) + y / Pow2(c)
    ensures (a * Pow2(w) + y) % Pow2(c) == y % Pow2(c)
  {
    PowAdds(w - c, c);
    DivideMultiple(a, Pow2(w - c), Pow2(c), y);
  }

  lemma DivideMultiple(a: nat, u: nat, d: nat, y: nat)
    requires d > 0
    ensures (a * (u * d) + y) / d == a * u + y / d && (a * (u * d) + y) % d == y % d
  {
    var q, r := y / d, y % d;
    DivideParts(y, d);
    Associates(a, u, d);
    Distributes(a * u, q, d);
    DivideIs(a * (u * d) + y, d, a * u + q, r);
  }

  lemma SmallQuotient(x: nat, m: nat, n: nat)
    requires x < Pow2(m + n)
    ensures x / Pow2(m) < Pow2(n)
  {
    PowAdds(n, m);
    DivideParts(x, Pow2(m));
    if x / Pow2(m) >= Pow2(n) {
      Grows(Pow2(n), x / Pow2(m), Pow2(m));
      assert false;
    }
  }

  /** Dividing by a product is dividing twice. */
  lemma DivideTwice(x: nat, a: nat, b: nat)
    requires a > 0 && b > 0
    ensures x / (b * a) == x / a / b
  {
    var p, r := x / a, x % a;
    var q, s := p / b, p % b;
    DivideParts(x, a);
    DivideParts(p, b);
    Distributes(q * b, s, a);
    Associates(q, b, a);
    Grows(s + 1, b, a);
    Distributes(s, 1, a);
    DivideIs(x, b * a, q, s * a + r);
  }

  // ---------- the value of a list ----------

  lemma {:induction false} ValueFits(fs: seq<Field>)
    requires InRange(fs)
    ensures Value(fs) < Pow2(Width(fs))
  {
    if fs != [] {
      ValueFits(fs[1..]);
      var w, v := Width(fs[1..]), fs[0].value;
      PowAdds(fs[0].width, w);
      Grows(v + 1, Pow2(fs[0].width), Pow2(w));
      Distributes(v, 1, Pow2(w));
    }
  }

  lemma PrependedWidth(f: Field, fs: seq<Field>)
    ensures Width([f] + fs) == f.width + Width(fs)
  {
    assert ([f] + fs)[1..] == fs;
  }

  lemma Prepended(f: Field, fs: seq<Field>)
    ensures Width([f] + fs) == f.width + Width(fs)
    ensures Value([f] + fs) == f.value * Pow2(Width(fs)) + Value(fs)
  {
    assert ([f] + fs)[1..] == fs;
  }

  /** The fields before the last ones only add a multiple. */
  lemma {:induction false} LowFields(fs: seq<Field>, i: nat, n: nat)
    requires i <= |fs| && n <= Width(fs[i..])
    ensures Width(fs[i..]) <= Width(fs)
    ensures Value(fs) % Pow2(n) == Value(fs[i..]) % Pow2(n)
    decreases i
  {
    if i > 0 {
      assert fs[1..][i - 1..] == fs[i..];
      LowFields(fs[1..], i - 1, n);
      DivideShifted(fs[0].value, Width(fs[1..]), Value(fs[1..]), n);
    } else {
      assert fs[0..] == fs;
    }
  }

  // ---------- shift_right ----------

  /** The fields of `tail`, shifted right: `taken` bits are gone. */
  ghost predicate ShiftedRight(result: seq<Field>, tail: seq<Field>, taken: nat) {
    && taken <= Width(tail) && Width(result) == Width(tail) - taken
    && Value(result) == Value(tail) / Pow2(taken) && InRange(result)
  }

  /** Once all bits have been shifted out, the rest stays as it is. */
  lemma KeepField(result: seq<Field>, tail: seq<Field>, taken: nat, f: Field)
    requires ShiftedRight(result, tail, taken) && f.value < Pow2(f.width)
    ensures ShiftedRight([f] + result, [f] + tail, taken)
  {
    Prepended(f, result);
    Prepended(f, tail);
    DivideShifted(f.value, Width(tail), Value(tail), taken);
  }

  /** Before that, a field loses low bits, or is gone altogether. */
  lemma CutField(tail: seq<Field>, f: Field, bits: nat)
    requires InRange(tail) && f.value < Pow2(f.width) && bits <= f.width
    ensures ShiftedRight(if bits < f.width then [Slice(f, bits, f.width - bits)] else [], [f] + tail,
                         Width(tail) + bits)
  {
    var rest: nat := f.width - bits;
    SmallQuotient(f.value, bits, rest);
    CutValue(f, bits, f.value / Pow2(bits));
    PrependedWidth(f, tail);
    CutQuotient(tail, f, bits);
  }

  lemma CutQuotient(tail: seq<Field>, f: Field, bits: nat)
    requires InRange(tail)
    ensures Value([f] + tail) / Pow2(Width(tail) + bits) == f.value / Pow2(bits)
  {
    Prepended(f, tail);
    ValueFits(tail);
    CutNumber(f.value, Width(tail), Value(tail), bits);
  }

  lemma CutNumber(v: nat, w: nat, y: nat, bits: nat)
    requires y < Pow2(w)
    ensures (v * Pow2(w) + y) / Pow2(w + bits) == v / Pow2(bits)
  {
    PowAdds(bits, w);
    assert bits + w == w + bits;
    DivideIs(v * Pow2(w) + y, Pow2(w), v, y);
    DivideTwice(v * Pow2(w) + y, Pow2(w), Pow2(bits));
  }

  lemma CutValue(f: Field, bits: nat, q: nat)
    requires bits <= f.width && q == f.value / Pow2(bits) < Pow2(f.width - bits)
    ensures var cut := if bits < f.width then [Slice(f, bits, f.width - bits)] else [];
      Width(cut) == f.width - bits && Value(cut) == q && InRange(cut)
  {
    if bits < f.width {
      DivideIs(q, Pow2(f.width - bits), 0, q);
      Prepended(Slice(f, bits, f.width - bits), []);
      assert [Slice(f, bits, f.width - bits)] + [] == [Slice(f, bits, f.width - bits)];
    }
  }

  /** The loop of `shift_right`, then the stuffing bits. The stuffing in between is never added. */
  method ShiftRight(fs: seq<Field>, nbits: nat) returns (result: seq<Field>)
    requires InRange(fs)
    ensures InRange(result) && Width(result) == Width(fs) && Value(result) == Value(fs) / Pow2(nbits)
  {
    result := [];
    var bitsToGo: nat, bitsDone: nat := nbits, 0;
    var i: nat := |fs|;
    while i > 0
      invariant 0 <= i <= |fs| && bitsDone == Width(result) && Shifting(fs, i, result, nbits, bitsToGo)
    {
      i := i - 1;
      var sub := fs[i];
      if bitsToGo != 0 {
        var bits := if bitsToGo < sub.width then bitsToGo else sub.width;
        CutNext(fs, i, result, nbits, bitsToGo, bits);
        if sub.width > bits {
          result := [Slice(sub, bits, sub.width - bits)] + result;
          bitsDone := bitsDone + (sub.width - bits);
        }
        bitsToGo := bitsToGo - bits;
      } else {
        KeepNext(fs, i, result, nbits);
        result := [sub] + result;
        bitsDone := bitsDone + sub.width;
      }
    }
    assert fs[0..] == fs;
    assert result == [] || bitsToGo == 0;
    ShiftedOut(fs, nbits, bitsToGo);
    if bitsDone < Width(fs) {
      Prepended(Zeros(Width(fs) - bitsDone), result);
      result := [Zeros(Width(fs) - bitsDone)] + result;
    }
  }

  /** The loop has worked on the fields from `i` on. */
  ghost predicate Shifting(fs: seq<Field>, i: nat, result: seq<Field>, nbits: nat, bitsToGo: nat) {
    && i <= |fs| && bitsToGo <= nbits && ShiftedRight(result, fs[i..], nbits - bitsToGo)
    && (bitsToGo > 0 ==> result == [] && nbits - bitsToGo == Width(fs[i..]))
  }

  lemma CutNext(fs: seq<Field>, i: nat, result: seq<Field>, nbits: nat, bitsToGo: nat, bits: nat)
    requires InRange(fs) && i < |fs| && Shifting(fs, i + 1, result, nbits, bitsToGo) && bitsToGo > 0
    requires bits == if bitsToGo < fs[i].width then bitsToGo else fs[i].width
    ensures var cut := if bits < fs[i].width then [Slice(fs[i], bits, fs[i].width - bits)] + result else result;
      Shifting(fs, i, cut, nbits, bitsToGo - bits)
    ensures bits < fs[i].width ==> Width([Slice(fs[i], bits, fs[i].width - bits)] + result) == fs[i].width - bits
  {
    var tail := fs[i + 1..];
    assert fs[i..] == [fs[i]] + tail;
    PrependedWidth(fs[i], tail);
    CutField(tail, fs[i], bits);
    if bits < fs[i].width {
      var cut := Slice(fs[i], bits, fs[i].width - bits);
      assert [cut] + result == [cut];
      PrependedWidth(cut, result);
    }
  }

  lemma KeepNext(fs: seq<Field>, i: nat, result: seq<Field>, nbits: nat)
    requires InRange(fs) && i < |fs| && Shifting(fs, i + 1, result, nbits, 0)
    ensures Shifting(fs, i, [fs[i]] + result, nbits, 0) && Width([fs[i]] + result) == fs[i].width + Width(result)
  {
    assert fs[i..] == [fs[i]] + fs[i + 1..];
    KeepField(result, fs[i + 1..], nbits, fs[i]);
    PrependedWidth(fs[i], result);
  }

  /** Shifting by more bits than there are gives zero as shifting by all of them does. */
  lemma ShiftedOut(fs: seq<Field>, nbits: nat, left: nat)
    requires InRange(fs) && left <= nbits && nbits - left <= Width(fs)
    requires left > 0 ==> nbits - left == Width(fs)
    ensures Value(fs) / Pow2(nbits - left) == Value(fs) / Pow2(nbits)
  {
    if left > 0 {
      ValueFits(fs);
      PowAdds(left, nbits - left);
      Grows(1, Pow2(left), Pow2(nbits - left));
      DivideIs(Value(fs), Pow2(nbits - left), 0, Value(fs));
      DivideIs(Value(fs), Pow2(nbits), 0, Value(fs));
    }
  }

  // ---------- truncate ----------

  /** A list of the lowest `n` bits of `tail`. */
  ghost predicate Lowest(result: seq<Field>, tail: seq<Field>, n: nat) {
    n <= Width(tail) && Width(result) == n && Value(result) == Value(tail) % Pow2(n) && InRange(result)
  }

  lemma LowestOfAll(tail: seq<Field>)
    requires InRange(tail)
    ensures Lowest(tail, tail, Width(tail))
  {
    ValueFits(tail);
    DivideIs(Value(tail), Pow2(Width(tail)), 0, Value(tail));
  }

  /** All of `tail` and some low bits of the field before it. */
  lemma LowestCut(tail: seq<Field>, f: Field, bits: nat)
    requires InRange(tail) && bits <= f.width
    ensures Lowest([Slice(f, 0, bits)] + tail, [f] + tail, bits + Width(tail))
  {
    PrependedWidth(f, tail);
    PrependedWidth(Slice(f, 0, bits), tail);
    LowestCutValue(tail, f, bits);
    DivideParts(f.value / Pow2(0), Pow2(bits));
  }

  lemma LowestCutValue(tail: seq<Field>, f: Field, bits: nat)
    requires InRange(tail)
    ensures Value([Slice(f, 0, bits)] + tail) == Value([f] + tail) % Pow2(bits + Width(tail))
  {
    Prepended(f, tail);
    Prepended(Slice(f, 0, bits), tail);
    ValueFits(tail);
    LowNumber(f.value, Width(tail), Value(tail), bits);
    assert f.value / Pow2(0) == f.value;
  }

  lemma LowNumber(v: nat, w: nat, y: nat, bits: nat)
    requires y < Pow2(w)
    ensures (v * Pow2(w) + y) % Pow2(bits + w) == v % Pow2(bits) * Pow2(w) + y
  {
    PowAdds(bits, w);
    LowPart(v, Pow2(w), y, Pow2(bits));
  }

  lemma LowPart(v: nat, u: nat, y: nat, d: nat)
    requires y < u && d > 0
    ensures (v * u + y) % (d * u) == v % d * u + y
  {
    var q, r := v / d, v % d;
    DivideParts(v, d);
    Distributes(q * d, r, u);
    Associates(q, d, u);
    Grows(r + 1, d, u);
    Distributes(r, 1, u);
    DivideIs(v * u + y, d * u, q, r * u + y);
  }

  /** The fields `truncate` collects, before it simplifies them. */
  method Truncate(fs: seq<Field>, n: nat) returns (result: seq<Field>)
    requires InRange(fs)
    ensures InRange(result) && Width(result) == (if n < Width(fs) then n else Width(fs))
    ensures Value(result) == Value(fs) % Pow2(n)
  {
    if n >= Width(fs) {
      result := fs;
      TruncatesNothing(fs, n);
      return;
    }
    result := [];
    var nbits: nat, i: nat := n, |fs|;
    while i > 0
      invariant 0 <= i <= |fs| && result == fs[i..] && nbits <= n && n - nbits == Width(result) && n < Width(fs)
    {
      i := i - 1;
      var sub := fs[i];
      assert fs[i..] == [sub] + fs[i + 1..];
      Prepended(sub, fs[i + 1..]);
      if nbits < sub.width {
        LowestCut(result, sub, nbits);
        LowFields(fs, i, n);
        result := [Slice(sub, 0, nbits)] + result;
        return;
      }
      result := [sub] + result;
      nbits := nbits - sub.width;
    }
    assert false;
  }

  lemma TruncatesNothing(fs: seq<Field>, n: nat)
    requires InRange(fs) && n >= Width(fs)
    ensures Value(fs) == Value(fs) % Pow2(n)
  {
    ValueFits(fs);
    PowGrows(Width(fs), n);
    BelowDivisor(Value(fs), Pow2(n));
  }

  // ---------- shift_left ----------

  /** A list with zeros put below it. */
  lemma {:induction false} Appended(fs: seq<Field>, n: nat)
    ensures Width(fs + [Zeros(n)]) == Width(fs) + n
    ensures Value(fs + [Zeros(n)]) == Value(fs) * Pow2(n)
  {
    if fs == [] {
      assert fs + [Zeros(n)] == [Zeros(n)];
    } else {
      Appended(fs[1..], n);
      assert fs + [Zeros(n)] == [fs[0]] + (fs[1..] + [Zeros(n)]);
      Prepended(fs[0], fs[1..] + [Zeros(n)]);
      PowAdds(Width(fs[1..]), n);
      Associates(fs[0].value, Pow2(Width(fs[1..])), Pow2(n));
      Distributes(fs[0].value * Pow2(Width(fs[1..])), Value(fs[1..]), Pow2(n));
    }
  }

  /** The difference of two size_t. */
  function WrappedDifference(a: nat, b: nat): (r: nat)
    requires a < SIZE_T && b < SIZE_T
    ensures r == if b <= a then a - b else SIZE_T + a - b
  {
    (SIZE_T + a - b) % SIZE_T
  }

  /** `shift_left`. The number of bits that remain is a size_t: it wraps around when more bits are
      shifted than there are, and then nothing is cut off. */
  method ShiftLeft(fs: seq<Field>, nbits: nat) returns (result: seq<Field>)
    requires InRange(fs) && Width(fs) < SIZE_T && nbits < SIZE_T
    ensures InRange(result)
    ensures nbits <= Width(fs) ==>
      Width(result) == Width(fs) && Value(result) == Value(fs) * Pow2(nbits) % Pow2(Width(fs))
    ensures nbits > Width(fs) ==> Width(result) == Width(fs) + nbits && Value(result) == Value(fs) * Pow2(nbits)
  {
    var avail := WrappedDifference(Width(fs), nbits);
    ghost var kept: seq<Field> := [];
    result := [Zeros(nbits)];
    var bitsToGo: nat, i: nat := avail, |fs|;
    while i > 0 && bitsToGo != 0
      invariant 0 <= i <= |fs| && result == kept + [Zeros(nbits)] && Keeping(fs, i, kept, avail, bitsToGo)
    {
      i := i - 1;
      var sub := fs[i];
      var bits := if bitsToGo < sub.width then bitsToGo else sub.width;
      var part := if sub.width <= bits then sub else Slice(sub, 0, bits);
      KeepPart(fs, i, kept, avail, bitsToGo, bits);
      result, kept := [part] + result, [part] + kept;
      bitsToGo := bitsToGo - bits;
    }
    KeptIsLowest(fs, i, kept, avail, bitsToGo);
    if nbits <= Width(fs) {
      ShiftedUp(fs, kept, nbits, avail);
    } else {
      Appended(kept, nbits);
    }
  }

  /** Of the fields from `i` on, all are kept, or as many bits as there is room for. */
  ghost predicate Keeping(fs: seq<Field>, i: nat, kept: seq<Field>, avail: nat, bitsToGo: nat) {
    && i <= |fs| && bitsToGo <= avail
    && if Width(fs[i..]) <= avail then kept == fs[i..] && avail - bitsToGo == Width(kept)
       else bitsToGo == 0 && Lowest(kept, fs[i..], avail)
  }

  lemma KeepPart(fs: seq<Field>, i: nat, kept: seq<Field>, avail: nat, bitsToGo: nat, bits: nat)
    requires InRange(fs) && i < |fs| && Keeping(fs, i + 1, kept, avail, bitsToGo) && bitsToGo > 0
    requires bits == if bitsToGo < fs[i].width then bitsToGo else fs[i].width
    ensures var part := if fs[i].width <= bits then fs[i] else Slice(fs[i], 0, bits);
      Keeping(fs, i, [part] + kept, avail, bitsToGo - bits)
  {
    assert fs[i..] == [fs[i]] + fs[i + 1..];
    PrependedWidth(fs[i], fs[i + 1..]);
    if fs[i].width > bits {
      LowestCut(kept, fs[i], bits);
    }
  }

  /** What the loop has kept are the lowest bits of the whole list. */
  lemma KeptIsLowest(fs: seq<Field>, i: nat, kept: seq<Field>, avail: nat, bitsToGo: nat)
    requires InRange(fs) && Keeping(fs, i, kept, avail, bitsToGo) && (i == 0 || bitsToGo == 0)
    ensures InRange(kept)
    ensures avail <= Width(fs) ==> Width(kept) == avail && Value(kept) == Value(fs) % Pow2(avail)
    ensures avail > Width(fs) ==> kept == fs
  {
    assert fs[0..] == fs;
    LowFields(fs, i, 0);
    if avail <= Width(fs) {
      if Width(fs[i..]) <= avail {
        LowestOfAll(kept);
      }
      LowFields(fs, i, avail);
    }
  }

  lemma ShiftedUp(fs: seq<Field>, kept: seq<Field>, nbits: nat, avail: nat)
    requires InRange(kept) && nbits <= Width(fs) && avail == Width(fs) - nbits
    requires Width(kept) == avail && Value(kept) == Value(fs) % Pow2(avail)
    ensures InRange(kept + [Zeros(nbits)]) && Width(kept + [Zeros(nbits)]) == Width(fs)
    ensures Value(kept + [Zeros(nbits)]) == Value(fs) * Pow2(nbits) % Pow2(Width(fs))
  {
    ShiftedMod(Value(fs), Width(fs), nbits);
    Appended(kept, nbits);
  }

  lemma ShiftedMod(v: nat, w: nat, n: nat)
    requires n <= w
    ensures v % Pow2(w - n) * Pow2(n) == v * Pow2(n) % Pow2(w)
  {
    LowNumber(v, n, 0, w - n);
  }

  // ---------- ilog2 ----------

  /** The position of the highest bit. */
  method Ilog2(n: bv64) returns (i: bv64)
    ensures n == 0 ==> i == 0
    ensures n != 0 ==> i < 64 && n >> i == 1
  {
    var m := n;
    i := 0;
    if m & 0xFFFF_FFFF_0000_0000 != 0 { i, m := 32, m >> 32; }
    if m & 0xFFFF_0000 != 0 { i, m := i | 16, m >> 16; }
    if m & 0xFF00 != 0 { i, m := i | 8, m >> 8; }
    if m & 0xF0 != 0 { i, m := i | 4, m >> 4; }
    if m & 0xC != 0 { i, m := i | 2, m >> 2; }
    i := i | (m >> 1);
  }

  // ---------- bit by bit ----------

  /** Bit `k` of a number, counted from the right, by halving. */
  function Bit(x: nat, k: nat): bool {
    if k == 0 then x % 2 == 1 else Bit(x / 2, k - 1)
  }

  lemma {:induction false} BitOfQuotient(x: nat, n: nat, k: nat)
    ensures Bit(Quotient(x, Pow2(n)), k) == Bit(x, n + k)
    decreases n
  {
    if n > 0 {
      HalfFirst(x, Pow2(n - 1));
      BitOfQuotient(x / 2, n - 1, k);
    }
  }

  lemma HalfFirst(x: nat, d: nat)
    requires d > 0
    ensures Quotient(x, 2 * d) == Quotient(x / 2, d)
  {
    DivideTwice(x, 2, d);
  }

  lemma RemainderHalves(x: nat, d: nat)
    requires d > 0
    ensures Remainder(x, 2 * d) / 2 == Remainder(x / 2, d) && Remainder(x, 2 * d) % 2 == x % 2
  {
    var q, r := x / 2 / d, x / 2 % d;
    DivideParts(x / 2, d);
    Associates(q, 2, d);
    DivideIs(x, 2 * d, q, 2 * r + x % 2);
  }

  lemma {:induction false} BitOfRemainder(x: nat, n: nat, k: nat)
    ensures Bit(Remainder(x, Pow2(n)), k) == (k < n && Bit(x, k))
    decreases n
  {
    if n == 0 {
      BitOfZero(k);
    } else {
      RemainderHalves(x, Pow2(n - 1));
      if k > 0 {
        BitOfRemainder(x / 2, n - 1, k - 1);
      }
    }
  }

  lemma {:induction false} BitOfZero(k: nat)
    ensures !Bit(0, k)
  {
    if k > 0 {
      BitOfZero(k - 1);
    }
  }

  lemma {:induction false} BitOfProduct(x: nat, n: nat, k: nat)
    ensures Bit(x * Pow2(n), k) == (n <= k && Bit(x, k - n))
    decreases n
  {
    if n > 0 {
      Associates(x, 2, Pow2(n - 1));
      Associates(2, x, Pow2(n - 1));
      assert x * Pow2(n) == 2 * (x * Pow2(n - 1));
      if k > 0 {
        BitOfProduct(x, n - 1, k - 1);
      }
    }
  }

  /** A slice has the bits of the field it is cut from. */
  lemma SliceBits(f: Field, from: nat, count: nat, k: nat)
    ensures Bit(Slice(f, from, count).value, k) == (k < count && Bit(f.value, from + k))
  {
    var q := Quotient(f.value, Pow2(from));
    SliceIs(f, from, count);
    BitOfRemainder(q, count, k);
    BitOfQuotient(f.value, from, k);
  }

  lemma SliceIs(f: Field, from: nat, count: nat)
    ensures Slice(f, from, count).value == Remainder(Quotient(f.value, Pow2(from)), Pow2(count))
  {
  }

  /** What the shifts and the truncation make of a list, bit by bit: shifting right moves every
      bit down, shifting left moves it up and drops what leaves the width, and truncating keeps
      the lowest bits. */
  lemma ShiftedBits(v: nat, width: nat, n: nat, k: nat)
    ensures Bit(Quotient(v, Pow2(n)), k) == Bit(v, k + n)
    ensures Bit(Remainder(v * Pow2(n), Pow2(width)), k) == (n <= k < width && Bit(v, k - n))
    ensures Bit(Remainder(v, Pow2(n)), k) == (k < n && Bit(v, k))
  {
    BitOfQuotient(v, n, k);
    BitOfRemainder(v * Pow2(n), width, k);
    BitOfProduct(v, n, k);
    BitOfRemainder(v, n, k);
  }

  /** The bits of a list are those of its fields, the last one lowest. */
  lemma {:induction false} ValueBits(fs: seq<Field>, k: nat)
    requires InRange(fs) && fs != []
    ensures var low := fs[|fs| - 1];
      Bit(Value(fs), k) == if k < low.width then Bit(low.value, k) else Bit(Value(fs[..|fs| - 1]), k - low.width)
    decreases |fs|
  {
    var n := |fs| - 1;
    var low := fs[n];
    AppendedValue(fs[..n], low);
    assert fs == fs[..n] + [low];
    var v, u := Value(fs[..n]), Pow2(low.width);
    assert low.value < u;
    DivideIs(v * u + low.value, u, v, low.value);
    if k < low.width {
      BitOfRemainder(Value(fs), low.width, k);
    } else {
      BitOfQuotient(Value(fs), low.width, k - low.width);
    }
  }

  lemma {:induction false} AppendedValue(fs: seq<Field>, f: Field)
    ensures Value(fs + [f]) == Value(fs) * Pow2(f.width) + f.value
    decreases |fs|
  {
    if fs == [] {
      assert fs + [f] == [f];
    } else {
      assert (fs + [f])[1..] == fs[1..] + [f];
      AppendedValue(fs[1..], f);
      AppendedWidth(fs[1..], f);
      PowAdds(Width(fs[1..]), f.width);
      Associates(fs[0].value, Pow2(Width(fs[1..])), Pow2(f.width));
      Distributes(fs[0].value * Pow2(Width(fs[1..])), Value(fs[1..]), Pow2(f.width));
    }
  }

  lemma {:induction false} AppendedWidth(fs: seq<Field>, f: Field)
    ensures Width(fs + [f]) == Width(fs) + f.width
    decreases |fs|
  {
    if fs == [] {
      assert fs + [f] == [f];
    } else {
      assert (fs + [f])[1..] == fs[1..] + [f];
      AppendedWidth(fs[1..], f);
    }
  }
}
