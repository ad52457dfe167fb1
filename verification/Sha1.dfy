/** The SHA-1 used to key the entry cache (`libcpu/sha1.cpp`) against FIPS PUB 180-1. */
module Sha1Spec {
  type Word = bv32
  type Byte = bv8

  /** The working registers A to E, and the chaining value H0 to H4. */
  datatype Regs = Regs(a: Word, b: Word, c: Word, d: Word, e: Word)

  // ---------- section 3 to 6 of FIPS PUB 180-1 ----------

  function Rol(x: Word, n: Word): Word
    requires n <= 32
  {
    (x << n) | (x >> (32 - n))
  }

  function F(t: nat, b: Word, c: Word, d: Word): Word {
    if t < 20 then (b & c) | (!b & d)
    else if t < 40 then b ^ c ^ d
    else if t < 60 then (b & c) | (b & d) | (c & d)
    else b ^ c ^ d
  }

  function K(t: nat): Word {
    if t < 20 then 0x5A827999 else if t < 40 then 0x6ED9EBA1 else if t < 60 then 0x8F1BBCDC else 0xCA62C1D6
  }

  const H0: Regs := Regs(0x67452301, 0xEFCDAB89, 0x98BADCFE, 0x10325476, 0xC3D2E1F0)

  /** Section 4: the message, a one bit, zeros, and the length in bits as a 64-bit word. */
  function Pad(m: seq<Byte>): (r: seq<Byte>)
    ensures |r| % 64 == 0
  {
    m + [0x80] + seq(PadZeros(|m|), _ => 0) + Length64(8 * |m|)
  }

  /** As many zeros as it takes to come out eight bytes short of a whole number of blocks. */
  function PadZeros(n: nat): (k: nat)
    ensures (n + 9 + k) % 64 == 0 && k < 64
  {
    if n % 64 <= 55 then 55 - n % 64 else 119 - n % 64
  }

  /** A 64-bit number as two words, the high one first, each as four bytes. */
  function Length64(n: nat): (r: seq<Byte>)
    ensures |r| == 8
  {
    seq(8, i requires 0 <= i < 8 => ByteOf(if i >= 4 then n % 4294967296 else n / 4294967296, i % 4))
  }

  /** The `k`th byte of a 32-bit number, the most significant first. */
  function ByteOf(n: nat, k: nat): Byte
    requires k < 4
  {
    ByteValue(n, k) as Byte
  }

  function ByteValue(n: nat, k: nat): (v: nat)
    requires k < 4
    ensures v < 256
  {
    (if k == 0 then n / 16777216 else if k == 1 then n / 65536 else if k == 2 then n / 256 else n) % 256
  }

  /** Section 7, step a: the words of a block, the most significant byte of each first. */
  function BigWord(b0: Byte, b1: Byte, b2: Byte, b3: Byte): Word {
    ((b0 as Word) << 24) | ((b1 as Word) << 16) | ((b2 as Word) << 8) | (b3 as Word)
  }

  function Words(block: seq<Byte>): (w: seq<Word>)
    requires |block| == 64
    ensures |w| == 16
  {
    seq(16, i requires 0 <= i < 16 => BigWord(block[4 * i], block[4 * i + 1], block[4 * i + 2], block[4 * i + 3]))
  }

  /** Step b: the sequence of 80 words. */
  function W(w: seq<Word>, t: nat): Word
    requires |w| == 16
  {
    if t < 16 then w[t] else Rol(W(w, t - 3) ^ W(w, t - 8) ^ W(w, t - 14) ^ W(w, t - 16), 1)
  }

  /** Step d. */
  function Round(r: Regs, t: nat, w: Word): Regs {
    RoundWith(r, F(t, r.b, r.c, r.d), w, K(t))
  }

  function RoundWith(r: Regs, f: Word, w: Word, k: Word): Regs {
    Regs(Sum(Rol(r.a, 5), f, r.e, w, k), r.a, Rol(r.b, 30), r.c, r.d)
  }

  function Sum(rotated: Word, f: Word, e: Word, w: Word, k: Word): Word {
    rotated + f + e + w + k
  }

  function Rounds(h: Regs, w: seq<Word>, t: nat): Regs
    requires |w| == 16
  {
    if t == 0 then h else Round(Rounds(h, w, t - 1), t - 1, W(w, t - 1))
  }

  /** Steps c and e. */
  function Add(h: Regs, r: Regs): Regs {
    Regs(h.a + r.a, h.b + r.b, h.c + r.c, h.d + r.d, h.e + r.e)
  }

  /** Five rounds for each of the sixteen words, 80 in all. */
  function RoundCount(w: seq<Word>): nat {
    5 * |w|
  }

  function Compress(h: Regs, block: seq<Byte>): Regs
    requires |block| == 64
  {
    var w := Words(block);
    Add(h, Rounds(h, w, RoundCount(w)))
  }

  /** The chaining value after all blocks of `m`. */
  function Chain(m: seq<Byte>): Regs
    requires |m| % 64 == 0
  {
    if m == [] then H0 else Compress(Chain(m[..|m| - 64]), m[|m| - 64..])
  }

  function WordByte(w: Word, k: nat): Byte
    requires k < 4
  {
    LowByte(if k == 0 then w >> 24 else if k == 1 then w >> 16 else if k == 2 then w >> 8 else w)
  }

  function LowByte(w: Word): Byte {
    (w & 255) as Byte
  }

  function RegsSeq(r: Regs): seq<Word> {
    [r.a, r.b, r.c, r.d, r.e]
  }

  /** The message digest: the 160 bits of H0 to H4. */
  function Digest(m: seq<Byte>): (d: seq<Byte>)
    ensures |d| == 20
  {
    var h := RegsSeq(Chain(Pad(m)));
    seq(20, i requires 0 <= i < 20 => WordByte(h[i / 4], i % 4))
  }
}

module Sha1 {
  import opened Sha1Spec
  import Arithmetic

  const TWO_32: nat := 0x1_0000_0000
  const TWO_64: nat := 0x1_0000_0000_0000_0000

  // ---------- masks and shifts of numbers ----------

  /** `x & y`, bit by bit. */
  function And(x: nat, y: nat): (r: nat)
    ensures r <= y
  {
    if x == 0 || y == 0 then 0 else 2 * And(x / 2, y / 2) + if x % 2 == 1 && y % 2 == 1 then 1 else 0
  }

  /** `x >> n`. */
  function Shr(x: nat, n: nat): nat {
    if n == 0 then x else Shr(x / 2, n - 1)
  }

  predicate IsPowerOf2(p: nat) {
    p == 1 || (p > 1 && p % 2 == 0 && IsPowerOf2(p / 2))
  }

  lemma ModHalves(x: nat, h: nat)
    requires h > 0
    ensures x % (2 * h) == 2 * (x / 2 % h) + x % 2
  {
    var q, r := x / 2 / h, x / 2 % h;
    Arithmetic.DivideParts(x / 2, h);
    Arithmetic.Associates(q, 2, h);
    Arithmetic.DivideIs(x, 2 * h, q, 2 * r + x % 2);
  }

  /** Masking with ones takes the remainder. */
  lemma {:induction false} AndOnes(x: nat, p: nat)
    requires IsPowerOf2(p)
    ensures And(x, p - 1) == x % p
    decreases p
  {
    if p > 1 {
      AndOnes(x / 2, p / 2);
      ModHalves(x, p / 2);
    }
  }

  lemma AndEven(x: nat, y: nat)
    ensures And(x, 2 * y) == 2 * And(x / 2, y)
  {
    var z := 2 * y;
    assert z % 2 == 0 && z / 2 == y;
    assert And(x, z) == if x == 0 || z == 0 then 0 else 2 * And(x / 2, y);
  }

  /** 504 is 63, three bits further up. */
  lemma And504(x: nat)
    ensures And(x, 504) == 8 * (x / 8 % 64)
  {
    AndEven(x, 252);
    AndEven(x / 2, 126);
    AndEven(x / 4, 63);
    AndOnes(x / 8, 64);
  }

  lemma Shr2(x: nat)
    ensures Shr(x, 2) == x / 4
  {
    assert Shr(x / 2, 1) == Shr(x / 4, 0);
  }

  lemma {:induction false} ShrAdds(x: nat, m: nat, n: nat)
    ensures Shr(x, m + n) == Shr(Shr(x, m), n)
    decreases m
  {
    if m > 0 {
      ShrAdds(x / 2, m - 1, n);
    }
  }

  lemma Shr8(x: nat)
    ensures Shr(x, 8) == x / 256
  {
    ShrAdds(x, 2, 6);
    Shr2(x);
    ShrAdds(x / 4, 2, 4);
    Shr2(x / 4);
    ShrAdds(x / 16, 2, 2);
    Shr2(x / 16);
    Shr2(x / 64);
  }

  lemma Shr16(x: nat)
    ensures Shr(x, 16) == x / 65536
  {
    ShrAdds(x, 8, 8);
    Shr8(x);
    Shr8(x / 256);
  }

  lemma Shr24(x: nat)
    ensures Shr(x, 24) == x / 16777216
  {
    ShrAdds(x, 16, 8);
    Shr16(x);
    Shr8(x / 65536);
  }

  /** Shifting and masking picks a byte of a number. */
  lemma PicksByteOf(n: nat, k: nat, shifted: nat)
    requires k < 4 && shifted == Shr(n, (3 - k) * 8)
    ensures And(shifted, 255) == ByteValue(n, k)
  {
    AndOnes(shifted, 256);
    if k == 0 {
      Shr24(n);
    } else if k == 1 {
      Shr16(n);
    } else if k == 2 {
      Shr8(n);
    }
  }

  /** `w >> n`, by a whole number of bytes. */
  function ShrWord(w: Word, n: nat): Word
    requires n in {0, 8, 16, 24}
  {
    if n == 24 then w >> 24 else if n == 16 then w >> 16 else if n == 8 then w >> 8 else w
  }

  // ---------- one block ----------

  /** A word as the host loads it from the byte array. */
  function HostWord(big: bool, b0: Byte, b1: Byte, b2: Byte, b3: Byte): Word {
    if big then BigWord(b0, b1, b2, b3) else BigWord(b3, b2, b1, b0)
  }

  function HostWords(big: bool, block: seq<Byte>): (w: seq<Word>)
    requires |block| == 64
    ensures |w| == 16
  {
    seq(16, i requires 0 <= i < 16 => HostWord(big, block[4 * i], block[4 * i + 1], block[4 * i + 2], block[4 * i + 3]))
  }

  function Swapped(x: Word): Word {
    (Rol(x, 24) & 0xFF00FF00) | (Rol(x, 8) & 0x00FF00FF)
  }

  lemma SwapIsBig(b0: Byte, b1: Byte, b2: Byte, b3: Byte)
    ensures Swapped(BigWord(b3, b2, b1, b0)) == BigWord(b0, b1, b2, b3)
  {
    SwapBytes(b0 as Word, b1 as Word, b2 as Word, b3 as Word);
  }

  lemma SwapBytes(b0: Word, b1: Word, b2: Word, b3: Word)
    requires b0 < 256 && b1 < 256 && b2 < 256 && b3 < 256
    ensures Swapped((b3 << 24) | (b2 << 16) | (b1 << 8) | b0) == (b0 << 24) | (b1 << 16) | (b2 << 8) | b3
  {
  }

  lemma ChoiceForm(w: Word, x: Word, y: Word)
    ensures (w & (x ^ y)) ^ y == (w & x) | (!w & y)
  {
  }

  lemma MajorityForm(w: Word, x: Word, y: Word)
    ensures ((w | x) & y) | (w & x) == (w & x) | (w & y) | (x & y)
  {
  }

  /** What a round makes of the last register, in the order the macros add things up. */
  function Mixed(z: Word, f: Word, w: Word, k: Word, rotated: Word): Word {
    z + (f + w + k + rotated)
  }

  lemma MixedIsSum(z: Word, f: Word, w: Word, k: Word, rotated: Word)
    ensures Mixed(z, f, w, k, rotated) == Sum(rotated, f, z, w, k)
  {
    assert Mixed(z, f, w, k, rotated) == z + f + w + k + rotated;
    assert Sum(rotated, f, z, w, k) == z + f + w + k + rotated;
  }

  /** The message schedule in sixteen words, before round `t`: each slot holds the last word
      computed for it, or, in the first sixteen rounds, still what the host loaded. */
  ghost predicate Scheduled(block: seq<Word>, w: seq<Word>, host: seq<Word>, t: nat) {
    && |block| == |w| == |host| == 16
    && (t <= 16 ==> forall k | 0 <= k < 16 :: block[k] == if k < t then W(w, k) else host[k])
    && (t > 16 ==> forall k: nat | t - 16 <= k < t :: block[k % 16] == W(w, k))
  }

  /** All rounds so far have been done right. */
  ghost predicate At(block: seq<Word>, h: Regs, w: seq<Word>, host: seq<Word>, t: nat, r: Regs) {
    Scheduled(block, w, host, t) && r == Rounds(h, w, t)
  }

  /** `host` is what memcpy leaves in the block for the words `w`. */
  ghost predicate Loaded(big: bool, host: seq<Word>, w: seq<Word>) {
    |host| == |w| == 16 && forall k | 0 <= k < 16 :: w[k] == if big then host[k] else Swapped(host[k])
  }

  lemma LoadedBlock(big: bool, bytes: seq<Byte>)
    requires |bytes| == 64
    ensures Loaded(big, HostWords(big, bytes), Words(bytes))
  {
    forall i | 0 <= i < 16
      ensures Words(bytes)[i] == if big then HostWords(big, bytes)[i] else Swapped(HostWords(big, bytes)[i])
    {
      LoadedWord(big, bytes[4 * i], bytes[4 * i + 1], bytes[4 * i + 2], bytes[4 * i + 3]);
    }
  }

  lemma LoadedWord(big: bool, b0: Byte, b1: Byte, b2: Byte, b3: Byte)
    ensures var w := HostWord(big, b0, b1, b2, b3);
      BigWord(b0, b1, b2, b3) == if big then w else Swapped(w)
  {
    if !big {
      SwapIsBig(b0, b1, b2, b3);
    }
  }

  method Blk0(big: bool, block: array<Word>, i: nat, ghost w: seq<Word>, ghost host: seq<Word>) returns (x: Word)
    requires block.Length == 16 && i < 16 && Loaded(big, host, w) && Scheduled(block[..], w, host, i)
    modifies block
    ensures x == W(w, i) && Scheduled(block[..], w, host, i + 1)
  {
    if big {
      x := block[i];
    } else {
      block[i] := (Rol(block[i], 24) & 0xFF00FF00) | (Rol(block[i], 8) & 0x00FF00FF);
      x := block[i];
    }
  }

  method Blk(block: array<Word>, i: nat, ghost w: seq<Word>, ghost host: seq<Word>) returns (x: Word)
    requires block.Length == 16 && 16 <= i && Scheduled(block[..], w, host, i)
    modifies block
    ensures x == W(w, i) && Scheduled(block[..], w, host, i + 1)
  {
    ghost var was := block[..];
    SlotsHold(was, w, host, i);
    block[i % 16] := Rol(block[(i + 13) % 16] ^ block[(i + 8) % 16] ^ block[(i + 2) % 16] ^ block[i % 16], 1);
    x := block[i % 16];
    assert block[..] == was[i % 16 := x];
    NextSlot(was, w, host, i, x);
  }

  lemma SlotsHold(block: seq<Word>, w: seq<Word>, host: seq<Word>, t: nat)
    requires 16 <= t && Scheduled(block, w, host, t)
    ensures block[(t + 13) % 16] == W(w, t - 3) && block[(t + 8) % 16] == W(w, t - 8)
    ensures block[(t + 2) % 16] == W(w, t - 14) && block[t % 16] == W(w, t - 16)
  {
    SlotHolds(block, w, host, t, t - 3);
    SlotHolds(block, w, host, t, t - 8);
    SlotHolds(block, w, host, t, t - 14);
    SlotHolds(block, w, host, t, t - 16);
  }

  lemma SlotHolds(block: seq<Word>, w: seq<Word>, host: seq<Word>, t: nat, k: nat)
    requires 16 <= t && t - 16 <= k < t && Scheduled(block, w, host, t)
    ensures block[(k + 16) % 16] == W(w, k)
  {
    SameSlot(k);
    if t == 16 {
      assert block[k] == W(w, k);
    }
  }

  lemma SameSlot(k: nat)
    ensures (k + 16) % 16 == k % 16 && (k < 16 ==> k % 16 == k)
  {
  }

  lemma NextSlot(block: seq<Word>, w: seq<Word>, host: seq<Word>, t: nat, x: Word)
    requires 16 <= t && Scheduled(block, w, host, t) && x == W(w, t)
    ensures Scheduled(block[t % 16 := x], w, host, t + 1)
  {
    forall k: nat | t + 1 - 16 <= k < t + 1
      ensures block[t % 16 := x][k % 16] == W(w, k)
    {
      if k < t {
        OtherSlot(k, t);
      }
    }
  }

  lemma OtherSlot(k: nat, t: nat)
    requires 16 <= t && t - 16 < k < t
    ensures k % 16 != t % 16 && (t == 16 ==> k % 16 == k)
  {
  }

  /** The five kinds of rounds. Each macro names the registers in rotated order and changes
      the last and the second. */
  method R0(big: bool, block: array<Word>, v: Word, w: Word, x: Word, y: Word, z: Word, i: nat,
            ghost h: Regs, ghost ws: seq<Word>, ghost host: seq<Word>) returns (z': Word, w': Word)
    requires block.Length == 16 && i < 16 && Loaded(big, host, ws)
    requires At(block[..], h, ws, host, i, Regs(v, w, x, y, z))
    modifies block
    ensures At(block[..], h, ws, host, i + 1, Regs(z', v, w', x, y))
  {
    var b := Blk0(big, block, i, ws, host);
    ChoiceForm(w, x, y);
    MixedIsSum(z, (w & (x ^ y)) ^ y, b, 0x5A827999, Rol(v, 5));
    z', w' := Mixed(z, (w & (x ^ y)) ^ y, b, 0x5A827999, Rol(v, 5)), Rol(w, 30);
  }

  method R1(block: array<Word>, v: Word, w: Word, x: Word, y: Word, z: Word, i: nat,
            ghost h: Regs, ghost ws: seq<Word>, ghost host: seq<Word>) returns (z': Word, w': Word)
    requires block.Length == 16 && 16 <= i < 20
    requires At(block[..], h, ws, host, i, Regs(v, w, x, y, z))
    modifies block
    ensures At(block[..], h, ws, host, i + 1, Regs(z', v, w', x, y))
  {
    var b := Blk(block, i, ws, host);
    ChoiceForm(w, x, y);
    MixedIsSum(z, (w & (x ^ y)) ^ y, b, 0x5A827999, Rol(v, 5));
    z', w' := Mixed(z, (w & (x ^ y)) ^ y, b, 0x5A827999, Rol(v, 5)), Rol(w, 30);
  }

  method R2(block: array<Word>, v: Word, w: Word, x: Word, y: Word, z: Word, i: nat,
            ghost h: Regs, ghost ws: seq<Word>, ghost host: seq<Word>) returns (z': Word, w': Word)
    requires block.Length == 16 && 20 <= i < 40
    requires At(block[..], h, ws, host, i, Regs(v, w, x, y, z))
    modifies block
    ensures At(block[..], h, ws, host, i + 1, Regs(z', v, w', x, y))
  {
    var b := Blk(block, i, ws, host);
    MixedIsSum(z, w ^ x ^ y, b, 0x6ED9EBA1, Rol(v, 5));
    z', w' := Mixed(z, w ^ x ^ y, b, 0x6ED9EBA1, Rol(v, 5)), Rol(w, 30);
  }

  method R3(block: array<Word>, v: Word, w: Word, x: Word, y: Word, z: Word, i: nat,
            ghost h: Regs, ghost ws: seq<Word>, ghost host: seq<Word>) returns (z': Word, w': Word)
    requires block.Length == 16 && 40 <= i < 60
    requires At(block[..], h, ws, host, i, Regs(v, w, x, y, z))
    modifies block
    ensures At(block[..], h, ws, host, i + 1, Regs(z', v, w', x, y))
  {
    var b := Blk(block, i, ws, host);
    MajorityForm(w, x, y);
    MixedIsSum(z, ((w | x) & y) | (w & x), b, 0x8F1BBCDC, Rol(v, 5));
    z', w' := Mixed(z, ((w | x) & y) | (w & x), b, 0x8F1BBCDC, Rol(v, 5)), Rol(w, 30);
  }

  method R4(block: array<Word>, v: Word, w: Word, x: Word, y: Word, z: Word, i: nat,
            ghost h: Regs, ghost ws: seq<Word>, ghost host: seq<Word>) returns (z': Word, w': Word)
    requires block.Length == 16 && 60 <= i < 80
    requires At(block[..], h, ws, host, i, Regs(v, w, x, y, z))
    modifies block
    ensures At(block[..], h, ws, host, i + 1, Regs(z', v, w', x, y))
  {
    var b := Blk(block, i, ws, host);
    MixedIsSum(z, w ^ x ^ y, b, 0xCA62C1D6, Rol(v, 5));
    z', w' := Mixed(z, w ^ x ^ y, b, 0xCA62C1D6, Rol(v, 5)), Rol(w, 30);
  }

  method Rounds0To4(big: bool, block: array<Word>, r: Regs, ghost h: Regs, ghost ws: seq<Word>, ghost host: seq<Word>)
    returns (r': Regs)
    requires block.Length == 16 && Loaded(big, host, ws) && At(block[..], h, ws, host, 0, r)
    modifies block
    ensures At(block[..], h, ws, host, 5, r')
  {
    var a, b, c, d, e := r.a, r.b, r.c, r.d, r.e;
    e, b := R0(big, block, a, b, c, d, e, 0, h, ws, host);
    d, a := R0(big, block, e, a, b, c, d, 1, h, ws, host);
    c, e := R0(big, block, d, e, a, b, c, 2, h, ws, host);
    b, d := R0(big, block, c, d, e, a, b, 3, h, ws, host);
    a, c := R0(big, block, b, c, d, e, a, 4, h, ws, host);
    r' := Regs(a, b, c, d, e);
  }

  method Rounds5To9(big: bool, block: array<Word>, r: Regs, ghost h: Regs, ghost ws: seq<Word>, ghost host: seq<Word>)
    returns (r': Regs)
    requires block.Length == 16 && Loaded(big, host, ws) && At(block[..], h, ws, host, 5, r)
    modifies block
    ensures At(block[..], h, ws, host, 10, r')
  {
    var a, b, c, d, e := r.a, r.b, r.c, r.d, r.e;
    e, b := R0(big, block, a, b, c, d, e, 5, h, ws, host);
    d, a := R0(big, block, e, a, b, c, d, 6, h, ws, host);
    c, e := R0(big, block, d, e, a, b, c, 7, h, ws, host);
    b, d := R0(big, block, c, d, e, a, b, 8, h, ws, host);
    a, c := R0(big, block, b, c, d, e, a, 9, h, ws, host);
    r' := Regs(a, b, c, d, e);
  }

  method Rounds10To14(big: bool, block: array<Word>, r: Regs, ghost h: Regs, ghost ws: seq<Word>, ghost host: seq<Word>)
    returns (r': Regs)
    requires block.Length == 16 && Loaded(big, host, ws) && At(block[..], h, ws, host, 10, r)
    modifies block
    ensures At(block[..], h, ws, host, 15, r')
  {
    var a, b, c, d, e := r.a, r.b, r.c, r.d, r.e;
    e, b := R0(big, block, a, b, c, d, e, 10, h, ws, host);
    d, a := R0(big, block, e, a, b, c, d, 11, h, ws, host);
    c, e := R0(big, block, d, e, a, b, c, 12, h, ws, host);
    b, d := R0(big, block, c, d, e, a, b, 13, h, ws, host);
    a, c := R0(big, block, b, c, d, e, a, 14, h, ws, host);
    r' := Regs(a, b, c, d, e);
  }

  method Rounds15To19(big: bool, block: array<Word>, r: Regs, ghost h: Regs, ghost ws: seq<Word>, ghost host: seq<Word>)
    returns (r': Regs)
    requires block.Length == 16 && Loaded(big, host, ws) && At(block[..], h, ws, host, 15, r)
    modifies block
    ensures At(block[..], h, ws, host, 20, r')
  {
    var a, b, c, d, e := r.a, r.b, r.c, r.d, r.e;
    e, b := R0(big, block, a, b, c, d, e, 15, h, ws, host);
    d, a := R1(block, e, a, b, c, d, 16, h, ws, host);
    c, e := R1(block, d, e, a, b, c, 17, h, ws, host);
    b, d := R1(block, c, d, e, a, b, 18, h, ws, host);
    a, c := R1(block, b, c, d, e, a, 19, h, ws, host);
    r' := Regs(a, b, c, d, e);
  }

  method Rounds20To29(block: array<Word>, r: Regs, ghost h: Regs, ghost ws: seq<Word>, ghost host: seq<Word>)
    returns (r': Regs)
    requires block.Length == 16 && At(block[..], h, ws, host, 20, r)
    modifies block
    ensures At(block[..], h, ws, host, 30, r')
  {
    var a, b, c, d, e := r.a, r.b, r.c, r.d, r.e;
    e, b := R2(block, a, b, c, d, e, 20, h, ws, host);
    d, a := R2(block, e, a, b, c, d, 21, h, ws, host);
    c, e := R2(block, d, e, a, b, c, 22, h, ws, host);
    b, d := R2(block, c, d, e, a, b, 23, h, ws, host);
    a, c := R2(block, b, c, d, e, a, 24, h, ws, host);
    e, b := R2(block, a, b, c, d, e, 25, h, ws, host);
    d, a := R2(block, e, a, b, c, d, 26, h, ws, host);
    c, e := R2(block, d, e, a, b, c, 27, h, ws, host);
    b, d := R2(block, c, d, e, a, b, 28, h, ws, host);
    a, c := R2(block, b, c, d, e, a, 29, h, ws, host);
    r' := Regs(a, b, c, d, e);
  }

  method Rounds30To39(block: array<Word>, r: Regs, ghost h: Regs, ghost ws: seq<Word>, ghost host: seq<Word>)
    returns (r': Regs)
    requires block.Length == 16 && At(block[..], h, ws, host, 30, r)
    modifies block
    ensures At(block[..], h, ws, host, 40, r')
  {
    var a, b, c, d, e := r.a, r.b, r.c, r.d, r.e;
    e, b := R2(block, a, b, c, d, e, 30, h, ws, host);
    d, a := R2(block, e, a, b, c, d, 31, h, ws, host);
    c, e := R2(block, d, e, a, b, c, 32, h, ws, host);
    b, d := R2(block, c, d, e, a, b, 33, h, ws, host);
    a, c := R2(block, b, c, d, e, a, 34, h, ws, host);
    e, b := R2(block, a, b, c, d, e, 35, h, ws, host);
    d, a := R2(block, e, a, b, c, d, 36, h, ws, host);
    c, e := R2(block, d, e, a, b, c, 37, h, ws, host);
    b, d := R2(block, c, d, e, a, b, 38, h, ws, host);
    a, c := R2(block, b, c, d, e, a, 39, h, ws, host);
    r' := Regs(a, b, c, d, e);
  }

  method Rounds40To49(block: array<Word>, r: Regs, ghost h: Regs, ghost ws: seq<Word>, ghost host: seq<Word>)
    returns (r': Regs)
    requires block.Length == 16 && At(block[..], h, ws, host, 40, r)
    modifies block
    ensures At(block[..], h, ws, host, 50, r')
  {
    var a, b, c, d, e := r.a, r.b, r.c, r.d, r.e;
    e, b := R3(block, a, b, c, d, e, 40, h, ws, host);
    d, a := R3(block, e, a, b, c, d, 41, h, ws, host);
    c, e := R3(block, d, e, a, b, c, 42, h, ws, host);
    b, d := R3(block, c, d, e, a, b, 43, h, ws, host);
    a, c := R3(block, b, c, d, e, a, 44, h, ws, host);
    e, b := R3(block, a, b, c, d, e, 45, h, ws, host);
    d, a := R3(block, e, a, b, c, d, 46, h, ws, host);
    c, e := R3(block, d, e, a, b, c, 47, h, ws, host);
    b, d := R3(block, c, d, e, a, b, 48, h, ws, host);
    a, c := R3(block, b, c, d, e, a, 49, h, ws, host);
    r' := Regs(a, b, c, d, e);
  }

  method Rounds50To59(block: array<Word>, r: Regs, ghost h: Regs, ghost ws: seq<Word>, ghost host: seq<Word>)
    returns (r': Regs)
    requires block.Length == 16 && At(block[..], h, ws, host, 50, r)
    modifies block
    ensures At(block[..], h, ws, host, 60, r')
  {
    var a, b, c, d, e := r.a, r.b, r.c, r.d, r.e;
    e, b := R3(block, a, b, c, d, e, 50, h, ws, host);
    d, a := R3(block, e, a, b, c, d, 51, h, ws, host);
    c, e := R3(block, d, e, a, b, c, 52, h, ws, host);
    b, d := R3(block, c, d, e, a, b, 53, h, ws, host);
    a, c := R3(block, b, c, d, e, a, 54, h, ws, host);
    e, b := R3(block, a, b, c, d, e, 55, h, ws, host);
    d, a := R3(block, e, a, b, c, d, 56, h, ws, host);
    c, e := R3(block, d, e, a, b, c, 57, h, ws, host);
    b, d := R3(block, c, d, e, a, b, 58, h, ws, host);
    a, c := R3(block, b, c, d, e, a, 59, h, ws, host);
    r' := Regs(a, b, c, d, e);
  }

  method Rounds60To69(block: array<Word>, r: Regs, ghost h: Regs, ghost ws: seq<Word>, ghost host: seq<Word>)
    returns (r': Regs)
    requires block.Length == 16 && At(block[..], h, ws, host, 60, r)
    modifies block
    ensures At(block[..], h, ws, host, 70, r')
  {
    var a, b, c, d, e := r.a, r.b, r.c, r.d, r.e;
    e, b := R4(block, a, b, c, d, e, 60, h, ws, host);
    d, a := R4(block, e, a, b, c, d, 61, h, ws, host);
    c, e := R4(block, d, e, a, b, c, 62, h, ws, host);
    b, d := R4(block, c, d, e, a, b, 63, h, ws, host);
    a, c := R4(block, b, c, d, e, a, 64, h, ws, host);
    e, b := R4(block, a, b, c, d, e, 65, h, ws, host);
    d, a := R4(block, e, a, b, c, d, 66, h, ws, host);
    c, e := R4(block, d, e, a, b, c, 67, h, ws, host);
    b, d := R4(block, c, d, e, a, b, 68, h, ws, host);
    a, c := R4(block, b, c, d, e, a, 69, h, ws, host);
    r' := Regs(a, b, c, d, e);
  }

  method Rounds70To79(block: array<Word>, r: Regs, ghost h: Regs, ghost ws: seq<Word>, ghost host: seq<Word>)
    returns (r': Regs)
    requires block.Length == 16 && At(block[..], h, ws, host, 70, r)
    modifies block
    ensures At(block[..], h, ws, host, 80, r')
  {
    var a, b, c, d, e := r.a, r.b, r.c, r.d, r.e;
    e, b := R4(block, a, b, c, d, e, 70, h, ws, host);
    d, a := R4(block, e, a, b, c, d, 71, h, ws, host);
    c, e := R4(block, d, e, a, b, c, 72, h, ws, host);
    b, d := R4(block, c, d, e, a, b, 73, h, ws, host);
    a, c := R4(block, b, c, d, e, a, 74, h, ws, host);
    e, b := R4(block, a, b, c, d, e, 75, h, ws, host);
    d, a := R4(block, e, a, b, c, d, 76, h, ws, host);
    c, e := R4(block, d, e, a, b, c, 77, h, ws, host);
    b, d := R4(block, c, d, e, a, b, 78, h, ws, host);
    a, c := R4(block, b, c, d, e, a, 79, h, ws, host);
    r' := Regs(a, b, c, d, e);
  }

  method AllRounds(big: bool, block: array<Word>, r0: Regs, ghost h: Regs, ghost ws: seq<Word>, ghost host: seq<Word>)
    returns (r: Regs)
    requires block.Length == 16 && Loaded(big, host, ws) && At(block[..], h, ws, host, 0, r0)
    modifies block
    ensures r == Rounds(h, ws, 80)
  {
    r := Rounds0To4(big, block, r0, h, ws, host);
    r := Rounds5To9(big, block, r, h, ws, host);
    r := Rounds10To14(big, block, r, h, ws, host);
    r := Rounds15To19(big, block, r, h, ws, host);
    r := Rounds20To29(block, r, h, ws, host);
    r := Rounds30To39(block, r, h, ws, host);
    r := Rounds40To49(block, r, h, ws, host);
    r := Rounds50To59(block, r, h, ws, host);
    r := Rounds60To69(block, r, h, ws, host);
    r := Rounds70To79(block, r, h, ws, host);
  }

  function SeqRegs(s: seq<Word>): Regs
    requires |s| == 5
  {
    Regs(s[0], s[1], s[2], s[3], s[4])
  }

  /** `SHA1Transform`: the state goes from before a block of 64 bytes to after it. */
  method Transform(big: bool, state: array<Word>, buffer: seq<Byte>)
    requires state.Length == 5 && |buffer| == 64
    modifies state
    ensures SeqRegs(state[..]) == Compress(SeqRegs(old(state[..])), buffer)
  {
    var block := new Word[16](i requires 0 <= i < 16 =>
      HostWord(big, buffer[4 * i], buffer[4 * i + 1], buffer[4 * i + 2], buffer[4 * i + 3]));
    ghost var h, ws, host := SeqRegs(state[..]), Words(buffer), HostWords(big, buffer);
    LoadedBlock(big, buffer);
    assert block[..] == host;
    var was := Regs(state[0], state[1], state[2], state[3], state[4]);
    var r := AllRounds(big, block, was, h, ws, host);
    var sum := Add(was, r);
    assert sum == Compress(h, buffer);
    state[0], state[1], state[2], state[3], state[4] := sum.a, sum.b, sum.c, sum.d, sum.e;
  }

  // ---------- the message as a stream ----------

  /** The part of `m` that fills whole blocks, and what is left over. */
  function Whole(m: seq<Byte>): (r: seq<Byte>)
    ensures |r| % 64 == 0
  {
    m[..|m| - |m| % 64]
  }

  function Rest(m: seq<Byte>): (r: seq<Byte>)
    ensures |r| == |m| % 64
  {
    m[|m| - |m| % 64..]
  }

  /** One more block of a longer message. */
  lemma ChainOnwards(m: seq<Byte>, n: nat)
    requires n % 64 == 0 && n + 64 <= |m|
    ensures Chain(m[..n + 64]) == Compress(Chain(m[..n]), m[n..n + 64])
  {
    var p := m[..n + 64];
    assert p[..|p| - 64] == m[..n] && p[|p| - 64..] == m[n..n + 64];
  }

  /** The two halves of the bit counter tell where in the buffer the next byte goes. */
  lemma Position(count0: nat, count1: nat, n: nat)
    requires count0 < TWO_32 && count1 < TWO_32 && count1 * TWO_32 + count0 == 8 * n % TWO_64
    ensures count0 / 8 % 64 == n % 64
  {
    var q := 8 * n / TWO_64;
    assert 8 * n == q * TWO_64 + count1 * TWO_32 + count0;
    EighthModulo64(n, count0, q * 0x80_0000_0000_0000 + count1 * 0x80_0000);
  }

  lemma EighthModulo64(n: nat, c: nat, k: nat)
    requires 8 * n == 512 * k + c
    ensures c / 8 % 64 == n % 64
  {
    assert c / 8 == n - 64 * k;
    ModuloAgain(n - 64 * k, k);
  }

  lemma ModuloAgain(r: nat, k: nat)
    ensures (r + 64 * k) % 64 == r % 64
  {
  }

  /** Adding to the split counter, with the carry found by comparison. */
  lemma CountAdds(count0: nat, count1: nat, n: nat, len: nat)
    requires count0 < TWO_32 && count1 < TWO_32 && count1 * TWO_32 + count0 == 8 * n % TWO_64 && len < TWO_32
    ensures var c0 := (count0 + len * 8 % TWO_32) % TWO_32;
            var c1 := if c0 < count0 then (count1 + 1) % TWO_32 else count1;
            var c2 := (c1 + len / 0x2000_0000) % TWO_32;
      c0 < TWO_32 && c2 < TWO_32 && c2 * TWO_32 + c0 == 8 * (n + len) % TWO_64
    ensures count0 / 8 % 64 == n % 64
  {
    Position(count0, count1, n);
    var hi, lo := len / 0x2000_0000, len * 8 % TWO_32;
    assert 8 * len == hi * TWO_32 + lo;
    var c0 := (count0 + lo) % TWO_32;
    var carry := if c0 < count0 then 1 else 0;
    CarryIs(count0, lo);
    var c1 := if c0 < count0 then (count1 + 1) % TWO_32 else count1;
    var c2 := (c1 + hi) % TWO_32;
    var o := Overflow(count1, carry, hi);
    var q := 8 * n / TWO_64;
    assert 8 * (n + len) == (q + o) * TWO_64 + c2 * TWO_32 + c0;
    RemainderIs(8 * (n + len), q + o, c2 * TWO_32 + c0);
  }

  /** The low half has wrapped around if and only if it is less than before. */
  lemma CarryIs(count0: nat, lo: nat)
    requires count0 < TWO_32 && lo < TWO_32
    ensures var c0 := (count0 + lo) % TWO_32; c0 == count0 + lo - if c0 < count0 then TWO_32 else 0
  {
  }

  lemma Overflow(count1: nat, carry: nat, hi: nat) returns (o: nat)
    requires count1 < TWO_32 && carry <= 1
    ensures var c1 := if carry == 1 then (count1 + 1) % TWO_32 else count1;
      (c1 + hi) % TWO_32 == count1 + carry + hi - o * TWO_32
  {
    var c1 := if carry == 1 then (count1 + 1) % TWO_32 else count1;
    o := (c1 + hi) / TWO_32 + if carry == 1 && count1 + 1 == TWO_32 then 1 else 0;
  }

  lemma RemainderIs(x: nat, q: nat, r: nat)
    requires x == q * 0x1_0000_0000_0000_0000 + r && r < 0x1_0000_0000_0000_0000
    ensures x % 0x1_0000_0000_0000_0000 == r
  {
  }

  /** The index of the next whole block stays within 32 bits. */
  lemma NoWrap(n: nat, i: nat, len: nat)
    requires i <= len && n % 64 + len < TWO_32 && (n + i) % 64 == 0
    ensures i + 63 < TWO_32 && (i + 63) % TWO_32 == i + 63
  {
  }

  /** The test for a full buffer is done in 32 bits. When it wraps around, everything is
      copied into the buffer as if there was room: the copy stays inside the buffer exactly
      if the sum does not wrap. */
  lemma OverrunsOnWrap(j: nat, len: nat)
    requires j < 64 && len < TWO_32 && (j + len) % TWO_32 <= 63
    ensures j + len <= 64 <==> j + len < TWO_32
  {
  }

  /** The bytes that complete the block the buffer holds the beginning of. */
  lemma FillsBlock(m: seq<Byte>, data: seq<Byte>, i: nat)
    requires i == 64 - |m| % 64 && i <= |data|
    ensures (|m| + i) % 64 == 0
    ensures Compress(Chain(Whole(m)), Rest(m) + data[..i]) == Chain((m + data)[..|m| + i])
  {
    BlockEnds(|m|, i);
    FillsFrom(m, data, |m| - |m| % 64, i);
  }

  lemma BlockEnds(n: nat, i: nat)
    requires i == 64 - n % 64
    ensures (n + i) % 64 == 0 && (n - n % 64) % 64 == 0
  {
  }

  lemma FillsFrom(m: seq<Byte>, data: seq<Byte>, n: nat, i: nat)
    requires n <= |m| && n % 64 == 0 && n + 64 == |m| + i && i <= |data|
    ensures (|m| + i) % 64 == 0
    ensures Compress(Chain(m[..n]), m[n..] + data[..i]) == Chain((m + data)[..|m| + i])
  {
    ChainOnwards(m + data, n);
    assert (m + data)[..n] == m[..n];
    assert (m + data)[n..n + 64] == m[n..] + data[..i];
  }

  /** Without completing it. */
  lemma RestGrows(m: seq<Byte>, data: seq<Byte>)
    requires |m| % 64 + |data| < 64
    ensures Whole(m + data) == Whole(m) && Rest(m + data) == Rest(m) + data
  {
    ModGrows(|m|, |data|);
    var n := |m| - |m| % 64;
    assert |m + data| - |m + data| % 64 == n;
    assert (m + data)[n..] == m[n..] + data;
  }

  lemma ModGrows(n: nat, k: nat)
    requires n % 64 + k < 64
    ensures (n + k) % 64 == n % 64 + k
  {
  }

  lemma RestOfBoth(m: seq<Byte>, data: seq<Byte>, i: nat)
    requires i <= |data| < i + 64 && (|m| + i) % 64 == 0
    ensures Whole(m + data) == (m + data)[..|m| + i] && Rest(m + data) == data[i..]
  {
    RestLength(|m|, |data|, i);
    assert |m + data| - |m + data| % 64 == |m| + i;
    SliceOfSecond(m, data, i, |data|);
  }

  lemma RestLength(n: nat, len: nat, i: nat)
    requires i <= len < i + 64 && (n + i) % 64 == 0
    ensures (n + len) % 64 == len - i
  {
    assert n + len == 64 * ((n + i) / 64) + (len - i);
  }

  lemma NextBlock(m: seq<Byte>, data: seq<Byte>, i: nat)
    requires (|m| + i) % 64 == 0 && i + 64 <= |data|
    ensures (|m| + i + 64) % 64 == 0
    ensures Compress(Chain((m + data)[..|m| + i]), data[i..i + 64]) == Chain((m + data)[..|m| + (i + 64)])
  {
    OneMoreBlock(|m| + i);
    SliceOfSecond(m, data, i, i + 64);
    ChainOnwards(m + data, |m| + i);
  }

  lemma OneMoreBlock(n: nat)
    requires n % 64 == 0
    ensures (n + 64) % 64 == 0
  {
  }

  lemma SliceOfSecond(m: seq<Byte>, data: seq<Byte>, i: nat, j: nat)
    requires i <= j <= |data|
    ensures (m + data)[|m| + i..|m| + j] == data[i..j]
  {
  }

  /** The test the padding loop ends with. */
  lemma PadPosition(n: nat, z: nat)
    requires z <= PadZeros(n)
    ensures (n + 1 + z) % 64 == 56 <==> z == PadZeros(n)
  {
  }

  /** The message with the one bit and `z` bytes of zeros after it. */
  ghost function Padding(m: seq<Byte>, z: nat): (r: seq<Byte>)
    ensures |r| == |m| + 1 + z
  {
    m + [0x80] + seq(z, _ => 0)
  }

  lemma PadGuard(count0: nat, count1: nat, m: seq<Byte>, z: nat)
    requires Counts(count0, count1, |m| + 1 + z) && z <= PadZeros(|m|)
    ensures And(count0, 504) == 448 <==> z == PadZeros(|m|)
  {
    PadPosition(|m|, z);
    Position(count0, count1, |m| + 1 + z);
    GuardIs(count0);
  }

  lemma GuardIs(count0: nat)
    ensures And(count0, 504) == 448 <==> count0 / 8 % 64 == 56
  {
    And504(count0);
  }

  lemma NoWrapOfSum(j: nat, len: nat)
    requires j + len < TWO_32
    ensures (j + len) % TWO_32 == j + len
  {
  }

  /** The two words count the bits of `n` bytes, modulo 2^64. */
  ghost predicate Counts(count0: nat, count1: nat, n: nat) {
    count0 < TWO_32 && count1 < TWO_32 && count1 * TWO_32 + count0 == 8 * n % TWO_64
  }

  /** What a context is after the bytes of `m`. */
  ghost predicate Hashed(state: seq<Word>, buffer: seq<Byte>, m: seq<Byte>) {
    && |state| == 5 && |buffer| == 64
    && SeqRegs(state) == Chain(Whole(m))
    && buffer[..|m| % 64] == Rest(m)
  }

  lemma HashedShort(state: seq<Word>, buffer: seq<Byte>, buffer': seq<Byte>, m: seq<Byte>, data: seq<Byte>)
    requires Hashed(state, buffer, m) && |m| % 64 + |data| < 64
    requires buffer' == buffer[..|m| % 64] + data + buffer[|m| % 64 + |data|..]
    ensures Hashed(state, buffer', m + data)
  {
    RestGrows(m, data);
    ModGrows(|m|, |data|);
    assert buffer'[..|m| % 64 + |data|] == buffer[..|m| % 64] + data;
  }

  lemma HashedLong(state: seq<Word>, buffer: seq<Byte>, buffer': seq<Byte>, m: seq<Byte>, data: seq<Byte>, i: nat)
    requires |state| == 5 && |buffer| == 64
    requires i <= |data| < i + 64 && (|m| + i) % 64 == 0
    requires SeqRegs(state) == Chain((m + data)[..|m| + i])
    requires buffer' == data[i..] + buffer[|data| - i..]
    ensures Hashed(state, buffer', m + data)
  {
    RestOfBoth(m, data, i);
    assert |m + data| % 64 == |data| - i;
    assert buffer'[..|data| - i] == data[i..];
  }

  /** Once padded, the state is what the digest is read from. */
  lemma HashedPadded(state: seq<Word>, buffer: seq<Byte>, m: seq<Byte>)
    requires Hashed(state, buffer, Pad(m))
    ensures SeqRegs(state) == Chain(Pad(m))
    ensures state == RegsSeq(Chain(Pad(m)))
  {
    assert Whole(Pad(m)) == Pad(m);
  }

  lemma Halves(count0: nat, count1: nat, n: nat)
    requires count0 < TWO_32 && n == count1 * TWO_32 + count0
    ensures n / 4294967296 == count1 && n % 4294967296 == count0
  {
  }

  lemma LengthByte(count0: nat, count1: nat, n: nat, i: nat)
    requires count0 < TWO_32 && n == count1 * TWO_32 + count0 && i < 8
    ensures Length64(n)[i] == ByteOf(if i >= 4 then count0 else count1, i % 4)
  {
    Halves(count0, count1, n);
  }

  /** What `SHA1Final` computes for byte `i` of the length. */
  function CountByte(count0: nat, count1: nat, i: nat): (b: Byte)
    requires i < 8
    ensures b == ByteOf(if i >= 4 then count0 else count1, i % 4)
  {
    var count := if i >= 4 then count0 else count1;
    AndOnes(i, 4);
    PicksByteOf(count, i % 4, Shr(count, (3 - And(i, 3)) * 8));
    And(Shr(count, (3 - And(i, 3)) * 8), 255) as Byte
  }

  lemma DigestBytes(m: seq<Byte>, h: seq<Word>)
    requires h == RegsSeq(Chain(Pad(m)))
    ensures forall i | 0 <= i < 20 :: Digest(m)[i] == WordByte(h[i / 4], i % 4)
  {
  }

  /** What `SHA1Final` computes for byte `i` of the digest. */
  function DigestByte(state: seq<Word>, i: nat): (b: Byte)
    requires |state| == 5 && i < 20
    ensures b == WordByte(state[i / 4], i % 4)
  {
    AndOnes(i, 4);
    Shr2(i);
    LowByte(ShrWord(state[Shr(i, 2)], (3 - And(i, 3)) * 8))
  }

  class Context {
    const bigEndian: bool          // byte order of the host
    const state: array<Word>
    const buffer: array<Byte>
    var count0: nat                // bits, modulo 2^32
    var count1: nat                // and what is carried over

    ghost predicate Valid() {
      state.Length == 5 && buffer.Length == 64
    }

    /** The bytes of `m`, and no others, have gone into this context. */
    ghost predicate Holds(m: seq<Byte>)
      reads this, state, buffer
    {
      Valid() && Counts(count0, count1, |m|) && Hashed(state[..], buffer[..], m)
    }

    constructor (bigEndian: bool)
      ensures Holds([]) && fresh(state) && fresh(buffer) && this.bigEndian == bigEndian
    {
      this.bigEndian := bigEndian;
      state := new Word[5];
      buffer := new Byte[64](_ => 0);
      count0, count1 := 0, 0;
      new;
      Init();
    }

    /** `SHA1Init`. */
    method Init()
      requires Valid()
      modifies this, state
      ensures Holds([])
    {
      state[0], state[1], state[2], state[3], state[4] := 0x67452301, 0xEFCDAB89, 0x98BADCFE, 0x10325476, 0xC3D2E1F0;
      count0, count1 := 0, 0;
      assert buffer[..0] == [];
    }

    /** `memcpy` into the buffer. */
    method Copy(at: nat, data: seq<Byte>)
      requires Valid() && at + |data| <= 64
      modifies buffer
      ensures buffer[..] == old(buffer[..at]) + data + old(buffer[at + |data|..])
    {
      forall k | 0 <= k < |data| {
        buffer[at + k] := data[k];
      }
    }

    /** `SHA1Update`. All numbers are 32 bits wide; the condition on the length is exactly what
        keeps the test for a full buffer from wrapping around. */
    method Update(data: seq<Byte>, ghost m: seq<Byte>)
      requires Holds(m) && |m| % 64 + |data| < TWO_32
      modifies this, state, buffer
      ensures Holds(m + data)
    {
      var j := Count(|data|, |m|);
      assert |m + data| == |m| + |data|;
      NoWrapOfSum(j, |data|);
      if (j + |data|) % TWO_32 > 63 {
        FillAndHash(j, data, m);
      } else {
        KeepAll(j, data, m);
      }
    }

    /** There is room for all of the data, and for more. */
    method KeepAll(j: nat, data: seq<Byte>, ghost m: seq<Byte>)
      requires Valid() && Hashed(state[..], buffer[..], m) && j == |m| % 64 && j + |data| < 64
      modifies buffer
      ensures Hashed(state[..], buffer[..], m + data)
    {
      ghost var was := buffer[..];
      Copy(j, data);
      HashedShort(state[..], was, buffer[..], m, data);
    }

    /** Count the bits, and find where in the buffer the data go. */
    method Count(len: nat, ghost n: nat) returns (j: nat)
      requires len < TWO_32 && Counts(count0, count1, n)
      modifies this
      ensures Counts(count0, count1, n + len) && j == n % 64
    {
      j := count0;
      CountAdds(count0, count1, n, len);
      count0 := (count0 + len * 8 % TWO_32) % TWO_32;
      if count0 < j {
        count1 := (count1 + 1) % TWO_32;
      }
      count1 := (count1 + len / 0x2000_0000) % TWO_32;
      AndOnes(j / 8, 64);
      j := And(j / 8, 63);
    }

    /** The state is what the first `i` bytes of `data`, after `m`, make it; they end a block. */
    ghost predicate Reached(data: seq<Byte>, i: nat, m: seq<Byte>)
      reads state
    {
      && state.Length == 5 && i <= |data| && (|m| + i) % 64 == 0
      && SeqRegs(state[..]) == Chain((m + data)[..|m| + i])
    }

    /** The loop over the whole blocks in `data`, from `start` on. */
    method Blocks(data: seq<Byte>, start: nat, ghost m: seq<Byte>) returns (i: nat)
      requires Reached(data, start, m) && |m| % 64 + |data| < TWO_32
      modifies state
      ensures Reached(data, i, m) && |data| < i + 64
    {
      i := start;
      var more := MoreBlocks(i, |data|, |m|);
      while more
        invariant Reached(data, i, m) && (more <==> i + 63 < |data|)
        decreases |data| - i
      {
        i := OneBlock(data, i, m);
        more := MoreBlocks(i, |data|, |m|);
      }
    }

    /** The guard of the loop, in 32 bits. */
    method MoreBlocks(i: nat, len: nat, ghost n: nat) returns (more: bool)
      requires i <= len && n % 64 + len < TWO_32 && (n + i) % 64 == 0
      ensures more <==> i + 63 < len
    {
      NoWrap(n, i, len);
      more := (i + 63) % TWO_32 < len;
    }

    /** The buffer is filled up, hashed, and gets what is left after the last whole block. */
    method FillAndHash(j: nat, data: seq<Byte>, ghost m: seq<Byte>)
      requires Valid() && Hashed(state[..], buffer[..], m)
      requires j == |m| % 64 && 63 < j + |data| < TWO_32
      modifies state, buffer
      ensures Hashed(state[..], buffer[..], m + data)
    {
      var i := FillUp(j, data, m);
      i := Blocks(data, i, m);
      KeepRest(data, i, m);
    }

    method KeepRest(data: seq<Byte>, i: nat, ghost m: seq<Byte>)
      requires Valid() && Reached(data, i, m) && |data| < i + 64
      modifies buffer
      ensures Hashed(state[..], buffer[..], m + data)
    {
      ghost var was := buffer[..];
      Copy(0, data[i..]);
      HashedLong(state[..], was, buffer[..], m, data, i);
    }

    method FillUp(j: nat, data: seq<Byte>, ghost m: seq<Byte>) returns (i: nat)
      requires Valid() && Hashed(state[..], buffer[..], m)
      requires j == |m| % 64 && 63 < j + |data|
      modifies state, buffer
      ensures Reached(data, i, m)
    {
      i := 64 - j;
      FillsBlock(m, data, i);
      Copy(j, data[..i]);
      assert buffer[..] == Rest(m) + data[..i];
      Transform(bigEndian, state, buffer[..]);
    }

    method OneBlock(data: seq<Byte>, i: nat, ghost m: seq<Byte>) returns (i': nat)
      requires Reached(data, i, m) && i + 64 <= |data|
      modifies state
      ensures i' == i + 64 && Reached(data, i', m)
    {
      NextBlock(m, data, i);
      Transform(bigEndian, state, data[i..i + 64]);
      i' := i + 64;
    }

    /** `SHA1Final`: the standard's padding, and the twenty bytes it asks for. */
    method Final(digest: array<Byte>, ghost m: seq<Byte>)
      requires Holds(m) && digest.Length == 20 && 8 * |m| < TWO_64
      modifies this, state, buffer, digest
      ensures digest[..] == Digest(m) && Wiped()
    {
      var finalcount := FinalCount(m);
      PadOut(m);
      Update(finalcount, Padding(m, PadZeros(|m|)));
      HashedPadded(state[..], buffer[..], m);
      DigestBytes(m, state[..]);
      Output(digest, Digest(m));
      Wipe();
    }

    /** The counter as eight bytes, each shifted out of one of its halves. */
    method FinalCount(ghost m: seq<Byte>) returns (finalcount: seq<Byte>)
      requires Counts(count0, count1, |m|) && 8 * |m| < TWO_64
      ensures finalcount == Length64(8 * |m|)
    {
      ghost var length := Length64(8 * |m|);
      forall i | 0 <= i < 8
        ensures length[i] == ByteOf(if i >= 4 then count0 else count1, i % 4)
      {
        LengthByte(count0, count1, 8 * |m|, i);
      }
      finalcount := CountBytes(length);
    }

    method CountBytes(ghost length: seq<Byte>) returns (finalcount: seq<Byte>)
      requires |length| == 8
      requires forall i | 0 <= i < 8 :: length[i] == ByteOf(if i >= 4 then count0 else count1, i % 4)
      ensures finalcount == length
    {
      finalcount := [];
      for i := 0 to 8
        invariant finalcount == length[..i]
      {
        finalcount := finalcount + [CountByte(count0, count1, i)];
      }
    }

    method PadOne(ghost m: seq<Byte>, ghost z: nat)
      requires Holds(Padding(m, z))
      modifies this, state, buffer
      ensures Holds(Padding(m, z + 1))
    {
      Update([0], Padding(m, z));
      assert Padding(m, z) + [0] == Padding(m, z + 1);
    }

    /** The guard of the padding loop: the buffer has room for the length, and no more. */
    method LengthIsNext(ghost m: seq<Byte>, ghost z: nat) returns (next: bool)
      requires Holds(Padding(m, z)) && z <= PadZeros(|m|)
      ensures next <==> z == PadZeros(|m|)
    {
      PadGuard(count0, count1, m, z);
      next := And(count0, 504) == 448;
    }

    method PadOut(ghost m: seq<Byte>)
      requires Holds(m)
      modifies this, state, buffer
      ensures Holds(Padding(m, PadZeros(|m|)))
    {
      Update([0x80], m);
      assert m + [0x80] == Padding(m, 0);
      ghost var z: nat := 0;
      var next := LengthIsNext(m, z);
      while !next
        invariant z <= PadZeros(|m|) && Holds(Padding(m, z))
        invariant next <==> z == PadZeros(|m|)
        decreases PadZeros(|m|) - z
      {
        PadOne(m, z);
        z := z + 1;
        next := LengthIsNext(m, z);
      }
    }

    method Output(digest: array<Byte>, ghost want: seq<Byte>)
      requires Valid() && digest.Length == 20 && |want| == 20
      requires forall i | 0 <= i < 20 :: want[i] == WordByte(state[i / 4], i % 4)
      modifies digest
      ensures digest[..] == want
    {
      for i := 0 to 20
        invariant forall k | 0 <= k < i :: digest[k] == want[k]
      {
        digest[i] := DigestByte(state[..], i);
      }
    }

    /** Nothing of the message is left behind. */
    ghost predicate Wiped()
      reads this, state, buffer
    {
      && count0 == count1 == 0
      && (forall i | 0 <= i < state.Length :: state[i] == 0) && (forall i | 0 <= i < buffer.Length :: buffer[i] == 0)
    }

    method Wipe()
      requires Valid()
      modifies this, state, buffer
      ensures Wiped()
    {
      forall i | 0 <= i < 5 { state[i] := 0; }
      forall i | 0 <= i < 64 { buffer[i] := 0; }
      count0, count1 := 0, 0;
    }
  }

  function Concat(pieces: seq<seq<Byte>>): seq<Byte> {
    if pieces == [] then [] else Concat(pieces[..|pieces| - 1]) + pieces[|pieces| - 1]
  }

  lemma ConcatOnwards(pieces: seq<seq<Byte>>, k: nat)
    requires k < |pieces|
    ensures Concat(pieces[..k + 1]) == Concat(pieces[..k]) + pieces[k]
  {
    assert pieces[..k + 1][..k] == pieces[..k];
  }

  method AddPieces(context: Context, pieces: seq<seq<Byte>>)
    requires context.Holds([]) && forall k | 0 <= k < |pieces| :: |pieces[k]| <= TWO_32 - 64
    modifies context, context.state, context.buffer
    ensures context.Holds(Concat(pieces))
  {
    for k := 0 to |pieces|
      invariant context.Holds(Concat(pieces[..k]))
    {
      ConcatOnwards(pieces, k);
      context.Update(pieces[k], Concat(pieces[..k]));
    }
    assert pieces[..|pieces|] == pieces;
  }

  method Finished(context: Context, ghost m: seq<Byte>) returns (digest: seq<Byte>)
    requires context.Holds(m) && 8 * |m| < TWO_64
    modifies context, context.state, context.buffer
    ensures digest == Digest(m)
  {
    var result := new Byte[20];
    context.Final(result, m);
    digest := result[..];
  }

  /** However a message is cut up, the digest is that of the whole. */
  method HashPieces(bigEndian: bool, pieces: seq<seq<Byte>>) returns (digest: seq<Byte>)
    requires forall k | 0 <= k < |pieces| :: |pieces[k]| <= TWO_32 - 64
    requires 8 * |Concat(pieces)| < TWO_64
    ensures digest == Digest(Concat(pieces))
  {
    var context := new Context(bigEndian);
    AddPieces(context, pieces);
    digest := Finished(context, Concat(pieces));
  }
}
