/** The test vectors of FIPS PUB 180-1 that head `libcpu/sha1.cpp`, worked through round by round, and
    what the constants of the standard are. */
module Sha1Vectors {
  import opened Sha1Spec

  // ---------- constants ----------

  /** The constants are square roots: 2^30 times the root of 2, 3, 5 and 10, rounded down. */
  lemma RootsOfSmallNumbers(t: nat)
    ensures var k, n := K(t) as nat, if t < 20 then 2 else if t < 40 then 3 else if t < 60 then 5 else 10;
      k * k <= n * 0x1000_0000_0000_0000 < (k + 1) * (k + 1)
  {
  }

  /** The chaining value begins as the hexadecimal digits counted up and down, the low byte first. */
  lemma CountingDigits(i: nat)
    requires i < 4
    ensures WordByte(H0.a, 3 - i) as nat == 0x01 + 0x22 * i
    ensures WordByte(H0.b, 3 - i) as nat == 0x89 + 0x22 * i
    ensures WordByte(H0.c, 3 - i) as nat == 0xFE - 0x22 * i
    ensures WordByte(H0.d, 3 - i) as nat == 0x76 - 0x22 * i
    ensures WordByte(H0.e, 3 - i) as nat == 0xF0 - 0x0F * i
  {
  }

  // ---------- sixteen rounds at a time ----------

  datatype Sixteen = Sixteen(
    x0: Word, x1: Word, x2: Word, x3: Word, x4: Word, x5: Word, x6: Word, x7: Word,
    x8: Word, x9: Word, x10: Word, x11: Word, x12: Word, x13: Word, x14: Word, x15: Word)

  /** Step b of section 7. */
  function Mix(a: Word, b: Word, c: Word, d: Word): Word {
    Rol(a ^ b ^ c ^ d, 1)
  }

  /** The sixteen words `y` follow on `s`. */
  ghost predicate Follow(s: Sixteen, y: Sixteen) {
    && y.x0 == Mix(s.x13, s.x8, s.x2, s.x0)
    && y.x1 == Mix(s.x14, s.x9, s.x3, s.x1)
    && y.x2 == Mix(s.x15, s.x10, s.x4, s.x2)
    && y.x3 == Mix(y.x0, s.x11, s.x5, s.x3)
    && y.x4 == Mix(y.x1, s.x12, s.x6, s.x4)
    && y.x5 == Mix(y.x2, s.x13, s.x7, s.x5)
    && y.x6 == Mix(y.x3, s.x14, s.x8, s.x6)
    && y.x7 == Mix(y.x4, s.x15, s.x9, s.x7)
    && y.x8 == Mix(y.x5, y.x0, s.x10, s.x8)
    && y.x9 == Mix(y.x6, y.x1, s.x11, s.x9)
    && y.x10 == Mix(y.x7, y.x2, s.x12, s.x10)
    && y.x11 == Mix(y.x8, y.x3, s.x13, s.x11)
    && y.x12 == Mix(y.x9, y.x4, s.x14, s.x12)
    && y.x13 == Mix(y.x10, y.x5, s.x15, s.x13)
    && y.x14 == Mix(y.x11, y.x6, y.x0, s.x14)
    && y.x15 == Mix(y.x12, y.x7, y.x1, s.x15)
  }

  /** Word by word is how it is checked. */
  lemma DoFollow(s: Sixteen, y: Sixteen)
    requires y.x0 == Mix(s.x13, s.x8, s.x2, s.x0)
    requires y.x1 == Mix(s.x14, s.x9, s.x3, s.x1)
    requires y.x2 == Mix(s.x15, s.x10, s.x4, s.x2)
    requires y.x3 == Mix(y.x0, s.x11, s.x5, s.x3)
    requires y.x4 == Mix(y.x1, s.x12, s.x6, s.x4)
    requires y.x5 == Mix(y.x2, s.x13, s.x7, s.x5)
    requires y.x6 == Mix(y.x3, s.x14, s.x8, s.x6)
    requires y.x7 == Mix(y.x4, s.x15, s.x9, s.x7)
    requires y.x8 == Mix(y.x5, y.x0, s.x10, s.x8)
    requires y.x9 == Mix(y.x6, y.x1, s.x11, s.x9)
    requires y.x10 == Mix(y.x7, y.x2, s.x12, s.x10)
    requires y.x11 == Mix(y.x8, y.x3, s.x13, s.x11)
    requires y.x12 == Mix(y.x9, y.x4, s.x14, s.x12)
    requires y.x13 == Mix(y.x10, y.x5, s.x15, s.x13)
    requires y.x14 == Mix(y.x11, y.x6, y.x0, s.x14)
    requires y.x15 == Mix(y.x12, y.x7, y.x1, s.x15)
    ensures Follow(s, y)
  {
  }

  function SixteenRounds(r: Regs, t: nat, s: Sixteen): Regs {
    var r1 := Round(r, t, s.x0);
    var r2 := Round(r1, t + 1, s.x1);
    var r3 := Round(r2, t + 2, s.x2);
    var r4 := Round(r3, t + 3, s.x3);
    var r5 := Round(r4, t + 4, s.x4);
    var r6 := Round(r5, t + 5, s.x5);
    var r7 := Round(r6, t + 6, s.x6);
    var r8 := Round(r7, t + 7, s.x7);
    var r9 := Round(r8, t + 8, s.x8);
    var r10 := Round(r9, t + 9, s.x9);
    var r11 := Round(r10, t + 10, s.x10);
    var r12 := Round(r11, t + 11, s.x11);
    var r13 := Round(r12, t + 12, s.x12);
    var r14 := Round(r13, t + 13, s.x13);
    var r15 := Round(r14, t + 14, s.x14);
    var r16 := Round(r15, t + 15, s.x15);
    r16
  }

  /** The words from the `k`th on. */
  ghost predicate Are(v: seq<Word>, k: nat, s: Sixteen)
    requires k + 16 <= |v|
  {
    && v[k + 0] == s.x0 && v[k + 1] == s.x1 && v[k + 2] == s.x2 && v[k + 3] == s.x3
    && v[k + 4] == s.x4 && v[k + 5] == s.x5 && v[k + 6] == s.x6 && v[k + 7] == s.x7
    && v[k + 8] == s.x8 && v[k + 9] == s.x9 && v[k + 10] == s.x10 && v[k + 11] == s.x11
    && v[k + 12] == s.x12 && v[k + 13] == s.x13 && v[k + 14] == s.x14 && v[k + 15] == s.x15
  }

  ghost predicate Recurs(v: seq<Word>, t: nat)
    requires 16 <= t < |v|
  {
    v[t] == Mix(v[t - 3], v[t - 8], v[t - 14], v[t - 16])
  }

  function Schedule(w: seq<Word>): (v: seq<Word>)
    requires |w| == 16
    ensures |v| == 80
  {
    seq(80, t requires 0 <= t < 80 => W(w, t))
  }

  lemma ScheduleRecurs(w: seq<Word>, t: nat)
    requires |w| == 16 && 16 <= t < 80
    ensures Recurs(Schedule(w), t)
  {
  }

  lemma NextAre(v: seq<Word>, k: nat, s: Sixteen, y: Sixteen)
    requires k + 32 <= |v| && Are(v, k, s) && Follow(s, y)
    requires forall t | k + 16 <= t < k + 32 :: Recurs(v, t)
    ensures Are(v, k + 16, y)
  {
    assert Recurs(v, k + 16);
    assert Recurs(v, k + 17);
    assert Recurs(v, k + 18);
    assert Recurs(v, k + 19);
    assert Recurs(v, k + 20);
    assert Recurs(v, k + 21);
    assert Recurs(v, k + 22);
    assert Recurs(v, k + 23);
    assert Recurs(v, k + 24);
    assert Recurs(v, k + 25);
    assert Recurs(v, k + 26);
    assert Recurs(v, k + 27);
    assert Recurs(v, k + 28);
    assert Recurs(v, k + 29);
    assert Recurs(v, k + 30);
    assert Recurs(v, k + 31);
  }

  lemma OneMore(h: Regs, w: seq<Word>, t: nat, r: Regs, x: Word)
    requires |w| == 16 && t < 80 && Rounds(h, w, t) == r && Schedule(w)[t] == x
    ensures Rounds(h, w, t + 1) == Round(r, t, x)
  {
  }

  lemma MoreRounds(h: Regs, w: seq<Word>, t: nat, s: Sixteen, r: Regs)
    requires |w| == 16 && t + 16 <= 80 && Are(Schedule(w), t, s) && Rounds(h, w, t) == r
    ensures Rounds(h, w, t + 16) == SixteenRounds(r, t, s)
  {
    OneMore(h, w, t, r, s.x0);
    var r1 := Round(r, t, s.x0);
    OneMore(h, w, t + 1, r1, s.x1);
    var r2 := Round(r1, t + 1, s.x1);
    OneMore(h, w, t + 2, r2, s.x2);
    var r3 := Round(r2, t + 2, s.x2);
    OneMore(h, w, t + 3, r3, s.x3);
    var r4 := Round(r3, t + 3, s.x3);
    OneMore(h, w, t + 4, r4, s.x4);
    var r5 := Round(r4, t + 4, s.x4);
    OneMore(h, w, t + 5, r5, s.x5);
    var r6 := Round(r5, t + 5, s.x5);
    OneMore(h, w, t + 6, r6, s.x6);
    var r7 := Round(r6, t + 6, s.x6);
    OneMore(h, w, t + 7, r7, s.x7);
    var r8 := Round(r7, t + 7, s.x7);
    OneMore(h, w, t + 8, r8, s.x8);
    var r9 := Round(r8, t + 8, s.x8);
    OneMore(h, w, t + 9, r9, s.x9);
    var r10 := Round(r9, t + 9, s.x9);
    OneMore(h, w, t + 10, r10, s.x10);
    var r11 := Round(r10, t + 10, s.x10);
    OneMore(h, w, t + 11, r11, s.x11);
    var r12 := Round(r11, t + 11, s.x11);
    OneMore(h, w, t + 12, r12, s.x12);
    var r13 := Round(r12, t + 12, s.x12);
    OneMore(h, w, t + 13, r13, s.x13);
    var r14 := Round(r13, t + 13, s.x13);
    OneMore(h, w, t + 14, r14, s.x14);
    var r15 := Round(r14, t + 14, s.x14);
    OneMore(h, w, t + 15, r15, s.x15);
  }

  /** The rounds from `t` on turn `r` into `r'`; the quantifier hides them where that is enough. */
  ghost predicate Gives(r: Regs, t: nat, s: Sixteen, r': Regs) {
    forall n | t <= n <= t :: SixteenRounds(r, n, s) == r'
  }

  lemma MoreGiven(h: Regs, w: seq<Word>, t: nat, s: Sixteen, r: Regs, r': Regs)
    requires |w| == 16 && t + 16 <= 80 && Are(Schedule(w), t, s) && Rounds(h, w, t) == r && Gives(r, t, s, r')
    ensures Rounds(h, w, t + 16) == r'
  {
    MoreRounds(h, w, t, s, r);
  }

  /** The eighty words of a block, and the registers after every sixteenth round. */
  datatype Trace = Trace(w0: Sixteen, w1: Sixteen, w2: Sixteen, w3: Sixteen, w4: Sixteen,
                         r1: Regs, r2: Regs, r3: Regs, r4: Regs, r5: Regs)

  ghost predicate IsSchedule(t: Trace) {
    Follow(t.w0, t.w1) && Follow(t.w1, t.w2) && Follow(t.w2, t.w3) && Follow(t.w3, t.w4)
  }

  ghost predicate IsRounds(h: Regs, t: Trace) {
    && Gives(h, 0, t.w0, t.r1) && Gives(t.r1, 16, t.w1, t.r2) && Gives(t.r2, 32, t.w2, t.r3)
    && Gives(t.r3, 48, t.w3, t.r4) && Gives(t.r4, 64, t.w4, t.r5)
  }

  ghost predicate AllRecur(v: seq<Word>) {
    forall t: nat | 16 <= t < |v| :: Recurs(v, t)
  }

  lemma ScheduleIs(w: seq<Word>, s: Sixteen, n: nat)
    requires |w| == 16 && n == 0 && Are(w, n, s)
    ensures AllRecur(Schedule(w)) && Are(Schedule(w), n, s)
  {
    var v := Schedule(w);
    forall t: nat | 16 <= t < 80
      ensures Recurs(v, t)
    {
      ScheduleRecurs(w, t);
    }
    forall t: nat | t < 16
      ensures v[t] == w[t]
    {
    }
  }

  lemma TraceWords(v: seq<Word>, t: Trace, n0: nat, n1: nat, n2: nat, n3: nat, n4: nat)
    requires n1 == n0 + 16 && n2 == n1 + 16 && n3 == n2 + 16 && n4 == n3 + 16 && |v| == n4 + 16
    requires AllRecur(v) && Are(v, n0, t.w0) && IsSchedule(t)
    ensures Are(v, n1, t.w1) && Are(v, n2, t.w2) && Are(v, n3, t.w3) && Are(v, n4, t.w4)
  {
    NextAre(v, n0, t.w0, t.w1);
    NextAre(v, n1, t.w1, t.w2);
    NextAre(v, n2, t.w2, t.w3);
    NextAre(v, n3, t.w3, t.w4);
  }

  lemma FirstRounds(h: Regs, w: seq<Word>, t: Trace, n0: nat, n1: nat, n2: nat)
    requires |w| == 16 && n0 == 0 && n1 == 16 && n2 == 32 && IsRounds(h, t)
    requires Are(Schedule(w), n0, t.w0) && Are(Schedule(w), n1, t.w1)
    ensures Rounds(h, w, n2) == t.r2
  {
    MoreGiven(h, w, n0, t.w0, h, t.r1);
    MoreGiven(h, w, n1, t.w1, t.r1, t.r2);
  }

  lemma LastRounds(h: Regs, w: seq<Word>, t: Trace, n2: nat, n3: nat, n4: nat, n5: nat)
    requires |w| == 16 && n2 == 32 && n3 == 48 && n4 == 64 && n5 == 80 && IsRounds(h, t) && Rounds(h, w, n2) == t.r2
    requires Are(Schedule(w), n2, t.w2) && Are(Schedule(w), n3, t.w3) && Are(Schedule(w), n4, t.w4)
    ensures Rounds(h, w, n5) == t.r5
  {
    MoreGiven(h, w, n2, t.w2, t.r2, t.r3);
    MoreGiven(h, w, n3, t.w3, t.r3, t.r4);
    MoreGiven(h, w, n4, t.w4, t.r4, t.r5);
  }

  /** The places are variables so that the verifier does not compute the schedule anew. */
  lemma TraceRounds(h: Regs, w: seq<Word>, t: Trace, n0: nat, n1: nat, n2: nat, n3: nat, n4: nat, n5: nat)
    requires |w| == 16 && n0 == 0 && n1 == 16 && n2 == 32 && n3 == 48 && n4 == 64 && n5 == 80
    requires Are(w, n0, t.w0) && IsSchedule(t) && IsRounds(h, t)
    ensures Rounds(h, w, n5) == t.r5
  {
    ScheduleIs(w, t.w0, n0);
    TraceWords(Schedule(w), t, n0, n1, n2, n3, n4);
    FirstRounds(h, w, t, n0, n1, n2);
    LastRounds(h, w, t, n2, n3, n4, n5);
  }

  lemma TraceCompresses(h: Regs, block: seq<Byte>, t: Trace)
    requires |block| == 64 && Are(Words(block), 0, t.w0) && IsSchedule(t) && IsRounds(h, t)
    ensures Compress(h, block) == Add(h, t.r5)
  {
    TraceRounds(h, Words(block), t, 0, 16, 32, 48, 64, RoundCount(Words(block)));
  }

  // ---------- messages and digests ----------

  lemma OneBlock(p: seq<Byte>)
    requires |p| == 64
    ensures Chain(p) == Compress(H0, p)
  {
    assert p[..0] == [] && p[0..] == p;
  }

  lemma BytesOfWord(w: Word, b0: Byte, b1: Byte, b2: Byte, b3: Byte)
    requires b0 == WordByte(w, 0) && b1 == WordByte(w, 1) && b2 == WordByte(w, 2) && b3 == WordByte(w, 3)
    ensures BigWord(b0, b1, b2, b3) == w
  {
  }

  /** Four bytes of a digest, as they are printed. */
  function Printed(d: seq<Byte>, i: nat): Word
    requires i < 5 && |d| == 20
  {
    BigWord(d[4 * i], d[4 * i + 1], d[4 * i + 2], d[4 * i + 3])
  }

  lemma DigestByteIs(m: seq<Byte>, j: nat, i: nat, k: nat, h: seq<Word>)
    requires i < 5 && k < 4 && j == 4 * i + k && h == RegsSeq(Chain(Pad(m)))
    ensures Digest(m)[j] == WordByte(h[i], k)
  {
    assert j / 4 == i && j % 4 == k;
  }

  lemma PrintedIs(m: seq<Byte>, i: nat)
    requires i < 5
    ensures Printed(Digest(m), i) == RegsSeq(Chain(Pad(m)))[i]
  {
    var d, h := Digest(m), RegsSeq(Chain(Pad(m)));
    DigestByteIs(m, 4 * i, i, 0, h);
    DigestByteIs(m, 4 * i + 1, i, 1, h);
    DigestByteIs(m, 4 * i + 2, i, 2, h);
    DigestByteIs(m, 4 * i + 3, i, 3, h);
    BytesOfWord(h[i], d[4 * i], d[4 * i + 1], d[4 * i + 2], d[4 * i + 3]);
  }

  predicate IsDigest(m: seq<Byte>, a: Word, b: Word, c: Word, d: Word, e: Word) {
    var r := Digest(m);
    Printed(r, 0) == a && Printed(r, 1) == b && Printed(r, 2) == c && Printed(r, 3) == d && Printed(r, 4) == e
  }

  lemma PrintedWord(m: seq<Byte>, r: seq<Byte>, h: Regs, i: nat, x: Word)
    requires r == Digest(m) && Chain(Pad(m)) == h && i < 5 && RegsSeq(h)[i] == x
    ensures Printed(r, i) == x
  {
    PrintedIs(m, i);
  }

  lemma DigestOf(m: seq<Byte>, h: Regs)
    requires Chain(Pad(m)) == h
    ensures IsDigest(m, h.a, h.b, h.c, h.d, h.e)
  {
    var r := Digest(m);
    PrintedWord(m, r, h, 0, h.a);
    PrintedWord(m, r, h, 1, h.b);
    PrintedWord(m, r, h, 2, h.c);
    PrintedWord(m, r, h, 3, h.d);
    PrintedWord(m, r, h, 4, h.e);
  }

  lemma ShortLength(n: nat, k: nat)
    requires n < 65536 && k < 8
    ensures Length64(n)[k] == (if k < 6 then 0 else if k == 6 then n / 256 else n % 256) as Byte
  {
    assert n / 4294967296 == 0 && n % 4294967296 == n;
    LengthByteIs(n, k, if k < 4 then 0 else n, if k < 4 then k else k - 4);
  }

  lemma LengthByteIs(n: nat, k: nat, half: nat, j: nat)
    requires k < 8 && j == k % 4 && half == if k < 4 then n / 4294967296 else n % 4294967296
    ensures Length64(n)[k] == ByteValue(half, j) as Byte
  {
  }

  /** The bytes of a padded message. */
  lemma PaddedAt(m: seq<Byte>, k: nat)
    requires k < |Pad(m)|
    ensures |Pad(m)| == |m| + 9 + PadZeros(|m|)
    ensures k < |m| ==> Pad(m)[k] == m[k]
    ensures k == |m| ==> Pad(m)[k] == 0x80
    ensures |m| < k < |Pad(m)| - 8 ==> Pad(m)[k] == 0
    ensures k >= |Pad(m)| - 8 ==> Pad(m)[k] == Length64(8 * |m|)[k - (|Pad(m)| - 8)]
  {
  }

  // ---------- the first vector ----------

  /** "abc" */
  const ABC_BYTES: seq<Byte> := [0x61, 0x62, 0x63]

  const ABC: Trace := Trace(
    Sixteen(0x61626380, 0x00000000, 0x00000000, 0x00000000, 0x00000000, 0x00000000, 0x00000000, 0x00000000,
            0x00000000, 0x00000000, 0x00000000, 0x00000000, 0x00000000, 0x00000000, 0x00000000, 0x00000018),
    Sixteen(0xC2C4C700, 0x00000000, 0x00000030, 0x85898E01, 0x00000000, 0x00000060, 0x0B131C03, 0x00000030,
            0x85898EC1, 0x16263806, 0x00000000, 0x00000180, 0x2C4C700C, 0x000000F0, 0x93AFB507, 0x5898E048),
    Sixteen(0x8E9A9202, 0x00000600, 0xB131C0F0, 0x16263BC6, 0x4EBED41E, 0x626380A1, 0x16263806, 0x000018C0,
            0xD2E138C4, 0x00000F00, 0x3AFB5079, 0x898E04E5, 0xE2BA3C2B, 0x000060C0, 0x053A37CD, 0x74458547),
    Sixteen(0xDA9415ED, 0x26380A16, 0x626383A1, 0x4EBF54DE, 0x3835B44B, 0x0000F600, 0x1E84C7A3, 0x98E04D98,
            0x651D16A0, 0x62658CA1, 0x458544D6, 0x44584CB7, 0x7BA06619, 0x6380AEA2, 0x0AE55269, 0x627B49A1),
    Sixteen(0x7CD45C9D, 0x000F0000, 0xFB50753A, 0xEC6765E8, 0xBA3C2BE2, 0x0060C000, 0x3A37CD05, 0x458546F4,
            0xB8599DD6, 0x380A1A26, 0x01E02203, 0xE7CC3456, 0xE6E60B69, 0x00F60A00, 0x5795EF4F, 0x822E0879),
    Regs(0x20BDD62F, 0x196BEE77, 0x644A3DA5, 0x1181ED99, 0x18C623F9),
    Regs(0x3B845D33, 0x1267B407, 0x717EEBD7, 0xA0DC2D4B, 0xD2AA1365),
    Regs(0xBEAD02CA, 0xA01B846C, 0x8714787C, 0x503CA382, 0xFB86C6AB),
    Regs(0x6B61C9E1, 0xB66C020B, 0x9523272C, 0xF5D5B051, 0x8FD4B796),
    Regs(0x42541B35, 0x5738D5E1, 0x21834873, 0x681E6DF6, 0xD8FDF6AD))

  lemma AbcSchedule()
    ensures IsSchedule(ABC)
  {
    DoFollow(ABC.w0, ABC.w1);
    DoFollow(ABC.w1, ABC.w2);
    DoFollow(ABC.w2, ABC.w3);
    DoFollow(ABC.w3, ABC.w4);
  }

  lemma AbcRounds0()
    ensures Gives(H0, 0, ABC.w0, ABC.r1)
    ensures Gives(ABC.r1, 16, ABC.w1, ABC.r2)
  {
  }

  lemma AbcRounds32()
    ensures Gives(ABC.r2, 32, ABC.w2, ABC.r3)
    ensures Gives(ABC.r3, 48, ABC.w3, ABC.r4)
  {
  }

  lemma AbcRounds64()
    ensures Gives(ABC.r4, 64, ABC.w4, ABC.r5)
  {
  }

  lemma AbcPadded(p: seq<Byte>, k: nat)
    requires p == Pad(ABC_BYTES) && k < 64
    ensures |p| == 64 && p[k] == if k < 3 then ABC_BYTES[k] else if k == 3 then 0x80 else if k < 63 then 0 else 24
  {
    PaddedAt(ABC_BYTES, k);
    if k >= 56 {
      ShortLength(24, k - 56);
    }
  }

  lemma WordIs(p: seq<Byte>, i: nat, b0: Byte, b1: Byte, b2: Byte, b3: Byte)
    requires |p| == 64 && i < 16
    requires p[4 * i] == b0 && p[4 * i + 1] == b1 && p[4 * i + 2] == b2 && p[4 * i + 3] == b3
    ensures Words(p)[i] == BigWord(b0, b1, b2, b3)
  {
  }

  lemma AbcWord(p: seq<Byte>, i: nat)
    requires p == Pad(ABC_BYTES) && i < 16
    ensures |p| == 64 && Words(p)[i] == if i == 0 then 0x61626380 else if i < 15 then 0 else 24
  {
    AbcPadded(p, 4 * i);
    AbcPadded(p, 4 * i + 1);
    AbcPadded(p, 4 * i + 2);
    AbcPadded(p, 4 * i + 3);
    WordIs(p, i, p[4 * i], p[4 * i + 1], p[4 * i + 2], p[4 * i + 3]);
  }

  lemma AbcWords()
    ensures |Pad(ABC_BYTES)| == 64 && Are(Words(Pad(ABC_BYTES)), 0, ABC.w0)
  {
    var p := Pad(ABC_BYTES);
    forall i: nat | i < 16
      ensures |p| == 64 && Words(p)[i] == if i == 0 then 0x61626380 else if i < 15 then 0 else 24
    {
      AbcWord(p, i);
    }
  }

  lemma AbcChain()
    ensures Chain(Pad(ABC_BYTES)) == Regs(0xA9993E36, 0x4706816A, 0xBA3E2571, 0x7850C26C, 0x9CD0D89D)
  {
    AbcWords();
    OneBlock(Pad(ABC_BYTES));
    AbcSchedule();
    AbcRounds0();
    AbcRounds32();
    AbcRounds64();
    TraceCompresses(H0, Pad(ABC_BYTES), ABC);
  }

  lemma AbcDigest()
    ensures IsDigest(ABC_BYTES, 0xA9993E36, 0x4706816A, 0xBA3E2571, 0x7850C26C, 0x9CD0D89D)
  {
    AbcChain();
    DigestOf(ABC_BYTES, Regs(0xA9993E36, 0x4706816A, 0xBA3E2571, 0x7850C26C, 0x9CD0D89D));
  }

  // ---------- the second vector ----------

  /** "abcdbcdecdefdefgefghfghighijhijkijkljklmklmnlmnomnopnopq": each four letters begin one later. */
  const LETTER_BYTES: seq<Byte> := seq(56, k requires 0 <= k < 56 => Later(0x61, k / 4 + k % 4))

  /** The `n`th letter after `c`. */
  function Later(c: Byte, n: nat): Byte {
    if n == 0 then c else Later(c, n - 1) + 1
  }

  const LETTERS: Trace := Trace(
    Sixteen(0x61626364, 0x62636465, 0x63646566, 0x64656667, 0x65666768, 0x66676869, 0x6768696A, 0x68696A6B,
            0x696A6B6C, 0x6A6B6C6D, 0x6B6C6D6E, 0x6C6D6E6F, 0x6D6E6F70, 0x6E6F7071, 0x80000000, 0x00000000),
    Sixteen(0x0A063A3E, 0xD8DADCDF, 0xDADCDEC0, 0xC8D2B4BE, 0x6F757B5B, 0x757B5967, 0x8DA16D70, 0xDAEEFABA,
            0xFAF6CAB6, 0xA6FB675A, 0x0C604CC8, 0x604CC02C, 0x49C0E6E2, 0x2EE8CBBC, 0xCFD72EC4, 0x97E9810E),
    Sixteen(0x0989CBE8, 0xF24843FE, 0x5C40D0BA, 0xA8D9CC3B, 0xB2B9666E, 0xBA7B71B7, 0x20B28A72, 0xB28AF500,
            0x8AC87842, 0x289ADDF4, 0x56D51F21, 0xD96B7FD2, 0x3868E778, 0xAB5E4848, 0x7F0E2118, 0xDE87A111),
    Sixteen(0xE8BE56B0, 0x1A0AE652, 0xCD5611C8, 0x46EF29DC, 0x60D3DA6D, 0xDDF3BA6E, 0x2737F5E9, 0x4888A710,
            0xD2A1177B, 0x9999633B, 0xD6C69D03, 0xCCF6127B, 0x7C58FE6D, 0xFDD99C68, 0xF8E32074, 0xE0BA3C7D),
    Sixteen(0x152198D6, 0x7B3F1982, 0x37F2D5B7, 0x8596323E, 0x810790D6, 0xBEA0A942, 0x11C7E1B1, 0x6158D101,
            0x5FCD77D9, 0x7F2F12E6, 0xF868CFB1, 0xD6E997E9, 0xF526B852, 0xB7578DCC, 0x55D99DF4, 0x1FF69958),
    Regs(0x42637E39, 0xB2E7A8BE, 0x4CBE52A1, 0xA180D207, 0xB867B2A8),
    Regs(0x52E31F60, 0xA9C84BEC, 0x816D15EC, 0x78448908, 0x3549A991),
    Regs(0xC8A69090, 0xA2AD4F02, 0xB1BA8907, 0x26307A99, 0x58CFA558),
    Regs(0x513F9CA0, 0x2BFAF7A8, 0x10203537, 0xCD8952C4, 0xE7BDDD70),
    Regs(0x8CE34517, 0xD3AD7C25, 0x6B4E1883, 0x74351CD2, 0x86838382))

  lemma LettersSchedule()
    ensures IsSchedule(LETTERS)
  {
    DoFollow(LETTERS.w0, LETTERS.w1);
    DoFollow(LETTERS.w1, LETTERS.w2);
    DoFollow(LETTERS.w2, LETTERS.w3);
    DoFollow(LETTERS.w3, LETTERS.w4);
  }

  lemma LettersRounds0()
    ensures Gives(H0, 0, LETTERS.w0, LETTERS.r1)
    ensures Gives(LETTERS.r1, 16, LETTERS.w1, LETTERS.r2)
  {
  }

  lemma LettersRounds32()
    ensures Gives(LETTERS.r2, 32, LETTERS.w2, LETTERS.r3)
    ensures Gives(LETTERS.r3, 48, LETTERS.w3, LETTERS.r4)
  {
  }

  lemma LettersRounds64()
    ensures Gives(LETTERS.r4, 64, LETTERS.w4, LETTERS.r5)
  {
  }

  const LAST: Trace := Trace(
    Sixteen(0x00000000, 0x00000000, 0x00000000, 0x00000000, 0x00000000, 0x00000000, 0x00000000, 0x00000000,
            0x00000000, 0x00000000, 0x00000000, 0x00000000, 0x00000000, 0x00000000, 0x00000000, 0x000001C0),
    Sixteen(0x00000000, 0x00000000, 0x00000380, 0x00000000, 0x00000000, 0x00000700, 0x00000000, 0x00000380,
            0x00000E00, 0x00000000, 0x00000000, 0x00001C00, 0x00000000, 0x00000D80, 0x00003800, 0x00000480),
    Sixteen(0x00000000, 0x00007000, 0x00000E00, 0x00003600, 0x0000E000, 0x00000E00, 0x00000000, 0x0001CE00,
            0x00000000, 0x0000D800, 0x00038000, 0x00004F00, 0x00000000, 0x00070E00, 0x0000EE00, 0x00037500),
    Sixteen(0x000E0000, 0x0000E000, 0x00003600, 0x001CEE00, 0x00000000, 0x000DF000, 0x00380000, 0x0004C600,
            0x0000E000, 0x0070EE00, 0x000EE000, 0x00369E00, 0x00E00000, 0x000ED600, 0x0000E000, 0x01CEA600),
    Sixteen(0x00000000, 0x00D80000, 0x0380E000, 0x004F0000, 0x00000000, 0x070E0000, 0x00EE0000, 0x03751C00,
            0x0E000000, 0x00E0E000, 0x00363800, 0x1CEE9000, 0x00000000, 0x0DF09000, 0x3800E000, 0x04C77400),
    Regs(0xD9772360, 0x258B0BAA, 0x2898132A, 0xFFB35EEF, 0xD0E89E4B),
    Regs(0x8A4AF384, 0x17986223, 0x028BEC42, 0xC90A6F97, 0xD7105B6B),
    Regs(0x46F93B68, 0x7316056A, 0xB0F40CFA, 0xCF2BB5EB, 0x7B074F58),
    Regs(0xD504902B, 0xF66D9BF4, 0x24D85327, 0xDEAAC406, 0xE996063D),
    Regs(0x906FD62C, 0x58C0AAC0, 0xB6A55520, 0x74E9B89D, 0x9AF00B7F))

  /** The chaining value after the first block. */
  const BETWEEN: Regs := Regs(0xF4286818, 0xC37B27AE, 0x0408F581, 0x84677148, 0x4A566572)

  lemma LastSchedule()
    ensures IsSchedule(LAST)
  {
    DoFollow(LAST.w0, LAST.w1);
    DoFollow(LAST.w1, LAST.w2);
    DoFollow(LAST.w2, LAST.w3);
    DoFollow(LAST.w3, LAST.w4);
  }

  lemma LastRounds0()
    ensures Gives(BETWEEN, 0, LAST.w0, LAST.r1)
    ensures Gives(LAST.r1, 16, LAST.w1, LAST.r2)
  {
  }

  lemma LastRounds32()
    ensures Gives(LAST.r2, 32, LAST.w2, LAST.r3)
    ensures Gives(LAST.r3, 48, LAST.w3, LAST.r4)
  {
  }

  lemma LastRounds64()
    ensures Gives(LAST.r4, 64, LAST.w4, LAST.r5)
  {
  }

  lemma LettersPadded(p: seq<Byte>, k: nat)
    requires p == Pad(LETTER_BYTES) && k < 128
    ensures |p| == 128
    ensures p[k] == if k < 56 then LETTER_BYTES[k] else if k == 56 then 0x80 else if k == 126 then 0x01
                    else if k == 127 then 0xC0 else 0
  {
    PaddedAt(LETTER_BYTES, k);
    if k >= 120 {
      ShortLength(448, k - 120);
    }
  }

  /** Four letters, the first one the `n`th after `c`. */
  function FourLetters(c: Byte, n: nat): Word {
    BigWord(Later(c, n), Later(c, n + 1), Later(c, n + 2), Later(c, n + 3))
  }

  lemma LetterIn(p: seq<Byte>, b: seq<Byte>, i: nat, j: nat, k: nat)
    requires p == Pad(LETTER_BYTES) && |p| == 128 && b == p[..64] && i < 14 && j < 4 && k == 4 * i + j
    ensures b[k] == Later(0x61, i + j)
  {
    LettersPadded(p, k);
    assert k / 4 == i && k % 4 == j;
  }

  lemma LetterWord(p: seq<Byte>, b: seq<Byte>, i: nat)
    requires p == Pad(LETTER_BYTES) && |p| == 128 && b == p[..64] && i < 14
    ensures Words(b)[i] == FourLetters(0x61, i)
  {
    LetterIn(p, b, i, 0, 4 * i);
    LetterIn(p, b, i, 1, 4 * i + 1);
    LetterIn(p, b, i, 2, 4 * i + 2);
    LetterIn(p, b, i, 3, 4 * i + 3);
    WordIs(b, i, Later(0x61, i), Later(0x61, i + 1), Later(0x61, i + 2), Later(0x61, i + 3));
  }

  lemma LettersWord(p: seq<Byte>, b: seq<Byte>, i: nat)
    requires p == Pad(LETTER_BYTES) && |p| == 128 && b == p[..64] && i < 16
    ensures Words(b)[i] == if i < 14 then FourLetters(0x61, i) else if i == 14 then 0x80000000 else 0
  {
    if i < 14 {
      LetterWord(p, b, i);
    } else {
      LettersPadded(p, 4 * i);
      LettersPadded(p, 4 * i + 1);
      LettersPadded(p, 4 * i + 2);
      LettersPadded(p, 4 * i + 3);
      WordIs(b, i, if i == 14 then 0x80 else 0, 0, 0, 0);
    }
  }

  lemma LastWord(p: seq<Byte>, b: seq<Byte>, i: nat)
    requires p == Pad(LETTER_BYTES) && |p| == 128 && b == p[64..] && i < 16
    ensures Words(b)[i] == if i < 15 then 0 else 0x1C0
  {
    LettersPadded(p, 64 + 4 * i);
    LettersPadded(p, 64 + 4 * i + 1);
    LettersPadded(p, 64 + 4 * i + 2);
    LettersPadded(p, 64 + 4 * i + 3);
    WordIs(b, i, p[64 + 4 * i], p[64 + 4 * i + 1], p[64 + 4 * i + 2], p[64 + 4 * i + 3]);
  }

  lemma LettersWords(p: seq<Byte>)
    requires p == Pad(LETTER_BYTES)
    ensures |p| == 128 && Are(Words(p[..64]), 0, LETTERS.w0) && Are(Words(p[64..]), 0, LAST.w0)
  {
    LettersPadded(p, 0);
    forall i: nat | i < 16
      ensures Words(p[..64])[i] == if i < 14 then FourLetters(0x61, i) else if i == 14 then 0x80000000 else 0
    {
      LettersWord(p, p[..64], i);
    }
    forall i: nat | i < 16
      ensures Words(p[64..])[i] == if i < 15 then 0 else 0x1C0
    {
      LastWord(p, p[64..], i);
    }
  }

  lemma TwoBlocks(p: seq<Byte>)
    requires |p| == 128
    ensures Chain(p) == Compress(Compress(H0, p[..64]), p[64..])
  {
    OneBlock(p[..64]);
  }

  lemma LettersFirst(b: seq<Byte>)
    requires |b| == 64 && Are(Words(b), 0, LETTERS.w0)
    ensures Compress(H0, b) == BETWEEN
  {
    LettersSchedule();
    LettersRounds0();
    LettersRounds32();
    LettersRounds64();
    TraceCompresses(H0, b, LETTERS);
  }

  lemma LettersLast(b: seq<Byte>)
    requires |b| == 64 && Are(Words(b), 0, LAST.w0)
    ensures Compress(BETWEEN, b) == Regs(0x84983E44, 0x1C3BD26E, 0xBAAE4AA1, 0xF95129E5, 0xE54670F1)
  {
    LastSchedule();
    LastRounds0();
    LastRounds32();
    LastRounds64();
    TraceCompresses(BETWEEN, b, LAST);
  }

  lemma LettersChain(p: seq<Byte>)
    requires p == Pad(LETTER_BYTES)
    ensures Chain(p) == Regs(0x84983E44, 0x1C3BD26E, 0xBAAE4AA1, 0xF95129E5, 0xE54670F1)
  {
    LettersWords(p);
    TwoBlocks(p);
    LettersFirst(p[..64]);
    LettersLast(p[64..]);
  }

  lemma LettersDigest()
    ensures IsDigest(LETTER_BYTES, 0x84983E44, 0x1C3BD26E, 0xBAAE4AA1, 0xF95129E5, 0xE54670F1)
  {
    LettersChain(Pad(LETTER_BYTES));
    DigestOf(LETTER_BYTES, Regs(0x84983E44, 0x1C3BD26E, 0xBAAE4AA1, 0xF95129E5, 0xE54670F1));
  }
}
