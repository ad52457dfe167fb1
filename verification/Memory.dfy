/** Guest memory accesses (`libcpu/frontend.cpp`): every one goes through aligned 32-bit words in the
    byte order of the host, and still looks like a plain array of bytes in the order of the guest. */
module Memory {
  type Byte = bv8
  type Word = bv32

  /** The bytes of a word in memory, by increasing address. */
  datatype Quad = Quad(b0: Byte, b1: Byte, b2: Byte, b3: Byte)

  function LittleWord(q: Quad): Word {
    ((q.b3 as Word) << 24) | ((q.b2 as Word) << 16) | ((q.b1 as Word) << 8) | (q.b0 as Word)
  }

  function WordOf(little: bool, q: Quad): Word {
    LittleWord(Ordered(little, q))
  }

  function LittleBytes(w: Word): Quad {
    Quad((w & 255) as Byte, ((w >> 8) & 255) as Byte, ((w >> 16) & 255) as Byte, (w >> 24) as Byte)
  }

  function BytesOf(little: bool, w: Word): Quad {
    Ordered(little, LittleBytes(w))
  }

  function Ordered(little: bool, q: Quad): Quad {
    if little then q else Quad(q.b3, q.b2, q.b1, q.b0)
  }

  function HalfOf(little: bool, b0: Byte, b1: Byte): Word {
    if little then ((b1 as Word) << 8) | (b0 as Word) else ((b0 as Word) << 8) | (b1 as Word)
  }

  /** `llvm.bswap`. */
  function Swap32(w: Word): Word {
    (w << 24) | ((w & 0xFF00) << 8) | ((w >> 8) & 0xFF00) | (w >> 24)
  }

  lemma SwapReverses(q: Quad)
    ensures Swap32(LittleWord(q)) == LittleWord(Quad(q.b3, q.b2, q.b1, q.b0))
  {
  }

  lemma SwapReversesBytes(w: Word)
    ensures LittleBytes(Swap32(w))
         == Quad((w >> 24) as Byte, ((w >> 16) & 255) as Byte, ((w >> 8) & 255) as Byte, (w & 255) as Byte)
  {
  }

  /** Reading and writing are inverse. */
  lemma BytesOfWord(little: bool, q: Quad)
    ensures BytesOf(little, WordOf(little, q)) == q
  {
    var o := Ordered(little, q);
    LittleBytesOfWord(o.b0, o.b1, o.b2, o.b3);
    OrderedTwice(little, q);
  }

  lemma OrderedTwice(little: bool, q: Quad)
    ensures Ordered(little, Ordered(little, q)) == q
  {
  }

  lemma LittleBytesOfWord(b0: Byte, b1: Byte, b2: Byte, b3: Byte)
    ensures LittleBytes(LittleWord(Quad(b0, b1, b2, b3))) == Quad(b0, b1, b2, b3)
  {
  }

  // ---------- the shifts ----------

  /** `arch_get_shift8`: ((a & 3) ^ 3 if big) << 3. */
  function Shift8(little: bool, a: nat): (s: nat)
    ensures s == 0 || s == 8 || s == 16 || s == 24
  {
    var lane := a % 4;
    8 * if little then lane else 3 - lane
  }

  /** `arch_get_shift16`: ((a >> 1 & 1) ^ 1 if big) << 4. */
  function Shift16(little: bool, a: nat): (s: nat)
    ensures s == 0 || s == 16
  {
    var lane := a / 2 % 2;
    16 * if little then lane else 1 - lane
  }

  /** Shifts by a whole number of bytes. */
  function Shl(w: Word, s: nat): Word {
    if s == 0 then w else if s == 8 then w << 8 else if s == 16 then w << 16 else w << 24
  }

  function Lshr(w: Word, s: nat): Word {
    if s == 0 then w else if s == 8 then w >> 8 else if s == 16 then w >> 16 else w >> 24
  }

  /** What a store makes of the word that is there: the bits in `ones`, shifted, give way to `v`. */
  function Put(w: Word, ones: Word, v: Word, s: nat): Word {
    (w & (Shl(ones, s) ^ 0xFFFF_FFFF)) | Shl(v & ones, s)
  }

  function Lane(q: Quad, k: nat): Byte
    requires k < 4
  {
    if k == 0 then q.b0 else if k == 1 then q.b1 else if k == 2 then q.b2 else q.b3
  }

  function WithLane(q: Quad, k: nat, v: Byte): Quad
    requires k < 4
  {
    if k == 0 then q.(b0 := v) else if k == 1 then q.(b1 := v) else if k == 2 then q.(b2 := v) else q.(b3 := v)
  }

  function Low(w: Word): Byte {
    (w & 255) as Byte
  }

  lemma LittleLanes(w: Word)
    ensures LittleBytes(w) == Quad(Low(Lshr(w, 0)), Low(Lshr(w, 8)), Low(Lshr(w, 16)), Low(Lshr(w, 24)))
  {
  }

  /** The shift picks the byte at the address, in either order. */
  lemma PicksByte(little: bool, w: Word, a: nat)
    ensures Low(Lshr(w, Shift8(little, a))) == Lane(BytesOf(little, w), a % 4)
  {
    LittleLanes(w);
  }

  lemma Put0(w: Word, v: Word)
    ensures LittleBytes(Put(w, 255, v, 0)) == LittleBytes(w).(b0 := Low(v))
  {
  }

  lemma Put8(w: Word, v: Word)
    ensures LittleBytes(Put(w, 255, v, 8)) == LittleBytes(w).(b1 := Low(v))
  {
  }

  lemma Put16(w: Word, v: Word)
    ensures LittleBytes(Put(w, 255, v, 16)) == LittleBytes(w).(b2 := Low(v))
  {
  }

  lemma Put24(w: Word, v: Word)
    ensures LittleBytes(Put(w, 255, v, 24)) == LittleBytes(w).(b3 := Low(v))
  {
  }

  lemma PutLane(w: Word, q: Quad, k: nat, v: Word)
    requires k < 4 && LittleBytes(w) == q
    ensures LittleBytes(Put(w, 255, v, 8 * k)) == WithLane(q, k, Low(v))
  {
    if k == 0 {
      Put0(w, v);
    } else if k == 1 {
      Put8(w, v);
    } else if k == 2 {
      Put16(w, v);
    } else {
      Put24(w, v);
    }
  }

  /** Putting a byte changes the byte at the address and no other. */
  lemma ReplacesByte(little: bool, w: Word, a: nat, v: Word)
    ensures BytesOf(little, Put(w, 255, v, Shift8(little, a))) == WithLane(BytesOf(little, w), a % 4, Low(v))
  {
    var k := if little then a % 4 else 3 - a % 4;
    PutLane(w, LittleBytes(w), k, v);
    OrderedLane(little, LittleBytes(w), k, Low(v));
  }

  lemma OrderedLane(little: bool, q: Quad, k: nat, b: Byte)
    requires k < 4
    ensures Ordered(little, WithLane(q, k, b)) == WithLane(Ordered(little, q), if little then k else 3 - k, b)
  {
    if k == 0 {
    } else if k == 1 {
    } else if k == 2 {
    } else {
    }
  }

  /** The two bytes of a half word, by increasing address. */
  function HalfBytes(little: bool, v: Word): (Byte, Byte) {
    if little then (Low(v), Low(v >> 8)) else (Low(v >> 8), Low(v))
  }

  function HalfIn(little: bool, q: Quad, upper: bool): Word {
    if upper then HalfOf(little, q.b2, q.b3) else HalfOf(little, q.b0, q.b1)
  }

  lemma PicksHalf(little: bool, w: Word, a: nat, q: Quad, h: Word)
    requires q == BytesOf(little, w) && h == Lshr(w, Shift16(little, a)) & 0xFFFF
    ensures h == HalfIn(little, q, a / 2 % 2 == 1)
  {
    var l := LittleBytes(w);
    if Shift16(little, a) == 0 {
      LowHalf(w);
      Mirrored(little, l.b0, l.b1);
    } else {
      HighHalf(w);
      Mirrored(little, l.b2, l.b3);
    }
  }

  lemma Mirrored(little: bool, b0: Byte, b1: Byte)
    ensures HalfOf(true, b0, b1) == if little then HalfOf(little, b0, b1) else HalfOf(little, b1, b0)
  {
  }

  lemma LowHalf(w: Word)
    ensures w & 0xFFFF == HalfOf(true, LittleBytes(w).b0, LittleBytes(w).b1)
  {
  }

  lemma HighHalf(w: Word)
    ensures (w >> 16) & 0xFFFF == HalfOf(true, LittleBytes(w).b2, LittleBytes(w).b3)
  {
  }

  lemma PutHalf(w: Word, v: Word)
    ensures LittleBytes(Put(w, 0xFFFF, v, 0)) == LittleBytes(w).(b0 := Low(v), b1 := Low(v >> 8))
    ensures LittleBytes(Put(w, 0xFFFF, v, 16)) == LittleBytes(w).(b2 := Low(v), b3 := Low(v >> 8))
  {
  }

  function WithHalf(q: Quad, upper: bool, b0: Byte, b1: Byte): Quad {
    if upper then q.(b2 := b0, b3 := b1) else q.(b0 := b0, b1 := b1)
  }

  lemma ReplacesHalf(little: bool, w: Word, a: nat, v: Word)
    ensures var b := HalfBytes(little, v);
      BytesOf(little, Put(w, 0xFFFF, v, Shift16(little, a))) == WithHalf(BytesOf(little, w), a / 2 % 2 == 1, b.0, b.1)
  {
    var s := Shift16(little, a);
    PutHalfAt(w, v, s);
    OrderedHalf(little, LittleBytes(w), s == 16, Low(v), Low(v >> 8));
  }

  lemma PutHalfAt(w: Word, v: Word, s: nat)
    requires s == 0 || s == 16
    ensures LittleBytes(Put(w, 0xFFFF, v, s)) == WithHalf(LittleBytes(w), s == 16, Low(v), Low(v >> 8))
  {
    PutHalf(w, v);
  }

  lemma OrderedHalf(little: bool, q: Quad, upper: bool, lo: Byte, hi: Byte)
    ensures Ordered(little, WithHalf(q, upper, lo, hi))
         == if little then WithHalf(q, upper, lo, hi) else WithHalf(Ordered(false, q), !upper, hi, lo)
  {
  }

  // ---------- the memory ----------

  /** Where the word and the half word that hold `a` begin: `a & ~3`, `a & ~1`. */
  function WordBase(a: nat): (r: nat)
    ensures r % 4 == 0 && r <= a < r + 4
  {
    a - a % 4
  }

  function HalfBase(a: nat): (r: nat)
    ensures r % 2 == 0 && r <= a < r + 2
  {
    a - a % 2
  }

  lemma BasesFit(a: nat, size: nat)
    requires size % 4 == 0 && a < size
    ensures WordBase(a) + 4 <= size && HalfBase(a) + 2 <= size && a == WordBase(a) + a % 4
    ensures HalfBase(a) == WordBase(a) + if a / 2 % 2 == 1 then 2 else 0
  {
    var w, h := a / 4, a / 2;
    assert a == 4 * w + a % 4 && a == 2 * h + a % 2;
    assert h == 2 * w + h % 2;
  }

  lemma StoredLane(bytes: seq<Byte>, base: nat, k: nat, b: Byte)
    requires base + 4 <= |bytes| && k < 4
    ensures Stored(bytes, base, WithLane(QuadAt(bytes, base), k, b)) == bytes[base + k := b]
  {
    if k == 0 {
    } else if k == 1 {
    } else if k == 2 {
    } else {
    }
  }

  lemma HalfInQuad(little: bool, bytes: seq<Byte>, base: nat, upper: bool)
    requires base + 4 <= |bytes|
    ensures var at := base + if upper then 2 else 0;
      HalfIn(little, QuadAt(bytes, base), upper) == HalfOf(little, bytes[at], bytes[at + 1])
  {
  }

  lemma StoredHalf(bytes: seq<Byte>, base: nat, upper: bool, b0: Byte, b1: Byte)
    requires base + 4 <= |bytes|
    ensures var at := base + if upper then 2 else 0;
      Stored(bytes, base, WithHalf(QuadAt(bytes, base), upper, b0, b1)) == bytes[at := b0][at + 1 := b1]
  {
  }

  /** The word at `a`, as bytes. */
  function QuadAt(bytes: seq<Byte>, a: nat): Quad
    requires a + 4 <= |bytes|
  {
    Quad(bytes[a], bytes[a + 1], bytes[a + 2], bytes[a + 3])
  }

  function Stored(bytes: seq<Byte>, a: nat, q: Quad): seq<Byte>
    requires a + 4 <= |bytes|
  {
    bytes[a := q.b0][a + 1 := q.b1][a + 2 := q.b2][a + 3 := q.b3]
  }

  /** An access as the guest makes it. */
  datatype Access =
    | Load8(a: nat) | Load16(a: nat) | Load32(a: nat)
    | Store8(a: nat, v: Word) | Store16(a: nat, v: Word) | Store32(a: nat, v: Word)

  /** Aligned and inside memory; a half word on an odd address is the one that holds it. */
  predicate InMemory(size: nat, x: Access) {
    x.a < size && ((x.Load32? || x.Store32?) ==> x.a % 4 == 0)
  }

  /** What an access does to a plain array of bytes, and what it gives. */
  function Plain(little: bool, bytes: seq<Byte>, x: Access): (r: (seq<Byte>, Word))
    requires |bytes| % 4 == 0 && InMemory(|bytes|, x)
    ensures |r.0| == |bytes|
  {
    BasesFit(x.a, |bytes|);
    match x
    case Load8(a) => (bytes, bytes[a] as Word)
    case Load16(a) => (bytes, HalfOf(little, bytes[HalfBase(a)], bytes[HalfBase(a) + 1]))
    case Load32(a) => (bytes, WordOf(little, QuadAt(bytes, a)))
    case Store8(a, v) => (bytes[a := Low(v)], 0)
    case Store16(a, v) => (WithHalfAt(bytes, HalfBase(a), HalfBytes(little, v)), 0)
    case Store32(a, v) => (Stored(bytes, a, BytesOf(little, v)), 0)
  }

  function WithHalfAt(bytes: seq<Byte>, at: nat, b: (Byte, Byte)): seq<Byte>
    requires at + 2 <= |bytes|
  {
    bytes[at := b.0][at + 1 := b.1]
  }

  function PlainRun(little: bool, bytes: seq<Byte>, xs: seq<Access>): (r: (seq<Byte>, seq<Word>))
    requires |bytes| % 4 == 0 && forall k | 0 <= k < |xs| :: InMemory(|bytes|, xs[k])
    ensures |r.0| == |bytes| && |r.1| == |xs|
  {
    if xs == [] then (bytes, [])
    else
      var before := PlainRun(little, bytes, xs[..|xs| - 1]);
      var last := Plain(little, before.0, xs[|xs| - 1]);
      (last.0, before.1 + [last.1])
  }

  /** The guest's memory in the host's. */
  class Ram {
    const data: array<Byte>
    const hostLittle: bool
    const guestLittle: bool
    const swap: bool               // CPU_FLAG_SWAPMEM

    ghost predicate Valid() {
      data.Length % 4 == 0 && swap == (hostLittle != guestLittle)
    }

    constructor (data: array<Byte>, hostLittle: bool, guestLittle: bool)
      requires data.Length % 4 == 0
      ensures Valid() && this.data == data && this.hostLittle == hostLittle && this.guestLittle == guestLittle
    {
      this.data, this.hostLittle, this.guestLittle := data, hostLittle, guestLittle;
      swap := hostLittle != guestLittle;
    }

    /** A load and a store as the host does them. */
    method HostLoad(a: nat) returns (w: Word)
      requires a + 4 <= data.Length
      ensures w == WordOf(hostLittle, QuadAt(data[..], a))
    {
      w := WordOf(hostLittle, Quad(data[a], data[a + 1], data[a + 2], data[a + 3]));
    }

    method HostStore(w: Word, a: nat)
      requires a + 4 <= data.Length
      modifies data
      ensures data[..] == Stored(old(data[..]), a, BytesOf(hostLittle, w))
    {
      var q := BytesOf(hostLittle, w);
      data[a] := q.b0;
      data[a + 1] := q.b1;
      data[a + 2] := q.b2;
      data[a + 3] := q.b3;
    }

    method Load32Aligned(a: nat) returns (w: Word)
      requires Valid() && a + 4 <= data.Length
      ensures BytesOf(guestLittle, w) == QuadAt(data[..], a)
    {
      w := HostLoad(a);
      Swapped(hostLittle, QuadAt(data[..], a));
      BytesOfWord(guestLittle, QuadAt(data[..], a));
      if swap {
        w := Swap32(w);
      }
    }

    method Store32Aligned(v: Word, a: nat)
      requires Valid() && a + 4 <= data.Length
      modifies data
      ensures data[..] == Stored(old(data[..]), a, BytesOf(guestLittle, v))
    {
      SwappedBytes(hostLittle, v);
      HostStore(if swap then Swap32(v) else v, a);
    }

    method LoadByte(a: nat) returns (b: Byte)
      requires Valid() && a < data.Length
      ensures b == data[a]
    {
      BasesFit(a, data.Length);
      var w := Load32Aligned(WordBase(a));
      PicksByte(guestLittle, w, a);
      b := Low(Lshr(w, Shift8(guestLittle, a)));
    }

    method LoadHalf(a: nat) returns (h: Word)
      requires Valid() && a < data.Length
      ensures HalfBase(a) + 2 <= data.Length && h == HalfOf(guestLittle, data[HalfBase(a)], data[HalfBase(a) + 1])
    {
      BasesFit(a, data.Length);
      h := ShiftOutHalf(a);
      HalfInQuad(guestLittle, data[..], WordBase(a), a / 2 % 2 == 1);
    }

    method ShiftOutHalf(a: nat) returns (h: Word)
      requires Valid() && WordBase(a) + 4 <= data.Length
      ensures h == HalfIn(guestLittle, QuadAt(data[..], WordBase(a)), a / 2 % 2 == 1)
    {
      var w := Load32Aligned(WordBase(a));
      h := HalfOfWord(w, a, QuadAt(data[..], WordBase(a)));
    }

    method HalfOfWord(w: Word, a: nat, ghost q: Quad) returns (h: Word)
      requires BytesOf(guestLittle, w) == q
      ensures h == HalfIn(guestLittle, q, a / 2 % 2 == 1)
    {
      h := Lshr(w, Shift16(guestLittle, a)) & 0xFFFF;
      PicksHalf(guestLittle, w, a, q, h);
    }

    method StoreByte(v: Word, a: nat)
      requires Valid() && a < data.Length
      modifies data
      ensures data[..] == old(data[..])[a := Low(v)]
    {
      BasesFit(a, data.Length);
      var w := Load32Aligned(WordBase(a));
      ReplacesByte(guestLittle, w, a, v);
      StoredLane(data[..], WordBase(a), a % 4, Low(v));
      Store32Aligned(Put(w, 255, v, Shift8(guestLittle, a)), WordBase(a));
    }

    method StoreHalf(v: Word, a: nat)
      requires Valid() && a < data.Length
      modifies data
      ensures HalfBase(a) + 2 <= data.Length
      ensures data[..] == WithHalfAt(old(data[..]), HalfBase(a), HalfBytes(guestLittle, v))
    {
      BasesFit(a, data.Length);
      var w := Load32Aligned(WordBase(a));
      ReplacesHalf(guestLittle, w, a, v);
      StoredHalf(data[..], WordBase(a), a / 2 % 2 == 1, HalfBytes(guestLittle, v).0, HalfBytes(guestLittle, v).1);
      Store32Aligned(Put(w, 0xFFFF, v, Shift16(guestLittle, a)), WordBase(a));
    }

    method Do(x: Access) returns (r: Word)
      requires Valid() && InMemory(data.Length, x)
      modifies data
      ensures (data[..], r) == Plain(guestLittle, old(data[..]), x)
    {
      r := 0;
      match x
      case Load8(a) =>
        var b := LoadByte(a);
        r := b as Word;
      case Load16(a) => r := LoadHalf(a);
      case Load32(a) =>
        r := Load32Aligned(a);
        WordOfBytes(guestLittle, r);
      case Store8(a, v) => StoreByte(v, a);
      case Store16(a, v) => StoreHalf(v, a);
      case Store32(a, v) => Store32Aligned(v, a);
    }

    /** No run of accesses can be told from the same run on a plain array of bytes, whatever the
        byte orders are. */
    method Run(xs: seq<Access>) returns (rs: seq<Word>)
      requires Valid() && forall k | 0 <= k < |xs| :: InMemory(data.Length, xs[k])
      modifies data
      ensures (data[..], rs) == PlainRun(guestLittle, old(data[..]), xs)
    {
      rs := [];
      for k := 0 to |xs|
        invariant (data[..], rs) == PlainRun(guestLittle, old(data[..]), xs[..k])
      {
        assert xs[..k + 1][..k] == xs[..k];
        var r := Do(xs[k]);
        rs := rs + [r];
      }
      assert xs[..|xs|] == xs;
    }
  }

  lemma Swapped(little: bool, q: Quad)
    ensures Swap32(WordOf(little, q)) == WordOf(!little, q)
  {
    SwapReverses(Ordered(little, q));
  }

  lemma SwappedBytes(little: bool, w: Word)
    ensures BytesOf(little, Swap32(w)) == BytesOf(!little, w)
  {
    SwapReversesBytes(w);
  }

  // ---------- what the plain array promises ----------

  /** A store changes only its own bytes. */
  lemma StoreChangesOwnBytes(little: bool, bytes: seq<Byte>, x: Access, k: nat)
    requires |bytes| % 4 == 0 && InMemory(|bytes|, x) && k < |bytes|
    requires x.Store8? ==> k != x.a
    requires x.Store16? ==> k / 2 != x.a / 2
    requires x.Store32? ==> k / 4 != x.a / 4
    ensures Plain(little, bytes, x).0[k] == bytes[k]
  {
  }

  /** What was stored is what is loaded. */
  lemma LoadsStoredByte(little: bool, bytes: seq<Byte>, a: nat, v: Word)
    requires |bytes| % 4 == 0 && a < |bytes|
    ensures Plain(little, Plain(little, bytes, Store8(a, v)).0, Load8(a)).1 == v & 0xFF
  {
    LowIsLow(v);
  }

  lemma LoadsStoredHalf(little: bool, bytes: seq<Byte>, a: nat, v: Word)
    requires |bytes| % 4 == 0 && a < |bytes|
    ensures Plain(little, Plain(little, bytes, Store16(a, v)).0, Load16(a)).1 == v & 0xFFFF
  {
    BasesFit(a, |bytes|);
    HalfOfBytes(little, v);
  }

  lemma LoadsStoredWord(little: bool, bytes: seq<Byte>, a: nat, v: Word)
    requires |bytes| % 4 == 0 && a < |bytes| && a % 4 == 0
    ensures Plain(little, Plain(little, bytes, Store32(a, v)).0, Load32(a)).1 == v
  {
    WordOfBytes(little, v);
    assert QuadAt(Stored(bytes, a, BytesOf(little, v)), a) == BytesOf(little, v);
  }

  lemma HalfOfBytes(little: bool, v: Word)
    ensures HalfOf(little, HalfBytes(little, v).0, HalfBytes(little, v).1) == v & 0xFFFF
  {
    TwoBytes(v);
    Mirrored(little, Low(v), Low(v >> 8));
  }

  lemma TwoBytes(v: Word)
    ensures HalfOf(true, Low(v), Low(v >> 8)) == v & 0xFFFF
  {
  }

  lemma LowIsLow(v: Word)
    ensures Low(v) as Word == v & 0xFF
  {
  }

  lemma WordOfBytes(little: bool, v: Word)
    ensures WordOf(little, BytesOf(little, v)) == v
  {
    LittleWordOfBytes(v);
  }

  lemma LittleWordOfBytes(v: Word)
    ensures LittleWord(LittleBytes(v)) == v
  {
  }
}
