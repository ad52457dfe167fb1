/** Lengths and operands of common encodings, by their bytes. */
module X86Lengths {
  import opened Guest
  import opened X86Tables
  import opened X86Spec
  import opened X86Format

  /** The instruction at `start`, `length` bytes long, with `src` for its source operand. */
  ghost predicate Decodes(t: Tables, ram: Ram, start: nat, stop: nat, intel: bool, length: nat, src: Operand)
    requires start <= stop && !IsPrefix(t, ram(stop))
  {
    var d := Describe(t, ram, start, stop, intel);
    d.Some? && d.value.length == length && d.value.src == src
  }

  /** An entry for an instruction of which the opcode says all, but for what is read after it. */
  predicate IsPlain(e: Entry) {
    (e.Op? || (e.Diff? && e.syntax != 0)) && !HasModrm(e.mode) && !e.mode.AccMoffset? && !e.mode.MoffsetAcc?
  }

  lemma PlainLength(ram: Ram, start: nat, o: nat, p: Prefixes, f: Found)
    requires start <= o && !HasModrm(f.mode) && !f.mode.AccMoffset? && !f.mode.MoffsetAcc?
    ensures LayoutOf(ram, o, p, f) == Layout(0, 0, 0, ImmBytes(f.mode, f.width))
    ensures Instruction(ram, start, o, p, f).length == o - start + 1 + ImmBytes(f.mode, f.width)
  {
  }

  lemma PlainInstruction(ram: Ram, start: nat, o: nat, p: Prefixes, f: Found, src: Operand)
    requires start <= o && !HasModrm(f.mode) && !f.mode.AccMoffset? && !f.mode.MoffsetAcc?
    requires src == PlainSource(f.mode, ram(o), 0, 0, Data0(ram, o + 1, f.mode, f.width),
                                Data1(ram, o + 1, f.mode, f.width))
    ensures Instruction(ram, start, o, p, f).src == src
  {
    PlainLength(ram, start, o, p, f);
    var x := Parse(ram, o, p, f);
    assert x.opcode == ram(o) && x.modrm == 0 && x.disp == 0;
    assert x.data0 == Data0(ram, o + 1, f.mode, f.width) && x.data1 == Data1(ram, o + 1, f.mode, f.width);
  }

  lemma PlainAt(t: Tables, ram: Ram, start: nat, stop: nat, intel: bool, o: nat, p: Prefixes, e: Entry, f: Found,
                src: Operand)
    requires start <= stop && !IsPrefix(t, ram(stop)) && e == TableEntry(t, p, ram(o)) && IsPlain(e)
    requires OpcodeAt(t, ram, start, stop) == o && PrefixesAt(t, ram, start, stop, NO_PREFIXES) == p
    requires f == Found(e.mode, Resized(e.width, p.op == 1))
    requires src == PlainSource(f.mode, ram(o), 0, 0, Data0(ram, o + 1, f.mode, f.width),
                                Data1(ram, o + 1, f.mode, f.width))
    ensures Decodes(t, ram, start, stop, intel, o - start + 1 + ImmBytes(f.mode, f.width), src)
  {
    PlainLength(ram, start, o, p, f);
    PlainInstruction(ram, start, o, p, f, src);
  }

  /** What 0F and 66 are in this table. */
  predicate KnowsPrefixes(t: Tables) {
    t.one(0x0F) == Prefix(5, 1) && t.one(0x66) == Prefix(4, 1)
  }

  /** No prefix, 0F alone, 66 alone, and both. */
  lemma PrefixesAre(t: Tables, ram: Ram, start: nat, stop: nat, p: Prefixes)
    requires start <= stop && !IsPrefix(t, ram(stop)) && KnowsPrefixes(t)
    ensures var o, p' := OpcodeAt(t, ram, start, stop), PrefixesAt(t, ram, start, stop, p);
      && (!IsPrefix(t, ram(start)) ==> o == start && p' == p)
      && (ram(start) == 0x0F ==> o == start + 1 && p' == p.(two := 1))
  {
  }

  lemma SizedPrefixesAre(t: Tables, ram: Ram, start: nat, stop: nat)
    requires start <= stop && !IsPrefix(t, ram(stop)) && KnowsPrefixes(t) && ram(start) == 0x66
    ensures var o, p := OpcodeAt(t, ram, start, stop), PrefixesAt(t, ram, start, stop, NO_PREFIXES);
      && (!IsPrefix(t, ram(start + 1)) ==> o == start + 1 && p == NO_PREFIXES.(op := 1))
      && (ram(start + 1) == 0x0F ==> o == start + 2 && p == NO_PREFIXES.(op := 1, two := 1))
  {
    PrefixesAre(t, ram, start + 1, stop, NO_PREFIXES.(op := 1));
  }

  /** The shapes that the encodings below have: nothing before the opcode, 0F, 66, or both. */
  lemma Bare(t: Tables, ram: Ram, start: nat, stop: nat, intel: bool, e: Entry, src: Operand, n: nat)
    requires start <= stop && !IsPrefix(t, ram(stop)) && KnowsPrefixes(t)
    requires t.one(ram(start)) == e && IsPlain(e) && n == 1 + ImmBytes(e.mode, e.width)
    requires src == PlainSource(e.mode, ram(start), 0, 0, Data0(ram, start + 1, e.mode, e.width),
                                Data1(ram, start + 1, e.mode, e.width))
    ensures Decodes(t, ram, start, stop, intel, n, src)
  {
    PrefixesAre(t, ram, start, stop, NO_PREFIXES);
    PlainAt(t, ram, start, stop, intel, start, NO_PREFIXES, e, Found(e.mode, e.width), src);
  }

  lemma TwoByte(t: Tables, ram: Ram, start: nat, stop: nat, intel: bool, m: Mode, w: Width, src: Operand, n: nat)
    requires start <= stop && !IsPrefix(t, ram(stop)) && KnowsPrefixes(t) && ram(start) == 0x0F
    requires t.two(ram(start + 1)) == Op(m, w) && IsPlain(Op(m, w)) && n == 2 + ImmBytes(m, w)
    requires src == PlainSource(m, ram(start + 1), 0, 0, Data0(ram, start + 2, m, w), Data1(ram, start + 2, m, w))
    ensures Decodes(t, ram, start, stop, intel, n, src)
  {
    var o, p, e := start + 1, NO_PREFIXES.(two := 1), Op(m, w);
    PrefixesAre(t, ram, start, stop, NO_PREFIXES);
    assert TableEntry(t, p, ram(o)) == e && Resized(w, p.op == 1) == w;
    PlainAt(t, ram, start, stop, intel, o, p, e, Found(m, w), src);
  }

  lemma Sized(t: Tables, ram: Ram, start: nat, stop: nat, intel: bool, m: Mode, w: Width, w': Width, src: Operand,
              n: nat)
    requires start <= stop && !IsPrefix(t, ram(stop)) && KnowsPrefixes(t) && ram(start) == 0x66
    requires t.one(ram(start + 1)) == Op(m, w) && IsPlain(Op(m, w))
    requires w' == Resized(w, true) && n == 2 + ImmBytes(m, w')
    requires src == PlainSource(m, ram(start + 1), 0, 0, Data0(ram, start + 2, m, w'), Data1(ram, start + 2, m, w'))
    ensures Decodes(t, ram, start, stop, intel, n, src)
  {
    SizedPrefixesAre(t, ram, start, stop);
    PlainAt(t, ram, start, stop, intel, start + 1, NO_PREFIXES.(op := 1), Op(m, w), Found(m, w'), src);
  }

  lemma SizedTwoByte(t: Tables, ram: Ram, start: nat, stop: nat, intel: bool, m: Mode, w: Width, w': Width,
                     src: Operand, n: nat)
    requires start <= stop && !IsPrefix(t, ram(stop)) && KnowsPrefixes(t)
    requires ram(start) == 0x66 && ram(start + 1) == 0x0F
    requires t.two(ram(start + 2)) == Op(m, w) && IsPlain(Op(m, w))
    requires w' == Resized(w, true) && n == 3 + ImmBytes(m, w')
    requires src == PlainSource(m, ram(start + 2), 0, 0, Data0(ram, start + 3, m, w'), Data1(ram, start + 3, m, w'))
    ensures Decodes(t, ram, start, stop, intel, n, src)
  {
    SizedPrefixesAre(t, ram, start, stop);
    PlainAt(t, ram, start, stop, intel, start + 2, NO_PREFIXES.(op := 1, two := 1), Op(m, w), Found(m, w'), src);
  }

  predicate IsShortJump(b: Byte) {
    0x70 <= b <= 0x7F || 0xE0 <= b <= 0xE3 || b == 0xEB
  }

  lemma ShortJumpsTo(ram: Ram, start: nat, stop: nat, intel: bool, target: bv32)
    requires start <= stop && !IsPrefix(X86_TABLES, ram(stop)) && IsShortJump(ram(start))
    requires target == S8(ram, start + 1)
    ensures Decodes(X86_TABLES, ram, start, stop, intel, 2, RelOp(target))
  {
    Bare(X86_TABLES, ram, start, stop, intel, Op(Rel, Byte8), RelOp(target), 2);
  }

  /** Short jumps are two bytes; the target is the second one with its sign. */
  lemma ShortJumps(ram: Ram, start: nat, stop: nat, intel: bool, x: Byte)
    requires start <= stop && !IsPrefix(X86_TABLES, ram(stop)) && IsShortJump(ram(start)) && x == ram(start + 1)
    ensures Decodes(X86_TABLES, ram, start, stop, intel, 2, RelOp((x as bv32) - (if x >= 128 then 0x100 else 0)))
  {
    SignedSums(ram, start + 1);
    ShortJumpsTo(ram, start, stop, intel, (x as bv32) - (if x >= 128 then 0x100 else 0));
  }

  /** Near calls and jumps are five bytes. */
  lemma NearJumps(ram: Ram, start: nat, stop: nat, intel: bool)
    requires start <= stop && !IsPrefix(X86_TABLES, ram(stop)) && (ram(start) == 0xE8 || ram(start) == 0xE9)
    ensures Decodes(X86_TABLES, ram, start, stop, intel, 5, RelOp(U32(ram, start + 1)))
  {
    Bare(X86_TABLES, ram, start, stop, intel, Op(Rel, Dword32), RelOp(U32(ram, start + 1)), 5);
  }

  /** Near conditional jumps are six bytes, with 0F and the opcode. */
  lemma NearConditionals(ram: Ram, start: nat, stop: nat, intel: bool)
    requires start <= stop && !IsPrefix(X86_TABLES, ram(stop)) && ram(start) == 0x0F && 0x80 <= ram(start + 1) <= 0x8F
    ensures Decodes(X86_TABLES, ram, start, stop, intel, 6, RelOp(U32(ram, start + 2)))
  {
    TwoByte(X86_TABLES, ram, start, stop, intel, Rel, Dword32, RelOp(U32(ram, start + 2)), 6);
  }

  /** After a 66 their target is two bytes: four bytes and the prefix. */
  lemma SizedConditionals(ram: Ram, start: nat, stop: nat, intel: bool)
    requires start <= stop && !IsPrefix(X86_TABLES, ram(stop))
    requires ram(start) == 0x66 && ram(start + 1) == 0x0F && 0x80 <= ram(start + 2) <= 0x8F
    ensures Decodes(X86_TABLES, ram, start, stop, intel, 5, RelOp(S16(ram, start + 3)))
  {
    SizedTwoByte(X86_TABLES, ram, start, stop, intel, Rel, Dword32, Word16, RelOp(S16(ram, start + 3)), 5);
  }

  /** A 66 changes the length of a short jump by its own byte only. */
  lemma SizedShortJumps(ram: Ram, start: nat, stop: nat, intel: bool)
    requires start <= stop && !IsPrefix(X86_TABLES, ram(stop)) && ram(start) == 0x66 && IsShortJump(ram(start + 1))
    ensures Decodes(X86_TABLES, ram, start, stop, intel, 3, RelOp(S8(ram, start + 2)))
  {
    Sized(X86_TABLES, ram, start, stop, intel, Rel, Byte8, Byte8, RelOp(S8(ram, start + 2)), 3);
  }

  /** INC, DEC, PUSH and POP of a register are one byte, and its low bits are the register. */
  lemma RegisterOpcodes(ram: Ram, start: nat, stop: nat, intel: bool)
    requires start <= stop && !IsPrefix(X86_TABLES, ram(stop)) && 0x40 <= ram(start) <= 0x5F
    ensures Decodes(X86_TABLES, ram, start, stop, intel, 1, RegOp(ram(start) & 7))
  {
    Bare(X86_TABLES, ram, start, stop, intel, Op(Reg, Dword32), RegOp(ram(start) & 7), 1);
  }

  /** Arithmetic on the accumulator: bit 0 of the opcode says whether the immediate operand is one byte
      or four. */
  lemma ByteArithmetic(ram: Ram, start: nat, stop: nat, intel: bool)
    requires start <= stop && !IsPrefix(X86_TABLES, ram(stop)) && ram(start) < 0x40 && ram(start) & 7 == 4
    ensures Decodes(X86_TABLES, ram, start, stop, intel, 2, ImmOp(U8(ram, start + 1)))
  {
    Bare(X86_TABLES, ram, start, stop, intel, Op(ImmAcc, Byte8), ImmOp(U8(ram, start + 1)), 2);
  }

  lemma DwordArithmetic(ram: Ram, start: nat, stop: nat, intel: bool)
    requires start <= stop && !IsPrefix(X86_TABLES, ram(stop)) && ram(start) < 0x40 && ram(start) & 7 == 5
    ensures Decodes(X86_TABLES, ram, start, stop, intel, 5, ImmOp(U32(ram, start + 1)))
  {
    Bare(X86_TABLES, ram, start, stop, intel, Op(ImmAcc, Dword32), ImmOp(U32(ram, start + 1)), 5);
  }

  lemma FarPointer(t: Tables, ram: Ram, start: nat, stop: nat, intel: bool, i: nat)
    requires start <= stop && !IsPrefix(t, ram(stop)) && KnowsPrefixes(t) && i != 0
    requires t.one(ram(start)) == Diff(i, FarPtr, Dword32)
    ensures Decodes(t, ram, start, stop, intel, 7, FarOp(U32(ram, start + 1), U16(ram, start + 5)))
  {
    Bare(t, ram, start, stop, intel, Diff(i, FarPtr, Dword32), FarOp(U32(ram, start + 1), U16(ram, start + 5)), 7);
  }

  /** Far calls and jumps: an offset of four bytes and a segment of two. */
  lemma FarPointers(ram: Ram, start: nat, stop: nat, intel: bool)
    requires start <= stop && !IsPrefix(X86_TABLES, ram(stop)) && (ram(start) == 0x9A || ram(start) == 0xEA)
    ensures Decodes(X86_TABLES, ram, start, stop, intel, 7, FarOp(U32(ram, start + 1), U16(ram, start + 5)))
  {
    FarPointer(X86_TABLES, ram, start, stop, intel, if ram(start) == 0x9A then 3 else 6);
  }

  /** ENTER is four bytes; the last one is the nesting level. */
  lemma EnterInstruction(ram: Ram, start: nat, stop: nat, intel: bool)
    requires start <= stop && !IsPrefix(X86_TABLES, ram(stop)) && ram(start) == 0xC8
    ensures Decodes(X86_TABLES, ram, start, stop, intel, 4, ImmOp(U8(ram, start + 3)))
  {
    Bare(X86_TABLES, ram, start, stop, intel, Op(Imm8Imm16, Word16), ImmOp(U8(ram, start + 3)), 4);
  }

  /** RET with an operand is three bytes. */
  lemma ReturnAndPop(ram: Ram, start: nat, stop: nat, intel: bool)
    requires start <= stop && !IsPrefix(X86_TABLES, ram(stop)) && ram(start) == 0xC2
    ensures Decodes(X86_TABLES, ram, start, stop, intel, 3, ImmOp(U16(ram, start + 1)))
  {
    Bare(X86_TABLES, ram, start, stop, intel, Op(Imm, Word16), ImmOp(U16(ram, start + 1)), 3);
  }

  // ---------- the ModRM byte ----------

  /** Its three fields, two, three and three bits. */
  lemma ModrmFields(m: Byte)
    ensures ModOf(m) < 4 && RegOf(m) < 8 && RmOf(m) < 8 && m == 64 * ModOf(m) + 8 * RegOf(m) + RmOf(m)
  {
  }

  /** What follows it with 32-bit addresses, by the byte `m` itself and the SIB byte `s`. */
  lemma LongAddresses(ram: Ram, o: nat, p: Prefixes, f: Found, m: Byte, s: Byte)
    requires HasModrm(f.mode) && p.addr != 1 && m == ram(o + 1) && s == ram(o + 2)
    ensures var l := LayoutOf(ram, o, p, f);
      && l.modrm == 1 && l.sib == (if m < 0xC0 && m & 7 == 4 then 1 else 0)
      && l.disp == if m >= 0xC0 then 0 else if m >= 0x80 then 4 else if m >= 0x40 then 1
                   else if m & 7 == 5 || (m & 7 == 4 && s & 7 == 5) then 4 else 0
  {
  }

  /** And with 16-bit addresses. */
  lemma ShortAddresses(ram: Ram, o: nat, p: Prefixes, f: Found, m: Byte)
    requires HasModrm(f.mode) && p.addr == 1 && m == ram(o + 1)
    ensures var l := LayoutOf(ram, o, p, f);
      && l.modrm == 1 && l.sib == 0
      && l.disp == if m >= 0xC0 then 0 else if m >= 0x80 then 2 else if m >= 0x40 then 1
                   else if m & 7 == 6 then 2 else 0
  {
  }
}
