/** What the opcode tables of `arch/x86/x86_decode.cpp` hold, by opcode byte and without regard to how
    they are written down. */
module X86TableLaws {
  import opened X86Tables

  predicate IsNamed(e: Entry) { e.Group? || e.Diff? || e.Op? }
  function ModeOf(e: Entry): Mode { if IsNamed(e) then e.mode else NoMode }
  predicate IsGroup(e: Entry, g: nat) { e.Group? && e.number == g }
  predicate IsDiff(e: Entry, i: nat) { e.Diff? && e.syntax == i }

  /** The segment prefixes of the first table, and the bytes it does not define. */
  lemma OneSegmentPrefixes(b: Byte, e: Entry)
    requires e == X86_TABLES.one(b)
    ensures e.Undefined? <==> 0xD8 <= b <= 0xDF || b in {0x9B, 0xD6, 0xF1}
    ensures e == Prefix(0, 1) <==> b == 0x26
    ensures e == Prefix(0, 2) <==> b == 0x2E
    ensures e == Prefix(0, 3) <==> b == 0x36
    ensures e == Prefix(0, 4) <==> b == 0x3E
    ensures e == Prefix(0, 5) <==> b == 0x64
    ensures e == Prefix(0, 6) <==> b == 0x65
  {
  }

  /** Its other prefixes, with what each of them sets. */
  lemma OneOtherPrefixes(b: Byte, e: Entry)
    requires e == X86_TABLES.one(b)
    ensures e == Prefix(1, 1) <==> b == 0xF2
    ensures e == Prefix(1, 2) <==> b == 0xF3
    ensures e == Prefix(2, 1) <==> b == 0xF0
    ensures e == Prefix(3, 1) <==> b == 0x67
    ensures e == Prefix(4, 1) <==> b == 0x66
    ensures e == Prefix(5, 1) <==> b == 0x0F
  {
  }

  /** Its groups, and its entries of two syntaxes. */
  lemma OneGroups(b: Byte, e: Entry)
    requires e == X86_TABLES.one(b)
    ensures IsGroup(e, 1) <==> 0x80 <= b <= 0x83
    ensures IsGroup(e, 2) <==> 0xD0 <= b <= 0xD3 || b in {0xC0, 0xC1}
    ensures IsGroup(e, 3) <==> b in {0xF6, 0xF7}
    ensures IsGroup(e, 4) <==> b == 0xFE
    ensures IsGroup(e, 5) <==> b == 0xFF
    ensures IsDiff(e, 0) <==> b == 0x62
    ensures IsDiff(e, 1) <==> b == 0x98
    ensures IsDiff(e, 2) <==> b == 0x99
    ensures IsDiff(e, 3) <==> b == 0x9A
    ensures IsDiff(e, 4) <==> b == 0xCA
    ensures IsDiff(e, 5) <==> b == 0xCB
    ensures IsDiff(e, 6) <==> b == 0xEA
    ensures e.Op? <==>
        b < 0x0F || 0x10 <= b <= 0x25 || 0x27 <= b <= 0x2D || 0x2F <= b <= 0x35 || 0x37 <= b <= 0x3D ||
        0x3F <= b <= 0x61 || 0x68 <= b <= 0x7F || 0x84 <= b <= 0x97 || 0x9C <= b <= 0xBF || 0xC2 <= b <= 0xC9 ||
        0xCC <= b <= 0xCF || 0xE0 <= b <= 0xE9 || 0xEB <= b <= 0xEF || 0xF8 <= b <= 0xFD ||
        b in {0x63, 0xD4, 0xD5, 0xD7, 0xF4, 0xF5}
  {
  }

  /** The bytes of each addressing mode with a ModRM byte. */
  lemma OneModrmModes(b: Byte, e: Entry)
    requires e == X86_TABLES.one(b)
    ensures ModeOf(e).RegRm? <==> (b < 0x40 && b & 6 == 0) || 0x84 <= b <= 0x89 || b == 0x63
    ensures ModeOf(e).RmReg? <==> (b < 0x40 && b & 6 == 2) || b in {0x62, 0x8A, 0x8B, 0x8D, 0xC4, 0xC5}
    ensures ModeOf(e).Rm? <==> 0xD0 <= b <= 0xD3 || b in {0x8F, 0xF6, 0xF7, 0xFE, 0xFF}
    ensures ModeOf(e).ImmRm? <==> b in {0x81, 0xC7}
    ensures ModeOf(e).Imm8Rm? <==> b in {0x80, 0x82, 0x83, 0xC0, 0xC1, 0xC6}
    ensures ModeOf(e).RmImmReg? <==> b == 0x69
    ensures ModeOf(e).RmImm8Reg? <==> b == 0x6B
    ensures ModeOf(e).Seg3RegRm? <==> b == 0x8C
    ensures ModeOf(e).RmSeg3Reg? <==> b == 0x8E
  {
  }

  /** Of each mode with an immediate operand alone. */
  lemma OneImmediateModes(b: Byte, e: Entry)
    requires e == X86_TABLES.one(b)
    ensures ModeOf(e).ImmAcc? <==> (b < 0x40 && b & 6 == 4) || b in {0xA8, 0xA9}
    ensures ModeOf(e).ImmReg? <==> 0xB0 <= b <= 0xBF
    ensures ModeOf(e).Imm? <==> b in {0x68, 0x6A, 0xC2, 0xCA, 0xCD, 0xD4, 0xD5, 0xE4, 0xE6}
    ensures ModeOf(e).Imm8? <==> b in {0xE5, 0xE7}
    ensures ModeOf(e).Imm8Imm16? <==> b == 0xC8
  {
  }

  /** Of each mode with an address or a target after the opcode. */
  lemma OneAddressModes(b: Byte, e: Entry)
    requires e == X86_TABLES.one(b)
    ensures ModeOf(e).FarPtr? <==> b in {0x9A, 0xEA}
    ensures ModeOf(e).Rel? <==> 0x70 <= b <= 0x7F || 0xE0 <= b <= 0xE3 || b in {0xE8, 0xE9, 0xEB}
    ensures ModeOf(e).MoffsetAcc? <==> b in {0xA0, 0xA1}
    ensures ModeOf(e).AccMoffset? <==> b in {0xA2, 0xA3}
  {
  }

  /** And of the modes without more bytes. */
  lemma OneShortModes(b: Byte, e: Entry)
    requires e == X86_TABLES.one(b)
    ensures ModeOf(e).Reg? <==> 0x40 <= b <= 0x5F
    ensures ModeOf(e).AccReg? <==> 0x91 <= b <= 0x97
    ensures ModeOf(e).Seg2Reg? <==> b in {0x06, 0x07, 0x0E, 0x16, 0x17, 0x1E, 0x1F}
  {
  }

  /** Instructions with nothing but the opcode, in the lower half. */
  lemma OneImpliedLow(b: Byte, e: Entry)
    requires b < 0x80 && e == X86_TABLES.one(b)
    ensures ModeOf(e).Implied? <==> 0x6C <= b <= 0x6F || b in {0x27, 0x2F, 0x37, 0x3F, 0x60, 0x61}
  {
  }

  /** The bytes of each width, in the lower half: in the arithmetic rows bit 0 decides. */
  lemma OneNarrowWidthsLow(b: Byte, e: Entry)
    requires b < 0x80 && e == X86_TABLES.one(b)
    ensures IsNamed(e) && e.width.Byte8? <==>
        (b < 0x40 && b & 1 == 0 && b & 6 != 6) || 0x70 <= b <= 0x7F || b in {0x6A, 0x6C, 0x6E}
    ensures IsNamed(e) && e.width.Word16? <==> b == 0x63
  {
  }

  /** The other widths there. */
  lemma OneDwordsLow(b: Byte, e: Entry)
    requires b < 0x80 && e == X86_TABLES.one(b)
    ensures IsNamed(e) && e.width.Dword32? <==>
        (b < 0x40 && b & 1 == 1 && b & 6 != 6) || 0x40 <= b <= 0x61 ||
        b in {0x06, 0x07, 0x0E, 0x16, 0x17, 0x1E, 0x1F, 0x68, 0x69, 0x6B, 0x6D, 0x6F}
  {
  }

  /** And entries without a width. */
  lemma OneNoWidthLow(b: Byte, e: Entry)
    requires b < 0x80 && e == X86_TABLES.one(b)
    ensures IsNamed(e) && e.width.NoWidth? <==> b in {0x27, 0x2F, 0x37, 0x3F, 0x62}
  {
  }

  /** In the upper half. */
  lemma OneImpliedHigh(b: Byte, e: Entry)
    requires b >= 0x80 && e == X86_TABLES.one(b)
    ensures ModeOf(e).Implied? <==>
        0x9C <= b <= 0x9F || 0xA4 <= b <= 0xA7 || 0xAA <= b <= 0xAF || 0xEC <= b <= 0xEF || 0xF8 <= b <= 0xFD ||
        b in {0x90, 0x98, 0x99, 0xC3, 0xC9, 0xCB, 0xCC, 0xCE, 0xCF, 0xD7, 0xF4, 0xF5}
  {
  }

  /** The narrow widths in the upper half. */
  lemma OneNarrowWidthsHigh(b: Byte, e: Entry)
    requires b >= 0x80 && e == X86_TABLES.one(b)
    ensures IsNamed(e) && e.width.Byte8? <==>
        0xB0 <= b <= 0xB7 || 0xE0 <= b <= 0xE4 ||
        b in {0x80, 0x82, 0x84, 0x86, 0x88, 0x8A, 0xA0, 0xA2, 0xA4, 0xA6, 0xA8, 0xAA, 0xAC, 0xAE, 0xC0, 0xC6, 0xCD,
              0xD0, 0xD2, 0xD4, 0xD5, 0xE6, 0xEB, 0xEC, 0xEE, 0xF6, 0xFE}
    ensures IsNamed(e) && e.width.Word16? <==> b in {0x8C, 0x8E, 0xC2, 0xC8, 0xCA}
  {
  }

  /** The doublewords there. */
  lemma OneDwordsHigh(b: Byte, e: Entry)
    requires b >= 0x80 && e == X86_TABLES.one(b)
    ensures IsNamed(e) && e.width.Dword32? <==>
        0x91 <= b <= 0x97 || 0xB8 <= b <= 0xBF || 0xE7 <= b <= 0xEA ||
        b in {0x81, 0x83, 0x85, 0x87, 0x89, 0x8B, 0x8D, 0x8F, 0x9A, 0xA1, 0xA3, 0xA5, 0xA7, 0xA9, 0xAB, 0xAD, 0xAF,
              0xC1, 0xC4, 0xC5, 0xC7, 0xD1, 0xD3, 0xE5, 0xED, 0xEF, 0xF7, 0xFF}
  {
  }

  /** And entries without a width. */
  lemma OneNoWidthHigh(b: Byte, e: Entry)
    requires b >= 0x80 && e == X86_TABLES.one(b)
    ensures IsNamed(e) && e.width.NoWidth? <==>
        0x9C <= b <= 0x9F || 0xF8 <= b <= 0xFD ||
        b in {0x90, 0x98, 0x99, 0xC3, 0xC9, 0xCB, 0xCC, 0xCE, 0xCF, 0xD7, 0xF4, 0xF5}
  {
  }

  /** The second table: what it does not define, groups, and entries of two syntaxes. */
  lemma TwoKinds(b: Byte, e: Entry)
    requires e == X86_TABLES.two(b)
    ensures e.Undefined? <==>
        0x0C <= b <= 0x1F || 0x24 <= b <= 0x2F || 0x36 <= b <= 0x3F || 0x50 <= b <= 0x7F || 0xC2 <= b <= 0xC6 ||
        b >= 0xD0 || b in {0x04, 0x05, 0x07, 0x0A, 0xA6, 0xA7, 0xAE, 0xB8}
    ensures IsGroup(e, 6) <==> b == 0x00
    ensures IsGroup(e, 7) <==> b == 0x01
    ensures IsGroup(e, 8) <==> b == 0xBA
    ensures IsGroup(e, 9) <==> b == 0xC7
    ensures IsDiff(e, 7) <==> b == 0xB6
    ensures IsDiff(e, 8) <==> b == 0xB7
    ensures IsDiff(e, 9) <==> b == 0xBE
    ensures IsDiff(e, 10) <==> b == 0xBF
    ensures e.Op? <==>
        0x20 <= b <= 0x23 || 0x30 <= b <= 0x35 || 0x40 <= b <= 0x4F || 0x80 <= b <= 0xA5 || 0xA8 <= b <= 0xAD ||
        0xAF <= b <= 0xB5 || 0xBB <= b <= 0xBD || 0xC8 <= b <= 0xCF ||
        b in {0x02, 0x03, 0x06, 0x08, 0x09, 0x0B, 0xB9, 0xC0, 0xC1}
  {
  }

  /** The bytes of each addressing mode with a ModRM byte in the second table. */
  lemma TwoModrmModes(b: Byte, e: Entry)
    requires e == X86_TABLES.two(b)
    ensures ModeOf(e).RegRm? <==> b in {0xA3, 0xAB, 0xB0, 0xB1, 0xB3, 0xBB, 0xC0, 0xC1}
    ensures ModeOf(e).RmReg? <==>
        0x40 <= b <= 0x4F || 0xB4 <= b <= 0xB7 || 0xBC <= b <= 0xBF || b in {0x02, 0x03, 0xAF, 0xB2}
    ensures ModeOf(e).Rm? <==> 0x90 <= b <= 0x9F || b in {0x00, 0x01, 0xC7}
    ensures ModeOf(e).Imm8Rm? <==> b == 0xBA
    ensures ModeOf(e).RegImm8Rm? <==> b in {0xA4, 0xAC}
    ensures ModeOf(e).RegClRm? <==> b in {0xA5, 0xAD}
    ensures ModeOf(e).CrRm? <==> b == 0x20
    ensures ModeOf(e).DbgRm? <==> b == 0x21
    ensures ModeOf(e).RmCr? <==> b == 0x22
    ensures ModeOf(e).RmDbg? <==> b == 0x23
  {
  }

  /** And of each without. */
  lemma TwoPlainModes(b: Byte, e: Entry)
    requires e == X86_TABLES.two(b)
    ensures ModeOf(e).Rel? <==> 0x80 <= b <= 0x8F
    ensures ModeOf(e).Reg? <==> 0xC8 <= b <= 0xCF
    ensures ModeOf(e).Seg3Reg? <==> b in {0xA0, 0xA1, 0xA8, 0xA9}
    ensures ModeOf(e).Implied? <==> 0x30 <= b <= 0x35 || b in {0x06, 0x08, 0x09, 0x0B, 0xA2, 0xAA, 0xB9}
  {
  }

  /** The bytes of each width in the second table. */
  lemma TwoWidths(b: Byte, e: Entry)
    requires e == X86_TABLES.two(b)
    ensures IsNamed(e) && e.width.Byte8? <==> 0x90 <= b <= 0x9F || b in {0xB0, 0xC0}
    ensures IsNamed(e) && e.width.Word16? <==> b == 0x00
    ensures IsNamed(e) && e.width.Dword32? <==>
        0x01 <= b <= 0x03 || 0x20 <= b <= 0x23 || 0x40 <= b <= 0x4F || 0x80 <= b <= 0x8F || 0xA3 <= b <= 0xA5 ||
        0xAB <= b <= 0xAD || 0xB1 <= b <= 0xB7 || 0xBA <= b <= 0xBF || 0xC8 <= b <= 0xCF ||
        b in {0xA0, 0xA1, 0xA8, 0xA9, 0xAF, 0xC1}
    ensures IsNamed(e) && e.width.Qword64? <==> b == 0xC7
    ensures IsNamed(e) && e.width.NoWidth? <==> 0x30 <= b <= 0x35 || b in {0x06, 0x08, 0x09, 0x0B, 0xA2, 0xAA, 0xB9}
  {
  }

  // ---------- what follows from them ----------

  /** Nothing in the first table is a quadword. */
  lemma OneHasNoQword(b: Byte, e: Entry)
    requires e == X86_TABLES.one(b) && IsNamed(e)
    ensures !e.width.Qword64?
  {
  }

  /** The arithmetic rows: bit 0 is the width, and between a register and the operand of the ModRM byte
      bit 1 is the direction. */
  lemma ArithmeticRows(b: Byte, e: Entry)
    requires e == X86_TABLES.one(b) && b < 0x40 && b & 7 < 6
    ensures e.Op? && e.width == if b & 1 == 0 then Byte8 else Dword32
    ensures b & 4 == 0 ==> HasModrm(e.mode) && (Reversed(e.mode) <==> b & 2 == 0)
    ensures b & 4 != 0 ==> e.mode == ImmAcc
  {
  }

  // ---------- groups ----------

  /** The encodings of each group that are not defined, and those of two syntaxes. */
  lemma GroupKinds(g: nat, r: Byte, e: Entry)
    requires 1 <= g <= 9 && r < 8 && e == X86_TABLES.group(g, r)
    ensures e.Undefined? <==>
        (g == 2 && r == 6) || (g == 3 && r == 1) || (g == 4 && r >= 2) || (g == 5 && r == 7) || (g == 6 && r >= 6) ||
        (g == 7 && r == 5) || (g == 8 && r < 4) || (g == 9 && r != 1)
    ensures e.Diff? <==> (g == 5 && r in {3, 5}) || (g == 7 && r < 4)
    ensures e.Diff? ==> e.syntax == if g == 7 then 13 + r as nat else if r == 3 then 11 else 12
    ensures !e.Prefix? && !e.Group?
  {
  }

  /** Only TEST has a mode of its own, and only three encodings of the seventh group a width. */
  lemma GroupModes(g: nat, r: Byte, e: Entry)
    requires 1 <= g <= 9 && r < 8 && e == X86_TABLES.group(g, r) && IsNamed(e)
    ensures e.mode == if g == 3 && r == 0 then ImmRm else NoMode
    ensures e.width == if g == 7 && r in {4, 6} then Word16 else if g == 7 && r == 7 then Byte8 else NoWidth
  {
  }
}
