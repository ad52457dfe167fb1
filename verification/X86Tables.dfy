/** The x86 decoder's flag words and tables (`arch/x86/x86_decode.h`, `arch/x86/x86_decode.cpp`). */
module X86Tables {
  type Byte = bv8

  /** The named bits of an instruction's flag word. */
  datatype Flag =
    | MOD_RM | SIB | DIR_REVERSED
    | WIDTH_BYTE | WIDTH_WORD | WIDTH_DWORD | WIDTH_QWORD
    | SRC_NONE | SRC_IMM | SRC_IMM8 | SRC_IMM48 | SRC_REL | SRC_REG | SRC_SEG2_REG | SRC_SEG3_REG | SRC_ACC | SRC_MEM
    | SRC_MOFFSET | SRC_MEM_DISP_BYTE | SRC_MEM_DISP_WORD | SRC_MEM_DISP_DWORD | SRC_CR_REG | SRC_DBG_REG
    | DST_NONE | DST_IMM16 | DST_REG | DST_ACC | DST_MEM | DST_MOFFSET | DST_MEM_DISP_BYTE | DST_MEM_DISP_WORD
    | DST_MEM_DISP_DWORD | DST_SEG3_REG | DST_CR_REG | DST_DBG_REG
    | OP3_NONE | OP3_IMM | OP3_IMM8 | OP3_CL

  type Flags = set<Flag>

  const WIDTH_MASK: Flags := {WIDTH_BYTE, WIDTH_WORD, WIDTH_DWORD}   // without the quadword

  const SRC_MASK: Flags := {SRC_NONE, SRC_IMM, SRC_IMM8, SRC_IMM48, SRC_REL, SRC_REG, SRC_SEG2_REG, SRC_SEG3_REG,
                            SRC_ACC, SRC_MEM, SRC_MOFFSET, SRC_MEM_DISP_BYTE, SRC_MEM_DISP_WORD, SRC_MEM_DISP_DWORD,
                            SRC_CR_REG, SRC_DBG_REG}

  const DST_MASK: Flags := {DST_NONE, DST_IMM16, DST_REG, DST_ACC, DST_MEM, DST_MOFFSET, DST_MEM_DISP_BYTE,
                            DST_MEM_DISP_WORD, DST_MEM_DISP_DWORD, DST_SEG3_REG, DST_CR_REG, DST_DBG_REG}

  const OP3_MASK: Flags := {OP3_NONE, OP3_IMM, OP3_IMM8, OP3_CL}

  const MEM_DISP_MASK: Flags := {SRC_MEM_DISP_BYTE, SRC_MEM_DISP_WORD, SRC_MEM_DISP_DWORD,
                                 DST_MEM_DISP_BYTE, DST_MEM_DISP_WORD, DST_MEM_DISP_DWORD}

  const MOFFSET_MASK: Flags := {SRC_MOFFSET, DST_MOFFSET}

  const IMM_MASK: Flags := {SRC_IMM, SRC_IMM8, SRC_IMM48, OP3_IMM, OP3_IMM8}

  /** What `decode_imm` switches on first. */
  const IMM_CASES: Flags := {SRC_IMM8, SRC_IMM48, OP3_IMM, OP3_IMM8, DST_IMM16}

  const REL_MASK: Flags := {SRC_REL}

  /** All but the widths and SIB. */
  const ADDRMOD_MASK: Flags := {MOD_RM, DIR_REVERSED} + SRC_MASK + DST_MASK + OP3_MASK

  /** Addressing modes; `NoMode` is an entry without one. */
  datatype Mode =
    | NoMode | AccMoffset | AccReg | Imm | Imm8 | Imm8Rm | ImmRm | ImmAcc | ImmReg | Implied | MoffsetAcc
    | Reg | Seg2Reg | Seg3Reg | Seg3RegRm | RmSeg3Reg | RegRm | Rel | RmReg | Rm | RmImmReg | RmImm8Reg
    | RegImm8Rm | RegClRm | FarPtr | Imm8Imm16 | CrRm | DbgRm | RmCr | RmDbg

  datatype Width = NoWidth | Byte8 | Word16 | Dword32 | Qword64

  function ModeBits(m: Mode): Flags {
    match m
    case NoMode => {}
    case AccMoffset => {SRC_ACC, DST_MOFFSET, OP3_NONE}
    case AccReg => {SRC_ACC, DST_REG, OP3_NONE}
    case Imm => {SRC_IMM, DST_NONE, OP3_NONE}
    case Imm8 => {SRC_IMM8, DST_NONE, OP3_NONE}
    case Imm8Rm => {SRC_IMM8, MOD_RM, DIR_REVERSED, OP3_NONE}
    case ImmRm => {SRC_IMM, MOD_RM, DIR_REVERSED, OP3_NONE}
    case ImmAcc => {SRC_IMM, DST_ACC, OP3_NONE}
    case ImmReg => {SRC_IMM, DST_REG, OP3_NONE}
    case Implied => {SRC_NONE, DST_NONE, OP3_NONE}
    case MoffsetAcc => {SRC_MOFFSET, DST_ACC, OP3_NONE}
    case Reg => {SRC_REG, DST_NONE, OP3_NONE}
    case Seg2Reg => {SRC_SEG2_REG, DST_NONE, OP3_NONE}
    case Seg3Reg => {SRC_SEG3_REG, DST_NONE, OP3_NONE}
    case Seg3RegRm => {SRC_SEG3_REG, MOD_RM, DIR_REVERSED, OP3_NONE}
    case RmSeg3Reg => {DST_SEG3_REG, MOD_RM, OP3_NONE}
    case RegRm => {SRC_REG, MOD_RM, DIR_REVERSED, OP3_NONE}
    case Rel => {SRC_REL, DST_NONE, OP3_NONE}
    case RmReg => {DST_REG, MOD_RM, OP3_NONE}
    case Rm => {DST_NONE, MOD_RM, OP3_NONE}
    case RmImmReg => {DST_REG, MOD_RM, OP3_IMM}
    case RmImm8Reg => {DST_REG, MOD_RM, OP3_IMM8}
    case RegImm8Rm => {SRC_REG, MOD_RM, DIR_REVERSED, OP3_IMM8}
    case RegClRm => {SRC_REG, MOD_RM, DIR_REVERSED, OP3_CL}
    case FarPtr => {DST_NONE, SRC_IMM48, OP3_NONE}
    case Imm8Imm16 => {SRC_IMM8, DST_IMM16, OP3_NONE}
    case CrRm => {SRC_CR_REG, MOD_RM, DIR_REVERSED, OP3_NONE}
    case DbgRm => {SRC_DBG_REG, MOD_RM, DIR_REVERSED, OP3_NONE}
    case RmCr => {DST_CR_REG, MOD_RM, OP3_NONE}
    case RmDbg => {DST_DBG_REG, MOD_RM, OP3_NONE}
  }

  function WidthBits(w: Width): Flags {
    match w
    case NoWidth => {}
    case Byte8 => {WIDTH_BYTE}
    case Word16 => {WIDTH_WORD}
    case Dword32 => {WIDTH_DWORD}
    case Qword64 => {WIDTH_QWORD}
  }

  /** An entry of the tables, in the four classes they distinguish and with the fields of each. Of
      the opcode an entry stands for, only that it is not zero matters to the decoding. */
  datatype Entry =
    | Undefined
    | Prefix(index: nat, value: Byte)
    | Group(number: nat, mode: Mode, width: Width)
    | Diff(syntax: nat, mode: Mode, width: Width)
    | Op(mode: Mode, width: Width)

  /** The flags in the word of an entry. */
  function EntryFlags(e: Entry): Flags {
    if e.Group? || e.Diff? || e.Op? then ModeBits(e.mode) + WidthBits(e.width) else {}
  }

  predicate InRange(e: Entry) {
    match e
    case Undefined => true
    case Prefix(i, v) => i < 6 && (3 <= i ==> v == 1)
    case Group(g, m, w) => 1 <= g <= 9 && HasModrm(m) && (w.Qword64? ==> g == 9)
    case Diff(i, m, w) => true
    case Op(m, w) => true
  }

  /** A ModRM byte follows the opcode. */
  predicate HasModrm(m: Mode) {
    m.Imm8Rm? || m.ImmRm? || m.Seg3RegRm? || m.RmSeg3Reg? || m.RegRm? || m.RmReg? || m.Rm? || m.RmImmReg?
    || m.RmImm8Reg? || m.RegImm8Rm? || m.RegClRm? || m.CrRm? || m.DbgRm? || m.RmCr? || m.RmDbg?
  }

  /** The ModRM operand is the destination. */
  predicate Reversed(m: Mode) {
    m.Imm8Rm? || m.ImmRm? || m.Seg3RegRm? || m.RegRm? || m.RegImm8Rm? || m.RegClRm? || m.CrRm? || m.DbgRm?
  }

  /** What holds of every entry of the first table. */
  predicate FitsOne(b: Byte, e: Entry) {
    && InRange(e) && (e.Group? || e.Diff? || e.Op? ==> e.mode != NoMode)
    && (e.Prefix? ==> (e.index == 5 <==> b == 0x0F))
    && (b == 0x0F ==> e.Prefix?)
    && (b == 0x62 <==> e.Diff? && e.syntax == 0) && (b == 0x62 ==> e == Diff(0, RmReg, NoWidth))
  }

  /** And of the second. */
  predicate FitsTwo(b: Byte, e: Entry) {
    InRange(e) && !e.Prefix? && (e.Group? || e.Diff? || e.Op? ==> e.mode != NoMode) && (b == 0x62 ==> e.Undefined?)
    && (e.Diff? ==> e.syntax != 0)
  }

  function TableOne(b: Byte): (e: Entry)
    ensures FitsOne(b, e)
  {
    if b < 0x40 then OneArithmetic(b)
    else if b < 0x60 then Op(Reg, Dword32)
    else if b < 0x70 then OneFrom60(b)
    else if b < 0x80 then Op(Rel, Byte8)
    else if b < 0x90 then OneFrom80(b)
    else if b < 0xA0 then OneFrom90(b)
    else if b < 0xB0 then OneFromA0(b)
    else if b < 0xB8 then Op(ImmReg, Byte8)
    else if b < 0xC0 then Op(ImmReg, Dword32)
    else if b < 0xD0 then OneFromC0(b)
    else if b < 0xE0 then OneFromD0(b)
    else if b < 0xF0 then OneFromE0(b)
    else OneFromF0(b)
  }

  function OneArithmetic(b: Byte): (e: Entry)
    requires b < 0x40
    ensures FitsOne(b, e)
  {
    var k := b & 7;
    if k == 0 then Op(RegRm, Byte8) else if k == 1 then Op(RegRm, Dword32)
    else if k == 2 then Op(RmReg, Byte8) else if k == 3 then Op(RmReg, Dword32)
    else if k == 4 then Op(ImmAcc, Byte8) else if k == 5 then Op(ImmAcc, Dword32)
    else if b == 0x0F then Prefix(5, 1)
    else if b == 0x26 then Prefix(0, 1) else if b == 0x2E then Prefix(0, 2)
    else if b == 0x36 then Prefix(0, 3) else if b == 0x3E then Prefix(0, 4)
    else if b == 0x27 || b == 0x2F || b == 0x37 || b == 0x3F then Op(Implied, NoWidth)
    else Op(Seg2Reg, Dword32)
  }

  function OneFrom60(b: Byte): (e: Entry)
    requires 0x60 <= b < 0x70
    ensures FitsOne(b, e)
  {
    if b <= 0x61 then Op(Implied, Dword32) else if b == 0x62 then Diff(0, RmReg, NoWidth)
    else if b == 0x63 then Op(RegRm, Word16)
    else if b == 0x64 then Prefix(0, 5) else if b == 0x65 then Prefix(0, 6)
    else if b == 0x66 then Prefix(4, 1) else if b == 0x67 then Prefix(3, 1)
    else if b == 0x68 then Op(Imm, Dword32) else if b == 0x69 then Op(RmImmReg, Dword32)
    else if b == 0x6A then Op(Imm, Byte8) else if b == 0x6B then Op(RmImm8Reg, Dword32)
    else if b == 0x6C || b == 0x6E then Op(Implied, Byte8) else Op(Implied, Dword32)
  }

  function OneFrom80(b: Byte): (e: Entry)
    requires 0x80 <= b < 0x90
    ensures FitsOne(b, e)
  {
    if b == 0x80 || b == 0x82 then Group(1, Imm8Rm, Byte8) else if b == 0x81 then Group(1, ImmRm, Dword32)
    else if b == 0x83 then Group(1, Imm8Rm, Dword32)
    else if b == 0x84 || b == 0x86 || b == 0x88 then Op(RegRm, Byte8) else if b <= 0x89 then Op(RegRm, Dword32)
    else if b == 0x8A then Op(RmReg, Byte8) else if b == 0x8B then Op(RmReg, Dword32)
    else if b == 0x8C then Op(Seg3RegRm, Word16) else if b == 0x8D then Op(RmReg, Dword32)
    else if b == 0x8E then Op(RmSeg3Reg, Word16) else Op(Rm, Dword32)
  }

  function OneFrom90(b: Byte): (e: Entry)
    requires 0x90 <= b < 0xA0
    ensures FitsOne(b, e)
  {
    if b == 0x90 then Op(Implied, NoWidth) else if b <= 0x97 then Op(AccReg, Dword32)
    else if b == 0x98 then Diff(1, Implied, NoWidth) else if b == 0x99 then Diff(2, Implied, NoWidth)
    else if b == 0x9A then Diff(3, FarPtr, Dword32) else if b == 0x9B then Undefined else Op(Implied, NoWidth)
  }

  function OneFromA0(b: Byte): (e: Entry)
    requires 0xA0 <= b < 0xB0
    ensures FitsOne(b, e)
  {
    var w := if b & 1 == 0 then Byte8 else Dword32;
    if b <= 0xA1 then Op(MoffsetAcc, w) else if b <= 0xA3 then Op(AccMoffset, w)
    else if b == 0xA8 || b == 0xA9 then Op(ImmAcc, w) else Op(Implied, w)
  }

  function OneFromC0(b: Byte): (e: Entry)
    requires 0xC0 <= b < 0xD0
    ensures FitsOne(b, e)
  {
    if b == 0xC0 then Group(2, Imm8Rm, Byte8) else if b == 0xC1 then Group(2, Imm8Rm, Dword32)
    else if b == 0xC2 then Op(Imm, Word16) else if b == 0xC4 || b == 0xC5 then Op(RmReg, Dword32)
    else if b == 0xC6 then Op(Imm8Rm, Byte8) else if b == 0xC7 then Op(ImmRm, Dword32)
    else if b == 0xC8 then Op(Imm8Imm16, Word16) else if b == 0xCA then Diff(4, Imm, Word16)
    else if b == 0xCB then Diff(5, Implied, NoWidth) else if b == 0xCD then Op(Imm, Byte8)
    else Op(Implied, NoWidth)
  }

  function OneFromD0(b: Byte): (e: Entry)
    requires 0xD0 <= b < 0xE0
    ensures FitsOne(b, e)
  {
    if b == 0xD0 || b == 0xD2 then Group(2, Rm, Byte8) else if b <= 0xD3 then Group(2, Rm, Dword32)
    else if b <= 0xD5 then Op(Imm, Byte8) else if b == 0xD7 then Op(Implied, NoWidth) else Undefined
  }

  function OneFromE0(b: Byte): (e: Entry)
    requires 0xE0 <= b < 0xF0
    ensures FitsOne(b, e)
  {
    if b <= 0xE3 then Op(Rel, Byte8) else if b == 0xE4 || b == 0xE6 then Op(Imm, Byte8)
    else if b <= 0xE7 then Op(Imm8, Dword32) else if b <= 0xE9 then Op(Rel, Dword32)
    else if b == 0xEA then Diff(6, FarPtr, Dword32) else if b == 0xEB then Op(Rel, Byte8)
    else if b == 0xEC || b == 0xEE then Op(Implied, Byte8) else Op(Implied, Dword32)
  }

  function OneFromF0(b: Byte): (e: Entry)
    requires 0xF0 <= b
    ensures FitsOne(b, e)
  {
    if b == 0xF0 then Prefix(2, 1) else if b == 0xF1 then Undefined
    else if b == 0xF2 then Prefix(1, 1) else if b == 0xF3 then Prefix(1, 2)
    else if b == 0xF6 then Group(3, Rm, Byte8) else if b == 0xF7 then Group(3, Rm, Dword32)
    else if b == 0xFE then Group(4, Rm, Byte8) else if b == 0xFF then Group(5, Rm, Dword32)
    else Op(Implied, NoWidth)
  }

  function TableTwo(b: Byte): (e: Entry)
    ensures FitsTwo(b, e)
  {
    if b < 0x40 then TwoFrom00(b)
    else if b < 0x50 then Op(RmReg, Dword32)
    else if b < 0x80 then Undefined
    else if b < 0x90 then Op(Rel, Dword32)
    else if b < 0xA0 then Op(Rm, Byte8)
    else if b < 0xB0 then TwoFromA0(b)
    else if b < 0xC0 then TwoFromB0(b)
    else if b == 0xC0 then Op(RegRm, Byte8) else if b == 0xC1 then Op(RegRm, Dword32)
    else if b == 0xC7 then Group(9, Rm, Qword64)
    else if 0xC8 <= b <= 0xCF then Op(Reg, Dword32)
    else Undefined
  }

  function TwoFrom00(b: Byte): (e: Entry)
    requires b < 0x40
    ensures FitsTwo(b, e)
  {
    if b == 0x00 then Group(6, Rm, Word16) else if b == 0x01 then Group(7, Rm, Dword32)
    else if b == 0x02 || b == 0x03 then Op(RmReg, Dword32)
    else if b == 0x06 || b == 0x08 || b == 0x09 || b == 0x0B || 0x30 <= b <= 0x35 then Op(Implied, NoWidth)
    else if b == 0x20 then Op(CrRm, Dword32) else if b == 0x21 then Op(DbgRm, Dword32)
    else if b == 0x22 then Op(RmCr, Dword32) else if b == 0x23 then Op(RmDbg, Dword32)
    else Undefined
  }

  function TwoFromA0(b: Byte): (e: Entry)
    requires 0xA0 <= b < 0xB0
    ensures FitsTwo(b, e)
  {
    if b == 0xA0 || b == 0xA1 || b == 0xA8 || b == 0xA9 then Op(Seg3Reg, Dword32)
    else if b == 0xA2 || b == 0xAA then Op(Implied, NoWidth) else if b == 0xA3 || b == 0xAB then Op(RegRm, Dword32)
    else if b == 0xA4 || b == 0xAC then Op(RegImm8Rm, Dword32) else if b == 0xA5 || b == 0xAD then Op(RegClRm, Dword32)
    else if b == 0xAF then Op(RmReg, Dword32) else Undefined
  }

  function TwoFromB0(b: Byte): (e: Entry)
    requires 0xB0 <= b < 0xC0
    ensures FitsTwo(b, e)
  {
    if b == 0xB0 then Op(RegRm, Byte8) else if b == 0xB1 || b == 0xB3 || b == 0xBB then Op(RegRm, Dword32)
    else if b == 0xB6 then Diff(7, RmReg, Dword32) else if b == 0xB7 then Diff(8, RmReg, Dword32)
    else if b == 0xB8 then Undefined else if b == 0xB9 then Op(Implied, NoWidth)
    else if b == 0xBA then Group(8, Imm8Rm, Dword32)
    else if b == 0xBE then Diff(9, RmReg, Dword32) else if b == 0xBF then Diff(10, RmReg, Dword32)
    else Op(RmReg, Dword32)
  }

  /** What holds of every entry of a group. */
  predicate FitsGroup(g: nat, e: Entry) {
    && (e.Undefined? || e.Diff? || e.Op?)
    && (!e.Undefined? ==>
          (e.mode == NoMode || HasModrm(e.mode)) && !e.width.Qword64? && (g == 9 ==> e.width == NoWidth))
  }

  /** The tables of the nine groups, by the middle field of the ModRM byte. */
  function GroupEntry(g: nat, r: Byte): (e: Entry)
    ensures FitsGroup(g, e)
  {
    if g == 1 then Op(NoMode, NoWidth)
    else if g == 2 then if r == 6 then Undefined else Op(NoMode, NoWidth)
    else if g == 3 then if r == 0 then Op(ImmRm, NoWidth) else if r == 1 then Undefined else Op(NoMode, NoWidth)
    else if g == 4 then if r <= 1 then Op(NoMode, NoWidth) else Undefined
    else if g == 5 then
      if r == 3 then Diff(11, NoMode, NoWidth) else if r == 5 then Diff(12, NoMode, NoWidth)
      else if r == 7 then Undefined else Op(NoMode, NoWidth)
    else if g == 6 then if r >= 6 then Undefined else Op(NoMode, NoWidth)
    else if g == 7 then
      if r <= 3 then Diff(13 + r as nat, NoMode, NoWidth) else if r == 5 then Undefined
      else if r == 7 then Op(NoMode, Byte8) else Op(NoMode, Word16)
    else if g == 8 then if r < 4 then Undefined else Op(NoMode, NoWidth)
    else if r == 1 then Op(NoMode, NoWidth) else Undefined
  }

  /** `decode_tables`: the two tables by opcode byte, then the groups. */
  datatype Tables = Tables(one: Byte -> Entry, two: Byte -> Entry, group: (nat, Byte) -> Entry) {
    function Entry(table: nat, b: Byte): Entry {
      if table == 0 then one(b) else if table == 1 then two(b) else group(table - 1, b)
    }

    /** All that the decoder needs of its tables. */
    ghost predicate Fit() {
      && (forall b {:trigger FitsOne(b, one(b))} :: FitsOne(b, one(b)))
      && (forall b {:trigger FitsTwo(b, two(b))} :: FitsTwo(b, two(b)))
      && (forall g, r {:trigger FitsGroup(g, group(g, r))} :: FitsGroup(g, group(g, r)))
    }
  }

  const X86_TABLES := Tables(b => TableOne(b), b => TableTwo(b), (g: nat, r) => GroupEntry(g, r))

  lemma TablesFit()
    ensures X86_TABLES.Fit()
  {
  }
}
