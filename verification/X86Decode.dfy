/** The x86 instruction format as the tables and the addressing modes describe it, and the decoder
    of `arch/x86/x86_decode.cpp` that finds it by setting, clearing and testing flags. */
module X86Spec {
  import opened Guest
  import opened X86Tables

  type Ram = nat -> Byte

  /** `prefix_values`; zero is no prefix. */
  datatype Prefixes = Prefixes(seg: Byte, rep: Byte, lock: Byte, addr: Byte, op: Byte, two: Byte)

  const NO_PREFIXES := Prefixes(0, 0, 0, 0, 0, 0)

  function SetPrefix(p: Prefixes, index: nat, value: Byte): Prefixes {
    if index == 0 then p.(seg := value) else if index == 1 then p.(rep := value)
    else if index == 2 then p.(lock := value) else if index == 3 then p.(addr := value)
    else if index == 4 then p.(op := value) else p.(two := value)
  }

  predicate IsPrefix(t: Tables, b: Byte) {
    t.one(b).Prefix?
  }

  /** Where the opcode is: after the 0F that ends the prefixes, or at the first byte that is none. */
  ghost function OpcodeAt(t: Tables, ram: Ram, pc: nat, stop: nat): (o: nat)
    requires pc <= stop && !IsPrefix(t, ram(stop))
    ensures pc <= o <= stop
    ensures o == pc || IsPrefix(t, ram(o - 1))
    decreases stop - pc
  {
    if !IsPrefix(t, ram(pc)) then pc else if ram(pc) == 0x0F then pc + 1 else OpcodeAt(t, ram, pc + 1, stop)
  }

  /** The prefixes before it, a later one replacing an earlier one of its kind. */
  ghost function PrefixesAt(t: Tables, ram: Ram, pc: nat, stop: nat, p: Prefixes): Prefixes
    requires pc <= stop && !IsPrefix(t, ram(stop))
    decreases stop - pc
  {
    if !IsPrefix(t, ram(pc)) then p
    else
      var e := t.one(ram(pc));
      var p' := SetPrefix(p, e.index, e.value);
      if ram(pc) == 0x0F then p' else PrefixesAt(t, ram, pc + 1, stop, p')
  }

  // ---------- the addressing form ----------

  function ModOf(modrm: Byte): (r: Byte) ensures r < 4 { (modrm & 0xC0) >> 6 }
  function RegOf(modrm: Byte): (r: Byte) ensures r < 8 { (modrm & 0x38) >> 3 }
  function RmOf(modrm: Byte): (r: Byte) ensures r < 8 { modrm & 0x07 }

  /** What a ModRM byte makes of its operand: a register, memory, or memory and a displacement. */
  datatype Form = InReg | InMem | WithDisp(bytes: nat)

  predicate HasSib(short: bool, mod: Byte, rm: Byte) {
    !short && mod != 3 && rm == 4
  }

  /** `short` is 16-bit addressing; `base` is the SIB base where there is a SIB byte. */
  function FormOf(short: bool, mod: Byte, rm: Byte, base: Byte): (f: Form)
    ensures f.WithDisp? ==> f.bytes == 1 || f.bytes == 2 || f.bytes == 4
  {
    if mod == 3 then InReg
    else if mod == 1 then WithDisp(1)
    else if mod == 2 then WithDisp(if short then 2 else 4)
    else if short then if rm == 6 then WithDisp(2) else InMem
    else if rm == 5 || (rm == 4 && base == 5) then WithDisp(4)
    else InMem
  }

  function RmFlag(reversed: bool, f: Form): Flag {
    match f
    case InReg => if reversed then DST_REG else SRC_REG
    case InMem => if reversed then DST_MEM else SRC_MEM
    case WithDisp(n) =>
      if n == 1 then if reversed then DST_MEM_DISP_BYTE else SRC_MEM_DISP_BYTE
      else if n == 2 then if reversed then DST_MEM_DISP_WORD else SRC_MEM_DISP_WORD
      else if reversed then DST_MEM_DISP_DWORD else SRC_MEM_DISP_DWORD
  }

  /** All flags of a decoded instruction. */
  function FlagsOf(m: Mode, w: Width, f: Form, sib: bool): Flags {
    ModeBits(m) + WidthBits(w) + (if HasModrm(m) then {RmFlag(Reversed(m), f)} else {}) + (if sib then {SIB} else {})
  }

  // ---------- what the tables say ----------

  datatype Found = Found(mode: Mode, width: Width)

  function TableEntry(t: Tables, p: Prefixes, b: Byte): Entry {
    if p.two == 1 then t.two(b) else t.one(b)
  }

  /** Mode and width of the instruction; none if it is undefined. */
  ghost function Find(t: Tables, ram: Ram, o: nat, p: Prefixes, intel: bool): Option<Found> {
    var e := TableEntry(t, p, ram(o));
    match e
    case Undefined => None
    case Prefix(_, _) => None
    case Group(g, m, w) =>
      var e' := t.group(g, RegOf(ram(o + 1)));
      if !(e'.Diff? || e'.Op?) then None
      else Some(Found(Over(m, e'.mode), Resized(OverWidth(w, e'.width), p.op == 1)))
    case Diff(i, m, w) => Some(Found(m, Resized(if i == 0 then BoundWidth(p.op == 1, intel) else w, p.op == 1)))
    case Op(m, w) => Some(Found(m, Resized(w, p.op == 1)))
  }

  /** What the entry of a group names replaces what the reference to the group says. */
  function Over(outer: Mode, inner: Mode): Mode { if inner == NoMode then outer else inner }
  function OverWidth(outer: Width, inner: Width): Width { if inner == NoWidth then outer else inner }

  /** The operand-size prefix halves the two widest sizes. */
  function Resized(w: Width, op: bool): Width {
    if op && w.Dword32? then Word16 else if op && w.Qword64? then Dword32 else w
  }

  /** The width of BOUND, before the prefix applies. */
  function BoundWidth(op: bool, intel: bool): Width {
    if intel then if op then Dword32 else Qword64 else if op then Word16 else Dword32
  }

  // ---------- the bytes after the opcode ----------

  function U8(ram: Ram, at: nat): bv32 { ram(at) as bv32 }
  function U16(ram: Ram, at: nat): bv32 { ((ram(at + 1) as bv32) << 8) | (ram(at) as bv32) }
  function U32(ram: Ram, at: nat): bv32 {
    ((ram(at + 3) as bv32) << 24) | ((ram(at + 2) as bv32) << 16) | ((ram(at + 1) as bv32) << 8) | (ram(at) as bv32)
  }
  function S8(ram: Ram, at: nat): bv32 { if ram(at) >= 0x80 then 0xFFFF_FF00 | U8(ram, at) else U8(ram, at) }
  function S16(ram: Ram, at: nat): bv32 { if ram(at + 1) >= 0x80 then 0xFFFF_0000 | U16(ram, at) else U16(ram, at) }

  function WidthBytes(w: Width): nat {
    match w
    case Dword32 => 4
    case Word16 => 2
    case Byte8 => 1
    case _ => 0
  }

  /** Immediate operands and relative targets. */
  function ImmBytes(m: Mode, w: Width): nat {
    match m
    case Imm | ImmRm | ImmAcc | ImmReg | Rel => WidthBytes(w)
    case Imm8 | Imm8Rm | RmImm8Reg | RegImm8Rm => 1
    case RmImmReg => if w.Dword32? then 4 else 2
    case FarPtr => (if w.Dword32? then 4 else 2) + 2
    case Imm8Imm16 => 3
    case _ => 0
  }

  /** The first immediate, or the relative target. */
  function Data0(ram: Ram, at: nat, m: Mode, w: Width): bv32 {
    match m
    case Imm | ImmRm | ImmAcc | ImmReg =>
      if w.Dword32? then U32(ram, at) else if w.Word16? then U16(ram, at) else if w.Byte8? then U8(ram, at) else 0
    case Rel =>
      if w.Dword32? then U32(ram, at) else if w.Word16? then S16(ram, at) else if w.Byte8? then S8(ram, at) else 0
    case Imm8 | Imm8Rm | RmImm8Reg | RegImm8Rm => U8(ram, at)
    case RmImmReg | FarPtr => if w.Dword32? then U32(ram, at) else U16(ram, at)
    case Imm8Imm16 => U8(ram, at + 2)
    case _ => 0
  }

  /** The segment selector of a far pointer, or the first operand of ENTER. */
  function Data1(ram: Ram, at: nat, m: Mode, w: Width): bv32 {
    if m.FarPtr? then U16(ram, at + if w.Dword32? then 4 else 2) else if m.Imm8Imm16? then U16(ram, at) else 0
  }

  /** How many bytes of each kind there are. */
  datatype Layout = Layout(modrm: nat, sib: nat, disp: nat, imm: nat)

  ghost function LayoutOf(ram: Ram, o: nat, p: Prefixes, f: Found): Layout {
    if HasModrm(f.mode) then
      var mod, rm := ModOf(ram(o + 1)), RmOf(ram(o + 1));
      var sib := HasSib(p.addr == 1, mod, rm);
      var form := FormOf(p.addr == 1, mod, rm, if sib then RmOf(ram(o + 2)) else 0);
      Layout(1, if sib then 1 else 0, if form.WithDisp? then form.bytes else 0, ImmBytes(f.mode, f.width))
    else
      Layout(0, 0, if f.mode.AccMoffset? || f.mode.MoffsetAcc? then if p.addr == 1 then 2 else 4 else 0,
             ImmBytes(f.mode, f.width))
  }

  function Displacement(ram: Ram, at: nat, bytes: nat, signed: bool): bv32 {
    if bytes == 4 then U32(ram, at)
    else if bytes == 2 then if signed then S16(ram, at) else U16(ram, at)
    else if bytes == 1 then S8(ram, at)
    else 0
  }

  // ---------- operands ----------

  datatype Operand =
    | NoOperand | ImmOp(imm: bv32) | RelOp(rel: bv32) | FarOp(offset: bv32, selector: bv32)
    | RegOp(reg: Byte) | Reg8Op(reg: Byte) | SegOp(reg: Byte) | ControlOp(reg: Byte) | DebugOp(reg: Byte)
    | MoffsetOp(disp: bv32) | MemOp(reg: Byte) | MemDispOp(reg: Byte, disp: bv32) | SibMemOp | SibDispOp(disp: bv32)

  /** The operand a ModRM byte addresses. */
  function RmOperand(f: Form, sib: bool, rm: Byte, disp: bv32): Operand {
    match f
    case InReg => RegOp(rm)
    case InMem => if sib then SibMemOp else MemOp(rm)
    case WithDisp(_) => if sib then SibDispOp(disp) else MemDispOp(rm, disp)
  }

  /** The other source operand. */
  function PlainSource(m: Mode, opcode: Byte, reg: Byte, disp: bv32, data0: bv32, data1: bv32): Operand {
    match m
    case AccMoffset | AccReg => RegOp(0)
    case Imm | Imm8 | Imm8Rm | ImmRm | ImmAcc | ImmReg | Imm8Imm16 => ImmOp(data0)
    case FarPtr => FarOp(data0, data1)
    case Rel => RelOp(data0)
    case MoffsetAcc => MoffsetOp(disp)
    case Reg => RegOp(opcode & 0x07)
    case Seg2Reg => SegOp(opcode >> 3)
    case Seg3Reg => SegOp((opcode & 0x38) >> 3)
    case Seg3RegRm => SegOp(reg)
    case RegRm | RegImm8Rm | RegClRm => RegOp(reg)
    case CrRm => ControlOp(reg)
    case DbgRm => DebugOp(reg)
    case _ => NoOperand
  }

  /** The other destination. */
  function PlainTarget(m: Mode, opcode: Byte, reg: Byte, disp: bv32, data1: bv32): Operand {
    match m
    case AccMoffset => MoffsetOp(disp)
    case AccReg | ImmReg => RegOp(opcode & 0x07)
    case ImmAcc | MoffsetAcc => RegOp(0)
    case RmReg | RmImmReg | RmImm8Reg => RegOp(reg)
    case RmSeg3Reg => SegOp(reg)
    case RmCr => ControlOp(reg)
    case RmDbg => DebugOp(reg)
    case Imm8Imm16 => ImmOp(data1)
    case _ => NoOperand
  }

  function ThirdOperand(m: Mode, data0: bv32): Operand {
    if m.RmImmReg? || m.RmImm8Reg? || m.RegImm8Rm? then ImmOp(data0) else if m.RegClRm? then Reg8Op(1) else NoOperand
  }

  // ---------- the instruction ----------

  datatype Decoded = Decoded(length: nat, prefixes: Prefixes, opcodeByte: Byte, mod: Byte, reg: Byte, rm: Byte,
                             scale: Byte, idx: Byte, base: Byte, disp: bv32, data0: bv32, data1: bv32,
                             flags: Flags, src: Operand, dst: Operand, third: Operand)

  /** The bytes of an instruction from the opcode on, and the numbers they make. */
  datatype Parsed = Parsed(layout: Layout, opcode: Byte, modrm: Byte, sib: Byte, disp: bv32, data0: bv32, data1: bv32)

  ghost function Parse(ram: Ram, o: nat, p: Prefixes, f: Found): Parsed {
    var l := LayoutOf(ram, o, p, f);
    var at := o + 1 + l.modrm + l.sib;
    Parsed(l, ram(o), if l.modrm == 1 then ram(o + 1) else 0, if l.sib == 1 then ram(o + 2) else 0,
           Displacement(ram, at, l.disp, l.modrm == 1),
           Data0(ram, at + l.disp, f.mode, f.width), Data1(ram, at + l.disp, f.mode, f.width))
  }

  /** The instruction that they are, after `prefixes` prefix bytes. */
  function Assembled(prefixes: nat, p: Prefixes, f: Found, x: Parsed): Decoded {
    var l, modrm, sib := x.layout, x.modrm, x.layout.sib == 1;
    var form := FormOf(p.addr == 1, ModOf(modrm), RmOf(modrm), RmOf(x.sib));
    var rm := RmOperand(form, sib, RmOf(modrm), x.disp);
    Decoded(prefixes + 1 + l.modrm + l.sib + l.disp + l.imm, p, x.opcode, ModOf(modrm), RegOf(modrm), RmOf(modrm),
            ModOf(x.sib), RegOf(x.sib), RmOf(x.sib), x.disp, x.data0, x.data1, FlagsOf(f.mode, f.width, form, sib),
            if HasModrm(f.mode) && !Reversed(f.mode) then rm
            else PlainSource(f.mode, x.opcode, RegOf(modrm), x.disp, x.data0, x.data1),
            if HasModrm(f.mode) && Reversed(f.mode) then rm
            else PlainTarget(f.mode, x.opcode, RegOf(modrm), x.disp, x.data1),
            ThirdOperand(f.mode, x.data0))
  }

  /** The instruction at `o`, found to be `f`. */
  ghost function Instruction(ram: Ram, start: nat, o: nat, p: Prefixes, f: Found): Decoded
    requires start <= o
  {
    Assembled(o - start, p, f, Parse(ram, o, p, f))
  }

  ghost function DispAt(ram: Ram, o: nat, p: Prefixes, f: Found): nat {
    o + 1 + LayoutOf(ram, o, p, f).modrm + LayoutOf(ram, o, p, f).sib
  }

  /** An instruction without its operands, without its immediates, and without its displacement. */
  ghost function Unnamed(d: Decoded): Decoded {
    d.(length := 0, src := NoOperand, dst := NoOperand, third := NoOperand)
  }

  ghost function NoData(d: Decoded): Decoded {
    Unnamed(d).(data0 := 0, data1 := 0)
  }

  ghost function Bare(d: Decoded): Decoded {
    NoData(d).(disp := 0)
  }

  /** The instruction at `start`, if it is defined. `stop` is some byte that is no prefix. */
  ghost function Describe(t: Tables, ram: Ram, start: nat, stop: nat, intel: bool): Option<Decoded>
    requires start <= stop && !IsPrefix(t, ram(stop))
  {
    var o := OpcodeAt(t, ram, start, stop);
    var p := PrefixesAt(t, ram, start, stop, NO_PREFIXES);
    match Find(t, ram, o, p, intel)
    case None => None
    case Some(f) => Some(Instruction(ram, start, o, p, f))
  }
}

module X86Decode {
  import opened Guest
  import opened X86Tables
  import opened X86Spec

  predicate Sane(p: Prefixes) {
    p.addr <= 1 && p.op <= 1 && p.two <= 1
  }

  /** What is ahead of `at` is what was ahead of `start`, the prefixes in between being `p`. */
  ghost predicate Approaching(t: Tables, ram: Ram, start: nat, stop: nat, at: nat, p: Prefixes, table: nat)
    requires start <= stop && !IsPrefix(t, ram(stop))
  {
    if table == 0 then
      && at <= stop && p.two == 0
      && OpcodeAt(t, ram, start, stop) == OpcodeAt(t, ram, at, stop)
      && PrefixesAt(t, ram, start, stop, NO_PREFIXES) == PrefixesAt(t, ram, at, stop, p)
    else
      p.two == 1 && OpcodeAt(t, ram, start, stop) == at && PrefixesAt(t, ram, start, stop, NO_PREFIXES) == p
  }

  lemma PrefixIsRead(t: Tables, ram: Ram, start: nat, stop: nat, at: nat, p: Prefixes)
    requires t.Fit() && start <= stop && !IsPrefix(t, ram(stop)) && Sane(p) && IsPrefix(t, ram(at))
    requires Approaching(t, ram, start, stop, at, p, 0)
    ensures var e := t.one(ram(at));
      var p' := SetPrefix(p, e.index, e.value);
      at < stop && Sane(p') && Approaching(t, ram, start, stop, at + 1, p', if ram(at) == 0x0F then 1 else 0)
  {
    assert FitsOne(ram(at), t.one(ram(at)));
    StaysSane(ram(at), t.one(ram(at)), p);
    assert at < stop;
  }

  lemma EntryKinds(t: Tables, table: nat, b: Byte)
    requires t.Fit()
    ensures t.Entry(table, b).Prefix? ==> table == 0
    ensures t.Entry(table, b).Group? ==> table <= 1 && t.Entry(table, b).number >= 1
  {
    if table == 0 {
      assert FitsOne(b, t.one(b));
    } else if table == 1 {
      assert FitsTwo(b, t.two(b));
    } else {
      assert FitsGroup(table - 1, t.group(table - 1, b));
    }
  }

  lemma StaysSane(b: Byte, e: Entry, p: Prefixes)
    requires FitsOne(b, e) && e.Prefix? && Sane(p)
    ensures Sane(SetPrefix(p, e.index, e.value))
    ensures SetPrefix(p, e.index, e.value).two == if b == 0x0F then 1 else p.two
  {
    SetsOne(p, e.index, e.value);
  }

  lemma SetsOne(p: Prefixes, index: nat, value: Byte)
    requires index < 6 && (3 <= index ==> value == 1) && Sane(p)
    ensures Sane(SetPrefix(p, index, value))
    ensures SetPrefix(p, index, value).two == if index == 5 then 1 else p.two
  {
    var p' := SetPrefix(p, index, value);
    if index == 3 {
      assert p'.addr == 1 && p'.op == p.op && p'.two == p.two;
    } else if index == 4 {
      assert p'.addr == p.addr && p'.op == 1 && p'.two == p.two;
    } else if index == 5 {
      assert p'.addr == p.addr && p'.op == p.op && p'.two == 1;
    } else {
      assert p'.addr == p.addr && p'.op == p.op && p'.two == p.two;
    }
  }

  /** `struct x86_instr`. The immediate and the relative data share their storage. */
  class Instr {
    const tables: Tables
    var nrBytes: nat
    var opcodeByte: Byte
    var mod: Byte
    var rm: Byte
    var regOpc: Byte
    var base: Byte
    var idx: Byte
    var scale: Byte
    var disp: bv32
    var data0: bv32
    var data1: bv32
    var flags: Flags
    var prefixes: Prefixes
    var src: Operand
    var dst: Operand
    var third: Operand

    constructor ()
      ensures Cleared() && tables == X86_TABLES && tables.Fit()
    {
      TablesFit();
      tables := X86_TABLES;
      nrBytes, opcodeByte, mod, rm, regOpc, base, idx, scale := 0, 0, 0, 0, 0, 0, 0, 0;
      disp, data0, data1, flags, prefixes := 0, 0, 0, {}, NO_PREFIXES;
      src, dst, third := NoOperand, NoOperand, NoOperand;
    }

    ghost function Value(): Decoded
      reads this
    {
      Decoded(nrBytes, prefixes, opcodeByte, mod, regOpc, rm, scale, idx, base, disp, data0, data1, flags,
              src, dst, third)
    }

    ghost predicate Cleared()
      reads this
    {
      Value() == Decoded(0, NO_PREFIXES, 0, 0, 0, 0, 0, 0, 0, 0, 0, 0, {}, NoOperand, NoOperand, NoOperand)
    }

    // ---------- finding the entry ----------

    method DecodeModrmFields(modrm: Byte)
      modifies this
      ensures Value() == old(Value()).(mod := ModOf(modrm), reg := RegOf(modrm), rm := RmOf(modrm))
    {
      mod := (modrm & 0xC0) >> 6;
      regOpc := (modrm & 0x38) >> 3;
      rm := modrm & 0x07;
    }

    /** Nothing but the prefixes has been set. */
    ghost predicate Untouched()
      reads this
    {
      Value() == Decoded(0, prefixes, 0, 0, 0, 0, 0, 0, 0, 0, 0, 0, {}, NoOperand, NoOperand, NoOperand)
    }

    /** The state of the search before a round of the loop: on the way through the prefixes,
        at the opcode in the second table, or at the entry of a group. */
    ghost predicate AtEntry(ram: Ram, start: nat, stop: nat, pc: nat, table: nat, b: Byte)
      reads this
    {
      && tables.Fit() && start < pc && start <= stop && !IsPrefix(tables, ram(stop)) && Sane(prefixes)
      && if table <= 1 then
           Untouched() && b == ram(pc - 1) && Approaching(tables, ram, start, stop, pc - 1, prefixes, table)
         else prefixes == PrefixesAt(tables, ram, start, stop, NO_PREFIXES)
              && InGroup(ram, OpcodeAt(tables, ram, start, stop), pc, table, b)
    }

    /** The ModRM byte has been read, and its middle field selects an entry of the group. */
    ghost predicate InGroup(ram: Ram, o: nat, pc: nat, table: nat, b: Byte)
      reads this
    {
      var e := TableEntry(tables, prefixes, ram(o));
      && pc == o + 2 && 2 <= table && e.Group? && e.number + 1 == table && b == RegOf(ram(o + 1))
      && Value() == Decoded(0, prefixes, ram(o), ModOf(ram(o + 1)), RegOf(ram(o + 1)), RmOf(ram(o + 1)),
                            0, 0, 0, 0, 0, 0,
                            EntryFlags(e), NoOperand, NoOperand, NoOperand)
    }

    method StorePrefix(index: nat, value: Byte)
      modifies this`prefixes
      ensures prefixes == SetPrefix(old(prefixes), index, value)
    {
      prefixes := SetPrefix(prefixes, index, value);
    }

    /** The case of a prefix byte. */
    method ReadPrefix(ram: Ram, pc: nat, b: Byte, ghost start: nat, ghost stop: nat) returns (table: nat)
      requires AtEntry(ram, start, stop, pc, 0, b) && IsPrefix(tables, b)
      modifies this
      ensures AtEntry(ram, start, stop, pc + 1, table, ram(pc)) && table <= 1 && pc <= stop
    {
      var e := tables.one(b);
      PrefixIsRead(tables, ram, start, stop, pc - 1, prefixes);
      StorePrefix(e.index, e.value);
      table := if b == 0x0F then 1 else 0;
    }

    /** The case of a group: read the ModRM byte and go on with the entry that it selects. */
    method EnterGroup(ram: Ram, pc: nat, table: nat, b: Byte, ghost start: nat, ghost stop: nat) returns (table': nat)
      requires AtEntry(ram, start, stop, pc, table, b) && table <= 1 && tables.Entry(table, b).Group?
      modifies this
      ensures table' >= 2 && AtEntry(ram, start, stop, pc + 1, table', regOpc)
    {
      EntryKinds(tables, table, b);
      AtOpcode(ram, start, stop, pc, table, b);
      table' := FillGroup(ram, pc, table, b);
    }

    method FillGroup(ram: Ram, pc: nat, table: nat, b: Byte) returns (table': nat)
      requires Untouched() && pc > 0 && b == ram(pc - 1) && table <= 1 && (table == 1 <==> prefixes.two == 1)
      requires tables.Entry(table, b).Group? && tables.Entry(table, b).number >= 1
      modifies this
      ensures prefixes == old(prefixes) && InGroup(ram, pc - 1, pc + 1, table', regOpc)
    {
      var e := tables.Entry(table, b);
      opcodeByte := b;
      flags := EntryFlags(e);
      DecodeModrmFields(ram(pc));
      table' := e.number + 1;
    }

    /** The loop: prefixes, then the opcode, then at most one step aside into a group. */
    method FindEntry(ram: Ram, start: nat, intel: bool, ghost stop: nat)
      returns (ok: bool, pc: nat, table: nat, b: Byte)
      requires Cleared() && tables.Fit() && start <= stop && !IsPrefix(tables, ram(stop))
      modifies this
      ensures ok <==> tables.Entry(table, b).Diff? || tables.Entry(table, b).Op?
      ensures !ok ==> tables.Entry(table, b).Undefined?
      ensures AtEntry(ram, start, stop, pc, table, b)
    {
      b := ram(start);
      pc, table := start + 1, 0;
      while true
        invariant AtEntry(ram, start, stop, pc, table, b)
        decreases if table >= 2 then 0 else if table == 1 then 1 else 2 + stop + 1 - pc
      {
        var decode := tables.Entry(table, b);
        EntryKinds(tables, table, b);
        if decode.Undefined? {
          ok := false;
          return;
        } else if decode.Prefix? {
          table := ReadPrefix(ram, pc, b, start, stop);
          b := ram(pc);
          pc := pc + 1;
        } else if decode.Group? {
          table := EnterGroup(ram, pc, table, b, start, stop);
          b := regOpc;
          pc := pc + 1;
        } else {
          ok := true;
          return;
        }
      }
    }

    // ---------- flags ----------

    method DecodeModrmAddrModes()
      requires prefixes.addr <= 1 && mod < 4 && rm < 8 && DST_MEM !in flags && SRC_MEM !in flags
      modifies this`flags
      ensures flags == old(flags) + RmFlags(DIR_REVERSED in old(flags), FormOf(prefixes.addr == 1, mod, rm, 0),
                                            HasSib(prefixes.addr == 1, mod, rm))
    {
      if DIR_REVERSED in flags {
        flags := flags + (if mod == 0 then {DST_MEM} else if mod == 1 then {DST_MEM_DISP_BYTE}
                          else if mod == 2 then {} else {DST_REG});
        if prefixes.addr == 0 && mod == 2 && rm != 4 {
          flags := flags + {DST_MEM_DISP_DWORD};
        } else if prefixes.addr == 1 && mod == 2 {
          flags := flags + {DST_MEM_DISP_WORD};
        } else if prefixes.addr == 0 && mod <= 1 && rm == 4 {
          flags := flags + {SIB};
        } else if prefixes.addr == 0 && mod == 2 && rm == 4 {
          flags := flags + {DST_MEM_DISP_DWORD, SIB};
        } else if prefixes.addr == 0 && mod == 0 && rm == 5 {
          flags := flags - {DST_MEM};
          flags := flags + {DST_MEM_DISP_DWORD};
        } else if prefixes.addr == 1 && mod == 0 && rm == 6 {
          flags := flags - {DST_MEM};
          flags := flags + {DST_MEM_DISP_WORD};
        }
      } else {
        flags := flags + (if mod == 0 then {SRC_MEM} else if mod == 1 then {SRC_MEM_DISP_BYTE}
                          else if mod == 2 then {} else {SRC_REG});
        if prefixes.addr == 0 && mod == 2 && rm != 4 {
          flags := flags + {SRC_MEM_DISP_DWORD};
        } else if prefixes.addr == 1 && mod == 2 {
          flags := flags + {SRC_MEM_DISP_WORD};
        } else if prefixes.addr == 0 && mod <= 1 && rm == 4 {
          flags := flags + {SIB};
        } else if prefixes.addr == 0 && mod == 2 && rm == 4 {
          flags := flags + {SRC_MEM_DISP_DWORD, SIB};
        } else if prefixes.addr == 0 && mod == 0 && rm == 5 {
          flags := flags - {SRC_MEM};
          flags := flags + {SRC_MEM_DISP_DWORD};
        } else if prefixes.addr == 1 && mod == 0 && rm == 6 {
          flags := flags - {SRC_MEM};
          flags := flags + {SRC_MEM_DISP_WORD};
        }
      }
    }

    /** The flags of a plain entry, and of one reached through a group: each kind that the entry of
        the group names replaces that of the reference to the group. */
    method AddEntry(entry: Entry, grouped: bool)
      modifies this`flags
      ensures flags == if grouped then Overridden(old(flags), EntryFlags(entry)) else old(flags) + EntryFlags(entry)
    {
      if grouped {
        if EntryFlags(entry) * WIDTH_MASK != {} {
          flags := flags - WIDTH_MASK;
        }
        if EntryFlags(entry) * ADDRMOD_MASK != {} {
          flags := flags - ADDRMOD_MASK;
        }
      }
      flags := flags + EntryFlags(entry);
    }

    method ResizeOperands()
      modifies this`flags
      ensures flags == ResizedFlags(old(flags), prefixes.op != 0)
    {
      if prefixes.op != 0 {
        if WIDTH_DWORD in flags {
          flags := flags - {WIDTH_DWORD};
          flags := flags + {WIDTH_WORD};
        } else if WIDTH_QWORD in flags {
          flags := flags - {WIDTH_QWORD};
          flags := flags + {WIDTH_DWORD};
        }
      }
    }

    /** The instruction so far, with all flags that the tables and the ModRM byte call for. */
    ghost predicate Flagged(ram: Ram, o: nat, f: Found)
      reads this
    {
      var modrm := if HasModrm(f.mode) then ram(o + 1) else 0;
      var sib := HasModrm(f.mode) && HasSib(prefixes.addr == 1, ModOf(modrm), RmOf(modrm));
      var form := FormOf(prefixes.addr == 1, ModOf(modrm), RmOf(modrm), 0);
      Value() == Decoded(0, prefixes, ram(o), ModOf(modrm), RegOf(modrm), RmOf(modrm), 0, 0, 0, 0, 0, 0,
                         FlagsOf(f.mode, f.width, form, sib), NoOperand, NoOperand, NoOperand)
    }

    /** The ModRM operand's flags, then the operand size. */
    method FinishFlags(ghost m: Mode, ghost w: Width)
      requires HasModrm(m) && flags == ModeBits(m) + WidthBits(w) && Sane(prefixes) && mod < 4 && rm < 8
      modifies this`flags
      ensures flags == FlagsOf(m, Resized(w, prefixes.op == 1), FormOf(prefixes.addr == 1, mod, rm, 0),
                               HasSib(prefixes.addr == 1, mod, rm))
    {
      MemIsNew(m, w);
      ResizeModrm(m, w, FormOf(prefixes.addr == 1, mod, rm, 0), HasSib(prefixes.addr == 1, mod, rm), prefixes.op == 1);
      RegroupFlags(ModeBits(m) + WidthBits(w), {RmFlag(Reversed(m), FormOf(prefixes.addr == 1, mod, rm, 0))},
                   if HasSib(prefixes.addr == 1, mod, rm) then {SIB} else {});
      DecodeModrmAddrModes();
      ResizeOperands();
    }

    method PlainEntryFlags(e: Entry, b: Byte, intel: bool)
      requires flags == {} && Sane(prefixes) && (e.Diff? || e.Op?)
      requires e.Diff? ==> (b == 0x62 <==> e.syntax == 0) && (b == 0x62 ==> e.width == NoWidth)
      modifies this`flags
      ensures flags == ModeBits(e.mode) + WidthBits(PlainWidth(e, prefixes.op == 1, intel))
    {
      if e.Diff? && b == 0x62 {
        flags := flags + BoundFlags(prefixes.op, intel);
        BoundWidthFlags(e, prefixes.op, intel);
      }
      AddEntry(e, false);
    }

    /** After the loop, for an entry of the two main tables: its flags, and the ModRM byte if there is one. */
    method SetPlainFlags(ram: Ram, pc: nat, table: nat, b: Byte, intel: bool, ghost o: nat) returns (pc': nat)
      requires table <= 1 && tables.Fit() && Sane(prefixes) && (table == 1 <==> prefixes.two == 1)
      requires pc == o + 1 && b == ram(o)
      requires Untouched() && (tables.Entry(table, b).Diff? || tables.Entry(table, b).Op?)
      modifies this
      ensures prefixes == old(prefixes)
      ensures var found := Find(tables, ram, o, prefixes, intel);
        found.Some? && Flagged(ram, o, found.value) && pc' == o + 1 + if HasModrm(found.value.mode) then 1 else 0
    {
      var e := tables.Entry(table, b);
      ghost var w := PlainWidth(e, prefixes.op == 1, intel);
      FindPlain(tables, ram, o, prefixes, intel, table);
      opcodeByte := b;
      PlainEntryFlags(e, b, intel);
      pc' := ReadModrm(ram, pc, e.mode, w, o);
    }

    method ReadModrm(ram: Ram, pc: nat, ghost m: Mode, ghost w: Width, ghost o: nat) returns (pc': nat)
      requires Sane(prefixes) && pc == o + 1
      requires Value() == Decoded(0, prefixes, ram(o), 0, 0, 0, 0, 0, 0, 0, 0, 0, ModeBits(m) + WidthBits(w),
                                  NoOperand, NoOperand, NoOperand)
      modifies this
      ensures prefixes == old(prefixes) && Flagged(ram, o, Found(m, Resized(w, prefixes.op == 1)))
      ensures pc' == o + 1 + if HasModrm(m) then 1 else 0
    {
      MemIsNew(m, w);
      pc' := pc;
      if MOD_RM in flags {
        DecodeModrmFields(ram(pc));
        pc' := pc + 1;
        FinishFlags(m, w);
      } else {
        ResizePlain(m, w, FormOf(prefixes.addr == 1, 0, 0, 0), prefixes.op == 1);
        ResizeOperands();
      }
    }

    /** After the loop, for an entry of a group. */
    method SetGroupFlags(ram: Ram, table: nat, b: Byte, intel: bool, ghost o: nat)
      requires tables.Fit() && Sane(prefixes) && InGroup(ram, o, o + 2, table, b)
      requires tables.Entry(table, b).Diff? || tables.Entry(table, b).Op?
      modifies this`flags
      ensures var found := Find(tables, ram, o, prefixes, intel);
        found.Some? && Flagged(ram, o, found.value) && HasModrm(found.value.mode)
    {
      ghost var outer := TableEntry(tables, prefixes, ram(o));
      var e := tables.Entry(table, b);
      FindGroup(tables, ram, o, prefixes, intel, table);
      MergeFlags(e, outer);
      FinishFlags(Over(outer.mode, e.mode), OverWidth(outer.width, e.width));
    }

    method MergeFlags(e: Entry, ghost outer: Entry)
      requires GroupPair(outer, e) && flags == EntryFlags(outer)
      modifies this`flags
      ensures flags == ModeBits(Over(outer.mode, e.mode)) + WidthBits(OverWidth(outer.width, e.width))
    {
      OverrideReplaces(outer.mode, outer.width, e.mode, e.width);
      AddEntry(e, true);
    }

    // ---------- the bytes that follow ----------

    method DecodeSibByte(sib: Byte, ghost m: Mode, ghost w: Width)
      requires HasModrm(m) && mod < 3 && rm == 4 && flags == FlagsOf(m, w, FormOf(false, mod, rm, 0), true)
      modifies this
      ensures Value() == old(Value()).(scale := ModOf(sib), idx := RegOf(sib), base := RmOf(sib),
                                       flags := FlagsOf(m, w, FormOf(false, mod, rm, RmOf(sib)), true))
    {
      scale := (sib & 0xC0) >> 6;
      idx := (sib & 0x38) >> 3;
      base := sib & 0x07;
      if base == 5 {
        ReplaceBase(m, w);
      } else {
        OtherBase(mod, base);
      }
    }

    method ReplaceBase(ghost m: Mode, ghost w: Width)
      requires HasModrm(m) && mod < 3 && flags == FlagsOf(m, w, FormOf(false, mod, 4, 0), true)
      modifies this`flags
      ensures flags == FlagsOf(m, w, FormOf(false, mod, 4, 5), true)
    {
      ShapeFlags(m, w, FormOf(false, mod, 4, 0), true);
      BaseChanges(m, w, mod, 4);
      if DIR_REVERSED in flags {
        flags := flags - {DST_MEM};
        flags := flags + {if mod == 1 then DST_MEM_DISP_BYTE else DST_MEM_DISP_DWORD};
      } else {
        flags := flags - {SRC_MEM};
        flags := flags + {if mod == 1 then SRC_MEM_DISP_BYTE else SRC_MEM_DISP_DWORD};
      }
    }

    method ReadSib(ram: Ram, pc: nat, ghost o: nat, ghost f: Found, ghost start: nat) returns (pc': nat)
      requires start <= o && Sane(prefixes) && Flagged(ram, o, f) && pc == o + 1 + if HasModrm(f.mode) then 1 else 0
      modifies this
      ensures Value() == Bare(Instruction(ram, start, o, old(prefixes), f))
      ensures pc' == DispAt(ram, o, old(prefixes), f)
    {
      ghost var modrm := if HasModrm(f.mode) then ram(o + 1) else 0;
      ghost var sib := HasModrm(f.mode) && HasSib(prefixes.addr == 1, ModOf(modrm), RmOf(modrm));
      ShapeFlags(f.mode, f.width, FormOf(prefixes.addr == 1, ModOf(modrm), RmOf(modrm), 0), sib);
      BareIs(ram, start, o, prefixes, f, modrm, sib);
      pc' := pc;
      if SIB in flags {
        DecodeSibByte(ram(pc), f.mode, f.width);
        pc' := pc + 1;
      }
    }

    method DecodeDisp(ram: Ram, pc: nat, ghost m: Mode, ghost w: Width, ghost f: Form, ghost sib: bool)
      returns (pc': nat)
      requires flags == FlagsOf(m, w, f, sib) && HasModrm(m)
      requires f.WithDisp? && (f.bytes == 1 || f.bytes == 2 || f.bytes == 4)
      modifies this`disp
      ensures disp == Displacement(ram, pc, f.bytes, true) && pc' == pc + f.bytes
    {
      OneDisplacement(m, w, f, sib);
      var size := flags * MEM_DISP_MASK;
      if size == {SRC_MEM_DISP_DWORD} || size == {DST_MEM_DISP_DWORD} {
        disp, pc' := U32(ram, pc), pc + 4;
      } else if size == {SRC_MEM_DISP_WORD} || size == {DST_MEM_DISP_WORD} {
        disp, pc' := S16(ram, pc), pc + 2;
      } else if size == {SRC_MEM_DISP_BYTE} || size == {DST_MEM_DISP_BYTE} {
        disp, pc' := S8(ram, pc), pc + 1;
      } else {
        assert false;
      }
    }

    method DecodeMoffset(ram: Ram, pc: nat) returns (pc': nat)
      modifies this`disp
      ensures disp == Displacement(ram, pc, if prefixes.addr == 0 then 4 else 2, false)
      ensures pc' == pc + if prefixes.addr == 0 then 4 else 2
    {
      if prefixes.addr == 0 {
        disp, pc' := U32(ram, pc), pc + 4;
      } else {
        disp, pc' := U16(ram, pc), pc + 2;
      }
    }

    method ReadDisp(ram: Ram, pc: nat, ghost d: Decoded, ghost m: Mode, ghost w: Width, ghost f: Form, ghost sib: bool)
      returns (pc': nat)
      requires Value() == Bare(d) && DispPart(ram, pc, d, m, w, f, sib)
      modifies this`disp
      ensures Value() == NoData(d) && pc' == pc + DispSize(m, f, d.prefixes.addr == 1)
    {
      pc' := DispOrMoffset(ram, pc, m, w, f, sib);
    }

    method DispOrMoffset(ram: Ram, pc: nat, ghost m: Mode, ghost w: Width, ghost f: Form, ghost sib: bool)
      returns (pc': nat)
      requires flags == FlagsOf(m, w, f, sib) && (f.WithDisp? ==> f.bytes == 1 || f.bytes == 2 || f.bytes == 4)
      requires Sane(prefixes) && disp == 0
      modifies this`disp
      ensures var n := DispSize(m, f, prefixes.addr == 1);
        disp == Displacement(ram, pc, n, HasModrm(m)) && pc' == pc + n
    {
      OneDisplacement(m, w, f, sib);
      OtherFlags(m, w, f, sib);
      pc' := pc;
      if flags * MEM_DISP_MASK != {} {
        pc' := DecodeDisp(ram, pc, m, w, f, sib);
      }
      if flags * MOFFSET_MASK != {} {
        pc' := DecodeMoffset(ram, pc');
      }
    }

    method DecodeImm(ram: Ram, pc: nat, ghost m: Mode, ghost w: Width, ghost f: Form, ghost sib: bool)
      returns (pc': nat)
      requires flags == FlagsOf(m, w, f, sib) && data0 == data1 == 0 && (ImmCase(m) != {} || PlainImm(m))
      modifies this`data0, this`data1
      ensures data0 == Data0(ram, pc, m, w) && data1 == Data1(ram, pc, m, w) && pc' == pc + ImmBytes(m, w)
    {
      ImmFlags(m, w, f, sib);
      WidthFlags(m, w, f, sib);
      ImmCases(m);
      var kind := flags * IMM_CASES;
      pc' := pc;
      if kind == {SRC_IMM8} {
        data0, pc' := U8(ram, pc), pc + 1;
        return;
      } else if kind == {SRC_IMM48} {
        data0, pc' := WordOrDword(ram, pc);
        data1, pc' := U16(ram, pc'), pc' + 2;
        return;
      } else if kind == {SRC_IMM8, DST_IMM16} {
        data1, pc' := U16(ram, pc), pc + 2;
        data0, pc' := U8(ram, pc'), pc' + 1;
        return;
      } else if kind == {OP3_IMM8} {
        data0, pc' := U8(ram, pc), pc + 1;
        return;
      } else if kind == {OP3_IMM} {
        data0, pc' := WordOrDword(ram, pc);
        return;
      }
      WidthCases(w);
      var width := flags * WIDTH_MASK;
      if width == {WIDTH_DWORD} {
        data0, pc' := U32(ram, pc), pc + 4;
      } else if width == {WIDTH_WORD} {
        data0, pc' := U16(ram, pc), pc + 2;
      } else if width == {WIDTH_BYTE} {
        data0, pc' := U8(ram, pc), pc + 1;
      }
    }

    method WordOrDword(ram: Ram, pc: nat) returns (value: bv32, pc': nat)
      ensures value == (if WIDTH_DWORD in flags then U32(ram, pc) else U16(ram, pc))
      ensures pc' == pc + if WIDTH_DWORD in flags then 4 else 2
    {
      if WIDTH_DWORD in flags {
        value, pc' := U32(ram, pc), pc + 4;
      } else {
        value, pc' := U16(ram, pc), pc + 2;
      }
    }

    method DecodeRel(ram: Ram, pc: nat, ghost m: Mode, ghost w: Width, ghost f: Form, ghost sib: bool)
      returns (pc': nat)
      requires flags == FlagsOf(m, w, f, sib) && data0 == 0 && m.Rel?
      modifies this`data0
      ensures data0 == Data0(ram, pc, m, w) && pc' == pc + ImmBytes(m, w)
    {
      WidthFlags(m, w, f, sib);
      WidthCases(w);
      var width := flags * WIDTH_MASK;
      pc' := pc;
      if width == {WIDTH_DWORD} {
        data0, pc' := U32(ram, pc), pc + 4;
      } else if width == {WIDTH_WORD} {
        data0, pc' := S16(ram, pc), pc + 2;
      } else if width == {WIDTH_BYTE} {
        data0, pc' := S8(ram, pc), pc + 1;
      }
    }

    method ReadData(ram: Ram, pc: nat, ghost d: Decoded, ghost m: Mode, ghost w: Width, ghost f: Form, ghost sib: bool)
      returns (pc': nat)
      requires Value() == NoData(d) && DataPart(ram, pc, d, m, w, f, sib)
      modifies this`data0, this`data1
      ensures Value() == Unnamed(d) && pc' == pc + ImmBytes(m, w)
    {
      ghost var v := Value();
      pc' := ImmOrRel(ram, pc, m, w, f, sib);
      DataFilled(v, Value(), d);
    }

    method ImmOrRel(ram: Ram, pc: nat, ghost m: Mode, ghost w: Width, ghost f: Form, ghost sib: bool) returns (pc': nat)
      requires flags == FlagsOf(m, w, f, sib) && data0 == data1 == 0
      modifies this`data0, this`data1
      ensures data0 == Data0(ram, pc, m, w) && data1 == Data1(ram, pc, m, w) && pc' == pc + ImmBytes(m, w)
    {
      ImmFlags(m, w, f, sib);
      OtherFlags(m, w, f, sib);
      DataOrNone(ram, pc, m, w);
      pc' := pc;
      if flags * IMM_MASK != {} {
        pc' := DecodeImm(ram, pc, m, w, f, sib);
      }
      if flags * REL_MASK != {} {
        pc' := DecodeRel(ram, pc', m, w, f, sib);
      }
    }

    // ---------- operands ----------

    method DecodeThirdOperand(ghost m: Mode)
      requires m != NoMode && flags * OP3_MASK == {ThirdFlag(m)} && third == NoOperand
      modifies this`third
      ensures third == ThirdOperand(m, data0)
    {
      var kind := flags * OP3_MASK;
      if kind == {OP3_NONE} {
      } else if kind == {OP3_IMM} || kind == {OP3_IMM8} {
        third := ImmOp(data0);
      } else if kind == {OP3_CL} {
        third := Reg8Op(1);
      } else {
        assert false;
      }
    }

    method DecodeDstReg(ghost m: Mode, ghost sib: bool) returns (reg: Byte)
      requires Shows(flags, m, sib)
      ensures reg == if !HasModrm(m) then opcodeByte & 0x07 else if Reversed(m) then rm else regOpc
    {
      reg := if MOD_RM !in flags then opcodeByte & 0x07 else if DIR_REVERSED in flags then rm else regOpc;
    }

    method DecodeSrcReg(ghost m: Mode, ghost sib: bool) returns (reg: Byte)
      requires Shows(flags, m, sib)
      ensures reg == if !HasModrm(m) then opcodeByte & 0x07 else if Reversed(m) then regOpc else rm
    {
      reg := if MOD_RM !in flags then opcodeByte & 0x07 else if DIR_REVERSED in flags then regOpc else rm;
    }

    /** The case of a memory operand; `reg` is what `decode_dst_mem` or `decode_src_mem` picks. */
    method MemoryOperand(reg: Byte, withDisp: bool, ghost f: Form, ghost sib: bool) returns (operand: Operand)
      requires (SIB in flags <==> sib) && (if withDisp then f.WithDisp? else f.InMem?) && reg == rm
      ensures operand == RmOperand(f, sib, rm, disp)
    {
      operand := if withDisp then if SIB in flags then SibDispOp(disp) else MemDispOp(rm, disp)
                 else if SIB in flags then SibMemOp else MemOp(reg);
    }

    method DecodeDstOperand(ghost m: Mode, ghost f: Form, ghost sib: bool)
      requires m != NoMode && Shows(flags, m, sib) && flags * DST_MASK == {TargetFlag(m, f)} && dst == NoOperand
      modifies this`dst
      ensures dst == if HasModrm(m) && Reversed(m) then RmOperand(f, sib, rm, disp)
                     else PlainTarget(m, opcodeByte, regOpc, disp, data1)
    {
      var kind := flags * DST_MASK;
      TargetCases(m, f, kind);
      if kind == {DST_MEM} {
        dst := MemoryOperand(if DIR_REVERSED in flags then rm else regOpc, false, f, sib);
      } else if IsDispKind(kind) {
        dst := MemoryOperand(rm, true, f, sib);
      } else {
        dst := OtherTarget(kind, m, f, sib);
      }
    }

    /** The cases that are not memory. */
    method OtherTarget(kind: Flags, ghost m: Mode, ghost f: Form, ghost sib: bool) returns (operand: Operand)
      requires m != NoMode && Shows(flags, m, sib) && kind == {TargetFlag(m, f)}
      requires HasModrm(m) && Reversed(m) ==> f.InReg?
      ensures operand == if HasModrm(m) && Reversed(m) then RegOp(rm)
                         else PlainTarget(m, opcodeByte, regOpc, disp, data1)
    {
      operand := NoOperand;
      if kind == {DST_NONE} {
      } else if kind == {DST_IMM16} {
        operand := ImmOp(data1);
      } else if kind == {DST_REG} {
        var reg := DecodeDstReg(m, sib);
        operand := RegOp(reg);
      } else if kind == {DST_SEG3_REG} {
        operand := SegOp(regOpc);
      } else if kind == {DST_CR_REG} {
        operand := ControlOp(regOpc);
      } else if kind == {DST_DBG_REG} {
        operand := DebugOp(regOpc);
      } else if kind == {DST_ACC} {
        operand := RegOp(0);
      } else if kind == {DST_MOFFSET} {
        operand := MoffsetOp(disp);
      } else {
        assert false;
      }
    }

    method DecodeSrcOperand(ghost m: Mode, ghost f: Form, ghost sib: bool)
      requires m != NoMode && Shows(flags, m, sib) && flags * SRC_MASK == {SourceFlag(m, f)} && src == NoOperand
      modifies this`src
      ensures src == if HasModrm(m) && !Reversed(m) then RmOperand(f, sib, rm, disp)
                     else PlainSource(m, opcodeByte, regOpc, disp, data0, data1)
    {
      var kind := flags * SRC_MASK;
      SourceCases(m, f, kind);
      if kind == {SRC_MEM} {
        src := MemoryOperand(if DIR_REVERSED in flags then regOpc else rm, false, f, sib);
      } else if IsDispKind(kind) {
        src := MemoryOperand(rm, true, f, sib);
      } else {
        src := OtherSource(kind, m, f, sib);
      }
    }

    /** The cases that are not memory. */
    method OtherSource(kind: Flags, ghost m: Mode, ghost f: Form, ghost sib: bool) returns (operand: Operand)
      requires m != NoMode && Shows(flags, m, sib) && kind == {SourceFlag(m, f)}
      requires HasModrm(m) && !Reversed(m) ==> f.InReg?
      ensures operand == if HasModrm(m) && !Reversed(m) then RmOperand(f, sib, rm, disp)
                         else PlainSource(m, opcodeByte, regOpc, disp, data0, data1)
    {
      if kind == {SRC_REG} {
        var reg := DecodeSrcReg(m, sib);
        operand := RegOp(reg);
      } else {
          operand := FixedSource(kind, m, f);
      }
    }

    /** The cases that are neither memory nor a general register. */
    method FixedSource(kind: Flags, ghost m: Mode, ghost f: Form) returns (operand: Operand)
      requires m != NoMode && kind == {SourceFlag(m, f)} && kind != {SRC_REG}
      requires HasModrm(m) && !Reversed(m) ==> f.InReg?
      requires MOD_RM in flags <==> HasModrm(m)
      ensures operand == PlainSource(m, opcodeByte, regOpc, disp, data0, data1)
      ensures HasModrm(m) ==> Reversed(m)
    {
      operand := NoOperand;
      if kind == {SRC_NONE} {
      } else if kind == {SRC_REL} {
        operand := RelOp(data0);
      } else if kind == {SRC_IMM} || kind == {SRC_IMM8} {
        operand := ImmOp(data0);
      } else if kind == {SRC_IMM48} {
        operand := FarOp(data0, data1);
      } else {
        operand := SpecialSource(kind, m, f);
      }
    }

    /** The cases of one certain register or address. */
    method SpecialSource(kind: Flags, ghost m: Mode, ghost f: Form) returns (operand: Operand)
      requires m != NoMode && kind == {SourceFlag(m, f)}
      requires SourceFlag(m, f) !in {SRC_REG, SRC_NONE, SRC_REL, SRC_IMM, SRC_IMM8, SRC_IMM48}
      requires HasModrm(m) && !Reversed(m) ==> f.InReg?
      requires MOD_RM in flags <==> HasModrm(m)
      ensures operand == PlainSource(m, opcodeByte, regOpc, disp, data0, data1)
      ensures HasModrm(m) ==> Reversed(m)
    {
      operand := NoOperand;
      if kind == {SRC_SEG2_REG} {
        operand := SegOp(opcodeByte >> 3);
      } else if kind == {SRC_SEG3_REG} {
        operand := SegOp(if MOD_RM in flags then regOpc else (opcodeByte & 0x38) >> 3);
      } else if kind == {SRC_CR_REG} {
        operand := ControlOp(regOpc);
      } else if kind == {SRC_DBG_REG} {
        operand := DebugOp(regOpc);
      } else if kind == {SRC_ACC} {
        operand := RegOp(0);
      } else if kind == {SRC_MOFFSET} {
        operand := MoffsetOp(disp);
      } else {
        assert false;
      }
    }

    // ---------- the whole ----------

    method NameSource(ghost d: Decoded, ghost m: Mode, ghost w: Width, ghost f: Form, ghost sib: bool)
      requires m != NoMode && Value() == Unnamed(d) && d.flags == FlagsOf(m, w, f, sib) && IsSource(d, m, f, sib)
      modifies this`src
      ensures Value() == Unnamed(d).(src := d.src)
    {
      OneSource(m, w, f, sib);
      ShapeFlags(m, w, f, sib);
      DecodeSrcOperand(m, f, sib);
    }

    method NameTarget(ghost d: Decoded, ghost m: Mode, ghost w: Width, ghost f: Form, ghost sib: bool)
      requires m != NoMode && Value() == Unnamed(d).(src := d.src) && d.flags == FlagsOf(m, w, f, sib)
      requires IsTarget(d, m, f, sib)
      modifies this`dst
      ensures Value() == Unnamed(d).(src := d.src, dst := d.dst)
    {
      OneTarget(m, w, f, sib);
      ShapeFlags(m, w, f, sib);
      DecodeDstOperand(m, f, sib);
    }

    method NameThird(ghost d: Decoded, ghost m: Mode)
      requires m != NoMode && Value() == Unnamed(d).(src := d.src, dst := d.dst)
      requires flags * OP3_MASK == {ThirdFlag(m)} && d.third == ThirdOperand(m, data0)
      modifies this`third
      ensures Value() == d.(length := 0)
    {
      DecodeThirdOperand(m);
      assert third == d.third;
    }

    method NameOperands(ghost d: Decoded, ghost m: Mode, ghost w: Width, ghost f: Form, ghost sib: bool)
      requires Value() == Unnamed(d) && OperandsFound(d, m, w, f, sib)
      modifies this`src, this`dst, this`third
      ensures Value() == d.(length := 0)
    {
      NameSource(d, m, w, f, sib);
      NameTarget(d, m, w, f, sib);
      OneThird(m, w, f, sib);
      NameThird(d, m);
    }

    /** `arch_x86_decode_instr`. The bytes must hold one that is not a prefix; without it the
        decoder would never stop. */
    method DecodeInstr(ram: Ram, start: nat, intel: bool, ghost stop: nat) returns (ok: bool)
      requires tables.Fit() && start <= stop && !IsPrefix(tables, ram(stop))
      modifies this
      ensures ok <==> Describe(tables, ram, start, stop, intel).Some?
      ensures ok ==> Value() == Describe(tables, ram, start, stop, intel).value
    {
      Clear();
      var pc, table, b;
      ok, pc, table, b := FindEntry(ram, start, intel, stop);
      ghost var o := OpcodeAt(tables, ram, start, stop);
      if !ok {
        SearchFailed(ram, start, stop, pc, table, b, intel);
        return false;
      }
      pc := SetFlags(ram, pc, table, b, intel, start, stop);
      ghost var f := Find(tables, ram, o, prefixes, intel).value;
      FoundHasMode(tables, ram, o, prefixes, intel);
      Finish(ram, pc, start, o, f);
    }

    lemma SearchFailed(ram: Ram, start: nat, stop: nat, pc: nat, table: nat, b: Byte, intel: bool)
      requires AtEntry(ram, start, stop, pc, table, b) && tables.Entry(table, b).Undefined?
      ensures Describe(tables, ram, start, stop, intel) == None
    {
      if table <= 1 {
        FailedPlain(ram, start, stop, pc, table, b, intel);
      } else {
        FailedInGroup(ram, OpcodeAt(tables, ram, start, stop), pc, table, b, intel);
      }
    }

    lemma FailedPlain(ram: Ram, start: nat, stop: nat, pc: nat, table: nat, b: Byte, intel: bool)
      requires table <= 1 && AtEntry(ram, start, stop, pc, table, b) && tables.Entry(table, b).Undefined?
      ensures Find(tables, ram, OpcodeAt(tables, ram, start, stop), PrefixesAt(tables, ram, start, stop, NO_PREFIXES),
                   intel) == None
    {
      AtOpcode(ram, start, stop, pc, table, b);
      NothingPlain(tables, ram, pc - 1, prefixes, table, intel);
    }

    lemma FailedInGroup(ram: Ram, o: nat, pc: nat, table: nat, b: Byte, intel: bool)
      requires InGroup(ram, o, pc, table, b) && tables.Entry(table, b).Undefined?
      ensures Find(tables, ram, o, prefixes, intel) == None
    {
      NothingInGroup(tables, ram, o, prefixes, table, intel);
    }

    method SetFlags(ram: Ram, pc: nat, table: nat, b: Byte, intel: bool, ghost start: nat, ghost stop: nat)
      returns (pc': nat)
      requires AtEntry(ram, start, stop, pc, table, b) && (tables.Entry(table, b).Diff? || tables.Entry(table, b).Op?)
      modifies this
      ensures prefixes == old(prefixes) == PrefixesAt(tables, ram, start, stop, NO_PREFIXES) && Sane(prefixes)
      ensures var o := OpcodeAt(tables, ram, start, stop);
        var found := Find(tables, ram, o, prefixes, intel);
        found.Some? && Flagged(ram, o, found.value) && pc' == o + 1 + if HasModrm(found.value.mode) then 1 else 0
    {
      ghost var o := OpcodeAt(tables, ram, start, stop);
      if table <= 1 {
        AtOpcode(ram, start, stop, pc, table, b);
        pc' := SetPlainFlags(ram, pc, table, b, intel, o);
      } else {
        SetGroupFlags(ram, table, b, intel, o);
        pc' := pc;
      }
    }

    lemma AtOpcode(ram: Ram, start: nat, stop: nat, pc: nat, table: nat, b: Byte)
      requires table <= 1 && AtEntry(ram, start, stop, pc, table, b) && !tables.Entry(table, b).Prefix?
      ensures pc - 1 == OpcodeAt(tables, ram, start, stop) && (table == 1 <==> prefixes.two == 1)
      ensures prefixes == PrefixesAt(tables, ram, start, stop, NO_PREFIXES)
    {
    }

    method FinishDisp(ram: Ram, pc: nat, ghost o: nat, ghost f: Found, ghost start: nat, ghost d: Decoded)
      returns (pc': nat)
      requires IsInstruction(ram, start, o, f, d) && Value() == Bare(d) && pc == DispAt(ram, o, d.prefixes, f)
      modifies this`disp
      ensures Value() == NoData(d) && pc' == DataAt(ram, o, d.prefixes, f)
    {
      InstructionDisp(ram, start, o, d.prefixes, f);
      pc' := ReadDisp(ram, pc, d, f.mode, f.width, FormAt(ram, start, o, d.prefixes, f),
                      LayoutOf(ram, o, d.prefixes, f).sib == 1);
    }

    method FinishData(ram: Ram, pc: nat, ghost o: nat, ghost f: Found, ghost start: nat, ghost d: Decoded)
      returns (pc': nat)
      requires IsInstruction(ram, start, o, f, d) && Value() == NoData(d) && pc == DataAt(ram, o, d.prefixes, f)
      modifies this`data0, this`data1
      ensures Value() == Unnamed(d) && pc' == start + d.length
    {
      InstructionData(ram, start, o, d.prefixes, f);
      pc' := ReadData(ram, pc, d, f.mode, f.width, FormAt(ram, start, o, d.prefixes, f),
                      LayoutOf(ram, o, d.prefixes, f).sib == 1);
    }

    method FinishOperands(ram: Ram, ghost o: nat, ghost f: Found, ghost start: nat, ghost d: Decoded)
      requires IsInstruction(ram, start, o, f, d) && Value() == Unnamed(d)
      modifies this`src, this`dst, this`third
      ensures Value() == d.(length := 0)
    {
      InstructionOperands(ram, start, o, d.prefixes, f);
      NameOperands(d, f.mode, f.width, FormAt(ram, start, o, d.prefixes, f), LayoutOf(ram, o, d.prefixes, f).sib == 1);
    }

    /** Everything after the SIB byte. */
    method FinishParts(ram: Ram, pc: nat, start: nat, ghost o: nat, ghost f: Found, ghost d: Decoded)
      requires IsInstruction(ram, start, o, f, d) && Value() == Bare(d) && pc == DispAt(ram, o, d.prefixes, f)
      modifies this
      ensures Value() == d
    {
      var at := FinishDisp(ram, pc, o, f, start, d);
      at := FinishData(ram, at, o, f, start, d);
      FinishOperands(ram, o, f, start, d);
      nrBytes := at - start;
    }

    /** Everything after the ModRM byte. */
    method Finish(ram: Ram, pc: nat, start: nat, ghost o: nat, ghost f: Found)
      requires start <= o && f.mode != NoMode && Sane(prefixes) && Flagged(ram, o, f)
      requires pc == o + 1 + if HasModrm(f.mode) then 1 else 0
      modifies this
      ensures Value() == Instruction(ram, start, o, old(prefixes), f)
    {
      ghost var d := Instruction(ram, start, o, prefixes, f);
      var at := ReadSib(ram, pc, o, f, start);
      FinishParts(ram, at, start, o, f, d);
    }

    method Clear()
      modifies this
      ensures Cleared()
    {
      ClearNumbers();
      disp, data0, data1, flags, prefixes := 0, 0, 0, {}, NO_PREFIXES;
      src, dst, third := NoOperand, NoOperand, NoOperand;
    }

    method ClearNumbers()
      modifies this
      ensures nrBytes == 0 && opcodeByte == 0 && mod == 0 && rm == 0
      ensures regOpc == 0 && base == 0 && idx == 0 && scale == 0
    {
      nrBytes, opcodeByte, mod, rm := 0, 0, 0, 0;
      regOpc, base, idx, scale := 0, 0, 0, 0;
    }
  }

  lemma NothingPlain(t: Tables, ram: Ram, o: nat, p: Prefixes, table: nat, intel: bool)
    requires table <= 1 && (table == 1 <==> p.two == 1) && t.Entry(table, ram(o)).Undefined?
    ensures Find(t, ram, o, p, intel) == None
  {
  }

  lemma NothingInGroup(t: Tables, ram: Ram, o: nat, p: Prefixes, table: nat, intel: bool)
    requires table >= 2 && TableEntry(t, p, ram(o)).Group? && TableEntry(t, p, ram(o)).number + 1 == table
    requires t.Entry(table, RegOf(ram(o + 1))).Undefined?
    ensures Find(t, ram, o, p, intel) == None
  {
  }

  lemma FoundHasMode(t: Tables, ram: Ram, o: nat, p: Prefixes, intel: bool)
    requires t.Fit() && Find(t, ram, o, p, intel).Some?
    ensures Find(t, ram, o, p, intel).value.mode != NoMode
  {
    assert FitsOne(ram(o), t.one(ram(o)));
    assert FitsTwo(ram(o), t.two(ram(o)));
  }

  /** `d` has at `at` the displacement its flags ask for. */
  ghost predicate DispPart(ram: Ram, at: nat, d: Decoded, m: Mode, w: Width, f: Form, sib: bool) {
    && Sane(d.prefixes) && d.flags == FlagsOf(m, w, f, sib)
    && (f.WithDisp? ==> f.bytes == 1 || f.bytes == 2 || f.bytes == 4)
    && d.disp == Displacement(ram, at, DispSize(m, f, d.prefixes.addr == 1), HasModrm(m))
  }

  /** And at `at` the immediates. */
  ghost predicate DataPart(ram: Ram, at: nat, d: Decoded, m: Mode, w: Width, f: Form, sib: bool) {
    && d.flags == FlagsOf(m, w, f, sib)
    && d.data0 == Data0(ram, at, m, w) && d.data1 == Data1(ram, at, m, w)
  }

  /** The flags that are about the ModRM and SIB bytes. */
  predicate Shows(flags: Flags, m: Mode, sib: bool) {
    (SIB in flags <==> sib) && (MOD_RM in flags <==> HasModrm(m)) && (DIR_REVERSED in flags <==> Reversed(m))
  }

  ghost predicate IsSource(d: Decoded, m: Mode, f: Form, sib: bool) {
    d.src == if HasModrm(m) && !Reversed(m) then RmOperand(f, sib, d.rm, d.disp)
             else PlainSource(m, d.opcodeByte, d.reg, d.disp, d.data0, d.data1)
  }

  ghost predicate IsTarget(d: Decoded, m: Mode, f: Form, sib: bool) {
    d.dst == if HasModrm(m) && Reversed(m) then RmOperand(f, sib, d.rm, d.disp)
             else PlainTarget(m, d.opcodeByte, d.reg, d.disp, d.data1)
  }

  ghost predicate IsThird(d: Decoded, m: Mode) {
    d.third == ThirdOperand(m, d.data0)
  }

  ghost predicate IsInstruction(ram: Ram, start: nat, o: nat, f: Found, d: Decoded) {
    start <= o && f.mode != NoMode && Sane(d.prefixes) && d == Instruction(ram, start, o, d.prefixes, f)
  }

  ghost predicate OperandsFound(d: Decoded, m: Mode, w: Width, f: Form, sib: bool) {
    && m != NoMode && d.flags == FlagsOf(m, w, f, sib)
    && IsSource(d, m, f, sib) && IsTarget(d, m, f, sib) && IsThird(d, m)
  }

  lemma DataFilled(v: Decoded, v': Decoded, d: Decoded)
    requires v == NoData(d) && v' == v.(data0 := d.data0, data1 := d.data1)
    ensures v' == Unnamed(d)
  {
  }

  /** The form of the ModRM operand. */
  ghost function FormAt(ram: Ram, start: nat, o: nat, p: Prefixes, f: Found): Form
    requires start <= o
  {
    var d := Instruction(ram, start, o, p, f);
    FormOf(p.addr == 1, d.mod, d.rm, d.base)
  }

  ghost function DataAt(ram: Ram, o: nat, p: Prefixes, f: Found): nat {
    DispAt(ram, o, p, f) + LayoutOf(ram, o, p, f).disp
  }

  /** The parts of an instruction, as the steps of the decoder find them. */
  lemma InstructionDisp(ram: Ram, start: nat, o: nat, p: Prefixes, f: Found)
    requires start <= o && Sane(p)
    ensures var d, sib := Instruction(ram, start, o, p, f), LayoutOf(ram, o, p, f).sib == 1;
      var form := FormAt(ram, start, o, p, f);
      && d.prefixes == p && DispPart(ram, DispAt(ram, o, p, f), d, f.mode, f.width, form, sib)
      && DataAt(ram, o, p, f) == DispAt(ram, o, p, f) + DispSize(f.mode, form, d.prefixes.addr == 1)
  {
    LayoutSizes(ram, start, o, p, f);
    InstructionFields(ram, start, o, p, f);
  }

  lemma InstructionData(ram: Ram, start: nat, o: nat, p: Prefixes, f: Found)
    requires start <= o
    ensures var d, sib := Instruction(ram, start, o, p, f), LayoutOf(ram, o, p, f).sib == 1;
      && DataPart(ram, DataAt(ram, o, p, f), d, f.mode, f.width, FormAt(ram, start, o, p, f), sib)
      && d.length == DataAt(ram, o, p, f) + ImmBytes(f.mode, f.width) - start
  {
    var d, l := Instruction(ram, start, o, p, f), LayoutOf(ram, o, p, f);
    var at := DataAt(ram, o, p, f);
    LayoutSizes(ram, start, o, p, f);
    InstructionFields(ram, start, o, p, f);
    assert at == DispAt(ram, o, p, f) + l.disp;
    assert d.length == at + l.imm - start;
    assert d.data0 == Data0(ram, at, f.mode, f.width) && d.data1 == Data1(ram, at, f.mode, f.width);
  }

  lemma InstructionOperands(ram: Ram, start: nat, o: nat, p: Prefixes, f: Found)
    requires start <= o && f.mode != NoMode
    ensures var d, sib := Instruction(ram, start, o, p, f), LayoutOf(ram, o, p, f).sib == 1;
      OperandsFound(d, f.mode, f.width, FormAt(ram, start, o, p, f), sib)
  {
  }

  lemma InstructionFields(ram: Ram, start: nat, o: nat, p: Prefixes, f: Found)
    requires start <= o
    ensures var d, l := Instruction(ram, start, o, p, f), LayoutOf(ram, o, p, f);
      var at := DispAt(ram, o, p, f);
      && d.prefixes == p && d.length == at + l.disp + l.imm - start
      && d.flags == FlagsOf(f.mode, f.width, FormOf(p.addr == 1, d.mod, d.rm, d.base), l.sib == 1)
      && d.disp == Displacement(ram, at, l.disp, l.modrm == 1)
      && d.data0 == Data0(ram, at + l.disp, f.mode, f.width) && d.data1 == Data1(ram, at + l.disp, f.mode, f.width)
  {
  }

  lemma LayoutSizes(ram: Ram, start: nat, o: nat, p: Prefixes, f: Found)
    requires start <= o
    ensures var d, l := Instruction(ram, start, o, p, f), LayoutOf(ram, o, p, f);
      && l.disp == DispSize(f.mode, FormOf(p.addr == 1, d.mod, d.rm, d.base), p.addr == 1)
      && l.imm == ImmBytes(f.mode, f.width) && (l.modrm == 1 <==> HasModrm(f.mode))
  {
  }

  predicate IsDispKind(kind: Flags) {
    kind == {SRC_MEM_DISP_BYTE} || kind == {SRC_MEM_DISP_WORD} || kind == {SRC_MEM_DISP_DWORD}
    || kind == {DST_MEM_DISP_BYTE} || kind == {DST_MEM_DISP_WORD} || kind == {DST_MEM_DISP_DWORD}
  }

  /** Which cases mean memory. */
  lemma TargetCases(m: Mode, f: Form, kind: Flags)
    requires m != NoMode && kind == {TargetFlag(m, f)}
    ensures kind == {DST_MEM} <==> HasModrm(m) && Reversed(m) && f.InMem?
    ensures IsDispKind(kind) <==> HasModrm(m) && Reversed(m) && f.WithDisp?
  {
  }

  lemma SourceCases(m: Mode, f: Form, kind: Flags)
    requires m != NoMode && kind == {SourceFlag(m, f)}
    ensures kind == {SRC_MEM} <==> HasModrm(m) && !Reversed(m) && f.InMem?
    ensures IsDispKind(kind) <==> HasModrm(m) && !Reversed(m) && f.WithDisp?
  {
  }

  /** The bytes of a displacement or an offset. */
  function DispSize(m: Mode, f: Form, short: bool): nat {
    if HasModrm(m) then if f.WithDisp? then f.bytes else 0
    else if m.AccMoffset? || m.MoffsetAcc? then if short then 2 else 4
    else 0
  }

  lemma DataOrNone(ram: Ram, at: nat, m: Mode, w: Width)
    ensures ImmCase(m) == {} && !PlainImm(m) && !m.Rel? ==> ImmBytes(m, w) == 0 && Data0(ram, at, m, w) == 0
    ensures ImmCase(m) == {} && !PlainImm(m) ==> Data1(ram, at, m, w) == 0
    ensures m.Rel? ==> ImmCase(m) == {} && !PlainImm(m)
  {
  }

  lemma ImmCases(m: Mode)
    ensures ImmCase(m) == {SRC_IMM8} <==> m.Imm8? || m.Imm8Rm?
    ensures ImmCase(m) == {SRC_IMM48} <==> m.FarPtr?
    ensures ImmCase(m) == {SRC_IMM8, DST_IMM16} <==> m.Imm8Imm16?
    ensures ImmCase(m) == {OP3_IMM8} <==> m.RmImm8Reg? || m.RegImm8Rm?
    ensures ImmCase(m) == {OP3_IMM} <==> m.RmImmReg?
    ensures PlainImm(m) ==> ImmCase(m) == {}
  {
    assert DST_IMM16 !in {SRC_IMM8} && DST_IMM16 in {SRC_IMM8, DST_IMM16};
  }

  lemma WidthCases(w: Width)
    ensures var bits := WidthBits(w) - {WIDTH_QWORD};
      && (bits == {WIDTH_DWORD} <==> w.Dword32?) && (bits == {WIDTH_WORD} <==> w.Word16?)
      && (bits == {WIDTH_BYTE} <==> w.Byte8?)
  {
  }

  /** The register encoded as 5 stands for no base, and a displacement in its place. */
  lemma BaseChanges(m: Mode, w: Width, mod: Byte, rm: Byte)
    requires HasModrm(m) && mod < 3 && rm == 4
    ensures var f := FlagsOf(m, w, FormOf(false, mod, rm, 0), true);
      FlagsOf(m, w, FormOf(false, mod, rm, 5), true)
      == if Reversed(m) then f - {DST_MEM} + {if mod == 1 then DST_MEM_DISP_BYTE else DST_MEM_DISP_DWORD}
         else f - {SRC_MEM} + {if mod == 1 then SRC_MEM_DISP_BYTE else SRC_MEM_DISP_DWORD}
  {
    MemIsNew(m, w);
    Replaces(ModeBits(m) + WidthBits(w), RmFlag(Reversed(m), FormOf(false, mod, rm, 0)), {SIB},
             if Reversed(m) then DST_MEM else SRC_MEM, RmFlag(Reversed(m), FormOf(false, mod, rm, 5)));
  }

  lemma BareIs(ram: Ram, start: nat, o: nat, p: Prefixes, f: Found, modrm: Byte, sib: bool)
    requires start <= o && modrm == if HasModrm(f.mode) then ram(o + 1) else 0
    requires sib <==> HasModrm(f.mode) && HasSib(p.addr == 1, ModOf(modrm), RmOf(modrm))
    ensures var s := if sib then ram(o + 2) else 0;
      Bare(Instruction(ram, start, o, p, f))
      == Decoded(0, p, ram(o), ModOf(modrm), RegOf(modrm), RmOf(modrm), ModOf(s), RegOf(s), RmOf(s), 0, 0, 0,
                 FlagsOf(f.mode, f.width, FormOf(p.addr == 1, ModOf(modrm), RmOf(modrm), RmOf(s)), sib),
                 NoOperand, NoOperand, NoOperand)
    ensures DispAt(ram, o, p, f) == o + 1 + (if HasModrm(f.mode) then 1 else 0) + if sib then 1 else 0
  {
  }

  lemma OtherBase(mod: Byte, base: Byte)
    requires base != 5
    ensures FormOf(false, mod, 4, base) == FormOf(false, mod, 4, 0)
  {
  }

  lemma Replaces(x: Flags, old_: Flag, y: Flags, gone: Flag, new_: Flag)
    requires gone !in x && gone !in y && (old_ == gone || old_ == new_) && new_ != gone
    ensures x + {old_} + y - {gone} + {new_} == x + {new_} + y
  {
  }

  lemma MemIsNew(m: Mode, w: Width)
    ensures var f := ModeBits(m) + WidthBits(w);
      SRC_MEM !in f && DST_MEM !in f && (DIR_REVERSED in f <==> Reversed(m)) && (MOD_RM in f <==> HasModrm(m))
  {
    ModeFlags(m);
  }

  lemma RegroupFlags(x: Flags, y: Flags, z: Flags)
    ensures x + (y + z) == x + y + z
  {
  }

  lemma BoundWidthFlags(e: Entry, op: Byte, intel: bool)
    requires op <= 1 && e.Diff? && e.syntax == 0 && e.width == NoWidth
    ensures {} + BoundFlags(op, intel) + EntryFlags(e) == ModeBits(e.mode) + WidthBits(PlainWidth(e, op == 1, intel))
  {
    Swapped(BoundFlags(op, intel), ModeBits(e.mode));
  }

  lemma Swapped(x: Flags, y: Flags)
    ensures {} + x + (y + {}) == y + x
  {
  }

  /** The width of an entry of the main tables, before the prefix applies. */
  function PlainWidth(e: Entry, op: bool, intel: bool): Width
    requires e.Diff? || e.Op?
  {
    if e.Diff? && e.syntax == 0 then BoundWidth(op, intel) else e.width
  }

  lemma FindPlain(t: Tables, ram: Ram, o: nat, p: Prefixes, intel: bool, table: nat)
    requires table <= 1 && t.Fit() && Sane(p) && (table == 1 <==> p.two == 1)
    requires t.Entry(table, ram(o)).Diff? || t.Entry(table, ram(o)).Op?
    ensures var e := t.Entry(table, ram(o));
      && (e.Diff? ==> (ram(o) == 0x62 <==> e.syntax == 0)) && (e.Diff? && e.syntax == 0 ==> e.width == NoWidth)
      && Find(t, ram, o, p, intel) == Some(Found(e.mode, Resized(PlainWidth(e, p.op == 1, intel), p.op == 1)))
  {
    assert FitsOne(ram(o), t.one(ram(o)));
    assert FitsTwo(ram(o), t.two(ram(o)));
  }

  /** A reference to a group and a defined entry of it. */
  ghost predicate GroupPair(outer: Entry, e: Entry) {
    && outer.Group? && (e.Diff? || e.Op?) && HasModrm(outer.mode)
    && (e.mode == NoMode || HasModrm(e.mode)) && (outer.width.Qword64? ==> e.width == NoWidth) && !e.width.Qword64?
  }

  lemma FindGroup(t: Tables, ram: Ram, o: nat, p: Prefixes, intel: bool, table: nat)
    requires t.Fit() && table >= 2 && TableEntry(t, p, ram(o)).Group? && TableEntry(t, p, ram(o)).number + 1 == table
    requires var e := t.Entry(table, RegOf(ram(o + 1))); e.Diff? || e.Op?
    ensures var outer, e := TableEntry(t, p, ram(o)), t.Entry(table, RegOf(ram(o + 1)));
      && GroupPair(outer, e) && HasModrm(Over(outer.mode, e.mode))
      && Find(t, ram, o, p, intel)
         == Some(Found(Over(outer.mode, e.mode), Resized(OverWidth(outer.width, e.width), p.op == 1)))
  {
    assert FitsOne(ram(o), t.one(ram(o)));
    assert FitsTwo(ram(o), t.two(ram(o)));
    assert FitsGroup(table - 1, t.group(table - 1, RegOf(ram(o + 1))));
  }

  /** `diff_syntax_flags_0x62`. */
  function BoundFlags(op: Byte, intel: bool): Flags {
    if intel then if op == 0 then {WIDTH_QWORD} else {WIDTH_DWORD} else if op == 0 then {WIDTH_DWORD} else {WIDTH_WORD}
  }

  function RmFlags(reversed: bool, f: Form, sib: bool): Flags {
    {RmFlag(reversed, f)} + if sib then {SIB} else {}
  }

  function Overridden(flags: Flags, entry: Flags): Flags {
    var f := if entry * WIDTH_MASK != {} then flags - WIDTH_MASK else flags;
    (if entry * ADDRMOD_MASK != {} then f - ADDRMOD_MASK else f) + entry
  }

  function ResizedFlags(flags: Flags, op: bool): Flags {
    if op && WIDTH_DWORD in flags then flags - {WIDTH_DWORD} + {WIDTH_WORD}
    else if op && WIDTH_QWORD in flags then flags - {WIDTH_QWORD} + {WIDTH_DWORD}
    else flags
  }

  // ---------- what the flags of a mode and a width are not ----------

  lemma ModeFlags(m: Mode)
    ensures MOD_RM in ModeBits(m) <==> HasModrm(m)
    ensures DIR_REVERSED in ModeBits(m) <==> Reversed(m)
    ensures m != NoMode ==> ModeBits(m) != {}
    ensures SRC_MEM !in ModeBits(m) && DST_MEM !in ModeBits(m) && SIB !in ModeBits(m)
  {
  }

  lemma ModeIsAddrmod(m: Mode)
    ensures ModeBits(m) <= ADDRMOD_MASK
  {
  }

  lemma OverrideSets(x: Flags, w: Flags, x': Flags, w': Flags)
    requires x <= ADDRMOD_MASK && x' <= ADDRMOD_MASK && w' <= WIDTH_MASK
    requires w <= WIDTH_MASK || (w == {WIDTH_QWORD} && w' == {})
    ensures Overridden(x + w, x' + w') == (if x' == {} then x else x') + (if w' == {} then w else w')
  {
    MasksApart();
    Overriding(x, w, x', w', ADDRMOD_MASK, WIDTH_MASK);
  }

  lemma MasksApart()
    ensures ADDRMOD_MASK !! WIDTH_MASK && WIDTH_QWORD !in ADDRMOD_MASK
  {
    forall f | f in WIDTH_MASK || f == WIDTH_QWORD
      ensures f !in ADDRMOD_MASK
    {
      assert f !in SRC_MASK && f !in DST_MASK && f !in OP3_MASK;
    }
  }

  lemma Overriding(x: Flags, w: Flags, x': Flags, w': Flags, modes: Flags, widths: Flags)
    requires x <= modes && x' <= modes && w' <= widths && modes !! widths && w !! modes && (w <= widths || w' == {})
    ensures (x' + w') * widths == w' && (x' + w') * modes == x'
    ensures w' != {} ==> x + w - widths == x
    ensures x' != {} ==> x + w - modes == w && x - modes == {}
  {
  }

  lemma OverrideReplaces(m: Mode, w: Width, m': Mode, w': Width)
    requires m != NoMode && (w.Qword64? ==> w' == NoWidth) && !w'.Qword64?
    ensures Overridden(ModeBits(m) + WidthBits(w), ModeBits(m') + WidthBits(w'))
         == ModeBits(Over(m, m')) + WidthBits(OverWidth(w, w'))
  {
    ModeIsAddrmod(m);
    ModeIsAddrmod(m');
    ModeFlags(m');
    OverrideSets(ModeBits(m), WidthBits(w), ModeBits(m'), WidthBits(w'));
  }

  const WIDTHS: Flags := {WIDTH_BYTE, WIDTH_WORD, WIDTH_DWORD, WIDTH_QWORD}

  lemma ModeHasNoWidth(m: Mode)
    ensures ModeBits(m) !! WIDTHS
  {
  }

  lemma ResizeSets(x: Flags, w: Width, op: bool)
    requires x !! WIDTHS
    ensures ResizedFlags(x + WidthBits(w), op) == x + WidthBits(Resized(w, op))
  {
  }

  lemma ResizeModrm(m: Mode, w: Width, f: Form, sib: bool, op: bool)
    requires HasModrm(m)
    ensures ResizedFlags(ModeBits(m) + WidthBits(w) + RmFlags(Reversed(m), f, sib), op)
         == FlagsOf(m, Resized(w, op), f, sib)
  {
    ModeHasNoWidth(m);
    var rest := RmFlags(Reversed(m), f, sib);
    assert rest !! WIDTHS;
    ResizeSets(ModeBits(m) + rest, w, op);
    Swaps(ModeBits(m), WidthBits(w), rest);
    Regroups(ModeBits(m), WidthBits(Resized(w, op)), {RmFlag(Reversed(m), f)}, if sib then {SIB} else {});
  }

  lemma Swaps(x: Flags, y: Flags, z: Flags)
    ensures x + y + z == x + z + y
  {
  }

  lemma Regroups(x: Flags, w: Flags, y: Flags, z: Flags)
    ensures x + (y + z) + w == x + w + y + z
  {
  }

  lemma ResizePlain(m: Mode, w: Width, f: Form, op: bool)
    requires !HasModrm(m)
    ensures ResizedFlags(ModeBits(m) + WidthBits(w), op) == FlagsOf(m, Resized(w, op), f, false)
  {
    ModeHasNoWidth(m);
    ResizeSets(ModeBits(m), w, op);
  }

  // ---------- which flags of a mask are set ----------

  /** The case of the switch over the source operands. */
  function SourceFlag(m: Mode, f: Form): Flag
    requires m != NoMode
  {
    if HasModrm(m) && !Reversed(m) then RmFlag(false, f)
    else match m
      case AccMoffset | AccReg => SRC_ACC
      case Imm | ImmRm | ImmAcc | ImmReg => SRC_IMM
      case Imm8 | Imm8Rm | Imm8Imm16 => SRC_IMM8
      case MoffsetAcc => SRC_MOFFSET
      case Reg | RegRm | RegImm8Rm | RegClRm => SRC_REG
      case Seg2Reg => SRC_SEG2_REG
      case Seg3Reg | Seg3RegRm => SRC_SEG3_REG
      case Rel => SRC_REL
      case FarPtr => SRC_IMM48
      case CrRm => SRC_CR_REG
      case DbgRm => SRC_DBG_REG
      case _ => SRC_NONE
  }

  /** Over the destinations. */
  function TargetFlag(m: Mode, f: Form): Flag
    requires m != NoMode
  {
    if HasModrm(m) && Reversed(m) then RmFlag(true, f)
    else match m
      case AccMoffset => DST_MOFFSET
      case AccReg | ImmReg | RmReg | RmImmReg | RmImm8Reg => DST_REG
      case ImmAcc | MoffsetAcc => DST_ACC
      case RmSeg3Reg => DST_SEG3_REG
      case RmCr => DST_CR_REG
      case RmDbg => DST_DBG_REG
      case Imm8Imm16 => DST_IMM16
      case _ => DST_NONE
  }

  /** And over the third operands. */
  function ThirdFlag(m: Mode): Flag
    requires m != NoMode
  {
    if m.RmImmReg? then OP3_IMM else if m.RmImm8Reg? || m.RegImm8Rm? then OP3_IMM8
    else if m.RegClRm? then OP3_CL else OP3_NONE
  }

  /** The flags about operands: those of the mode, with that of the ModRM operand's form. */
  function OperandFlags(m: Mode, f: Form): Flags {
    if m == NoMode then {} else {SourceFlag(m, f), TargetFlag(m, f), ThirdFlag(m)}
  }

  function ShapeOf(m: Mode): Flags {
    if Reversed(m) then {MOD_RM, DIR_REVERSED} else if HasModrm(m) then {MOD_RM} else {}
  }

  const OPERAND_MASK: Flags := SRC_MASK + DST_MASK + OP3_MASK

  lemma ModeSplits(m: Mode, f: Form)
    ensures ModeBits(m) + (if HasModrm(m) then {RmFlag(Reversed(m), f)} else {}) == OperandFlags(m, f) + ShapeOf(m)
  {
    if !HasModrm(m) {
      PlainSplits(m, f);
    } else if Reversed(m) {
      ReversedSplits(m, f, RmFlag(true, f));
    } else {
      ModrmSplits(m, f, RmFlag(false, f));
    }
  }

  lemma PlainSplits(m: Mode, f: Form)
    requires !HasModrm(m)
    ensures ModeBits(m) == OperandFlags(m, f)
  {
  }

  lemma ReversedSplits(m: Mode, f: Form, rm: Flag)
    requires HasModrm(m) && Reversed(m) && rm == TargetFlag(m, f)
    ensures ModeBits(m) + {rm} == OperandFlags(m, f) + {MOD_RM, DIR_REVERSED}
  {
  }

  lemma ModrmSplits(m: Mode, f: Form, rm: Flag)
    requires HasModrm(m) && !Reversed(m) && rm == SourceFlag(m, f)
    ensures ModeBits(m) + {rm} == OperandFlags(m, f) + {MOD_RM}
  {
  }

  /** In a mask of operand flags there are no others. */
  lemma OnlyOperands(m: Mode, w: Width, f: Form, sib: bool, mask: Flags)
    requires mask <= OPERAND_MASK
    ensures FlagsOf(m, w, f, sib) * mask == OperandFlags(m, f) * mask
  {
    ModeSplits(m, f);
    var rm: Flags, sibs: Flags := if HasModrm(m) then {RmFlag(Reversed(m), f)} else {}, if sib then {SIB} else {};
    forall x | x in WidthBits(w) || x in sibs || x in ShapeOf(m)
      ensures x !in mask
    {
      NoOperandFlag(x);
    }
    MasksThrough(ModeBits(m), WidthBits(w), rm, sibs, OperandFlags(m, f), ShapeOf(m), mask);
  }

  lemma NoOperandFlag(x: Flag)
    requires x in WIDTHS || x == SIB || x == MOD_RM || x == DIR_REVERSED
    ensures x !in OPERAND_MASK
  {
    assert x !in SRC_MASK && x !in DST_MASK && x !in OP3_MASK;
  }

  lemma MasksThrough(x: Flags, w: Flags, y: Flags, z: Flags, operands: Flags, shape: Flags, mask: Flags)
    requires x + y == operands + shape && w !! mask && z !! mask && shape !! mask
    ensures (x + w + y + z) * mask == operands * mask
  {
    assert (x + w + y + z) * mask == (x + y) * mask;
  }

  /** Each operand flag is of its own kind. */
  lemma FlagKinds(m: Mode, f: Form)
    requires m != NoMode
    ensures SourceFlag(m, f) in SRC_MASK && TargetFlag(m, f) in DST_MASK && ThirdFlag(m) in OP3_MASK
  {
  }

  lemma KindsApart(x: Flag)
    ensures x in SRC_MASK ==> x !in DST_MASK && x !in OP3_MASK
    ensures x in DST_MASK ==> x !in OP3_MASK
  {
  }

  lemma SourceKind(m: Mode, f: Form)
    requires m != NoMode
    ensures SourceFlag(m, f) in SRC_MASK && TargetFlag(m, f) !in SRC_MASK && ThirdFlag(m) !in SRC_MASK
  {
    FlagKinds(m, f);
    KindsApart(TargetFlag(m, f));
    KindsApart(ThirdFlag(m));
  }

  lemma TargetKind(m: Mode, f: Form)
    requires m != NoMode
    ensures TargetFlag(m, f) in DST_MASK && SourceFlag(m, f) !in DST_MASK && ThirdFlag(m) !in DST_MASK
  {
    FlagKinds(m, f);
    KindsApart(SourceFlag(m, f));
    KindsApart(ThirdFlag(m));
  }

  lemma ThirdKind(m: Mode, f: Form)
    requires m != NoMode
    ensures ThirdFlag(m) in OP3_MASK && SourceFlag(m, f) !in OP3_MASK && TargetFlag(m, f) !in OP3_MASK
  {
    FlagKinds(m, f);
    KindsApart(SourceFlag(m, f));
    KindsApart(TargetFlag(m, f));
  }

  lemma OneSource(m: Mode, w: Width, f: Form, sib: bool)
    requires m != NoMode
    ensures FlagsOf(m, w, f, sib) * SRC_MASK == {SourceFlag(m, f)}
  {
    OnlyOperands(m, w, f, sib, SRC_MASK);
    SourceKind(m, f);
    PickOne(SourceFlag(m, f), TargetFlag(m, f), ThirdFlag(m), SRC_MASK);
  }

  lemma OneTarget(m: Mode, w: Width, f: Form, sib: bool)
    requires m != NoMode
    ensures FlagsOf(m, w, f, sib) * DST_MASK == {TargetFlag(m, f)}
  {
    OnlyOperands(m, w, f, sib, DST_MASK);
    TargetKind(m, f);
    PickOne(TargetFlag(m, f), SourceFlag(m, f), ThirdFlag(m), DST_MASK);
  }

  lemma OneThird(m: Mode, w: Width, f: Form, sib: bool)
    requires m != NoMode
    ensures FlagsOf(m, w, f, sib) * OP3_MASK == {ThirdFlag(m)}
  {
    OnlyOperands(m, w, f, sib, OP3_MASK);
    ThirdKind(m, f);
    PickOne(ThirdFlag(m), SourceFlag(m, f), TargetFlag(m, f), OP3_MASK);
  }

  lemma PickOne(x: Flag, y: Flag, z: Flag, mask: Flags)
    requires x in mask && y !in mask && z !in mask
    ensures {x, y, z} * mask == {x}
  {
  }

  function Pick(x: Flag, mask: Flags): Flags {
    if x in mask then {x} else {}
  }

  lemma PickEach(x: Flag, y: Flag, z: Flag, mask: Flags)
    ensures {x, y, z} * mask == Pick(x, mask) + Pick(y, mask) + Pick(z, mask)
  {
  }

  /** What the operand flags are in the remaining masks. */
  lemma MaskCases(m: Mode, f: Form)
    requires m != NoMode
    ensures var x, y, z := SourceFlag(m, f), TargetFlag(m, f), ThirdFlag(m);
      && (x in MEM_DISP_MASK <==> HasModrm(m) && !Reversed(m) && f.WithDisp?)
      && (y in MEM_DISP_MASK <==> HasModrm(m) && Reversed(m) && f.WithDisp?) && z !in MEM_DISP_MASK
      && (x in MOFFSET_MASK <==> m.MoffsetAcc?) && (y in MOFFSET_MASK <==> m.AccMoffset?) && z !in MOFFSET_MASK
      && (x in REL_MASK <==> m.Rel?) && y !in REL_MASK && z !in REL_MASK
  {
  }

  /** At most one displacement, and it is that of the ModRM operand. */
  lemma OneDisplacement(m: Mode, w: Width, f: Form, sib: bool)
    ensures FlagsOf(m, w, f, sib) * MEM_DISP_MASK == if HasModrm(m) && f.WithDisp? then {RmFlag(Reversed(m), f)} else {}
  {
    OnlyOperands(m, w, f, sib, MEM_DISP_MASK);
    OneDispOperand(m, f);
  }

  lemma OneDispOperand(m: Mode, f: Form)
    ensures OperandFlags(m, f) * MEM_DISP_MASK == if HasModrm(m) && f.WithDisp? then {RmFlag(Reversed(m), f)} else {}
  {
    if m != NoMode {
      MaskCases(m, f);
      PickEach(SourceFlag(m, f), TargetFlag(m, f), ThirdFlag(m), MEM_DISP_MASK);
    }
  }

  function ImmCase(m: Mode): Flags {
    match m
    case Imm8 | Imm8Rm => {SRC_IMM8}
    case FarPtr => {SRC_IMM48}
    case Imm8Imm16 => {SRC_IMM8, DST_IMM16}
    case RmImm8Reg | RegImm8Rm => {OP3_IMM8}
    case RmImmReg => {OP3_IMM}
    case _ => {}
  }

  predicate PlainImm(m: Mode) {
    m.Imm? || m.ImmRm? || m.ImmAcc? || m.ImmReg?
  }

  lemma SourceImm(m: Mode, f: Form)
    requires m != NoMode
    ensures var x := SourceFlag(m, f);
      && Pick(x, IMM_CASES) == (if m.Imm8? || m.Imm8Rm? || m.Imm8Imm16? then {SRC_IMM8}
                                else if m.FarPtr? then {SRC_IMM48} else {})
      && (x in IMM_MASK <==> PlainImm(m) || m.Imm8? || m.Imm8Rm? || m.Imm8Imm16? || m.FarPtr?)
  {
  }

  lemma TargetImm(m: Mode, f: Form)
    requires m != NoMode
    ensures Pick(TargetFlag(m, f), IMM_CASES) == (if m.Imm8Imm16? then {DST_IMM16} else {})
    ensures TargetFlag(m, f) !in IMM_MASK
  {
  }

  lemma ThirdImm(m: Mode)
    requires m != NoMode
    ensures var z := ThirdFlag(m);
      && Pick(z, IMM_CASES) == (if m.RmImmReg? then {OP3_IMM}
                                else if m.RmImm8Reg? || m.RegImm8Rm? then {OP3_IMM8} else {})
      && (z in IMM_MASK <==> m.RmImmReg? || m.RmImm8Reg? || m.RegImm8Rm?)
  {
  }

  lemma ImmFlags(m: Mode, w: Width, f: Form, sib: bool)
    ensures FlagsOf(m, w, f, sib) * IMM_CASES == ImmCase(m)
    ensures FlagsOf(m, w, f, sib) * IMM_MASK == {} <==> ImmCase(m) == {} && !PlainImm(m)
  {
    OnlyOperands(m, w, f, sib, IMM_CASES);
    OnlyOperands(m, w, f, sib, IMM_MASK);
    ImmOperands(m, f);
  }

  lemma ImmOperands(m: Mode, f: Form)
    ensures OperandFlags(m, f) * IMM_CASES == ImmCase(m)
    ensures OperandFlags(m, f) * IMM_MASK == {} <==> ImmCase(m) == {} && !PlainImm(m)
  {
    if m != NoMode {
      SourceImm(m, f);
      TargetImm(m, f);
      ThirdImm(m);
      PickEach(SourceFlag(m, f), TargetFlag(m, f), ThirdFlag(m), IMM_CASES);
      assert OperandFlags(m, f) * IMM_MASK == {} <==> SourceFlag(m, f) !in IMM_MASK && ThirdFlag(m) !in IMM_MASK by {
        PickEach(SourceFlag(m, f), TargetFlag(m, f), ThirdFlag(m), IMM_MASK);
      }
    }
  }

  lemma OtherFlags(m: Mode, w: Width, f: Form, sib: bool)
    ensures FlagsOf(m, w, f, sib) * MOFFSET_MASK == {} <==> !m.AccMoffset? && !m.MoffsetAcc?
    ensures FlagsOf(m, w, f, sib) * REL_MASK == {} <==> !m.Rel?
  {
    OnlyOperands(m, w, f, sib, MOFFSET_MASK);
    OnlyOperands(m, w, f, sib, REL_MASK);
    if m != NoMode {
      MaskCases(m, f);
      PickEach(SourceFlag(m, f), TargetFlag(m, f), ThirdFlag(m), MOFFSET_MASK);
      PickEach(SourceFlag(m, f), TargetFlag(m, f), ThirdFlag(m), REL_MASK);
    }
  }

  lemma WidthFlags(m: Mode, w: Width, f: Form, sib: bool)
    ensures FlagsOf(m, w, f, sib) * WIDTH_MASK == WidthBits(w) - {WIDTH_QWORD}
    ensures WIDTH_DWORD in FlagsOf(m, w, f, sib) <==> w.Dword32?
  {
    ModeHasNoWidth(m);
  }

  lemma ShapeFlags(m: Mode, w: Width, f: Form, sib: bool)
    ensures Shows(FlagsOf(m, w, f, sib), m, sib)
  {
    ModeFlags(m);
  }
}
