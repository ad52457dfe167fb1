/** What holds of every instruction the x86 decoder accepts. */
module X86Format {
  import opened Guest
  import opened X86Tables
  import opened X86Spec
  import opened X86Decode

  ghost predicate Agree(ram: Ram, ram': Ram, from: nat, to: nat) {
    forall k: nat | from <= k < to :: ram'(k) == ram(k)
  }

  /** The numbers in the byte stream are little-endian sums, in arithmetic modulo 2^32. */
  lemma UnsignedSums(ram: Ram, at: nat)
    ensures U8(ram, at) == ram(at) as bv32
    ensures U16(ram, at) == 0x100 * (ram(at + 1) as bv32) + (ram(at) as bv32)
    ensures U32(ram, at) == 0x100_0000 * (ram(at + 3) as bv32) + 0x1_0000 * (ram(at + 2) as bv32)
                            + 0x100 * (ram(at + 1) as bv32) + (ram(at) as bv32)
  {
  }

  /** Those that are read with a sign are less by 2^8 or 2^16 if the top bit of their last byte is set. */
  lemma SignedSums(ram: Ram, at: nat)
    ensures S8(ram, at) == U8(ram, at) - (if ram(at) >= 128 then 0x100 else 0)
    ensures S16(ram, at) == U16(ram, at) - (if ram(at + 1) >= 128 then 0x1_0000 else 0)
  {
  }

  /** The length is that of the prefixes, the opcode, and what the format calls for after it: at most
      eleven bytes more than there are prefixes. */
  lemma LengthIsExact(t: Tables, ram: Ram, start: nat, stop: nat, intel: bool)
    requires start <= stop && !IsPrefix(t, ram(stop)) && Describe(t, ram, start, stop, intel).Some?
    ensures var o, p := OpcodeAt(t, ram, start, stop), PrefixesAt(t, ram, start, stop, NO_PREFIXES);
      var l := LayoutOf(ram, o, p, Find(t, ram, o, p, intel).value);
      var n := Describe(t, ram, start, stop, intel).value.length;
      && n == (o - start) + 1 + l.modrm + l.sib + l.disp + l.imm
      && (o - start) + 1 <= n <= (o - start) + 11
    ensures forall k | start <= k < OpcodeAt(t, ram, start, stop) :: IsPrefix(t, ram(k))
  {
    AllArePrefixes(t, ram, start, stop);
  }

  lemma {:induction false} AllArePrefixes(t: Tables, ram: Ram, pc: nat, stop: nat)
    requires pc <= stop && !IsPrefix(t, ram(stop))
    ensures forall k | pc <= k < OpcodeAt(t, ram, pc, stop) :: IsPrefix(t, ram(k))
    decreases stop - pc
  {
    if IsPrefix(t, ram(pc)) && ram(pc) != 0x0F {
      AllArePrefixes(t, ram, pc + 1, stop);
    }
  }

  /** Decoding looks at no byte past the instruction, for any tables that fit. */
  lemma LocalWith(t: Tables, ram: Ram, ram': Ram, start: nat, stop: nat, stop': nat, intel: bool)
    requires t.Fit() && start <= stop && !IsPrefix(t, ram(stop)) && start <= stop' && !IsPrefix(t, ram'(stop'))
    requires Describe(t, ram, start, stop, intel).Some?
    requires Agree(ram, ram', start, start + Describe(t, ram, start, stop, intel).value.length)
    ensures Describe(t, ram', start, stop', intel) == Describe(t, ram, start, stop, intel)
  {
    var o, p := OpcodeAt(t, ram, start, stop), PrefixesAt(t, ram, start, stop, NO_PREFIXES);
    var f := Find(t, ram, o, p, intel).value;
    LengthIsExact(t, ram, start, stop, intel);
    SamePrefixes(t, ram, ram', start, stop, stop', NO_PREFIXES);
    SameFound(t, ram, ram', o, p, intel);
    SameLayout(ram, ram', o, p, f);
    SameParse(ram, ram', o, p, f);
  }

  lemma {:induction false} SamePrefixes(t: Tables, ram: Ram, ram': Ram, pc: nat, stop: nat, stop': nat, p: Prefixes)
    requires pc <= stop && !IsPrefix(t, ram(stop)) && pc <= stop' && !IsPrefix(t, ram'(stop'))
    requires Agree(ram, ram', pc, OpcodeAt(t, ram, pc, stop) + 1)
    ensures OpcodeAt(t, ram', pc, stop') == OpcodeAt(t, ram, pc, stop)
    ensures PrefixesAt(t, ram', pc, stop', p) == PrefixesAt(t, ram, pc, stop, p)
    decreases stop - pc
  {
    assert ram'(pc) == ram(pc);
    if IsPrefix(t, ram(pc)) && ram(pc) != 0x0F {
      var e := t.one(ram(pc));
      SamePrefixes(t, ram, ram', pc + 1, stop, stop', SetPrefix(p, e.index, e.value));
    }
  }

  lemma SameFound(t: Tables, ram: Ram, ram': Ram, o: nat, p: Prefixes, intel: bool)
    requires t.Fit() && Find(t, ram, o, p, intel).Some? && ram'(o) == ram(o)
    requires HasModrm(Find(t, ram, o, p, intel).value.mode) ==> ram'(o + 1) == ram(o + 1)
    ensures Find(t, ram', o, p, intel) == Find(t, ram, o, p, intel)
  {
    assert FitsOne(ram(o), t.one(ram(o)));
    assert FitsTwo(ram(o), t.two(ram(o)));
    var e := TableEntry(t, p, ram(o));
    if e.Group? {
      assert FitsGroup(e.number, t.group(e.number, RegOf(ram(o + 1))));
    }
  }

  lemma SameLayout(ram: Ram, ram': Ram, o: nat, p: Prefixes, f: Found)
    requires Agree(ram, ram', o, DispAt(ram, o, p, f))
    ensures LayoutOf(ram', o, p, f) == LayoutOf(ram, o, p, f)
  {
    if HasModrm(f.mode) {
      assert ram'(o + 1) == ram(o + 1);
      if HasSib(p.addr == 1, ModOf(ram(o + 1)), RmOf(ram(o + 1))) {
        assert ram'(o + 2) == ram(o + 2);
      }
    }
  }

  /** The bytes from `o` on that the instruction consists of are the same in both. */
  ghost predicate SameBytes(ram: Ram, ram': Ram, o: nat, p: Prefixes, f: Found) {
    var l := LayoutOf(ram, o, p, f);
    LayoutOf(ram', o, p, f) == l && Agree(ram, ram', o, DispAt(ram, o, p, f) + l.disp + l.imm)
  }

  lemma SameParse(ram: Ram, ram': Ram, o: nat, p: Prefixes, f: Found)
    requires SameBytes(ram, ram', o, p, f)
    ensures Parse(ram', o, p, f) == Parse(ram, o, p, f)
  {
    SameParsedBytes(ram, ram', o, p, f);
    SameParsedDisp(ram, ram', o, p, f);
    SameParsedData(ram, ram', o, p, f);
    SameParsed(Parse(ram, o, p, f), Parse(ram', o, p, f));
  }

  lemma SameParsed(x: Parsed, y: Parsed)
    requires x.layout == y.layout && x.opcode == y.opcode && x.modrm == y.modrm && x.sib == y.sib
    requires x.disp == y.disp && x.data0 == y.data0 && x.data1 == y.data1
    ensures x == y
  {
  }

  lemma SameParsedBytes(ram: Ram, ram': Ram, o: nat, p: Prefixes, f: Found)
    requires SameBytes(ram, ram', o, p, f)
    ensures var x, y := Parse(ram, o, p, f), Parse(ram', o, p, f);
      x.layout == y.layout && x.opcode == y.opcode && x.modrm == y.modrm && x.sib == y.sib
  {
    SameOpcodeBytes(ram, ram', o, p, f);
  }

  lemma SameParsedDisp(ram: Ram, ram': Ram, o: nat, p: Prefixes, f: Found)
    requires SameBytes(ram, ram', o, p, f)
    ensures Parse(ram', o, p, f).disp == Parse(ram, o, p, f).disp
  {
    var l := LayoutOf(ram, o, p, f);
    SameDisplacement(ram, ram', DispAt(ram, o, p, f), l.disp, l.modrm == 1);
  }

  lemma SameParsedData(ram: Ram, ram': Ram, o: nat, p: Prefixes, f: Found)
    requires SameBytes(ram, ram', o, p, f)
    ensures Parse(ram', o, p, f).data0 == Parse(ram, o, p, f).data0
    ensures Parse(ram', o, p, f).data1 == Parse(ram, o, p, f).data1
  {
    SameData(ram, ram', DispAt(ram, o, p, f) + LayoutOf(ram, o, p, f).disp, f.mode, f.width);
  }

  lemma SameOpcodeBytes(ram: Ram, ram': Ram, o: nat, p: Prefixes, f: Found)
    requires Agree(ram, ram', o, DispAt(ram, o, p, f))
    ensures var l := LayoutOf(ram, o, p, f);
      ram'(o) == ram(o) && (l.modrm == 1 ==> ram'(o + 1) == ram(o + 1)) && (l.sib == 1 ==> ram'(o + 2) == ram(o + 2))
      && l.imm == ImmBytes(f.mode, f.width)
  {
  }

  lemma SameReads(ram: Ram, ram': Ram, at: nat, n: nat)
    requires Agree(ram, ram', at, at + n)
    ensures n >= 1 ==> U8(ram', at) == U8(ram, at) && S8(ram', at) == S8(ram, at)
    ensures n >= 2 ==> U16(ram', at) == U16(ram, at) && S16(ram', at) == S16(ram, at)
    ensures n >= 4 ==> U32(ram', at) == U32(ram, at)
  {
    if n >= 2 {
      SameWord(ram, ram', at);
    }
    if n >= 4 {
      SameDword(ram, ram', at);
    }
  }

  lemma SameWord(ram: Ram, ram': Ram, at: nat)
    requires Agree(ram, ram', at, at + 2)
    ensures U16(ram', at) == U16(ram, at)
  {
    assert ram'(at) == ram(at) && ram'(at + 1) == ram(at + 1);
  }

  lemma SameDword(ram: Ram, ram': Ram, at: nat)
    requires Agree(ram, ram', at, at + 4)
    ensures U32(ram', at) == U32(ram, at)
  {
    assert ram'(at) == ram(at) && ram'(at + 1) == ram(at + 1);
    assert ram'(at + 2) == ram(at + 2) && ram'(at + 3) == ram(at + 3);
  }

  lemma SameDisplacement(ram: Ram, ram': Ram, at: nat, bytes: nat, signed: bool)
    requires Agree(ram, ram', at, at + bytes)
    ensures Displacement(ram', at, bytes, signed) == Displacement(ram, at, bytes, signed)
  {
    SameReads(ram, ram', at, bytes);
  }

  lemma SameData(ram: Ram, ram': Ram, at: nat, m: Mode, w: Width)
    requires Agree(ram, ram', at, at + ImmBytes(m, w))
    ensures Data0(ram', at, m, w) == Data0(ram, at, m, w) && Data1(ram', at, m, w) == Data1(ram, at, m, w)
  {
    SameData0(ram, ram', at, m, w);
    SameData1(ram, ram', at, m, w);
  }

  lemma SameData0(ram: Ram, ram': Ram, at: nat, m: Mode, w: Width)
    requires Agree(ram, ram', at, at + ImmBytes(m, w))
    ensures Data0(ram', at, m, w) == Data0(ram, at, m, w)
  {
    SameReads(ram, ram', at, ImmBytes(m, w));
    if m.Imm8Imm16? {
      SameReads(ram, ram', at + 2, 1);
    }
  }

  lemma SameData1(ram: Ram, ram': Ram, at: nat, m: Mode, w: Width)
    requires Agree(ram, ram', at, at + ImmBytes(m, w))
    ensures Data1(ram', at, m, w) == Data1(ram, at, m, w)
  {
    if m.FarPtr? {
      SameWord(ram, ram', at + if w.Dword32? then 4 else 2);
    } else if m.Imm8Imm16? {
      SameWord(ram, ram', at);
    }
  }

  /** The same bytes are the same instruction, whatever follows them. */
  lemma DecodingIsLocal(ram: Ram, ram': Ram, start: nat, stop: nat, stop': nat, intel: bool)
    requires start <= stop && !IsPrefix(X86_TABLES, ram(stop)) && start <= stop' && !IsPrefix(X86_TABLES, ram'(stop'))
    ensures var d, d' := Describe(X86_TABLES, ram, start, stop, intel), Describe(X86_TABLES, ram', start, stop', intel);
      d.Some? && Agree(ram, ram', start, start + d.value.length) ==> d' == d
  {
    TablesFit();
    var d := Describe(X86_TABLES, ram, start, stop, intel);
    if d.Some? && Agree(ram, ram', start, start + d.value.length) {
      LocalWith(X86_TABLES, ram, ram', start, stop, stop', intel);
    }
  }

  /** No encoding is a proper prefix of another: where two agree as far as the shorter one goes,
      they are the same. */
  lemma NoProperPrefix(ram: Ram, ram': Ram, start: nat, stop: nat, stop': nat, intel: bool)
    requires start <= stop && !IsPrefix(X86_TABLES, ram(stop)) && start <= stop' && !IsPrefix(X86_TABLES, ram'(stop'))
    ensures var d, d' := Describe(X86_TABLES, ram, start, stop, intel), Describe(X86_TABLES, ram', start, stop', intel);
      d.Some? && d'.Some?
      && Agree(ram, ram', start, start + if d.value.length <= d'.value.length then d.value.length else d'.value.length)
      ==> d == d'
  {
    DecodingIsLocal(ram, ram', start, stop, stop', intel);
    DecodingIsLocal(ram', ram, start, stop', stop, intel);
  }

  /** Exactly one flag of each operand class is left, and at most one displacement. */
  lemma ClassesAreUnique(ram: Ram, start: nat, stop: nat, intel: bool)
    requires start <= stop && !IsPrefix(X86_TABLES, ram(stop))
    ensures var d := Describe(X86_TABLES, ram, start, stop, intel);
      d.Some? ==> UniqueClasses(d.value.flags)
  {
    TablesFit();
    if Describe(X86_TABLES, ram, start, stop, intel).Some? {
      UniqueWith(X86_TABLES, ram, start, stop, intel);
    }
  }

  ghost predicate UniqueClasses(flags: Flags) {
    |flags * SRC_MASK| == 1 && |flags * DST_MASK| == 1 && |flags * OP3_MASK| == 1 && |flags * MEM_DISP_MASK| <= 1
  }

  lemma UniqueWith(t: Tables, ram: Ram, start: nat, stop: nat, intel: bool)
    requires t.Fit() && start <= stop && !IsPrefix(t, ram(stop)) && Describe(t, ram, start, stop, intel).Some?
    ensures UniqueClasses(Describe(t, ram, start, stop, intel).value.flags)
  {
    var o, p := OpcodeAt(t, ram, start, stop), PrefixesAt(t, ram, start, stop, NO_PREFIXES);
    var f := Find(t, ram, o, p, intel).value;
    FoundHasMode(t, ram, o, p, intel);
    var d := Instruction(ram, start, o, p, f);
    var form, sib := FormOf(p.addr == 1, d.mod, d.rm, d.base), LayoutOf(ram, o, p, f).sib == 1;
    assert d.flags == FlagsOf(f.mode, f.width, form, sib);
    OneSource(f.mode, f.width, form, sib);
    OneTarget(f.mode, f.width, form, sib);
    OneThird(f.mode, f.width, form, sib);
    OneDisplacement(f.mode, f.width, form, sib);
  }

  // ---------- the size prefixes ----------

  /** Among the bytes from `from` on, before `to`. */
  ghost predicate Occurs(ram: Ram, b: Byte, from: nat, to: nat) {
    exists k: nat | from <= k < to :: ram(k) == b
  }

  /** Of the prefixes, 66 and only 66 sets the operand size, 67 and only 67 the address size. */
  predicate SizesFit(b: Byte, e: Entry) {
    e.Prefix? ==> (e.index == 4 <==> b == 0x66) && (e.index == 3 <==> b == 0x67) && (e.index >= 3 ==> e.value == 1)
  }

  lemma TableSizesFit(b: Byte)
    ensures SizesFit(b, X86_TABLES.one(b))
  {
  }

  /** An operand-size or address-size prefix counts wherever it is before the opcode, however often,
      and nothing else does. */
  lemma SizePrefixes(ram: Ram, start: nat, stop: nat)
    requires start <= stop && !IsPrefix(X86_TABLES, ram(stop))
    ensures var o, p := OpcodeAt(X86_TABLES, ram, start, stop), PrefixesAt(X86_TABLES, ram, start, stop, NO_PREFIXES);
      (p.op == 1 <==> Occurs(ram, 0x66, start, o)) && (p.addr == 1 <==> Occurs(ram, 0x67, start, o))
  {
    forall b ensures SizesFit(b, X86_TABLES.one(b)) {
      TableSizesFit(b);
    }
    SizePrefixesFrom(X86_TABLES, ram, start, stop, NO_PREFIXES);
  }

  lemma {:induction false} SizePrefixesFrom(t: Tables, ram: Ram, pc: nat, stop: nat, p: Prefixes)
    requires forall b {:trigger SizesFit(b, t.one(b))} :: SizesFit(b, t.one(b))
    requires pc <= stop && !IsPrefix(t, ram(stop))
    ensures SizesSeen(PrefixesAt(t, ram, pc, stop, p), p, ram, pc, OpcodeAt(t, ram, pc, stop))
    decreases stop - pc
  {
    var b, e := ram(pc), t.one(ram(pc));
    if !e.Prefix? {
      return;
    }
    assert SizesFit(b, e);
    var p' := SetPrefix(p, e.index, e.value);
    if b != 0x0F {
      SizePrefixesFrom(t, ram, pc + 1, stop, p');
    }
    OneMoreSeen(PrefixesAt(t, ram, pc, stop, p), p, e, ram, pc, OpcodeAt(t, ram, pc, stop));
  }

  /** `p'` is `p` after the bytes on the way. */
  ghost predicate SizesSeen(p': Prefixes, p: Prefixes, ram: Ram, from: nat, to: nat) {
    && (p'.op == 1 <==> p.op == 1 || Occurs(ram, 0x66, from, to))
    && (p'.addr == 1 <==> p.addr == 1 || Occurs(ram, 0x67, from, to))
  }

  lemma OneMoreSeen(p': Prefixes, p: Prefixes, e: Entry, ram: Ram, from: nat, to: nat)
    requires from < to && e.Prefix? && SizesFit(ram(from), e)
    requires SizesSeen(p', SetPrefix(p, e.index, e.value), ram, from + 1, to)
    ensures SizesSeen(p', p, ram, from, to)
  {
    OccursFrom(ram, 0x66, from, to);
    OccursFrom(ram, 0x67, from, to);
  }

  lemma OccursFrom(ram: Ram, b: Byte, from: nat, to: nat)
    requires from < to
    ensures Occurs(ram, b, from, to) <==> ram(from) == b || Occurs(ram, b, from + 1, to)
  {
  }
}
