/** The register file and its local copies: what a translated function does on entry and before it
    returns (`libcpu/function.cpp`, `libcpu/frontend.cpp`). */
module Registers {
  /** A value of `|b|` bits, the least significant first. */
  type Bits = seq<bool>

  // ---------- instructions on values ----------

  function Zero(width: nat): (r: Bits)
    ensures |r| == width
  {
    seq(width, _ => false)
  }

  function ZExt(b: bool, width: nat): (r: Bits)
    ensures |r| == width
  {
    seq(width, k => k == 0 && b)
  }

  function Shl(x: Bits, shift: nat): (r: Bits)
    ensures |r| == |x|
  {
    seq(|x|, k requires 0 <= k < |x| => k >= shift && x[k - shift])
  }

  function LShr(x: Bits, shift: nat): (r: Bits)
    ensures |r| == |x|
  {
    seq(|x|, k requires 0 <= k < |x| => k + shift < |x| && x[k + shift])
  }

  function Or(x: Bits, y: Bits): (r: Bits)
    requires |x| == |y|
    ensures |r| == |x|
  {
    seq(|x|, k requires 0 <= k < |x| => x[k] || y[k])
  }

  function Replaced(file: seq<Bits>, offset: nat, part: seq<Bits>): (r: seq<Bits>)
    requires offset + |part| <= |file|
    ensures |r| == |file|
  {
    file[..offset] + part + file[offset + |part|..]
  }

  lemma ReplacedNext(file: seq<Bits>, offset: nat, part: seq<Bits>, i: nat)
    requires offset + |part| <= |file| && i < |part|
    ensures Replaced(file, offset, part[..i])[offset + i := part[i]] == Replaced(file, offset, part[..i + 1])
  {
  }

  /** What is in the part and outside of it afterwards. */
  lemma ReplacedParts(file: seq<Bits>, offset: nat, part: seq<Bits>)
    requires offset + |part| <= |file|
    ensures Replaced(file, offset, part)[offset..offset + |part|] == part
    ensures forall i | 0 <= i < |file| && !(offset <= i < offset + |part|) :: Replaced(file, offset, part)[i] == file[i]
  {
  }

  lemma ReplacedOver(file: seq<Bits>, offset: nat, part: seq<Bits>, part': seq<Bits>)
    requires offset + |part| <= |file| && |part'| == |part|
    ensures Replaced(Replaced(file, offset, part), offset, part') == Replaced(file, offset, part')
  {
  }

  lemma ReplacedApart(file: seq<Bits>, offset: nat, part: seq<Bits>, offset': nat, part': seq<Bits>)
    requires offset + |part| <= offset' && offset' + |part'| <= |file|
    ensures Replaced(Replaced(file, offset, part), offset', part')
         == Replaced(Replaced(file, offset', part'), offset, part)
  {
  }

  /** Writing two parts anew forgets what was written there before. */
  lemma BothReplacedOver(file: seq<Bits>, lo: nat, a: seq<Bits>, a': seq<Bits>, hi: nat, b: seq<Bits>, b': seq<Bits>)
    requires lo + |a| <= hi && hi + |b| <= |file| && |a'| == |a| && |b'| == |b|
    ensures Replaced(Replaced(Replaced(Replaced(file, lo, a), hi, b), lo, a'), hi, b')
         == Replaced(Replaced(file, lo, a'), hi, b')
  {
    ReplacedApart(Replaced(file, lo, a), lo, a', hi, b);
    ReplacedOver(file, lo, a, a');
    ReplacedOver(Replaced(file, lo, a'), hi, b, b');
  }

  // ---------- the layout ----------

  /** How many registers there are of each class, and where they begin in the register file; the
      width of the status register, which is XR 0, and the position of each flag in it; the
      size of floating-point values, and whether the host has them in that size. */
  datatype Info = Info(gprCount: nat, gprOffset: nat, xrCount: nat, xrOffset: nat, psrSize: nat, flags: seq<nat>,
                       fprCount: nat, floatSize: nat, fp80: bool, fp128: bool) {
    predicate Valid(fileSize: nat, fpFileSize: nat) {
      && gprOffset + gprCount <= xrOffset && xrOffset + xrCount <= fileSize
      && (psrSize > 0 ==> xrCount > 0)
      && (forall i | 0 <= i < |flags| :: flags[i] < psrSize)
      && FpSlots() <= fpFileSize
    }

    /** A floating-point register that is too wide for the host is kept as two words. */
    predicate SplitsFp() {
      (floatSize == 80 && !fp80) || (floatSize == 128 && !fp128)
    }

    function FpSlots(): nat {
      if SplitsFp() then fprCount * 2 else fprCount
    }

    predicate IsFlag(k: nat) {
      k in flags
    }
  }

  /** The register file: one structure for the integer classes, one for floating point. */
  datatype File = File(grf: seq<Bits>, frf: seq<Bits>)

  /** The bits of `psr` that are flags, and no others. */
  function Projection(flags: seq<nat>, psr: Bits): (r: Bits)
    ensures |r| == |psr|
  {
    seq(|psr|, k requires 0 <= k < |psr| => k in flags && psr[k])
  }

  // ---------- entering and leaving, as functions of the register file ----------

  /** Local copies; `flag` is by position in the status register. */
  datatype Locals = Locals(gpr: seq<Bits>, xr: seq<Bits>, fpr: seq<Bits>, flag: seq<bool>)

  ghost predicate Fits(info: Info, file: File) {
    info.Valid(|file.grf|, |file.frf|) && (info.psrSize > 0 ==> |file.grf[info.xrOffset]| == info.psrSize)
  }

  ghost predicate FitsLocals(info: Info, file: File, l: Locals) {
    && info.Valid(|file.grf|, |file.frf|)
    && |l.gpr| == info.gprCount && |l.xr| == info.xrCount && |l.fpr| == info.FpSlots() && |l.flag| >= info.psrSize
  }

  /** The locals are what the file holds; slots of `flag` that no flag uses are left alone. */
  ghost predicate IsLoaded(info: Info, file: File, before: Locals, l: Locals)
    requires Fits(info, file)
  {
    && l.gpr == file.grf[info.gprOffset..info.gprOffset + info.gprCount]
    && l.xr == file.grf[info.xrOffset..info.xrOffset + info.xrCount]
    && l.fpr == file.frf[..info.FpSlots()]
    && |l.flag| == |before.flag| >= info.psrSize
    && forall s | 0 <= s < |l.flag| ::
         l.flag[s] == if info.psrSize > 0 && info.IsFlag(s) then l.xr[0][s] else before.flag[s]
  }

  /** The status register made of the flags. */
  function Encoded(info: Info, flag: seq<bool>): (r: Bits)
    requires |flag| >= info.psrSize
    ensures |r| == info.psrSize
  {
    Projection(info.flags, flag[..info.psrSize])
  }

  /** The XR class as it leaves: the status register is made up of the flags again. */
  function SpilledXr(info: Info, l: Locals): (r: seq<Bits>)
    requires |l.flag| >= info.psrSize && (info.psrSize > 0 ==> |l.xr| > 0)
    ensures |r| == |l.xr|
  {
    if info.psrSize > 0 then l.xr[0 := Encoded(info, l.flag)] else l.xr
  }

  ghost function Spilled(info: Info, file: File, l: Locals): (r: File)
    requires FitsLocals(info, file, l)
    ensures |r.grf| == |file.grf| && |r.frf| == |file.frf|
  {
    File(Replaced(Replaced(file.grf, info.gprOffset, l.gpr), info.xrOffset, SpilledXr(info, l)),
         Replaced(file.frf, 0, l.fpr))
  }

  /** The file with nothing but the flags left in its status register. */
  ghost function OnlyFlags(info: Info, file: File): (r: File)
    requires Fits(info, file)
  {
    if info.psrSize > 0 then
      file.(grf := file.grf[info.xrOffset := Projection(info.flags, file.grf[info.xrOffset])])
    else file
  }

  /** A function that executes nothing keeps the register file, up to the bits of the status
      register that are no flags. */
  lemma EnterThenLeave(info: Info, file: File, before: Locals, l: Locals)
    requires Fits(info, file) && IsLoaded(info, file, before, l)
    ensures Spilled(info, file, l) == OnlyFlags(info, file)
  {
    assert Replaced(file.grf, info.gprOffset, l.gpr) == file.grf by {
      ReplacedNone(file.grf, info.gprOffset, info.gprCount);
    }
    assert Replaced(file.frf, 0, l.fpr) == file.frf by {
      ReplacedNone(file.frf, 0, info.FpSlots());
    }
    assert Replaced(file.grf, info.xrOffset, SpilledXr(info, l)) == OnlyFlags(info, file).grf by {
      XrComesBack(info, file, before, l);
    }
  }

  lemma ReplacedNone(file: seq<Bits>, offset: nat, count: nat)
    requires offset + count <= |file|
    ensures Replaced(file, offset, file[offset..offset + count]) == file
  {
  }

  lemma ReplacedFirst(file: seq<Bits>, offset: nat, count: nat, first: Bits)
    requires offset + count <= |file| && count > 0
    ensures Replaced(file, offset, file[offset..offset + count][0 := first]) == file[offset := first]
  {
  }

  lemma XrComesBack(info: Info, file: File, before: Locals, l: Locals)
    requires Fits(info, file) && IsLoaded(info, file, before, l)
    ensures Replaced(file.grf, info.xrOffset, SpilledXr(info, l)) == OnlyFlags(info, file).grf
  {
    if info.psrSize > 0 {
      FlagsComeBack(info, file, before, l);
      ReplacedFirst(file.grf, info.xrOffset, info.xrCount, Encoded(info, l.flag));
    } else {
      ReplacedNone(file.grf, info.xrOffset, info.xrCount);
    }
  }

  lemma FlagsComeBack(info: Info, file: File, before: Locals, l: Locals)
    requires Fits(info, file) && IsLoaded(info, file, before, l) && info.psrSize > 0
    ensures Encoded(info, l.flag) == Projection(info.flags, file.grf[info.xrOffset])
  {
    assert l.xr[0] == file.grf[info.xrOffset];
  }

  /** The next function finds what the last one left: all registers, and all flags. Of XR 0 it
      finds what the flags are, and not what the local copy of it was. */
  lemma LeaveThenEnter(info: Info, file: File, l: Locals, before: Locals, l': Locals)
    requires FitsLocals(info, file, l)
    requires Fits(info, Spilled(info, file, l)) && IsLoaded(info, Spilled(info, file, l), before, l')
    ensures l'.gpr == l.gpr && l'.xr == SpilledXr(info, l) && l'.fpr == l.fpr
    ensures info.psrSize > 0 ==> forall s | s in info.flags :: l'.flag[s] == l.flag[s]
  {
    SpilledParts(info, file, l);
    if info.psrSize > 0 {
      forall s | s in info.flags
        ensures l'.flag[s] == l.flag[s]
      {
        var i :| 0 <= i < |info.flags| && info.flags[i] == s;
        assert info.IsFlag(s) && s < info.psrSize;
      }
    }
  }

  lemma SpilledParts(info: Info, file: File, l: Locals)
    requires FitsLocals(info, file, l)
    ensures var f := Spilled(info, file, l);
      && f.grf[info.gprOffset..info.gprOffset + info.gprCount] == l.gpr
      && f.grf[info.xrOffset..info.xrOffset + info.xrCount] == SpilledXr(info, l)
      && f.frf[..info.FpSlots()] == l.fpr
  {
    var grf := Replaced(file.grf, info.gprOffset, l.gpr);
    ReplacedParts(file.grf, info.gprOffset, l.gpr);
    ReplacedParts(grf, info.xrOffset, SpilledXr(info, l));
    ReplacedParts(file.frf, 0, l.fpr);
  }

  // ---------- the state effects may work on ----------

  /** What of the locals survives from one function to the next, and what lies around it in
      the file: there is a value for each flag, and none for XR 0, which is made of them. */
  datatype State = State(gpr: seq<Bits>, xr: seq<Bits>, fpr: seq<Bits>, flags: map<nat, bool>, rest: File)

  function Flags(info: Info): set<nat> {
    set k | k in info.flags
  }

  function Blank(count: nat): seq<Bits> {
    seq(count, _ => [])
  }

  /** The file without its registers. */
  function Rest(info: Info, file: File): File
    requires info.Valid(|file.grf|, |file.frf|)
  {
    File(Replaced(Replaced(file.grf, info.gprOffset, Blank(info.gprCount)), info.xrOffset, Blank(info.xrCount)),
         Replaced(file.frf, 0, Blank(info.FpSlots())))
  }

  ghost predicate OfLayout(info: Info, s: State) {
    && info.Valid(|s.rest.grf|, |s.rest.frf|) && s.rest == Rest(info, s.rest)
    && |s.gpr| == info.gprCount && |s.fpr| == info.FpSlots()
    && |s.xr| == info.xrCount - (if info.psrSize > 0 then 1 else 0)
    && s.flags.Keys == Flags(info)
  }

  /** The state the locals stand for, over a file. */
  function View(info: Info, file: File, l: Locals): State
    requires info.Valid(|file.grf|, |file.frf|)
    requires |l.xr| == info.xrCount && |l.flag| >= info.psrSize
  {
    State(l.gpr, if info.psrSize > 0 then l.xr[1..] else l.xr, l.fpr, map k | k in Flags(info) :: l.flag[k],
          Rest(info, file))
  }

  /** The loading of the frontend contract. */
  function Load(info: Info, file: File): State
    requires info.Valid(|file.grf|, |file.frf|)
    requires info.psrSize > 0 ==> |file.grf[info.xrOffset]| == info.psrSize
  {
    var xr := file.grf[info.xrOffset..info.xrOffset + info.xrCount];
    State(file.grf[info.gprOffset..info.gprOffset + info.gprCount], if info.psrSize > 0 then xr[1..] else xr,
          file.frf[..info.FpSlots()], map k | k in Flags(info) :: xr[0][k], Rest(info, file))
  }

  function Psr(info: Info, flags: map<nat, bool>): (r: Bits)
    ensures |r| == info.psrSize
  {
    seq(info.psrSize, k requires 0 <= k < info.psrSize => k in flags && flags[k])
  }

  /** The XR class of a spilled state, with the status register made of the flags. */
  function XrOf(info: Info, s: State): seq<Bits> {
    if info.psrSize > 0 then [Psr(info, s.flags)] + s.xr else s.xr
  }

  /** The spilling of the frontend contract. */
  function Spill(info: Info, s: State): File
    requires info.Valid(|s.rest.grf|, |s.rest.frf|)
    requires |s.gpr| == info.gprCount && |s.fpr| == info.FpSlots()
    requires |s.xr| == info.xrCount - (if info.psrSize > 0 then 1 else 0)
  {
    File(Replaced(Replaced(s.rest.grf, info.gprOffset, s.gpr), info.xrOffset, XrOf(info, s)),
         Replaced(s.rest.frf, 0, s.fpr))
  }

  /** What entering a function leaves in the locals is the loaded state. */
  lemma EnteringLoads(info: Info, file: File, before: Locals, l: Locals)
    requires Fits(info, file) && IsLoaded(info, file, before, l)
    ensures View(info, file, l) == Load(info, file) && OfLayout(info, Load(info, file))
  {
    forall k | k in Flags(info)
      ensures info.psrSize > 0 && k < info.psrSize && l.flag[k] == l.xr[0][k]
    {
      assert info.IsFlag(k);
    }
    RestOnce(info, file);
  }

  lemma RestOnce(info: Info, file: File)
    requires info.Valid(|file.grf|, |file.frf|)
    ensures Rest(info, Rest(info, file)) == Rest(info, file)
  {
    BothReplacedOver(file.grf, info.gprOffset, Blank(info.gprCount), Blank(info.gprCount),
                     info.xrOffset, Blank(info.xrCount), Blank(info.xrCount));
    ReplacedOver(file.frf, 0, Blank(info.FpSlots()), Blank(info.FpSlots()));
  }

  /** What leaving it leaves in the file is the state of the locals, spilled. */
  lemma LeavingSpills(info: Info, file: File, l: Locals)
    requires FitsLocals(info, file, l)
    ensures Spilled(info, file, l) == Spill(info, View(info, file, l))
  {
    var flags := View(info, file, l).flags;
    if info.psrSize > 0 {
      assert Psr(info, flags) == Encoded(info, l.flag);
      assert [Psr(info, flags)] + l.xr[1..] == SpilledXr(info, l);
    }
    BothReplacedOver(file.grf, info.gprOffset, Blank(info.gprCount), l.gpr,
                     info.xrOffset, Blank(info.xrCount), SpilledXr(info, l));
    ReplacedOver(file.frf, 0, Blank(info.FpSlots()), l.fpr);
  }

  lemma SpilledSlices(info: Info, s: State)
    requires OfLayout(info, s)
    ensures var file := Spill(info, s);
      && file.grf[info.gprOffset..info.gprOffset + info.gprCount] == s.gpr
      && file.grf[info.xrOffset..info.xrOffset + info.xrCount] == XrOf(info, s)
      && file.frf[..info.FpSlots()] == s.fpr
  {
    var grf := Replaced(s.rest.grf, info.gprOffset, s.gpr);
    ReplacedParts(s.rest.grf, info.gprOffset, s.gpr);
    ReplacedParts(grf, info.xrOffset, XrOf(info, s));
    ReplacedParts(s.rest.frf, 0, s.fpr);
  }

  /** The frontend contract's law holds of them: spilling and loading keeps every state. */
  lemma LoadsSpilled(info: Info, s: State)
    requires OfLayout(info, s)
    ensures Fits(info, Spill(info, s)) && Load(info, Spill(info, s)) == s
  {
    var file := Spill(info, s);
    SpilledSlices(info, s);
    RestOfSpilled(info, s);
    assert info.psrSize > 0 ==> file.grf[info.xrOffset] == XrOf(info, s)[0];
    forall k | k in Flags(info)
      ensures k < info.psrSize && XrOf(info, s)[0][k] == s.flags[k]
    {
      assert k in info.flags;
    }
    assert Load(info, file).flags == s.flags;
  }

  lemma RestOfSpilled(info: Info, s: State)
    requires OfLayout(info, s)
    ensures Rest(info, Spill(info, s)) == s.rest
  {
    BothReplacedOver(s.rest.grf, info.gprOffset, s.gpr, Blank(info.gprCount),
                     info.xrOffset, XrOf(info, s), Blank(info.xrCount));
    ReplacedOver(s.rest.frf, 0, s.fpr, Blank(info.FpSlots()));
  }

  /** Loading and spilling keeps what the layout describes of a file. */
  lemma SpillsLoaded(info: Info, file: File)
    requires Fits(info, file)
    ensures OfLayout(info, Load(info, file))
    ensures Spill(info, Load(info, file)) == OnlyFlags(info, file)
  {
    var flag := if info.psrSize > 0 then file.grf[info.xrOffset] else [];
    var l := Locals(file.grf[info.gprOffset..info.gprOffset + info.gprCount],
                    file.grf[info.xrOffset..info.xrOffset + info.xrCount], file.frf[..info.FpSlots()], flag);
    EnteringLoads(info, file, l, l);
    LeavingSpills(info, file, l);
    EnterThenLeave(info, file, l, l);
  }

  /** So a file is as spilled exactly if its status register holds nothing but flags. */
  lemma SpilledIff(info: Info, file: File)
    requires Fits(info, file)
    ensures file == Spill(info, Load(info, file)) <==> (info.psrSize > 0 ==> HoldsFlags(info, file.grf[info.xrOffset]))
  {
    SpillsLoaded(info, file);
    if info.psrSize > 0 {
      var psr := file.grf[info.xrOffset];
      ProjectionKeeps(info, psr);
      assert file == OnlyFlags(info, file) <==> Projection(info.flags, psr) == psr by {
        assert OnlyFlags(info, file).grf[info.xrOffset] == Projection(info.flags, psr);
        assert file.grf[info.xrOffset := psr] == file.grf;
      }
    }
  }

  predicate HoldsFlags(info: Info, psr: Bits) {
    forall k | 0 <= k < |psr| && psr[k] :: k in info.flags
  }

  lemma ProjectionKeeps(info: Info, psr: Bits)
    ensures Projection(info.flags, psr) == psr <==> HoldsFlags(info, psr)
  {
    if !HoldsFlags(info, psr) {
      var k :| 0 <= k < |psr| && psr[k] && k !in info.flags;
      assert Projection(info.flags, psr)[k] != psr[k];
    }
  }

  // ---------- the code that does it ----------

  class Frame {
    const info: Info
    const file: array<Bits>        // struct reg_t
    const fpFile: array<Bits>      // its floating-point counterpart
    const gpr: array<Bits>         // the local variables
    const xr: array<Bits>
    const fpr: array<Bits>
    const flag: array<bool>

    ghost predicate Valid() {
      && info.Valid(file.Length, fpFile.Length) && gpr.Length == info.gprCount && xr.Length == info.xrCount
      && fpr.Length == info.FpSlots() && flag.Length >= info.psrSize
      && {file, fpFile} !! {gpr, xr, fpr} && file != fpFile && gpr != xr && fpr != gpr && fpr != xr
    }

    ghost function Value(): Locals
      reads gpr, xr, fpr, flag
    {
      Locals(gpr[..], xr[..], fpr[..], flag[..])
    }

    ghost function Contents(): File
      reads file, fpFile
    {
      File(file[..], fpFile[..])
    }

    constructor (info: Info, file: array<Bits>, fpFile: array<Bits>)
      requires info.Valid(file.Length, fpFile.Length) && file != fpFile
      ensures Valid() && this.info == info && this.file == file && this.fpFile == fpFile
      ensures fresh(gpr) && fresh(xr) && fresh(fpr) && fresh(flag)
    {
      this.info, this.file, this.fpFile := info, file, fpFile;
      gpr := new Bits[info.gprCount](_ => []);
      xr := new Bits[info.xrCount](_ => []);
      fpr := new Bits[info.FpSlots()](_ => []);
      flag := new bool[info.psrSize](_ => false);
    }

    /** `arch_encode_bit`. */
    method EncodeBit(psr: Bits, shift: nat) returns (r: Bits)
      requires shift < |psr| && shift < flag.Length
      ensures |r| == |psr| && forall k | 0 <= k < |r| :: r[k] == (psr[k] || (k == shift && flag[shift]))
    {
      var bit := ZExt(flag[shift], |psr|);
      bit := Shl(bit, shift);
      r := Or(psr, bit);
    }

    /** `arch_decode_bit`. */
    method DecodeBit(psr: Bits, shift: nat)
      requires shift < |psr| && shift < flag.Length
      modifies flag
      ensures flag[..] == old(flag[..])[shift := psr[shift]]
    {
      var n := LShr(psr, shift);
      flag[shift] := n[0];
    }

    method FlagsEncode() returns (psr: Bits)
      requires Valid()
      ensures psr == Encoded(info, flag[..])
    {
      psr := Zero(info.psrSize);
      for i := 0 to |info.flags|
        invariant |psr| == info.psrSize
        invariant forall k | 0 <= k < |psr| :: psr[k] == (k in info.flags[..i] && flag[k])
      {
        psr := EncodeBit(psr, info.flags[i]);
        assert info.flags[..i + 1] == info.flags[..i] + [info.flags[i]];
      }
      assert info.flags[..|info.flags|] == info.flags;
    }

    method FlagsDecode(psr: Bits)
      requires Valid() && |psr| == info.psrSize
      modifies flag
      ensures forall s | 0 <= s < flag.Length :: flag[s] == if s in info.flags then psr[s] else old(flag[s])
    {
      for i := 0 to |info.flags|
        invariant forall s | 0 <= s < flag.Length :: flag[s] == if s in info.flags[..i] then psr[s] else old(flag[s])
      {
        DecodeBit(psr, info.flags[i]);
        assert info.flags[..i + 1] == info.flags[..i] + [info.flags[i]];
      }
      assert info.flags[..|info.flags|] == info.flags;
    }

    /** `emit_decode_reg_helper`, with local copies. */
    method LoadClass(local: array<Bits>, offset: nat)
      requires offset + local.Length <= file.Length && local != file
      modifies local
      ensures local[..] == file[offset..offset + local.Length]
    {
      for i := 0 to local.Length
        invariant local[..i] == file[offset..offset + i]
      {
        local[i] := file[i + offset];
      }
    }

    /** `emit_decode_fp_reg_helper`: values that are too wide are copied in two halves. */
    method LoadFp()
      requires Valid()
      modifies fpr
      ensures fpr[..] == fpFile[..info.FpSlots()]
      ensures forall r | 0 <= r < info.fprCount ::
        if (info.floatSize == 80 && !info.fp80) || (info.floatSize == 128 && !info.fp128) then
          fpr[2 * r] == fpFile[2 * r] && fpr[2 * r + 1] == fpFile[2 * r + 1]
        else fpr[r] == fpFile[r]
    {
      if info.SplitsFp() {
        for i := 0 to info.fprCount
          invariant fpr[..i * 2] == fpFile[..i * 2]
        {
          fpr[i * 2 + 0] := fpFile[i * 2 + 0];
          fpr[i * 2 + 1] := fpFile[i * 2 + 1];
        }
      } else {
        for i := 0 to info.fprCount
          invariant fpr[..i] == fpFile[..i]
        {
          fpr[i] := fpFile[i];
        }
      }
    }

    /** `spill_reg_state_helper`. */
    method SpillClass(local: array<Bits>, offset: nat)
      requires offset + local.Length <= file.Length && local != file
      modifies file
      ensures file[..] == Replaced(old(file[..]), offset, local[..])
    {
      ghost var was := file[..];
      for i := 0 to local.Length
        invariant file[..] == Replaced(was, offset, local[..i])
      {
        ReplacedNext(was, offset, local[..], i);
        file[offset + i] := local[i];
      }
      assert local[..local.Length] == local[..];
    }

    /** `spill_fp_reg_state_helper`. */
    method SpillFp()
      requires Valid()
      modifies fpFile
      ensures fpFile[..] == Replaced(old(fpFile[..]), 0, fpr[..])
      ensures forall r | 0 <= r < info.fprCount ::
        if (info.floatSize == 80 && !info.fp80) || (info.floatSize == 128 && !info.fp128) then
          fpFile[2 * r] == fpr[2 * r] && fpFile[2 * r + 1] == fpr[2 * r + 1]
        else fpFile[r] == fpr[r]
    {
      if info.SplitsFp() {
        SpillFpHalves();
      } else {
        for i := 0 to info.fprCount
          invariant FpSpilled(old(fpFile[..]), i)
        {
          fpFile[i] := fpr[i];
        }
      }
      assert fpFile[..] == Replaced(old(fpFile[..]), 0, fpr[..]);
    }

    method SpillFpHalves()
      requires Valid() && info.SplitsFp()
      modifies fpFile
      ensures FpSpilled(old(fpFile[..]), info.fprCount * 2)
    {
      for i := 0 to info.fprCount
        invariant FpSpilled(old(fpFile[..]), i * 2)
      {
        fpFile[i * 2 + 0] := fpr[i * 2 + 0];
        fpFile[i * 2 + 1] := fpr[i * 2 + 1];
      }
    }

    /** The first `n` slots are stored. */
    ghost predicate FpSpilled(was: seq<Bits>, n: nat)
      reads fpFile, fpr
    {
      && |was| == fpFile.Length && n <= fpr.Length && n <= |was|
      && (forall k | 0 <= k < n :: fpFile[k] == fpr[k])
      && (forall k | n <= k < |was| :: fpFile[k] == was[k])
    }

    method LoadClasses()
      requires Valid()
      modifies gpr, xr, fpr
      ensures gpr[..] == file[info.gprOffset..info.gprOffset + info.gprCount]
      ensures xr[..] == file[info.xrOffset..info.xrOffset + info.xrCount]
      ensures fpr[..] == fpFile[..info.FpSlots()]
    {
      LoadClass(gpr, info.gprOffset);
      LoadClass(xr, info.xrOffset);
      LoadFp();
    }

    /** `emit_decode_reg`: the code at the entry of a function. */
    method Enter()
      requires Valid() && Fits(info, Contents())
      modifies gpr, xr, fpr, flag
      ensures IsLoaded(info, Contents(), old(Value()), Value())
      ensures View(info, Contents(), Value()) == Load(info, Contents())
    {
      LoadClasses();
      if info.psrSize != 0 {
        FlagsDecode(xr[0]);
      }
      EnteringLoads(info, Contents(), old(Value()), Value());
    }

    /** The flags go into the status register's local copy. */
    method StorePsr()
      requires Valid()
      modifies xr
      ensures xr[..] == SpilledXr(info, old(Value()))
    {
      if info.psrSize != 0 {
        var psr := FlagsEncode();
        xr[0] := psr;
      }
    }

    /** `spill_reg_state`: the code before a function returns. */
    method Leave()
      requires Valid()
      modifies file, fpFile, xr
      ensures Contents() == Spilled(info, old(Contents()), old(Value()))
      ensures Contents() == Spill(info, View(info, old(Contents()), old(Value())))
    {
      LeavingSpills(info, Contents(), Value());
      StorePsr();
      SpillClass(gpr, info.gprOffset);
      SpillClass(xr, info.xrOffset);
      SpillFp();
    }

    /** Nothing happens in between. */
    method EnterAndLeave()
      requires Valid() && Fits(info, Contents())
      modifies file, fpFile, gpr, xr, fpr, flag
      ensures Contents() == OnlyFlags(info, old(Contents()))
    {
      Enter();
      EnterThenLeave(info, Contents(), old(Value()), Value());
      Leave();
    }
  }
}
