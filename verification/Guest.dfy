/** The guest program as the recompiler core sees it, and the one-instruction-at-a-time
    machine that translated code has to agree with.

    A frontend is kept abstract: it says what kind of instruction lives at an address, when
    a conditional instruction is taken and what an instruction does. `S` is the decoded guest
    state a translated function works on (registers and flags in local variables, RAM), `M`
    the state between calls (the register file in memory, RAM). */
module Guest {
  datatype Option<+T> = None | Some(value: T)

  const TWO_64: int := 0x1_0000_0000_0000_0000

  type Addr = a: int | 0 <= a < TWO_64

  /** "The destination is unknown." */
  const NEW_PC_NONE: Addr := 0xFFFF_FFFF_FFFF_FFFF

  /** Host address arithmetic wraps around. */
  function Plus(a: Addr, n: nat): Addr {
    (a + n) % TWO_64
  }

  datatype TagBit =
    | TagContinue | TagCall | TagRet | TagBranch | TagTrap   // base type
    | TagConditional | TagDelaySlot                          // flags
    | TagCode | TagBranchTarget | TagSubroutine | TagAfterCall | TagAfterCond
    | TagEntry | TagAfterTrap | TagTranslated                // internal to the core

  /** A tag word, as the set of its one bits. */
  type Tag = set<TagBit>

  const BASE_BITS: Tag := {TagContinue, TagCall, TagRet, TagBranch, TagTrap}
  const INSTR_BITS: Tag := BASE_BITS + {TagConditional, TagDelaySlot}
  const START_BITS: Tag :=
    {TagBranchTarget, TagSubroutine, TagAfterCall, TagAfterCond, TagAfterTrap, TagEntry}

  /** What `tag_instr` reports: the tag, the branch target, the following instruction, and
      the instruction's length. */
  datatype TagInfo = TagInfo(tag: Tag, newPc: Addr, nextPc: Addr, bytes: nat)

  /** What executing an instruction does: the new state, and the PC it stores, if it does. */
  datatype Effect<+S> = Effect(s: S, storedPc: Option<Addr>)

  datatype Frontend<!S(!new), !M(!new)> = Frontend(
    tagInstr: Addr -> TagInfo,
    cond: (Addr, S) -> bool,
    effect: (Addr, S) -> Effect<S>,
    length: Addr -> nat,             // result of translate_instr
    load: M -> S,                    // decode the register file on entry
    spill: S -> M)                   // encode it on return
  {
    /** Where the instruction in the delay slot of the one at `pc` lives. */
    function DelayPc(pc: Addr): Addr {
      Plus(pc, length(pc))
    }

    predicate IsConditional(pc: Addr) { TagConditional in tagInstr(pc).tag }
    predicate HasDelaySlot(pc: Addr) { TagDelaySlot in tagInstr(pc).tag }

    /** The target of this control transfer is known only to the instruction itself,
        which stores it in PC. */
    predicate ComputesTarget(pc: Addr) {
      var t := tagInstr(pc);
      TagRet in t.tag || ((TagCall in t.tag || TagBranch in t.tag) && t.newPc == NEW_PC_NONE)
    }

    /** The part of the frontend contract that concerns the instruction at `pc`. */
    ghost predicate WellBehaved(pc: Addr) {
      var t := tagInstr(pc);
      && t.tag <= INSTR_BITS
      && (exists b :: t.tag * BASE_BITS == {b})
      && (HasDelaySlot(pc) ==> t.tag * {TagCall, TagRet, TagBranch} != {})
      && (TagContinue in t.tag ==> t.nextPc > pc)
      && (ComputesTarget(pc) || TagTrap in t.tag ==> forall s :: effect(pc, s).storedPc.Some?)
      && (HasDelaySlot(pc) ==> forall s :: effect(DelayPc(pc), s).storedPc.None?)
    }

    /** With exactly one base bit, an instruction is of exactly one kind. */
    lemma OneKind(pc: Addr, k: TagBit)
      requires WellBehaved(pc) && k in BASE_BITS && k in tagInstr(pc).tag
      ensures var t := tagInstr(pc).tag;
        && (TagContinue in t <==> k == TagContinue) && (TagCall in t <==> k == TagCall)
        && (TagRet in t <==> k == TagRet) && (TagBranch in t <==> k == TagBranch)
        && (TagTrap in t <==> k == TagTrap)
    {
      var t := tagInstr(pc).tag;
      assert k in t * BASE_BITS;
      assert forall b :: b in t && b in BASE_BITS ==> b in t * BASE_BITS;
    }
  }

  /** The code area, [lo, hi). */
  datatype Area = Area(lo: Addr, hi: Addr) {
    predicate Contains(a: Addr) {
      lo <= a < hi
    }
  }

  ghost predicate Contract<S(!new), M(!new)>(fe: Frontend<S, M>, area: Area) {
    && (forall pc: Addr {:trigger fe.WellBehaved(pc)} | area.Contains(pc) :: fe.WellBehaved(pc))
    && (forall s: S :: fe.load(fe.spill(s)) == s)
  }

  // ---------- the one-instruction machine ----------

  datatype Stepped<+S> =
    | Next(s: S, pc: Addr)
    | Trapped(s: S, pc: Addr)

  /** The instruction at `pc` is executed, then its delay slot, then control goes to its
      target. */
  function Execute<S(!new), M(!new)>(fe: Frontend<S, M>, s: S, pc: Addr): Stepped<S> {
    var t := fe.tagInstr(pc);
    var e := fe.effect(pc, s);
    var s' := if fe.HasDelaySlot(pc) then fe.effect(fe.DelayPc(pc), e.s).s else e.s;
    var stored := if e.storedPc.Some? then e.storedPc.value else pc;
    if TagTrap in t.tag then Trapped(s', stored)
    else if fe.ComputesTarget(pc) then Next(s', stored)
    else if TagCall in t.tag || TagBranch in t.tag then Next(s', t.newPc)
    else Next(s', t.nextPc)
  }

  /** A conditional instruction that is not taken only executes its delay slot. */
  function Step<S(!new), M(!new)>(fe: Frontend<S, M>, s: S, pc: Addr): Stepped<S> {
    if fe.IsConditional(pc) && !fe.cond(pc, s) then
      Next(if fe.HasDelaySlot(pc) then fe.effect(fe.DelayPc(pc), s).s else s, fe.tagInstr(pc).nextPc)
    else Execute(fe, s, pc)
  }

  /** The state after exactly `n` instructions that all lie inside the area and do not trap. */
  function Steps<S(!new), M(!new)>(fe: Frontend<S, M>, area: Area, s: S, pc: Addr, n: nat): Option<(S, Addr)>
    decreases n
  {
    if n == 0 then Some((s, pc))
    else if !area.Contains(pc) then None
    else match Step(fe, s, pc)
      case Trapped(_, _) => None
      case Next(s', pc') => Steps(fe, area, s', pc', n - 1)
  }

  /** The first machine state whose pc is outside the area or whose instruction traps,
      if it is reached within `n` instructions. */
  function Until<S(!new), M(!new)>(fe: Frontend<S, M>, area: Area, s: S, pc: Addr, n: nat): Option<Stepped<S>>
    decreases n
  {
    if !area.Contains(pc) then Some(Next(s, pc))
    else if n == 0 then None
    else match Step(fe, s, pc)
      case Trapped(s', pc') => Some(Trapped(s', pc'))
      case Next(s', pc') => Until(fe, area, s', pc', n - 1)
  }

  lemma {:induction false} StepsThenSteps<S(!new), M(!new)>(fe: Frontend<S, M>, area: Area, s: S, pc: Addr, m: nat,
                                                            n: nat)
    requires Steps(fe, area, s, pc, m).Some?
    ensures var (s', pc') := Steps(fe, area, s, pc, m).value;
            Steps(fe, area, s, pc, m + n) == Steps(fe, area, s', pc', n)
    decreases m
  {
    if m > 0 {
      var x := Step(fe, s, pc);
      StepsThenSteps(fe, area, x.s, x.pc, m - 1, n);
    }
  }

  lemma {:induction false} StepsThenUntil<S(!new), M(!new)>(fe: Frontend<S, M>, area: Area, s: S, pc: Addr, m: nat,
                                                            n: nat)
    requires Steps(fe, area, s, pc, m).Some?
    ensures var (s', pc') := Steps(fe, area, s, pc, m).value;
            Until(fe, area, s, pc, m + n) == Until(fe, area, s', pc', n)
    decreases m
  {
    if m > 0 {
      var x := Step(fe, s, pc);
      StepsThenUntil(fe, area, x.s, x.pc, m - 1, n);
    }
  }

  /** The outcome does not depend on how long one is prepared to wait for it. */
  lemma {:induction false} UntilIsUnique<S(!new), M(!new)>(fe: Frontend<S, M>, area: Area, s: S, pc: Addr, m: nat,
                                                           n: nat)
    requires Until(fe, area, s, pc, m).Some? && Until(fe, area, s, pc, n).Some?
    ensures Until(fe, area, s, pc, m) == Until(fe, area, s, pc, n)
    decreases m
  {
    if area.Contains(pc) {
      var x := Step(fe, s, pc);
      if x.Next? {
        UntilIsUnique(fe, area, x.s, x.pc, m - 1, n - 1);
      }
    }
  }

  /** As long as `n` instructions run inside the area, the outcome lies beyond them. */
  lemma {:induction false} StepsMeansNotYet<S(!new), M(!new)>(fe: Frontend<S, M>, area: Area, s: S, pc: Addr, n: nat,
                                                              k: nat)
    requires Steps(fe, area, s, pc, n).Some? && k < n
    ensures Until(fe, area, s, pc, k).None?
    decreases k
  {
    if k > 0 {
      var x := Step(fe, s, pc);
      StepsMeansNotYet(fe, area, x.s, x.pc, n - 1, k - 1);
    }
  }
}
