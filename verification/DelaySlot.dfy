/** The reference machine in the terms of a machine with delay slots: one that holds the address
    of the next instruction and, while the next one is in a delay slot, that of the one after it. */
module DelaySlot {
  import opened Guest

  /** What one step of the reference machine does, kind by kind, said in what the frontend reports
      alone. The instruction in a delay slot is the one `length(pc)` bytes further on; it is executed
      whether the transfer is taken or not, and after the transfer has chosen its target. */
  lemma StepByKind<S(!new), M(!new)>(fe: Frontend<S, M>, s: S, pc: Addr)
    requires fe.WellBehaved(pc)
    ensures var t, e := fe.tagInstr(pc), fe.effect(pc, s);
      var slot: Addr := (pc + fe.length(pc)) % 0x1_0000_0000_0000_0000;
      var taken := TagConditional in t.tag ==> fe.cond(pc, s);
      var computed := TagRet in t.tag || t.newPc == 0xFFFF_FFFF_FFFF_FFFF;
      && (!taken ==> Step(fe, s, pc) == Next(if TagDelaySlot in t.tag then fe.effect(slot, s).s else s, t.nextPc))
      && (taken && TagContinue in t.tag ==> Step(fe, s, pc) == Next(e.s, t.nextPc))
      && (taken && TagTrap in t.tag ==> e.storedPc.Some? && Step(fe, s, pc) == Trapped(e.s, e.storedPc.value))
      && (taken && t.tag * {TagCall, TagBranch, TagRet} != {} ==>
            && (computed ==> e.storedPc.Some?)
            && Step(fe, s, pc) == Next(if TagDelaySlot in t.tag then fe.effect(slot, e.s).s else e.s,
                                       if computed then e.storedPc.value else t.newPc))
  {
    var t := fe.tagInstr(pc).tag;
    var k :| t * BASE_BITS == {k};
    assert k in t * BASE_BITS;
    fe.OneKind(pc, k);
    if TagDelaySlot in t {
      var b :| b in t * {TagCall, TagRet, TagBranch};
    }
    if t * {TagCall, TagBranch, TagRet} != {} {
      var b :| b in t * {TagCall, TagBranch, TagRet};
    }
  }

  // ---------- the machine with delay slots ----------

  /** `after` is where control goes when the instruction at `pc`, in a delay slot, is done. */
  datatype Pipe<+S> = Pipe(s: S, pc: Addr, after: Option<Addr>)

  datatype Piped<+S> = Flows(x: Pipe<S>) | Halts(s: S, pc: Addr)

  /** One instruction, or one instruction that is not taken. */
  function Flow<S(!new), M(!new)>(fe: Frontend<S, M>, x: Pipe<S>): Piped<S> {
    var t, e := fe.tagInstr(x.pc), fe.effect(x.pc, x.s);
    match x.after
    case Some(target) => Flows(Pipe(e.s, target, None))
    case None =>
      if TagTrap in t.tag && (TagConditional in t.tag ==> fe.cond(x.pc, x.s)) then
        Halts(e.s, if e.storedPc.Some? then e.storedPc.value else x.pc)
      else
        var taken := TagConditional in t.tag ==> fe.cond(x.pc, x.s);
        var target :=
          if !taken || TagContinue in t.tag then t.nextPc
          else if TagRet !in t.tag && t.newPc != NEW_PC_NONE then t.newPc
          else if e.storedPc.Some? then e.storedPc.value else x.pc;
        var s' := if taken then e.s else x.s;
        if TagDelaySlot in t.tag then Flows(Pipe(s', (x.pc + fe.length(x.pc)) % TWO_64, Some(target)))
        else Flows(Pipe(s', target, None))
  }

  /** A step of the reference machine is one of this machine, or two where there is a delay slot. */
  lemma StepFlows<S(!new), M(!new)>(fe: Frontend<S, M>, s: S, pc: Addr)
    requires fe.WellBehaved(pc)
    ensures var x := Flow(fe, Pipe(s, pc, None));
      match Step(fe, s, pc)
      case Trapped(s', pc') => x == Halts(s', pc')
      case Next(s', pc') =>
        x.Flows? && (if TagDelaySlot in fe.tagInstr(pc).tag then Flow(fe, x.x) else x) == Flows(Pipe(s', pc', None))
  {
    StepByKind(fe, s, pc);
    var t := fe.tagInstr(pc).tag;
    var k :| t * BASE_BITS == {k};
    assert k in t * BASE_BITS;
    fe.OneKind(pc, k);
    if TagDelaySlot in t {
      var b :| b in t * {TagCall, TagRet, TagBranch};
    }
    assert k in {TagCall, TagBranch, TagRet} ==> k in t * {TagCall, TagBranch, TagRet};
  }

  /** The machine with delay slots after `n` instructions. */
  function Flowed<S(!new), M(!new)>(fe: Frontend<S, M>, x: Pipe<S>, n: nat): Option<Pipe<S>>
    decreases n
  {
    if n == 0 then Some(x)
    else match Flow(fe, x)
      case Halts(_, _) => None
      case Flows(x') => Flowed(fe, x', n - 1)
  }

  lemma {:induction false} FlowedOnwards<S(!new), M(!new)>(fe: Frontend<S, M>, x: Pipe<S>, m: nat, n: nat)
    requires Flowed(fe, x, m).Some?
    ensures Flowed(fe, x, m + n) == Flowed(fe, Flowed(fe, x, m).value, n)
    decreases m
  {
    if m > 0 {
      FlowedOnwards(fe, Flow(fe, x).x, m - 1, n);
    }
  }

  /** Whole runs: every state the reference machine comes to inside the area is one the machine
      with delay slots comes to, after at most twice as many instructions, between instructions
      and not in a delay slot. */
  lemma {:induction false} RunsFlow<S(!new), M(!new)>(fe: Frontend<S, M>, area: Area, s: S, pc: Addr, n: nat)
    returns (k: nat)
    requires Contract(fe, area) && Steps(fe, area, s, pc, n).Some?
    ensures n <= k <= 2 * n
    ensures var (s', pc') := Steps(fe, area, s, pc, n).value;
      Flowed(fe, Pipe(s, pc, None), k) == Some(Pipe(s', pc', None))
    decreases n
  {
    if n == 0 {
      k := 0;
    } else {
      assert fe.WellBehaved(pc);
      StepFlows(fe, s, pc);
      var x := Step(fe, s, pc);
      var m := if TagDelaySlot in fe.tagInstr(pc).tag then 2 else 1;
      assert Flowed(fe, Pipe(s, pc, None), m) == Some(Pipe(x.s, x.pc, None)) by {
        var y := Flow(fe, Pipe(s, pc, None)).x;
        assert Flowed(fe, y, m - 1) == Some(Pipe(x.s, x.pc, None));
      }
      k := RunsFlow(fe, area, x.s, x.pc, n - 1);
      FlowedOnwards(fe, Pipe(s, pc, None), m, k);
      k := m + k;
    }
  }
}
