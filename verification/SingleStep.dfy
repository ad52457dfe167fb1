/** Single stepping: `libcpu/translate_singlestep.cpp`, and `cpu_run` and `cpu_flush` of
    `libcpu/interface.cpp` with CPU_DEBUG_SINGLESTEP set. */
module Stepping {
  import opened Guest
  import opened Ir
  import opened Tagging
  import opened Translate
  import opened Simulation

  /** Execution that continues after the instruction at (b, j) stores `pc` and returns. */
  ghost predicate StoresAt(fn: Fn, b: BlockId, j: nat, pc: Addr) {
    HasOp(fn, b, j, StorePc(pc)) && HasOp(fn, b, j + 1, Br(RET))
  }

  /** `fn` executes the one instruction at `a`. Having no labels of its own, it leaves for
      every address it goes to by storing that address. */
  ghost predicate StepCode<S(!new), M(!new)>(fe: Frontend<S, M>, fn: Fn, a: Addr, first: BlockId) {
    var t := fe.tagInstr(a);
    && |fn.blocks| > 2 && fn.labels == map[] && fn.dispatch == RET
    && fn.blocks[ENTRY] == [SetExit(SingleStep), Br(first)]
    && fn.blocks[RET] == [Return] && fn.blocks[TRAP] == [SetExit(TrapExit), Br(RET)]
    && TranslatedAt(fe, fn, first, 0, a, TagContinue in t.tag)
    && (TagContinue in t.tag ==>
          if fe.IsConditional(a) then StoresAt(fn, fn.blocks[first][0].taken, 1, t.nextPc)
          else StoresAt(fn, first, 1, t.nextPc))
  }

  ghost predicate IsStepFor<S(!new), M(!new)>(fe: Frontend<S, M>, fn: Fn, a: Addr) {
    AllFinished(fn.blocks) && exists first :: StepCode(fe, fn, a, first)
  }

  /** More than enough for one instruction. */
  const STEP_FUEL: nat := 10

  /** What single stepping the instruction at `a` in state `s` must come to. */
  ghost predicate SteppedTo<S(!new), M(!new)>(fe: Frontend<S, M>, s: S, a: Addr, s': S, pc': Addr, ret: ExitCode) {
    match Step(fe, s, a)
    case Next(s1, pc1) => s' == s1 && pc' == pc1 && ret == SingleStep
    case Trapped(s1, pc1) => s' == s1 && pc' == pc1 && ret == TrapExit
  }

  lemma HeadingReturns<S(!new), M(!new)>(fe: Frontend<S, M>, fn: Fn, c: Config<S>, pc: Addr)
    returns (k: nat, c': Config<S>)
    requires |fn.blocks| > 2 && fn.labels == map[] && fn.dispatch == RET && Heading(fn, c, pc)
    ensures k <= 2 && Run(fe, fn, c, k) == Running(c') && c' == c.(block := RET, index := 0, pc := pc)
  {
    if c.block == RET && c.pc == pc {
      k, c' := 0, c;
    } else {
      var c1 := Advance(fe, fn, c).c;
      assert Run(fe, fn, c, 1) == Running(c1);
      c' := Advance(fe, fn, c1).c;
      assert Run(fe, fn, c1, 1) == Running(c');
      RunOnwards(fe, fn, c, 1, 1);
      k := 2;
    }
  }

  /** An instruction that falls through, and what is emitted after it. */
  lemma FallThroughRuns<S(!new), M(!new)>(fe: Frontend<S, M>, fn: Fn, a: Addr, c: Config<S>)
    returns (k: nat, c': Config<S>)
    requires fe.WellBehaved(a) && TagContinue in fe.tagInstr(a).tag && StepCode(fe, fn, a, c.block) && c.index == 0
    ensures k <= 5 && Run(fe, fn, c, k) == Running(c') && c'.block == RET && c'.index == 0 && c'.code == c.code
    ensures Step(fe, c.s, a) == Next(c'.s, c'.pc)
  {
    fe.OneKind(a, TagContinue);
    if fe.IsConditional(a) {
      var op := fn.blocks[c.block][0];
      var c1 := c.(block := if fe.cond(a, c.s) then op.taken else op.notTaken);
      assert Run(fe, fn, c, 1) == Running(c1);
      var k1, c2;
      if fe.cond(a, c.s) {
        c' := StoreRuns(fe, fn, a, c1);
        k1 := 3;
      } else {
        k1, c2 := NotTakenRuns(fe, fn, a, c, c1, true);
        var k2;
        k2, c' := HeadingReturns(fe, fn, c2, fe.tagInstr(a).nextPc);
        RunOnwards(fe, fn, c1, k1, k2);
        k1 := k1 + k2;
      }
      RunOnwards(fe, fn, c, 1, k1);
      k := 1 + k1;
    } else {
      c' := StoreRuns(fe, fn, a, c);
      k := 3;
    }
  }

  lemma StoreRuns<S(!new), M(!new)>(fe: Frontend<S, M>, fn: Fn, a: Addr, c: Config<S>)
    returns (c': Config<S>)
    requires HasOp(fn, c.block, 0, Exec(a)) && StoresAt(fn, c.block, 1, fe.tagInstr(a).nextPc) && c.index == 0
    ensures Run(fe, fn, c, 3) == Running(c')
    ensures c' == Config(RET, 0, fe.effect(a, c.s).s, fe.tagInstr(a).nextPc, c.code)
  {
    var c1 := Advance(fe, fn, c).c;
    assert Run(fe, fn, c, 1) == Running(c1);
    var c2 := Advance(fe, fn, c1).c;
    assert Run(fe, fn, c1, 1) == Running(c2);
    RunOnwards(fe, fn, c, 1, 1);
    c' := Advance(fe, fn, c2).c;
    assert Run(fe, fn, c2, 1) == Running(c');
    RunOnwards(fe, fn, c, 2, 1);
  }

  /** The instruction, up to the return block. */
  lemma InstrReturns<S(!new), M(!new)>(fe: Frontend<S, M>, fn: Fn, a: Addr, c: Config<S>)
    returns (k: nat, c': Config<S>)
    requires fe.WellBehaved(a) && StepCode(fe, fn, a, c.block) && c.index == 0 && c.code == SingleStep
    ensures k <= 6 && Run(fe, fn, c, k) == Running(c') && c'.block == RET && c'.index == 0
    ensures SteppedTo(fe, c.s, a, c'.s, c'.pc, c'.code)
  {
    if TagContinue in fe.tagInstr(a).tag {
      k, c' := FallThroughRuns(fe, fn, a, c);
    } else {
      var k1, c1 := LastRuns(fe, fn, a, c);
      var k2;
      k2, c' := ExitReturns(fe, fn, a, c.s, c1);
      RunOnwards(fe, fn, c, k1, k2);
      k := k1 + k2;
    }
  }

  lemma ExitReturns<S(!new), M(!new)>(fe: Frontend<S, M>, fn: Fn, a: Addr, s: S, c: Config<S>)
    returns (k: nat, c': Config<S>)
    requires |fn.blocks| > 2 && fn.labels == map[] && fn.dispatch == RET && c.code == SingleStep
    requires fn.blocks[TRAP] == [SetExit(TrapExit), Br(RET)]
    requires match Step(fe, s, a)
             case Next(s', pc') => c.s == s' && Heading(fn, c, pc')
             case Trapped(s', pc') => c.s == s' && c.pc == pc' && c.block == TRAP && c.index == 0
    ensures k <= 2 && Run(fe, fn, c, k) == Running(c')
    ensures c'.block == RET && c'.index == 0 && SteppedTo(fe, s, a, c'.s, c'.pc, c'.code)
  {
    match Step(fe, s, a)
    case Next(s', pc') =>
      k, c' := HeadingReturns(fe, fn, c, pc');
    case Trapped(s', pc') =>
      var c1 := Advance(fe, fn, c).c;
      assert Run(fe, fn, c, 1) == Running(c1);
      c' := Advance(fe, fn, c1).c;
      assert Run(fe, fn, c1, 1) == Running(c');
      RunOnwards(fe, fn, c, 1, 1);
      k := 2;
  }

  /** The entry block leads to the instruction's. */
  lemma EntryLeads<S(!new), M(!new)>(fe: Frontend<S, M>, fn: Fn, first: BlockId, s: S, pc: Addr)
    requires |fn.blocks| > 2 && fn.blocks[ENTRY] == [SetExit(SingleStep), Br(first)]
    ensures Run(fe, fn, Start(s, pc), 2) == Running(Config(first, 0, s, pc, SingleStep))
  {
    var c0 := Start(s, pc);
    var c1 := Advance(fe, fn, c0).c;
    assert Run(fe, fn, c0, 1) == Running(c1);
    assert Run(fe, fn, c1, 1) == Running(Config(first, 0, s, pc, SingleStep));
    RunOnwards(fe, fn, c0, 1, 1);
  }

  /** The function performs one step of the machine, from the instruction it was made for:
      what PC says when it is called does not matter. */
  lemma StepsOnce<S(!new), M(!new)>(fe: Frontend<S, M>, fn: Fn, a: Addr, s: S, pc: Addr)
    requires fe.WellBehaved(a) && IsStepFor(fe, fn, a)
    ensures var o := Run(fe, fn, Start(s, pc), STEP_FUEL);
      o.Returned? && SteppedTo(fe, s, a, o.s, o.pc, o.code)
  {
    var first :| StepCode(fe, fn, a, first);
    EntryLeads(fe, fn, first, s, pc);
    var k, c := InstrReturns(fe, fn, a, Config(first, 0, s, pc, SingleStep));
    RunOnwards(fe, fn, Start(s, pc), 2, k);
    RunOnwards(fe, fn, Start(s, pc), 2 + k, STEP_FUEL - (2 + k));
    assert fn.blocks[RET][0] == Return;
  }

  /** The instruction at `a` has turned the blocks `found` into `filled`, and, where execution
      continues after it, PC is stored: that makes `linked`. */
  ghost predicate StepFilled<S(!new), M(!new)>(fe: Frontend<S, M>, a: Addr, found: seq<Block>, filled: seq<Block>,
                                               linked: seq<Block>, first: BlockId, cont: Option<BlockId>)
  {
    var t := fe.tagInstr(a);
    && Adds(found, filled, first, cont) && (cont.Some? <==> TagContinue in t.tag)
    && (cont.Some? ==> ContinuesIn(found, filled, t.tag, a, first, cont.value))
    && TranslatedAt(fe, Fn(filled, map[], map[], RET), first, 0, a, TagContinue in t.tag)
    && linked == if cont.Some? && cont.value < |filled|
                 then Appended(filled, cont.value, [StorePc(t.nextPc), Br(RET)]) else filled
  }

  /** All the pieces together make a function for one step. */
  lemma StepComplete<S(!new), M(!new)>(fe: Frontend<S, M>, a: Addr, found: seq<Block>, filled: seq<Block>,
                                       linked: seq<Block>, fn: Fn, first: BlockId, cont: Option<BlockId>)
    requires fe.WellBehaved(a) && first == 3
    requires [[SetExit(SingleStep)], [Return], [SetExit(TrapExit), Br(RET)], []] <= found
    requires forall b | 4 <= b < |found| :: Finished(found[b])
    requires StepFilled(fe, a, found, filled, linked, first, cont)
    requires |linked| > 0 && fn == Fn(Appended(linked, ENTRY, [Br(first)]), map[], map[], RET)
    ensures IsStepFor(fe, fn, a)
  {
    var t := fe.tagInstr(a);
    assert found[0] == [SetExit(SingleStep)] && found[1] == [Return]
           && found[2] == [SetExit(TrapExit), Br(RET)] && found[3] == [];
    if cont.Some? {
      StoreFinishes(found, filled, t.tag, a, first, cont.value, t.nextPc);
    }
    EntryFinishes(linked, fn.blocks, first);
    TranslatedStays(fe, Fn(filled, map[], map[], RET), fn, first, 0, a, TagContinue in t.tag);
    assert StepCode(fe, fn, a, first);
  }

  /** The block execution continues in is ended by storing PC and returning. */
  lemma StoreFinishes(found: seq<Block>, filled: seq<Block>, tag: Tag, a: Addr, first: BlockId, cont: BlockId, pc: Addr)
    requires ContinuesIn(found, filled, tag, a, first, cont)
    ensures Finished(filled[cont] + [StorePc(pc), Br(RET)])
  {
    FinishedByLast(filled[cont] + [StorePc(pc), Br(RET)]);
  }

  /** With the entry block finished, all blocks are. */
  lemma EntryFinishes(linked: seq<Block>, blocks: seq<Block>, first: BlockId)
    requires [[SetExit(SingleStep)], [Return], [SetExit(TrapExit), Br(RET)]] <= linked
    requires forall b | 3 <= b < |linked| :: Finished(linked[b])
    requires blocks == Appended(linked, ENTRY, [Br(first)])
    ensures AllFinished(blocks)
  {
    assert linked[0] == [SetExit(SingleStep)] && linked[1] == [Return] && linked[2] == [SetExit(TrapExit), Br(RET)];
    FinishedByLast(blocks[ENTRY]);
    FinishedByLast(blocks[RET]);
    FinishedByLast(blocks[TRAP]);
  }

  /** The state after `n` instructions, none of which traps, wherever they lie. */
  function Walked<S(!new), M(!new)>(fe: Frontend<S, M>, s: S, pc: Addr, n: nat): Option<(S, Addr)>
    decreases n
  {
    if n == 0 then Some((s, pc))
    else match Step(fe, s, pc)
      case Trapped(_, _) => None
      case Next(s', pc') => Walked(fe, s', pc', n - 1)
  }

  lemma {:induction false} WalkedOnce<S(!new), M(!new)>(fe: Frontend<S, M>, s: S, pc: Addr, n: nat, s1: S, pc1: Addr)
    requires Walked(fe, s, pc, n) == Some((s1, pc1)) && Step(fe, s1, pc1).Next?
    ensures var x := Step(fe, s1, pc1); Walked(fe, s, pc, n + 1) == Some((x.s, x.pc))
    decreases n
  {
    if n > 0 {
      var x := Step(fe, s, pc);
      WalkedOnce(fe, x.s, x.pc, n - 1, s1, pc1);
    }
  }

  class Stepper<S(!new), M(!new)> {
    const fe: Frontend<S, M>
    var m: M
    var pc: Addr
    var functions: seq<Fn>
    var tagsDirty: bool
    /** The addresses the functions were translated for. */
    ghost var origins: seq<Addr>

    ghost predicate Valid()
      reads this
    {
      && (forall a: Addr {:trigger fe.WellBehaved(a)} :: fe.WellBehaved(a))
      && (forall s: S :: fe.load(fe.spill(s)) == s)
      && |origins| == |functions|
      && forall i | 0 <= i < |functions| :: IsStepFor(fe, functions[i], origins[i])
    }

    constructor (fe: Frontend<S, M>, m: M, pc: Addr)
      requires forall a: Addr {:trigger fe.WellBehaved(a)} :: fe.WellBehaved(a)
      requires forall s: S :: fe.load(fe.spill(s)) == s
      ensures Valid() && functions == [] && !tagsDirty && this.fe == fe && this.m == m && this.pc == pc
    {
      this.fe, this.m, this.pc := fe, m, pc;
      functions, tagsDirty, origins := [], false, [];
    }

    method CreateReturnBasicblock(b: Builder<S, M>, newPc: Addr) returns (block: BlockId)
      requires |b.names| == |b.blocks|
      modifies b
      ensures block == |old(b.blocks)| && b.blocks == old(b.blocks) + [[StorePc(newPc), Br(RET)]]
      ensures |b.names| == |b.blocks|
    {
      block := b.CreateBasicblock(Normal(newPc));
      b.EmitStorePcReturn(block, newPc);
      assert b.blocks[block] == [StorePc(newPc), Br(RET)];
      SameBlocks(b.blocks, old(b.blocks) + [[StorePc(newPc), Br(RET)]]);
    }

    /** The blocks the instruction goes to: everywhere execution leaves the function. */
    method CreateTargets(b: Builder<S, M>, pc: Addr) returns (target: BlockId, next: BlockId)
      requires fe.WellBehaved(pc) && |b.names| == |b.blocks|
      modifies b
      ensures old(b.blocks) <= b.blocks && |b.names| == |b.blocks|
      ensures forall i | |old(b.blocks)| <= i < |b.blocks| :: Finished(b.blocks[i])
      ensures var t := fe.tagInstr(pc).tag; var fn := Fn(b.blocks, map[], map[], RET);
        && (t * {TagCall, TagBranch, TagRet} != {} ==> IsTarget(fe, fn, pc, target))
        && (TagConditional in t ==> Reaches(fn, next, fe.tagInstr(pc).nextPc))
    {
      var info := fe.tagInstr(pc);
      TagSays(fe, pc, info.tag, ENTRY);
      target, next := ENTRY, ENTRY;
      if TagRet in info.tag || info.newPc == NEW_PC_NONE {
        target := RET;
      } else if info.tag * {TagCall, TagBranch} != {} {
        target := CreateReturnBasicblock(b, info.newPc);
      }
      if TagConditional in info.tag {
        next := CreateReturnBasicblock(b, info.nextPc);
      }
      assert TagCall in info.tag || TagBranch in info.tag <==> info.tag * {TagCall, TagBranch} != {};
    }

    /** The instruction itself, and where execution continues after it, if it does. */
    method TranslateStep(b: Builder<S, M>, pc: Addr, target: BlockId, next: BlockId, first: BlockId)
      requires fe.WellBehaved(pc) && b.fe == fe && |b.names| == |b.blocks| && first == 3
      requires [[SetExit(SingleStep)], [Return], [SetExit(TrapExit), Br(RET)], []] <= b.blocks
      requires forall i | 4 <= i < |b.blocks| :: Finished(b.blocks[i])
      requires var t := fe.tagInstr(pc).tag; var fn := Fn(b.blocks, map[], map[], RET);
        && (t * {TagCall, TagBranch, TagRet} != {} ==> IsTarget(fe, fn, pc, target))
        && (TagConditional in t ==> Reaches(fn, next, fe.tagInstr(pc).nextPc))
      modifies b
      ensures IsStepFor(fe, Fn(b.blocks, map[], map[], RET), pc)
    {
      ghost var found := b.blocks;
      assert found[ENTRY] == [SetExit(SingleStep)] && found[first] == [];
      ghost var filled, cont := FillStep(b, pc, target, next, first);
      ghost var linked := b.blocks;
      b.Emit(ENTRY, Br(first));
      StepComplete(fe, pc, found, filled, linked, Fn(b.blocks, map[], map[], RET), first, cont);
    }

    method FillStep(b: Builder<S, M>, pc: Addr, target: BlockId, next: BlockId, first: BlockId)
      returns (ghost filled: seq<Block>, ghost cont: Option<BlockId>)
      requires fe.WellBehaved(pc) && b.fe == fe && |b.names| == |b.blocks|
      requires first < |b.blocks| && b.blocks[first] == []
      requires var t := fe.tagInstr(pc).tag; var fn := Fn(b.blocks, map[], map[], RET);
        && (t * {TagCall, TagBranch, TagRet} != {} ==> IsTarget(fe, fn, pc, target))
        && (TagConditional in t ==> Reaches(fn, next, fe.tagInstr(pc).nextPc))
      modifies b
      ensures StepFilled(fe, pc, old(b.blocks), filled, b.blocks, first, cont)
    {
      var info := fe.tagInstr(pc);
      TagSays(fe, pc, info.tag, ENTRY);
      InstrBlocksAdd(fe, b.blocks, b.blocks, pc, info.tag, target, next, first);
      InstrBlocksTranslate(fe, Fn(b.blocks, map[], map[], RET), pc, info.tag, target, next, first);
      var open := b.TranslateInstr(pc, info.tag, target, next, first);
      filled, cont := b.blocks, open;
      if open.Some? {
        b.EmitStorePcReturn(open.value, info.nextPc);
      }
    }

    /** `cpu_translate_singlestep`, within `cpu_translate_function`. */
    method TranslateFunction()
      requires Valid()
      modifies `functions, `origins
      ensures Valid() && old(functions) <= functions && origins == old(origins) + [pc]
    {
      assert fe.WellBehaved(pc);
      var b := new Builder(fe, Area(0, 0), SingleStep);
      var first := b.CreateBasicblock(Standard);
      var target, next := CreateTargets(b, pc);
      TranslateStep(b, pc, target, next, first);
      functions, origins := functions + [Fn(b.blocks, map[], map[], RET)], origins + [pc];
    }

    /** `cpu_translate`. */
    method Translate()
      requires Valid()
      modifies `functions, `origins, `tagsDirty
      ensures Valid() && !tagsDirty && old(functions) <= functions
      ensures origins == if old(tagsDirty) then old(origins) + [pc] else old(origins)
    {
      if tagsDirty {
        TranslateFunction();
      }
      tagsDirty := false;
    }

    /** `cpu_run`. With no function left over from an earlier call, it performs exactly the
        instruction PC points to; otherwise it repeats the one the oldest function was made
        for, wherever PC points. */
    method Run() returns (ret: ExitCode)
      requires Valid()
      modifies this
      ensures Valid() && functions != [] && m == fe.spill(fe.load(m))
      ensures SteppedTo(fe, fe.load(old(m)), if old(functions) == [] then old(pc) else old(origins[0]),
                        fe.load(m), pc, ret)
    {
      while true
        invariant Valid() && m == old(m) && pc == old(pc)
        invariant old(functions) <= functions && old(origins) <= origins
        invariant functions != [] && old(functions) == [] ==> origins[0] == pc
        decreases functions == [] && !tagsDirty
      {
        Translate();
        // The first call never returns FUNCNOTFOUND, so no other function is ever tried.
        if functions != [] {
          StepsOnce(fe, functions[0], origins[0], fe.load(m), pc);
          var o := Ir.Run(fe, functions[0], Start(fe.load(m), pc), STEP_FUEL);
          m, pc, ret := fe.spill(o.s), o.pc, o.code;
          return;
        }
        tagsDirty := true;
      }
    }

    method Flush()
      requires Valid()
      modifies `functions, `origins
      ensures Valid() && functions == []
    {
      functions, origins := [], [];
    }

    /** The debugger's step command, given again and again: run, flush, and stop when an
        instruction traps. */
    method StepTimes(n: nat) returns (done: nat, ret: ExitCode)
      requires Valid() && functions == []
      modifies this
      ensures Valid() && functions == [] && (n > 0 ==> m == fe.spill(fe.load(m)))
      ensures done <= n && (ret == SingleStep ==> done == n)
      ensures ret == SingleStep ==> Walked(fe, fe.load(old(m)), old(pc), n) == Some((fe.load(m), pc))
      ensures ret != SingleStep ==>
        && Walked(fe, fe.load(old(m)), old(pc), done).Some?
        && var (s1, pc1) := Walked(fe, fe.load(old(m)), old(pc), done).value;
           Step(fe, s1, pc1) == Trapped(fe.load(m), pc)
    {
      done, ret := 0, SingleStep;
      while done < n
        invariant Valid() && functions == [] && done <= n && ret == SingleStep
        invariant done > 0 ==> m == fe.spill(fe.load(m))
        invariant Walked(fe, fe.load(old(m)), old(pc), done) == Some((fe.load(m), pc))
      {
        ghost var s1, pc1 := fe.load(m), pc;
        ret := Run();
        Flush();
        if ret != SingleStep {
          return;
        }
        WalkedOnce(fe, fe.load(old(m)), old(pc), done, s1, pc1);
        done := done + 1;
      }
    }
  }
}
