/** Running a translated function performs instructions of the one-instruction machine: no
    more, no fewer, and no others. */
module Simulation {
  import opened Guest
  import opened Ir
  import opened Translate

  /** An upper bound on the steps of translated code `r` guest instructions take, not
      counting the call and the return. */
  function Cost(r: nat): nat {
    8 * r
  }

  /** Execution has been directed at guest address `pc`. */
  ghost predicate Heading<S(!new)>(fn: Fn, c: Config<S>, pc: Addr) {
    c.index == 0 && ((c.block == fn.dispatch && c.pc == pc) || Reaches(fn, c.block, pc))
  }

  /** Execution has arrived at guest address `pc`: at its block, or, when the function has
      none for it, at the return block, with PC telling where to go on. */
  ghost predicate Arrived<S(!new)>(fn: Fn, c: Config<S>, pc: Addr) {
    c.index == 0 && if pc in fn.labels then c.block == fn.labels[pc] else c.block == RET && c.pc == pc
  }

  /** What `r` instructions from `pc` have made of state `s`: arrived somewhere, or trapped. */
  ghost predicate Performed<S(!new), M(!new)>(fe: Frontend<S, M>, area: Area, fn: Fn, s: S, pc: Addr, code: ExitCode,
                                              r: nat, c: Config<S>)
  {
    || (Steps(fe, area, s, pc, r).Some? && Steps(fe, area, s, pc, r).value.0 == c.s && c.code == code
        && Arrived(fn, c, Steps(fe, area, s, pc, r).value.1))
    || (r > 0 && TrapsAfter(fe, area, s, pc, r - 1, c.s, c.pc) && c.code == TrapExit && c.block == RET && c.index == 0)
  }

  /** After `r` instructions the next one traps, leaving `s'` and `pc'`. */
  ghost predicate TrapsAfter<S(!new), M(!new)>(fe: Frontend<S, M>, area: Area, s: S, pc: Addr, r: nat, s': S,
                                               pc': Addr)
  {
    && Steps(fe, area, s, pc, r).Some?
    && var (s1, pc1) := Steps(fe, area, s, pc, r).value;
       area.Contains(pc1) && Step(fe, s1, pc1) == Trapped(s', pc')
  }

  /** The plain instructions at the start of a block. */
  lemma {:induction false} PlainRuns<S(!new), M(!new)>(fe: Frontend<S, M>, area: Area, fn: Fn, b: BlockId, a: Addr,
                                                       n: nat, i: nat, c: Config<S>)
    returns (c': Config<S>)
    requires StartsPlain(fe, area, fn, b, a, n) && i <= n
    requires c.block == b && c.index == 0
    ensures Run(fe, fn, c, i) == Running(c')
    ensures c'.block == b && c'.index == i && c'.code == c.code
    ensures Steps(fe, area, c.s, a, i) == Some((c'.s, Nth(fe, a, i)))
  {
    if i == 0 {
      c' := c;
    } else {
      var c1 := PlainRuns(fe, area, fn, b, a, n, i - 1, c);
      var pc := Nth(fe, a, i - 1);
      assert HasOp(fn, b, i - 1, Exec(pc));
      assert IsPlain(fe, pc) && area.Contains(pc);
      assert Step(fe, c1.s, pc) == Next(fe.effect(pc, c1.s).s, fe.tagInstr(pc).nextPc) by {
        PlainSteps(fe, c1.s, pc);
      }
      c' := Advance(fe, fn, c1).c;
      RunOnwards(fe, fn, c, i - 1, 1);
      assert Run(fe, fn, c1, 1) == Running(c');
      StepsThenSteps(fe, area, c.s, a, i - 1, 1);
      assert Steps(fe, area, c1.s, pc, 1) == Some((c'.s, fe.tagInstr(pc).nextPc));
    }
  }

  lemma PlainSteps<S(!new), M(!new)>(fe: Frontend<S, M>, s: S, pc: Addr)
    requires IsPlain(fe, pc)
    ensures Step(fe, s, pc) == Next(fe.effect(pc, s).s, fe.tagInstr(pc).nextPc)
  {
    var t := fe.tagInstr(pc).tag;
    assert forall b | b in INSTR_BITS - {TagContinue} :: b !in t by {
      forall b | b in INSTR_BITS - {TagContinue}
        ensures b !in t
      {
        assert b in t ==> b in t * (INSTR_BITS - {TagContinue});
      }
    }
  }

  /** The last instruction of a block. */
  lemma LastRuns<S(!new), M(!new)>(fe: Frontend<S, M>, fn: Fn, pc: Addr, c: Config<S>)
    returns (k: nat, c': Config<S>)
    requires fe.WellBehaved(pc) && TranslatedAt(fe, fn, c.block, c.index, pc, false)
    ensures 1 <= k <= 4 && Run(fe, fn, c, k) == Running(c') && c'.code == c.code
    ensures match Step(fe, c.s, pc)
            case Next(s', pc') => c'.s == s' && Heading(fn, c', pc')
            case Trapped(s', pc') => c'.s == s' && c'.pc == pc' && c'.block == TRAP && c'.index == 0
  {
    if fe.IsConditional(pc) {
      var op := fn.blocks[c.block][c.index];
      var c1 := c.(block := if fe.cond(pc, c.s) then op.taken else op.notTaken, index := 0);
      assert Run(fe, fn, c, 1) == Running(c1);
      if fe.cond(pc, c.s) {
        k, c' := BodyRuns(fe, fn, pc, c1);
        RunOnwards(fe, fn, c, 1, k);
        k := 1 + k;
      } else {
        k, c' := NotTakenRuns(fe, fn, pc, c, c1, false);
        RunOnwards(fe, fn, c, 1, k);
        k := 1 + k;
      }
    } else {
      k, c' := BodyRuns(fe, fn, pc, c);
    }
  }

  lemma BodyRuns<S(!new), M(!new)>(fe: Frontend<S, M>, fn: Fn, pc: Addr, c: Config<S>)
    returns (k: nat, c': Config<S>)
    requires fe.WellBehaved(pc) && ExecutesAt(fe, fn, c.block, c.index, pc, false)
    ensures 1 <= k <= 3 && Run(fe, fn, c, k) == Running(c') && c'.code == c.code
    ensures match Execute(fe, c.s, pc)
            case Next(s', pc') => c'.s == s' && Heading(fn, c', pc')
            case Trapped(s', pc') => c'.s == s' && c'.pc == pc' && c'.block == TRAP && c'.index == 0
  {
    var c1 := Advance(fe, fn, c).c;
    assert Run(fe, fn, c, 1) == Running(c1);
    if fe.HasDelaySlot(pc) {
      var c2 := Advance(fe, fn, c1).c;
      assert Run(fe, fn, c1, 1) == Running(c2);
      assert c2.pc == c1.pc;
      RunOnwards(fe, fn, c, 1, 1);
      c' := Advance(fe, fn, c2).c;
      assert Run(fe, fn, c2, 1) == Running(c');
      RunOnwards(fe, fn, c, 2, 1);
      k := 3;
    } else {
      c' := Advance(fe, fn, c1).c;
      assert Run(fe, fn, c1, 1) == Running(c');
      RunOnwards(fe, fn, c, 1, 1);
      k := 2;
    }
  }

  lemma NotTakenRuns<S(!new), M(!new)>(fe: Frontend<S, M>, fn: Fn, pc: Addr, c: Config<S>, c1: Config<S>, open: bool)
    returns (k: nat, c': Config<S>)
    requires TranslatedAt(fe, fn, c.block, c.index, pc, open) && fe.IsConditional(pc) && !fe.cond(pc, c.s)
    requires c1 == c.(block := fn.blocks[c.block][c.index].notTaken, index := 0)
    ensures k <= 2 && Run(fe, fn, c1, k) == Running(c') && c'.code == c.code
    ensures Step(fe, c.s, pc) == Next(c'.s, fe.tagInstr(pc).nextPc)
    ensures Heading(fn, c', fe.tagInstr(pc).nextPc)
  {
    if fe.HasDelaySlot(pc) {
      var c2 := Advance(fe, fn, c1).c;
      assert Run(fe, fn, c1, 1) == Running(c2);
      c' := Advance(fe, fn, c2).c;
      assert Run(fe, fn, c2, 1) == Running(c');
      RunOnwards(fe, fn, c1, 1, 1);
      k := 2;
    } else {
      k, c' := 0, c1;
    }
  }

  /** Wherever execution has been directed, it gets there. */
  lemma HeadingArrives<S(!new), M(!new)>(fe: Frontend<S, M>, fn: Fn, c: Config<S>, pc: Addr)
    returns (k: nat, c': Config<S>)
    requires WellFormed(fn) && Heading(fn, c, pc)
    ensures k <= 2 && Run(fe, fn, c, k) == Running(c') && Arrived(fn, c', pc)
    ensures c'.s == c.s && c'.code == c.code
  {
    if c.block == fn.dispatch && c.pc == pc {
      assert fn.blocks[fn.dispatch][0] == Switch(RET);
      c' := Advance(fe, fn, c).c;
      assert Run(fe, fn, c, 1) == Running(c');
      k := 1;
    } else if pc in fn.labels {
      k, c' := 0, c;
    } else {
      var c1 := Advance(fe, fn, c).c;
      assert Run(fe, fn, c, 1) == Running(c1);
      c' := Advance(fe, fn, c1).c;
      assert Run(fe, fn, c1, 1) == Running(c');
      RunOnwards(fe, fn, c, 1, 1);
      k := 2;
    }
  }

  lemma TrapReturns<S(!new), M(!new)>(fe: Frontend<S, M>, fn: Fn, c: Config<S>)
    returns (c': Config<S>)
    requires WellFormed(fn) && c.block == TRAP && c.index == 0
    ensures Run(fe, fn, c, 2) == Running(c') && c' == c.(block := RET, index := 0, code := TrapExit)
  {
    var c1 := Advance(fe, fn, c).c;
    assert Run(fe, fn, c, 1) == Running(c1);
    c' := Advance(fe, fn, c1).c;
    assert Run(fe, fn, c1, 1) == Running(c');
    RunOnwards(fe, fn, c, 1, 1);
  }

  /** What one instruction, at `pc` in state `s`, has led to. */
  ghost predicate Led<S(!new)>(fn: Fn, x: Stepped<S>, code: ExitCode, c: Config<S>) {
    c.s == x.s && c.index == 0 &&
    match x
    case Next(_, pc') => c.code == code && Arrived(fn, c, pc')
    case Trapped(_, pc') => c.pc == pc' && c.code == TrapExit && c.block == RET
  }

  lemma LastLeads<S(!new), M(!new)>(fe: Frontend<S, M>, fn: Fn, pc: Addr, c: Config<S>)
    returns (k: nat, c': Config<S>)
    requires WellFormed(fn) && fe.WellBehaved(pc) && TranslatedAt(fe, fn, c.block, c.index, pc, false)
    ensures 1 <= k <= 6 && Run(fe, fn, c, k) == Running(c')
    ensures Led(fn, Step(fe, c.s, pc), c.code, c')
  {
    var k1, c1 := LastRuns(fe, fn, pc, c);
    match Step(fe, c.s, pc)
    case Next(s', pc') =>
      var k2;
      k2, c' := HeadingArrives(fe, fn, c1, pc');
      RunOnwards(fe, fn, c, k1, k2);
      k := k1 + k2;
    case Trapped(s', pc') =>
      c' := TrapReturns(fe, fn, c1);
      RunOnwards(fe, fn, c, k1, 2);
      k := k1 + 2;
  }

  lemma LedPerformed<S(!new), M(!new)>(fe: Frontend<S, M>, area: Area, fn: Fn, s: S, pc: Addr, code: ExitCode, n: nat,
                                       s1: S, pc1: Addr, c: Config<S>)
    requires Steps(fe, area, s, pc, n) == Some((s1, pc1)) && area.Contains(pc1)
    requires Led(fn, Step(fe, s1, pc1), code, c)
    ensures Performed(fe, area, fn, s, pc, code, n + 1, c)
  {
    StepsThenSteps(fe, area, s, pc, n, 1);
    if Step(fe, s1, pc1).Next? {
      assert Steps(fe, area, s1, pc1, 1) == Some((c.s, Step(fe, s1, pc1).pc));
    } else {
      assert TrapsAfter(fe, area, s, pc, n, c.s, c.pc);
    }
  }

  /** None of the first `r` instructions is at an address in `avoid`. */
  ghost predicate KeepsOff<S(!new), M(!new)>(fe: Frontend<S, M>, area: Area, s: S, pc: Addr, r: nat, avoid: set<Addr>) {
    forall j: nat | j < r && Steps(fe, area, s, pc, j).Some? :: Steps(fe, area, s, pc, j).value.1 !in avoid
  }

  lemma KeepsOffOnwards<S(!new), M(!new)>(fe: Frontend<S, M>, area: Area, s: S, pc: Addr, r: nat, r': nat,
                                          avoid: set<Addr>)
    requires Steps(fe, area, s, pc, r).Some? && KeepsOff(fe, area, s, pc, r, avoid)
    requires var (s1, pc1) := Steps(fe, area, s, pc, r).value; KeepsOff(fe, area, s1, pc1, r', avoid)
    ensures KeepsOff(fe, area, s, pc, r + r', avoid)
  {
    var (s1, pc1) := Steps(fe, area, s, pc, r).value;
    forall j: nat | j < r + r' && Steps(fe, area, s, pc, j).Some?
      ensures Steps(fe, area, s, pc, j).value.1 !in avoid
    {
      if r <= j {
        StepsThenSteps(fe, area, s, pc, r, j - r);
        assert Steps(fe, area, s1, pc1, j - r).Some?;
      }
    }
  }

  /** The instructions of a block are at its label and inside it. */
  lemma BlockKeepsOff<S(!new), M(!new)>(fe: Frontend<S, M>, area: Area, fn: Fn, a: Addr, n: nat, c: Config<S>,
                                        avoid: set<Addr>)
    requires StartsPlain(fe, area, fn, c.block, a, n) && c.index == 0
    requires a !in avoid && InsideAvoids(fe, a, n, avoid)
    ensures KeepsOff(fe, area, c.s, a, n + 1, avoid)
  {
    forall j: nat | j < n + 1 && Steps(fe, area, c.s, a, j).Some?
      ensures Steps(fe, area, c.s, a, j).value.1 !in avoid
    {
      var c' := PlainRuns(fe, area, fn, c.block, a, n, j, c);
      assert Nth(fe, a, j) !in avoid;
    }
  }

  /** One block performs at least one instruction, and no more steps than that costs. */
  lemma BlockRuns<S(!new), M(!new)>(fe: Frontend<S, M>, area: Area, fn: Fn, a: Addr, n: nat, c: Config<S>)
    returns (k: nat, c': Config<S>)
    requires Contract(fe, area) && WellFormed(fn)
    requires BlockOf(fe, area, fn, c.block, a, n) && c.index == 0
    ensures n + 1 <= k <= n + 6 && Run(fe, fn, c, k) == Running(c')
    ensures Performed(fe, area, fn, c.s, a, c.code, n + 1, c')
  {
    var c1 := PlainRuns(fe, area, fn, c.block, a, n, n, c);
    var last := Nth(fe, a, n);
    var k1;
    k1, c' := LastLeads(fe, fn, last, c1);
    RunOnwards(fe, fn, c, n, k1);
    k := n + k1;
    LedPerformed(fe, area, fn, c.s, a, c.code, n, c1.s, last, c');
  }

  /** What running for `fuel` steps can come to, when `r` instructions are performed, at no
      more than Cost steps each and `extra` besides. */
  ghost predicate Outcomes<S(!new), M(!new)>(fe: Frontend<S, M>, area: Area, fn: Fn, s: S, pc: Addr, fuel: nat,
                                             extra: nat, o: Outcome<S>, r: nat)
  {
    match o
    case Running(_) => fuel <= Cost(r) + extra && Steps(fe, area, s, pc, r).Some?
    case Returned(s', pc', code, left) =>
      && fuel - left <= Cost(r) + extra
      && if code == TrapExit then r > 0 && TrapsAfter(fe, area, s, pc, r - 1, s', pc')
         else code == FuncNotFound && Steps(fe, area, s, pc, r) == Some((s', pc')) && pc' !in fn.labels
    case Broken => false
  }

  /** At the return block there is nothing left but to return. */
  lemma RetReturns<S(!new), M(!new)>(fe: Frontend<S, M>, fn: Fn, c: Config<S>, fuel: nat)
    requires WellFormed(fn) && c.block == RET && c.index == 0
    ensures Run(fe, fn, c, fuel) == if fuel == 0 then Running(c) else Returned(c.s, c.pc, c.code, fuel - 1)
  {
    assert fn.blocks[RET][0] == Return;
  }

  lemma FirstBlockRuns<S(!new), M(!new)>(fe: Frontend<S, M>, area: Area, fn: Fn, avoid: set<Addr>, a: Addr,
                                         c: Config<S>)
    returns (n: nat, k: nat, c': Config<S>)
    requires Contract(fe, area) && Compiled(fe, area, fn, avoid) && fn.labels.Keys !! avoid
    requires a in fn.labels && Arrived(fn, c, a)
    ensures n + 1 <= k <= n + 6 && Run(fe, fn, c, k) == Running(c')
    ensures Performed(fe, area, fn, c.s, a, c.code, n + 1, c')
    ensures KeepsOff(fe, area, c.s, a, n + 1, avoid)
  {
    assert HasBlock(fe, area, fn, a, avoid);
    n :| BlockOf(fe, area, fn, fn.labels[a], a, n) && InsideAvoids(fe, a, n, avoid);
    k, c' := BlockRuns(fe, area, fn, a, n, c);
    assert a in fn.labels.Keys;
    BlockKeepsOff(fe, area, fn, a, n, c, avoid);
  }

  /** Those outcomes, of instructions that keep off `avoid`; a call that returns has performed
      some exactly if it was for a label. */
  ghost predicate Ran<S(!new), M(!new)>(fe: Frontend<S, M>, area: Area, fn: Fn, avoid: set<Addr>, s: S, pc: Addr,
                                        fuel: nat, extra: nat, o: Outcome<S>, r: nat)
  {
    && Outcomes(fe, area, fn, s, pc, fuel, extra, o, r)
    && (o.Returned? ==> (pc in fn.labels <==> r > 0))
    && KeepsOff(fe, area, s, pc, r, avoid)
  }

  /** The fuel runs out in the first block. */
  lemma CutShort<S(!new), M(!new)>(fe: Frontend<S, M>, area: Area, fn: Fn, avoid: set<Addr>, s: S, a: Addr,
                                   code: ExitCode, n: nat, c1: Config<S>, fuel: nat, o: Outcome<S>)
    requires Performed(fe, area, fn, s, a, code, n + 1, c1) && KeepsOff(fe, area, s, a, n + 1, avoid)
    requires fuel < n + 6 && o.Running?
    ensures Ran(fe, area, fn, avoid, s, a, fuel, 6, o, n)
  {
    SomeSteps(fe, area, fn, s, a, code, n + 1, c1);
  }

  /** The first block ends in a trap. */
  lemma HasTrapped<S(!new), M(!new)>(fe: Frontend<S, M>, area: Area, fn: Fn, avoid: set<Addr>, s: S, a: Addr,
                                     n: nat, c1: Config<S>, fuel: nat, fuel': nat, o: Outcome<S>)
    requires Performed(fe, area, fn, s, a, FuncNotFound, n + 1, c1) && c1.code == TrapExit && a in fn.labels
    requires KeepsOff(fe, area, s, a, n + 1, avoid) && fuel' <= fuel <= fuel' + n + 6
    requires o == if fuel' == 0 then Running(c1) else Returned(c1.s, c1.pc, c1.code, fuel' - 1)
    ensures Ran(fe, area, fn, avoid, s, a, fuel, 6, o, if fuel' == 0 then n else n + 1)
  {
  }

  /** The first of the blocks: either that is all, and `r` instructions are performed, or
      running goes on at `pc1`, after `r` instructions, with less fuel. */
  lemma FirstOfBlocks<S(!new), M(!new)>(fe: Frontend<S, M>, area: Area, fn: Fn, avoid: set<Addr>,
                                        a: Addr, c: Config<S>, fuel: nat)
    returns (all: bool, r: nat, fuel': nat, c1: Config<S>, pc1: Addr)
    requires Contract(fe, area) && Compiled(fe, area, fn, avoid) && fn.labels.Keys !! avoid
    requires a in fn.labels && Arrived(fn, c, a) && c.code == FuncNotFound
    ensures all ==> Ran(fe, area, fn, avoid, c.s, a, fuel, 6, Run(fe, fn, c, fuel), r)
    ensures !all ==> fuel' < fuel <= fuel' + Cost(r) && Run(fe, fn, c, fuel) == Run(fe, fn, c1, fuel')
    ensures !all ==> r > 0 && Steps(fe, area, c.s, a, r) == Some((c1.s, pc1)) && KeepsOff(fe, area, c.s, a, r, avoid)
    ensures !all ==> Arrived(fn, c1, pc1) && c1.code == FuncNotFound
  {
    var n, k;
    n, k, c1 := FirstBlockRuns(fe, area, fn, avoid, a, c);
    all, r, fuel', pc1 := true, n, 0, a;
    if fuel < k {
      StillRunning(fe, fn, c, k, fuel);
      CutShort(fe, area, fn, avoid, c.s, a, c.code, n, c1, fuel, Run(fe, fn, c, fuel));
    } else {
      RunOnwards(fe, fn, c, k, fuel - k);
      if c1.code == TrapExit {
        RetReturns(fe, fn, c1, fuel - k);
        r := if fuel == k then n else n + 1;
        HasTrapped(fe, area, fn, avoid, c.s, a, n, c1, fuel, fuel - k, Run(fe, fn, c, fuel));
      } else {
        all, r, fuel', pc1 := false, n + 1, fuel - k, Steps(fe, area, c.s, a, n + 1).value.1;
      }
    }
  }

  /** Any number of blocks, by way of the dispatch switch and of direct branches. */
  lemma {:induction false} BlocksRun<S(!new), M(!new)>(fe: Frontend<S, M>, area: Area, fn: Fn, avoid: set<Addr>,
                                                      a: Addr, c: Config<S>, fuel: nat)
    returns (r: nat)
    requires Contract(fe, area) && Compiled(fe, area, fn, avoid) && fn.labels.Keys !! avoid
    requires Arrived(fn, c, a) && c.code == FuncNotFound
    ensures Ran(fe, area, fn, avoid, c.s, a, fuel, 6, Run(fe, fn, c, fuel), r)
    decreases fuel
  {
    if a !in fn.labels {
      RetReturns(fe, fn, c, fuel);
      r := 0;
    } else {
      var all, fuel', c1, pc1;
      all, r, fuel', c1, pc1 := FirstOfBlocks(fe, area, fn, avoid, a, c, fuel);
      if !all {
        var r' := BlocksRun(fe, area, fn, avoid, pc1, c1, fuel');
        RanOnwards(fe, area, fn, avoid, c.s, a, r, c1.s, pc1, fuel, fuel', Run(fe, fn, c, fuel), r');
        r := r + r';
      }
    }
  }

  lemma SomeSteps<S(!new), M(!new)>(fe: Frontend<S, M>, area: Area, fn: Fn, s: S, pc: Addr, code: ExitCode, r: nat,
                                    c: Config<S>)
    requires r > 0 && Performed(fe, area, fn, s, pc, code, r, c)
    ensures Steps(fe, area, s, pc, r - 1).Some?
  {
    if Steps(fe, area, s, pc, r).Some? {
      FewerSteps(fe, area, s, pc, r);
    }
  }

  lemma {:induction false} FewerSteps<S(!new), M(!new)>(fe: Frontend<S, M>, area: Area, s: S, pc: Addr, r: nat)
    requires r > 0 && Steps(fe, area, s, pc, r).Some?
    ensures Steps(fe, area, s, pc, r - 1).Some?
    decreases r
  {
    if r > 1 {
      var x := Step(fe, s, pc);
      FewerSteps(fe, area, x.s, x.pc, r - 1);
    }
  }

  /** The first block leads to another one, and running goes on there. */
  lemma RanOnwards<S(!new), M(!new)>(fe: Frontend<S, M>, area: Area, fn: Fn, avoid: set<Addr>, s: S, pc: Addr, r: nat,
                                     s1: S, pc1: Addr, fuel: nat, fuel': nat, o: Outcome<S>, r': nat)
    requires Steps(fe, area, s, pc, r) == Some((s1, pc1)) && fuel' <= fuel <= fuel' + Cost(r)
    requires KeepsOff(fe, area, s, pc, r, avoid) && pc in fn.labels && r > 0
    requires Ran(fe, area, fn, avoid, s1, pc1, fuel', 6, o, r')
    ensures Ran(fe, area, fn, avoid, s, pc, fuel, 6, o, r + r')
  {
    StepsThenSteps(fe, area, s, pc, r, r');
    if o.Returned? && o.code == TrapExit {
      StepsThenSteps(fe, area, s, pc, r, r' - 1);
    }
    KeepsOffOnwards(fe, area, s, pc, r, r', avoid);
  }

  /** The steps from the entry block to the dispatch switch and past it. */
  lemma EntryRuns<S(!new), M(!new)>(fe: Frontend<S, M>, fn: Fn, s: S, pc: Addr)
    returns (c: Config<S>)
    requires WellFormed(fn)
    ensures Run(fe, fn, Start(s, pc), 3) == Running(c)
    ensures Arrived(fn, c, pc) && c.s == s && c.code == FuncNotFound
  {
    var c1 := Advance(fe, fn, Start(s, pc)).c;
    assert Run(fe, fn, Start(s, pc), 1) == Running(c1);
    var c2 := Advance(fe, fn, c1).c;
    assert Run(fe, fn, c1, 1) == Running(c2);
    RunOnwards(fe, fn, Start(s, pc), 1, 1);
    assert fn.blocks[fn.dispatch][0] == Switch(RET);
    c := Advance(fe, fn, c2).c;
    assert Run(fe, fn, c2, 1) == Running(c);
    RunOnwards(fe, fn, Start(s, pc), 2, 1);
  }

  /** Whole-run simulation. Whatever state and PC a translated function is called with, it
      never gets stuck; while it runs it performs instructions of the one-instruction
      machine; when it returns FUNCNOTFOUND, state and PC are the machine's, the pc is none
      of the function's labels, and some instruction has been performed exactly if the call
      was for one of them; when it returns TRAP, the machine's next instruction traps. None
      of these instructions is at an address the function was made to avoid. */
  lemma FunctionSimulates<S(!new), M(!new)>(fe: Frontend<S, M>, area: Area, fn: Fn, avoid: set<Addr>,
                                            s: S, pc: Addr, fuel: nat)
    returns (r: nat)
    requires Contract(fe, area) && Compiled(fe, area, fn, avoid) && fn.labels.Keys !! avoid
    ensures Ran(fe, area, fn, avoid, s, pc, fuel, 9, Run(fe, fn, Start(s, pc), fuel), r)
  {
    var c := EntryRuns(fe, fn, s, pc);
    if fuel < 3 {
      StillRunning(fe, fn, Start(s, pc), 3, fuel);
      r := 0;
    } else {
      RunOnwards(fe, fn, Start(s, pc), 3, fuel - 3);
      r := BlocksRun(fe, area, fn, avoid, pc, c, fuel - 3);
    }
  }

  /** A call that comes back looking for another function has left the address it was made
      for exactly if the function has a label there; otherwise it has done nothing. */
  lemma LeavesItsLabels<S(!new), M(!new)>(fe: Frontend<S, M>, area: Area, fn: Fn, s: S, pc: Addr, fuel: nat)
    requires Contract(fe, area) && Compiled(fe, area, fn, {})
    requires Run(fe, fn, Start(s, pc), fuel).Returned? && Run(fe, fn, Start(s, pc), fuel).code == FuncNotFound
    ensures var o := Run(fe, fn, Start(s, pc), fuel);
      && o.pc !in fn.labels
      && (o.pc != pc <==> pc in fn.labels)
      && (pc !in fn.labels ==> o.s == s)
  {
    var r := FunctionSimulates(fe, area, fn, {}, s, pc, fuel);
  }

  /** Given enough fuel, a translated function returns, unless the guest never leaves the
      function's code: as long as it has not returned, the machine has not left the area. */
  lemma NeverIdle<S(!new), M(!new)>(fe: Frontend<S, M>, area: Area, fn: Fn, s: S, pc: Addr, n: nat)
    requires Contract(fe, area) && Compiled(fe, area, fn, {})
    requires Until(fe, area, s, pc, n).Some?
    ensures Run(fe, fn, Start(s, pc), Cost(n) + 10).Returned?
  {
    var r := FunctionSimulates(fe, area, fn, {}, s, pc, Cost(n) + 10);
    if Run(fe, fn, Start(s, pc), Cost(n) + 10).Running? {
      StepsMeansNotYet(fe, area, s, pc, r, n);
    }
  }
}
