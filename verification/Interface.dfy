/** The run/miss/tag/translate loop (`libcpu/interface.cpp`). */
module Interface {
  import opened Guest
  import opened Ir
  import opened Tagging
  import opened Translate
  import opened Simulation

  // ---------- who owns which label ----------

  ghost predicate OwnedBy(functions: seq<Fn>, i: nat, a: Addr) {
    i < |functions| && a in functions[i].labels
  }

  ghost predicate Owned(functions: seq<Fn>, a: Addr) {
    exists i :: OwnedBy(functions, i, a)
  }

  ghost predicate OneOf(functions: seq<Fn>, i: nat, fn: Fn) {
    i < |functions| && functions[i] == fn
  }

  /** The addresses that are marked as translated although no function has a label there. */
  ghost function Lost(area: Area, tags: seq<Tag>, functions: seq<Fn>): set<Addr> {
    set a: Addr | area.lo <= a < area.hi && TagTranslated in TagAt(area, tags, a) && !Owned(functions, a)
  }

  ghost function Unowned(area: Area, tags: seq<Tag>): set<Addr> {
    set a: Addr | area.lo <= a < area.hi && TagTranslated !in TagAt(area, tags, a)
  }

  /** Every function is right and runs into no lost address; labels are marked as translated
      and belong to one function only; and all that is marked is the start of a block. */
  ghost predicate Ownership<S(!new), M(!new)>(fe: Frontend<S, M>, area: Area, tags: seq<Tag>, functions: seq<Fn>) {
    && (forall i | 0 <= i < |functions| :: Compiled(fe, area, functions[i], Lost(area, tags, functions)))
    && (forall a: Addr :: Owned(functions, a) ==> TagTranslated in TagAt(area, tags, a))
    && (forall a: Addr :: TagTranslated in TagAt(area, tags, a) ==> IsStart(TagAt(area, tags, a)))
    && (forall i, j, a :: OwnedBy(functions, i, a) && OwnedBy(functions, j, a) ==> i == j)
  }

  lemma LabelsAreNotLost(area: Area, tags: seq<Tag>, functions: seq<Fn>, i: nat)
    requires i < |functions|
    ensures functions[i].labels.Keys !! Lost(area, tags, functions)
  {
    forall a | a in functions[i].labels.Keys
      ensures a !in Lost(area, tags, functions)
    {
      assert OwnedBy(functions, i, a);
    }
  }

  /** A function that avoids some addresses avoids fewer of them as well. */
  lemma AvoidsLess<S(!new), M(!new)>(fe: Frontend<S, M>, area: Area, fn: Fn, avoid: set<Addr>, avoid': set<Addr>)
    requires Compiled(fe, area, fn, avoid) && avoid' <= avoid
    ensures Compiled(fe, area, fn, avoid')
  {
    forall a | a in fn.labels
      ensures HasBlock(fe, area, fn, a, avoid')
    {
      BlockStays(fe, area, fn, fn, a, avoid, avoid');
    }
  }

  lemma OneMoreOwner(functions: seq<Fn>, fn: Fn)
    ensures forall i: nat, a ::
      OwnedBy(functions + [fn], i, a) <==> OwnedBy(functions, i, a) || (i == |functions| && a in fn.labels.Keys)
    ensures forall a: Addr :: Owned(functions + [fn], a) <==> Owned(functions, a) || a in fn.labels.Keys
  {
    var functions' := functions + [fn];
    forall a: Addr
      ensures Owned(functions', a) <==> Owned(functions, a) || a in fn.labels.Keys
    {
      if Owned(functions, a) {
        var i :| OwnedBy(functions, i, a);
        assert OwnedBy(functions', i, a);
      }
      if a in fn.labels.Keys {
        assert OwnedBy(functions', |functions|, a);
      }
      if Owned(functions', a) {
        var i :| OwnedBy(functions', i, a);
        assert OwnedBy(functions, i, a) || a in fn.labels.Keys;
      }
    }
  }

  /** The function translated last takes over exactly the labels that were still free. What
      was lost stays lost, and nothing else is. */
  lemma NewOwner<S(!new), M(!new)>(fe: Frontend<S, M>, area: Area, tags: seq<Tag>, tags': seq<Tag>,
                                   functions: seq<Fn>, fn: Fn)
    requires Ownership(fe, area, tags, functions) && Compiled(fe, area, fn, Starts(area, tags))
    requires fn.labels.Keys == Startable(area, tags) && Translates(area, tags, tags', fn.labels.Keys)
    ensures Ownership(fe, area, tags', functions + [fn])
    ensures Unowned(area, tags') == Unowned(area, tags) - Startable(area, tags)
    ensures Lost(area, tags', functions + [fn]) == Lost(area, tags, functions)
  {
    var functions' := functions + [fn];
    var lost := Lost(area, tags, functions);
    OneMoreOwner(functions, fn);
    SameStarts(area, tags, tags', fn.labels.Keys);
    assert Lost(area, tags', functions') == lost;
    AvoidsLess(fe, area, fn, Starts(area, tags), lost);
    forall i | 0 <= i < |functions'|
      ensures Compiled(fe, area, functions'[i], lost)
    {
      assert i < |functions| ==> functions'[i] == functions[i];
    }
    forall i, j, a | OwnedBy(functions', i, a) && OwnedBy(functions', j, a)
      ensures i == j
    {
      assert OwnedBy(functions, i, a) ==> Owned(functions, a);
      assert OwnedBy(functions, j, a) ==> Owned(functions, a);
    }
  }

  /** Tagging takes no label away, hands none out, and finds no lost address again. */
  lemma KeepsOwners<S(!new), M(!new)>(fe: Frontend<S, M>, area: Area, tags: seq<Tag>, tags': seq<Tag>,
                                      functions: seq<Fn>)
    requires Ownership(fe, area, tags, functions) && Grows(area, tags, tags', {TagTranslated})
    ensures Ownership(fe, area, tags', functions) && Unowned(area, tags') == Unowned(area, tags)
    ensures Lost(area, tags', functions) == Lost(area, tags, functions)
  {
    forall a: Addr
      ensures TagTranslated in TagAt(area, tags, a) <==> TagTranslated in TagAt(area, tags', a)
      ensures IsStart(TagAt(area, tags, a)) ==> IsStart(TagAt(area, tags', a))
    {
      assert TagTranslated in TagAt(area, tags, a) <==> TagTranslated in TagAt(area, tags, a) * {TagTranslated};
      assert TagTranslated in TagAt(area, tags', a) <==> TagTranslated in TagAt(area, tags', a) * {TagTranslated};
      assert TagAt(area, tags, a) * START_BITS <= TagAt(area, tags', a) * START_BITS;
    }
    assert Lost(area, tags', functions) == Lost(area, tags, functions);
  }

  /** Forgetting all functions, as `cpu_flush` does, keeps every invariant, but loses every
      label there was: the marks stay. Nothing is lost afterwards if and only if nothing was
      lost before and no function had a label. */
  lemma FlushLoses<S(!new), M(!new)>(fe: Frontend<S, M>, area: Area, tags: seq<Tag>, functions: seq<Fn>)
    requires Ownership(fe, area, tags, functions)
    ensures Ownership(fe, area, tags, [])
    ensures forall a :: a in Lost(area, tags, []) <==> a in Lost(area, tags, functions) || Owned(functions, a)
    ensures Lost(area, tags, []) == {} <==>
      Lost(area, tags, functions) == {} && forall i | 0 <= i < |functions| :: functions[i].labels == map[]
  {
    forall a: Addr
      ensures !Owned([], a)
      ensures a in Lost(area, tags, []) <==> a in Lost(area, tags, functions) || Owned(functions, a)
    {
    }
    forall i: nat, a | OwnedBy(functions, i, a)
      ensures a in Lost(area, tags, [])
    {
      assert Owned(functions, a);
    }
    if Lost(area, tags, []) == {} {
      assert forall a | a in Lost(area, tags, functions) :: a in Lost(area, tags, []);
      assert forall i: nat, a :: !OwnedBy(functions, i, a);
      assert forall i | 0 <= i < |functions| :: forall a | a in functions[i].labels :: OwnedBy(functions, i, a);
    } else {
      var a :| a in Lost(area, tags, []);
      if a !in Lost(area, tags, functions) {
        assert Owned(functions, a);
        var i: nat :| OwnedBy(functions, i, a);
        assert a in functions[i].labels;
      }
    }
  }

  /** The external exits of a function lead outside the area, to labels other functions have
      or have had, or to where control goes when a conditional return or trap is not taken. */
  ghost predicate OnlyNeededExternals<S(!new), M(!new)>(fe: Frontend<S, M>, area: Area, opt: Options, tags: seq<Tag>,
                                                        names: seq<BlockName>)
  {
    forall b | 3 <= b < |names| && names[b].External? ::
      || !area.Contains(names[b].pc)
      || TagTranslated in TagAt(area, tags, names[b].pc)
      || exists a :: NotTakenTo(fe, area, opt, tags, a, names[b].pc)
  }

  /** With the depth limit off, that holds of every function. */
  lemma ExternalsAreNeeded<S(!new), M(!new)>(fe: Frontend<S, M>, area: Area, opt: Options, entries: set<Addr>,
                                             tags: seq<Tag>, labels: map<Addr, BlockId>, names: seq<BlockName>)
    requires Contract(fe, area) && Consistent(fe, area, opt, tags)
    requires IsReachable(fe, area, opt, entries, Code(area, tags))
    requires labels.Keys == Startable(area, tags)
    requires NewNames(fe, area, tags, labels, [Standard, Standard, Standard], names)
    ensures OnlyNeededExternals(fe, area, opt, tags, names)
  {
    forall b | 3 <= b < |names| && names[b].External? && area.Contains(names[b].pc)
      ensures TagTranslated in TagAt(area, tags, names[b].pc)
              || exists a :: NotTakenTo(fe, area, opt, tags, a, names[b].pc)
    {
      assert names[b].pc !in labels.Keys;
      ExternalsAreMinimal(fe, area, opt, entries, tags, names[b].pc);
    }
  }

  /** With the entry block finished, the function is complete. */
  lemma EntryCompletes<S(!new), M(!new)>(fe: Frontend<S, M>, area: Area, was: Fn, fn: Fn, avoid: set<Addr>)
    requires [[SetExit(FuncNotFound)], [Return], [SetExit(TrapExit), Br(RET)]] <= was.blocks
    requires Drafted(fe, area, was, avoid)
    requires fn == was.(blocks := Appended(was.blocks, ENTRY, [Br(was.dispatch)]))
    ensures Compiled(fe, area, fn, avoid) && AllFinished(fn.blocks)
  {
    assert was.blocks[ENTRY] == [SetExit(FuncNotFound)];
    assert was.blocks[RET] == [Return] && was.blocks[TRAP] == [SetExit(TrapExit), Br(RET)];
    FinishedByLast(fn.blocks[ENTRY]);
    FinishedByLast(fn.blocks[RET]);
    FinishedByLast(fn.blocks[TRAP]);
    forall a | a in fn.labels
      ensures HasBlock(fe, area, fn, a, avoid)
    {
      BlockStays(fe, area, was, fn, a, avoid, avoid);
    }
  }

  // ---------- runs of the reference machine ----------

  /** The machine, started in `s` at `pc`, is now in the state `m` and `pc'` stand for after
      `n` instructions inside the area. */
  ghost predicate Follows<S(!new), M(!new)>(fe: Frontend<S, M>, area: Area, s: S, pc: Addr, n: nat, m: M, pc': Addr) {
    Steps(fe, area, s, pc, n) == Some((fe.load(m), pc'))
  }

  /** The machine, started in `s` at `pc`, leaves the area or traps, and `m` and `pc'` are
      what it leaves behind. */
  ghost predicate Ends<S(!new), M(!new)>(fe: Frontend<S, M>, area: Area, s: S, pc: Addr,
                                         ret: ExitCode, m: M, pc': Addr)
  {
    exists n :: EndsAfter(fe, area, s, pc, ret, m, pc', n)
  }

  ghost predicate EndsAfter<S(!new), M(!new)>(fe: Frontend<S, M>, area: Area, s: S, pc: Addr,
                                              ret: ExitCode, m: M, pc': Addr, n: nat)
  {
    && m == fe.spill(fe.load(m))
    && ret in {FuncNotFound, TrapExit}
    && Until(fe, area, s, pc, n) == Some(if ret == TrapExit then Trapped(fe.load(m), pc') else Next(fe.load(m), pc'))
  }

  /** The machine, started in `s` at `pc`, never comes to a lost address. */
  ghost predicate Clear<S(!new), M(!new)>(fe: Frontend<S, M>, area: Area, s: S, pc: Addr, lost: set<Addr>) {
    forall j: nat | Steps(fe, area, s, pc, j).Some? :: Steps(fe, area, s, pc, j).value.1 !in lost
  }

  lemma ClearOnwards<S(!new), M(!new)>(fe: Frontend<S, M>, area: Area, s: S, pc: Addr, n: nat, lost: set<Addr>)
    requires Steps(fe, area, s, pc, n).Some? && KeepsOff(fe, area, s, pc, n, lost)
    requires var (s1, pc1) := Steps(fe, area, s, pc, n).value; Clear(fe, area, s1, pc1, lost)
    ensures Clear(fe, area, s, pc, lost)
  {
    var (s1, pc1) := Steps(fe, area, s, pc, n).value;
    forall j: nat | Steps(fe, area, s, pc, j).Some?
      ensures Steps(fe, area, s, pc, j).value.1 !in lost
    {
      if n <= j {
        StepsThenSteps(fe, area, s, pc, n, j - n);
        assert Steps(fe, area, s1, pc1, j - n).Some?;
      }
    }
  }

  /** At its end a run has no way to go on, so it is clear of what it has kept off. */
  lemma ClearAtEnd<S(!new), M(!new)>(fe: Frontend<S, M>, area: Area, s: S, pc: Addr, lost: set<Addr>)
    requires !area.Contains(pc) || Step(fe, s, pc).Trapped?
    requires pc !in lost
    ensures Clear(fe, area, s, pc, lost)
  {
    forall j: nat | Steps(fe, area, s, pc, j).Some?
      ensures Steps(fe, area, s, pc, j).value.1 !in lost
    {
      assert j == 0;
    }
  }

  lemma LeavingEnds<S(!new), M(!new)>(fe: Frontend<S, M>, area: Area, s: S, pc: Addr, n: nat, m: M, pc': Addr,
                                      lost: set<Addr>)
    requires Follows(fe, area, s, pc, n, m, pc') && !area.Contains(pc') && m == fe.spill(fe.load(m))
    requires KeepsOff(fe, area, s, pc, n, lost) && pc' !in lost
    ensures Ends(fe, area, s, pc, FuncNotFound, m, pc') && Clear(fe, area, s, pc, lost)
  {
    StepsThenUntil(fe, area, s, pc, n, 0);
    assert EndsAfter(fe, area, s, pc, FuncNotFound, m, pc', n);
    ClearAtEnd(fe, area, fe.load(m), pc', lost);
    ClearOnwards(fe, area, s, pc, n, lost);
  }

  lemma TrapEnds<S(!new), M(!new)>(fe: Frontend<S, M>, area: Area, s: S, pc: Addr, n: nat, m: M, pc': Addr,
                                   lost: set<Addr>)
    requires TrapsAfter(fe, area, s, pc, n, fe.load(m), pc') && m == fe.spill(fe.load(m))
    requires KeepsOff(fe, area, s, pc, n + 1, lost)
    ensures Ends(fe, area, s, pc, TrapExit, m, pc') && Clear(fe, area, s, pc, lost)
  {
    StepsThenUntil(fe, area, s, pc, n, 1);
    assert EndsAfter(fe, area, s, pc, TrapExit, m, pc', n + 1);
    var (s1, pc1) := Steps(fe, area, s, pc, n).value;
    ClearAtEnd(fe, area, s1, pc1, lost);
    ClearOnwards(fe, area, s, pc, n, lost);
  }

  lemma EndsOnwards<S(!new), M(!new)>(fe: Frontend<S, M>, area: Area, s: S, start: Addr, n: nat, m: M, pc: Addr,
                                      ret: ExitCode, m': M, pc': Addr)
    requires Follows(fe, area, s, start, n, m, pc) && Ends(fe, area, fe.load(m), pc, ret, m', pc')
    ensures Ends(fe, area, s, start, ret, m', pc')
  {
    var k :| EndsAfter(fe, area, fe.load(m), pc, ret, m', pc', k);
    StepsThenUntil(fe, area, s, start, n, k);
    assert EndsAfter(fe, area, s, start, ret, m', pc', n + k);
  }

  /** Two runs of the same guest from the same state end the same way, whatever tagging,
      translating and flushing went on before or during them. */
  lemma StrategyIndependence<S(!new), M(!new)>(fe: Frontend<S, M>, area: Area, s: S, pc: Addr, ret: ExitCode, m: M,
                                               pc': Addr, ret': ExitCode, m': M, pc'': Addr)
    requires Ends(fe, area, s, pc, ret, m, pc') && Ends(fe, area, s, pc, ret', m', pc'')
    ensures ret == ret' && m == m' && pc' == pc''
  {
    var n :| EndsAfter(fe, area, s, pc, ret, m, pc', n);
    var n' :| EndsAfter(fe, area, s, pc, ret', m', pc'', n');
    UntilIsUnique(fe, area, s, pc, n, n');
  }

  ghost predicate EveryRunIsClear<S(!new), M(!new)>(fe: Frontend<S, M>, area: Area, lost: set<Addr>) {
    forall s: S, pc: Addr :: Clear(fe, area, s, pc, lost)
  }

  ghost predicate EndsWithin<S(!new), M(!new)>(fe: Frontend<S, M>, area: Area, s: S, pc: Addr, n: nat) {
    Until(fe, area, s, pc, n).Some?
  }

  /** Runs are clear from everywhere exactly if nothing is lost. And those that end are clear
      from everywhere exactly if none that begins at a lost address ends: then the machine
      itself would never have come back either. */
  lemma ClearIffNothingLost<S(!new), M(!new)>(fe: Frontend<S, M>, area: Area, lost: set<Addr>, some: S)
    ensures EveryRunIsClear(fe, area, lost) <==> lost == {}
    ensures (forall s: S, pc: Addr, n: nat :: EndsWithin(fe, area, s, pc, n) ==> Clear(fe, area, s, pc, lost))
       <==> (forall s: S, pc: Addr, n: nat :: EndsWithin(fe, area, s, pc, n) ==> pc !in lost)
  {
    forall s: S, pc: Addr
      ensures Clear(fe, area, s, pc, lost) ==> pc !in lost
    {
      assert Steps(fe, area, s, pc, 0) == Some((s, pc));
    }
    if lost != {} {
      var pc :| pc in lost;
      assert !Clear(fe, area, some, pc, lost);
    }
    forall s: S, pc: Addr, n: nat | EndsWithin(fe, area, s, pc, n) && !Clear(fe, area, s, pc, lost)
      ensures exists s': S, pc': Addr, n': nat :: EndsWithin(fe, area, s', pc', n') && pc' in lost
    {
      var j: nat :| Steps(fe, area, s, pc, j).Some? && Steps(fe, area, s, pc, j).value.1 in lost;
      EndsFromThere(fe, area, s, pc, n, j);
    }
  }

  /** A run that ends still ends when one looks at it later on. */
  lemma EndsFromThere<S(!new), M(!new)>(fe: Frontend<S, M>, area: Area, s: S, pc: Addr, n: nat, j: nat)
    requires EndsWithin(fe, area, s, pc, n) && Steps(fe, area, s, pc, j).Some?
    ensures j <= n
    ensures var (s1, pc1) := Steps(fe, area, s, pc, j).value; EndsWithin(fe, area, s1, pc1, n - j)
  {
    if n < j {
      StepsMeansNotYet(fe, area, s, pc, j, n);
    } else {
      StepsThenUntil(fe, area, s, pc, j, n - j);
    }
  }

  // ---------- bookkeeping over a whole run ----------

  /** What one round of the loop in `cpu_run` came to. */
  datatype Event = Hit | Miss

  ghost predicate NoTwoMisses(trace: seq<Event>) {
    forall i | 0 <= i < |trace| - 1 :: trace[i].Hit? || trace[i + 1].Hit?
  }

  ghost function MissCount(trace: seq<Event>): nat {
    if trace == [] then 0 else MissCount(trace[..|trace| - 1]) + if trace[|trace| - 1].Miss? then 1 else 0
  }

  ghost predicate JustMissed(trace: seq<Event>) {
    trace != [] && trace[|trace| - 1].Miss?
  }

  /** Steps spent on looking for the right function, over `k` rounds. */
  function LookupCost(f: nat, k: nat): nat {
    9 * (f * k)
  }

  /** Enough fuel for `n` guest instructions, when there are `f` functions to begin with and
      `u` addresses none of them owns. */
  function Budget(f: nat, u: nat, n: nat): nat {
    Cost(n) + LookupCost(f + u + 3, 2 * n + 2)
  }

  lemma OneMoreRound(f: nat, k: nat, calls: nat)
    requires calls <= f
    ensures LookupCost(f, k) + 9 * calls <= LookupCost(f, k + 1)
  {
    assert f * (k + 1) == f * k + f;
  }

  lemma {:induction false} LookupCostGrows(f: nat, k: nat, k': nat)
    requires k <= k'
    ensures LookupCost(f, k) <= LookupCost(f, k')
    decreases k'
  {
    if k < k' {
      LookupCostGrows(f, k, k' - 1);
      OneMoreRound(f, k' - 1, 0);
    }
  }

  lemma SubsetSize<T>(a: set<T>, b: set<T>)
    requires a <= b
    ensures |a| <= |b|
  {
    assert b == a + (b - a);
  }

  /** What a run begins with: the state, the number of functions and of unowned addresses,
      the fuel, and what is lost. */
  datatype Began<+S> = Began(s: S, start: Addr, f0: nat, u0: nat, fuel: nat, lost: set<Addr>)

  /** How far it has come: register file and PC, the fuel left, the instructions performed,
      and the hits and misses. */
  datatype Point<+M> = Point(m: M, pc: Addr, left: nat, n: nat, trace: seq<Event>)

  ghost predicate Reached<S(!new), M(!new)>(fe: Frontend<S, M>, area: Area, run: Began<S>, at: Point<M>) {
    && Follows(fe, area, run.s, run.start, at.n, at.m, at.pc)
    && KeepsOff(fe, area, run.s, run.start, at.n, run.lost)
  }

  function MissBound<S>(area: Area, run: Began<S>): nat {
    run.u0 + if area.Contains(run.start) then 0 else 1
  }

  /** The state at the head of the loop: what is spent and missed so far is accounted for,
      unless the run has come to a lost address. */
  ghost predicate Looping<S(!new), M(!new)>(fe: Frontend<S, M>, area: Area, tags: seq<Tag>, dirty: bool,
                                            functions: seq<Fn>, run: Began<S>, at: Point<M>)
  {
    && Reached(fe, area, run, at)
    && (at.pc in run.lost || HeadBooks(area, tags, dirty, functions, run, at))
  }

  ghost predicate HeadBooks<S, M>(area: Area, tags: seq<Tag>, dirty: bool, functions: seq<Fn>, run: Began<S>,
                                  at: Point<M>)
  {
    && at.left <= run.fuel <= at.left + Cost(at.n) + LookupCost(run.f0 + run.u0 + 3, |at.trace|)
    && |at.trace| <= 2 * at.n + (if JustMissed(at.trace) then 1 else 0)
    && NoTwoMisses(at.trace)
    && |functions| + (if dirty then 1 else 0) <= run.f0 + 1 + MissCount(at.trace)
    && MissCount(at.trace) + |Unowned(area, tags)|
       <= MissBound(area, run) + (if JustMissed(at.trace) && area.Contains(at.pc) then 1 else 0)
    && (JustMissed(at.trace) ==> dirty && (area.Contains(at.pc) ==> at.pc in Startable(area, tags)))
    && (functions == [] ==>
          && at.pc == run.start && |Unowned(area, tags)| <= run.u0 && (at.trace == [] || at.trace == [Miss])
          && MissCount(at.trace) == (if JustMissed(at.trace) then 1 else 0))
  }

  /** The state when all functions are about to be tried. */
  ghost predicate Ready<S(!new), M(!new)>(fe: Frontend<S, M>, area: Area, tags: seq<Tag>, functions: seq<Fn>,
                                          run: Began<S>, at: Point<M>)
  {
    && Reached(fe, area, run, at)
    && (at.pc in run.lost || ReadyBooks(area, tags, functions, run, at))
  }

  ghost predicate ReadyBooks<S, M>(area: Area, tags: seq<Tag>, functions: seq<Fn>, run: Began<S>, at: Point<M>) {
    && at.left <= run.fuel <= at.left + Cost(at.n) + LookupCost(run.f0 + run.u0 + 3, |at.trace|)
    && |at.trace| <= 2 * at.n + (if JustMissed(at.trace) then 1 else 0)
    && NoTwoMisses(at.trace)
    && |functions| <= run.f0 + 1 + MissCount(at.trace)
    && MissCount(at.trace) + |Unowned(area, tags)| <= MissBound(area, run)
    && (JustMissed(at.trace) ==> functions != [] && (area.Contains(at.pc) ==> Owned(functions, at.pc)))
    && (functions == [] ==> at.pc == run.start && |Unowned(area, tags)| <= run.u0 && at.trace == [])
  }

  /** The state after a round that found no function for PC. */
  ghost predicate Missed<S(!new), M(!new)>(fe: Frontend<S, M>, area: Area, tags: seq<Tag>, functions: seq<Fn>,
                                           run: Began<S>, at: Point<M>)
  {
    && Reached(fe, area, run, at) && !Owned(functions, at.pc)
    && (at.pc in run.lost || MissBooks(area, tags, functions, run, at))
  }

  ghost predicate MissBooks<S, M>(area: Area, tags: seq<Tag>, functions: seq<Fn>, run: Began<S>, at: Point<M>) {
    && at.left <= run.fuel <= at.left + Cost(at.n) + LookupCost(run.f0 + run.u0 + 3, |at.trace| + 1)
    && |at.trace| <= 2 * at.n && NoTwoMisses(at.trace) && !JustMissed(at.trace)
    && |functions| <= run.f0 + 1 + MissCount(at.trace)
    && MissCount(at.trace) + |Unowned(area, tags)| <= MissBound(area, run)
    && (functions == [] ==> at.pc == run.start && |Unowned(area, tags)| <= run.u0 && at.trace == [])
    && (functions != [] ==> area.Contains(at.pc))
  }

  lemma TranslateReadies<S(!new), M(!new)>(fe: Frontend<S, M>, area: Area, tags: seq<Tag>, dirty: bool, tags': seq<Tag>,
                                           functions: seq<Fn>, functions': seq<Fn>, run: Began<S>, at: Point<M>)
    requires Looping(fe, area, tags, dirty, functions, run, at)
    requires Lost(area, tags', functions') == run.lost
    requires dirty ==> |functions'| == |functions| + 1
                       && Unowned(area, tags') == Unowned(area, tags) - Startable(area, tags)
    requires !dirty ==> functions' == functions && tags' == tags
    ensures Ready(fe, area, tags', functions', run, at)
  {
    SubsetSize(Unowned(area, tags'), Unowned(area, tags));
    if at.pc !in run.lost && JustMissed(at.trace) && area.Contains(at.pc) {
      assert at.pc in Unowned(area, tags) && at.pc !in Unowned(area, tags');
      SubsetSize(Unowned(area, tags') + {at.pc}, Unowned(area, tags));
      assert TagTranslated in TagAt(area, tags', at.pc);
    }
  }

  /** What calling `fn` comes to: `n` instructions of the machine, and the register file
      and PC they leave behind, if they are done within the fuel. */
  ghost predicate CallCame<S(!new), M(!new)>(fe: Frontend<S, M>, area: Area, fn: Fn, avoid: set<Addr>,
                                             at: Point<M>, at': Point<M>, done: bool, ret: ExitCode, n: nat)
  {
    var s := fe.load(at.m);
    && KeepsOff(fe, area, s, at.pc, n, avoid)
    && if done then
         && at'.left < at.left <= at'.left + Cost(n) + 9
         && at'.m == fe.spill(fe.load(at'.m))
         && (at.pc in fn.labels <==> n > 0)
         && if ret == TrapExit then n > 0 && TrapsAfter(fe, area, s, at.pc, n - 1, fe.load(at'.m), at'.pc)
            else ret == FuncNotFound && Follows(fe, area, s, at.pc, n, at'.m, at'.pc) && at'.pc !in fn.labels
       else
         at'.left == 0 && at'.pc == at.pc && at.left <= Cost(n) + 9 && Steps(fe, area, s, at.pc, n).Some?
  }

  /** How a round of trying all functions comes out. */
  datatype Round = Done(ret: ExitCode) | Hits | Misses | OutOfFuel

  ghost predicate RoundCame<S(!new), M(!new)>(fe: Frontend<S, M>, area: Area, functions: seq<Fn>, lost: set<Addr>,
                                              at: Point<M>, at': Point<M>, round: Round, calls: nat, n: nat)
  {
    var s := fe.load(at.m);
    match round
    case Done(ret) => Ends(fe, area, s, at.pc, ret, at'.m, at'.pc) && Clear(fe, area, s, at.pc, lost)
    case Hits =>
      && n > 0 && Follows(fe, area, s, at.pc, n, at'.m, at'.pc) && KeepsOff(fe, area, s, at.pc, n, lost)
      && Owned(functions, at.pc) && at'.left < at.left <= at'.left + Cost(n) + 9 * calls
    case Misses =>
      && at'.pc == at.pc && fe.load(at'.m) == s && !Owned(functions, at.pc)
      && (functions != [] ==> area.Contains(at.pc) && at'.left < at.left)
      && at.left <= at'.left + 9 * calls
    case OutOfFuel =>
      at'.pc == at.pc && at.left <= Cost(n) + 9 * calls && Steps(fe, area, s, at.pc, n).Some?
  }

  /** A call that comes back inside the area with PC as it was has done nothing; any other
      settles the round. */
  lemma CallSettles<S(!new), M(!new)>(fe: Frontend<S, M>, area: Area, functions: seq<Fn>, i: nat, fn: Fn,
                                      lost: set<Addr>, at: Point<M>, at': Point<M>, done: bool, ret: ExitCode, n: nat)
    requires CallCame(fe, area, fn, lost, at, at', done, ret, n)
    requires OneOf(functions, i, fn) && forall a | a in lost :: area.Contains(a)
    ensures !done ==> RoundCame(fe, area, functions, lost, at, at', OutOfFuel, 1, n)
    ensures done && (ret != FuncNotFound || !area.Contains(at'.pc)) ==>
      RoundCame(fe, area, functions, lost, at, at', Done(ret), 1, n)
    ensures done && ret == FuncNotFound && area.Contains(at'.pc) && at'.pc != at.pc ==>
      RoundCame(fe, area, functions, lost, at, at', Hits, 1, n)
    ensures done && ret == FuncNotFound && area.Contains(at'.pc) && at'.pc == at.pc ==>
      fe.load(at'.m) == fe.load(at.m) && at.pc !in fn.labels && at'.left < at.left <= at'.left + 9
  {
    if done && ret != FuncNotFound {
      TrapEnds(fe, area, fe.load(at.m), at.pc, n - 1, at'.m, at'.pc, lost);
    } else if done && !area.Contains(at'.pc) {
      LeavingEnds(fe, area, fe.load(at.m), at.pc, n, at'.m, at'.pc, lost);
    } else if done && at'.pc != at.pc {
      assert OwnedBy(functions, i, at.pc);
    }
  }

  /** The call that settled it came after `i` others that did nothing. */
  lemma CameLater<S(!new), M(!new)>(fe: Frontend<S, M>, area: Area, functions: seq<Fn>, lost: set<Addr>,
                                    at0: Point<M>, at: Point<M>, at': Point<M>, round: Round, i: nat, n: nat)
    requires RoundCame(fe, area, functions, lost, at, at', round, 1, n) && !round.Misses? && i < |functions|
    requires at0.pc == at.pc && fe.load(at0.m) == fe.load(at.m) && at.left <= at0.left <= at.left + 9 * i
    ensures RoundCame(fe, area, functions, lost, at0, at', round, |functions|, n)
  {
  }

  lemma ReadyMisses<S(!new), M(!new)>(fe: Frontend<S, M>, area: Area, tags: seq<Tag>, functions: seq<Fn>,
                                      run: Began<S>, at: Point<M>, at': Point<M>, n: nat)
    requires Ready(fe, area, tags, functions, run, at) && at'.left <= at.left
    requires at'.n == at.n && at'.trace == at.trace
    requires RoundCame(fe, area, functions, run.lost, at, at', Misses, |functions|, n)
    ensures Missed(fe, area, tags, functions, run, at')
  {
    if at.pc !in run.lost {
      assert !JustMissed(at.trace);
      assert |functions| <= run.f0 + run.u0 + 3;
      OneMoreRound(run.f0 + run.u0 + 3, |at.trace|, |functions|);
    }
  }

  lemma OneMoreMiss(trace: seq<Event>)
    requires NoTwoMisses(trace) && !JustMissed(trace)
    ensures var trace' := trace + [Miss];
      MissCount(trace') == MissCount(trace) + 1 && JustMissed(trace') && NoTwoMisses(trace')
  {
    assert (trace + [Miss])[..|trace|] == trace;
  }

  /** After a miss either the address has become startable, or it is lost and tagging has
      changed nothing about that. */
  lemma MissLoops<S(!new), M(!new)>(fe: Frontend<S, M>, area: Area, tags: seq<Tag>, tags': seq<Tag>,
                                    functions: seq<Fn>, run: Began<S>, at: Point<M>, at': Point<M>)
    requires Missed(fe, area, tags, functions, run, at) && Lost(area, tags, functions) == run.lost
    requires Unowned(area, tags') == Unowned(area, tags)
    requires area.Contains(at.pc) && at.pc in Unowned(area, tags') ==> at.pc in Startable(area, tags')
    requires at' == at.(trace := at.trace + [Miss])
    ensures Looping(fe, area, tags', true, functions, run, at')
  {
    if at.pc !in run.lost {
      OneMoreMiss(at.trace);
      if area.Contains(at.pc) {
        assert TagTranslated !in TagAt(area, tags, at.pc);
        assert at.pc in Unowned(area, tags);
      }
      if functions == [] {
        assert at'.trace == [Miss] && MissCount(at.trace) == 0;
      }
    }
  }

  lemma HitLoops<S(!new), M(!new)>(fe: Frontend<S, M>, area: Area, tags: seq<Tag>, functions: seq<Fn>,
                                   run: Began<S>, at: Point<M>, at': Point<M>, n: nat)
    requires Ready(fe, area, tags, functions, run, at) && Lost(area, tags, functions) == run.lost
    requires RoundCame(fe, area, functions, run.lost, at, at', Hits, |functions|, n)
    requires at'.n == at.n + n && at'.trace == at.trace + [Hit]
    ensures Looping(fe, area, tags, false, functions, run, at')
  {
    assert at.pc !in run.lost;
    assert at'.trace[..|at.trace|] == at.trace;
    OneMoreRound(run.f0 + run.u0 + 3, |at.trace|, |functions|);
    StepsThenSteps(fe, area, run.s, run.start, at.n, n);
    KeepsOffOnwards(fe, area, run.s, run.start, at.n, n, run.lost);
  }

  /** What is known when the loop is over. Running out of fuel means the machine is still
      running after all the instructions the fuel was enough for, or comes to a lost address. */
  ghost predicate Stopped<S(!new), M(!new)>(fe: Frontend<S, M>, area: Area, run: Began<S>, round: Round, at: Point<M>) {
    && (round.Done? || at.pc !in run.lost ==> NoTwoMisses(at.trace) && MissCount(at.trace) <= MissBound(area, run))
    && match round
       case Done(ret) =>
         Ends(fe, area, run.s, run.start, ret, at.m, at.pc) && Clear(fe, area, run.s, run.start, run.lost)
       case OutOfFuel => Clear(fe, area, run.s, run.start, run.lost) ==>
         forall k: nat :: Budget(run.f0, run.u0, k) < run.fuel ==> Until(fe, area, run.s, run.start, k).None?
       case _ => false
  }

  lemma RoundStops<S(!new), M(!new)>(fe: Frontend<S, M>, area: Area, tags: seq<Tag>, functions: seq<Fn>,
                                     run: Began<S>, at: Point<M>, at': Point<M>, round: Round, n: nat)
    requires Ready(fe, area, tags, functions, run, at) && at'.trace == at.trace
    requires RoundCame(fe, area, functions, run.lost, at, at', round, |functions|, n)
    requires round.Done? || round.OutOfFuel?
    ensures Stopped(fe, area, run, round, at')
  {
    if round.Done? {
      assert Steps(fe, area, fe.load(at.m), at.pc, 0) == Some((fe.load(at.m), at.pc));
      assert at.pc !in run.lost;
      EndsOnwards(fe, area, run.s, run.start, at.n, at.m, at.pc, round.ret, at'.m, at'.pc);
      ClearOnwards(fe, area, run.s, run.start, at.n, run.lost);
    } else if at.pc in run.lost {
      assert !Clear(fe, area, run.s, run.start, run.lost);
    } else {
      RunsOut(fe, area, tags, functions, run, at, n);
    }
  }

  lemma RunsOut<S(!new), M(!new)>(fe: Frontend<S, M>, area: Area, tags: seq<Tag>, functions: seq<Fn>,
                                  run: Began<S>, at: Point<M>, n: nat)
    requires Follows(fe, area, run.s, run.start, at.n, at.m, at.pc) && ReadyBooks(area, tags, functions, run, at)
    requires at.left <= Cost(n) + 9 * |functions| && Steps(fe, area, fe.load(at.m), at.pc, n).Some?
    ensures forall k: nat :: Budget(run.f0, run.u0, k) < run.fuel ==> Until(fe, area, run.s, run.start, k).None?
  {
    var f := run.f0 + run.u0 + 3;
    StepsThenSteps(fe, area, run.s, run.start, at.n, n);
    OneMoreRound(f, |at.trace|, |functions|);
    LookupCostGrows(f, |at.trace| + 1, 2 * (at.n + n) + 2);
    assert run.fuel <= Budget(run.f0, run.u0, at.n + n);
    forall k: nat | Budget(run.f0, run.u0, k) < run.fuel
      ensures Until(fe, area, run.s, run.start, k).None?
    {
      if at.n + n <= k {
        LookupCostGrows(f, 2 * (at.n + n) + 2, 2 * k + 2);
        assert false;
      }
      StepsMeansNotYet(fe, area, run.s, run.start, at.n + n, k);
    }
  }

  class Cpu<S(!new), M(!new)> {
    const fe: Frontend<S, M>
    const area: Area
    const tm: TagMap<S, M>
    var m: M                   // register file and RAM
    var pc: Addr
    var functions: seq<Fn>

    ghost predicate Valid()
      reads this, tm, tm.tag
    {
      && tm.Valid() && tm.fe == fe && tm.area == area
      && Ownership(fe, area, tm.Tags(), functions)
      && (tm.dirty ==> tm.tag != null)
      && (functions != [] ==> tm.tag != null)
    }

    /** The labels of functions that have been flushed. */
    ghost function LostLabels(): set<Addr>
      reads this, tm, tm.tag
    {
      Lost(area, tm.Tags(), functions)
    }

    ghost function Free(): set<Addr>
      reads this, tm, tm.tag
    {
      Unowned(area, tm.Tags())
    }

    constructor (fe: Frontend<S, M>, area: Area, opt: Options, cachedEntries: seq<Addr>, m: M, pc: Addr)
      requires area.lo <= area.hi && Contract(fe, area)
      ensures Valid() && functions == [] && LostLabels() == {} && this.m == m && this.pc == pc
      ensures this.fe == fe && this.area == area && fresh(tm) && tm.tag == null
    {
      this.fe, this.area, this.m, this.pc, functions := fe, area, m, pc, [];
      tm := new TagMap(fe, area, opt, cachedEntries);
      new;
      assert forall a: Addr :: TagAt(area, tm.Tags(), a) == {};
    }

    /** `cpu_translate_function`: all labels no function has yet get one. */
    method TranslateFunction() returns (ghost names: seq<BlockName>)
      requires Valid() && tm.tag != null
      modifies `functions, tm.tag
      ensures Valid() && |functions| == |old(functions)| + 1 && functions[..|old(functions)|] == old(functions)
      ensures var fn := functions[|old(functions)|];
        && Compiled(fe, area, fn, Starts(area, old(tm.tag[..]))) && AllFinished(fn.blocks)
        && fn.labels.Keys == Startable(area, old(tm.tag[..]))
        && |names| == |fn.blocks|
        && NewNames(fe, area, old(tm.tag[..]), fn.labels, [Standard, Standard, Standard], names)
      ensures Free() == old(Free()) - Startable(area, old(tm.tag[..])) && LostLabels() == old(LostLabels())
      ensures !tm.opt.limit ==> OnlyNeededExternals(fe, area, tm.opt, old(tm.tag[..]), names)
    {
      var b := new Builder(fe, area, FuncNotFound);
      ghost var tags, std := tm.tag[..], b.blocks;
      b.TranslateAll(tm);
      ghost var was := b.Value();
      b.Emit(ENTRY, Br(b.dispatch));
      names := b.names;
      var fn := b.Value();
      EntryCompletes(fe, area, was, fn, Starts(area, tags));
      functions := functions + [fn];
      NewOwner(fe, area, tags, tm.tag[..], old(functions), fn);
      if !tm.opt.limit {
        ExternalsAreNeeded(fe, area, tm.opt, tm.entries, tags, fn.labels, names);
      }
    }

    /** `cpu_translate`: translation ahead of time, if there is anything new. */
    method Translate()
      requires Valid()
      modifies `functions, tm`dirty, tm.tag
      ensures Valid() && !tm.dirty
      ensures old(tm.dirty) ==> |functions| == |old(functions)| + 1
                                && Free() == old(Free()) - Startable(area, old(tm.Tags()))
      ensures !old(tm.dirty) ==> functions == old(functions) && tm.Tags() == old(tm.Tags())
      ensures LostLabels() == old(LostLabels()) && tm.tag == old(tm.tag)
    {
      if tm.dirty {
        ghost var names := TranslateFunction();
      }
      tm.dirty := false;
    }

    /** `cpu_tag`. */
    method Tag(pc: Addr)
      requires Valid()
      modifies tm, tm.tag
      ensures Valid() && tm.dirty
      ensures if old(tm.tag) == null then fresh(tm.tag) else tm.tag == old(tm.tag)
      ensures Free() == old(Free()) && LostLabels() == old(LostLabels())
      ensures area.Contains(pc) && pc in Free() ==> pc in Startable(area, tm.Tags())
    {
      ghost var tags := tm.Tags();
      tm.TagStart(pc);
      KeepsOwners(fe, area, tags, tm.Tags(), functions);
      if area.Contains(pc) {
        assert TagEntry in TagAt(area, tm.Tags(), pc) * START_BITS;
      }
    }

    /** `cpu_flush`: all functions go, and all marks stay. Every label is lost. */
    method Flush()
      requires Valid()
      modifies `functions
      ensures Valid() && functions == []
      ensures forall a :: a in LostLabels() <==> a in old(LostLabels()) || Owned(old(functions), a)
      ensures forall a: Addr | area.Contains(a) :: a in LostLabels() <==> a !in Free()
    {
      functions := [];
      FlushLoses(fe, area, tm.Tags(), old(functions));
    }

    /** One call of a translated function, with `fuel` steps to spend. */
    method Call(fn: Fn, fuel: nat, ghost avoid: set<Addr>)
      returns (done: bool, ret: ExitCode, left: nat, ghost r: nat)
      requires Contract(fe, area) && Compiled(fe, area, fn, avoid) && fn.labels.Keys !! avoid
      modifies `m, `pc
      ensures CallCame(fe, area, fn, avoid, Point(old(m), old(pc), fuel, 0, []), Point(m, pc, left, 0, []),
                       done, ret, r)
    {
      r := FunctionSimulates(fe, area, fn, avoid, fe.load(m), pc, fuel);
      var o := Ir.Run(fe, fn, Start(fe.load(m), pc), fuel);
      if o.Returned? {
        done, ret, left := true, o.code, o.left;
        m, pc := fe.spill(o.s), o.pc;
      } else {
        done, ret, left := false, NoErr, 0;
      }
    }

    /** One round of the inner loop of `cpu_run`: unless the call settles it, the next
        function is to be tried. */
    method TryFunction(fn: Fn, fuel: nat, ghost i: nat, ghost lost: set<Addr>)
      returns (round: Round, left: nat, ghost n: nat)
      requires Valid() && OneOf(functions, i, fn) && lost == LostLabels()
      modifies `m, `pc
      ensures round.Misses? ==> fe.load(m) == fe.load(old(m)) && pc == old(pc) && pc !in fn.labels
      ensures round.Misses? ==> area.Contains(pc) && left < fuel <= left + 9
      ensures left <= fuel
      ensures !round.Misses? ==> RoundCame(fe, area, functions, lost, Point(old(m), old(pc), fuel, 0, []),
                                           Point(m, pc, left, 0, []), round, 1, n)
    {
      LabelsAreNotLost(area, tm.Tags(), functions, i);
      var origPc := pc;
      ghost var at := Point(m, pc, fuel, 0, []);
      var done, ret;
      done, ret, left, n := Call(fn, fuel, lost);
      round := if !done then OutOfFuel
               else if ret != FuncNotFound || !area.Contains(pc) then Done(ret)
               else if pc != origPc then Hits else Misses;
      CallSettles(fe, area, functions, i, fn, lost, at, Point(m, pc, left, 0, []), done, ret, n);
    }

    /** The inner loop of `cpu_run`: the functions are called in turn until PC moves. */
    method TryFunctions(fuel: nat) returns (round: Round, left: nat, ghost n: nat)
      requires Valid()
      modifies `m, `pc
      ensures functions == [] ==> round.Misses?
      ensures left <= fuel
      ensures RoundCame(fe, area, functions, LostLabels(), Point(old(m), old(pc), fuel, 0, []),
                        Point(m, pc, left, 0, []), round, |functions|, n)
    {
      ghost var lost, at0 := LostLabels(), Point(m, pc, fuel, 0, []);
      left, n := fuel, 0;
      round := Misses;
      var i := 0;
      while i < |functions| && round.Misses?
        invariant 0 <= i <= |functions|
        invariant round.Misses? ==> pc == old(pc) && fe.load(m) == fe.load(old(m)) && left <= fuel <= left + 9 * i
        invariant round.Misses? ==> forall j | 0 <= j < i :: pc !in functions[j].labels
        invariant round.Misses? && i > 0 ==> area.Contains(pc) && left < fuel
        invariant !round.Misses? ==> i > 0 && left <= fuel
        invariant !round.Misses? ==>
          RoundCame(fe, area, functions, lost, at0, Point(m, pc, left, 0, []), round, |functions|, n)
      {
        ghost var at := Point(m, pc, left, 0, []);
        round, left, n := TryFunction(functions[i], left, i, lost);
        if !round.Misses? {
          CameLater(fe, area, functions, lost, at0, at, Point(m, pc, left, 0, []), round, i, n);
        }
        i := i + 1;
      }
      assert round.Misses? ==> !Owned(functions, pc);
    }

    /** `cpu_run`. The guest may run for ever, so only `fuel` steps of translated code are
        spent on it. Given enough, the run comes back exactly if it never comes to a label
        that has been flushed; if it does come to one, it misses for ever. */
    method Run(fuel: nat) returns (finished: bool, ret: ExitCode, ghost trace: seq<Event>)
      requires Valid()
      modifies this, tm, tm.tag
      ensures Valid() && LostLabels() == old(LostLabels()) && Free() <= old(Free())
      ensures tm.tag == old(tm.tag) || fresh(tm.tag)
      ensures finished ==> Ends(fe, area, fe.load(old(m)), old(pc), ret, m, pc)
      ensures finished ==> Clear(fe, area, fe.load(old(m)), old(pc), old(LostLabels()))
      ensures forall n: nat | Until(fe, area, fe.load(old(m)), old(pc), n).Some? ::
        Budget(|old(functions)|, |old(Free())|, n) < fuel
        ==> (finished <==> Clear(fe, area, fe.load(old(m)), old(pc), old(LostLabels())))
      ensures old(pc) in old(LostLabels()) ==> !finished
      ensures finished || pc !in LostLabels() ==>
        NoTwoMisses(trace) && MissCount(trace) <= |old(Free())| + if area.Contains(old(pc)) then 0 else 1
    {
      ghost var run := Began(fe.load(m), pc, |functions|, |Free()|, fuel, LostLabels());
      ghost var n := 0;
      var left, round := fuel, Hits;
      trace := [];
      while round.Hits? || round.Misses?
        invariant Valid() && (tm.tag == old(tm.tag) || fresh(tm.tag))
        invariant LostLabels() == run.lost && Free() <= old(Free())
        invariant round.Hits? || round.Misses? ==>
          Looping(fe, area, tm.Tags(), tm.dirty, functions, run, Point(m, pc, left, n, trace))
        invariant round.Done? || round.OutOfFuel? ==> Stopped(fe, area, run, round, Point(m, pc, left, n, trace))
        decreases round.Hits? || round.Misses?, left, functions == [] && !tm.dirty
      {
        left, round, n, trace := RunRound(left, run, n, trace);
      }
      finished := round.Done?;
      ret := if finished then round.ret else NoErr;
      assert Steps(fe, area, run.s, run.start, 0) == Some((run.s, run.start));
    }

    /** One round of the loop: translate what has been tagged, try all functions, and on a
        miss tag. */
    method RunRound(left: nat, ghost run: Began<S>, ghost n: nat, ghost trace: seq<Event>)
      returns (left': nat, round: Round, ghost n': nat, ghost trace': seq<Event>)
      requires Valid() && LostLabels() == run.lost
      requires Looping(fe, area, tm.Tags(), tm.dirty, functions, run, Point(m, pc, left, n, trace))
      modifies this, tm, tm.tag
      ensures Valid() && if old(tm.tag) == null then tm.tag == null || fresh(tm.tag) else tm.tag == old(tm.tag)
      ensures LostLabels() == run.lost && Free() <= old(Free())
      ensures round.Hits? || round.Misses? ==>
        Looping(fe, area, tm.Tags(), tm.dirty, functions, run, Point(m, pc, left', n', trace'))
      ensures round.Done? || round.OutOfFuel? ==> Stopped(fe, area, run, round, Point(m, pc, left', n', trace'))
      ensures left' <= left
      ensures (round.Hits? || round.Misses?) && left' == left ==> old(functions == [] && !tm.dirty) && tm.dirty
    {
      Translate();
      TranslateReadies(fe, area, old(tm.Tags()), old(tm.dirty), tm.Tags(), old(functions), functions, run,
                       Point(m, pc, left, n, trace));
      round, left', n', trace' := TryReady(left, run, n, trace);
      if round.Misses? {
        ghost var tags, at := tm.Tags(), Point(m, pc, left', n', trace');
        Tag(pc);
        trace' := trace' + [Miss];
        MissLoops(fe, area, tags, tm.Tags(), functions, run, at, Point(m, pc, left', n', trace'));
      }
    }

    /** The inner loop, with the books kept. */
    method TryReady(left: nat, ghost run: Began<S>, ghost n: nat, ghost trace: seq<Event>)
      returns (round: Round, left': nat, ghost n': nat, ghost trace': seq<Event>)
      requires Valid() && !tm.dirty && LostLabels() == run.lost
      requires Ready(fe, area, tm.Tags(), functions, run, Point(m, pc, left, n, trace))
      modifies `m, `pc
      ensures left' <= left && (functions != [] && !round.Done? && !round.OutOfFuel? ==> left' < left)
      ensures functions == [] ==> round.Misses?
      ensures var at := Point(m, pc, left', n', trace');
        match round
        case Misses => Missed(fe, area, tm.Tags(), functions, run, at)
        case Hits => Looping(fe, area, tm.Tags(), false, functions, run, at)
        case _ => Stopped(fe, area, run, round, at)
    {
      ghost var k;
      ghost var at := Point(m, pc, left, n, trace);
      round, left', k := TryFunctions(left);
      n', trace' := n, trace;
      if round.Misses? {
        ReadyMisses(fe, area, tm.Tags(), functions, run, at, Point(m, pc, left', n', trace'), k);
      } else if round.Hits? {
        n', trace' := n + k, trace + [Hit];
        HitLoops(fe, area, tm.Tags(), functions, run, at, Point(m, pc, left', n', trace'), k);
      } else {
        RoundStops(fe, area, tm.Tags(), functions, run, at, Point(m, pc, left', n', trace'), round, k);
      }
    }
  }
}
