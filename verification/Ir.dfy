/** The little intermediate language translated code is written in, and what running it does.
    A function is a list of basic blocks; blocks 0, 1 and 2 are the entry, return and trap
    blocks every function has. */
module Ir {
  import opened Guest

  datatype ExitCode = NoErr | FuncNotFound | SingleStep | TrapExit

  type BlockId = nat

  datatype Op =
    | Exec(pc: Addr)                                      // what the frontend emits for the instruction at pc
    | StorePc(pc: Addr)
    | SetExit(code: ExitCode)
    | Br(target: BlockId)
    | CondBr(pc: Addr, taken: BlockId, notTaken: BlockId) // on the condition of the instruction at pc
    | Switch(otherwise: BlockId)                          // on the stored PC, over the function's cases
    | Return                                              // spill the registers and return the exit code
  {
    predicate IsTerminator() { Br? || CondBr? || Switch? || Return? }
  }

  type Block = seq<Op>

  const ENTRY: BlockId := 0
  const RET: BlockId := 1
  const TRAP: BlockId := 2

  /** Nothing has ended this block yet. */
  ghost predicate Open(b: Block) {
    forall i | 0 <= i < |b| :: !b[i].IsTerminator()
  }

  /** The block has exactly one terminator, and it comes last. */
  ghost predicate Finished(b: Block) {
    |b| > 0 && b[|b| - 1].IsTerminator() && Open(b[..|b| - 1])
  }

  /** `labels` is the address-to-block map of the function, `cases` the cases of its switch. */
  datatype Fn = Fn(blocks: seq<Block>, labels: map<Addr, BlockId>, cases: map<Addr, BlockId>, dispatch: BlockId)

  // ---------- execution ----------

  /** `pc` is the PC variable in memory. */
  datatype Config<+S> = Config(block: BlockId, index: nat, s: S, pc: Addr, code: ExitCode)

  datatype Progress<+S> =
    | Go(c: Config<S>)
    | Exit(s: S, pc: Addr, code: ExitCode)
    | Stuck

  function Advance<S(!new), M(!new)>(fe: Frontend<S, M>, fn: Fn, c: Config<S>): Progress<S> {
    if c.block >= |fn.blocks| || c.index >= |fn.blocks[c.block]| then Stuck
    else
      var next := c.(index := c.index + 1);
      match fn.blocks[c.block][c.index]
      case Exec(a) =>
        var e := fe.effect(a, c.s);
        Go(next.(s := e.s, pc := if e.storedPc.Some? then e.storedPc.value else c.pc))
      case StorePc(a) => Go(next.(pc := a))
      case SetExit(code) => Go(next.(code := code))
      case Br(b) => Go(c.(block := b, index := 0))
      case CondBr(a, b, b') => Go(c.(block := if fe.cond(a, c.s) then b else b', index := 0))
      case Switch(b) => Go(c.(block := if c.pc in fn.cases then fn.cases[c.pc] else b, index := 0))
      case Return => Exit(c.s, c.pc, c.code)
  }

  /** The result of at most `fuel` steps; `left` is the fuel not needed. */
  datatype Outcome<+S> =
    | Running(c: Config<S>)
    | Returned(s: S, pc: Addr, code: ExitCode, left: nat)
    | Broken

  function Run<S(!new), M(!new)>(fe: Frontend<S, M>, fn: Fn, c: Config<S>, fuel: nat): (r: Outcome<S>)
    ensures r.Returned? ==> r.left < fuel
    decreases fuel
  {
    if fuel == 0 then Running(c)
    else match Advance(fe, fn, c)
      case Go(c') => Run(fe, fn, c', fuel - 1)
      case Exit(s, pc, code) => Returned(s, pc, code, fuel - 1)
      case Stuck => Broken
  }

  /** Calling the function with the registers decoded to `s` and `pc` in the PC variable. */
  function Start<S>(s: S, pc: Addr): Config<S> {
    Config(ENTRY, 0, s, pc, NoErr)
  }

  lemma {:induction false} RunOnwards<S(!new), M(!new)>(fe: Frontend<S, M>, fn: Fn, c: Config<S>, m: nat, n: nat)
    requires Run(fe, fn, c, m).Running?
    ensures Run(fe, fn, c, m + n) == Run(fe, fn, Run(fe, fn, c, m).c, n)
    decreases m
  {
    if m > 0 {
      RunOnwards(fe, fn, Advance(fe, fn, c).c, m - 1, n);
    }
  }

  lemma {:induction false} StillRunning<S(!new), M(!new)>(fe: Frontend<S, M>, fn: Fn, c: Config<S>, m: nat, n: nat)
    requires Run(fe, fn, c, m).Running? && n <= m
    ensures Run(fe, fn, c, n).Running?
    decreases n
  {
    if n > 0 {
      StillRunning(fe, fn, Advance(fe, fn, c).c, m - 1, n - 1);
    }
  }
}
