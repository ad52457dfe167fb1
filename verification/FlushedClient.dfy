/** A client that flushes in the middle of normal operation, as `test/m88k/run88.cpp` does. */
module FlushedClient {
  import opened Guest
  import opened Ir
  import opened Tagging
  import opened Translate
  import opened Interface

  /** A guest of one instruction: at 0 it branches to 1, outside the code area. */
  const GUEST: Frontend<int, int> := Frontend(
    (a: Addr) => TagInfo({TagBranch}, 1, Plus(a, 1), 1),
    (a, s) => false,
    (a, s) => Effect(s, None),
    a => 1,
    m => m,
    s => s)

  const AREA := Area(0, 1)

  /** Reaching `pc` is a matter of one instruction, and needs no label anywhere else. */
  lemma GuestIsFine()
    ensures Contract(GUEST, AREA)
    ensures forall s: int :: Until(GUEST, AREA, s, 0, 1) == Some(Next(s, 1))
    ensures forall s: int :: Clear(GUEST, AREA, s, 0, {})
  {
    forall pc: Addr
      ensures GUEST.WellBehaved(pc)
    {
      assert GUEST.tagInstr(pc).tag * BASE_BITS == {TagBranch};
    }
    forall s: int
      ensures Until(GUEST, AREA, s, 0, 1) == Some(Next(s, 1))
    {
      assert Step(GUEST, s, 0) == Next(s, 1);
      assert Until(GUEST, AREA, s, 1, 0) == Some(Next(s, 1));
    }
  }

  /** Whatever the guest: a client that has the current PC tagged, flushes, has new tags
      translated, and then runs an address that was translated before never gets control
      back, with any amount of fuel. */
  method FlushAndRun<S(!new), M(!new)>(cpu: Cpu<S, M>, a: Addr, fuel: nat) returns (finished: bool)
    requires cpu.Valid() && cpu.area.Contains(a) && a !in cpu.Free()
    modifies cpu, cpu.tm, cpu.tm.tag
    ensures !finished
  {
    cpu.Tag(cpu.pc);
    cpu.Flush();
    cpu.Translate();
    cpu.pc := a;
    var ret;
    ghost var trace;
    finished, ret, trace := cpu.Run(fuel);
  }

  /** The guest is tagged and translated before it is run. */
  method Started() returns (cpu: Cpu<int, int>)
    ensures fresh(cpu) && fresh(cpu.tm) && (cpu.tm.tag == null || fresh(cpu.tm.tag))
    ensures cpu.Valid() && cpu.fe == GUEST && cpu.area == AREA && cpu.m == 0 && cpu.pc == 0
    ensures |cpu.functions| == 1 && cpu.LostLabels() == {} && cpu.Free() == {}
  {
    GuestIsFine();
    cpu := new Cpu(GUEST, AREA, Options(false, false, false), [], 0, 0);
    cpu.Tag(0);
    cpu.Translate();
  }

  /** The client runs the guest, flushes, sends the guest back to its beginning, and runs it
      again. The first run comes back; the second one never does, although the reference
      machine ends after one instruction both times. */
  method RunFlushRun(fuel: nat) returns (first: bool, second: bool)
    ensures fuel > 152 ==> first
    ensures !second
  {
    var cpu := Started();
    GuestIsFine();
    assert Budget(1, 0, 1) == 152;
    var ret;
    ghost var trace;
    first, ret, trace := cpu.Run(fuel);
    second := FlushAndRun(cpu, 0, fuel);
  }
}
