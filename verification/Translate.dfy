/** From tags to basic blocks: `libcpu/basicblock.cpp`, `libcpu/translate.cpp`,
    `libcpu/translate_all.cpp` and the standard blocks of `libcpu/function.cpp`. */
module Translate {
  import opened Guest
  import opened Ir
  import opened Tagging

  /** What a block is for; the source encodes this in the block's name. */
  datatype BlockName =
    | Standard
    | Normal(pc: Addr)      // BB_TYPE_NORMAL
    | Cond(pc: Addr)        // BB_TYPE_COND
    | Delay(pc: Addr)       // BB_TYPE_DELAY
    | External(pc: Addr)    // BB_TYPE_EXTERNAL

  /** `is_start_of_basicblock`, on the tag of the address. */
  predicate IsStart(t: Tag) {
    t * START_BITS != {} && TagCode in t
  }

  // ---------- what translated code looks like ----------

  /** Blocks are only ever appended to, and added. */
  ghost predicate Grown(blocks: seq<Block>, blocks': seq<Block>) {
    |blocks| <= |blocks'| && forall i | 0 <= i < |blocks| :: blocks[i] <= blocks'[i]
  }

  ghost predicate HasOp(fn: Fn, b: BlockId, j: nat, op: Op) {
    b < |fn.blocks| && j < |fn.blocks[b]| && fn.blocks[b][j] == op
  }

  /** Branching to `b` continues at guest address `pc`: `b` is its label, or, when it has
      none here, stores `pc` and returns. */
  ghost predicate Reaches(fn: Fn, b: BlockId, pc: Addr) {
    if pc in fn.labels then fn.labels[pc] == b
    else HasOp(fn, b, 0, StorePc(pc)) && HasOp(fn, b, 1, Br(RET))
  }

  /** `b` is where control goes after the instruction at `pc` has been executed. */
  ghost predicate IsTarget<S(!new), M(!new)>(fe: Frontend<S, M>, fn: Fn, pc: Addr, b: BlockId) {
    var t := fe.tagInstr(pc);
    if TagTrap in t.tag then b == TRAP
    else if fe.ComputesTarget(pc) then b == fn.dispatch
    else Reaches(fn, b, if TagCall in t.tag || TagBranch in t.tag then t.newPc else t.nextPc)
  }

  ghost predicate BranchesAt<S(!new), M(!new)>(fe: Frontend<S, M>, fn: Fn, b: BlockId, j: nat, pc: Addr) {
    b < |fn.blocks| && j < |fn.blocks[b]| && fn.blocks[b][j].Br? && IsTarget(fe, fn, pc, fn.blocks[b][j].target)
  }

  /** The instruction at `pc`, with its delay slot if it has one, stands at (b, j). Unless
      it is left `open` to be continued, it is followed by the branch to its target. */
  ghost predicate ExecutesAt<S(!new), M(!new)>(fe: Frontend<S, M>, fn: Fn, b: BlockId, j: nat, pc: Addr, open: bool) {
    && HasOp(fn, b, j, Exec(pc))
    && (fe.HasDelaySlot(pc) ==> HasOp(fn, b, j + 1, Exec(fe.DelayPc(pc))))
    && (open || BranchesAt(fe, fn, b, if fe.HasDelaySlot(pc) then j + 2 else j + 1, pc))
  }

  /** The instruction at `pc` is translated at (b, j), condition and all. */
  ghost predicate TranslatedAt<S(!new), M(!new)>(fe: Frontend<S, M>, fn: Fn, b: BlockId, j: nat, pc: Addr, open: bool) {
    if !fe.IsConditional(pc) then ExecutesAt(fe, fn, b, j, pc, open)
    else
      && b < |fn.blocks| && j < |fn.blocks[b]| && fn.blocks[b][j].CondBr? && fn.blocks[b][j].pc == pc
      && var op := fn.blocks[b][j];
      && ExecutesAt(fe, fn, op.taken, 0, pc, open)
      && if fe.HasDelaySlot(pc) then
           && HasOp(fn, op.notTaken, 0, Exec(fe.DelayPc(pc)))
           && 1 < |fn.blocks[op.notTaken]| && fn.blocks[op.notTaken][1].Br?
           && Reaches(fn, fn.blocks[op.notTaken][1].target, fe.tagInstr(pc).nextPc)
         else Reaches(fn, op.notTaken, fe.tagInstr(pc).nextPc)
  }

  /** An instruction after which a block simply goes on. */
  predicate IsPlain<S(!new), M(!new)>(fe: Frontend<S, M>, pc: Addr) {
    fe.tagInstr(pc).tag * (INSTR_BITS - {TagContinue}) == {}
  }

  /** The address `n` instructions further on. */
  function Nth<S(!new), M(!new)>(fe: Frontend<S, M>, pc: Addr, n: nat): Addr {
    if n == 0 then pc else fe.tagInstr(Nth(fe, pc, n - 1)).nextPc
  }

  /** Block `b` starts with `n` plain instructions from `pc` on. */
  ghost predicate StartsPlain<S(!new), M(!new)>(fe: Frontend<S, M>, area: Area, fn: Fn, b: BlockId, pc: Addr, n: nat) {
    forall i: nat | i < n ::
      area.Contains(Nth(fe, pc, i)) && IsPlain(fe, Nth(fe, pc, i)) && HasOp(fn, b, i, Exec(Nth(fe, pc, i)))
  }

  /** Block `b` translates the guest code at `pc`, up to where it ends with instruction `n`. */
  ghost predicate BlockOf<S(!new), M(!new)>(fe: Frontend<S, M>, area: Area, fn: Fn, b: BlockId, pc: Addr, n: nat) {
    && StartsPlain(fe, area, fn, b, pc, n)
    && area.Contains(Nth(fe, pc, n))
    && TranslatedAt(fe, fn, b, n, Nth(fe, pc, n), false)
  }

  /** Of the `n` instructions after the first one, none is at an address in `avoid`. */
  ghost predicate InsideAvoids<S(!new), M(!new)>(fe: Frontend<S, M>, pc: Addr, n: nat, avoid: set<Addr>) {
    forall k: nat | 0 < k <= n :: Nth(fe, pc, k) !in avoid
  }

  ghost predicate BlockFor<S(!new), M(!new)>(fe: Frontend<S, M>, area: Area, fn: Fn, b: BlockId, pc: Addr,
                                             avoid: set<Addr>)
  {
    exists n: nat :: BlockOf(fe, area, fn, b, pc, n) && InsideAvoids(fe, pc, n, avoid)
  }

  ghost predicate HasBlock<S(!new), M(!new)>(fe: Frontend<S, M>, area: Area, fn: Fn, pc: Addr, avoid: set<Addr>) {
    pc in fn.labels && BlockFor(fe, area, fn, fn.labels[pc], pc, avoid)
  }

  /** The standard blocks are in place, and the switch has a case for each label. */
  ghost predicate WellFormed(fn: Fn) {
    && |fn.blocks| > 2
    && fn.blocks[ENTRY] == [SetExit(FuncNotFound), Br(fn.dispatch)]
    && fn.blocks[RET] == [Return]
    && fn.blocks[TRAP] == [SetExit(TrapExit), Br(RET)]
    && fn.dispatch < |fn.blocks| && fn.blocks[fn.dispatch] == [Switch(RET)]
    && fn.cases == fn.labels
  }

  /** The whole function does what it should, and runs into no address of `avoid` without
      going through the dispatch switch or a branch. */
  ghost predicate Compiled<S(!new), M(!new)>(fe: Frontend<S, M>, area: Area, fn: Fn, avoid: set<Addr>) {
    && WellFormed(fn)
    && forall pc {:trigger HasBlock(fe, area, fn, pc, avoid)} | pc in fn.labels :: HasBlock(fe, area, fn, pc, avoid)
  }

  /** Every block has exactly one terminator, in last place. */
  ghost predicate AllFinished(blocks: seq<Block>) {
    forall b | 0 <= b < |blocks| :: Finished(blocks[b])
  }

  lemma TranslatedStays<S(!new), M(!new)>(fe: Frontend<S, M>, fn: Fn, fn': Fn, b: BlockId, j: nat, pc: Addr, open: bool)
    requires TranslatedAt(fe, fn, b, j, pc, open)
    requires Grown(fn.blocks, fn'.blocks) && fn'.labels == fn.labels && fn'.dispatch == fn.dispatch
    ensures TranslatedAt(fe, fn', b, j, pc, open)
  {
  }

  lemma TargetStays<S(!new), M(!new)>(fe: Frontend<S, M>, fn: Fn, fn': Fn, pc: Addr, b: BlockId)
    requires Grown(fn.blocks, fn'.blocks) && fn'.labels == fn.labels && fn'.dispatch == fn.dispatch
    ensures IsTarget(fe, fn, pc, b) ==> IsTarget(fe, fn', pc, b)
    ensures forall a: Addr | Reaches(fn, b, a) :: Reaches(fn', b, a)
  {
  }

  /** A block stays right while the function grows, also if there is less to avoid. */
  lemma BlockStays<S(!new), M(!new)>(fe: Frontend<S, M>, area: Area, fn: Fn, fn': Fn, pc: Addr,
                                     avoid: set<Addr>, avoid': set<Addr>)
    requires HasBlock(fe, area, fn, pc, avoid) && avoid' <= avoid
    requires Grown(fn.blocks, fn'.blocks) && fn'.labels == fn.labels && fn'.dispatch == fn.dispatch
    ensures HasBlock(fe, area, fn', pc, avoid')
  {
    var n: nat :| BlockOf(fe, area, fn, fn.labels[pc], pc, n) && InsideAvoids(fe, pc, n, avoid);
    TranslatedStays(fe, fn, fn', fn.labels[pc], n, Nth(fe, pc, n), false);
    assert BlockOf(fe, area, fn', fn'.labels[pc], pc, n);
    assert InsideAvoids(fe, pc, n, avoid');
  }

  // ---------- building it ----------

  /** Control can leave the instruction at `a` for `x` by a transfer, or by not being taken. */
  predicate Leaves<S(!new), M(!new)>(fe: Frontend<S, M>, a: Addr, x: Addr) {
    var t := fe.tagInstr(a);
    || (t.tag * {TagCall, TagBranch} != {} && x == t.newPc && x != NEW_PC_NONE)
    || (TagConditional in t.tag && x == t.nextPc)
  }

  ghost predicate OpAt(blocks: seq<Block>, b: BlockId, j: nat, op: Op) {
    b < |blocks| && j < |blocks[b]| && blocks[b][j] == op
  }

  /** The instruction itself, with its delay slot and final branch, from (b, j) on. */
  ghost predicate BodyShape<S(!new), M(!new)>(fe: Frontend<S, M>, blocks: seq<Block>, b: BlockId, j: nat, pc: Addr,
                                              target: BlockId)
  {
    var t := fe.tagInstr(pc).tag;
    && OpAt(blocks, b, j, Exec(pc))
    && (fe.HasDelaySlot(pc) ==> OpAt(blocks, b, j + 1, Exec(fe.DelayPc(pc))))
    && (TagContinue in t
        || OpAt(blocks, b, if fe.HasDelaySlot(pc) then j + 2 else j + 1, Br(if TagTrap in t then TRAP else target)))
  }

  /** What `translate_instr` leaves behind at (b, j). */
  ghost predicate Shape<S(!new), M(!new)>(fe: Frontend<S, M>, blocks: seq<Block>, b: BlockId, j: nat, pc: Addr,
                                          target: BlockId, next: BlockId)
  {
    if !fe.IsConditional(pc) then BodyShape(fe, blocks, b, j, pc, target)
    else
      && b < |blocks| && j < |blocks[b]| && blocks[b][j].CondBr? && blocks[b][j].pc == pc
      && BodyShape(fe, blocks, blocks[b][j].taken, 0, pc, target)
      && if fe.HasDelaySlot(pc) then
           && OpAt(blocks, blocks[b][j].notTaken, 0, Exec(fe.DelayPc(pc)))
           && OpAt(blocks, blocks[b][j].notTaken, 1, Br(next))
         else blocks[b][j].notTaken == next
  }

  lemma ShapeTranslates<S(!new), M(!new)>(fe: Frontend<S, M>, fn: Fn, b: BlockId, j: nat, pc: Addr, target: BlockId,
                                          next: BlockId)
    requires fe.WellBehaved(pc) && Shape(fe, fn.blocks, b, j, pc, target, next)
    requires TagCall in fe.tagInstr(pc).tag || TagBranch in fe.tagInstr(pc).tag || TagRet in fe.tagInstr(pc).tag
             ==> IsTarget(fe, fn, pc, target)
    requires fe.IsConditional(pc) ==> Reaches(fn, next, fe.tagInstr(pc).nextPc)
    ensures TranslatedAt(fe, fn, b, j, pc, TagContinue in fe.tagInstr(pc).tag)
  {
    var t := fe.tagInstr(pc).tag;
    var k :| t * BASE_BITS == {k};
    assert k in t * BASE_BITS;
    fe.OneKind(pc, k);
  }

  /** `blocks` with `ops` appended to block `b`. */
  function Appended(blocks: seq<Block>, b: BlockId, ops: seq<Op>): (r: seq<Block>)
    requires b < |blocks|
    ensures |r| == |blocks| && r[b] == blocks[b] + ops
    ensures forall i | 0 <= i < |blocks| && i != b :: r[i] == blocks[i]
  {
    blocks[b := blocks[b] + ops]
  }

  /** Two lists of blocks are the same if their blocks are. */
  lemma SameBlocks(blocks: seq<Block>, blocks': seq<Block>)
    requires |blocks| == |blocks'|
    requires forall i | 0 <= i < |blocks| :: blocks[i] == blocks'[i]
    ensures blocks == blocks'
  {
  }

  /** How the instruction ends the block it is in, if it does. */
  function Ending(tag: Tag, target: BlockId): seq<Op> {
    if tag * {TagBranch, TagCall, TagRet} != {} then [Br(target)]
    else if TagTrap in tag then [Br(TRAP)]
    else []
  }

  /** The blocks after `translate_instr` has dealt with the instruction at `pc` in `cur`. */
  function InstrBlocks<S(!new), M(!new)>(fe: Frontend<S, M>, blocks: seq<Block>, pc: Addr, tag: Tag, target: BlockId,
                                         next: BlockId, cur: BlockId): (r: seq<Block>)
    requires cur < |blocks|
    ensures |blocks| <= |r| && blocks[cur] <= r[cur]
    ensures forall i | 0 <= i < |blocks| && i != cur :: r[i] == blocks[i]
  {
    var n, delay := |blocks|, fe.DelayPc(pc);
    if TagDelaySlot in tag then
      if TagConditional in tag then
        Appended(blocks, cur, [CondBr(pc, n, n + 1)]) + [[Exec(pc), Exec(delay), Br(target)], [Exec(delay), Br(next)]]
      else Appended(blocks, cur, [Exec(pc), Exec(delay), Br(target)])
    else if TagConditional in tag then
      Appended(blocks, cur, [CondBr(pc, n, next)]) + [[Exec(pc)] + Ending(tag, target)]
    else Appended(blocks, cur, [Exec(pc)] + Ending(tag, target))
  }

  /** Some instruction that has been found refers to `x`: control can leave it for `x`, or
      it falls through to `x`, and `x` is a block start or no code. */
  predicate Refers<S(!new), M(!new)>(fe: Frontend<S, M>, area: Area, tags: seq<Tag>, a: Addr, x: Addr) {
    && area.Contains(a) && TagCode in TagAt(area, tags, a)
    && (Leaves(fe, a, x)
        || (TagContinue in fe.tagInstr(a).tag && x == fe.tagInstr(a).nextPc
            && (TagCode in TagAt(area, tags, x) ==> IsStart(TagAt(area, tags, x)))))
  }

  ghost predicate IsReferredTo<S(!new), M(!new)>(fe: Frontend<S, M>, area: Area, tags: seq<Tag>, x: Addr) {
    exists a :: Refers(fe, area, tags, a, x)
  }

  /** A tag word as found in the tag array says what the instruction's own tag says. */
  lemma TagSays<S(!new), M(!new)>(fe: Frontend<S, M>, pc: Addr, tag: Tag, target: BlockId)
    requires fe.WellBehaved(pc) && tag * INSTR_BITS == fe.tagInstr(pc).tag
    ensures forall b | b in INSTR_BITS :: b in tag <==> b in fe.tagInstr(pc).tag
    ensures tag * {TagCall, TagBranch} == fe.tagInstr(pc).tag * {TagCall, TagBranch}
    ensures tag * {TagCall, TagBranch, TagRet} == fe.tagInstr(pc).tag * {TagCall, TagBranch, TagRet}
    ensures Ending(tag, target) ==
      if TagContinue in tag then [] else [Br(if TagTrap in tag then TRAP else target)]
    ensures TagTrap in tag ==> tag * {TagCall, TagBranch, TagRet} == {}
    ensures TagRet in tag ==> tag * {TagCall, TagBranch} == {}
    ensures TagDelaySlot in tag ==> TagContinue !in tag && TagTrap !in tag
  {
    var t := fe.tagInstr(pc).tag;
    assert forall b | b in INSTR_BITS :: b in tag <==> b in tag * INSTR_BITS;
    var k :| t * BASE_BITS == {k};
    assert k in t * BASE_BITS;
    fe.OneKind(pc, k);
    assert tag * {TagBranch, TagCall, TagRet} != {} <==> k in {TagBranch, TagCall, TagRet} by {
      if k in {TagBranch, TagCall, TagRet} {
        assert k in tag * {TagBranch, TagCall, TagRet};
      } else {
        assert forall b | b in tag * {TagBranch, TagCall, TagRet} :: b in t;
      }
    }
    if TagDelaySlot in tag {
      assert exists b :: b in t * {TagCall, TagRet, TagBranch};
    }
  }

  lemma FinishedByLast(b: Block)
    requires |b| > 0 && b[|b| - 1].IsTerminator() && forall i | 0 <= i < |b| - 1 :: !b[i].IsTerminator()
    ensures Finished(b)
  {
  }

  /** Those blocks have the right shape. */
  lemma InstrBlocksShape<S(!new), M(!new)>(fe: Frontend<S, M>, blocks: seq<Block>, pc: Addr, tag: Tag, target: BlockId,
                                           next: BlockId, cur: BlockId)
    requires fe.WellBehaved(pc) && tag * INSTR_BITS == fe.tagInstr(pc).tag
    requires cur < |blocks|
    ensures Shape(fe, InstrBlocks(fe, blocks, pc, tag, target, next, cur), cur, |blocks[cur]|, pc, target, next)
  {
    TagSays(fe, pc, tag, target);
    assert TagConditional in INSTR_BITS && TagDelaySlot in INSTR_BITS;
    assert TagTrap in INSTR_BITS && TagContinue in INSTR_BITS;
  }

  /** `blocks'` is `blocks` with something appended to block `first`, and new blocks. All
      of these are finished, except that `cont` may still be open. */
  ghost predicate Adds(blocks: seq<Block>, blocks': seq<Block>, first: BlockId, cont: Option<BlockId>) {
    && first < |blocks| <= |blocks'|
    && blocks[first] <= blocks'[first]
    && (forall b | 0 <= b < |blocks| && b != first :: blocks'[b] == blocks[b])
    && (forall b | |blocks| <= b < |blocks'| && cont != Some(b) :: Finished(blocks'[b]))
    && (cont != Some(first) ==> Finished(blocks'[first]))
  }

  /** After the instruction at `pc`, added to block `first`, execution continues in `cont`:
      at the end of `first`, or of the block of the taken case. */
  ghost predicate ContinuesIn(blocks: seq<Block>, blocks': seq<Block>, tag: Tag, pc: Addr, first: BlockId,
                              cont: BlockId)
  {
    && first < |blocks| <= |blocks'| && cont < |blocks'| && Open(blocks'[cont])
    && if TagConditional in tag then
         && |blocks| <= cont && |blocks'[cont]| == 1
         && |blocks[first]| < |blocks'[first]|
         && blocks'[first][|blocks[first]|].CondBr? && blocks'[first][|blocks[first]|].taken == cont
       else cont == first && blocks'[first] == blocks[first] + [Exec(pc)]
  }

  /** Translating an instruction, after its targets have been looked up, leaves all blocks
      finished except the one execution continues in. */
  lemma InstrBlocksAdd<S(!new), M(!new)>(fe: Frontend<S, M>, blocks: seq<Block>, found: seq<Block>, pc: Addr, tag: Tag,
                                         target: BlockId, next: BlockId, first: BlockId)
    requires fe.WellBehaved(pc) && tag * INSTR_BITS == fe.tagInstr(pc).tag
    requires first < |blocks| && blocks <= found && Open(blocks[first])
    requires forall b | |blocks| <= b < |found| :: Finished(found[b])
    ensures TagDelaySlot in tag ==> TagContinue !in tag
    ensures var r := InstrBlocks(fe, found, pc, tag, target, next, first);
            var cont := if TagConditional in tag then |found| else first;
      && Adds(blocks, r, first, if TagContinue in tag then Some(cont) else None)
      && (TagContinue in tag ==> ContinuesIn(blocks, r, tag, pc, first, cont))
  {
    TagSays(fe, pc, tag, target);
    var r := InstrBlocks(fe, found, pc, tag, target, next, first);
    assert found[first] == blocks[first];
    forall b | (|found| <= b < |r| || b == first)
               && !(TagContinue in tag && b == if TagConditional in tag then |found| else first)
      ensures Finished(r[b])
    {
      FinishedByLast(r[b]);
    }
  }

  /** The instruction has the right effect wherever its targets were right. */
  lemma InstrBlocksTranslate<S(!new), M(!new)>(fe: Frontend<S, M>, fn: Fn, pc: Addr, tag: Tag, target: BlockId,
                                               next: BlockId, cur: BlockId)
    requires fe.WellBehaved(pc) && tag * INSTR_BITS == fe.tagInstr(pc).tag
    requires cur < |fn.blocks|
    requires tag * {TagCall, TagBranch, TagRet} != {} ==> IsTarget(fe, fn, pc, target)
    requires TagConditional in tag ==> Reaches(fn, next, fe.tagInstr(pc).nextPc)
    ensures TranslatedAt(fe, fn.(blocks := InstrBlocks(fe, fn.blocks, pc, tag, target, next, cur)),
                         cur, |fn.blocks[cur]|, pc, TagContinue in tag)
  {
    var fn' := fn.(blocks := InstrBlocks(fe, fn.blocks, pc, tag, target, next, cur));
    TagSays(fe, pc, tag, target);
    InstrBlocksShape(fe, fn.blocks, pc, tag, target, next, cur);
    TargetStays(fe, fn, fn', pc, target);
    TargetStays(fe, fn, fn', pc, next);
    ShapeTranslates(fe, fn', cur, |fn.blocks[cur]|, pc, target, next);
  }

  lemma AddsMore(blocks: seq<Block>, blocks': seq<Block>, blocks'': seq<Block>, first: BlockId, cont: Option<BlockId>)
    requires Adds(blocks, blocks', first, Some(first)) && Adds(blocks', blocks'', first, cont)
    requires cont.Some? ==> cont.value == first || cont.value >= |blocks'|
    ensures Adds(blocks, blocks'', first, cont)
  {
  }

  /** An unconditional instruction that falls through is plain, and extends its block. */
  lemma PlainExtends<S(!new), M(!new)>(fe: Frontend<S, M>, area: Area, fn: Fn, fn': Fn, b: BlockId, pc: Addr, n: nat,
                                       tag: Tag)
    requires b < |fn.blocks| && StartsPlain(fe, area, fn, b, pc, n) && |fn.blocks[b]| == n
    requires b < |fn'.blocks| && fn'.blocks[b] == fn.blocks[b] + [Exec(Nth(fe, pc, n))]
    requires area.Contains(Nth(fe, pc, n)) && fe.WellBehaved(Nth(fe, pc, n))
    requires tag * INSTR_BITS == fe.tagInstr(Nth(fe, pc, n)).tag && TagContinue in tag && TagConditional !in tag
    ensures StartsPlain(fe, area, fn', b, pc, n + 1)
  {
    var last := Nth(fe, pc, n);
    TagSays(fe, last, tag, ENTRY);
    assert TagContinue in INSTR_BITS && TagConditional in INSTR_BITS && TagDelaySlot in INSTR_BITS;
    fe.OneKind(last, TagContinue);
    assert IsPlain(fe, last);
    forall i: nat | i < n + 1
      ensures area.Contains(Nth(fe, pc, i)) && IsPlain(fe, Nth(fe, pc, i)) && HasOp(fn', b, i, Exec(Nth(fe, pc, i)))
    {
      assert i < n ==> HasOp(fn, b, i, Exec(Nth(fe, pc, i)));
    }
  }

  /** A function under construction: what there is of it, and the names of its blocks. */
  datatype Draft = Draft(fn: Fn, names: seq<BlockName>)

  /** Every new external block is one some instruction refers to, and has no label here. */
  ghost predicate NewNames<S(!new), M(!new)>(fe: Frontend<S, M>, area: Area, tags: seq<Tag>,
                                             labels: map<Addr, BlockId>, was: seq<BlockName>, names: seq<BlockName>)
  {
    && was <= names
    && forall b | |was| <= b < |names| :: names[b].External? ==>
         names[b].pc !in labels && IsReferredTo(fe, area, tags, names[b].pc)
  }

  lemma NamesGrow<S(!new), M(!new)>(fe: Frontend<S, M>, area: Area, tags: seq<Tag>, labels: map<Addr, BlockId>,
                                    was: seq<BlockName>, names: seq<BlockName>, names': seq<BlockName>, pc: Addr)
    requires NewNames(fe, area, tags, labels, was, names) && names <= names'
    requires area.Contains(pc) && TagCode in TagAt(area, tags, pc)
    requires forall b | |names| <= b < |names'| :: names'[b].External? ==>
      names'[b].pc !in labels && Leaves(fe, pc, names'[b].pc)
    ensures NewNames(fe, area, tags, labels, was, names')
  {
    forall b | |was| <= b < |names'| && names'[b].External?
      ensures IsReferredTo(fe, area, tags, names'[b].pc)
    {
      assert b >= |names| ==> Refers(fe, area, tags, pc, names'[b].pc);
    }
  }

  /** The addresses where a block has to start. */
  ghost function Starts(area: Area, tags: seq<Tag>): set<Addr> {
    set a: Addr | area.lo <= a < area.hi && IsStart(TagAt(area, tags, a))
  }

  /** Where the block-filling loop is: block `first` holds `n` plain instructions from
      `start` on, and the one at `pc` comes next. */
  datatype Place = Place(first: BlockId, start: Addr, pc: Addr, n: nat)

  /** What the instruction at the end of a block was: its tag, and, if it lets execution
      continue, in which block and at which address. */
  datatype Last = Last(tag: Tag, cont: Option<BlockId>, next: Addr)

  /** The state between two rounds of the block-filling loop. */
  ghost predicate Filling<S(!new), M(!new)>(fe: Frontend<S, M>, area: Area, tags: seq<Tag>, was: Draft, now: Draft,
                                            at: Place)
  {
    && now.fn.labels == was.fn.labels && now.fn.dispatch == was.fn.dispatch
    && NewNames(fe, area, tags, now.fn.labels, was.names, now.names)
    && Adds(was.fn.blocks, now.fn.blocks, at.first, Some(at.first))
    && Open(now.fn.blocks[at.first]) && |now.fn.blocks[at.first]| == at.n
    && at.pc == Nth(fe, at.start, at.n) && area.Contains(at.pc) && TagCode in TagAt(area, tags, at.pc)
    && StartsPlain(fe, area, now.fn, at.first, at.start, at.n)
    && InsideAvoids(fe, at.start, at.n, Starts(area, tags))
  }

  /** The state when the loop is over: the last instruction turned `prev` into `now`. */
  ghost predicate Filled<S(!new), M(!new)>(fe: Frontend<S, M>, area: Area, tags: seq<Tag>, was: Draft, prev: Fn,
                                           now: Draft, at: Place, last: Last)
  {
    && now.fn.labels == was.fn.labels && now.fn.dispatch == was.fn.dispatch
    && NewNames(fe, area, tags, now.fn.labels, was.names, now.names)
    && Adds(was.fn.blocks, now.fn.blocks, at.first, last.cont)
    && StartsPlain(fe, area, prev, at.first, at.start, at.n)
    && at.first < |prev.blocks| && |prev.blocks[at.first]| == at.n
    && at.pc == Nth(fe, at.start, at.n) && last.next == fe.tagInstr(at.pc).nextPc
    && area.Contains(at.pc) && fe.WellBehaved(at.pc) && last.tag * INSTR_BITS == fe.tagInstr(at.pc).tag
    && (last.cont.Some? <==> TagContinue in last.tag)
    && |was.fn.blocks| <= |prev.blocks| && Adds(prev.blocks, now.fn.blocks, at.first, last.cont)
    && (last.cont.Some? ==> ContinuesIn(prev.blocks, now.fn.blocks, last.tag, at.pc, at.first, last.cont.value)
                            && Refers(fe, area, tags, at.pc, last.next))
    && TranslatedAt(fe, now.fn, at.first, at.n, at.pc, TagContinue in last.tag)
    && InsideAvoids(fe, at.start, at.n, Starts(area, tags))
  }

  /** One more instruction in the block, and none that starts a block of its own. */
  lemma StaysInside<S(!new), M(!new)>(fe: Frontend<S, M>, area: Area, tags: seq<Tag>, start: Addr, n: nat)
    requires InsideAvoids(fe, start, n, Starts(area, tags))
    requires !IsStart(TagAt(area, tags, Nth(fe, start, n + 1)))
    ensures InsideAvoids(fe, start, n + 1, Starts(area, tags))
  {
    forall k: nat | 0 < k <= n + 1
      ensures Nth(fe, start, k) !in Starts(area, tags)
    {
      assert k <= n || k == n + 1;
    }
  }

  /** Execution that continues in `cont` has been made to go on to the code at `pc`. */
  ghost predicate Linked(fn: Fn, fn': Fn, cont: Option<BlockId>, pc: Addr) {
    && |fn.blocks| <= |fn'.blocks|
    && (forall b | 0 <= b < |fn.blocks| && cont != Some(b) :: fn'.blocks[b] == fn.blocks[b])
    && (forall b | |fn.blocks| <= b < |fn'.blocks| :: Finished(fn'.blocks[b]))
    && (cont.Some? && cont.value < |fn.blocks| ==> exists t ::
          fn'.blocks[cont.value] == fn.blocks[cont.value] + [Br(t)] && Reaches(fn', t, pc))
  }

  lemma LinkAdds(was: seq<Block>, fn: Fn, fn': Fn, first: BlockId, cont: Option<BlockId>, pc: Addr)
    requires Adds(was, fn.blocks, first, cont) && Linked(fn, fn', cont, pc)
    requires cont.Some? ==> cont.value < |fn.blocks| && Open(fn.blocks[cont.value])
                            && (cont.value == first || cont.value >= |was|)
    ensures Adds(was, fn'.blocks, first, None)
  {
    if cont.Some? {
      var t :| fn'.blocks[cont.value] == fn.blocks[cont.value] + [Br(t)] && Reaches(fn', t, pc);
      FinishedByLast(fn'.blocks[cont.value]);
    }
  }

  /** A conditional instruction is followed by the start of a block. */
  lemma NotConditional<S(!new), M(!new)>(fe: Frontend<S, M>, area: Area, opt: Options, tags: seq<Tag>, pc: Addr)
    requires Consistent(fe, area, opt, tags) && area.Contains(pc) && TagCode in TagAt(area, tags, pc)
    requires fe.IsConditional(pc) && TagCode in TagAt(area, tags, fe.tagInstr(pc).nextPc)
    ensures IsStart(TagAt(area, tags, fe.tagInstr(pc).nextPc))
  {
    assert Marked(fe, area, opt, tags, pc);
    assert TagAfterCond in TagAt(area, tags, fe.tagInstr(pc).nextPc) * START_BITS;
  }

  /** The block is complete once execution that continues has been linked to what follows. */
  lemma LinkCompletes<S(!new), M(!new)>(fe: Frontend<S, M>, area: Area, tags: seq<Tag>, was: Draft, prev: Fn,
                                        filled: Draft, linked: Fn, at: Place, last: Last)
    requires Filled(fe, area, tags, was, prev, filled, at, last)
    requires linked.labels == filled.fn.labels && linked.dispatch == filled.fn.dispatch
    requires Linked(filled.fn, linked, last.cont, last.next)
    ensures BlockFor(fe, area, linked, at.first, at.start, Starts(area, tags))
    ensures Adds(was.fn.blocks, linked.blocks, at.first, None)
  {
    TagSays(fe, at.pc, last.tag, ENTRY);
    assert TagContinue in INSTR_BITS && TagConditional in INSTR_BITS && TagDelaySlot in INSTR_BITS;
    TranslatedStays(fe, filled.fn, linked, at.first, at.n, at.pc, TagContinue in last.tag);
    assert StartsPlain(fe, area, linked, at.first, at.start, at.n) by {
      forall i: nat | i < at.n
        ensures HasOp(linked, at.first, i, Exec(Nth(fe, at.start, i)))
      {
        assert HasOp(prev, at.first, i, Exec(Nth(fe, at.start, i)));
      }
    }
    LinkAdds(was.fn.blocks, filled.fn, linked, at.first, last.cont, last.next);
    if last.cont.Some? {
      fe.OneKind(at.pc, TagContinue);
    }
    assert BlockOf(fe, area, linked, at.first, at.start, at.n);
  }

  /** The addresses a function translated now gets labels for. */
  ghost function Startable(area: Area, tags: seq<Tag>): set<Addr> {
    set a: Addr | area.lo <= a < area.hi && IsStart(TagAt(area, tags, a)) && TagTranslated !in TagAt(area, tags, a)
  }

  /** Translating has marked the addresses in `done`, and changed no other tag bit. */
  ghost predicate Translates(area: Area, tags: seq<Tag>, tags': seq<Tag>, done: set<Addr>) {
    && |tags'| == |tags|
    && forall a: Addr :: TagAt(area, tags', a) == TagAt(area, tags, a) + if a in done then {TagTranslated} else {}
  }

  lemma TranslatesNone(area: Area, tags: seq<Tag>)
    ensures Translates(area, tags, tags, Elements([]))
  {
  }

  lemma OneMoreTranslated(area: Area, tags: seq<Tag>, tags': seq<Tag>, order: seq<Addr>, i: nat, tags'': seq<Tag>)
    requires i < |order| && area.Contains(order[i]) && |tags| == area.hi - area.lo
    requires Translates(area, tags, tags', Elements(order[..i]))
    requires tags'' == Or(area, tags', order[i], {TagTranslated})
    ensures Translates(area, tags, tags'', Elements(order[..i + 1]))
  {
    OneMoreElement(order, i);
  }

  /** Marking labels as translated does not change where blocks have to start. */
  lemma SameStarts(area: Area, tags: seq<Tag>, tags': seq<Tag>, done: set<Addr>)
    requires Translates(area, tags, tags', done)
    ensures Starts(area, tags') == Starts(area, tags)
    ensures forall a: Addr :: IsStart(TagAt(area, tags', a)) <==> IsStart(TagAt(area, tags, a))
  {
    forall a: Addr
      ensures IsStart(TagAt(area, tags', a)) <==> IsStart(TagAt(area, tags, a))
    {
      assert TagAt(area, tags', a) * START_BITS == TagAt(area, tags, a) * START_BITS;
    }
  }

  /** Nor does it change what code there is, nor what refers to what. */
  lemma NamesOnwards<S(!new), M(!new)>(fe: Frontend<S, M>, area: Area, tags: seq<Tag>, tags': seq<Tag>,
                                       done: set<Addr>, labels: map<Addr, BlockId>, was: seq<BlockName>,
                                       names: seq<BlockName>, names': seq<BlockName>)
    requires Translates(area, tags, tags', done)
    requires NewNames(fe, area, tags, labels, was, names) && NewNames(fe, area, tags', labels, names, names')
    ensures NewNames(fe, area, tags, labels, was, names')
  {
    SameStarts(area, tags, tags', done);
    forall a, x | Refers(fe, area, tags', a, x)
      ensures Refers(fe, area, tags, a, x)
    {
      assert IsStart(TagAt(area, tags', x)) <==> IsStart(TagAt(area, tags, x));
    }
    forall b | |was| <= b < |names'| && names'[b].External?
      ensures names'[b].pc !in labels && IsReferredTo(fe, area, tags, names'[b].pc)
    {
      if b < |names| {
        assert names[b] == names'[b];
      } else {
        var a :| Refers(fe, area, tags', a, names'[b].pc);
        assert Refers(fe, area, tags, a, names'[b].pc);
      }
    }
  }

  /** `order` lists the labels of `fn` in ascending order; their blocks come right after the
      standard blocks and right before the dispatch block. */
  ghost predicate LaidOut(fn: Fn, order: seq<Addr>) {
    && (forall k, l | 0 <= k < l < |order| :: order[k] < order[l])
    && (forall a :: a in fn.labels <==> a in order)
    && (forall k | 0 <= k < |order| :: fn.labels[order[k]] == 3 + k)
    && fn.dispatch == 3 + |order| < |fn.blocks|
    && fn.blocks[fn.dispatch] == [Switch(RET)]
  }

  /** The first `i` labels have their blocks, those of the others are still empty. */
  ghost predicate Underway<S(!new), M(!new)>(fe: Frontend<S, M>, area: Area, fn: Fn, order: seq<Addr>, i: nat,
                                             avoid: set<Addr>)
  {
    && i <= |order| && fn.dispatch == 3 + |order| < |fn.blocks|
    && (forall k | 0 <= k < i :: HasBlock(fe, area, fn, order[k], avoid))
    && (forall b | 3 <= b < 3 + i || fn.dispatch <= b < |fn.blocks| :: Finished(fn.blocks[b]))
    && (forall b | 3 + i <= b < fn.dispatch :: fn.blocks[b] == [])
    && (forall a :: a in fn.cases <==> a in order[..i])
    && (forall a | a in fn.cases :: a in fn.labels && fn.cases[a] == fn.labels[a])
  }

  /** What translating a function begins with: the tag array, the standard blocks and their
      names, and the labels in their order. */
  datatype Plan = Plan(tags: seq<Tag>, std: seq<Block>, names: seq<BlockName>, order: seq<Addr>)

  /** The state between two rounds of the loop over the labels. */
  ghost predicate Translating<S(!new), M(!new)>(fe: Frontend<S, M>, area: Area, plan: Plan, tags: seq<Tag>, now: Draft,
                                                i: nat)
  {
    && i <= |plan.order| && |plan.tags| == area.hi - area.lo
    && Translates(area, plan.tags, tags, Elements(plan.order[..i]))
    && now.fn.labels.Keys == Startable(area, plan.tags)
    && NewNames(fe, area, plan.tags, now.fn.labels, plan.names, now.names)
    && |plan.std| == 3 && plan.std <= now.fn.blocks
    && LaidOut(now.fn, plan.order) && Underway(fe, area, now.fn, plan.order, i, Starts(area, plan.tags))
  }

  lemma OneMoreCase(fn: Fn, fn': Fn, order: seq<Addr>, i: nat)
    requires i < |order| && LaidOut(fn, order) && fn'.labels == fn.labels
    requires fn'.cases == fn.cases[order[i] := fn.labels[order[i]]]
    requires forall a :: a in fn.cases <==> a in order[..i]
    requires forall a | a in fn.cases :: a in fn.labels && fn.cases[a] == fn.labels[a]
    ensures forall a :: a in fn'.cases <==> a in order[..i + 1]
    ensures forall a | a in fn'.cases :: a in fn'.labels && fn'.cases[a] == fn'.labels[a]
  {
    assert order[..i + 1] == order[..i] + [order[i]];
  }

  lemma OneMoreBlock<S(!new), M(!new)>(fe: Frontend<S, M>, area: Area, was: Fn, fn: Fn, order: seq<Addr>, i: nat,
                                       avoid: set<Addr>)
    requires i < |order| && LaidOut(was, order)
    requires forall k | 0 <= k < i :: HasBlock(fe, area, was, order[k], avoid)
    requires fn.labels == was.labels && fn.dispatch == was.dispatch && Grown(was.blocks, fn.blocks)
    requires HasBlock(fe, area, fn, order[i], avoid)
    ensures forall k | 0 <= k < i + 1 :: HasBlock(fe, area, fn, order[k], avoid)
  {
    forall k | 0 <= k < i
      ensures HasBlock(fe, area, fn, order[k], avoid)
    {
      BlockStays(fe, area, was, fn, order[k], avoid, avoid);
    }
  }

  lemma StaysLaidOut(std: seq<Block>, was: Fn, fn: Fn, order: seq<Addr>, first: BlockId)
    requires LaidOut(was, order) && 3 <= first < was.dispatch && |std| == 3 && std <= was.blocks
    requires fn.labels == was.labels && fn.dispatch == was.dispatch && Adds(was.blocks, fn.blocks, first, None)
    ensures LaidOut(fn, order) && std <= fn.blocks && Grown(was.blocks, fn.blocks)
  {
    forall b | 0 <= b < 3
      ensures fn.blocks[b] == std[b]
    {
      assert fn.blocks[b] == was.blocks[b];
    }
  }

  lemma GetsUnderway<S(!new), M(!new)>(fe: Frontend<S, M>, area: Area, was: Fn, fn: Fn, order: seq<Addr>, i: nat,
                                       avoid: set<Addr>)
    requires i < |order| && LaidOut(was, order) && Underway(fe, area, was, order, i, avoid)
    requires fn.labels == was.labels && fn.dispatch == was.dispatch
    requires fn.cases == was.cases[order[i] := was.labels[order[i]]]
    requires Adds(was.blocks, fn.blocks, 3 + i, None) && HasBlock(fe, area, fn, order[i], avoid)
    ensures Underway(fe, area, fn, order, i + 1, avoid)
  {
    OneMoreCase(was, fn, order, i);
    OneMoreBlock(fe, area, was, fn, order, i, avoid);
    forall b | 3 <= b < 3 + (i + 1) || fn.dispatch <= b < |fn.blocks|
      ensures Finished(fn.blocks[b])
    {
      assert b < |was.blocks| && b != 3 + i ==> fn.blocks[b] == was.blocks[b];
    }
  }

  lemma LabelDone<S(!new), M(!new)>(fe: Frontend<S, M>, area: Area, plan: Plan, tags: seq<Tag>, tags': seq<Tag>,
                                    was: Draft, now: Draft, i: nat)
    requires i < |plan.order| && Translating(fe, area, plan, tags, was, i)
    requires tags' == Or(area, tags, plan.order[i], {TagTranslated})
    requires NewNames(fe, area, tags', now.fn.labels, was.names, now.names)
    requires now.fn.labels == was.fn.labels && now.fn.dispatch == was.fn.dispatch
    requires now.fn.cases == was.fn.cases[plan.order[i] := was.fn.labels[plan.order[i]]]
    requires Adds(was.fn.blocks, now.fn.blocks, 3 + i, None)
    requires HasBlock(fe, area, now.fn, plan.order[i], Starts(area, tags'))
    ensures Translating(fe, area, plan, tags', now, i + 1)
  {
    assert plan.order[i] in was.fn.labels.Keys;
    OneMoreTranslated(area, plan.tags, tags, plan.order, i, tags');
    SameStarts(area, plan.tags, tags', Elements(plan.order[..i + 1]));
    NamesOnwards(fe, area, plan.tags, tags', Elements(plan.order[..i + 1]), now.fn.labels,
                 plan.names, was.names, now.names);
    StaysLaidOut(plan.std, was.fn, now.fn, plan.order, 3 + i);
    GetsUnderway(fe, area, was.fn, now.fn, plan.order, i, Starts(area, plan.tags));
  }

  lemma LabelReady<S(!new), M(!new)>(fe: Frontend<S, M>, area: Area, plan: Plan, tags: seq<Tag>, now: Draft, i: nat)
    requires i < |plan.order| && Translating(fe, area, plan, tags, now, i)
    ensures plan.order[i] in now.fn.labels && now.fn.labels[plan.order[i]] == 3 + i < |now.fn.blocks|
    ensures now.fn.blocks[3 + i] == [] && area.Contains(plan.order[i])
    ensures TagCode in TagAt(area, Or(area, tags, plan.order[i], {TagTranslated}), plan.order[i])
  {
    assert plan.order[i] in now.fn.labels.Keys;
  }

  lemma StartTranslating<S(!new), M(!new)>(fe: Frontend<S, M>, area: Area, plan: Plan, now: Draft)
    requires |plan.tags| == area.hi - area.lo
    requires now.fn.labels.Keys == Startable(area, plan.tags) && now.fn.cases == map[] && LaidOut(now.fn, plan.order)
    requires plan.names <= now.names && forall b | |plan.names| <= b < |now.names| :: !now.names[b].External?
    requires |plan.std| == 3 && now.fn.blocks == plan.std + seq(|plan.order|, _ => []) + [[Switch(RET)]]
    ensures Translating(fe, area, plan, plan.tags, now, 0)
  {
    TranslatesNone(area, plan.tags);
    FinishedByLast([Switch(RET)]);
  }

  /** The function is complete, except for its entry block. */
  ghost predicate Drafted<S(!new), M(!new)>(fe: Frontend<S, M>, area: Area, fn: Fn, avoid: set<Addr>) {
    && (forall b | 3 <= b < |fn.blocks| :: Finished(fn.blocks[b]))
    && fn.cases == fn.labels
    && 3 <= fn.dispatch < |fn.blocks| && fn.blocks[fn.dispatch] == [Switch(RET)]
    && forall pc {:trigger HasBlock(fe, area, fn, pc, avoid)} | pc in fn.labels :: HasBlock(fe, area, fn, pc, avoid)
  }

  lemma DoneTranslating<S(!new), M(!new)>(fe: Frontend<S, M>, area: Area, plan: Plan, tags: seq<Tag>, now: Draft)
    requires Translating(fe, area, plan, tags, now, |plan.order|)
    ensures Translates(area, plan.tags, tags, now.fn.labels.Keys)
    ensures Drafted(fe, area, now.fn, Starts(area, plan.tags))
  {
    assert plan.order[..|plan.order|] == plan.order;
    assert Elements(plan.order) == now.fn.labels.Keys;
    AllHaveBlocks(fe, area, now.fn, plan.order, Starts(area, plan.tags));
  }

  lemma AllHaveBlocks<S(!new), M(!new)>(fe: Frontend<S, M>, area: Area, fn: Fn, order: seq<Addr>, avoid: set<Addr>)
    requires LaidOut(fn, order) && Underway(fe, area, fn, order, |order|, avoid)
    ensures Drafted(fe, area, fn, avoid)
  {
    assert order[..|order|] == order;
    forall a | a in fn.labels
      ensures HasBlock(fe, area, fn, a, avoid)
    {
      var k :| 0 <= k < |order| && order[k] == a;
    }
  }

  /** With the depth limit off, execution leaves a function only for addresses outside the
      area, for labels other functions have or have had, or because a conditional return or
      trap is not taken; every other direct branch, call and fall-through goes to a label. */
  lemma ExternalsAreMinimal<S(!new), M(!new)>(fe: Frontend<S, M>, area: Area, opt: Options, entries: set<Addr>,
                                              tags: seq<Tag>, x: Addr)
    requires Contract(fe, area) && Consistent(fe, area, opt, tags)
    requires IsReachable(fe, area, opt, entries, Code(area, tags))
    requires IsReferredTo(fe, area, tags, x) && x !in Startable(area, tags) && area.Contains(x)
    ensures TagTranslated in TagAt(area, tags, x) || exists a :: NotTakenTo(fe, area, opt, tags, a, x)
  {
    var a :| Refers(fe, area, tags, a, x);
    assert fe.WellBehaved(a);
    if TagCode in TagAt(area, tags, x) {
      ReferredToStarts(fe, area, opt, tags, a, x);
    } else {
      assert a in Code(area, tags) && x !in Code(area, tags);
      NotFollowed(fe, area, opt, tags, a, x);
    }
  }

  /** Code that another instruction refers to is where a block starts. */
  lemma ReferredToStarts<S(!new), M(!new)>(fe: Frontend<S, M>, area: Area, opt: Options, tags: seq<Tag>,
                                           a: Addr, x: Addr)
    requires Consistent(fe, area, opt, tags) && Refers(fe, area, tags, a, x)
    requires area.Contains(x) && TagCode in TagAt(area, tags, x)
    ensures IsStart(TagAt(area, tags, x))
  {
    var t := fe.tagInstr(a);
    var found := TagAt(area, tags, x);
    assert Marked(fe, area, opt, tags, a);
    if TagCall in t.tag && x == t.newPc {
      assert TagSubroutine in found * START_BITS;
    } else if TagBranch in t.tag && x == t.newPc {
      assert TagBranchTarget in found * START_BITS;
    } else if TagConditional in t.tag && x == t.nextPc {
      assert TagAfterCond in found * START_BITS;
    }
  }

  /** A block starts exactly at the entries, at the targets of calls and branches, where calls
      return to, after conditional instructions, and where traps return to as the hints have it. */
  lemma StartsExactly<S(!new), M(!new)>(fe: Frontend<S, M>, area: Area, opt: Options, entries: set<Addr>,
                                        tags: seq<Tag>, x: Addr)
    requires Contract(fe, area) && Consistent(fe, area, opt, tags) && MarksAreRight(fe, area, opt, entries, tags)
    requires forall a | a in entries && area.Contains(a) :: TagEntry in TagAt(area, tags, a)
    requires area.Contains(x) && TagCode in TagAt(area, tags, x)
    ensures IsStart(TagAt(area, tags, x)) <==>
      x in entries || exists a | a in Code(area, tags) :: var t := fe.tagInstr(a);
        || (TagConditional in t.tag && x == t.nextPc)
        || (TagCall in t.tag && (x == t.newPc || x == t.nextPc))
        || (TagBranch in t.tag && x == t.newPc)
        || (TagTrap in t.tag && (opt.trapReturns || opt.trapReturnsTwice) && x == t.nextPc)
        || (TagTrap in t.tag && opt.trapReturnsTwice
            && x == (t.nextPc + fe.tagInstr(t.nextPc).bytes) % 0x1_0000_0000_0000_0000)
  {
    StartIffMarked(fe, area, opt, entries, tags, x);
    MarkedIffReasons(fe, area, opt, tags, x);
    forall a
      ensures IsReason(fe, opt, a, x) <==> var t := fe.tagInstr(a);
        || (TagConditional in t.tag && x == t.nextPc)
        || (TagCall in t.tag && (x == t.newPc || x == t.nextPc))
        || (TagBranch in t.tag && x == t.newPc)
        || (TagTrap in t.tag && (opt.trapReturns || opt.trapReturnsTwice) && x == t.nextPc)
        || (TagTrap in t.tag && opt.trapReturnsTwice
            && x == (t.nextPc + fe.tagInstr(t.nextPc).bytes) % 0x1_0000_0000_0000_0000)
    {
      ReasonByKind(fe, opt, a, x);
    }
  }

  ghost predicate IsReason<S(!new), M(!new)>(fe: Frontend<S, M>, opt: Options, a: Addr, x: Addr) {
    exists b :: b in MARKS && Marks(fe, opt, a, x, b)
  }

  lemma ReasonByKind<S(!new), M(!new)>(fe: Frontend<S, M>, opt: Options, a: Addr, x: Addr)
    ensures IsReason(fe, opt, a, x) <==> var t := fe.tagInstr(a);
      || (TagConditional in t.tag && x == t.nextPc)
      || (TagCall in t.tag && (x == t.newPc || x == t.nextPc))
      || (TagBranch in t.tag && x == t.newPc)
      || (TagTrap in t.tag && (opt.trapReturns || opt.trapReturnsTwice) && x == t.nextPc)
      || (TagTrap in t.tag && opt.trapReturnsTwice
          && x == (t.nextPc + fe.tagInstr(t.nextPc).bytes) % 0x1_0000_0000_0000_0000)
  {
    assert TagAfterCond in MARKS && TagSubroutine in MARKS && TagAfterCall in MARKS;
    assert TagBranchTarget in MARKS && TagAfterTrap in MARKS;
    assert forall b :: Marks(fe, opt, a, x, b) ==>
      b == TagAfterCond || b == TagSubroutine || b == TagAfterCall || b == TagBranchTarget || b == TagAfterTrap;
    assert IsReason(fe, opt, a, x) <==>
      || Marks(fe, opt, a, x, TagAfterCond) || Marks(fe, opt, a, x, TagSubroutine) || Marks(fe, opt, a, x, TagAfterCall)
      || Marks(fe, opt, a, x, TagBranchTarget) || Marks(fe, opt, a, x, TagAfterTrap);
  }

  lemma MarkedIffReasons<S(!new), M(!new)>(fe: Frontend<S, M>, area: Area, opt: Options, tags: seq<Tag>, x: Addr)
    ensures (exists b :: b in MARKS && MarkedBy(fe, area, opt, tags, x, b))
       <==> (exists a :: a in Code(area, tags) && IsReason(fe, opt, a, x))
  {
    if b :| b in MARKS && MarkedBy(fe, area, opt, tags, x, b) {
      var a :| a in Code(area, tags) && Marks(fe, opt, a, x, b);
      assert IsReason(fe, opt, a, x);
    }
    if a :| a in Code(area, tags) && IsReason(fe, opt, a, x) {
      var b :| b in MARKS && Marks(fe, opt, a, x, b);
      assert MarkedBy(fe, area, opt, tags, x, b);
    }
  }

  lemma StartIffMarked<S(!new), M(!new)>(fe: Frontend<S, M>, area: Area, opt: Options, entries: set<Addr>,
                                         tags: seq<Tag>, x: Addr)
    requires Contract(fe, area) && Consistent(fe, area, opt, tags) && MarksAreRight(fe, area, opt, entries, tags)
    requires forall a | a in entries && area.Contains(a) :: TagEntry in TagAt(area, tags, a)
    requires area.Contains(x) && TagCode in TagAt(area, tags, x)
    ensures IsStart(TagAt(area, tags, x)) <==>
      x in entries || exists b :: b in MARKS && MarkedBy(fe, area, opt, tags, x, b)
  {
    var found := TagAt(area, tags, x);
    forall b | b in MARKS
      ensures b in found <==> MarkedBy(fe, area, opt, tags, x, b)
    {
      MarkIffReason(fe, area, opt, tags, x, b);
    }
    assert forall b | b in START_BITS :: b in found <==> b in found * START_BITS;
    assert START_BITS == MARKS + {TagEntry};
  }

  /** What an instruction refers to without being a successor of it is its not-taken side. */
  lemma NotFollowed<S(!new), M(!new)>(fe: Frontend<S, M>, area: Area, opt: Options, tags: seq<Tag>, a: Addr, x: Addr)
    requires fe.WellBehaved(a) && Refers(fe, area, tags, a, x) && TagCode !in TagAt(area, tags, x)
    requires x !in Successors(fe, opt, a)
    ensures NotTakenTo(fe, area, opt, tags, a, x)
  {
    var t := fe.tagInstr(a).tag;
    var k :| t * BASE_BITS == {k};
    assert k in t * BASE_BITS;
    fe.OneKind(a, k);
  }

  /** The conditional return or trap at `a` goes to `x` when it is not taken, where no code
      has been found. */
  ghost predicate NotTakenTo<S(!new), M(!new)>(fe: Frontend<S, M>, area: Area, opt: Options, tags: seq<Tag>,
                                               a: Addr, x: Addr)
  {
    var t := fe.tagInstr(a);
    && area.Contains(a) && TagCode in TagAt(area, tags, a) && TagCode !in TagAt(area, tags, x)
    && TagConditional in t.tag && x == t.nextPc
    && (TagRet in t.tag || (TagTrap in t.tag && !opt.TrapsReturn()))
  }

  class Builder<S(!new), M(!new)> {
    const fe: Frontend<S, M>
    const area: Area
    var blocks: seq<Block>
    var names: seq<BlockName>
    var labels: map<Addr, BlockId>    // func_bb of the current function
    var cases: map<Addr, BlockId>
    var dispatch: BlockId

    /** The function as it stands. */
    function Value(): Fn
      reads this
    {
      Fn(blocks, labels, cases, dispatch)
    }

    function Now(): Draft
      reads this
    {
      Draft(Value(), names)
    }

    /** `cpu_create_function`: the standard blocks. The entry block is finished last. */
    constructor (fe: Frontend<S, M>, area: Area, code: ExitCode)
      ensures this.fe == fe && this.area == area
      ensures blocks == [[SetExit(code)], [Return], [SetExit(TrapExit), Br(RET)]]
      ensures names == [Standard, Standard, Standard] && labels == map[] && cases == map[]
    {
      this.fe, this.area := fe, area;
      blocks := [[SetExit(code)], [Return], [SetExit(TrapExit), Br(RET)]];
      names := [Standard, Standard, Standard];
      labels, cases, dispatch := map[], map[], ENTRY;
    }

    method CreateBasicblock(name: BlockName) returns (b: BlockId)
      modifies `blocks, `names, `labels
      ensures b == |old(blocks)| && blocks == old(blocks) + [[]] && names == old(names) + [name]
      ensures labels == if name.Normal? then old(labels)[name.pc := b] else old(labels)
    {
      b := |blocks|;
      blocks, names := blocks + [[]], names + [name];
      if name.Normal? {
        labels := labels[name.pc := b];
      }
    }

    /** Nothing may follow a terminator. */
    method Emit(b: BlockId, op: Op)
      requires b < |blocks| && Open(blocks[b])
      modifies `blocks
      ensures blocks == Appended(old(blocks), b, [op])
    {
      blocks := blocks[b := blocks[b] + [op]];
    }

    method EmitStorePcReturn(b: BlockId, pc: Addr)
      requires b < |blocks| && Open(blocks[b])
      modifies `blocks
      ensures blocks == Appended(old(blocks), b, [StorePc(pc), Br(RET)])
    {
      Emit(b, StorePc(pc));
      Emit(b, Br(RET));
      assert blocks[b] == old(blocks[b]) + [StorePc(pc), Br(RET)];
      SameBlocks(blocks, Appended(old(blocks), b, [StorePc(pc), Br(RET)]));
    }

    method LookupBasicblock(pc: Addr) returns (b: BlockId)
      modifies `blocks, `names, `labels
      ensures labels == old(labels)
      ensures if pc in labels then b == labels[pc] && blocks == old(blocks) && names == old(names)
              else b == |old(blocks)| && blocks == old(blocks) + [[StorePc(pc), Br(RET)]]
                   && names == old(names) + [External(pc)]
    {
      if pc in labels {
        return labels[pc];
      }
      b := CreateBasicblock(External(pc));
      EmitStorePcReturn(b, pc);
      assert blocks[b] == [StorePc(pc), Br(RET)];
      SameBlocks(blocks, old(blocks) + [[StorePc(pc), Br(RET)]]);
    }

    /** `translate_instr`: returns the block where execution continues, if it does. */
    method TranslateInstr(start: Addr, tag: Tag, target: BlockId, next: BlockId, block: BlockId)
      returns (cont: Option<BlockId>)
      requires TagDelaySlot in tag ==> TagContinue !in tag
      requires block < |blocks| && Open(blocks[block]) && |names| == |blocks|
      modifies `blocks, `names, `labels
      ensures labels == old(labels) && |names| == |blocks|
      ensures blocks == InstrBlocks(fe, old(blocks), start, tag, target, next, block)
      ensures cont == if TagContinue !in tag then None
                      else Some(if TagConditional in tag then |old(blocks)| else block)
      ensures old(names) <= names
      ensures forall b | |old(names)| <= b < |names| :: !names[b].External?
    {
      var pc, curBlock := start, block;
      if TagDelaySlot in tag {
        TranslateDelaySlot(pc, tag, target, next, block);
        return None;
      }
      if TagConditional in tag {
        var condBlock := CreateBasicblock(Cond(pc));
        Emit(curBlock, CondBr(pc, condBlock, next));
        curBlock := condBlock;
      }
      Emit(curBlock, Exec(pc));
      if tag * {TagBranch, TagCall, TagRet} != {} {
        Emit(curBlock, Br(target));
      } else if TagTrap in tag {
        Emit(curBlock, Br(TRAP));
      }
      assert blocks[curBlock] ==
        (if curBlock == block then old(blocks)[block] else []) + ([Exec(start)] + Ending(tag, target));
      SameBlocks(blocks, InstrBlocks(fe, old(blocks), start, tag, target, next, block));
      if TagContinue in tag {
        return Some(curBlock);
      } else {
        return None;
      }
    }

    /** The delay-slot case of `translate_instr`. */
    method TranslateDelaySlot(start: Addr, tag: Tag, target: BlockId, next: BlockId, block: BlockId)
      requires TagDelaySlot in tag
      requires block < |blocks| && Open(blocks[block]) && |names| == |blocks|
      modifies `blocks, `names, `labels
      ensures labels == old(labels) && |names| == |blocks|
      ensures blocks == InstrBlocks(fe, old(blocks), start, tag, target, next, block)
      ensures old(names) <= names
      ensures forall b | |old(names)| <= b < |names| :: !names[b].External?
    {
      var pc := start;
      if TagConditional in tag {
        var condBlock := CreateBasicblock(Cond(pc));
        var delayBlock := CreateBasicblock(Delay(pc));
        Emit(block, CondBr(pc, condBlock, delayBlock));
        Emit(condBlock, Exec(pc));
        pc := Plus(pc, fe.length(pc));
        var delayPc := pc;
        Emit(condBlock, Exec(pc));
        Emit(condBlock, Br(target));
        Emit(delayBlock, Exec(delayPc));
        Emit(delayBlock, Br(next));
        assert blocks[condBlock] == [Exec(start), Exec(delayPc), Br(target)];
        assert blocks[delayBlock] == [Exec(delayPc), Br(next)];
      } else {
        Emit(block, Exec(pc));
        pc := Plus(pc, fe.length(pc));
        Emit(block, Exec(pc));
        Emit(block, Br(target));
        assert blocks[block] == old(blocks)[block] + [Exec(start), Exec(pc), Br(target)];
      }
      SameBlocks(blocks, InstrBlocks(fe, old(blocks), start, tag, target, next, block));
    }

    /** The blocks execution goes to from the instruction at `pc`: where it transfers control
        to, and where it goes when it is not taken. */
    method LookupTargets(pc: Addr, tag: Tag) returns (target: BlockId, next: BlockId)
      requires fe.WellBehaved(pc) && tag * INSTR_BITS == fe.tagInstr(pc).tag
      requires |names| == |blocks|
      modifies `blocks, `names, `labels
      ensures labels == old(labels) && |names| == |blocks|
      ensures old(blocks) <= blocks
      ensures old(names) <= names
      ensures forall b | |old(blocks)| <= b < |blocks| ::
        Finished(blocks[b]) && names[b].External? && names[b].pc !in labels && Leaves(fe, pc, names[b].pc)
      ensures tag * {TagCall, TagBranch, TagRet} != {} ==> IsTarget(fe, Value(), pc, target)
      ensures TagConditional in tag ==> Reaches(Value(), next, fe.tagInstr(pc).nextPc)
    {
      TagSays(fe, pc, tag, 0);
      var info := fe.tagInstr(pc);
      target, next := ENTRY, ENTRY;
      if TagRet in tag {
        target := dispatch;
      }
      if tag * {TagCall, TagBranch} != {} {
        if info.newPc == NEW_PC_NONE {
          target := dispatch;
        } else {
          target := LookupBasicblock(info.newPc);
        }
      }
      if TagConditional in tag {
        next := LookupBasicblock(info.nextPc);
      }
      assert TagCall in tag || TagBranch in tag <==> tag * {TagCall, TagBranch} != {};
    }

    /** One round of the block-filling loop: the instruction at `pc`, into block `first`. */
    method TranslateNext(tag: Tag, pc: Addr, first: BlockId) returns (cont: Option<BlockId>)
      requires fe.WellBehaved(pc) && tag * INSTR_BITS == fe.tagInstr(pc).tag
      requires first < |blocks| == |names| && Open(blocks[first])
      modifies `blocks, `names, `labels
      ensures labels == old(labels) && |names| == |blocks| && old(names) <= names
      ensures forall b | |old(names)| <= b < |names| :: names[b].External? ==>
        names[b].pc !in labels && Leaves(fe, pc, names[b].pc)
      ensures Adds(old(blocks), blocks, first, cont)
      ensures cont.Some? <==> TagContinue in tag
      ensures cont.Some? ==> ContinuesIn(old(blocks), blocks, tag, pc, first, cont.value)
      ensures TranslatedAt(fe, Value(), first, |old(blocks)[first]|, pc, TagContinue in tag)
    {
      var target, next := LookupTargets(pc, tag);
      assert blocks[first] == old(blocks)[first];
      InstrBlocksAdd(fe, old(blocks), blocks, pc, tag, target, next, first);
      InstrBlocksTranslate(fe, Value(), pc, tag, target, next, first);
      cont := TranslateInstr(pc, tag, target, next, first);
    }

    /** The body of the do-while loop: the instruction at `pc` goes into block `first`, and the
        loop is over if nothing may follow it there. */
    method FillRound(tm: TagMap<S, M>, first: BlockId, pc: Addr, ghost was: Draft, ghost start: Addr, ghost n: nat)
      returns (tag: Tag, cont: Option<BlockId>, nextPc: Addr, done: bool)
      requires tm.tag != null && tm.tag.Length == area.hi - area.lo && tm.fe == fe && tm.area == area
      requires Contract(fe, area) && Consistent(fe, area, tm.opt, tm.tag[..])
      requires |names| == |blocks|
      requires Filling(fe, area, tm.tag[..], was, Now(), Place(first, start, pc, n))
      modifies `blocks, `names, `labels
      ensures |names| == |blocks|
      ensures !done ==> nextPc > pc && Filling(fe, area, tm.tag[..], was, Now(), Place(first, start, nextPc, n + 1))
      ensures done ==>
        Filled(fe, area, tm.tag[..], was, old(Value()), Now(), Place(first, start, pc, n), Last(tag, cont, nextPc))
    {
      tag := tm.GetTag(pc);
      TagSays(fe, pc, tag, ENTRY);
      cont := TranslateNext(tag, pc, first);
      NamesGrow(fe, area, tm.tag[..], labels, was.names, old(names), names, pc);
      AddsMore(was.fn.blocks, old(blocks), blocks, first, cont);
      nextPc := fe.tagInstr(pc).nextPc;
      done := IsStart(tm.GetTag(nextPc)) || !tm.IsCode(nextPc) || cont.None?;
      if !done {
        if fe.IsConditional(pc) {
          NotConditional(fe, area, tm.opt, tm.tag[..], pc);
        }
        PlainExtends(fe, area, old(Value()), Value(), first, start, n, tag);
        StaysInside(fe, area, tm.tag[..], start, n);
      }
    }

    /** Block `first` is filled with the code from `start` on, and linked to the block that
        follows. */
    method TranslateBlock(tm: TagMap<S, M>, start: Addr, first: BlockId)
      requires tm.tag != null && tm.tag.Length == area.hi - area.lo && tm.fe == fe && tm.area == area
      requires Contract(fe, area) && Consistent(fe, area, tm.opt, tm.tag[..])
      requires area.Contains(start) && TagCode in TagAt(area, tm.tag[..], start)
      requires first < |blocks| == |names| && blocks[first] == []
      modifies `blocks, `names, `labels
      ensures labels == old(labels) && |names| == |blocks|
      ensures NewNames(fe, area, tm.tag[..], labels, old(names), names)
      ensures Adds(old(blocks), blocks, first, None)
      ensures BlockFor(fe, area, Value(), first, start, Starts(area, tm.tag[..]))
    {
      ghost var was := Now();
      ghost var n, prev, last := 0, was.fn, start;
      var pc, done := start, false;
      var tag: Tag, cont: Option<BlockId> := {}, None;
      while !done
        invariant |names| == |blocks|
        invariant !done ==> Filling(fe, area, tm.tag[..], was, Now(), Place(first, start, pc, n))
        invariant done ==>
          Filled(fe, area, tm.tag[..], was, prev, Now(), Place(first, start, last, n), Last(tag, cont, pc))
        decreases !done, area.hi - pc
      {
        prev, last := Value(), pc;
        tag, cont, pc, done := FillRound(tm, first, pc, was, start, n);
        if !done {
          n := n + 1;
        }
      }
      ghost var filled := Now();
      Link(tm, cont, pc, was.names, last);
      LinkCompletes(fe, area, tm.tag[..], was, prev, filled, Value(), Place(first, start, last, n),
                    Last(tag, cont, pc));
    }

    /** A block whose last instruction lets execution go on is ended by a branch to `pc`. */
    method Link(tm: TagMap<S, M>, cont: Option<BlockId>, pc: Addr, ghost wasNames: seq<BlockName>, ghost from: Addr)
      requires tm.tag != null && |names| == |blocks|
      requires NewNames(fe, area, tm.tag[..], labels, wasNames, names)
      requires cont.Some? ==> cont.value < |blocks| && Open(blocks[cont.value])
                              && Refers(fe, area, tm.tag[..], from, pc)
      modifies `blocks, `names, `labels
      ensures labels == old(labels) && |names| == |blocks|
      ensures NewNames(fe, area, tm.tag[..], labels, wasNames, names)
      ensures Linked(old(Value()), Value(), cont, pc)
    {
      if cont.Some? {
        var target := LookupBasicblock(pc);
        Emit(cont.value, Br(target));
      }
    }

    /** A label and an empty block for every address a block has to start at that no function
        has translated yet. `order` lists the labels as the map iterates them. */
    method CreateLabels(tm: TagMap<S, M>) returns (order: seq<Addr>)
      requires tm.tag != null && tm.tag.Length == area.hi - area.lo && tm.fe == fe && tm.area == area
      requires area.lo <= area.hi && labels == map[] && |names| == |blocks|
      modifies `blocks, `names, `labels
      ensures labels.Keys == Startable(area, tm.tag[..])
      ensures forall a :: a in labels <==> a in order
      ensures forall i, j | 0 <= i < j < |order| :: order[i] < order[j]
      ensures blocks == old(blocks) + seq(|order|, _ => [])
      ensures |names| == |blocks| && old(names) <= names
      ensures forall i | 0 <= i < |order| :: labels[order[i]] == |old(blocks)| + i
      ensures forall b | |old(names)| <= b < |names| :: !names[b].External?
    {
      order := [];
      var pc: int := area.lo;
      while pc < area.hi
        invariant area.lo <= pc <= area.hi
        invariant |names| == |blocks| && old(names) <= names
        invariant blocks == old(blocks) + seq(|order|, _ => [])
        invariant forall a :: a in labels <==> a in order
        invariant forall a :: a in labels <==> a in Startable(area, tm.tag[..]) && a < pc
        invariant forall i, j | 0 <= i < j < |order| :: order[i] < order[j]
        invariant forall i | 0 <= i < |order| :: order[i] < pc && labels[order[i]] == |old(blocks)| + i
        invariant forall b | |old(names)| <= b < |names| :: !names[b].External?
      {
        if IsStart(tm.GetTag(pc)) && TagTranslated !in tm.GetTag(pc) {
          var b := CreateBasicblock(Normal(pc));
          order := order + [pc];
        }
        pc := pc + 1;
      }
    }

    /** One round of the loop over the labels: `order[i]` gets its block and its case. */
    method TranslateLabel(tm: TagMap<S, M>, order: seq<Addr>, i: nat, ghost plan: Plan)
      requires tm.Valid() && tm.tag != null && tm.fe == fe && tm.area == area && |names| == |blocks|
      requires i < |order| && order == plan.order
      requires Translating(fe, area, plan, tm.tag[..], Now(), i)
      modifies `blocks, `names, `labels, `cases, tm.tag
      ensures tm.Valid() && |names| == |blocks|
      ensures Translating(fe, area, plan, tm.tag[..], Now(), i + 1)
    {
      ghost var was, marked := Now(), tm.tag[..];
      LabelReady(fe, area, plan, marked, was, i);
      FillLabel(tm, order[i], 3 + i);
      LabelDone(fe, area, plan, marked, tm.tag[..], was, Now(), i);
    }

    /** The address is marked as translated, gets its switch case, and its block is filled. */
    method FillLabel(tm: TagMap<S, M>, pc: Addr, ghost first: BlockId)
      requires tm.Valid() && tm.tag != null && tm.fe == fe && tm.area == area && |names| == |blocks|
      requires pc in labels && labels[pc] == first < |blocks| && blocks[first] == [] && area.Contains(pc)
      requires TagCode in TagAt(area, Or(area, tm.tag[..], pc, {TagTranslated}), pc)
      modifies `blocks, `names, `cases, `labels, tm.tag
      ensures tm.Valid() && |names| == |blocks| && tm.tag[..] == Or(area, old(tm.tag[..]), pc, {TagTranslated})
      ensures labels == old(labels) && cases == old(cases)[pc := first]
      ensures NewNames(fe, area, tm.tag[..], labels, old(names), names)
      ensures Adds(old(blocks), blocks, first, None) && HasBlock(fe, area, Value(), pc, Starts(area, tm.tag[..]))
    {
      tm.MarkTranslated(pc);
      var b := labels[pc];
      cases := cases[pc := b];
      TranslateBlock(tm, pc, b);
    }

    /** The labels and the dispatch block, before anything is translated. */
    method LayOut(tm: TagMap<S, M>) returns (order: seq<Addr>, ghost plan: Plan)
      requires tm.Valid() && tm.tag != null && tm.fe == fe && tm.area == area
      requires labels == map[] && cases == map[] && |names| == |blocks| == 3
      modifies `blocks, `names, `labels, `dispatch
      ensures |names| == |blocks| && order == plan.order
      ensures plan == Plan(tm.tag[..], old(blocks), old(names), order)
      ensures Translating(fe, area, plan, tm.tag[..], Now(), 0)
    {
      order := CreateLabels(tm);
      plan := Plan(tm.tag[..], old(blocks), old(names), order);
      dispatch := CreateBasicblock(Standard);
      Emit(dispatch, Switch(RET));
      StartTranslating(fe, area, plan, Now());
    }

    /** `cpu_translate_all`: every label gets its block, and the dispatch switch its cases. */
    method TranslateAll(tm: TagMap<S, M>)
      requires tm.Valid() && tm.tag != null && tm.fe == fe && tm.area == area
      requires labels == map[] && cases == map[] && |names| == |blocks| == 3
      modifies this, tm.tag
      ensures tm.Valid() && Translates(area, old(tm.tag[..]), tm.tag[..], labels.Keys)
      ensures labels.Keys == Startable(area, old(tm.tag[..]))
      ensures |names| == |blocks| && NewNames(fe, area, old(tm.tag[..]), labels, old(names), names)
      ensures old(blocks) <= blocks && Drafted(fe, area, Value(), Starts(area, old(tm.tag[..])))
    {
      var order;
      ghost var plan;
      order, plan := LayOut(tm);
      var i := 0;
      while i < |order|
        invariant tm.Valid() && |names| == |blocks|
        invariant i <= |order|
        invariant Translating(fe, area, plan, tm.tag[..], Now(), i)
      {
        TranslateLabel(tm, order, i, plan);
        i := i + 1;
      }
      DoneTranslating(fe, area, plan, tm.tag[..], Now());
    }
  }
}
