/** The depth search that finds reachable guest code (`libcpu/tag.cpp`). */
module Tagging {
  import opened Guest

  const LIMIT_TAGGING_DFS: nat := 6

  /** What steers the search: the depth limit and the client's hints about traps. */
  datatype Options = Options(limit: bool, trapReturns: bool, trapReturnsTwice: bool) {
    predicate TrapsReturn() { trapReturns || trapReturnsTwice }
  }

  // ---------- tag arrays as values ----------

  /** `get_tag`: locations outside the area are unknown. */
  function TagAt(area: Area, tags: seq<Tag>, a: Addr): Tag {
    if area.Contains(a) && a - area.lo < |tags| then tags[a - area.lo] else {}
  }

  /** `or_tag`: locations outside the area are ignored. */
  function Or(area: Area, tags: seq<Tag>, a: Addr, t: Tag): (r: seq<Tag>)
    ensures |r| == |tags|
    ensures forall b: Addr ::
              TagAt(area, r, b) == TagAt(area, tags, b)
                                   + (if b == a && area.Contains(a) && a - area.lo < |tags| then t else {})
    ensures Uncoded(area, r) <= Uncoded(area, tags)
  {
    if area.Contains(a) && a - area.lo < |tags| then tags[a - area.lo := tags[a - area.lo] + t] else tags
  }

  ghost function Code(area: Area, tags: seq<Tag>): set<Addr> {
    set a: Addr | area.lo <= a < area.hi && TagCode in TagAt(area, tags, a)
  }

  ghost function Uncoded(area: Area, tags: seq<Tag>): set<Addr> {
    set a: Addr | area.lo <= a < area.hi && TagCode !in TagAt(area, tags, a)
  }

  /** Tag words only ever gain bits, and none of those in `fixed`. */
  ghost predicate Grows(area: Area, tags: seq<Tag>, tags': seq<Tag>, fixed: Tag) {
    && |tags| == |tags'|
    && forall a: Addr :: TagAt(area, tags, a) <= TagAt(area, tags', a)
                         && TagAt(area, tags, a) * fixed == TagAt(area, tags', a) * fixed
  }

  predicate Has(area: Area, tags: seq<Tag>, a: Addr, b: TagBit) {
    area.Contains(a) ==> b in TagAt(area, tags, a)
  }

  // ---------- control flow ----------

  /** Where the search goes off to besides the next instruction. */
  function Forks<S(!new), M(!new)>(fe: Frontend<S, M>, opt: Options, pc: Addr): set<Addr> {
    var t := fe.tagInstr(pc);
    (if TagTrap in t.tag && opt.trapReturnsTwice then {Plus(t.nextPc, fe.tagInstr(t.nextPc).bytes)} else {})
    + (if TagCall in t.tag || TagBranch in t.tag then {t.newPc} else {})
  }

  /** Where the search goes after the instruction at `pc`. */
  function Successors<S(!new), M(!new)>(fe: Frontend<S, M>, opt: Options, pc: Addr): set<Addr> {
    var t := fe.tagInstr(pc);
    if TagTrap in t.tag && !opt.TrapsReturn() then {}
    else
      Forks(fe, opt, pc)
      + (if TagRet in t.tag || (TagBranch in t.tag && TagConditional !in t.tag) then {} else {t.nextPc})
  }

  ghost predicate Closed<S(!new), M(!new)>(fe: Frontend<S, M>, area: Area, opt: Options, code: set<Addr>) {
    forall a, b :: a in code && b in Successors(fe, opt, a) && area.Contains(b) ==> b in code
  }

  /** `code` is the least set that holds the entries inside the area and is closed under
      the flow of control. */
  ghost predicate IsReachable<S(!new), M(!new)>(fe: Frontend<S, M>, area: Area, opt: Options, entries: set<Addr>,
                                                code: set<Addr>)
  {
    && (forall a :: a in entries && area.Contains(a) ==> a in code)
    && Closed(fe, area, opt, code)
    && forall other: set<Addr> ::
         Closed(fe, area, opt, other) && (forall a :: a in entries && area.Contains(a) ==> a in other)
         ==> code <= other
  }

  /** The marks the instruction at `a` leaves on the places control goes to. */
  predicate Marked<S(!new), M(!new)>(fe: Frontend<S, M>, area: Area, opt: Options, tags: seq<Tag>, a: Addr) {
    var t := fe.tagInstr(a);
    && (TagConditional in t.tag ==> Has(area, tags, t.nextPc, TagAfterCond))
    && (TagCall in t.tag ==> Has(area, tags, t.newPc, TagSubroutine) && Has(area, tags, t.nextPc, TagAfterCall))
    && (TagBranch in t.tag ==> Has(area, tags, t.newPc, TagBranchTarget))
    && (TagTrap in t.tag && opt.TrapsReturn() ==> Has(area, tags, t.nextPc, TagAfterTrap))
    && (TagTrap in t.tag && opt.trapReturnsTwice ==>
          Has(area, tags, Plus(t.nextPc, fe.tagInstr(t.nextPc).bytes), TagAfterTrap))
  }

  /** What every tag array the search produces satisfies: code carries exactly its own
      instruction bits, nothing else carries any, and code (other than `but`, which is
      still being dealt with) has left its marks. */
  ghost predicate Consistent<S(!new), M(!new)>(fe: Frontend<S, M>, area: Area, opt: Options, tags: seq<Tag>,
                                               but: set<Addr> := {})
  {
    && |tags| == area.hi - area.lo
    && (forall a: Addr | area.Contains(a) ::
          TagAt(area, tags, a) * INSTR_BITS == if TagCode in TagAt(area, tags, a) then fe.tagInstr(a).tag else {})
    && (forall a: Addr | area.Contains(a) && TagCode in TagAt(area, tags, a) && a !in but ::
          Marked(fe, area, opt, tags, a))
  }

  // ---------- the search ----------

  /** The whole search from `pc`: what `tag_recursive` leaves in the tag array. */
  ghost function Search<S(!new), M(!new)>(fe: Frontend<S, M>, area: Area, opt: Options, tags: seq<Tag>, pc: Addr,
                                          level: nat): (r: seq<Tag>)
    ensures |r| == |tags| && Uncoded(area, r) <= Uncoded(area, tags)
    decreases Uncoded(area, tags), 3
  {
    if opt.limit && level == LIMIT_TAGGING_DFS then tags else Walk(fe, area, opt, tags, pc, level)
  }

  /** Straight on from `pc`. */
  ghost function Walk<S(!new), M(!new)>(fe: Frontend<S, M>, area: Area, opt: Options, tags: seq<Tag>, pc: Addr,
                                        level: nat): (r: seq<Tag>)
    ensures |r| == |tags| && Uncoded(area, r) <= Uncoded(area, tags)
    decreases Uncoded(area, tags), 2
  {
    if !area.Contains(pc) || pc - area.lo >= |tags| || TagCode in TagAt(area, tags, pc) then tags
    else
      var t := fe.tagInstr(pc).tag;
      var entered := Entered(fe, area, tags, pc);
      if TagTrap in t && !opt.TrapsReturn() then entered
      else
        var branched := Forked(fe, area, opt, entered, pc, level);
        if (TagBranch in t && TagConditional !in t) || TagRet in t then branched
        else Walk(fe, area, opt, branched, fe.tagInstr(pc).nextPc, level)
  }

  /** The instruction at `pc` becomes code. */
  ghost function Entered<S(!new), M(!new)>(fe: Frontend<S, M>, area: Area, tags: seq<Tag>, pc: Addr): (r: seq<Tag>)
    ensures |r| == |tags| && Uncoded(area, r) <= Uncoded(area, tags)
    ensures area.Contains(pc) && pc - area.lo < |tags| && TagCode !in TagAt(area, tags, pc)
            ==> Uncoded(area, r) < Uncoded(area, tags)
  {
    var info := fe.tagInstr(pc);
    var t := Or(area, tags, pc, info.tag + {TagCode});
    assert area.Contains(pc) && pc - area.lo < |tags| && TagCode !in TagAt(area, tags, pc)
           ==> pc in Uncoded(area, tags) && pc !in Uncoded(area, t);
    if TagConditional in info.tag then Or(area, t, info.nextPc, {TagAfterCond}) else t
  }

  /** The places other than the next instruction are marked and searched. */
  ghost function Forked<S(!new), M(!new)>(fe: Frontend<S, M>, area: Area, opt: Options, tags: seq<Tag>, pc: Addr,
                                          level: nat): (r: seq<Tag>)
    ensures |r| == |tags| && Uncoded(area, r) <= Uncoded(area, tags)
    decreases Uncoded(area, tags), 5
  {
    var info := fe.tagInstr(pc);
    var t := CallForked(fe, area, opt, TrapForked(fe, area, opt, tags, pc, level), pc, level);
    if TagBranch in info.tag
    then Search(fe, area, opt, Or(area, t, info.newPc, {TagBranchTarget}), info.newPc, level + 1) else t
  }

  ghost function TrapForked<S(!new), M(!new)>(fe: Frontend<S, M>, area: Area, opt: Options, tags: seq<Tag>, pc: Addr,
                                              level: nat): (r: seq<Tag>)
    ensures |r| == |tags| && Uncoded(area, r) <= Uncoded(area, tags)
    decreases Uncoded(area, tags), 4
  {
    var info := fe.tagInstr(pc);
    var next2 := Plus(info.nextPc, fe.tagInstr(info.nextPc).bytes);
    if TagTrap !in info.tag then tags
    else
      var t := Or(area, tags, info.nextPc, {TagAfterTrap});
      if opt.trapReturnsTwice
      then Search(fe, area, opt, Or(area, t, next2, {TagAfterTrap}), next2, level + 1) else t
  }

  ghost function CallForked<S(!new), M(!new)>(fe: Frontend<S, M>, area: Area, opt: Options, tags: seq<Tag>, pc: Addr,
                                              level: nat): (r: seq<Tag>)
    ensures |r| == |tags| && Uncoded(area, r) <= Uncoded(area, tags)
    decreases Uncoded(area, tags), 4
  {
    var info := fe.tagInstr(pc);
    if TagCall in info.tag
    then Search(fe, area, opt, Or(area, Or(area, tags, info.newPc, {TagSubroutine}), info.nextPc, {TagAfterCall}),
                info.newPc, level + 1) else tags
  }

  /** Code found between `tags` and `tags'` has all its successors found as well, except
      for `next`, where the search still has to go. */
  ghost predicate Explored<S(!new), M(!new)>(fe: Frontend<S, M>, area: Area, opt: Options, tags: seq<Tag>,
                                             tags': seq<Tag>, next: set<Addr>)
  {
    forall a, b :: a in Code(area, tags') && a !in Code(area, tags) && b in Successors(fe, opt, a) && area.Contains(b)
                   ==> b in Code(area, tags') || b in next
  }

  /** `other` is closed and holds what was known when the search started at `start`. */
  ghost predicate Covers<S(!new), M(!new)>(fe: Frontend<S, M>, area: Area, opt: Options, tags: seq<Tag>, start: Addr,
                                           other: set<Addr>)
  {
    Closed(fe, area, opt, other) && Code(area, tags) <= other && (area.Contains(start) ==> start in other)
  }

  /** Nothing is found, or about to be found, that is not reachable. */
  ghost predicate Least<S(!new), M(!new)>(fe: Frontend<S, M>, area: Area, opt: Options, tags: seq<Tag>, start: Addr,
                                          tags': seq<Tag>, next: set<Addr>)
  {
    forall other: set<Addr> | Covers(fe, area, opt, tags, start, other) ::
      Code(area, tags') <= other && forall a :: a in next && area.Contains(a) ==> a in other
  }

  /** A search that began with `tags` at `start` has arrived at `tags'` and still has to
      look at `next`. */
  ghost predicate Searching<S(!new), M(!new)>(fe: Frontend<S, M>, area: Area, opt: Options, tags: seq<Tag>, start: Addr,
                                              tags': seq<Tag>, next: set<Addr>)
  {
    && Grows(area, tags, tags', {TagEntry, TagTranslated})
    && Least(fe, area, opt, tags, start, tags', next)
    && (!opt.limit ==> Explored(fe, area, opt, tags, tags', next))
    && (area.Contains(start) ==> start in Code(area, tags') || start in next)
  }

  lemma CodeGrows(area: Area, tags: seq<Tag>, tags': seq<Tag>, fixed: Tag)
    requires Grows(area, tags, tags', fixed)
    ensures Code(area, tags) <= Code(area, tags')
    ensures Uncoded(area, tags') <= Uncoded(area, tags)
  {
  }

  lemma BecomesCode<S(!new), M(!new)>(fe: Frontend<S, M>, area: Area, opt: Options, tags: seq<Tag>, pc: Addr)
    requires Consistent(fe, area, opt, tags)
    requires area.Contains(pc) && fe.WellBehaved(pc) && TagCode !in TagAt(area, tags, pc)
    ensures Consistent(fe, area, opt, Or(area, tags, pc, fe.tagInstr(pc).tag + {TagCode}), {pc})
  {
    var r := Or(area, tags, pc, fe.tagInstr(pc).tag + {TagCode});
    assert TagAt(area, r, pc) * INSTR_BITS == fe.tagInstr(pc).tag;
    forall b: Addr | area.Contains(b) && TagCode in TagAt(area, r, b) && b != pc
      ensures Marked(fe, area, opt, r, b)
    {
      assert Marked(fe, area, opt, tags, b);
    }
  }

  /** Once it is code, its successors come up next. */
  lemma FollowInstr<S(!new), M(!new)>(fe: Frontend<S, M>, area: Area, opt: Options, tags: seq<Tag>, start: Addr,
                                      tags': seq<Tag>, pc: Addr)
    requires fe.WellBehaved(pc) && |tags'| == area.hi - area.lo
    requires Searching(fe, area, opt, tags, start, tags', {pc})
    requires area.Contains(pc) && TagCode !in TagAt(area, tags', pc)
    ensures var r := Or(area, tags', pc, fe.tagInstr(pc).tag + {TagCode});
      && Searching(fe, area, opt, tags, start, r, Successors(fe, opt, pc))
      && (area.Contains(start) ==> start in Code(area, r))
  {
    var r := Or(area, tags', pc, fe.tagInstr(pc).tag + {TagCode});
    assert forall a: Addr :: TagCode in TagAt(area, r, a) <==> a == pc || TagCode in TagAt(area, tags', a);
    assert Code(area, r) == Code(area, tags') + {pc};
    assert fe.tagInstr(pc).tag * {TagEntry, TagTranslated} == {};
    forall other: set<Addr> | Covers(fe, area, opt, tags, start, other)
      ensures Code(area, r) <= other
      ensures forall a :: a in Successors(fe, opt, pc) && area.Contains(a) ==> a in other
    {
      assert pc in {pc};
    }
  }

  lemma EnterInstr<S(!new), M(!new)>(fe: Frontend<S, M>, area: Area, opt: Options, tags: seq<Tag>, start: Addr,
                                     tags': seq<Tag>, pc: Addr)
    requires fe.WellBehaved(pc) && Consistent(fe, area, opt, tags')
    requires Searching(fe, area, opt, tags, start, tags', {pc})
    requires area.Contains(pc) && TagCode !in TagAt(area, tags', pc)
    ensures var r := Entered(fe, area, tags', pc);
      && Consistent(fe, area, opt, r, {pc})
      && Searching(fe, area, opt, tags, start, r, Successors(fe, opt, pc))
      && (fe.IsConditional(pc) ==> Has(area, r, fe.tagInstr(pc).nextPc, TagAfterCond))
      && (area.Contains(start) ==> start in Code(area, r))
  {
    var t := Or(area, tags', pc, fe.tagInstr(pc).tag + {TagCode});
    BecomesCode(fe, area, opt, tags', pc);
    FollowInstr(fe, area, opt, tags, start, tags', pc);
    if fe.IsConditional(pc) {
      MarkPlace(fe, area, opt, tags, start, t, Successors(fe, opt, pc), {pc}, fe.tagInstr(pc).nextPc, TagAfterCond);
    }
  }

  /** Marks that are not about control flow disturb nothing. */
  lemma MarkKeepsConsistent<S(!new), M(!new)>(fe: Frontend<S, M>, area: Area, opt: Options, tags: seq<Tag>, a: Addr,
                                              b: TagBit)
    requires Consistent(fe, area, opt, tags) && b in {TagEntry, TagTranslated}
    ensures var r := Or(area, tags, a, {b});
      && Consistent(fe, area, opt, r) && Code(area, r) == Code(area, tags)
      && Grows(area, tags, r, {TagEntry, TagTranslated} - {b})
  {
    var r := Or(area, tags, a, {b});
    forall x: Addr
      ensures TagAt(area, r, x) * INSTR_BITS == TagAt(area, tags, x) * INSTR_BITS
      ensures TagAt(area, r, x) * ({TagEntry, TagTranslated} - {b})
           == TagAt(area, tags, x) * ({TagEntry, TagTranslated} - {b})
      ensures TagCode in TagAt(area, r, x) <==> TagCode in TagAt(area, tags, x)
    {
    }
    forall x: Addr | area.Contains(x) && TagCode in TagAt(area, r, x)
      ensures Marked(fe, area, opt, r, x)
    {
      assert Marked(fe, area, opt, tags, x);
    }
  }

  lemma Settle<S(!new), M(!new)>(fe: Frontend<S, M>, area: Area, opt: Options, tags: seq<Tag>, pc: Addr)
    requires Consistent(fe, area, opt, tags, {pc}) && Marked(fe, area, opt, tags, pc)
    ensures Consistent(fe, area, opt, tags)
  {
  }

  /** A search that has found everything it still had to look at is over. */
  lemma Done<S(!new), M(!new)>(fe: Frontend<S, M>, area: Area, opt: Options, tags: seq<Tag>, start: Addr,
                               tags': seq<Tag>, next: set<Addr>)
    requires Searching(fe, area, opt, tags, start, tags', next)
    requires area.Contains(start) ==> start in Code(area, tags')
    requires !opt.limit ==> forall a :: a in next && area.Contains(a) ==> a in Code(area, tags')
    ensures Searching(fe, area, opt, tags, start, tags', {start})
    ensures !opt.limit ==> Explored(fe, area, opt, tags, tags', {})
  {
  }

  /** Places already found need not be looked at again. */
  lemma Narrow<S(!new), M(!new)>(fe: Frontend<S, M>, area: Area, opt: Options, tags: seq<Tag>, start: Addr,
                                 tags': seq<Tag>, next: set<Addr>, next': set<Addr>)
    requires Searching(fe, area, opt, tags, start, tags', next)
    requires next' <= next + {start}
    requires area.Contains(start) ==> start in Code(area, tags')
    requires !opt.limit ==> forall a :: a in next && area.Contains(a) ==> a in Code(area, tags') || a in next'
    ensures Searching(fe, area, opt, tags, start, tags', next')
  {
  }

  /** Marking a place changes nothing else. */
  lemma MarkPlace<S(!new), M(!new)>(fe: Frontend<S, M>, area: Area, opt: Options, tags: seq<Tag>, start: Addr,
                                    tags': seq<Tag>, next: set<Addr>, but: set<Addr>, a: Addr, b: TagBit)
    requires Consistent(fe, area, opt, tags', but)
    requires Searching(fe, area, opt, tags, start, tags', next)
    requires b in {TagBranchTarget, TagSubroutine, TagAfterCall, TagAfterCond, TagAfterTrap}
    ensures var r := Or(area, tags', a, {b});
      && Consistent(fe, area, opt, r, but)
      && Searching(fe, area, opt, tags, start, r, next)
      && Code(area, r) == Code(area, tags') && Uncoded(area, r) == Uncoded(area, tags')
      && Has(area, r, a, b)
  {
    var r := Or(area, tags', a, {b});
    forall x: Addr
      ensures TagAt(area, r, x) * INSTR_BITS == TagAt(area, tags', x) * INSTR_BITS
      ensures TagCode in TagAt(area, r, x) <==> TagCode in TagAt(area, tags', x)
      ensures TagAt(area, r, x) * {TagEntry, TagTranslated} == TagAt(area, tags', x) * {TagEntry, TagTranslated}
    {
    }
    forall x: Addr | area.Contains(x) && TagCode in TagAt(area, r, x) && x !in but
      ensures Marked(fe, area, opt, r, x)
    {
      assert Marked(fe, area, opt, tags', x);
    }
  }

  /** A nested search deals with one of the places still to look at. */
  lemma NestedSearch<S(!new), M(!new)>(fe: Frontend<S, M>, area: Area, opt: Options, tags: seq<Tag>, start: Addr,
                                       tags': seq<Tag>, next: set<Addr>, a: Addr, r: seq<Tag>)
    requires Searching(fe, area, opt, tags, start, tags', next) && a in next
    requires Searching(fe, area, opt, tags', a, r, {a})
    requires !opt.limit ==> Explored(fe, area, opt, tags', r, {}) && (area.Contains(a) ==> a in Code(area, r))
    requires area.Contains(start) ==> start in Code(area, tags')
    ensures Searching(fe, area, opt, tags, start, r, next)
    ensures !opt.limit && area.Contains(a) ==> a in Code(area, r)
    ensures Code(area, tags') <= Code(area, r) && Uncoded(area, r) <= Uncoded(area, tags')
  {
    CodeGrows(area, tags, tags', {TagEntry, TagTranslated});
    CodeGrows(area, tags', r, {TagEntry, TagTranslated});
    forall other: set<Addr> | Covers(fe, area, opt, tags, start, other)
      ensures Code(area, r) <= other
      ensures forall x :: x in next && area.Contains(x) ==> x in other
    {
      assert Covers(fe, area, opt, tags', a, other);
    }
  }

  /** The search finds what is reachable, keeps the tag array consistent, and with the depth
      limit off leaves nothing undone. */
  lemma {:induction false} SearchFinds<S(!new), M(!new)>(fe: Frontend<S, M>, area: Area, opt: Options, tags: seq<Tag>,
                                                         pc: Addr, level: nat)
    requires Contract(fe, area) && Consistent(fe, area, opt, tags)
    ensures var r := Search(fe, area, opt, tags, pc, level);
      && Consistent(fe, area, opt, r)
      && Searching(fe, area, opt, tags, pc, r, {pc})
      && (!opt.limit ==> Explored(fe, area, opt, tags, r, {}))
      && (!(opt.limit && level == LIMIT_TAGGING_DFS) && area.Contains(pc) ==> pc in Code(area, r))
    decreases Uncoded(area, tags), 3
  {
    if !(opt.limit && level == LIMIT_TAGGING_DFS) {
      WalkFinds(fe, area, opt, tags, pc, tags, pc, level);
    }
  }

  lemma {:induction false} WalkFinds<S(!new), M(!new)>(fe: Frontend<S, M>, area: Area, opt: Options, was: seq<Tag>,
                                                       start: Addr, tags: seq<Tag>, pc: Addr, level: nat)
    requires Contract(fe, area) && Consistent(fe, area, opt, tags)
    requires Searching(fe, area, opt, was, start, tags, {pc})
    ensures var r := Walk(fe, area, opt, tags, pc, level);
      && Consistent(fe, area, opt, r)
      && Searching(fe, area, opt, was, start, r, {start})
      && (!opt.limit ==> Explored(fe, area, opt, was, r, {}))
      && (area.Contains(start) ==> start in Code(area, r))
    decreases Uncoded(area, tags), 2
  {
    if area.Contains(pc) && TagCode !in TagAt(area, tags, pc) {
      var info := fe.tagInstr(pc);
      var entered := Entered(fe, area, tags, pc);
      EnterInstr(fe, area, opt, was, start, tags, pc);
      if TagTrap in info.tag && !opt.TrapsReturn() {
        fe.OneKind(pc, TagTrap);
        Settle(fe, area, opt, entered, pc);
        Done(fe, area, opt, was, start, entered, Successors(fe, opt, pc));
      } else {
        WalkOnFinds(fe, area, opt, was, start, entered, pc, level);
      }
    } else {
      Done(fe, area, opt, was, start, tags, {pc});
    }
  }

  /** The walk after the instruction at `pc` has become code. */
  ghost function WalkOn<S(!new), M(!new)>(fe: Frontend<S, M>, area: Area, opt: Options, entered: seq<Tag>, pc: Addr,
                                          level: nat): seq<Tag>
  {
    var t := fe.tagInstr(pc).tag;
    var forked := Forked(fe, area, opt, entered, pc, level);
    if (TagBranch in t && TagConditional !in t) || TagRet in t then forked
    else Walk(fe, area, opt, forked, fe.tagInstr(pc).nextPc, level)
  }

  lemma {:induction false} WalkOnFinds<S(!new), M(!new)>(fe: Frontend<S, M>, area: Area, opt: Options, was: seq<Tag>,
                                                         start: Addr, entered: seq<Tag>, pc: Addr, level: nat)
    requires Contract(fe, area) && fe.WellBehaved(pc) && Consistent(fe, area, opt, entered, {pc})
    requires Searching(fe, area, opt, was, start, entered, Successors(fe, opt, pc))
    requires area.Contains(start) ==> start in Code(area, entered)
    requires fe.IsConditional(pc) ==> Has(area, entered, fe.tagInstr(pc).nextPc, TagAfterCond)
    requires TagTrap in fe.tagInstr(pc).tag ==> opt.TrapsReturn()
    ensures var r := WalkOn(fe, area, opt, entered, pc, level);
      && Consistent(fe, area, opt, r)
      && Searching(fe, area, opt, was, start, r, {start})
      && (!opt.limit ==> Explored(fe, area, opt, was, r, {}))
      && (area.Contains(start) ==> start in Code(area, r))
    decreases Uncoded(area, entered), 7
  {
    var info, forked := fe.tagInstr(pc), Forked(fe, area, opt, entered, pc, level);
    ForkFinds(fe, area, opt, was, start, entered, pc, level);
    if (TagBranch in info.tag && TagConditional !in info.tag) || TagRet in info.tag {
      Done(fe, area, opt, was, start, forked, Successors(fe, opt, pc));
    } else {
      Narrow(fe, area, opt, was, start, forked, Successors(fe, opt, pc), {info.nextPc});
      WalkFinds(fe, area, opt, was, start, forked, info.nextPc, level);
    }
  }

  lemma {:induction false} ForkFinds<S(!new), M(!new)>(fe: Frontend<S, M>, area: Area, opt: Options, was: seq<Tag>,
                                                       start: Addr, tags: seq<Tag>, pc: Addr, level: nat)
    requires Contract(fe, area) && fe.WellBehaved(pc) && Consistent(fe, area, opt, tags, {pc})
    requires Searching(fe, area, opt, was, start, tags, Successors(fe, opt, pc))
    requires area.Contains(start) ==> start in Code(area, tags)
    requires fe.IsConditional(pc) ==> Has(area, tags, fe.tagInstr(pc).nextPc, TagAfterCond)
    requires TagTrap in fe.tagInstr(pc).tag ==> opt.TrapsReturn()
    ensures var r := Forked(fe, area, opt, tags, pc, level);
      && Consistent(fe, area, opt, r)
      && Searching(fe, area, opt, was, start, r, Successors(fe, opt, pc))
      && (area.Contains(start) ==> start in Code(area, r))
      && (!opt.limit ==> forall a :: a in Forks(fe, opt, pc) && area.Contains(a) ==> a in Code(area, r))
    decreases Uncoded(area, tags), 6
  {
    var info := fe.tagInstr(pc);
    if TagTrap in info.tag {
      ForkTrap(fe, area, opt, was, start, tags, pc, level);
    } else if TagCall in info.tag {
      fe.OneKind(pc, TagCall);
      var next := Successors(fe, opt, pc);
      MarkPlace(fe, area, opt, was, start, tags, next, {pc}, info.newPc, TagSubroutine);
      var t := Or(area, tags, info.newPc, {TagSubroutine});
      MarkPlace(fe, area, opt, was, start, t, next, {pc}, info.nextPc, TagAfterCall);
      SearchFrom(fe, area, opt, was, start, Or(area, t, info.nextPc, {TagAfterCall}), pc, next, info.newPc, level);
    } else if TagBranch in info.tag {
      fe.OneKind(pc, TagBranch);
      var next := Successors(fe, opt, pc);
      MarkPlace(fe, area, opt, was, start, tags, next, {pc}, info.newPc, TagBranchTarget);
      SearchFrom(fe, area, opt, was, start, Or(area, tags, info.newPc, {TagBranchTarget}), pc, next, info.newPc, level);
    } else {
      Settle(fe, area, opt, tags, pc);
    }
  }

  lemma {:induction false} ForkTrap<S(!new), M(!new)>(fe: Frontend<S, M>, area: Area, opt: Options, was: seq<Tag>,
                                                      start: Addr, tags: seq<Tag>, pc: Addr, level: nat)
    requires Contract(fe, area) && fe.WellBehaved(pc) && Consistent(fe, area, opt, tags, {pc})
    requires Searching(fe, area, opt, was, start, tags, Successors(fe, opt, pc))
    requires area.Contains(start) ==> start in Code(area, tags)
    requires fe.IsConditional(pc) ==> Has(area, tags, fe.tagInstr(pc).nextPc, TagAfterCond)
    requires TagTrap in fe.tagInstr(pc).tag && opt.TrapsReturn()
    ensures var r := Forked(fe, area, opt, tags, pc, level);
      && Consistent(fe, area, opt, r)
      && Searching(fe, area, opt, was, start, r, Successors(fe, opt, pc))
      && (area.Contains(start) ==> start in Code(area, r))
      && (!opt.limit ==> forall a :: a in Forks(fe, opt, pc) && area.Contains(a) ==> a in Code(area, r))
    decreases Uncoded(area, tags), 5
  {
    var info := fe.tagInstr(pc);
    var next := Successors(fe, opt, pc);
    fe.OneKind(pc, TagTrap);
    MarkPlace(fe, area, opt, was, start, tags, next, {pc}, info.nextPc, TagAfterTrap);
    var t := Or(area, tags, info.nextPc, {TagAfterTrap});
    if opt.trapReturnsTwice {
      var next2 := Plus(info.nextPc, fe.tagInstr(info.nextPc).bytes);
      MarkPlace(fe, area, opt, was, start, t, next, {pc}, next2, TagAfterTrap);
      SearchFrom(fe, area, opt, was, start, Or(area, t, next2, {TagAfterTrap}), pc, next, next2, level);
    } else {
      Settle(fe, area, opt, t, pc);
    }
  }

  /** The instruction at `pc` has left its marks; the search goes on at `a`. */
  lemma {:induction false} SearchFrom<S(!new), M(!new)>(fe: Frontend<S, M>, area: Area, opt: Options, was: seq<Tag>,
                                                        start: Addr, tags: seq<Tag>, pc: Addr, next: set<Addr>, a: Addr,
                                                        level: nat)
    requires Contract(fe, area) && Consistent(fe, area, opt, tags, {pc}) && Marked(fe, area, opt, tags, pc)
    requires Searching(fe, area, opt, was, start, tags, next) && a in next
    requires area.Contains(start) ==> start in Code(area, tags)
    ensures var r := Search(fe, area, opt, tags, a, level + 1);
      && Consistent(fe, area, opt, r)
      && Searching(fe, area, opt, was, start, r, next)
      && (area.Contains(start) ==> start in Code(area, r))
      && (!opt.limit && area.Contains(a) ==> a in Code(area, r))
    decreases Uncoded(area, tags), 4
  {
    Settle(fe, area, opt, tags, pc);
    SearchFinds(fe, area, opt, tags, a, level + 1);
    NestedSearch(fe, area, opt, was, start, tags, next, a, Search(fe, area, opt, tags, a, level + 1));
  }

  /** Starting a search at `pc` adds exactly what is reachable from there. */
  lemma SearchReaches<S(!new), M(!new)>(fe: Frontend<S, M>, area: Area, opt: Options, entries: set<Addr>,
                                        tags: seq<Tag>, pc: Addr, r: seq<Tag>)
    requires IsReachable(fe, area, opt, entries, Code(area, tags))
    requires Searching(fe, area, opt, tags, pc, r, {pc}) && Explored(fe, area, opt, tags, r, {})
    requires area.Contains(pc) ==> pc in Code(area, r)
    ensures IsReachable(fe, area, opt, entries + {pc}, Code(area, r))
  {
    CodeGrows(area, tags, r, {TagEntry, TagTranslated});
    forall other: set<Addr> | Closed(fe, area, opt, other)
                              && (forall a :: a in entries + {pc} && area.Contains(a) ==> a in other)
      ensures Code(area, r) <= other
    {
      assert Covers(fe, area, opt, tags, pc, other);
    }
  }

  ghost function Elements(s: seq<Addr>): set<Addr> {
    set a | a in s
  }

  lemma OneMoreElement(s: seq<Addr>, i: nat)
    requires i < |s|
    ensures Elements(s[..i + 1]) == Elements(s[..i]) + {s[i]}
  {
    assert s[..i + 1] == s[..i] + [s[i]];
  }

  lemma GrowsOnwards(area: Area, t0: seq<Tag>, t1: seq<Tag>, t2: seq<Tag>, fixed: Tag, fixed': Tag)
    requires Grows(area, t0, t1, fixed) && Grows(area, t1, t2, fixed') && fixed <= fixed'
    ensures Grows(area, t0, t2, fixed)
  {
    forall a: Addr
      ensures TagAt(area, t0, a) <= TagAt(area, t2, a)
      ensures TagAt(area, t0, a) * fixed == TagAt(area, t2, a) * fixed
    {
      var x, y, z := TagAt(area, t0, a), TagAt(area, t1, a), TagAt(area, t2, a);
      assert y * fixed == (y * fixed') * fixed && z * fixed == (z * fixed') * fixed;
    }
  }

  /** What one `tag_start` does to an array that is already there. */
  lemma EntryFinds<S(!new), M(!new)>(fe: Frontend<S, M>, area: Area, opt: Options, entries: set<Addr>, tags: seq<Tag>,
                                     pc: Addr)
    requires Contract(fe, area) && Consistent(fe, area, opt, tags)
    requires !opt.limit ==> IsReachable(fe, area, opt, entries, Code(area, tags))
    ensures var r := Search(fe, area, opt, Or(area, tags, pc, {TagEntry}), pc, 0);
      && Consistent(fe, area, opt, r)
      && Grows(area, tags, r, {TagTranslated})
      && (area.Contains(pc) ==> {TagCode, TagEntry} <= TagAt(area, r, pc))
      && (!opt.limit ==> IsReachable(fe, area, opt, entries + {pc}, Code(area, r)))
  {
    var t := Or(area, tags, pc, {TagEntry});
    MarkKeepsConsistent(fe, area, opt, tags, pc, TagEntry);
    assert {TagEntry, TagTranslated} - {TagEntry} == {TagTranslated};
    SearchFinds(fe, area, opt, t, pc, 0);
    var r := Search(fe, area, opt, t, pc, 0);
    GrowsOnwards(area, tags, t, r, {TagTranslated}, {TagEntry, TagTranslated});
    if !opt.limit {
      SearchReaches(fe, area, opt, entries, t, pc, r);
    }
  }

  /** The tag array after `tag_start` has been called for `starts`, one after the other. */
  ghost function StartAll<S(!new), M(!new)>(fe: Frontend<S, M>, area: Area, opt: Options,
                                            starts: seq<Addr>): (tags: seq<Tag>)
    requires area.lo <= area.hi
    ensures |tags| == area.hi - area.lo
  {
    if starts == [] then seq(area.hi - area.lo, _ => {})
    else
      var tags := StartAll(fe, area, opt, starts[..|starts| - 1]);
      var pc := starts[|starts| - 1];
      Search(fe, area, opt, Or(area, tags, pc, {TagEntry}), pc, 0)
  }

  /** Tagging computes a least fixed point: with the depth limit off, whatever was started
      in whatever order, the code found is exactly what is reachable from the starts. */
  lemma {:induction false} TaggingFindsReachable<S(!new), M(!new)>(fe: Frontend<S, M>, area: Area, opt: Options,
                                                                   starts: seq<Addr>)
    requires area.lo <= area.hi && Contract(fe, area) && !opt.limit
    ensures var tags := StartAll(fe, area, opt, starts);
      Consistent(fe, area, opt, tags) && IsReachable(fe, area, opt, Elements(starts), Code(area, tags))
  {
    if starts == [] {
      var tags := StartAll(fe, area, opt, starts);
      assert forall a: Addr :: TagAt(area, tags, a) == {};
      assert Code(area, tags) == {};
    } else {
      var n := |starts| - 1;
      TaggingFindsReachable(fe, area, opt, starts[..n]);
      EntryFinds(fe, area, opt, Elements(starts[..n]), StartAll(fe, area, opt, starts[..n]), starts[n]);
      OneMoreElement(starts, n);
      assert starts[..n + 1] == starts;
    }
  }

  /** With the depth limit on, only reachable code is found, and all entries are. */
  lemma {:induction false} LimitedTaggingFindsEntries<S(!new), M(!new)>(fe: Frontend<S, M>, area: Area, opt: Options,
          starts: seq<Addr>, all: set<Addr>)
    requires area.lo <= area.hi && Contract(fe, area)
    requires Closed(fe, area, opt, all) && forall a | a in starts && area.Contains(a) :: a in all
    ensures var tags := StartAll(fe, area, opt, starts);
      && Consistent(fe, area, opt, tags) && Code(area, tags) <= all
      && forall a | a in starts && area.Contains(a) :: {TagCode, TagEntry} <= TagAt(area, tags, a)
  {
    var tags := StartAll(fe, area, opt, starts);
    if starts == [] {
      assert forall a: Addr :: TagAt(area, tags, a) == {};
    } else {
      var n := |starts| - 1;
      var was := StartAll(fe, area, opt, starts[..n]);
      LimitedTaggingFindsEntries(fe, area, opt, starts[..n], all);
      LimitedStart(fe, area, opt, was, starts[n], all);
      assert starts == starts[..n] + [starts[n]];
    }
  }

  lemma LimitedStart<S(!new), M(!new)>(fe: Frontend<S, M>, area: Area, opt: Options, tags: seq<Tag>, pc: Addr,
                                       all: set<Addr>)
    requires Contract(fe, area) && Consistent(fe, area, opt, tags) && Closed(fe, area, opt, all)
    requires Code(area, tags) <= all && (area.Contains(pc) ==> pc in all)
    ensures var r := Search(fe, area, opt, Or(area, tags, pc, {TagEntry}), pc, 0);
      && Consistent(fe, area, opt, r) && Code(area, r) <= all && Grows(area, tags, r, {TagTranslated})
      && (area.Contains(pc) ==> {TagCode, TagEntry} <= TagAt(area, r, pc))
  {
    var t := Or(area, tags, pc, {TagEntry});
    MarkKeepsConsistent(fe, area, opt, tags, pc, TagEntry);
    assert {TagEntry, TagTranslated} - {TagEntry} == {TagTranslated};
    SearchFinds(fe, area, opt, t, pc, 0);
    assert Covers(fe, area, opt, t, pc, all);
    GrowsOnwards(area, tags, t, Search(fe, area, opt, t, pc, 0), {TagTranslated}, {TagEntry, TagTranslated});
  }

  // ---------- what is found, instruction by instruction ----------

  /** Control goes from `a` to `b`: the target of a call or a branch, the place a call returns to,
      the instruction after a plain one or after a branch that may not be taken, and, as the
      hints have it, the first and the second instruction after a trap. */
  predicate Goes<S(!new), M(!new)>(fe: Frontend<S, M>, opt: Options, a: Addr, b: Addr) {
    var t := fe.tagInstr(a);
    || (TagContinue in t.tag && b == t.nextPc)
    || (TagCall in t.tag && (b == t.newPc || b == t.nextPc))
    || (TagBranch in t.tag && (b == t.newPc || (TagConditional in t.tag && b == t.nextPc)))
    || (TagTrap in t.tag && (opt.trapReturns || opt.trapReturnsTwice) && b == t.nextPc)
    || (TagTrap in t.tag && opt.trapReturnsTwice && b == (t.nextPc + fe.tagInstr(t.nextPc).bytes) % TWO_64)
  }

  lemma GoesToSuccessors<S(!new), M(!new)>(fe: Frontend<S, M>, opt: Options, a: Addr)
    requires fe.WellBehaved(a)
    ensures forall b: Addr :: Goes(fe, opt, a, b) <==> b in Successors(fe, opt, a)
  {
    var t := fe.tagInstr(a).tag;
    var k :| t * BASE_BITS == {k};
    assert k in t * BASE_BITS;
    fe.OneKind(a, k);
  }

  /** Code is inside the area. */
  lemma ReachableIsInside<S(!new), M(!new)>(fe: Frontend<S, M>, area: Area, opt: Options, entries: set<Addr>,
                                            code: set<Addr>)
    requires IsReachable(fe, area, opt, entries, code)
    ensures forall a | a in code :: area.Contains(a)
  {
    var inside := set a | a in code && area.Contains(a);
    assert Closed(fe, area, opt, inside);
    assert code <= inside;
  }

  /** Which places of an instruction that has been found are found too. */
  lemma CodeByKind<S(!new), M(!new)>(fe: Frontend<S, M>, area: Area, opt: Options, entries: set<Addr>,
                                     code: set<Addr>, a: Addr)
    requires Contract(fe, area) && IsReachable(fe, area, opt, entries, code) && a in code
    ensures var t := fe.tagInstr(a);
      var second: Addr := (t.nextPc + fe.tagInstr(t.nextPc).bytes) % 0x1_0000_0000_0000_0000;
      && (TagContinue in t.tag ==> (area.Contains(t.nextPc) ==> t.nextPc in code))
      && (TagCall in t.tag ==>
            (area.Contains(t.newPc) ==> t.newPc in code) && (area.Contains(t.nextPc) ==> t.nextPc in code))
      && (TagBranch in t.tag ==>
            && (area.Contains(t.newPc) ==> t.newPc in code)
            && (TagConditional in t.tag && area.Contains(t.nextPc) ==> t.nextPc in code))
      && (TagTrap in t.tag && (opt.trapReturns || opt.trapReturnsTwice) && area.Contains(t.nextPc) ==> t.nextPc in code)
      && (TagTrap in t.tag && opt.trapReturnsTwice && area.Contains(second) ==> second in code)
  {
    ReachableIsInside(fe, area, opt, entries, code);
    assert fe.WellBehaved(a);
    GoesToSuccessors(fe, opt, a);
    var t := fe.tagInstr(a);
    assert Goes(fe, opt, a, t.newPc) <==> t.newPc in Successors(fe, opt, a);
  }

  /** And nothing else is: what is found is an entry, or one of these places of some other
      instruction that has been found. In particular what follows a return, an unconditional
      branch, or a trap without hints, is not found on its account. */
  lemma CodeHasReason<S(!new), M(!new)>(fe: Frontend<S, M>, area: Area, opt: Options, entries: set<Addr>,
                                        code: set<Addr>, x: Addr)
    requires Contract(fe, area) && IsReachable(fe, area, opt, entries, code) && x in code && x !in entries
    ensures exists a | a in code && a != x :: var t := fe.tagInstr(a);
      || (TagContinue in t.tag && x == t.nextPc)
      || (TagCall in t.tag && (x == t.newPc || x == t.nextPc))
      || (TagBranch in t.tag && (x == t.newPc || (TagConditional in t.tag && x == t.nextPc)))
      || (TagTrap in t.tag && (opt.trapReturns || opt.trapReturnsTwice) && x == t.nextPc)
      || (TagTrap in t.tag && opt.trapReturnsTwice
          && x == (t.nextPc + fe.tagInstr(t.nextPc).bytes) % 0x1_0000_0000_0000_0000)
  {
    if forall a | a in code && a != x :: !Goes(fe, opt, a, x) {
      WithoutReason(fe, area, opt, entries, code, x);
      assert false;
    }
    var a :| a in code && a != x && Goes(fe, opt, a, x);
  }

  lemma WithoutReason<S(!new), M(!new)>(fe: Frontend<S, M>, area: Area, opt: Options, entries: set<Addr>,
                                        code: set<Addr>, x: Addr)
    requires Contract(fe, area) && IsReachable(fe, area, opt, entries, code) && x !in entries
    requires forall a | a in code && a != x :: !Goes(fe, opt, a, x)
    ensures x !in code
  {
    ReachableIsInside(fe, area, opt, entries, code);
    var rest := code - {x};
    forall a, b | a in rest && b in Successors(fe, opt, a) && area.Contains(b)
      ensures b in rest
    {
      assert fe.WellBehaved(a);
      GoesToSuccessors(fe, opt, a);
      assert Goes(fe, opt, a, b);
    }
    assert Closed(fe, area, opt, rest);
    assert code <= rest;
  }

  /** A way control can take inside the area, from an entry on. */
  ghost predicate IsPath<S(!new), M(!new)>(fe: Frontend<S, M>, area: Area, opt: Options, entries: set<Addr>,
                                           path: seq<Addr>)
  {
    && path != [] && path[0] in entries
    && (forall i | 0 <= i < |path| :: area.Contains(path[i]))
    && (forall i | 0 < i < |path| :: Goes(fe, opt, path[i - 1], path[i]))
  }

  ghost predicate HasPath<S(!new), M(!new)>(fe: Frontend<S, M>, area: Area, opt: Options, entries: set<Addr>, x: Addr) {
    exists path :: IsPath(fe, area, opt, entries, path) && path[|path| - 1] == x
  }

  lemma {:induction false} PathIsCode<S(!new), M(!new)>(fe: Frontend<S, M>, area: Area, opt: Options,
                                                        entries: set<Addr>, code: set<Addr>, path: seq<Addr>)
    requires Contract(fe, area) && IsReachable(fe, area, opt, entries, code)
    requires IsPath(fe, area, opt, entries, path)
    ensures path[|path| - 1] in code
    decreases |path|
  {
    var n := |path| - 1;
    if n > 0 {
      PathIsCode(fe, area, opt, entries, code, path[..n]);
      assert fe.WellBehaved(path[n - 1]);
      GoesToSuccessors(fe, opt, path[n - 1]);
    }
  }

  lemma PathGoesOn<S(!new), M(!new)>(fe: Frontend<S, M>, area: Area, opt: Options, entries: set<Addr>, a: Addr, b: Addr)
    requires HasPath(fe, area, opt, entries, a) && Goes(fe, opt, a, b) && area.Contains(b)
    ensures HasPath(fe, area, opt, entries, b)
  {
    var path :| IsPath(fe, area, opt, entries, path) && path[|path| - 1] == a;
    assert IsPath(fe, area, opt, entries, path + [b]);
    assert (path + [b])[|path + [b]| - 1] == b;
  }

  /** What is found is exactly what there is a way to. */
  lemma CodeIsPaths<S(!new), M(!new)>(fe: Frontend<S, M>, area: Area, opt: Options, entries: set<Addr>, code: set<Addr>)
    requires Contract(fe, area) && IsReachable(fe, area, opt, entries, code)
    ensures forall x: Addr :: x in code <==> HasPath(fe, area, opt, entries, x)
  {
    ReachableIsInside(fe, area, opt, entries, code);
    forall x: Addr | HasPath(fe, area, opt, entries, x)
      ensures x in code
    {
      var path :| IsPath(fe, area, opt, entries, path) && path[|path| - 1] == x;
      PathIsCode(fe, area, opt, entries, code, path);
    }
    var found := set a | a in code && HasPath(fe, area, opt, entries, a);
    forall a, b | a in found && b in Successors(fe, opt, a) && area.Contains(b)
      ensures b in found
    {
      assert fe.WellBehaved(a);
      GoesToSuccessors(fe, opt, a);
      PathGoesOn(fe, area, opt, entries, a, b);
    }
    forall a | a in entries && area.Contains(a)
      ensures a in found
    {
      assert IsPath(fe, area, opt, entries, [a]);
      assert [a][|[a]| - 1] == a;
    }
    assert Closed(fe, area, opt, found);
    assert code <= found;
  }

  // ---------- what is marked ----------

  const MARKS: Tag := {TagBranchTarget, TagSubroutine, TagAfterCall, TagAfterCond, TagAfterTrap}

  /** The instruction at `a` is a reason for mark `b` at `x`. */
  predicate Marks<S(!new), M(!new)>(fe: Frontend<S, M>, opt: Options, a: Addr, x: Addr, b: TagBit) {
    var t := fe.tagInstr(a);
    match b
    case TagAfterCond => TagConditional in t.tag && x == t.nextPc
    case TagSubroutine => TagCall in t.tag && x == t.newPc
    case TagAfterCall => TagCall in t.tag && x == t.nextPc
    case TagBranchTarget => TagBranch in t.tag && x == t.newPc
    case TagAfterTrap =>
      && TagTrap in t.tag
      && ((opt.TrapsReturn() && x == t.nextPc)
          || (opt.trapReturnsTwice && x == Plus(t.nextPc, fe.tagInstr(t.nextPc).bytes)))
    case _ => false
  }

  ghost predicate MarkedBy<S(!new), M(!new)>(fe: Frontend<S, M>, area: Area, opt: Options, tags: seq<Tag>, x: Addr,
                                             b: TagBit)
  {
    exists a :: a in Code(area, tags) && Marks(fe, opt, a, x, b)
  }

  /** No mark is without a reason. */
  ghost predicate Reasoned<S(!new), M(!new)>(fe: Frontend<S, M>, area: Area, opt: Options, tags: seq<Tag>) {
    && |tags| == area.hi - area.lo
    && forall x: Addr, b | b in MARKS && b in TagAt(area, tags, x) :: MarkedBy(fe, area, opt, tags, x, b)
  }

  /** Nothing that is code stops being code. */
  lemma StaysCode(area: Area, tags: seq<Tag>, tags': seq<Tag>)
    requires Uncoded(area, tags') <= Uncoded(area, tags)
    ensures Code(area, tags) <= Code(area, tags')
  {
    forall a | a in Code(area, tags)
      ensures a in Code(area, tags')
    {
      assert a !in Uncoded(area, tags);
    }
  }

  lemma AddsNoMark<S(!new), M(!new)>(fe: Frontend<S, M>, area: Area, opt: Options, tags: seq<Tag>, a: Addr, t: Tag)
    requires Reasoned(fe, area, opt, tags) && t * MARKS == {}
    ensures Reasoned(fe, area, opt, Or(area, tags, a, t))
  {
    var r := Or(area, tags, a, t);
    StaysCode(area, tags, r);
    forall x: Addr, b | b in MARKS && b in TagAt(area, r, x)
      ensures MarkedBy(fe, area, opt, r, x, b)
    {
      assert b !in t * MARKS;
      var c :| c in Code(area, tags) && Marks(fe, opt, c, x, b);
    }
  }

  lemma AddsMark<S(!new), M(!new)>(fe: Frontend<S, M>, area: Area, opt: Options, tags: seq<Tag>, pc: Addr,
                                   a: Addr, b: TagBit)
    requires Reasoned(fe, area, opt, tags) && pc in Code(area, tags) && Marks(fe, opt, pc, a, b)
    ensures var r := Or(area, tags, a, {b}); Reasoned(fe, area, opt, r) && pc in Code(area, r)
  {
    var r := Or(area, tags, a, {b});
    StaysCode(area, tags, r);
    forall x: Addr, b' | b' in MARKS && b' in TagAt(area, r, x)
      ensures MarkedBy(fe, area, opt, r, x, b')
    {
      if b' in TagAt(area, tags, x) {
        var c :| c in Code(area, tags) && Marks(fe, opt, c, x, b');
      } else {
        assert x == a && b' == b;
      }
    }
  }

  lemma {:induction false} SearchReasons<S(!new), M(!new)>(fe: Frontend<S, M>, area: Area, opt: Options,
                                                           tags: seq<Tag>, pc: Addr, level: nat)
    requires Contract(fe, area) && Reasoned(fe, area, opt, tags)
    ensures Reasoned(fe, area, opt, Search(fe, area, opt, tags, pc, level))
    decreases Uncoded(area, tags), 3
  {
    if !(opt.limit && level == LIMIT_TAGGING_DFS) {
      WalkReasons(fe, area, opt, tags, pc, level);
    }
  }

  lemma {:induction false} WalkReasons<S(!new), M(!new)>(fe: Frontend<S, M>, area: Area, opt: Options,
                                                         tags: seq<Tag>, pc: Addr, level: nat)
    requires Contract(fe, area) && Reasoned(fe, area, opt, tags)
    ensures Reasoned(fe, area, opt, Walk(fe, area, opt, tags, pc, level))
    decreases Uncoded(area, tags), 2
  {
    if area.Contains(pc) && TagCode !in TagAt(area, tags, pc) {
      var entered := Entered(fe, area, tags, pc);
      EnterReasons(fe, area, opt, tags, pc);
      if !(TagTrap in fe.tagInstr(pc).tag && !opt.TrapsReturn()) {
        ForkReasons(fe, area, opt, entered, pc, level);
        var forked := Forked(fe, area, opt, entered, pc, level);
        WalkReasons(fe, area, opt, forked, fe.tagInstr(pc).nextPc, level);
      }
    }
  }

  lemma EnterReasons<S(!new), M(!new)>(fe: Frontend<S, M>, area: Area, opt: Options, tags: seq<Tag>, pc: Addr)
    requires Contract(fe, area) && Reasoned(fe, area, opt, tags) && area.Contains(pc)
    ensures var r := Entered(fe, area, tags, pc); Reasoned(fe, area, opt, r) && pc in Code(area, r)
  {
    assert fe.WellBehaved(pc);
    var info := fe.tagInstr(pc);
    assert (info.tag + {TagCode}) * MARKS == {};
    AddsNoMark(fe, area, opt, tags, pc, info.tag + {TagCode});
    var t := Or(area, tags, pc, info.tag + {TagCode});
    assert pc in Code(area, t);
    if TagConditional in info.tag {
      AddsMark(fe, area, opt, t, pc, info.nextPc, TagAfterCond);
    }
  }

  lemma {:induction false} ForkReasons<S(!new), M(!new)>(fe: Frontend<S, M>, area: Area, opt: Options,
                                                         tags: seq<Tag>, pc: Addr, level: nat)
    requires Contract(fe, area) && Reasoned(fe, area, opt, tags) && pc in Code(area, tags)
    requires TagTrap in fe.tagInstr(pc).tag ==> opt.TrapsReturn()
    ensures Reasoned(fe, area, opt, Forked(fe, area, opt, tags, pc, level))
    decreases Uncoded(area, tags), 6
  {
    var info := fe.tagInstr(pc);
    var trapped := TrapForked(fe, area, opt, tags, pc, level);
    TrapReasons(fe, area, opt, tags, pc, level);
    StaysCode(area, tags, trapped);
    var called := CallForked(fe, area, opt, trapped, pc, level);
    CallReasons(fe, area, opt, trapped, pc, level);
    StaysCode(area, trapped, called);
    if TagBranch in info.tag {
      AddsMark(fe, area, opt, called, pc, info.newPc, TagBranchTarget);
      SearchReasons(fe, area, opt, Or(area, called, info.newPc, {TagBranchTarget}), info.newPc, level + 1);
    }
  }

  lemma {:induction false} TrapReasons<S(!new), M(!new)>(fe: Frontend<S, M>, area: Area, opt: Options,
                                                         tags: seq<Tag>, pc: Addr, level: nat)
    requires Contract(fe, area) && Reasoned(fe, area, opt, tags) && pc in Code(area, tags)
    requires TagTrap in fe.tagInstr(pc).tag ==> opt.TrapsReturn()
    ensures Reasoned(fe, area, opt, TrapForked(fe, area, opt, tags, pc, level))
    decreases Uncoded(area, tags), 5
  {
    var info := fe.tagInstr(pc);
    if TagTrap in info.tag {
      AddsMark(fe, area, opt, tags, pc, info.nextPc, TagAfterTrap);
      var t := Or(area, tags, info.nextPc, {TagAfterTrap});
      if opt.trapReturnsTwice {
        var next2 := Plus(info.nextPc, fe.tagInstr(info.nextPc).bytes);
        AddsMark(fe, area, opt, t, pc, next2, TagAfterTrap);
        SearchReasons(fe, area, opt, Or(area, t, next2, {TagAfterTrap}), next2, level + 1);
      }
    }
  }

  lemma {:induction false} CallReasons<S(!new), M(!new)>(fe: Frontend<S, M>, area: Area, opt: Options,
                                                         tags: seq<Tag>, pc: Addr, level: nat)
    requires Contract(fe, area) && Reasoned(fe, area, opt, tags) && pc in Code(area, tags)
    ensures Reasoned(fe, area, opt, CallForked(fe, area, opt, tags, pc, level))
    decreases Uncoded(area, tags), 5
  {
    var info := fe.tagInstr(pc);
    if TagCall in info.tag {
      AddsMark(fe, area, opt, tags, pc, info.newPc, TagSubroutine);
      var t := Or(area, tags, info.newPc, {TagSubroutine});
      AddsMark(fe, area, opt, t, pc, info.nextPc, TagAfterCall);
      SearchReasons(fe, area, opt, Or(area, t, info.nextPc, {TagAfterCall}), info.newPc, level + 1);
    }
  }

  /** Marks and reasons for them are the same thing. */
  lemma MarkIffReason<S(!new), M(!new)>(fe: Frontend<S, M>, area: Area, opt: Options, tags: seq<Tag>, x: Addr,
                                        b: TagBit)
    requires Contract(fe, area) && Consistent(fe, area, opt, tags) && Reasoned(fe, area, opt, tags)
    requires area.Contains(x) && b in MARKS
    ensures b in TagAt(area, tags, x) <==> MarkedBy(fe, area, opt, tags, x, b)
  {
    forall a | a in Code(area, tags) && Marks(fe, opt, a, x, b)
      ensures b in TagAt(area, tags, x)
    {
      assert Marked(fe, area, opt, tags, a);
    }
  }

  /** Every mark has a reason: an instruction that has been found, or an entry. */
  ghost predicate MarksAreRight<S(!new), M(!new)>(fe: Frontend<S, M>, area: Area, opt: Options, entries: set<Addr>,
                                                  tags: seq<Tag>)
  {
    Reasoned(fe, area, opt, tags) && forall a: Addr | TagEntry in TagAt(area, tags, a) :: a in entries
  }

  /** One `tag_start` keeps them right. */
  lemma EntryMarks<S(!new), M(!new)>(fe: Frontend<S, M>, area: Area, opt: Options, entries: set<Addr>, tags: seq<Tag>,
                                     pc: Addr)
    requires Contract(fe, area) && Consistent(fe, area, opt, tags) && MarksAreRight(fe, area, opt, entries, tags)
    ensures MarksAreRight(fe, area, opt, entries + {pc}, Search(fe, area, opt, Or(area, tags, pc, {TagEntry}), pc, 0))
  {
    var t := Or(area, tags, pc, {TagEntry});
    AddsNoMark(fe, area, opt, tags, pc, {TagEntry});
    SearchReasons(fe, area, opt, t, pc, 0);
    MarkKeepsConsistent(fe, area, opt, tags, pc, TagEntry);
    SearchFinds(fe, area, opt, t, pc, 0);
    var r := Search(fe, area, opt, t, pc, 0);
    forall a: Addr | TagEntry in TagAt(area, r, a)
      ensures a in entries + {pc}
    {
      assert TagEntry in TagAt(area, r, a) * {TagEntry, TagTranslated};
      assert TagEntry in TagAt(area, t, a);
    }
  }

  /** Nor does marking a label as translated change any of them. */
  lemma TranslatedMarks<S(!new), M(!new)>(fe: Frontend<S, M>, area: Area, opt: Options, entries: set<Addr>,
                                          tags: seq<Tag>, pc: Addr)
    requires MarksAreRight(fe, area, opt, entries, tags)
    ensures MarksAreRight(fe, area, opt, entries, Or(area, tags, pc, {TagTranslated}))
  {
    AddsNoMark(fe, area, opt, tags, pc, {TagTranslated});
  }

  /** What tagging has to make of these entries. */
  ghost predicate TaggedFrom<S(!new), M(!new)>(fe: Frontend<S, M>, area: Area, opt: Options, entries: set<Addr>,
                                               tags: seq<Tag>)
  {
    && Consistent(fe, area, opt, tags) && MarksAreRight(fe, area, opt, entries, tags)
    && (!opt.limit ==> IsReachable(fe, area, opt, entries, Code(area, tags)))
    && (forall a: Addr :: area.Contains(a) && a in entries ==> {TagCode, TagEntry} <= TagAt(area, tags, a))
  }

  /** One more entry. */
  lemma EntryTagged<S(!new), M(!new)>(fe: Frontend<S, M>, area: Area, opt: Options, entries: set<Addr>, tags: seq<Tag>,
                                      pc: Addr)
    requires Contract(fe, area) && TaggedFrom(fe, area, opt, entries, tags)
    ensures var r := Search(fe, area, opt, Or(area, tags, pc, {TagEntry}), pc, 0);
      && TaggedFrom(fe, area, opt, entries + {pc}, r) && Grows(area, tags, r, {TagTranslated})
  {
    EntryFinds(fe, area, opt, entries, tags, pc);
    EntryMarks(fe, area, opt, entries, tags, pc);
  }

  /** An unconditional jump at each of these addresses to the next one. */
  ghost predicate JumpsOnwards<S(!new), M(!new)>(fe: Frontend<S, M>, area: Area, tags: seq<Tag>, from: nat, to: nat) {
    forall b: Addr | from <= b < to ::
      && area.Contains(b) && b - area.lo < |tags| && TagCode !in TagAt(area, tags, b)
      && fe.tagInstr(b).tag == {TagBranch} && fe.tagInstr(b).newPc == b + 1
  }

  /** How deep the limit lets the search go: of a chain of jumps, begun `level` deep, it finds six less
      `level`. */
  lemma {:induction false} LimitIsSix<S(!new), M(!new)>(fe: Frontend<S, M>, area: Area, opt: Options, tags: seq<Tag>,
                                                        a: Addr, level: nat)
    requires opt.limit && level <= 6 && JumpsOnwards(fe, area, tags, a, a + 6 - level)
    ensures forall b: Addr :: TagCode in TagAt(area, Search(fe, area, opt, tags, a, level), b)
                              <==> TagCode in TagAt(area, tags, b) || a <= b < a + 6 - level
    decreases 6 - level
  {
    if level < 6 {
      var info := fe.tagInstr(a);
      var entered := Entered(fe, area, tags, a);
      var marked := Or(area, entered, info.newPc, {TagBranchTarget});
      assert fe.tagInstr(a).newPc == a + 1;
      assert Search(fe, area, opt, tags, a, level) == Walk(fe, area, opt, tags, a, level);
      assert Walk(fe, area, opt, tags, a, level) == Forked(fe, area, opt, entered, a, level);
      assert Forked(fe, area, opt, entered, a, level) == Search(fe, area, opt, marked, info.newPc, level + 1) by {
        assert TrapForked(fe, area, opt, entered, a, level) == entered;
        assert CallForked(fe, area, opt, entered, a, level) == entered;
      }
      LimitIsSix(fe, area, opt, marked, info.newPc, level + 1);
    }
  }

  class TagMap<S(!new), M(!new)> {
    const fe: Frontend<S, M>
    const area: Area
    const opt: Options
    /** Entries the cache file holds for this code. */
    const cachedEntries: seq<Addr>
    var tag: array?<Tag>
    var dirty: bool
    /** Every address tagging was started at. */
    ghost var entries: set<Addr>

    ghost function Tags(): (r: seq<Tag>)
      reads this, tag
    {
      if tag == null then seq(if area.lo <= area.hi then area.hi - area.lo else 0, _ => {}) else tag[..]
    }

    ghost predicate Valid()
      reads this, tag
    {
      && area.lo <= area.hi
      && Contract(fe, area)
      && (tag != null ==> tag.Length == area.hi - area.lo)
      && TaggedFrom(fe, area, opt, entries, Tags())
    }

    constructor (fe: Frontend<S, M>, area: Area, opt: Options, cachedEntries: seq<Addr>)
      requires area.lo <= area.hi && Contract(fe, area)
      ensures Valid() && tag == null && !dirty && entries == {}
      ensures this.fe == fe && this.area == area && this.opt == opt && this.cachedEntries == cachedEntries
    {
      this.fe, this.area, this.opt, this.cachedEntries := fe, area, opt, cachedEntries;
      tag, dirty, entries := null, false, {};
    }

    method OrTag(a: Addr, t: Tag)
      requires tag != null && tag.Length == area.hi - area.lo
      modifies tag
      ensures tag[..] == Or(area, old(tag[..]), a, t)
    {
      if area.Contains(a) {
        tag[a - area.lo] := tag[a - area.lo] + t;
      }
      assert tag[..] == Or(area, old(tag[..]), a, t);
    }

    function GetTag(a: Addr): (t: Tag)
      requires tag != null && tag.Length == area.hi - area.lo
      reads this, tag
      ensures t == TagAt(area, tag[..], a)
    {
      if area.Contains(a) then tag[a - area.lo] else {}
    }

    predicate IsCode(a: Addr)
      requires tag != null && tag.Length == area.hi - area.lo
      reads this, tag
    {
      TagCode in GetTag(a)
    }

    method TagRecursive(start: Addr, level: nat)
      requires tag != null && tag.Length == area.hi - area.lo
      requires opt.limit ==> level <= LIMIT_TAGGING_DFS
      modifies tag
      ensures tag[..] == Search(fe, area, opt, old(tag[..]), start, level)
      decreases Uncoded(area, tag[..]), 3
    {
      if opt.limit && level == LIMIT_TAGGING_DFS {
        return;
      }
      ghost var was := tag[..];
      var pc := start;
      while true
        invariant Walk(fe, area, opt, was, start, level) == Walk(fe, area, opt, tag[..], pc, level)
        invariant Uncoded(area, tag[..]) <= Uncoded(area, was)
        decreases Uncoded(area, tag[..])
      {
        if !area.Contains(pc) {
          return;
        }
        if IsCode(pc) {
          return;
        }
        var info := fe.tagInstr(pc);
        Enter(pc, info);
        if TagTrap in info.tag && !opt.TrapsReturn() {
          return;
        }
        Fork(pc, info, level);
        if TagBranch in info.tag && TagConditional !in info.tag {
          return;
        }
        if TagRet in info.tag {
          return;
        }
        pc := info.nextPc;
      }
    }

    /** The instruction at `pc` is new: tag it, and the place it falls through to when it is
        conditional and not taken. */
    method Enter(pc: Addr, info: TagInfo)
      requires tag != null && tag.Length == area.hi - area.lo
      requires info == fe.tagInstr(pc)
      modifies tag
      ensures tag[..] == Entered(fe, area, old(tag[..]), pc)
    {
      OrTag(pc, info.tag + {TagCode});
      if TagConditional in info.tag {
        OrTag(info.nextPc, {TagAfterCond});
      }
    }

    /** Places other than the next instruction are marked and searched. */
    method Fork(pc: Addr, info: TagInfo, level: nat)
      requires tag != null && tag.Length == area.hi - area.lo
      requires info == fe.tagInstr(pc)
      requires opt.limit ==> level < LIMIT_TAGGING_DFS
      modifies tag
      ensures tag[..] == Forked(fe, area, opt, old(tag[..]), pc, level)
      decreases Uncoded(area, tag[..]), 5
    {
      ForkTrap(pc, info, level);
      ForkCall(pc, info, level);
      if TagBranch in info.tag {
        OrTag(info.newPc, {TagBranchTarget});
        TagRecursive(info.newPc, level + 1);
      }
    }

    method ForkTrap(pc: Addr, info: TagInfo, level: nat)
      requires tag != null && tag.Length == area.hi - area.lo
      requires info == fe.tagInstr(pc)
      requires opt.limit ==> level < LIMIT_TAGGING_DFS
      modifies tag
      ensures tag[..] == TrapForked(fe, area, opt, old(tag[..]), pc, level)
      decreases Uncoded(area, tag[..]), 4
    {
      if TagTrap in info.tag {
        OrTag(info.nextPc, {TagAfterTrap});
        if opt.trapReturnsTwice {
          var nextPc2 := Plus(info.nextPc, fe.tagInstr(info.nextPc).bytes);
          OrTag(nextPc2, {TagAfterTrap});
          TagRecursive(nextPc2, level + 1);
        }
      }
    }

    method ForkCall(pc: Addr, info: TagInfo, level: nat)
      requires tag != null && tag.Length == area.hi - area.lo
      requires info == fe.tagInstr(pc)
      requires opt.limit ==> level < LIMIT_TAGGING_DFS
      modifies tag
      ensures tag[..] == CallForked(fe, area, opt, old(tag[..]), pc, level)
      decreases Uncoded(area, tag[..]), 4
    {
      if TagCall in info.tag {
        OrTag(info.newPc, {TagSubroutine});
        OrTag(info.nextPc, {TagAfterCall});
        TagRecursive(info.newPc, level + 1);
      }
    }

    /** Allocate the array, and start at the entries an earlier run recorded for this code. */
    method InitTagging()
      requires Valid() && tag == null
      modifies this
      ensures Valid() && tag != null && fresh(tag) && dirty == (old(dirty) || (!opt.limit && cachedEntries != []))
      ensures Grows(area, old(Tags()), Tags(), {TagTranslated})
      ensures entries == old(entries) + if opt.limit then {} else Elements(cachedEntries)
      decreases 2
    {
      ghost var was := Tags();
      tag := new Tag[area.hi - area.lo](_ => {});
      assert tag[..] == was;
      if !opt.limit {
        for i := 0 to |cachedEntries|
          invariant Valid() && tag != null && fresh(tag) && dirty == (old(dirty) || i > 0)
          invariant Grows(area, was, Tags(), {TagTranslated})
          invariant entries == old(entries) + Elements(cachedEntries[..i])
        {
          ghost var t := Tags();
          TagStart(cachedEntries[i]);
          GrowsOnwards(area, was, t, Tags(), {TagTranslated}, {TagTranslated});
          OneMoreElement(cachedEntries, i);
        }
        assert cachedEntries[..|cachedEntries|] == cachedEntries;
      }
    }

    /** The client wants to enter the guest code at `pc`. */
    method TagStart(pc: Addr)
      requires Valid()
      modifies this, tag
      ensures Valid() && tag != null && dirty
      ensures if old(tag) == null then fresh(tag) else tag == old(tag)
      ensures Grows(area, old(Tags()), Tags(), {TagTranslated})
      ensures entries == old(entries) + {pc}
              + if old(tag) != null || opt.limit then {} else Elements(cachedEntries)
      ensures area.Contains(pc) ==> {TagCode, TagEntry} <= TagAt(area, Tags(), pc)
      decreases if tag == null then 3 else 1
    {
      dirty := true;
      ghost var was := Tags();
      if tag == null {
        InitTagging();
      }
      ghost var t0 := Tags();
      OrTag(pc, {TagEntry});
      ghost var t := Tags();
      TagRecursive(pc, 0);
      EntryTagged(fe, area, opt, entries, t0, pc);
      GrowsOnwards(area, was, t0, Tags(), {TagTranslated}, {TagTranslated});
      entries := entries + {pc};
    }

    /** This label belongs to a translated function from now on. */
    method MarkTranslated(pc: Addr)
      requires Valid() && tag != null
      modifies tag
      ensures Valid() && tag[..] == Or(area, old(tag[..]), pc, {TagTranslated})
    {
      MarkKeepsConsistent(fe, area, opt, tag[..], pc, TagTranslated);
      TranslatedMarks(fe, area, opt, entries, tag[..], pc);
      OrTag(pc, {TagTranslated});
    }
  }
}
