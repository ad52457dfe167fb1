/** The opcode tables that a script makes from bit patterns, and the first match in them
    (`arch/m68k/opcode_id.py`). */
module OpcodeTable {
  const UNKNOWN := "UNKNOWN"

  /** A line of the table file: sixteen characters, of which 0 and 1 fix a bit and - fixes none. */
  datatype Line = Line(desc: string, name: string)

  predicate IsPattern(desc: string) {
    forall i | 0 <= i < |desc| :: desc[i] == '0' || desc[i] == '1' || desc[i] == '-'
  }

  predicate AllDash(desc: string) {
    forall i | 0 <= i < |desc| :: desc[i] == '-'
  }

  /** Bit `k` of a word, counted from the right. */
  predicate Bit(word: nat, k: nat) {
    if k == 0 then word % 2 == 1 else Bit(word / 2, k - 1)
  }

  /** Character by character. */
  ghost predicate Matches(word: nat, desc: string) {
    forall k: nat | k < |desc| :: MatchesAt(word, desc, k)
  }

  predicate MatchesAt(word: nat, desc: string, k: nat)
    requires k < |desc|
  {
    var c := desc[|desc| - 1 - k];
    c == '-' || (c == '1' <==> Bit(word, k))
  }

  /** `d` fixes every bit that `e` fixes, and one more. */
  ghost predicate FixesMore(d: string, e: string) {
    && |d| == |e|
    && (forall i | 0 <= i < |d| :: e[i] != '-' ==> d[i] != '-')
    && exists i | 0 <= i < |d| :: d[i] != '-' && e[i] == '-'
  }

  // ---------- value and mask ----------

  function ValueOf(desc: string): nat {
    if desc == "" then 0 else 2 * ValueOf(desc[..|desc| - 1]) + if desc[|desc| - 1] == '1' then 1 else 0
  }

  function MaskOf(desc: string): nat {
    if desc == "" then 0 else 2 * MaskOf(desc[..|desc| - 1]) + if desc[|desc| - 1] == '-' then 0 else 1
  }

  /** `mask_from_desc`. */
  method MaskFromDesc(desc: string) returns (out: nat)
    ensures out == MaskOf(desc)
  {
    out := 0;
    for i := 0 to |desc|
      invariant out == MaskOf(desc[..i])
    {
      assert desc[..i + 1][..i] == desc[..i];
      out := 2 * out + if desc[i] == '-' then 0 else 1;
    }
    assert desc[..|desc|] == desc;
  }

  /** `value_from_desc`: the dashes replaced by zeros, then read as a binary number. */
  method ValueFromDesc(desc: string) returns (value: nat)
    requires IsPattern(desc)
    ensures value == ValueOf(desc)
  {
    value := 0;
    for i := 0 to |desc|
      invariant value == ValueOf(desc[..i])
    {
      assert desc[..i + 1][..i] == desc[..i];
      var digit := if desc[i] == '-' then '0' else desc[i];
      value := 2 * value + if digit == '1' then 1 else 0;
    }
    assert desc[..|desc|] == desc;
  }

  /** Bitwise and. */
  function And(x: nat, y: nat): nat {
    if x == 0 || y == 0 then 0 else 2 * And(x / 2, y / 2) + if x % 2 == 1 && y % 2 == 1 then 1 else 0
  }

  lemma {:induction false} AndBit(x: nat, y: nat, b: nat)
    requires b < 2
    ensures And(x, 2 * y + b) == 2 * And(x / 2, y) + if b == 1 && x % 2 == 1 then 1 else 0
  {
  }

  /** The test of the decoder is the match of the characters. */
  lemma {:induction false} TestIsMatch(word: nat, desc: string)
    requires IsPattern(desc)
    ensures And(word, MaskOf(desc)) == ValueOf(desc) <==> Matches(word, desc)
  {
    if desc != "" {
      var n := |desc| - 1;
      var front, b := desc[..n], if desc[n] == '-' then 0 else 1;
      TestIsMatch(word / 2, front);
      AndBit(word, MaskOf(front), b);
      MatchesSplit(word, desc);
    }
  }

  lemma {:induction false} MatchesSplit(word: nat, desc: string)
    requires desc != ""
    ensures Matches(word, desc) <==> MatchesAt(word, desc, 0) && Matches(word / 2, desc[..|desc| - 1])
  {
    var front := desc[..|desc| - 1];
    forall k: nat | k < |front|
      ensures MatchesAt(word / 2, front, k) <==> MatchesAt(word, desc, k + 1)
    {
      assert front[|front| - 1 - k] == desc[|desc| - 1 - (k + 1)];
    }
    if MatchesAt(word, desc, 0) && Matches(word / 2, front) {
      forall k: nat | k < |desc|
        ensures MatchesAt(word, desc, k)
      {
        if k > 0 {
          assert MatchesAt(word / 2, front, k - 1);
        }
      }
    }
    if Matches(word, desc) {
      forall k: nat | k < |front|
        ensures MatchesAt(word / 2, front, k)
      {
        assert MatchesAt(word, desc, k + 1);
      }
    }
  }

  /** A mask that fixes more is a greater number. */
  lemma {:induction false} MoreFixedIsGreater(d: string, e: string)
    requires |d| == |e| && forall i | 0 <= i < |d| :: e[i] != '-' ==> d[i] != '-'
    ensures MaskOf(e) <= MaskOf(d)
    ensures (exists i | 0 <= i < |d| :: d[i] != '-' && e[i] == '-') ==> MaskOf(e) < MaskOf(d)
  {
    if d != "" {
      var n := |d| - 1;
      MoreFixedIsGreater(d[..n], e[..n]);
      if i :| 0 <= i < |d| && d[i] != '-' && e[i] == '-' {
        if i < n {
          assert d[..n][i] != '-' && e[..n][i] == '-';
        }
      }
    }
  }

  lemma {:induction false} Bounds(desc: string)
    requires IsPattern(desc)
    ensures ValueOf(desc) <= MaskOf(desc) <= Ones(|desc|)
    ensures MaskOf(desc) == 0 <==> AllDash(desc)
  {
    if desc != "" {
      var n := |desc| - 1;
      Bounds(desc[..n]);
      assert AllDash(desc) <==> AllDash(desc[..n]) && desc[n] == '-';
    }
  }

  function Ones(n: nat): nat {
    if n == 0 then 0 else 2 * Ones(n - 1) + 1
  }

  // ---------- the table ----------

  /** A row of the table; `line` is where the pattern was in the file. */
  datatype Row = Row(name: string, value: nat, mask: nat, line: nat)

  function RowOf(lines: seq<Line>, i: nat): Row
    requires i < |lines|
  {
    Row(lines[i].name, ValueOf(lines[i].desc), MaskOf(lines[i].desc), i)
  }

  /** `precision_from_opcode`. */
  function Precision(r: Row): nat {
    r.mask * 65536 + r.value
  }

  /** The order a stable sort by falling precision leaves. */
  predicate Before(r: Row, s: Row) {
    Precision(r) > Precision(s) || (Precision(r) == Precision(s) && r.line < s.line)
  }

  ghost predicate InOrder(table: seq<Row>) {
    forall p, q | 0 <= p < q < |table| :: Before(table[p], table[q])
  }

  function Insert(table: seq<Row>, r: Row): seq<Row> {
    if table == [] then [r]
    else if Precision(table[0]) >= Precision(r) then [table[0]] + Insert(table[1..], r)
    else [r] + table
  }

  /** `sorted` with the rows of the first `n` lines. */
  function Sorted(lines: seq<Line>, n: nat): seq<Row>
    requires n <= |lines|
  {
    if n == 0 then [] else Insert(Sorted(lines, n - 1), RowOf(lines, n - 1))
  }

  lemma {:induction false} InsertAdds(table: seq<Row>, r: Row)
    ensures forall s :: s in Insert(table, r) <==> s == r || s in table
  {
    if table != [] {
      InsertAdds(table[1..], r);
      assert table == [table[0]] + table[1..];
    }
  }

  lemma {:induction false} InsertKeepsOrder(table: seq<Row>, r: Row)
    requires InOrder(table) && forall s | s in table :: s.line < r.line
    ensures InOrder(Insert(table, r))
  {
    if table != [] {
      if Precision(table[0]) >= Precision(r) {
        InsertKeepsOrder(table[1..], r);
        InsertAdds(table[1..], r);
        FirstBeforeRest(table[0], Insert(table[1..], r));
      } else {
        FirstBeforeRest(r, table);
      }
    }
  }

  lemma {:induction false} FirstBeforeRest(r: Row, rest: seq<Row>)
    requires InOrder(rest) && forall s | s in rest :: Before(r, s)
    ensures InOrder([r] + rest)
  {
  }

  lemma {:induction false} SortedIs(lines: seq<Line>, n: nat)
    requires n <= |lines|
    ensures InOrder(Sorted(lines, n))
    ensures forall s :: s in Sorted(lines, n) <==> exists i :: 0 <= i < n && s == RowOf(lines, i)
  {
    if n > 0 {
      SortedIs(lines, n - 1);
      InsertAdds(Sorted(lines, n - 1), RowOf(lines, n - 1));
      InsertKeepsOrder(Sorted(lines, n - 1), RowOf(lines, n - 1));
    }
  }

  // ---------- identify_opcode ----------

  predicate Hit(r: Row, word: nat) {
    And(word, r.mask) == r.value
  }

  /** The row at which the search ends: the first that matches or is named UNKNOWN. */
  ghost predicate EndsAt(table: seq<Row>, word: nat, p: nat) {
    && p < |table| && (table[p].name == UNKNOWN || Hit(table[p], word))
    && forall q | 0 <= q < p :: table[q].name != UNKNOWN && !Hit(table[q], word)
  }

  method IdentifyOpcode(table: seq<Row>, word: nat) returns (name: string)
    requires exists p :: 0 <= p < |table| && table[p].name == UNKNOWN
    ensures exists end: nat :: EndsAt(table, word, end) && name == table[end].name
  {
    var p: nat := 0;
    while table[p].name != UNKNOWN
      invariant p < |table| && exists q :: p <= q < |table| && table[q].name == UNKNOWN
      invariant forall q | 0 <= q < p :: table[q].name != UNKNOWN && !Hit(table[q], word)
      decreases |table| - p
    {
      if And(word, table[p].mask) == table[p].value {
        assert EndsAt(table, word, p);
        return table[p].name;
      }
      p := p + 1;
    }
    assert EndsAt(table, word, p);
    return UNKNOWN;
  }

  /** Sixteen characters a line, and UNKNOWN stands only for patterns that fix nothing. */
  predicate IsTable(lines: seq<Line>) {
    && (forall i | 0 <= i < |lines| :: |lines[i].desc| == 16 && IsPattern(lines[i].desc))
    && (forall i | 0 <= i < |lines| :: lines[i].name == UNKNOWN ==> AllDash(lines[i].desc))
    && exists i | 0 <= i < |lines| :: lines[i].name == UNKNOWN
  }

  lemma {:induction false} PrecisionGrows(lines: seq<Line>, i: nat, j: nat)
    requires IsTable(lines) && i < |lines| && j < |lines|
    ensures RowOf(lines, i).mask < RowOf(lines, j).mask ==> Precision(RowOf(lines, i)) < Precision(RowOf(lines, j))
    ensures AllDash(lines[i].desc) <==> Precision(RowOf(lines, i)) == 0
  {
    Bounds(lines[i].desc);
    Bounds(lines[j].desc);
    assert Ones(16) == 65535 by {
      assert Ones(4) == 15;
      assert Ones(8) == 255;
      assert Ones(12) == 4095;
    }
  }

  /** What is found matches, and nothing that matches fixes a strict superset of its bits. */
  lemma {:induction false} FindsMostSpecific(lines: seq<Line>, word: nat, end: nat)
    requires IsTable(lines) && EndsAt(Sorted(lines, |lines|), word, end)
    ensures var i := Sorted(lines, |lines|)[end].line;
      && i < |lines| && lines[i].name == Sorted(lines, |lines|)[end].name && Matches(word, lines[i].desc)
      && forall j | 0 <= j < |lines| && Matches(word, lines[j].desc) :: !FixesMore(lines[j].desc, lines[i].desc)
  {
    var table := Sorted(lines, |lines|);
    SortedIs(lines, |lines|);
    assert table[end] in table;
    var i := table[end].line;
    assert table[end] == RowOf(lines, i);
    TestIsMatch(word, lines[i].desc);
    if lines[i].name == UNKNOWN {
      assert Matches(word, lines[i].desc);
    }
    forall j | 0 <= j < |lines| && Matches(word, lines[j].desc)
      ensures !FixesMore(lines[j].desc, lines[i].desc)
    {
      if FixesMore(lines[j].desc, lines[i].desc) {
        MoreFixedIsGreater(lines[j].desc, lines[i].desc);
        PrecisionGrows(lines, i, j);
        NothingBetter(lines, word, end, j);
        assert false;
      }
    }
  }

  /** No line that matches comes before the one that is found. */
  lemma {:induction false} NothingBetter(lines: seq<Line>, word: nat, end: nat, j: nat)
    requires IsTable(lines) && EndsAt(Sorted(lines, |lines|), word, end) && j < |lines| && Matches(word, lines[j].desc)
    ensures !Before(RowOf(lines, j), Sorted(lines, |lines|)[end])
  {
    var table := Sorted(lines, |lines|);
    SortedIs(lines, |lines|);
    assert RowOf(lines, j) in table;
    var q :| 0 <= q < |table| && table[q] == RowOf(lines, j);
    TestIsMatch(word, lines[j].desc);
    assert q >= end;
    if q > end {
      assert Before(table[end], table[q]);
    }
  }

  /** The answer is UNKNOWN exactly if no other line matches, leaving aside those that fix nothing
      either and stand after the first UNKNOWN in the file. */
  lemma {:induction false} UnknownIffNothingMatches(lines: seq<Line>, word: nat, end: nat, u: nat)
    requires IsTable(lines) && EndsAt(Sorted(lines, |lines|), word, end)
    requires u < |lines| && lines[u].name == UNKNOWN && forall i | 0 <= i < u :: lines[i].name != UNKNOWN
    ensures Sorted(lines, |lines|)[end].name == UNKNOWN
       <==> forall i | 0 <= i < |lines| && lines[i].name != UNKNOWN && Matches(word, lines[i].desc) ::
              AllDash(lines[i].desc) && i > u
  {
    var table := Sorted(lines, |lines|);
    SortedIs(lines, |lines|);
    assert table[end] in table;
    var e := table[end].line;
    assert table[end] == RowOf(lines, e);
    if lines[e].name == UNKNOWN {
      forall i | 0 <= i < |lines| && lines[i].name != UNKNOWN && Matches(word, lines[i].desc)
        ensures AllDash(lines[i].desc) && i > u
      {
        NothingBetter(lines, word, end, i);
        PrecisionGrows(lines, i, e);
        PrecisionGrows(lines, e, i);
      }
    } else {
      FindsMostSpecific(lines, word, end);
      if AllDash(lines[e].desc) && e > u {
        assert Matches(word, lines[u].desc);
        NothingBetter(lines, word, end, u);
        PrecisionGrows(lines, u, e);
        PrecisionGrows(lines, e, u);
        assert false;
      }
    }
  }

  /** The script and the function it writes, together. */
  method Identify(lines: seq<Line>, word: nat) returns (name: string)
    requires IsTable(lines)
    ensures exists i :: 0 <= i < |lines| && lines[i].name == name && Matches(word, lines[i].desc)
                        && forall j | 0 <= j < |lines| && Matches(word, lines[j].desc) ::
                             !FixesMore(lines[j].desc, lines[i].desc)
  {
    var table := Decoder(lines);
    SortedIs(lines, |lines|);
    UnknownIsThere(lines);
    name := IdentifyOpcode(table, word);
    ghost var end: nat :| EndsAt(table, word, end) && name == table[end].name;
    FindsMostSpecific(lines, word, end);
  }

  lemma {:induction false} UnknownIsThere(lines: seq<Line>)
    requires IsTable(lines)
    ensures var table := Sorted(lines, |lines|); exists p :: 0 <= p < |table| && table[p].name == UNKNOWN
  {
    SortedIs(lines, |lines|);
    var i :| 0 <= i < |lines| && lines[i].name == UNKNOWN;
    assert RowOf(lines, i) in Sorted(lines, |lines|);
  }

  /** `main`: the rows of all lines, sorted. */
  method Decoder(lines: seq<Line>) returns (table: seq<Row>)
    requires forall i | 0 <= i < |lines| :: IsPattern(lines[i].desc)
    ensures table == Sorted(lines, |lines|)
  {
    table := [];
    for i := 0 to |lines|
      invariant table == Sorted(lines, i)
    {
      var value := ValueFromDesc(lines[i].desc);
      var mask := MaskFromDesc(lines[i].desc);
      table := Insert(table, Row(lines[i].name, value, mask, i));
    }
  }
}
