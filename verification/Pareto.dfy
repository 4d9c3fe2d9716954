/** The design-space frontier over cache bytes and cycles. */
module Pareto {

  /** A simulated configuration.  Its other columns ride along as `tag`. */
  datatype Row = Row(tag: string, bytes: int, cycles: int)

  predicate Dominates(b: Row, a: Row) {
    b.bytes <= a.bytes && b.cycles <= a.cycles && (b.bytes < a.bytes || b.cycles < a.cycles)
  }

  ghost predicate Dominated(rows: seq<Row>, a: Row) {
    exists j :: 0 <= j < |rows| && Dominates(rows[j], a)
  }

  /** The rows that no row dominates, in their order. */
  ghost function Undominated(rows: seq<Row>, n: nat): seq<Row>
    requires n <= |rows|
  {
    if n == 0 then []
    else if Dominated(rows, rows[n - 1]) then Undominated(rows, n - 1)
    else Undominated(rows, n - 1) + [rows[n - 1]]
  }

  /** The sort key's order, strictly. */
  predicate Before(a: Row, b: Row) {
    a.bytes < b.bytes || (a.bytes == b.bytes && a.cycles < b.cycles)
  }

  /** Inserts behind every row whose key is not larger. */
  function Insert(s: seq<Row>, x: Row): seq<Row> {
    if s == [] || !Before(x, s[|s| - 1]) then s + [x]
    else Insert(s[..|s| - 1], x) + [s[|s| - 1]]
  }

  /** A stable sort by bytes, then cycles. */
  function SortByCost(s: seq<Row>): seq<Row> {
    if s == [] then [] else Insert(SortByCost(s[..|s| - 1]), s[|s| - 1])
  }

  ghost predicate Ordered(s: seq<Row>) {
    forall i, j :: 0 <= i < j < |s| ==> !Before(s[j], s[i])
  }

  lemma {:induction false} InsertKeepsRows(s: seq<Row>, x: Row)
    ensures multiset(Insert(s, x)) == multiset(s) + multiset{x}
  {
    if s != [] && Before(x, s[|s| - 1]) {
      hide Before;
      InsertKeepsRows(s[..|s| - 1], x);
      assert s == s[..|s| - 1] + [s[|s| - 1]];
    }
  }

  lemma OrderedSnoc(s: seq<Row>, last: Row)
    requires Ordered(s) && forall y :: y in s ==> !Before(last, y)
    ensures Ordered(s + [last])
  {
    hide Before;
  }

  lemma {:induction false} InsertKeepsOrder(s: seq<Row>, x: Row)
    requires Ordered(s)
    ensures Ordered(Insert(s, x))
  {
    if s == [] {
    } else if Before(x, s[|s| - 1]) {
      var init, last := s[..|s| - 1], s[|s| - 1];
      InsertKeepsOrder(init, x);
      InsertKeepsRows(init, x);
      forall y | y in Insert(init, x) ensures !Before(last, y) {
        assert y in multiset(Insert(init, x));
        assert y == x || y in init;
      }
      OrderedSnoc(Insert(init, x), last);
    } else {
      OrderedSnoc(s, x);
    }
  }

  /** The rows with the same key as `x`, in order. */
  function LevelWith(s: seq<Row>, x: Row): seq<Row> {
    if s == [] then []
    else
      var last := s[|s| - 1];
      LevelWith(s[..|s| - 1], x) + if Before(last, x) || Before(x, last) then [] else [last]
  }

  lemma {:induction false} InsertIsStable(s: seq<Row>, y: Row, x: Row)
    ensures LevelWith(Insert(s, y), x) == LevelWith(s + [y], x)
  {
    assert (s + [y])[..|s|] == s;
    if s != [] && Before(y, s[|s| - 1]) {
      var init, last := s[..|s| - 1], s[|s| - 1];
      InsertIsStable(init, y, x);
      assert (Insert(init, y) + [last])[..|Insert(init, y)|] == Insert(init, y);
      assert (init + [y])[..|init|] == init;
    }
  }

  /** Rows with equal keys stay in the order they came in. */
  lemma {:induction false} SortIsStable(s: seq<Row>, x: Row)
    ensures LevelWith(SortByCost(s), x) == LevelWith(s, x)
  {
    if s != [] {
      var init, last := s[..|s| - 1], s[|s| - 1];
      SortIsStable(init, x);
      InsertIsStable(SortByCost(init), last, x);
      assert (SortByCost(init) + [last])[..|SortByCost(init)|] == SortByCost(init);
    }
  }

  lemma {:induction false} SortIsOrdered(s: seq<Row>)
    ensures Ordered(SortByCost(s)) && multiset(SortByCost(s)) == multiset(s)
  {
    if s != [] {
      var init, last := s[..|s| - 1], s[|s| - 1];
      SortIsOrdered(init);
      InsertKeepsOrder(SortByCost(init), last);
      InsertKeepsRows(SortByCost(init), last);
      assert s == init + [last];
    }
  }

  ghost function Frontier(rows: seq<Row>): seq<Row> {
    SortByCost(Undominated(rows, |rows|))
  }

  /** The row that the comparison skips is the row itself, which could not have
      dominated it anyway. */
  method ParetoFrontier(rows: seq<Row>) returns (out: seq<Row>)
    ensures out == Frontier(rows)
  {
    out := [];
    for i := 0 to |rows|
      invariant out == Undominated(rows, i)
    {
      var a, dominated := rows[i], false;
      for j := 0 to |rows|
        invariant dominated ==> Dominated(rows, a)
        invariant !dominated ==> forall k :: 0 <= k < j ==> !Dominates(rows[k], a)
      {
        if i == j {
          continue;
        }
        var b := rows[j];
        var noWorse := b.bytes <= a.bytes && b.cycles <= a.cycles;
        var strict := b.bytes < a.bytes || b.cycles < a.cycles;
        if noWorse && strict {
          dominated := true;
          break;
        }
      }
      if !dominated {
        out := out + [a];
      }
    }
    out := SortByCost(out);
  }

  /** How often `a` occurs. */
  ghost function Copies(s: seq<Row>, a: Row): nat {
    multiset(s)[a]
  }

  lemma CopiesSnoc(s: seq<Row>, x: Row, a: Row)
    ensures Copies(s + [x], a) == Copies(s, a) + if x == a then 1 else 0
  {
  }

  lemma CopiesInPrefix(rows: seq<Row>, n: nat, a: Row)
    requires 0 < n <= |rows|
    ensures Copies(rows[..n], a) == Copies(rows[..n - 1], a) + if rows[n - 1] == a then 1 else 0
  {
    hide Copies;
    assert rows[..n] == rows[..n - 1] + [rows[n - 1]];
    CopiesSnoc(rows[..n - 1], rows[n - 1], a);
  }

  lemma {:induction false} UndominatedContents(rows: seq<Row>, n: nat, a: Row)
    requires n <= |rows|
    ensures Copies(Undominated(rows, n), a) == if Dominated(rows, a) then 0 else Copies(rows[..n], a)
  {
    hide Dominated;
    if n > 0 {
      hide Copies;
      UndominatedContents(rows, n - 1, a);
      CopiesInPrefix(rows, n, a);
      CopiesSnoc(Undominated(rows, n - 1), rows[n - 1], a);
    }
  }

  /** The output holds every undominated row as often as the input does, and no
      other row. */
  lemma FrontierContents(rows: seq<Row>, a: Row)
    ensures multiset(Frontier(rows))[a] == if Dominated(rows, a) then 0 else multiset(rows)[a]
    ensures a in Frontier(rows) <==> a in rows && !Dominated(rows, a)
  {
    hide Dominated, Ordered;
    UndominatedContents(rows, |rows|, a);
    SortIsOrdered(Undominated(rows, |rows|));
    assert rows[..|rows|] == rows;
    assert Copies(Frontier(rows), a) == Copies(Undominated(rows, |rows|), a);
    assert a in Frontier(rows) <==> a in multiset(Frontier(rows));
    assert a in rows <==> a in multiset(rows);
  }

  ghost function Dominators(rows: seq<Row>, a: Row): set<nat> {
    set j: nat | j < |rows| && Dominates(rows[j], a)
  }

  /** Every row left out is dominated by a row of the output: climbing from
      dominator to dominator ends, at one that nothing dominates. */
  lemma {:induction false} RejectedIsDominatedByKept(rows: seq<Row>, a: Row) returns (b: Row)
    requires Dominated(rows, a)
    ensures b in Frontier(rows) && Dominates(b, a)
    decreases Dominators(rows, a)
  {
    hide Frontier;
    var j :| 0 <= j < |rows| && Dominates(rows[j], a);
    b := rows[j];
    if Dominated(rows, b) {
      assert j in Dominators(rows, a) && j !in Dominators(rows, b);
      assert Dominators(rows, b) <= Dominators(rows, a);
      b := RejectedIsDominatedByKept(rows, b);
    } else {
      FrontierContents(rows, b);
    }
  }

  lemma NothingDominatesKept(rows: seq<Row>, a: Row, b: Row)
    requires a in rows && !Dominated(rows, b)
    ensures !Dominates(a, b)
  {
    var k :| 0 <= k < |rows| && rows[k] == a;
    assert !Dominates(rows[k], b);
  }

  /** No kept row dominates another, and along the output bytes go up exactly
      where cycles go down: two rows level in one are level in both. */
  lemma FrontierIsAStaircase(rows: seq<Row>, i: nat, j: nat)
    requires i < j < |Frontier(rows)|
    ensures var a, b := Frontier(rows)[i], Frontier(rows)[j];
            && !Dominates(a, b) && !Dominates(b, a)
            && a.bytes <= b.bytes && a.cycles >= b.cycles
            && (a.bytes < b.bytes <==> a.cycles > b.cycles)
  {
    var out := Frontier(rows);
    SortIsOrdered(Undominated(rows, |rows|));
    FrontierContents(rows, out[i]);
    FrontierContents(rows, out[j]);
    hide Frontier;
    assert !Before(out[j], out[i]);
    NothingDominatesKept(rows, out[i], out[j]);
    NothingDominatesKept(rows, out[j], out[i]);
  }
}
