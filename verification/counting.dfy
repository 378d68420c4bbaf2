/** Counting the values of a column: `value_counts()` (most frequent first)
    and `groupby(column).size()` (keys in ascending order). Both leave out
    missing values. */
module Counting {

  import opened Sequences
  import opened Cells

  // ---------------------------------------------------------------------
  // The order of group keys
  // ---------------------------------------------------------------------

  /** Lexicographic order on texts, by code point. */
  predicate StrLE(a: string, b: string)
  {
    a == [] || (b != [] && (a[0] < b[0] || (a[0] == b[0] && StrLE(a[1..], b[1..]))))
  }

  lemma {:induction false} StrLETotal(a: string, b: string)
    ensures StrLE(a, b) || StrLE(b, a)
  {
    if a != [] && b != [] && a[0] == b[0] {
      StrLETotal(a[1..], b[1..]);
    }
  }

  lemma {:induction false} StrLETransitive(a: string, b: string, c: string)
    requires StrLE(a, b) && StrLE(b, c)
    ensures StrLE(a, c)
  {
    if a != [] && a[0] == b[0] && b[0] == c[0] {
      StrLETransitive(a[1..], b[1..], c[1..]);
    }
  }

  /** The order keys are sorted in: numbers by value, then texts
      lexicographically, then missing values. */
  predicate CellLE(a: Cell, b: Cell)
  {
    if IsNumber(a) && IsNumber(b) then Value(a) <= Value(b)
    else if IsNumber(a) || IsNumber(b) then IsNumber(a)
    else if a.Str? && b.Str? then StrLE(a.s, b.s)
    else a.Str? || !b.Str?
  }

  lemma CellLETotal(a: Cell, b: Cell)
    ensures CellLE(a, b) || CellLE(b, a)
  {
    if a.Str? && b.Str? {
      StrLETotal(a.s, b.s);
    }
  }

  lemma CellLETransitive(a: Cell, b: Cell, c: Cell)
    requires CellLE(a, b) && CellLE(b, c)
    ensures CellLE(a, c)
  {
    if a.Str? && b.Str? && c.Str? {
      StrLETransitive(a.s, b.s, c.s);
    }
  }

  /** Orders (key, count) pairs by key. */
  function ByKey(): ((Cell, nat), (Cell, nat)) -> bool
  {
    (a: (Cell, nat), b: (Cell, nat)) => CellLE(a.0, b.0)
  }

  lemma ByKeyTotalPreorder()
    ensures TotalPreorder(ByKey())
  {
    forall x: (Cell, nat), y: (Cell, nat)
      ensures ByKey()(x, y) || ByKey()(y, x)
    {
      CellLETotal(x.0, y.0);
    }
    forall x: (Cell, nat), y: (Cell, nat), z: (Cell, nat) | ByKey()(x, y) && ByKey()(y, z)
      ensures ByKey()(x, z)
    {
      CellLETransitive(x.0, y.0, z.0);
    }
  }

  /** Orders (key, count) pairs by count, largest first. */
  function ByCountDesc(): ((Cell, nat), (Cell, nat)) -> bool
  {
    (a: (Cell, nat), b: (Cell, nat)) => a.1 >= b.1
  }

  // ---------------------------------------------------------------------
  // Counts
  // ---------------------------------------------------------------------

  /** A rearrangement of the tally of the non-missing values of `col` pairs
      each of them with its number of occurrences. */
  lemma CountedValues(col: seq<Cell>, ps: seq<(Cell, nat)>)
    requires multiset(ps) == multiset(Tally(Filter(col, Known)))
    ensures forall i :: 0 <= i < |ps| ==>
              Known(ps[i].0) && ps[i].0 in col && ps[i].1 >= 1 && ps[i].1 == multiset(col)[ps[i].0]
  {
    var known := Filter(col, Known);
    var tally := Tally(known);
    forall i | 0 <= i < |ps|
      ensures Known(ps[i].0) && ps[i].0 in col && ps[i].1 >= 1 && ps[i].1 == multiset(col)[ps[i].0]
    {
      assert ps[i] in multiset(tally);
      var k := FirstIndex(tally, ps[i]);
      assert ps[i].0 in Distinct(known);
      FilterMultiplicity(col, Known, ps[i].0);
    }
  }

  /** ... and lists each of them once. */
  lemma CountedOnce(col: seq<Cell>, ps: seq<(Cell, nat)>)
    requires multiset(ps) == multiset(Tally(Filter(col, Known)))
    ensures forall i, j :: 0 <= i < j < |ps| ==> ps[i].0 != ps[j].0
  {
    var tally := Tally(Filter(col, Known));
    TallyKeysDistinct(Filter(col, Known));
    assert NoDups(tally);
    PermutationNoDups(ps, tally);
    forall i, j | 0 <= i < j < |ps|
      ensures ps[i].0 != ps[j].0
    {
      assert ps[i] in multiset(tally) && ps[j] in multiset(tally);
      var k, l := FirstIndex(tally, ps[i]), FirstIndex(tally, ps[j]);
      assert ps[i] != ps[j];
      assert k != l;
    }
  }

  /** ... and misses none of them. */
  lemma CountedAll(col: seq<Cell>, ps: seq<(Cell, nat)>)
    requires multiset(ps) == multiset(Tally(Filter(col, Known)))
    ensures forall c :: Known(c) && c in col ==> exists i :: 0 <= i < |ps| && ps[i].0 == c
  {
    var known := Filter(col, Known);
    var tally := Tally(known);
    var d := Distinct(known);
    forall c | Known(c) && c in col
      ensures exists i :: 0 <= i < |ps| && ps[i].0 == c
    {
      assert c in known;
      assert c in d;
      var k := FirstIndex(d, c);
      assert tally[k] in multiset(ps);
      var i := FirstIndex(ps, tally[k]);
      assert ps[i].0 == c;
    }
  }

  /** `Series.value_counts()`: every non-missing value with its number of
      occurrences, most frequent first; equal counts keep first-seen order. */
  function ValueCounts(col: seq<Cell>): (ps: seq<(Cell, nat)>)
    ensures |ps| == |Distinct(Filter(col, Known))|
    ensures forall i :: 0 <= i < |ps| ==>
              Known(ps[i].0) && ps[i].0 in col && ps[i].1 >= 1 && ps[i].1 == multiset(col)[ps[i].0]
    ensures forall i, j :: 0 <= i < j < |ps| ==> ps[i].0 != ps[j].0
    ensures forall c :: Known(c) && c in col ==> exists i :: 0 <= i < |ps| && ps[i].0 == c
    ensures forall i, j :: 0 <= i < j < |ps| ==> ps[i].1 >= ps[j].1
  {
    var tally := Tally(Filter(col, Known));
    var ps := SortBy(ByCountDesc(), tally);
    assert TotalPreorder(ByCountDesc());
    SortBySorted(ByCountDesc(), tally);
    SortedByCount(ps);
    CountedValues(col, ps);
    CountedOnce(col, ps);
    CountedAll(col, ps);
    ps
  }

  /** Pairs sorted by `ByCountDesc` have non-increasing counts. */
  lemma SortedByCount(ps: seq<(Cell, nat)>)
    requires SortedBy(ByCountDesc(), ps)
    ensures forall i, j :: 0 <= i < j < |ps| ==> ps[i].1 >= ps[j].1
  {
    forall i, j | 0 <= i < j < |ps| ensures ps[i].1 >= ps[j].1 {
      assert ByCountDesc()(ps[i], ps[j]);
    }
  }

  /** The counts add up to the number of non-missing values. */
  lemma ValueCountsSum(col: seq<Cell>)
    ensures SumCounts(ValueCounts(col)) == |Filter(col, Known)|
  {
    var known := Filter(col, Known);
    SortBySumCounts(ByCountDesc(), Tally(known));
    TallySum(known);
  }

  /** `Series.groupby(keys).size()`: every non-missing key with its number of
      occurrences, in ascending key order. */
  function GroupSizes(col: seq<Cell>): (ps: seq<(Cell, nat)>)
    ensures |ps| == |Distinct(Filter(col, Known))|
    ensures forall i :: 0 <= i < |ps| ==>
              Known(ps[i].0) && ps[i].0 in col && ps[i].1 >= 1 && ps[i].1 == multiset(col)[ps[i].0]
    ensures forall i, j :: 0 <= i < j < |ps| ==> ps[i].0 != ps[j].0
    ensures forall c :: Known(c) && c in col ==> exists i :: 0 <= i < |ps| && ps[i].0 == c
    ensures forall i, j :: 0 <= i < j < |ps| ==> CellLE(ps[i].0, ps[j].0)
  {
    var tally := Tally(Filter(col, Known));
    var ps := SortBy(ByKey(), tally);
    ByKeyTotalPreorder();
    SortBySorted(ByKey(), tally);
    SortedByKey(ps);
    CountedValues(col, ps);
    CountedOnce(col, ps);
    CountedAll(col, ps);
    ps
  }

  /** Pairs sorted by `ByKey` have ascending keys. */
  lemma SortedByKey(ps: seq<(Cell, nat)>)
    requires SortedBy(ByKey(), ps)
    ensures forall i, j :: 0 <= i < j < |ps| ==> CellLE(ps[i].0, ps[j].0)
  {
    forall i, j | 0 <= i < j < |ps| ensures CellLE(ps[i].0, ps[j].0) {
      assert ByKey()(ps[i], ps[j]);
    }
  }

  /** The group sizes add up to the number of non-missing keys. */
  lemma GroupSizesSum(col: seq<Cell>)
    ensures SumCounts(GroupSizes(col)) == |Filter(col, Known)|
  {
    var known := Filter(col, Known);
    SortBySumCounts(ByKey(), Tally(known));
    TallySum(known);
  }
}
