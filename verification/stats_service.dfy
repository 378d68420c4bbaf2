/** The statistics service: the overview of the table, the number of rows
    per type, the number of rows per step, and the amount distribution. Every
    query reads the published table, passed in as `t`; its rows carry the
    default index, so a row's index label is its position. */
module Stats {

  import opened Sequences
  import opened Cells
  import opened Counting

  // ---------------------------------------------------------------------
  // Aggregates of a column
  // ---------------------------------------------------------------------

  /** The values pandas aggregates in `col`: numbers are kept, missing
      values skipped, and a text raises `TypeError`. */
  function Numbers(col: seq<Cell>): (r: Outcome<seq<real>>)
    ensures r.Ok? <==> forall i :: 0 <= i < |col| ==> !col[i].Str?
    ensures r.Raised? ==> r.fault == TypeError
    ensures r.Ok? ==> |r.value| <= |col|
    ensures r.Ok? ==> (r.value == [] <==> forall i :: 0 <= i < |col| ==> !IsNumber(col[i]))
    ensures r.Ok? ==> r.value == NumbersIn(col)
  {
    if col == [] then Ok([])
    else
      var c := col[|col| - 1];
      match Numbers(col[..|col| - 1])
      case Raised(f) => Raised(f)
      case Ok(xs) =>
        if c.Str? then Raised(TypeError)
        else if IsNumber(c) then Ok(xs + [Value(c)])
        else Ok(xs)
  }

  /** `Series.mean()`: `NaN` when there is nothing to average. */
  function Mean(xs: seq<real>): (m: Cell)
    ensures xs == [] <==> m.NaN?
    ensures xs != [] ==> m == Dec(Sum(xs) / |xs| as real)
  {
    if xs == [] then NaN else Dec(Sum(xs) / |xs| as real)
  }

  /** The mean lies between the smallest and the largest value. */
  lemma {:induction false} MeanBounds(xs: seq<real>, lo: real, hi: real)
    requires xs != [] && forall x :: x in xs ==> lo <= x <= hi
    ensures lo <= Mean(xs).d <= hi
  {
    SumBounds(xs, lo, hi);
  }

  lemma {:induction false} SumBounds(xs: seq<real>, lo: real, hi: real)
    requires forall x :: x in xs ==> lo <= x <= hi
    ensures |xs| as real * lo <= Sum(xs) <= |xs| as real * hi
  {
    if xs != [] {
      var p := xs[..|xs| - 1];
      assert xs[|xs| - 1] in xs;
      assert forall x :: x in p ==> x in xs;
      SumBounds(p, lo, hi);
    }
  }

  /** `Series.idxmax()`: the first position holding the largest number,
      missing values skipped; nothing when there is no number. */
  function ArgMax(col: seq<Cell>): (r: Option<nat>)
    ensures r.None? <==> forall i :: 0 <= i < |col| ==> !IsNumber(col[i])
    ensures r.Some? ==> r.value < |col| && IsNumber(col[r.value])
    ensures r.Some? ==> forall i :: 0 <= i < |col| && IsNumber(col[i]) ==> Value(col[i]) <= Value(col[r.value])
    ensures r.Some? ==> forall i :: 0 <= i < r.value && IsNumber(col[i]) ==> Value(col[i]) < Value(col[r.value])
  {
    if col == [] then None
    else
      var last := col[|col| - 1];
      match ArgMax(col[..|col| - 1])
      case None => if IsNumber(last) then Some(|col| - 1) else None
      case Some(k) =>
        if IsNumber(last) && Value(last) > Value(col[k]) then Some(|col| - 1) else Some(k)
  }

  /** `Series.mode()[0]`: among the most frequent non-missing values, the
      least one; nothing when every value is missing. */
  function Mode(col: seq<Cell>): (r: Option<Cell>)
    ensures r.None? <==> forall i :: 0 <= i < |col| ==> !Known(col[i])
    ensures r.Some? ==> Known(r.value) && r.value in col
    ensures r.Some? ==> forall c :: c in col && Known(c) ==> multiset(col)[c] <= multiset(col)[r.value]
    ensures r.Some? ==> forall c :: c in col && Known(c) && multiset(col)[c] == multiset(col)[r.value] ==> CellLE(r.value, c)
  {
    var groups := GroupSizes(col);
    if groups == [] then
      None
    else
      var k := FirstLargest(groups);
      ModeIsLeast(col, groups, k);
      Some(groups[k].0)
  }

  /** The first position of a largest count. */
  function FirstLargest(ps: seq<(Cell, nat)>): (k: nat)
    requires ps != []
    ensures k < |ps|
    ensures forall i :: 0 <= i < |ps| ==> ps[i].1 <= ps[k].1
    ensures forall i :: 0 <= i < k ==> ps[i].1 < ps[k].1
  {
    if |ps| == 1 then 0
    else
      var k := FirstLargest(ps[..|ps| - 1]);
      if ps[|ps| - 1].1 > ps[k].1 then |ps| - 1 else k
  }

  lemma ModeIsLeast(col: seq<Cell>, groups: seq<(Cell, nat)>, k: nat)
    requires groups == GroupSizes(col) && groups != [] && k == FirstLargest(groups)
    ensures forall c :: c in col && Known(c) ==> multiset(col)[c] <= multiset(col)[groups[k].0]
    ensures forall c :: c in col && Known(c) && multiset(col)[c] == multiset(col)[groups[k].0] ==> CellLE(groups[k].0, c)
  {
    forall c | c in col && Known(c)
      ensures multiset(col)[c] <= multiset(col)[groups[k].0]
      ensures multiset(col)[c] == multiset(col)[groups[k].0] ==> CellLE(groups[k].0, c)
    {
      var i :| 0 <= i < |groups| && groups[i].0 == c;
      FirstLargestBeats(groups, k, i);
    }
  }

  /** Against the first largest group, any group has a smaller count, or the
      same count and a key that is not smaller. */
  lemma FirstLargestBeats(groups: seq<(Cell, nat)>, k: nat, i: nat)
    requires groups != [] && k == FirstLargest(groups) && i < |groups|
    requires forall a, b :: 0 <= a < b < |groups| ==> CellLE(groups[a].0, groups[b].0)
    ensures groups[i].1 <= groups[k].1
    ensures groups[i].1 == groups[k].1 ==> CellLE(groups[k].0, groups[i].0)
  {
    if i == k {
      CellLETotal(groups[i].0, groups[i].0);
    }
  }

  // ---------------------------------------------------------------------
  // Overview
  // ---------------------------------------------------------------------

  /** The row reported as the largest transaction. */
  datatype TopTransaction = TopTransaction(id: string, amount: real, date: string)

  datatype GlobalStats = GlobalStats(totalTransactions: nat, averageAmount: Cell,
                                     topTransaction: Option<TopTransaction>, fraudRate: real,
                                     mostCommonType: string)

  const NoStats := GlobalStats(0, Dec(0.0), None, 0.0, "N/A")

  /** `round(float(df["amount"].mean()), 2)`: `NaN` when no amount is
      known, `TypeError` when an amount is a text. */
  function AverageAmount(col: seq<Cell>): (r: Outcome<Cell>)
    ensures r.Raised? <==> exists i :: 0 <= i < |col| && col[i].Str?
    ensures r.Raised? ==> r.fault == TypeError
    ensures r.Ok? ==> (r.value.NaN? <==> forall i :: 0 <= i < |col| ==> !IsNumber(col[i]))
    ensures r.Ok? && !r.value.NaN? ==>
              var xs := Numbers(col).value;
              xs != [] && r.value.Dec? && -0.005 <= r.value.d - Sum(xs) / |xs| as real <= 0.005
  {
    match Numbers(col)
    case Raised(f) => Raised(f)
    case Ok(xs) =>
      if xs == [] then
        Ok(NaN)
      else
        assert xs[0] in xs;
        Ok(Dec(Round2(Mean(xs).d)))
  }

  /** The reported average lies within rounding of the amounts' range. */
  lemma AverageInRange(col: seq<Cell>, lo: real, hi: real)
    requires AverageAmount(col).Ok? && AverageAmount(col).value.Dec?
    requires forall i :: 0 <= i < |col| && IsNumber(col[i]) ==> lo <= Value(col[i]) <= hi
    ensures lo - 0.005 <= AverageAmount(col).value.d <= hi + 0.005
  {
    var xs := Numbers(col).value;
    assert forall x :: x in xs ==> lo <= x <= hi;
    MeanBounds(xs, lo, hi);
  }

  /** The row `idxmax()` names, reported by its index label and its amount;
      nothing when no amount is a number. */
  function TopOf(col: seq<Cell>): (r: Option<TopTransaction>)
    ensures r.None? <==> forall i :: 0 <= i < |col| ==> !IsNumber(col[i])
    ensures r.Some? ==>
              exists k :: (0 <= k < |col| && IsNumber(col[k])
                           && r.value == TopTransaction(IntText(k), Value(col[k]), "N/A")
                           && (forall i :: 0 <= i < |col| && IsNumber(col[i]) ==> Value(col[i]) <= Value(col[k]))
                           && (forall i :: 0 <= i < k && IsNumber(col[i]) ==> Value(col[i]) < Value(col[k])))
  {
    match ArgMax(col)
    case Some(k) => Some(TopTransaction(IntText(k), Value(col[k]), "N/A"))
    case None => None
  }

  /** `str(df["type"].mode()[0])`, or "N/A" without a type column or
      without any known type. */
  function CommonType(t: Frame): (r: string)
    ensures Type !in t.columns ==> r == "N/A"
    ensures Type in t.columns ==>
              var mode := Mode(Column(t.rows, Type));
              r == if mode.Some? then Text(mode.value) else "N/A"
  {
    if Type in t.columns then
      match Mode(Column(t.rows, Type))
      case Some(c) => Text(c)
      case None => "N/A"
    else "N/A"
  }

  /** `get_global_stats()`: the row count, the mean amount, the first row
      with the largest amount and the most common type; the fraud rate is
      always 0. The empty table gives a fixed record. */
  function GetGlobalStats(t: Frame): (r: Outcome<GlobalStats>)
    ensures IsEmpty(t) ==> r == Ok(NoStats)
    ensures r.Raised? <==> !IsEmpty(t) && Amount in t.columns && AverageAmount(Column(t.rows, Amount)).Raised?
    ensures r.Raised? ==> r.fault == TypeError
    ensures !IsEmpty(t) && r.Ok? ==>
              && r.value.totalTransactions == |t.rows|
              && r.value.fraudRate == 0.0
              && r.value.mostCommonType == CommonType(t)
    ensures !IsEmpty(t) && Amount !in t.columns ==>
              r.Ok? && r.value.averageAmount == Dec(0.0) && r.value.topTransaction.None?
    ensures !IsEmpty(t) && r.Ok? && Amount in t.columns ==>
              && r.value.averageAmount == AverageAmount(Column(t.rows, Amount)).value
              && r.value.topTransaction == TopOf(Column(t.rows, Amount))
  {
    if IsEmpty(t) then Ok(NoStats)
    else if Amount !in t.columns then Ok(GlobalStats(|t.rows|, Dec(0.0), None, 0.0, CommonType(t)))
    else
      var col := Column(t.rows, Amount);
      match AverageAmount(col)
      case Raised(f) => Raised(f)
      case Ok(avg) => Ok(GlobalStats(|t.rows|, avg, TopOf(col), 0.0, CommonType(t)))
  }

  // ---------------------------------------------------------------------
  // Rows per type and per step
  // ---------------------------------------------------------------------

  /** Each (value, count) pair with its value written out by `name`. */
  function Labelled(ps: seq<(Cell, nat)>, name: Cell -> string): (r: seq<(string, nat)>)
    ensures |r| == |ps|
    ensures forall i :: 0 <= i < |ps| ==> r[i].0 == name(ps[i].0) && r[i].1 == ps[i].1
    ensures SumCounts(r) == SumCounts(ps)
  {
    if ps == [] then []
    else
      var r := Labelled(ps[..|ps| - 1], name) + [(name(ps[|ps| - 1].0), ps[|ps| - 1].1)];
      assert r[..|r| - 1] == Labelled(ps[..|ps| - 1], name);
      r
  }

  /** Labelling keeps the counts, so it keeps their order and their lower bound. */
  lemma LabelledOrder(ps: seq<(Cell, nat)>, name: Cell -> string)
    ensures (forall i, j :: 0 <= i < j < |ps| ==> ps[i].1 >= ps[j].1) ==>
              forall i, j :: 0 <= i < j < |ps| ==> Labelled(ps, name)[i].1 >= Labelled(ps, name)[j].1
    ensures (forall i :: 0 <= i < |ps| ==> ps[i].1 >= 1) ==>
              forall i :: 0 <= i < |ps| ==> Labelled(ps, name)[i].1 >= 1
  {
  }

  /** The label of a step: `f"Step {s}"`. */
  function StepLabel(c: Cell): string
  {
    "Step " + Text(c)
  }

  /** `get_transactions_by_type()`: (type, count) records from
      `value_counts()`, the most frequent type first. */
  function GetTransactionsByType(t: Frame): (r: seq<(string, nat)>)
    ensures IsEmpty(t) || Type !in t.columns ==> r == []
    ensures forall i, j :: 0 <= i < j < |r| ==> r[i].1 >= r[j].1
    ensures forall i :: 0 <= i < |r| ==> r[i].1 >= 1
    ensures !IsEmpty(t) && Type in t.columns ==>
              var counts := ValueCounts(Column(t.rows, Type));
              && |r| == |counts|
              && forall i :: 0 <= i < |r| ==>
                   r[i].0 == Text(counts[i].0) && r[i].1 == counts[i].1
  {
    if IsEmpty(t) || Type !in t.columns then []
    else
      var counts := ValueCounts(Column(t.rows, Type));
      LabelledOrder(counts, Text);
      Labelled(counts, Text)
  }

  /** The counts per type add up to the number of rows with a type. */
  lemma ByTypeSum(t: Frame)
    requires !IsEmpty(t) && Type in t.columns
    ensures SumCounts(GetTransactionsByType(t)) == |Filter(Column(t.rows, Type), Known)|
  {
    ValueCountsSum(Column(t.rows, Type));
  }

  /** With no type missing, the counts add up to the row count. */
  lemma ByTypeCoversRows(t: Frame)
    requires !IsEmpty(t) && Type in t.columns
    requires forall i :: 0 <= i < |t.rows| ==> Known(Get(t.rows[i], Type))
    ensures SumCounts(GetTransactionsByType(t)) == |t.rows|
  {
    KnownRows(t.rows, Type);
    ByTypeSum(t);
  }

  lemma KnownRows(rows: seq<Row>, k: Key)
    requires forall i :: 0 <= i < |rows| ==> Known(Get(rows[i], k))
    ensures |Filter(Column(rows, k), Known)| == |rows|
  {
    var col := Column(rows, k);
    assert forall c :: c in col ==> Known(c);
    FilterKeepsAll(col, Known);
  }

  /** `get_daily_transaction_volume()`: the ten lowest steps, in ascending
      order, each labelled `Step {s}` with its number of rows. */
  function GetDailyTransactionVolume(t: Frame): (r: seq<(string, nat)>)
    ensures IsEmpty(t) || Step !in t.columns ==> r == []
    ensures |r| <= 10
    ensures !IsEmpty(t) && Step in t.columns ==>
              var groups := GroupSizes(Column(t.rows, Step));
              && |r| == Min(10, |groups|)
              && forall i :: 0 <= i < |r| ==> r[i].0 == StepLabel(groups[i].0) && r[i].1 == groups[i].1
  {
    if IsEmpty(t) || Step !in t.columns then []
    else FirstTenSteps(GroupSizes(Column(t.rows, Step)))
  }

  /** `head(10)` of the step counts, each step labelled. */
  function FirstTenSteps(groups: seq<(Cell, nat)>): (r: seq<(string, nat)>)
    ensures |r| == Min(10, |groups|)
    ensures forall i :: 0 <= i < |r| ==> r[i].0 == StepLabel(groups[i].0) && r[i].1 == groups[i].1
  {
    Labelled(groups[..Min(10, |groups|)], StepLabel)
  }

  /** No step left out of the list sorts before a listed one. */
  lemma DailyVolumeLowest(t: Frame, c: Cell)
    requires !IsEmpty(t) && Step in t.columns
    requires c in Column(t.rows, Step) && Known(c)
    requires var groups := GroupSizes(Column(t.rows, Step));
             forall i :: 0 <= i < Min(10, |groups|) ==> groups[i].0 != c
    ensures var groups := GroupSizes(Column(t.rows, Step));
            forall i :: 0 <= i < Min(10, |groups|) ==> CellLE(groups[i].0, c)
  {
    var groups := GroupSizes(Column(t.rows, Step));
    SortedPrefixLowest(groups, Min(10, |groups|), c);
  }

  lemma SortedPrefixLowest(groups: seq<(Cell, nat)>, n: nat, c: Cell)
    requires n <= |groups|
    requires forall i, j :: 0 <= i < j < |groups| ==> CellLE(groups[i].0, groups[j].0)
    requires exists j :: 0 <= j < |groups| && groups[j].0 == c
    requires forall i :: 0 <= i < n ==> groups[i].0 != c
    ensures forall i :: 0 <= i < n ==> CellLE(groups[i].0, c)
  {
    var j :| 0 <= j < |groups| && groups[j].0 == c;
    assert j >= n;
  }

  /** `a` and `b` are integers and `a` is the smaller. */
  predicate IntBelow(a: Cell, b: Cell)
  {
    a.Int? && b.Int? && a.i < b.i
  }

  /** With whole-number steps the listed steps rise strictly. */
  lemma DailyVolumeAscending(t: Frame)
    requires !IsEmpty(t) && Step in t.columns
    requires forall i :: 0 <= i < |t.rows| ==> Get(t.rows[i], Step).Int?
    ensures var groups := GroupSizes(Column(t.rows, Step));
            forall i, j :: 0 <= i < j < |groups| ==> IntBelow(groups[i].0, groups[j].0)
  {
    var col := Column(t.rows, Step);
    assert forall i :: 0 <= i < |col| ==> col[i].Int?;
    var groups := GroupSizes(col);
    IntKeysAscending(col, groups);
  }

  lemma IntKeysAscending(col: seq<Cell>, ps: seq<(Cell, nat)>)
    requires forall i :: 0 <= i < |col| ==> col[i].Int?
    requires forall i :: 0 <= i < |ps| ==> ps[i].0 in col
    requires forall i, j :: 0 <= i < j < |ps| ==> ps[i].0 != ps[j].0 && CellLE(ps[i].0, ps[j].0)
    ensures forall i, j :: 0 <= i < j < |ps| ==> IntBelow(ps[i].0, ps[j].0)
  {
  }

  // ---------------------------------------------------------------------
  // Amount distribution
  // ---------------------------------------------------------------------

  datatype Distribution = Distribution(bins: seq<string>, counts: seq<nat>)

  /** `get_amount_distribution()`: a fixed answer that does not read the table. */
  function GetAmountDistribution(): (r: Distribution)
    ensures |r.bins| == |r.counts| == 3
    ensures r.bins == ["0-50", "50-100", "100+"] && r.counts == [10, 5, 2]
  {
    Distribution(["0-50", "50-100", "100+"], [10, 5, 2])
  }
}
