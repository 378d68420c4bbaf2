/** The transaction service's queries: a page of filtered rows, lookup by
    id, the distinct types, the most recent rows, and the rows of one
    customer or one merchant. Each returns normalised rows (module
    `Normaliser`). Every query reads the published table, which is passed
    in as `t`. */
module Transactions {

  import opened Sequences
  import opened Cells
  import opened Normaliser
  import opened Paging

  // ---------------------------------------------------------------------
  // Queries
  // ---------------------------------------------------------------------

  /** `get_all_transactions(limit)`: the first `limit` rows (pandas `head`;
      a negative `limit` drops the last `-limit` rows), normalised; nothing
      on an empty table. */
  function GetAllTransactions(t: Frame, limit: int): (r: Outcome<seq<Row>>)
    ensures IsEmpty(t) ==> r == Ok([])
    ensures r.Ok? ==> |r.value| <= |t.rows|
    ensures !IsEmpty(t) && limit >= 0 && r.Ok? ==> |r.value| == Min(limit, |t.rows|)
    ensures !IsEmpty(t) && limit < 0 && r.Ok? ==> |r.value| == Max(0, |t.rows| + limit)
    ensures !IsEmpty(t) && r.Ok? ==> forall i :: 0 <= i < |r.value| ==> Ok(r.value[i]) == Normalise(t.rows[i])
    ensures !IsEmpty(t) ==> (r.Ok? <==> AllFormattable(Head(t.rows, limit)))
    ensures r.Raised? ==> RaisesFirst(Head(t.rows, limit), r.fault)
  {
    if IsEmpty(t) then Ok([]) else NormaliseAll(Head(t.rows, limit))
  }

  predicate IdIs(row: Row, searchId: int)
  {
    EqualsInt(Get(row, Id), searchId)
  }

  /** `get_transaction_by_id`: the first row whose `id` equals `searchId`,
      normalised; `None` when the table is empty, has no `id` column or has
      no such row. */
  function GetTransactionById(t: Frame, searchId: int): (r: Outcome<Option<Row>>)
    ensures r == Ok(None) <==>
              IsEmpty(t) || Id !in t.columns || forall i :: 0 <= i < |t.rows| ==> !IdIs(t.rows[i], searchId)
    ensures r != Ok(None) ==>
              exists k :: 0 <= k < |t.rows| && IdIs(t.rows[k], searchId)
                          && (forall j :: 0 <= j < k ==> !IdIs(t.rows[j], searchId))
                          && match Normalise(t.rows[k])
                             case Ok(x) => r == Ok(Some(x))
                             case Raised(f) => r == Raised(f)
  {
    if IsEmpty(t) || Id !in t.columns then Ok(None)
    else
      match FindFirst(t.rows, (row: Row) => IdIs(row, searchId))
      case None => Ok(None)
      case Some(k) =>
        match Normalise(t.rows[k])
        case Ok(x) => Ok(Some(x))
        case Raised(f) => Raised(f)
  }

  /** The type filter is on when a non-empty type is given (`if type:`). */
  predicate TypeFilterOn(kind: Option<string>)
  {
    kind.Some? && kind.value != ""
  }

  predicate TypeMatches(row: Row, kind: Option<string>)
  {
    !TypeFilterOn(kind) || Get(row, UseChip) == Str(kind.value)
  }

  /** `|amount| >= bound` (`isMin`) or `|amount| <= bound`; a `NaN` amount
      compares false and an absent bound keeps every row. */
  predicate WithinBound(row: Row, bound: Option<real>, isMin: bool)
  {
    bound.None? ||
    (IsNumber(Get(row, Amount)) &&
     var a := Abs(Value(Get(row, Amount)));
     if isMin then a >= bound.value else a <= bound.value)
  }

  /** A row survives all the filters of `get_transactions`. */
  predicate Selected(row: Row, kind: Option<string>, minAmount: Option<real>, maxAmount: Option<real>)
  {
    TypeMatches(row, kind) && WithinBound(row, minAmount, true) && WithinBound(row, maxAmount, false)
  }

  // The filters as function values, for `Filter`.

  function TypeIs(kind: Option<string>): Row -> bool
  {
    (row: Row) => TypeMatches(row, kind)
  }

  function Within(bound: Option<real>, isMin: bool): Row -> bool
  {
    (row: Row) => WithinBound(row, bound, isMin)
  }

  function SelectedBy(kind: Option<string>, minAmount: Option<real>, maxAmount: Option<real>): Row -> bool
  {
    (row: Row) => Selected(row, kind, minAmount, maxAmount)
  }

  /** `abs()` raises `TypeError` on the row's amount: it is text or `None`. */
  predicate AbsRaises(row: Row)
  {
    Get(row, Amount).Str? || Get(row, Amount).Null?
  }

  /** One amount filter: `filtered[filtered[Amount].abs() >= bound]` (or
      `<=`). It raises `KeyError` without an `amount` column and `TypeError`
      when an amount is text or `None`. */
  function AmountFilter(t: Frame, rows: seq<Row>, bound: Option<real>, isMin: bool): (r: Outcome<seq<Row>>)
    ensures bound.None? ==> r == Ok(rows)
    ensures r.Ok? ==> r.value == Filter(rows, Within(bound, isMin))
    ensures r.Raised? <==> bound.Some? && (Amount !in t.columns || exists row :: row in rows && AbsRaises(row))
  {
    if bound.None? then
      FilterAll(rows, Within(bound, isMin));
      Ok(rows)
    else if Amount !in t.columns then Raised(KeyError(Amount))
    else if exists row :: row in rows && AbsRaises(row) then Raised(TypeError)
    else Ok(Filter(rows, Within(bound, isMin)))
  }

  /** A filter that keeps everything is the identity. */
  lemma {:induction false} FilterAll<T(!new)>(s: seq<T>, p: T -> bool)
    requires forall x :: p(x)
    ensures Filter(s, p) == s
  {
    if s != [] {
      FilterAll(s[1..], p);
    }
  }

  /** Filtering by `p` and then by `q` keeps what a filter by both keeps, in
      the same order. */
  lemma {:induction false} FilterFilter<T(!new)>(s: seq<T>, p: T -> bool, q: T -> bool, pq: T -> bool)
    requires forall x :: pq(x) == (p(x) && q(x))
    ensures Filter(Filter(s, p), q) == Filter(s, pq)
  {
    if s != [] {
      FilterFilter(s[1..], p, q, pq);
      var rest := Filter(s[1..], p);
      if p(s[0]) {
        assert Filter(s, p) == [s[0]] + rest;
        assert ([s[0]] + rest)[0] == s[0];
        assert ([s[0]] + rest)[1..] == rest;
        assert Filter([s[0]] + rest, q) == (if q(s[0]) then [s[0]] else []) + Filter(rest, q);
      } else {
        assert Filter(s, p) == rest;
        assert !pq(s[0]);
      }
    }
  }

  /** The rows left by the type filter (all rows when it is off). */
  function ByType(t: Frame, kind: Option<string>): (r: seq<Row>)
    ensures r == Filter(t.rows, TypeIs(kind))
  {
    if TypeFilterOn(kind) then Filter(t.rows, TypeIs(kind))
    else
      FilterAll(t.rows, TypeIs(kind));
      t.rows
  }

  /** The filtering of `get_transactions`: by `use_chip`, then by the minimum
      and maximum absolute amount. */
  function ApplyFilters(t: Frame, kind: Option<string>, minAmount: Option<real>, maxAmount: Option<real>): (r: Outcome<seq<Row>>)
    ensures TypeFilterOn(kind) && UseChip !in t.columns ==> r == Raised(KeyError(UseChip))
  {
    if TypeFilterOn(kind) && UseChip !in t.columns then Raised(KeyError(UseChip))
    else
      match AmountFilter(t, ByType(t, kind), minAmount, true)
      case Raised(f) => Raised(f)
      case Ok(aboveMin) => AmountFilter(t, aboveMin, maxAmount, false)
  }

  /** The filters keep exactly the selected rows, in table order. */
  lemma ApplyFiltersSelects(t: Frame, kind: Option<string>, minAmount: Option<real>, maxAmount: Option<real>)
    requires ApplyFilters(t, kind, minAmount, maxAmount).Ok?
    ensures ApplyFilters(t, kind, minAmount, maxAmount).value == Filter(t.rows, SelectedBy(kind, minAmount, maxAmount))
  {
    var tm, lo, hi := TypeIs(kind), Within(minAmount, true), Within(maxAmount, false);
    var tl := (row: Row) => tm(row) && lo(row);
    FilterFilter(t.rows, tm, lo, tl);
    FilterFilter(t.rows, tl, hi, SelectedBy(kind, minAmount, maxAmount));
  }

  /** An amount `abs()` rejects that survives the type filter makes an amount
      filter raise; the first amount filter leaves no such amount behind. */
  lemma RejectedAmountsAfterType(t: Frame, kind: Option<string>, minAmount: Option<real>)
    ensures (exists row :: row in ByType(t, kind) && AbsRaises(row))
            <==> (exists row :: row in t.rows && TypeMatches(row, kind) && AbsRaises(row))
    ensures minAmount.Some? ==>
              !exists row :: row in Filter(ByType(t, kind), Within(minAmount, true)) && AbsRaises(row)
  {
  }

  /** The filters raise `KeyError` for a missing column and `TypeError` for a
      text or `None` amount among the rows of the right type, and only then. */
  lemma ApplyFiltersRaises(t: Frame, kind: Option<string>, minAmount: Option<real>, maxAmount: Option<real>)
    ensures ApplyFilters(t, kind, minAmount, maxAmount).Raised? <==>
              (TypeFilterOn(kind) && UseChip !in t.columns)
              || ((minAmount.Some? || maxAmount.Some?)
                  && (Amount !in t.columns
                      || exists row :: row in t.rows && TypeMatches(row, kind) && AbsRaises(row)))
  {
    RejectedAmountsAfterType(t, kind, minAmount);
  }

  /** The answer of `get_transactions`. */
  datatype TransactionPage = TransactionPage(page: int, totalPages: nat, totalItems: nat, transactions: seq<Row>)

  /** `p` is page `page` of the filtered rows `s`: their count, the number
      of pages, and the rows of that page normalised in order. */
  predicate PageOf(p: TransactionPage, s: seq<Row>, page: nat, limit: nat)
    requires page >= 1 && limit >= 1
  {
    && p.page == page
    && p.totalItems == |s|
    && p.totalPages == CeilDiv(|s|, limit)
    && |p.transactions| == |PageSlice(s, page, limit)|
    && forall i :: 0 <= i < |p.transactions| ==> Ok(p.transactions[i]) == Normalise(PageSlice(s, page, limit)[i])
  }

  /** `get_transactions(page, limit, type, min_amount, max_amount)`. The page
      and limit bounds are those the HTTP layer enforces. */
  function GetTransactions(t: Frame, page: int, limit: int, kind: Option<string>,
                           minAmount: Option<real>, maxAmount: Option<real>): (r: Outcome<TransactionPage>)
    requires page >= 1 && 1 <= limit <= 100
    ensures IsEmpty(t) ==> r == Ok(TransactionPage(page, 0, 0, []))
    ensures !IsEmpty(t) && ApplyFilters(t, kind, minAmount, maxAmount).Raised? ==>
              r == Raised(ApplyFilters(t, kind, minAmount, maxAmount).fault)
    ensures !IsEmpty(t) && r.Ok? ==>
              ApplyFilters(t, kind, minAmount, maxAmount).Ok?
              && PageOf(r.value, ApplyFilters(t, kind, minAmount, maxAmount).value, page, limit)
    ensures !IsEmpty(t) && ApplyFilters(t, kind, minAmount, maxAmount).Ok? ==>
              var s := ApplyFilters(t, kind, minAmount, maxAmount).value;
              && (r.Ok? <==> AllFormattable(PageSlice(s, page, limit)))
              && (r.Raised? ==> RaisesFirst(PageSlice(s, page, limit), r.fault))
  {
    if IsEmpty(t) then Ok(TransactionPage(page, 0, 0, []))
    else
      match ApplyFilters(t, kind, minAmount, maxAmount)
      case Raised(f) => Raised(f)
      case Ok(s) =>
        match NormaliseAll(PageSlice(s, page, limit))
        case Raised(f) => Raised(f)
        case Ok(items) => Ok(TransactionPage(page, CeilDiv(|s|, limit), |s|, items))
  }

  /** `get_transaction_types`: the distinct non-missing `use_chip` values in
      first-seen order. */
  function GetTransactionTypes(t: Frame): (r: seq<Cell>)
    ensures NoDups(r)
    ensures IsEmpty(t) || UseChip !in t.columns ==> r == []
    ensures !IsEmpty(t) && UseChip in t.columns ==>
              forall c :: c in r <==> Known(c) && exists i :: 0 <= i < |t.rows| && Get(t.rows[i], UseChip) == c
  {
    if IsEmpty(t) || UseChip !in t.columns then []
    else
      var col := Column(t.rows, UseChip);
      var r := Distinct(Filter(col, Known));
      assert forall c :: c in col <==> exists i :: 0 <= i < |t.rows| && Get(t.rows[i], UseChip) == c by {
        forall c | c in col ensures exists i :: 0 <= i < |t.rows| && Get(t.rows[i], UseChip) == c {
          var i :| 0 <= i < |col| && col[i] == c;
        }
      }
      r
  }

  /** The types come in the order of the rows in which each first appears. */
  lemma TransactionTypesFirstSeen(t: Frame)
    ensures forall i, j :: 0 <= i < j < |GetTransactionTypes(t)| ==>
      FirstIndex(Column(t.rows, UseChip), GetTransactionTypes(t)[i])
        < FirstIndex(Column(t.rows, UseChip), GetTransactionTypes(t)[j])
  {
    var col := Column(t.rows, UseChip);
    var types := GetTransactionTypes(t);
    if !IsEmpty(t) && UseChip in t.columns {
      DistinctFirstSeen(Filter(col, Known));
      forall i, j | 0 <= i < j < |types|
        ensures FirstIndex(col, types[i]) < FirstIndex(col, types[j])
      {
        FilterFirstSeen(col, Known, types[i], types[j]);
      }
    }
  }

  /** `get_recent_transactions(n)`: the last `n` rows, newest first. */
  function GetRecentTransactions(t: Frame, n: int): (r: Outcome<seq<Row>>)
    requires 1 <= n <= 100
    ensures IsEmpty(t) ==> r == Ok([])
    ensures !IsEmpty(t) && r.Ok? ==>
              |r.value| == Min(n, |t.rows|)
              && forall i :: 0 <= i < |r.value| ==> Ok(r.value[i]) == Normalise(t.rows[|t.rows| - 1 - i])
    ensures !IsEmpty(t) ==> (r.Ok? <==> AllFormattable(Reverse(Tail(t.rows, n))))
    ensures r.Raised? ==> RaisesFirst(Reverse(Tail(t.rows, n)), r.fault)
  {
    if IsEmpty(t) then Ok([]) else NormaliseAll(Reverse(Tail(t.rows, n)))
  }

  function HasValue(key: Key, id: int): Row -> bool
  {
    (row: Row) => EqualsInt(Get(row, key), id)
  }

  /** The rows whose column `key` equals `id` (`df[df[key] == id]`). */
  function RowsWith(rows: seq<Row>, key: Key, id: int): (r: seq<Row>)
    ensures forall row :: row in r <==> row in rows && EqualsInt(Get(row, key), id)
  {
    Filter(rows, HasValue(key, id))
  }

  /** The first 50 rows whose `key` column equals `id`, normalised; a table
      without that column raises `KeyError`. */
  function FirstFiftyWith(t: Frame, key: Key, id: int): (r: Outcome<seq<Row>>)
    ensures key !in t.columns ==> r == Raised(KeyError(key))
    ensures r.Ok? ==> |r.value| == Min(50, |RowsWith(t.rows, key, id)|)
    ensures r.Ok? ==> forall i :: 0 <= i < |r.value| ==>
              EqualsInt(Get(RowsWith(t.rows, key, id)[i], key), id) &&
              Ok(r.value[i]) == Normalise(RowsWith(t.rows, key, id)[i])
    ensures key in t.columns ==> (r.Ok? <==> AllFormattable(Head(RowsWith(t.rows, key, id), 50)))
    ensures key in t.columns && r.Raised? ==> RaisesFirst(Head(RowsWith(t.rows, key, id), 50), r.fault)
  {
    if key !in t.columns then Raised(KeyError(key))
    else
      var m := RowsWith(t.rows, key, id);
      assert forall i :: 0 <= i < |m| ==> m[i] in m;
      NormaliseAll(Head(m, 50))
  }

  /** `get_transactions_by_customer`. */
  function GetTransactionsByCustomer(t: Frame, customerId: int): (r: Outcome<seq<Row>>)
    ensures ClientId !in t.columns ==> r == Raised(KeyError(ClientId))
    ensures r.Ok? ==> |r.value| <= 50 && |r.value| == Min(50, |RowsWith(t.rows, ClientId, customerId)|)
    ensures r.Ok? ==> forall i :: 0 <= i < |r.value| ==>
              EqualsInt(Get(RowsWith(t.rows, ClientId, customerId)[i], ClientId), customerId) &&
              Ok(r.value[i]) == Normalise(RowsWith(t.rows, ClientId, customerId)[i])
    ensures ClientId in t.columns ==> (r.Ok? <==> AllFormattable(Head(RowsWith(t.rows, ClientId, customerId), 50)))
    ensures ClientId in t.columns && r.Raised? ==> RaisesFirst(Head(RowsWith(t.rows, ClientId, customerId), 50), r.fault)
  {
    FirstFiftyWith(t, ClientId, customerId)
  }

  /** `get_transactions_to_merchant`. */
  function GetTransactionsToMerchant(t: Frame, merchantId: int): (r: Outcome<seq<Row>>)
    ensures MerchantId !in t.columns ==> r == Raised(KeyError(MerchantId))
    ensures r.Ok? ==> |r.value| <= 50 && |r.value| == Min(50, |RowsWith(t.rows, MerchantId, merchantId)|)
    ensures r.Ok? ==> forall i :: 0 <= i < |r.value| ==>
              EqualsInt(Get(RowsWith(t.rows, MerchantId, merchantId)[i], MerchantId), merchantId) &&
              Ok(r.value[i]) == Normalise(RowsWith(t.rows, MerchantId, merchantId)[i])
    ensures MerchantId in t.columns ==> (r.Ok? <==> AllFormattable(Head(RowsWith(t.rows, MerchantId, merchantId), 50)))
    ensures MerchantId in t.columns && r.Raised? ==> RaisesFirst(Head(RowsWith(t.rows, MerchantId, merchantId), 50), r.fault)
  {
    FirstFiftyWith(t, MerchantId, merchantId)
  }

  /** The matches a query keeps come in table order: rows ahead of a split
      point are listed before rows after it. */
  lemma RowsWithKeepsOrder(a: seq<Row>, b: seq<Row>, key: Key, id: int)
    ensures RowsWith(a + b, key, id) == RowsWith(a, key, id) + RowsWith(b, key, id)
  {
    FilterAppend(a, b, HasValue(key, id));
  }
}
