/** The customer rollup: the paginated list of distinct clients, the profile
    of one client, and the clients with the most transactions. Every query
    reads the published table, which is passed in as `t`. */
module Customers {

  import opened Sequences
  import opened Cells
  import opened Paging
  import opened Counting

  /** Nothing to report: the table is empty or has no `client_id` column. */
  predicate NoClients(t: Frame)
  {
    IsEmpty(t) || ClientId !in t.columns
  }

  // ---------------------------------------------------------------------
  // The list of clients
  // ---------------------------------------------------------------------

  /** `max(1, page)`. */
  function ClampPage(page: int): (p: int)
    ensures p >= 1
    ensures page >= 1 ==> p == page
    ensures page < 1 ==> p == 1
  {
    Max(1, page)
  }

  /** `max(1, min(limit, 100))`. */
  function ClampLimit(limit: int): (l: int)
    ensures 1 <= l <= 100
    ensures 1 <= limit <= 100 ==> l == limit
    ensures limit < 1 ==> l == 1
    ensures limit > 100 ==> l == 100
  {
    Max(1, Min(limit, 100))
  }

  /** `df["client_id"].dropna().unique()`: every non-missing client id once. */
  function ClientIds(t: Frame): (ids: seq<Cell>)
    ensures NoDups(ids)
    ensures forall c :: c in ids <==> Known(c) && exists i :: 0 <= i < |t.rows| && Get(t.rows[i], ClientId) == c
  {
    Distinct(Filter(Column(t.rows, ClientId), Known))
  }

  /** The ids come in the order of the rows in which each first appears. */
  lemma ClientIdsFirstSeen(t: Frame)
    ensures forall i, j :: 0 <= i < j < |ClientIds(t)| ==>
      FirstIndex(Column(t.rows, ClientId), ClientIds(t)[i]) < FirstIndex(Column(t.rows, ClientId), ClientIds(t)[j])
  {
    var col := Column(t.rows, ClientId);
    var ids := ClientIds(t);
    DistinctFirstSeen(Filter(col, Known));
    forall i, j | 0 <= i < j < |ids|
      ensures FirstIndex(col, ids[i]) < FirstIndex(col, ids[j])
    {
      FilterFirstSeen(col, Known, ids[i], ids[j]);
    }
  }

  /** `df["client_id"] == cid`, as a row predicate. */
  function HasClient(cid: Cell): Row -> bool
  {
    row => PyEq(Get(row, ClientId), cid)
  }

  /** The name listed for client `cid`: the `nameOrig` of the first row of
      that client when the column exists, `Client_{cid}` otherwise. */
  function ListedName(t: Frame, cid: Cell): (name: string)
    ensures NameOrig !in t.columns ==> name == "Client_" + Text(cid)
    ensures (forall i :: 0 <= i < |t.rows| ==> !PyEq(Get(t.rows[i], ClientId), cid)) ==> name == "Client_" + Text(cid)
    ensures NameOrig in t.columns && (exists i :: 0 <= i < |t.rows| && PyEq(Get(t.rows[i], ClientId), cid)) ==>
              exists k :: 0 <= k < |t.rows| && PyEq(Get(t.rows[k], ClientId), cid)
                && (forall i :: 0 <= i < k ==> !PyEq(Get(t.rows[i], ClientId), cid))
                && name == Text(Get(t.rows[k], NameOrig))
  {
    match FindFirst(t.rows, HasClient(cid))
    case Some(k) => if NameOrig in t.columns then Text(Get(t.rows[k], NameOrig)) else "Client_" + Text(cid)
    case None => "Client_" + Text(cid)
  }

  /** Every listed id has a row, so with a `nameOrig` column the name always
      comes from the table. */
  lemma ListedClientHasRow(t: Frame, cid: Cell)
    requires cid in ClientIds(t)
    ensures exists i :: 0 <= i < |t.rows| && PyEq(Get(t.rows[i], ClientId), cid)
  {
    var i :| 0 <= i < |t.rows| && Get(t.rows[i], ClientId) == cid;
    PyEqReflexive(cid);
  }

  /** One entry of the list. */
  datatype CustomerEntry = CustomerEntry(id: int, name: string)

  /** The answer of `get_all_customers`. */
  datatype CustomerPage = CustomerPage(page: int, totalItems: nat, customers: seq<CustomerEntry>)

  /** The entry for client `cid`: `int(cid)`, which fails on an id that is not
      an integer, and the listed name. */
  function Entry(t: Frame, cid: Cell): (r: Outcome<CustomerEntry>)
    ensures r.Ok? <==> IntOf(cid).Ok?
    ensures r.Ok? ==> r.value.id == IntOf(cid).value && r.value.name == ListedName(t, cid)
    ensures r.Raised? ==> r.fault == IntOf(cid).fault
  {
    match IntOf(cid)
    case Ok(n) => Ok(CustomerEntry(n, ListedName(t, cid)))
    case Raised(f) => Raised(f)
  }

  /** The loop of `get_all_customers`: the entry `entry` makes for each id,
      in order. The first id whose entry fails (`int` rejects it) aborts the
      listing. */
  method EntriesOf(ids: seq<Cell>, entry: Cell -> Outcome<CustomerEntry>) returns (r: Outcome<seq<CustomerEntry>>)
    ensures r.Ok? <==> forall i :: 0 <= i < |ids| ==> entry(ids[i]).Ok?
    ensures r.Ok? ==> |r.value| == |ids| && forall i :: 0 <= i < |ids| ==> entry(ids[i]) == Ok(r.value[i])
    ensures r.Raised? ==>
              exists j :: 0 <= j < |ids| && entry(ids[j]) == Raised(r.fault)
                && forall i :: 0 <= i < j ==> entry(ids[i]).Ok?
  {
    var customers: seq<CustomerEntry> := [];
    var i := 0;
    while i < |ids|
      invariant 0 <= i <= |ids|
      invariant |customers| == i
      invariant forall j :: 0 <= j < i ==> entry(ids[j]) == Ok(customers[j])
    {
      var e := entry(ids[i]);
      if e.Raised? {
        return Raised(e.fault);
      }
      customers := customers + [e.value];
      i := i + 1;
    }
    r := Ok(customers);
  }

  /** `get_all_customers(page, limit)`: page and limit are clamped, the
      distinct ids are paged, and each id on the page gets an entry. */
  method GetAllCustomers(t: Frame, page: int, limit: int) returns (r: Outcome<CustomerPage>)
    ensures NoClients(t) ==> r == Ok(CustomerPage(ClampPage(page), 0, []))
    ensures r.Ok? ==> r.value.page == ClampPage(page) && |r.value.customers| <= ClampLimit(limit)
    ensures !NoClients(t) ==>
              var ids := PageSlice(ClientIds(t), ClampPage(page), ClampLimit(limit));
              r.Ok? <==> forall i :: 0 <= i < |ids| ==> Entry(t, ids[i]).Ok?
    ensures !NoClients(t) && r.Ok? ==>
              var ids := PageSlice(ClientIds(t), ClampPage(page), ClampLimit(limit));
              && r.value.totalItems == |ClientIds(t)|
              && |r.value.customers| == |ids|
              && forall i :: 0 <= i < |ids| ==> Entry(t, ids[i]) == Ok(r.value.customers[i])
    ensures !NoClients(t) && r.Raised? ==>
              var ids := PageSlice(ClientIds(t), ClampPage(page), ClampLimit(limit));
              exists j :: 0 <= j < |ids| && Entry(t, ids[j]) == Raised(r.fault)
                && forall i :: 0 <= i < j ==> Entry(t, ids[i]).Ok?
  {
    var p := ClampPage(page);
    var l := ClampLimit(limit);
    if IsEmpty(t) || ClientId !in t.columns {
      return Ok(CustomerPage(p, 0, []));
    }
    var unique := ClientIds(t);
    var ids := PageSlice(unique, p, l);
    var entries := EntriesOf(ids, cid => Entry(t, cid));
    if entries.Raised? {
      return Raised(entries.fault);
    }
    r := Ok(CustomerPage(p, |unique|, entries.value));
  }

  // ---------------------------------------------------------------------
  // The profile of one client
  // ---------------------------------------------------------------------

  /** `df["client_id"].astype(str) == str(customer_id)`: ids are matched by
      their text, so a float id `5.0` does not match customer 5. */
  function IdTextIs(customerId: int): Row -> bool
  {
    row => Text(Get(row, ClientId)) == IntText(customerId)
  }

  /** The amounts pandas adds up for `rows`. A number is kept. A missing
      amount (`NaN` or `None`) is skipped: comparing it with 0 gives False
      and `sum` leaves it out. Comparing a text amount with 0 raises
      `TypeError`. */
  function Amounts(rows: seq<Row>): (r: Outcome<seq<real>>)
    ensures r.Ok? <==> forall i :: 0 <= i < |rows| ==> !Get(rows[i], Amount).Str?
    ensures r.Raised? ==> r.fault == TypeError
    ensures r.Ok? ==> r.value == NumbersIn(Column(rows, Amount))
  {
    if rows == [] then Ok([])
    else
      var c := Get(rows[|rows| - 1], Amount);
      assert Column(rows[..|rows| - 1], Amount) == Column(rows, Amount)[..|rows| - 1];
      match Amounts(rows[..|rows| - 1])
      case Raised(f) => Raised(f)
      case Ok(xs) =>
        if IsNumber(c) then Ok(xs + [Value(c)])
        else if c.Str? then Raised(TypeError)
        else Ok(xs)
  }

  function IsNegative(x: real): bool { x < 0.0 }

  function IsPositive(x: real): bool { x > 0.0 }

  /** The sum of the negative amounts (`amount < 0`). */
  function Spent(xs: seq<real>): (s: real)
    ensures s <= 0.0
  {
    SumNonPositive(Filter(xs, IsNegative));
    Sum(Filter(xs, IsNegative))
  }

  /** The sum of the positive amounts (`amount > 0`). */
  function Received(xs: seq<real>): (s: real)
    ensures s >= 0.0
  {
    SumNonNegative(Filter(xs, IsPositive));
    Sum(Filter(xs, IsPositive))
  }

  lemma {:induction false} SumNonPositive(xs: seq<real>)
    requires forall x :: x in xs ==> IsNegative(x)
    ensures Sum(xs) <= 0.0
  {
    if xs != [] {
      assert xs[|xs| - 1] in xs;
      SumNonPositive(xs[..|xs| - 1]);
    }
  }

  lemma {:induction false} SumNonNegative(xs: seq<real>)
    requires forall x :: x in xs ==> IsPositive(x)
    ensures Sum(xs) >= 0.0
  {
    if xs != [] {
      assert xs[|xs| - 1] in xs;
      SumNonNegative(xs[..|xs| - 1]);
    }
  }

  /** Before rounding, the balance is what was received minus what was spent:
      every amount is negative, positive or zero. */
  lemma {:induction false} BalanceSplits(xs: seq<real>)
    ensures Sum(xs) == Received(xs) - Abs(Spent(xs))
  {
    if xs != [] {
      var p, x := xs[..|xs| - 1], xs[|xs| - 1];
      assert xs == p + [x];
      BalanceSplits(p);
      FilterAppend(p, [x], IsNegative);
      FilterAppend(p, [x], IsPositive);
      SumAppend(Filter(p, IsNegative), Filter([x], IsNegative));
      SumAppend(Filter(p, IsPositive), Filter([x], IsPositive));
      assert Sum([x]) == Sum([x][..0]) + x;
    }
  }

  /** The statistics of a profile. */
  datatype Profile = Profile(id: int, name: Cell, transactionCount: nat,
                             totalSpent: real, totalReceived: real, currentBalance: real)

  /** `get_customer_profile(customer_id)`: `None` when no row's id reads as
      `str(customer_id)`; otherwise the first row's name and the rounded sums
      of the client's amounts split on sign. */
  function GetCustomerProfile(t: Frame, customerId: int): (r: Outcome<Option<Profile>>)
    ensures r == Ok(None) <==>
              NoClients(t) || forall i :: 0 <= i < |t.rows| ==> Text(Get(t.rows[i], ClientId)) != IntText(customerId)
    ensures r.Raised? ==> r.fault == (if Amount in t.columns then TypeError else KeyError(Amount))
    ensures !NoClients(t) && Filter(t.rows, IdTextIs(customerId)) != [] ==>
              (r.Raised? <==> Amount !in t.columns || Amounts(Filter(t.rows, IdTextIs(customerId))).Raised?)
    ensures r.Ok? && r.value.Some? ==>
              var rows := Filter(t.rows, IdTextIs(customerId));
              var p := r.value.value;
              && Amounts(rows).Ok?
              && p.id == customerId
              && p.transactionCount == |rows| >= 1
              && p.name == (if NameOrig in t.columns then Get(rows[0], NameOrig) else Str("Client_" + IntText(customerId)))
              && p.totalSpent >= 0.0 && p.totalReceived >= 0.0
              && -0.005 <= p.totalSpent - Abs(Spent(Amounts(rows).value)) <= 0.005
              && -0.005 <= p.totalReceived - Received(Amounts(rows).value) <= 0.005
              && -0.005 <= p.currentBalance - Sum(Amounts(rows).value) <= 0.005
  {
    if NoClients(t) then Ok(None)
    else
      var rows := Filter(t.rows, IdTextIs(customerId));
      if rows == [] then
        assert forall i :: 0 <= i < |t.rows| ==> t.rows[i] in t.rows;
        Ok(None)
      else if Amount !in t.columns then
        assert rows[0] in t.rows;
        Raised(KeyError(Amount))
      else
        assert rows[0] in t.rows;
        var name := if NameOrig in t.columns then Get(rows[0], NameOrig) else Str("Client_" + IntText(customerId));
        var amounts := Amounts(rows);
        if amounts.Raised? then Raised(amounts.fault)
        else Ok(Some(ProfileOf(customerId, name, |rows|, amounts.value)))
  }

  /** The profile of client `customerId`, named `name`, with `count` rows
      whose amounts are `xs`: the sums split on sign, each rounded to cents. */
  function ProfileOf(customerId: int, name: Cell, count: nat, xs: seq<real>): (p: Profile)
    ensures p.id == customerId && p.name == name && p.transactionCount == count
    ensures p.totalSpent >= 0.0 && p.totalReceived >= 0.0
    ensures -0.005 <= p.totalSpent - Abs(Spent(xs)) <= 0.005
    ensures -0.005 <= p.totalReceived - Received(xs) <= 0.005
    ensures -0.005 <= p.currentBalance - Sum(xs) <= 0.005
  {
    Profile(customerId, name, count, Abs(Round2(Spent(xs))), Round2(Received(xs)), Round2(Sum(xs)))
  }

  /** The rounded figures of a profile still balance to within a cent and a half. */
  lemma ProfileBalances(t: Frame, customerId: int)
    requires GetCustomerProfile(t, customerId).Ok? && GetCustomerProfile(t, customerId).value.Some?
    ensures var p := GetCustomerProfile(t, customerId).value.value;
            -0.015 <= p.currentBalance - (p.totalReceived - p.totalSpent) <= 0.015
  {
    BalanceSplits(Amounts(Filter(t.rows, IdTextIs(customerId))).value);
  }

  // ---------------------------------------------------------------------
  // The most active clients
  // ---------------------------------------------------------------------

  /** `df["client_id"].value_counts()`: every non-missing id with its number
      of rows, most frequent first. */
  function ClientCounts(t: Frame): (ps: seq<(Cell, nat)>)
    ensures |ps| == |ClientIds(t)|
    ensures forall i :: 0 <= i < |ps| ==>
              ps[i].0 in ClientIds(t) && ps[i].1 >= 1 && ps[i].1 == multiset(Column(t.rows, ClientId))[ps[i].0]
    ensures forall i, j :: 0 <= i < j < |ps| ==> ps[i].0 != ps[j].0
    ensures forall c :: c in ClientIds(t) ==> exists i :: 0 <= i < |ps| && ps[i].0 == c
    ensures forall i, j :: 0 <= i < j < |ps| ==> ps[i].1 >= ps[j].1
  {
    ValueCounts(Column(t.rows, ClientId))
  }

  /** The counts add up to the number of rows with a client id. */
  lemma ClientCountsSum(t: Frame)
    ensures SumCounts(ClientCounts(t)) == |Filter(Column(t.rows, ClientId), Known)|
  {
    ValueCountsSum(Column(t.rows, ClientId));
  }

  /** One entry of the ranking. */
  datatype TopCustomer = TopCustomer(id: int, transactionCount: nat)

  /** `results` lists the pairs of `top` with each id converted by `int`. */
  predicate Converted(results: seq<TopCustomer>, top: seq<(Cell, nat)>)
  {
    && |results| == |top|
    && forall j :: 0 <= j < |top| ==> IntOf(top[j].0) == Ok(results[j].id) && results[j].transactionCount == top[j].1
  }

  /** Converting the head of a ranking keeps its counts and their order. */
  lemma ConvertedRanking(ps: seq<(Cell, nat)>, n: nat, results: seq<TopCustomer>)
    requires Converted(results, Head(ps, n))
    ensures |results| == Min(n, |ps|)
    ensures forall i :: 0 <= i < |results| ==>
              IntOf(ps[i].0) == Ok(results[i].id) && results[i].transactionCount == ps[i].1
    ensures (forall i :: 0 <= i < |ps| ==> ps[i].1 >= 1) ==>
              forall i :: 0 <= i < |results| ==> results[i].transactionCount >= 1
    ensures (forall i, j :: 0 <= i < j < |ps| ==> ps[i].1 >= ps[j].1) ==>
              forall i, j :: 0 <= i < j < |results| ==> results[i].transactionCount >= results[j].transactionCount
  {
    var top := Head(ps, n);
    assert forall i :: 0 <= i < |top| ==> top[i] == ps[i];
  }

  /** The loop of `get_top_customers`: converts each id of `top` with `int`,
      in order, stopping at the first one `int` rejects. */
  method ConvertRanking(top: seq<(Cell, nat)>) returns (r: Outcome<seq<TopCustomer>>)
    ensures r.Ok? <==> forall j :: 0 <= j < |top| ==> IntOf(top[j].0).Ok?
    ensures r.Ok? ==> Converted(r.value, top)
    ensures r.Raised? ==>
              exists j :: 0 <= j < |top| && IntOf(top[j].0).Raised? && r.fault == IntOf(top[j].0).fault
                && forall i :: 0 <= i < j ==> IntOf(top[i].0).Ok?
  {
    var results: seq<TopCustomer> := [];
    for i := 0 to |top|
      invariant |results| == i
      invariant forall j :: 0 <= j < i ==> IntOf(top[j].0) == Ok(results[j].id) && results[j].transactionCount == top[j].1
    {
      var (cid, count) := top[i];
      var id := IntOf(cid);
      if id.Raised? {
        return Raised(id.fault);
      }
      results := results + [TopCustomer(id.value, count)];
    }
    r := Ok(results);
  }

  /** `get_top_customers(n)`: the first `n` ids of `value_counts()`, each
      with its count; the first id that `int` rejects aborts the ranking.
      `n` is bounded as the HTTP layer bounds it. */
  method GetTopCustomers(t: Frame, n: int) returns (r: Outcome<seq<TopCustomer>>)
    requires 1 <= n <= 100
    ensures NoClients(t) ==> r == Ok([])
    ensures r.Ok? ==> |r.value| <= n
    ensures r.Ok? ==> forall i :: 0 <= i < |r.value| ==> r.value[i].transactionCount >= 1
    ensures r.Ok? ==> forall i, j :: 0 <= i < j < |r.value| ==> r.value[i].transactionCount >= r.value[j].transactionCount
    ensures !NoClients(t) && r.Ok? ==> Converted(r.value, Head(ClientCounts(t), n))
    ensures !NoClients(t) && r.Raised? ==>
              var top := Head(ClientCounts(t), n);
              exists j :: 0 <= j < |top| && IntOf(top[j].0).Raised? && r.fault == IntOf(top[j].0).fault
                && forall i :: 0 <= i < j ==> IntOf(top[i].0).Ok?
  {
    if IsEmpty(t) || ClientId !in t.columns {
      return Ok([]);
    }
    var counts := ClientCounts(t);
    r := ConvertRanking(Head(counts, n));
    if r.Ok? {
      ConvertedRanking(counts, n, r.value);
    }
  }
}
