/** The backend's `user_subscriptions` rows, shared by the quota ledger and
    the renewal webhook. Timestamps are epoch milliseconds; a nullable column
    is an `Option`. Queries are modelled as filters over the table, and
    `.single()` as "exactly one matching row, else an error". */
module SubscriptionTable {
  import opened Wrappers

  datatype Status = Active | PastDue | Paused | Expired

  datatype Row = Row(
    id: nat,
    userId: string,
    purchaseToken: Option<string>,   // google_play_purchase_token
    planName: Option<string>,        // plan_name, an unchecked string
    monthlyLimit: Option<int>,       // monthly_analyses_limit
    usedThisMonth: Option<int>,      // analyses_used_this_month
    cycleStart: Option<nat>,         // current_billing_cycle_start
    cycleEnd: Option<nat>,           // current_billing_cycle_end
    status: Status,                  // subscription_status
    autoRenew: bool,                 // auto_renewal_enabled
    cancelledAt: Option<nat>,
    endDate: Option<nat>,            // subscription_end_date
    pauseStart: Option<nat>,         // pause_start_date
    updatedAt: Option<nat>)

  type Table = seq<Row>

  /** The rows a query predicate selects, in table order. */
  function Where(t: Table, matches: Row -> bool): (v: Table)
    ensures |v| <= |t|
    ensures forall r :: r in v <==> r in t && matches(r)
  {
    if |t| == 0 then []
    else (if matches(t[0]) then [t[0]] else []) + Where(t[1..], matches)
  }

  /** `.single()`: the one matching row, or nothing when zero or several
      rows match (the client reports an error in both cases). */
  function Single(rows: Table): (r: Option<Row>)
    ensures r.Some? <==> |rows| == 1
    ensures r.Some? ==> r.value == rows[0]
  {
    if |rows| == 1 then Some(rows[0]) else None
  }

  /** `.update(change).eq(...)`: every matching row is changed, every other
      row is left as it was. */
  function UpdateWhere(t: Table, matches: Row -> bool, change: Row -> Row): (u: Table)
    ensures |u| == |t|
    ensures forall i :: 0 <= i < |t| ==> u[i] == (if matches(t[i]) then change(t[i]) else t[i])
  {
    seq(|t|, i requires 0 <= i < |t| => if matches(t[i]) then change(t[i]) else t[i])
  }

  /** An update whose change keeps the query predicate's value commutes with
      that query: the matching rows afterwards are the old matching rows,
      updated where the update's own predicate held. */
  lemma {:induction false} WhereAfterUpdate(t: Table, query: Row -> bool, matches: Row -> bool, change: Row -> Row)
    requires forall r :: query(change(r)) == query(r)
    ensures Where(UpdateWhere(t, matches, change), query) == UpdateWhere(Where(t, query), matches, change)
    decreases |t|
  {
    if |t| > 0 {
      var u := UpdateWhere(t, matches, change);
      assert u == [u[0]] + u[1..];
      assert u[1..] == UpdateWhere(t[1..], matches, change);
      WhereAfterUpdate(t[1..], query, matches, change);
      WhereCons(u[0], u[1..], query);
      WhereCons(t[0], t[1..], query);
      assert t == [t[0]] + t[1..];
      var head := if query(t[0]) then [t[0]] else [];
      assert query(u[0]) == query(t[0]);
      assert UpdateWhere(head, matches, change) == (if query(t[0]) then [u[0]] else []);
      UpdateConcat(head, Where(t[1..], query), matches, change);
    }
  }

  /** One step of the filter. */
  lemma WhereCons(x: Row, rest: Table, matches: Row -> bool)
    ensures Where([x] + rest, matches) == (if matches(x) then [x] else []) + Where(rest, matches)
  {
    assert ([x] + rest)[0] == x;
    assert ([x] + rest)[1..] == rest;
  }

  lemma UpdateConcat(a: Table, b: Table, matches: Row -> bool, change: Row -> Row)
    ensures UpdateWhere(a + b, matches, change) == UpdateWhere(a, matches, change) + UpdateWhere(b, matches, change)
  {
  }

  /** Applying an idempotent change twice is applying it once, provided the
      change keeps the predicate that selects the rows. */
  lemma UpdateTwice(t: Table, matches: Row -> bool, change: Row -> Row)
    requires forall r :: matches(change(r)) == matches(r)
    requires forall r :: change(change(r)) == change(r)
    ensures UpdateWhere(UpdateWhere(t, matches, change), matches, change) == UpdateWhere(t, matches, change)
  {
  }

  /** Two update predicates that agree on every row of the table make the
      same update. */
  lemma UpdateSameRows(t: Table, m1: Row -> bool, m2: Row -> bool, change: Row -> Row)
    requires forall i :: 0 <= i < |t| ==> m1(t[i]) == m2(t[i])
    ensures UpdateWhere(t, m1, change) == UpdateWhere(t, m2, change)
  {
  }

  /** Ids are unique, as the table's primary key guarantees. */
  ghost predicate UniqueIds(t: Table) {
    forall i, j :: 0 <= i < |t| && 0 <= j < |t| && t[i].id == t[j].id ==> i == j
  }
}
