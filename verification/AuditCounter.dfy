/**
 The inventory audit row and its guard, which remembers only the order counted last.

 The exact law: the row holds the sum over all attempts with adjacent repeats of an order collapsed.
 That is never less than the sum over distinct orders, and equal to it exactly when each order's
 attempts are contiguous.
 */
module AuditCounter {
  import opened Domain
  import opened Totals

  /** confirmed_orders and last_order_id; an absent row is the empty one. */
  datatype Row = Row(confirmed: int, last: Option<OrderId>)

  const NoRow := Row(0, None)

  /** UpdateItem under "attribute_not_exists(last_order_id) OR last_order_id <> :last_order_id". */
  function Bump(row: Row, o: Order): Row {
    if row.last == Some(o.id) then row else Row(row.confirmed + o.quantity, Some(o.id))
  }

  function Replay(tries: seq<Order>): Row {
    if tries == [] then NoRow else Bump(Replay(tries[..|tries| - 1]), tries[|tries| - 1])
  }

  lemma ReplaySnoc(tries: seq<Order>, o: Order)
    ensures Replay(tries + [o]) == Bump(Replay(tries), o)
  {
    assert (tries + [o])[..|tries|] == tries;
  }

  /** The attempts that follow an attempt of the same order at once are dropped. */
  function Collapse(tries: seq<Order>): seq<Order> {
    if tries == [] then [] else
    var n := |tries| - 1;
    if n > 0 && tries[n - 1].id == tries[n].id then Collapse(tries[..n]) else Collapse(tries[..n]) + [tries[n]]
  }

  function SumUnits(orders: seq<Order>): int {
    if orders == [] then 0 else SumUnits(orders[..|orders| - 1]) + orders[|orders| - 1].quantity
  }

  lemma SumUnitsSnoc(orders: seq<Order>, o: Order)
    ensures SumUnits(orders + [o]) == SumUnits(orders) + o.quantity
  {
    assert (orders + [o])[..|orders|] == orders;
  }

  /** The exact law of the audit counter. */
  lemma {:induction false} AuditLaw(tries: seq<Order>)
    ensures Replay(tries) == Row(SumUnits(Collapse(tries)), if tries == [] then None else Some(tries[|tries| - 1].id))
    decreases |tries|
  {
    if tries != [] {
      var n := |tries| - 1;
      AuditLaw(tries[..n]);
      SumUnitsSnoc(Collapse(tries[..n]), tries[n]);
    }
  }

  /** An order id always carries the same order, of at least one unit. */
  predicate Consistent(tries: seq<Order>) {
    && (forall i :: 0 <= i < |tries| ==> tries[i].quantity >= 1)
    && (forall i, j :: 0 <= i < |tries| && 0 <= j < |tries| && tries[i].id == tries[j].id ==> tries[i] == tries[j])
  }

  /** Whatever was attempted has been counted at least once. */
  lemma {:induction false} CountedAtLeastOnce(tries: seq<Order>, o: Order)
    requires Consistent(tries) && o in tries
    ensures o in Collapse(tries)
    decreases |tries|
  {
    var n := |tries| - 1;
    if n > 0 && tries[n - 1].id == tries[n].id {
      assert tries[n - 1] in tries[..n];
      CountedAtLeastOnce(tries[..n], o);
    } else if o != tries[n] {
      CountedAtLeastOnce(tries[..n], o);
    }
  }

  /** The distinct orders attempted, by id. */
  function Distinct(tries: seq<Order>): map<OrderId, Order> {
    if tries == [] then map[] else Distinct(tries[..|tries| - 1])[tries[|tries| - 1].id := tries[|tries| - 1]]
  }

  lemma {:induction false} DistinctIs(tries: seq<Order>)
    requires Consistent(tries)
    ensures forall o :: o in tries ==> o.id in Distinct(tries) && Distinct(tries)[o.id] == o
    ensures forall id :: id in Distinct(tries) ==> Distinct(tries)[id] in tries && Distinct(tries)[id].id == id
    decreases |tries|
  {
    if tries != [] {
      var n := |tries| - 1;
      DistinctIs(tries[..n]);
      assert tries == tries[..n] + [tries[n]];
    }
  }

  /** Between two attempts of an order there is no attempt of another. */
  predicate Contiguous(tries: seq<Order>) {
    forall i, j, k :: 0 <= i < j < k < |tries| && tries[i].id == tries[k].id ==> tries[j].id == tries[i].id
  }

  /** The last attempt repeats the one before it. */
  predicate Repeats(tries: seq<Order>)
    requires tries != []
  {
    |tries| > 1 && tries[|tries| - 2].id == tries[|tries| - 1].id
  }

  /** The last attempt is the first of its order. */
  predicate Opens(tries: seq<Order>)
    requires tries != []
  {
    forall i :: 0 <= i < |tries| - 1 ==> tries[i].id != tries[|tries| - 1].id
  }

  lemma ContiguousSnoc(tries: seq<Order>)
    requires tries != []
    ensures Contiguous(tries) <==> Contiguous(tries[..|tries| - 1]) && (Repeats(tries) || Opens(tries))
  {
    var n := |tries| - 1;
    var rest := tries[..n];
    if Contiguous(tries) {
      assert forall i :: 0 <= i < n - 1 && tries[i].id == tries[n].id ==> tries[n - 1].id == tries[i].id;
    }
    if Contiguous(rest) && (Repeats(tries) || Opens(tries)) {
      forall i, j, k | 0 <= i < j < k < |tries| && tries[i].id == tries[k].id ensures tries[j].id == tries[i].id {
        var last := if k < n then k else n - 1;
        assert j < last ==> rest[i].id == rest[last].id ==> rest[j].id == rest[i].id;
      }
    }
  }

  lemma DistinctSnoc(tries: seq<Order>)
    requires Consistent(tries) && tries != []
    ensures var n := |tries| - 1; var rest := tries[..n];
            Total(Distinct(tries), Units) ==
              Total(Distinct(rest), Units) + if Opens(tries) then tries[n].quantity else 0
  {
    var n := |tries| - 1;
    var rest, o := tries[..n], tries[n];
    DistinctIs(rest);
    TotalUpdate(Distinct(rest), o.id, o, Units);
    assert o.id in Distinct(rest) <==> !Opens(tries) by {
      if o.id in Distinct(rest) {
        var i :| 0 <= i < n && rest[i] == Distinct(rest)[o.id];
        assert tries[i].id == o.id;
      }
      if i :| 0 <= i < n && tries[i].id == o.id { assert rest[i] in rest; }
    }
  }

  lemma ConfirmedGrows(tries: seq<Order>)
    requires tries != []
    ensures Replay(tries).confirmed ==
              Replay(tries[..|tries| - 1]).confirmed + if Repeats(tries) then 0 else tries[|tries| - 1].quantity
  {
    AuditLaw(tries[..|tries| - 1]);
  }

  /** The counter never falls short of the distinct orders, and agrees with them exactly when each
      order's attempts are contiguous. The source's comment claims agreement in all cases. */
  lemma {:induction false} ExactOnceIffContiguous(tries: seq<Order>)
    requires Consistent(tries)
    ensures Replay(tries).confirmed >= Total(Distinct(tries), Units)
    ensures Replay(tries).confirmed == Total(Distinct(tries), Units) <==> Contiguous(tries)
    decreases |tries|
  {
    if tries != [] {
      var n := |tries| - 1;
      ExactOnceIffContiguous(tries[..n]);
      ConfirmedGrows(tries);
      DistinctSnoc(tries);
      ContiguousSnoc(tries);
      assert Repeats(tries) ==> !Opens(tries);
    }
  }

  /** A counted, then B, then A again: A is counted twice. */
  lemma SeparatedRepeatCountsTwice(a: Order, b: Order)
    requires a.id != b.id
    ensures Replay([a, b, a]).confirmed == 2 * a.quantity + b.quantity
  {
    assert [a, b, a] == [] + [a] + [b] + [a];
    ReplaySnoc([], a);
    ReplaySnoc([a], b);
    ReplaySnoc([a] + [b], a);
  }
}
