/** The values that travel between the three services. */
module Domain {

  datatype Option<+T> = None | Some(value: T)

  /** What became of one command sent to a store over the network. */
  datatype Fate =
    | Done        // applied, and the reply arrived
    | NotApplied  // an error, and the store is untouched
    | ReplyLost   // an error, although the store applied the command

  type OrderId = nat

  /** The body of one published order. */
  datatype Order = Order(id: OrderId, user: string, item: string, quantity: int)

  const SaleItem: string := "flash-sale-item"

  function Units(o: Order): int { o.quantity }

  /** There is always a number that nobody uses. */
  lemma {:induction false} Unused(used: set<nat>) returns (n: nat)
    ensures forall k :: k in used ==> k < n
    decreases used
  {
    n := 0;
    if used != {} {
      var k :| k in used;
      n := Unused(used - {k});
      if n <= k { n := k + 1; }
      assert forall j :: j in used && j != k ==> j in used - {k};
    }
  }

  lemma {:induction false} SomeLonger(used: set<string>) returns (n: nat)
    ensures forall t :: t in used ==> |t| <= n
    decreases used
  {
    n := 0;
    if used != {} {
      var t :| t in used;
      n := SomeLonger(used - {t});
      if |t| > n { n := |t|; }
    }
  }

  /** Nor a lack of names. */
  lemma UnusedString(used: set<string>) returns (t: string)
    ensures t != "" && t !in used
  {
    var n := SomeLonger(used);
    t := seq(n + 1, _ => 'x');
    assert |t| == n + 1;
  }
}
