/** What holds of every interleaving of workers, retries, redeliveries and crashes. */
module OrderWorkerLaws {
  import opened Domain
  import opened Totals
  import opened AuditCounter
  import opened OrderWorker

  lemma StartInv()
    ensures Inv(Start())
  {
    assert forall item :: RowOk(Start().stores, item);
  }

  lemma AttemptsConsistent(s: Stores, item: string)
    requires TablesOk(s)
    ensures Consistent(OnItem(s.tried, item))
  {
    var t := OnItem(s.tried, item);
    OnItemIs(s.tried, item);
    forall i | 0 <= i < |t| ensures t[i].id in s.table && s.table[t[i].id] == t[i] && t[i].quantity >= 1 {
      assert t[i] in t;
    }
  }

  /** Acknowledgement safety: a deleted message's order is in the table as it was sent, and is among
      the orders whose quantities the audit row adds up. */
  lemma AckSafety(es: seq<Event>, id: OrderId)
    requires id in Run(Start(), es).stores.deleted
    ensures var s := Run(Start(), es).stores;
            && id in s.sent && id in s.table && s.table[id] == s.sent[id]
            && var o := s.sent[id]; var counted := Collapse(OnItem(s.tried, o.item));
               o in counted && s.RowOf(o.item).confirmed == SumUnits(counted)
  {
    StartInv();
    RunKeepsInv(Start(), es);
    var s := Run(Start(), es).stores;
    var o := s.sent[id];
    AttemptsConsistent(s, o.item);
    OnItemIs(s.tried, o.item);
    CountedAtLeastOnce(OnItem(s.tried, o.item), o);
    assert RowOk(s, o.item);
    AuditLaw(OnItem(s.tried, o.item));
  }

  /** And it stays that way: nothing that happens later takes the order or its count away. */
  lemma AckIsForGood(es: seq<Event>, fs: seq<Event>, id: OrderId)
    requires id in Run(Start(), es).stores.deleted
    ensures var s, t := Run(Start(), es).stores, Run(Run(Start(), es), fs).stores;
            && id in s.sent && id in t.deleted
            && id in t.table && t.table[id] == s.sent[id] && s.sent[id] in t.tried
  {
    AckSafety(es, id);
    StartInv();
    RunKeepsInv(Start(), es);
    RunKeepsInv(Run(Start(), es), fs);
  }

  /** The audit row of every item, in every run, against the distinct orders attempted on it. */
  lemma AuditExactness(es: seq<Event>, item: string)
    ensures var s := Run(Start(), es).stores; var tries := OnItem(s.tried, item);
            && s.RowOf(item).confirmed >= Total(Distinct(tries), Units)
            && (s.RowOf(item).confirmed == Total(Distinct(tries), Units) <==> Contiguous(tries))
  {
    StartInv();
    RunKeepsInv(Start(), es);
    var s := Run(Start(), es).stores;
    AttemptsConsistent(s, item);
    assert RowOk(s, item);
    ExactOnceIffContiguous(OnItem(s.tried, item));
  }

  lemma {:induction false} NoRepeatsSize(ids: seq<OrderId>, domain: set<OrderId>)
    requires NoRepeats(ids) && forall id :: id in ids ==> id in domain
    ensures |ids| <= |domain|
    decreases |ids|
  {
    if ids != [] {
      var last := ids[|ids| - 1];
      forall id | id in ids[..|ids| - 1] ensures id in domain - {last} {
        var i :| 0 <= i < |ids| - 1 && ids[i] == id;
      }
      NoRepeatsSize(ids[..|ids| - 1], domain - {last});
    }
  }

  /** The confirmed metric counts no order twice, so it never exceeds the orders table. */
  lemma ConfirmedAtMostOnce(es: seq<Event>)
    ensures var s := Run(Start(), es).stores;
            NoRepeats(s.confirmed) && (forall id :: id in s.confirmed ==> id in s.table) && |s.confirmed| <= |s.table|
  {
    StartInv();
    RunKeepsInv(Start(), es);
    var s := Run(Start(), es).stores;
    NoRepeatsSize(s.confirmed, s.table.Keys);
  }

  /** How many saves that succeeded have been counted. */
  function SavesCounted(es: seq<Event>): nat {
    if es == [] then 0 else
    var before, e := es[..|es| - 1], es[|es| - 1];
    SavesCounted(before)
    + if e.Do? && e.act.Count? && Run(Start(), before).PcOf(e.who).Saved? then 1 else 0
  }

  lemma StepCounts(s: State, e: Event)
    ensures var t := Step(s, e).stores;
            |t.confirmed| + t.duplicates
            == |s.stores.confirmed| + s.stores.duplicates
               + if e.Do? && e.act.Count? && s.PcOf(e.who).Saved? then 1 else 0
  {}

  /** Every save that succeeded is counted as exactly one of confirmed and duplicate. */
  lemma {:induction false} EverySaveIsCountedOnce(es: seq<Event>)
    ensures var s := Run(Start(), es).stores; |s.confirmed| + s.duplicates == SavesCounted(es)
    decreases |es|
  {
    if es != [] {
      EverySaveIsCountedOnce(es[..|es| - 1]);
      StepCounts(Run(Start(), es[..|es| - 1]), es[|es| - 1]);
    }
  }

  /** A message that does not validate, such as one from an all-blank customer, is never stored and
      never acknowledged: it stays in the queue. */
  lemma MalformedNeverLeaves(es: seq<Event>, id: OrderId)
    requires id in Run(Start(), es).stores.sent && !WellFormed(Run(Start(), es).stores.sent[id])
    ensures id !in Run(Start(), es).stores.table && id !in Run(Start(), es).stores.deleted
  {
    StartInv();
    RunKeepsInv(Start(), es);
  }
}
