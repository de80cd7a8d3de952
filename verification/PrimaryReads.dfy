/** What the primary's queue promises to customers: an order ships when it is committed, reads
    see what was shipped, and a customer that numbers its orders reads how many are committed.
  */
module PrimaryReads {
  import opened RobotFactory
  import opened WalState
  import opened Replica
  import opened AdminQueue

  /** What can come of a node that starts with the log `initial` and empty lists. */
  ghost predicate Arises(f: Factory, initial: seq<MapOp>) {
    exists f0, run :: Opening(f0, initial) && Plausible(f0, run) && AfterAll(f0, run) == f
  }

  lemma ArisesKeeps(f: Factory, initial: seq<MapOp>)
    requires Arises(f, initial)
    ensures FactoryInv(f, initial)
  {
    hide FactoryInv, Opening, NoneForgotten;
    var f0, run :| Opening(f0, initial) && Plausible(f0, run) && AfterAll(f0, run) == f;
    QueueDiscipline(f0, initial, run);
  }

  /** Where in the log the entry of the k-th robot went. */
  function SlotOf(f: Factory, initial: seq<MapOp>, k: nat): nat
    requires k < |f.enqueued|
  {
    |initial| + |Entries(f.enqueued[..k])|
  }

  lemma {:induction false} EntriesGrow(robots: seq<RobotInf>, k: nat)
    requires k <= |robots|
    ensures Entries(robots[..k]) <= Entries(robots)
    decreases |robots|
  {
    if k < |robots| {
      EntriesGrow(robots[..|robots| - 1], k);
      assert robots[..|robots| - 1][..k] == robots[..k];
    } else {
      assert robots[..k] == robots;
    }
  }

  /** When an order ships its entry is in the log, at its slot, and committed. */
  lemma ShippedIsCommitted(f: Factory, initial: seq<MapOp>, k: nat)
    requires Arises(f, initial) && k in f.shipped && k < |f.enqueued| && IsOrderRobot(f.enqueued[k])
    ensures var n := f.desk.node;
            && SlotOf(f, initial, k) <= n.committed < |n.log|
            && n.log[SlotOf(f, initial, k)] == EntryOf(f.enqueued[k])
  {
    hide ApplyAll, Mirrored, Arises;
    ArisesKeeps(f, initial);
    var done := f.enqueued[..Processed(f)];
    assert done[..k] == f.enqueued[..k];
    assert done[..k + 1][..k] == done[..k];
    assert Entries(done[..k + 1]) == Entries(done[..k]) + [EntryOf(f.enqueued[k])];
    EntriesGrow(done, k + 1);
    assert Logical(f.desk.node)[SlotOf(f, initial, k)] == EntryOf(f.enqueued[k]);
  }

  /** engineer_thread_read_def, which takes the lock: it sees a state between admin steps. */
  function Read(f: Factory, customer: int): int {
    Lookup(f.desk.node.record, customer)
  }

  /** A read returns the newest write to that customer among the committed entries, or -1. */
  lemma ReadIsNewestCommitted(f: Factory, initial: seq<MapOp>, customer: int)
    requires Arises(f, initial)
    ensures 0 <= f.desk.node.committed + 1 <= |f.desk.node.log|
    ensures var committed := f.desk.node.log[..f.desk.node.committed + 1];
            var i := NewestEntry(committed, customer);
            Read(f, customer) == if i < 0 then -1 else committed[i].arg2
  {
    hide ApplyAll, Mirrored, Arises;
    ArisesKeeps(f, initial);
    LookupIsNewestWrite(f.desk.node.log[..f.desk.node.committed + 1], customer);
  }

  lemma {:induction false} HistoryGrows(f: Factory, run: seq<Event>)
    requires Plausible(f, run)
    ensures f.enqueued <= AfterAll(f, run).enqueued && f.shipped <= AfterAll(f, run).shipped
    decreases |run|
  {
    hide AdminNode;
    if run != [] {
      HistoryGrows(Happen(f, run[0]), run[1..]);
    }
  }

  lemma {:induction false} RunsOn(f: Factory, a: seq<Event>, b: seq<Event>)
    requires Plausible(f, a) && Plausible(AfterAll(f, a), b)
    ensures Plausible(f, a + b) && AfterAll(f, a + b) == AfterAll(AfterAll(f, a), b)
    decreases |a|
  {
    hide CanHappen, Happen;
    if a == [] {
      assert a + b == b;
    } else {
      RunsOn(Happen(f, a[0]), a[1..], b);
      assert (a + b)[0] == a[0] && (a + b)[1..] == a[1..] + b;
    }
  }

  lemma ArisesOn(f: Factory, initial: seq<MapOp>, run: seq<Event>)
    requires Arises(f, initial) && Plausible(f, run)
    ensures Arises(AfterAll(f, run), initial)
  {
    hide Opening, CanHappen, Happen, Plausible, AfterAll;
    var f0, before :| Opening(f0, initial) && Plausible(f0, before) && AfterAll(f0, before) == f;
    RunsOn(f0, before, run);
  }

  /** A read that begins after an order was shipped returns that order or a later one of
      the same customer: the value it returns was written at the shipped entry's slot or
      behind it. */
  lemma ReadAfterShipment(f: Factory, initial: seq<MapOp>, run: seq<Event>, k: nat)
    requires Arises(f, initial) && Plausible(f, run)
    requires k in f.shipped && k < |f.enqueued| && IsOrderRobot(f.enqueued[k])
    ensures var f' := AfterAll(f, run);
            && k < |f'.enqueued| && Sane(f'.desk.node)
            && WrittenSince(f'.desk.node.log[..f'.desk.node.committed + 1], SlotOf(f', initial, k),
                            f.enqueued[k].customerId, Read(f', f.enqueued[k].customerId))
  {
    hide ApplyAll, Mirrored, CanHappen, Happen, Plausible, AfterAll, SlotOf, Entries, WrittenSince, Arises;
    ArisesOn(f, initial, run);
    ArisesKeeps(AfterAll(f, run), initial);
    HistoryGrows(f, run);
    var f' := AfterAll(f, run);
    assert k in f'.shipped && f'.enqueued[k] == f.enqueued[k];
    ShippedIsCommitted(f', initial, k);
    NewestIsSince(f'.desk.node.log[..f'.desk.node.committed + 1], SlotOf(f', initial, k), f.enqueued[k].customerId);
  }

  // ---- customers who number their orders ----

  /** The order numbers of the robots `customer` has queued, oldest first. */
  function QueuedOrders(robots: seq<RobotInf>, customer: int): seq<int> {
    if robots == [] then []
    else
      var last := robots[|robots| - 1];
      QueuedOrders(robots[..|robots| - 1], customer)
      + if last.customerId == customer then [last.orderNumber as int] else []
  }

  lemma {:induction false} LoggedOrders(robots: seq<RobotInf>, customer: int)
    requires customer != COMMIT_ONLY
    ensures OrdersOf(Entries(robots), customer) == QueuedOrders(robots, customer)
  {
    if robots != [] {
      var init, last := robots[..|robots| - 1], robots[|robots| - 1];
      LoggedOrders(init, customer);
      var log := Entries(robots);
      if IsOrderRobot(last) {
        assert log == Entries(init) + [EntryOf(last)];
        assert log[..|log| - 1] == Entries(init);
        assert OrdersOf(log, customer)
            == OrdersOf(Entries(init), customer) + if last.customerId == customer then [last.orderNumber as int] else [];
      } else {
        assert log == Entries(init);
      }
    }
  }

  lemma {:induction false} OrdersConcat(a: seq<MapOp>, b: seq<MapOp>, customer: int)
    ensures OrdersOf(a + b, customer) == OrdersOf(a, customer) + OrdersOf(b, customer)
    decreases |b|
  {
    if b == [] {
      assert a + b == a;
    } else {
      assert (a + b)[..|a + b| - 1] == a + b[..|b| - 1];
      OrdersConcat(a, b[..|b| - 1], customer);
    }
  }

  /** A customer new to the log, whose connection numbers its orders 1, 2, 3, ... in the
      order it queues them, has exactly 1..j in the log, and reads j, the number of its
      entries that are committed. */
  lemma FreshCustomerCounts(f: Factory, initial: seq<MapOp>, customer: int)
    requires Arises(f, initial)
    requires customer != COMMIT_ONLY && OrdersOf(initial, customer) == []
    requires Consecutive(QueuedOrders(f.enqueued, customer))
    ensures Sane(f.desk.node)
    ensures var orders := OrdersOf(Logical(f.desk.node), customer);
            && Consecutive(orders)
            && orders <= QueuedOrders(f.enqueued, customer)
            && Read(f, customer) == if orders == [] then -1 else |orders|
  {
    hide ApplyAll, Mirrored, Consecutive, Arises;
    ArisesKeeps(f, initial);
    var n, done := f.desk.node, f.enqueued[..Processed(f)];
    var orders, queued := OrdersOf(Logical(n), customer), QueuedOrders(f.enqueued, customer);
    OrdersConcat(initial, Entries(done), customer);
    assert orders == OrdersOf(Entries(done), customer);
    EntriesGrow(f.enqueued, Processed(f));
    LoggedOrders(f.enqueued, customer);
    var all := Entries(f.enqueued);
    OrdersGrow(all, |Entries(done)|, customer);
    assert all[..|Entries(done)|] == Entries(done);
    PrefixConsecutive(orders, queued);
    CommittedOrders(n, customer);
  }

  lemma PrefixConsecutive(orders: seq<int>, queued: seq<int>)
    requires orders <= queued && Consecutive(queued)
    ensures Consecutive(orders)
  {
    forall k | 0 <= k < |orders| ensures orders[k] == k + 1 {
      assert orders[k] == queued[k];
    }
  }

  lemma CommittedOrders(n: Node, customer: int)
    requires Consistent(n)
    requires Consecutive(OrdersOf(Logical(n), customer))
    requires n.committed == n.last || OrdersOf(Logical(n), customer) == []
    ensures var orders := OrdersOf(Logical(n), customer);
            Lookup(n.record, customer) == if orders == [] then -1 else |orders|
  {
    hide ApplyAll, Consecutive;
    var committed := n.log[..n.committed + 1];
    assert committed == Logical(n)[..n.committed + 1];
    OrdersGrow(Logical(n), n.committed + 1, customer);
    if n.committed == n.last {
      assert committed == Logical(n);
    }
    PrefixConsecutive(OrdersOf(committed, customer), OrdersOf(Logical(n), customer));
    ReadCountsOrders(committed, customer);
  }
}
