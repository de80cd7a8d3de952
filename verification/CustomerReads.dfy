/** Customers that number their orders 1, 2, 3, ... across failovers, and what they read. */
module CustomerReads {
  import opened RobotFactory
  import opened WalState
  import opened Replica
  import opened Cluster
  import opened ClusterProofs
  import opened ClusterTheorems

  /** Each order the customer places is numbered one higher than the primary's log has orders
      of that customer. A client that counts what was shipped to it and stops at the first
      failure does so (NumbersByReceipt); so does one that after a failover places its last
      order again if the new primary does not have it. */
  predicate NumbersNext(s: Cluster, l: Label, customer: int) {
    l.Begin? && IsOrder(l.op) && l.op.arg1 == customer ==> l.op.arg2 == |OrdersOf(s.ref, customer)| + 1
  }

  ghost predicate NumberedRun(s: Cluster, run: seq<Label>, customer: int)
    requires Legal(s, run)
    decreases |run|
  {
    run != [] ==> NumbersNext(s, run[0], customer) && NumberedRun(Next(s, run[0]), run[1..], customer)
  }

  ghost predicate Numbered(s: Cluster, customer: int) {
    Consecutive(OrdersOf(s.ref, customer)) && Consecutive(OrdersOf(s.high, customer))
  }

  lemma OrdersPrefix(shorter: seq<MapOp>, longer: seq<MapOp>, customer: int)
    requires shorter <= longer && Consecutive(OrdersOf(longer, customer))
    ensures Consecutive(OrdersOf(shorter, customer))
  {
    OrdersGrow(longer, |shorter|, customer);
    assert longer[..|shorter|] == shorter;
    var a, b := OrdersOf(shorter, customer), OrdersOf(longer, customer);
    forall k | 0 <= k < |a| ensures a[k] == k + 1 {
      assert a[k] == b[k];
    }
  }

  lemma BeginNumbers(s: Cluster, op: MapOp, reached: set<nat>, customer: int)
    requires Inv(s) && Enabled(s, Begin(op, reached)) && Numbered(s, customer)
    requires NumbersNext(s, Begin(op, reached), customer)
    ensures Numbered(AfterBegin(s, op, reached), customer)
  {
    hide Inv, Enabled;
    if IsOrder(op) {
      assert (s.ref + [op])[..|s.ref|] == s.ref;
    }
  }

  lemma PromoteShortens(s: Cluster, b: nat)
    requires Inv(s) && Enabled(s, Promote(b))
    ensures var s' := AfterPromote(s, b); s'.ref <= s.high && s'.high <= s.high && s'.shipped <= s.shipped
  {
    hide ApplyAll, Mirrored, Within;
    assert NodeInv(s, b);
    WithinExact(s.shipped, s.nodes[b].last + 1);
  }

  lemma ResumeShortens(s: Cluster, fetched: int)
    requires Inv(s) && Enabled(s, Resume(fetched))
    ensures var s' := AfterResume(s, fetched); s'.ref <= s.high && s'.high <= s.high && s'.shipped <= s.shipped
  {
    hide ApplyAll, Mirrored, Within, Restart;
    assert NodeInv(s, s.primary);
    RestartSane(s.nodes[s.primary].wal.durable, fetched);
    WithinExact(s.shipped, Restart(s.nodes[s.primary].wal.durable, fetched).node.last + 1);
  }

  lemma StillNumbered(s: Cluster, s': Cluster, customer: int)
    requires Numbered(s, customer) && s'.ref <= s.high && s'.high <= s.high
    ensures Numbered(s', customer)
  {
    hide OrdersOf, Consecutive;
    OrdersPrefix(s'.ref, s.high, customer);
    OrdersPrefix(s'.high, s.high, customer);
  }

  lemma StepNumbers(s: Cluster, l: Label, customer: int)
    requires Inv(s) && Enabled(s, l) && Numbered(s, customer) && NumbersNext(s, l, customer)
    ensures Numbered(Next(s, l), customer)
  {
    hide Inv, NumbersNext, OrdersOf, Consecutive, AfterBegin, AfterPromote, AfterResume;
    hide Handle, Deliverable, Arriving, BadDelivery, Restart, StaleFile, ForkedWaiting;
    if l.Begin? {
      BeginNumbers(s, l.op, l.reached, customer);
    } else if l.Promote? {
      PromoteShortens(s, l.b);
      StillNumbered(s, AfterPromote(s, l.b), customer);
    } else if l.Resume? {
      ResumeShortens(s, l.fetched);
      StillNumbered(s, AfterResume(s, l.fetched), customer);
    }
  }

  /** Over any run, crashes and failovers included, the numbers in the primary's log stay
      consecutive. */
  lemma {:induction false} RunNumbers(s: Cluster, run: seq<Label>, customer: int)
    requires Inv(s) && Legal(s, run) && Numbered(s, customer) && NumberedRun(s, run, customer)
    ensures Inv(After(s, run)) && Numbered(After(s, run), customer)
    decreases |run|
  {
    hide Inv, Enabled, Next, Numbered, NumbersNext;
    if run != [] {
      StepKeeps(s, run[0]);
      StepNumbers(s, run[0], customer);
      RunNumbers(Next(s, run[0]), run[1..], customer);
    }
  }

  /** So what any surviving node has committed of them is 1, 2, ..., k. */
  lemma NodeNumbers(s: Cluster, n: nat, customer: int)
    requires Inv(s) && Numbered(s, customer) && n < |s.nodes| && n in s.up && n !in s.lost
    ensures Sane(s.nodes[n])
    ensures Consecutive(OrdersOf(CommittedLog(s.nodes[n]), customer))
  {
    hide ApplyAll, Mirrored, OrdersOf, Consecutive;
    assert NodeInv(s, n);
    var m := s.nodes[n];
    assert CommittedLog(m) <= Logical(m);
    if Logical(m) <= s.ref {
      OrdersPrefix(CommittedLog(m), s.ref, customer);
    } else {
      OrdersPrefix(CommittedLog(m), s.high, customer);
    }
  }

  /** A cluster that a run on which the customer numbers its orders has led to. */
  ghost predicate NumberedHistory(s: Cluster, customer: int) {
    exists s0, run :: Initial(s0) && Legal(s0, run) && NumberedRun(s0, run, customer) && After(s0, run) == s
  }

  lemma HistoryNumbers(s: Cluster, customer: int)
    requires NumberedHistory(s, customer)
    ensures Inv(s) && Numbered(s, customer)
  {
    hide Inv, Legal, After, NumberedRun, Initial, Numbered;
    var s0, run :| Initial(s0) && Legal(s0, run) && NumberedRun(s0, run, customer) && After(s0, run) == s;
    InitialInv(s0);
    InitialNumbered(s0, customer);
    RunNumbers(s0, run, customer);
  }

  /** Every surviving node's record has, for a customer that numbers its orders, the number
      of that customer's orders it has committed. */
  lemma ReadsCountOrders(s: Cluster, n: nat, customer: int)
    requires NumberedHistory(s, customer) && n < |s.nodes| && n in s.up && n !in s.lost
    ensures Sane(s.nodes[n])
    ensures var k := |OrdersOf(CommittedLog(s.nodes[n]), customer)|;
            Lookup(s.nodes[n].record, customer) == if k == 0 then -1 else k
  {
    hide Inv, NumberedHistory, ApplyAll, Mirrored;
    HistoryNumbers(s, customer);
    NodeNumbers(s, n, customer);
    ReadCountsOrders(CommittedLog(s.nodes[n]), customer);
  }

  /** Such a customer never reads a smaller number than before from a node that runs on
      undamaged, as backup or as primary, whatever happens to the others. */
  lemma MonotoneReads(s: Cluster, run: seq<Label>, n: nat, customer: int)
    requires NumberedHistory(s, customer)
    requires Legal(s, run) && NumberedRun(s, run, customer) && Uninterrupted(s, run, n)
    ensures n < |s.nodes| && n < |After(s, run).nodes|
    ensures Lookup(s.nodes[n].record, customer) <= Lookup(After(s, run).nodes[n].record, customer)
  {
    hide Inv, Next, Enabled, Legal, After, Uninterrupted, NumberedRun, Numbered, NumberedHistory, ApplyAll;
    HistoryNumbers(s, customer);
    RunNumbers(s, run, customer);
    RunGrowsCommitted(s, run, n);
    NodeNumbers(After(s, run), n, customer);
    GrownReads(s.nodes[n], After(s, run).nodes[n], customer);
  }

  lemma InitialNumbered(s: Cluster, customer: int)
    requires Initial(s)
    ensures Numbered(s, customer)
  {
  }

  lemma GrownReads(m: Node, m': Node, customer: int)
    requires Sane(m) && Sane(m') && CommittedLog(m) <= CommittedLog(m')
    requires Consecutive(OrdersOf(CommittedLog(m'), customer))
    ensures Lookup(m.record, customer) <= Lookup(m'.record, customer)
  {
    hide ApplyAll, Mirrored, OrdersOf, Consecutive;
    var log := CommittedLog(m');
    var k := m.committed + 1;
    assert CommittedLog(m) == log[..k] && log[..|log|] == log;
    ReadsNeverDecrease(log, k, |log|, customer);
  }

  // ---- the client's own view ----

  function ShippedOps(shipped: seq<(nat, MapOp)>): seq<MapOp> {
    seq(|shipped|, i requires 0 <= i < |shipped| => shipped[i].1)
  }

  predicate Orders(l: Label, customer: int) {
    l.Begin? && IsOrder(l.op) && l.op.arg1 == customer
  }

  predicate ChangesPrimary(l: Label) {
    l.Promote? || l.Resume?
  }

  /** The customer numbers each order one higher than it has received orders. */
  ghost predicate CountsReceived(s: Cluster, run: seq<Label>, customer: int)
    requires Legal(s, run)
    decreases |run|
  {
    run != [] ==>
      && (Orders(run[0], customer) ==> run[0].op.arg2 == |OrdersOf(ShippedOps(s.shipped), customer)| + 1)
      && CountsReceived(Next(s, run[0]), run[1..], customer)
  }

  ghost predicate Quiet(run: seq<Label>, customer: int) {
    forall l :: l in run ==> !Orders(l, customer)
  }

  /** The customer places no order after the next change of the primary. */
  ghost predicate StopsAtNext(run: seq<Label>, customer: int)
    decreases |run|
  {
    run != [] ==> if ChangesPrimary(run[0]) then Quiet(run[1..], customer) else StopsAtNext(run[1..], customer)
  }

  /** The same, from its first order on. */
  ghost predicate StopsAtFailover(run: seq<Label>, customer: int)
    decreases |run|
  {
    run != [] ==>
      if Orders(run[0], customer) then StopsAtNext(run[1..], customer) else StopsAtFailover(run[1..], customer)
  }

  /** No trace of the customer yet. */
  ghost predicate Unknown(s: Cluster, customer: int) {
    OrdersOf(s.ref, customer) == OrdersOf(s.high, customer) == OrdersOf(ShippedOps(s.shipped), customer) == []
  }

  /** The log the primary builds on has what was shipped to the customer, and no more. */
  ghost predicate Level(s: Cluster, customer: int) {
    s.primary in s.up ==> OrdersOf(StepBase(s), customer) == OrdersOf(ShippedOps(s.shipped), customer)
  }

  lemma NoOrdersInPrefix(shorter: seq<MapOp>, longer: seq<MapOp>, customer: int)
    requires shorter <= longer && OrdersOf(longer, customer) == []
    ensures OrdersOf(shorter, customer) == []
  {
    OrdersGrow(longer, |shorter|, customer);
    assert longer[..|shorter|] == shorter;
  }

  lemma OrdersOfNext(ops: seq<MapOp>, op: MapOp, customer: int)
    ensures OrdersOf(ops + [op], customer)
         == OrdersOf(ops, customer) + if op.arg1 == customer then [op.arg2 as int] else []
  {
    assert (ops + [op])[..|ops|] == ops;
  }

  /** The shipment at the end of a step. */
  lemma FinishShips(s: Cluster)
    requires Inv(s) && Enabled(s, Finish) && OrderPhase(s)
    ensures var op := s.phase.req.record;
            && s.ref == StepBase(s) + [op] && StepBase(AfterFinish(s)) == s.ref == AfterFinish(s).high
            && ShippedOps(AfterFinish(s).shipped) == ShippedOps(s.shipped) + [op]
  {
    hide ApplyAll, Mirrored, NodeInv;
  }

  lemma LevelStep(s: Cluster, l: Label, customer: int)
    requires Inv(s) && Enabled(s, l) && Level(s, customer) && !ChangesPrimary(l)
    ensures Level(Next(s, l), customer)
  {
    hide Inv, OrdersOf, ShippedOps;
    hide Handle, Deliverable, Arriving, BadDelivery, Restart, StaleFile, ForkedBy, ForkedWaiting, RecheckCommit;
    if l.Finish? && OrderPhase(s) {
      FinishShips(s);
      OrdersOfNext(StepBase(s), s.phase.req.record, customer);
      OrdersOfNext(ShippedOps(s.shipped), s.phase.req.record, customer);
    } else if l.Begin? && IsOrder(l.op) {
      assert (s.ref + [l.op])[..|s.ref|] == s.ref;
    }
  }

  lemma UnknownStep(s: Cluster, l: Label, customer: int)
    requires Inv(s) && Enabled(s, l) && Unknown(s, customer) && !Orders(l, customer)
    ensures Unknown(Next(s, l), customer)
  {
    hide Inv, OrdersOf, ShippedOps, AfterPromote, AfterResume;
    hide Handle, Deliverable, Arriving, BadDelivery, Restart, StaleFile, ForkedBy, ForkedWaiting, RecheckCommit;
    if l.Finish? && OrderPhase(s) {
      FinishShips(s);
      OrdersOfNext(StepBase(s), s.phase.req.record, customer);
      OrdersOfNext(ShippedOps(s.shipped), s.phase.req.record, customer);
    } else if l.Begin? && IsOrder(l.op) {
      OrdersOfNext(s.ref, l.op, customer);
    } else if l.Promote? {
      PromoteShortens(s, l.b);
      StillUnknown(s, AfterPromote(s, l.b), customer);
    } else if l.Resume? {
      ResumeShortens(s, l.fetched);
      StillUnknown(s, AfterResume(s, l.fetched), customer);
    }
  }

  lemma StillUnknown(s: Cluster, s': Cluster, customer: int)
    requires Unknown(s, customer) && s'.ref <= s.high && s'.high <= s.high && s'.shipped <= s.shipped
    ensures Unknown(s', customer)
  {
    hide OrdersOf;
    NoOrdersInPrefix(s'.ref, s.high, customer);
    NoOrdersInPrefix(s'.high, s.high, customer);
    NoOrdersInPrefix(ShippedOps(s'.shipped), ShippedOps(s.shipped), customer);
  }

  lemma {:induction false} QuietRun(s: Cluster, run: seq<Label>, customer: int)
    requires Legal(s, run) && Quiet(run, customer)
    ensures NumberedRun(s, run, customer)
    decreases |run|
  {
    hide Enabled, Next;
    if run != [] {
      assert run[0] in run;
      QuietRun(Next(s, run[0]), run[1..], customer);
    }
  }

  /** Such a client numbers by the primary's log without seeing it. */
  lemma {:induction false} NumbersByReceipt(s: Cluster, run: seq<Label>, customer: int, known: bool)
    requires Inv(s) && Legal(s, run) && CountsReceived(s, run, customer)
    requires if known then Level(s, customer) && StopsAtNext(run, customer)
             else Unknown(s, customer) && StopsAtFailover(run, customer)
    ensures NumberedRun(s, run, customer)
    decreases |run|
  {
    hide Inv, Enabled, Next, OrdersOf, Unknown, Level;
    if run != [] {
      var l, rest := run[0], run[1..];
      StepKeeps(s, l);
      var s' := Next(s, l);
      if Orders(l, customer) {
        OrderIsNumbered(s, l, customer, known);
        LevelStep(s, l, customer);
        NumbersByReceipt(s', rest, customer, true);
      } else if known && ChangesPrimary(l) {
        QuietRun(s', rest, customer);
      } else if known {
        LevelStep(s, l, customer);
        NumbersByReceipt(s', rest, customer, true);
      } else {
        UnknownStep(s, l, customer);
        NumbersByReceipt(s', rest, customer, false);
      }
    }
  }

  lemma OrderIsNumbered(s: Cluster, l: Label, customer: int, known: bool)
    requires Enabled(s, l) && Orders(l, customer)
    requires if known then Level(s, customer) else Unknown(s, customer)
    requires l.op.arg2 == |OrdersOf(ShippedOps(s.shipped), customer)| + 1
    ensures NumbersNext(s, l, customer) && Level(s, customer)
  {
    hide OrdersOf, ShippedOps;
  }

  lemma {:induction false} NumberedParts(s: Cluster, a: seq<Label>, b: seq<Label>, customer: int)
    requires Legal(s, a) && Legal(After(s, a), b) && Legal(s, a + b) && NumberedRun(s, a + b, customer)
    ensures NumberedRun(s, a, customer) && NumberedRun(After(s, a), b, customer)
    decreases |a|
  {
    hide Enabled, Next;
    if a == [] {
      assert a + b == b;
    } else {
      assert (a + b)[0] == a[0] && (a + b)[1..] == a[1..] + b;
      NumberedParts(Next(s, a[0]), a[1..], b, customer);
    }
  }

  /** A customer that numbers its orders by what it received, and stops at the first failure,
      never reads a smaller number than before from a node that runs on undamaged. */
  lemma ClientReads(s0: Cluster, before: seq<Label>, run: seq<Label>, n: nat, customer: int)
    requires Initial(s0) && Legal(s0, before) && Legal(After(s0, before), run) && Legal(s0, before + run)
    requires CountsReceived(s0, before + run, customer) && StopsAtFailover(before + run, customer)
    requires Uninterrupted(After(s0, before), run, n)
    ensures var s := After(s0, before);
            && n < |s.nodes| && n < |After(s, run).nodes|
            && Lookup(s.nodes[n].record, customer) <= Lookup(After(s, run).nodes[n].record, customer)
  {
    hide Inv, Legal, After, Uninterrupted, NumberedRun, CountsReceived, StopsAtFailover;
    InitialInv(s0);
    assert Unknown(s0, customer) by {
      assert ShippedOps(s0.shipped) == [];
    }
    NumbersByReceipt(s0, before + run, customer, false);
    NumberedParts(s0, before, run, customer);
    assert NumberedHistory(After(s0, before), customer);
    MonotoneReads(After(s0, before), run, n, customer);
  }
}
