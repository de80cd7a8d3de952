/** What a crash of the primary costs: which nodes can take over without losing a shipped
    order, which nodes are sure to be among them, and what a promotion does.
  */
module Failover {
  import opened RobotFactory
  import opened WalState
  import opened Replica
  import opened Cluster
  import opened ClusterProofs
  import opened ClusterTheorems

  // ---- where shipped orders are ----

  /** Every shipped order is in the log of the current primary, or of the last one if it is
      down, committed there once the primary has taken its first step, and at the same index
      in every surviving log that reaches that far. */
  lemma ShippedEverywhere(s: Cluster, k: nat)
    requires Reachable(s) && k < |s.shipped|
    ensures s.primary < |s.nodes|
    ensures var (i, op) := s.shipped[k];
            && i < |s.ref| && s.ref[i] == op
            && (s.primary in s.up ==> Sane(s.nodes[s.primary]) && Logical(s.nodes[s.primary]) == s.ref)
            && (s.primary in s.up && (s.phase.Sending? || !s.recheckAllow) ==> i <= s.nodes[s.primary].committed)
            && forall b: nat :: b < |s.nodes| && b in s.up && b !in s.lost && i <= s.nodes[b].last ==>
                 Sane(s.nodes[b]) && s.nodes[b].log[i] == op
  {
    hide Sane, NodeInv, Reachable;
    ReachableInv(s);
    ShippedBounded(s, k);
    if s.primary in s.up {
      PrimaryHolds(s, s.shipped[k].0);
    }
    var i := s.shipped[k].0;
    forall b: nat | b < |s.nodes| && b in s.up && b !in s.lost && i <= s.nodes[b].last
      ensures Sane(s.nodes[b]) && i < |s.nodes[b].log| && s.nodes[b].log[i] == s.shipped[k].1
    {
      ShippedReached(s, b, k);
    }
  }

  lemma ShippedBounded(s: Cluster, k: nat)
    requires Inv(s) && k < |s.shipped|
    ensures s.shipped[k].0 < ShippedLength(s) <= |StepBase(s)| <= |s.ref| && s.ref[s.shipped[k].0] == s.shipped[k].1
  {
  }

  lemma PrimaryHolds(s: Cluster, i: nat)
    requires Inv(s) && i < |StepBase(s)| && s.primary in s.up
    ensures Sane(s.nodes[s.primary]) && Logical(s.nodes[s.primary]) == s.ref
    ensures s.phase.Sending? || !s.recheckAllow ==> i <= s.nodes[s.primary].committed
  {
  }

  lemma ShippedReached(s: Cluster, b: nat, k: nat)
    requires Inv(s) && k < |s.shipped| && b < |s.nodes| && b in s.up && b !in s.lost
    requires s.shipped[k].0 <= s.nodes[b].last
    ensures Sane(s.nodes[b]) && s.shipped[k].0 < |s.nodes[b].log| && s.nodes[b].log[s.shipped[k].0] == s.shipped[k].1
  {
    hide ApplyAll, Mirrored;
    assert NodeInv(s, b);
    var i := s.shipped[k].0;
    assert i < |StepBase(s)|;
    assert s.nodes[b].log[i] == Logical(s.nodes[b])[i];
    if b != s.primary && !(OrderPhase(s) && b !in Todo(s)) {
      assert Logical(s.nodes[b])[i] == s.high[i] == StepBase(s)[i];
    }
  }

  /** A surviving node whose log reaches past the last shipped order. */
  predicate CanTakeOver(s: Cluster, b: nat) {
    && b < |s.nodes| && b in s.up && b !in s.lost && b != s.primary
    && s.nodes[b].last + 1 >= ShippedLength(s)
  }

  ghost predicate HoldsShipped(s: Cluster, m: Node) {
    forall k :: 0 <= k < |s.shipped| ==>
      s.shipped[k].0 <= m.last && s.shipped[k].0 < |m.log| && m.log[s.shipped[k].0] == s.shipped[k].1
  }

  /** It is that number alone that decides whether a node holds every shipped order. */
  lemma SafeSuccessor(s: Cluster, b: nat)
    requires Inv(s) && b < |s.nodes| && b in s.up && b !in s.lost && b != s.primary
    ensures HoldsShipped(s, s.nodes[b]) <==> CanTakeOver(s, b)
  {
    hide Inv, Sane;
    NodeSane(s, b);
    SaneIndices(s.nodes[b]);
    forall k | 0 <= k < |s.shipped| && s.shipped[k].0 <= s.nodes[b].last
      ensures s.nodes[b].log[s.shipped[k].0] == s.shipped[k].1
    {
      ShippedReached(s, b, k);
    }
    forall k | 0 <= k < |s.shipped| ensures s.shipped[k].0 < ShippedLength(s) {
      ShippedBounded(s, k);
    }
  }

  // ---- crashes of the primary ----

  /** b's socket is open and b has been served since it was opened; in the send loop it may
      be waiting again, and then has all of the log the step builds on. */
  ghost predicate Settled(s: Cluster, b: nat) {
    && b in s.live && b !in s.lost && b < |s.nodes|
    && (b in Todo(s) ==> -1 <= s.nodes[b].last < |s.nodes[b].log| && Logical(s.nodes[b]) == StepBase(s))
  }

  lemma ServedIsSettled(s: Cluster, b: nat)
    requires Inv(s) && b in s.live && b !in Todo(s) && b !in s.lost
    ensures Settled(s, b)
  {
  }

  lemma SettledServed(s: Cluster, b: nat, acked: bool, cut: nat, any: Node)
    requires Inv(s) && Enabled(s, Deliver(b, acked, cut, any)) && Settled(s, b)
    requires b in AfterDeliver(s, b, acked, cut, any).live
    ensures Settled(AfterDeliver(s, b, acked, cut, any), b)
  {
    hide ApplyAll, Mirrored, Handle, Deliverable, TailServes;
    assert NodeInv(s, b);
    assert s.nodes[b].last == |StepBase(s)| - 1;
  }

  lemma SettledBegin(s: Cluster, op: MapOp, reached: set<nat>, b: nat)
    requires Inv(s) && Enabled(s, Begin(op, reached)) && Settled(s, b)
    ensures Settled(AfterBegin(s, op, reached), b)
  {
    hide ApplyAll, Mirrored, Write;
    assert NodeInv(s, b);
    var s' := AfterBegin(s, op, reached);
    if IsOrder(op) {
      assert s'.ref[..|s'.ref| - 1] == s.ref;
    }
  }

  lemma SettledOtherServed(s: Cluster, l: Label, b: nat)
    requires Enabled(s, l) && Settled(s, b) && b in Next(s, l).live
    requires l.Deliver? && l.b != b
    ensures Settled(Next(s, l), b)
  {
    hide Handle, Deliverable, Arriving, BadDelivery, IsOrder;
    assert b in Todo(Next(s, l)) <==> b in Todo(s);
    assert StepBase(Next(s, l)) == StepBase(s);
    assert Next(s, l).nodes[b] == s.nodes[b];
  }

  lemma SettledElse(s: Cluster, l: Label, b: nat)
    requires Enabled(s, l) && Settled(s, b) && b in Next(s, l).live && b in s.up && b != s.primary
    requires s.primary in s.up && s.primary < |s.nodes|
    requires !l.Begin? && !l.Deliver?
    ensures Settled(Next(s, l), b)
  {
    hide Restart, StaleFile, Overtaken, HasAnother, PrimaryCommit, RecheckCommit, IsOrder, Sync;
    if l.Restarted? {
      assert l.n != b;
    }
  }

  /** Nothing but the loss of the connection unsettles a backup. */
  lemma SettledStep(s: Cluster, l: Label, b: nat)
    requires Inv(s) && Enabled(s, l) && Settled(s, b) && b in Next(s, l).live
    ensures Settled(Next(s, l), b)
  {
    hide Inv, Enabled, Settled;
    SettledUp(s, b);
    if l.Deliver? && l.b == b {
      SettledServed(s, b, l.acked, l.cut, l.any);
    } else if l.Begin? {
      SettledBegin(s, l.op, l.reached, b);
    } else if l.Deliver? {
      SettledOtherServed(s, l, b);
    } else {
      SettledElse(s, l, b);
    }
  }

  lemma SettledUp(s: Cluster, b: nat)
    requires Inv(s) && Settled(s, b)
    ensures b in s.up && b != s.primary && s.primary in s.up && s.primary < |s.nodes|
  {
  }

  /** The primary may crash between two steps or anywhere inside one: a settled backup
      survives as it is, and holds every shipped order. */
  lemma SettledCrash(s: Cluster, b: nat)
    requires Inv(s) && Settled(s, b)
    ensures Enabled(s, Crash(s.primary))
    ensures var s' := AfterCrash(s, s.primary);
            && CanTakeOver(s', b) && Enabled(s', Promote(b))
            && s'.shipped == s.shipped && s'.nodes[b] == s.nodes[b]
  {
    hide ApplyAll, Mirrored, StaleFile;
    assert NodeInv(s, b);
    assert s.nodes[b].last + 1 >= |StepBase(s)|;
  }

  /** b's socket is open all through the run. */
  ghost predicate StaysConnected(s: Cluster, run: seq<Label>, b: nat)
    requires Legal(s, run)
    decreases |run|
  {
    b in s.live && (run != [] ==> StaysConnected(Next(s, run[0]), run[1..], b))
  }

  lemma {:induction false} SettledRun(s: Cluster, run: seq<Label>, b: nat)
    requires Inv(s) && Settled(s, b) && Legal(s, run) && StaysConnected(s, run, b)
    ensures Inv(After(s, run)) && Settled(After(s, run), b)
    decreases |run|
  {
    hide Inv, Enabled, Next, Settled;
    if run != [] {
      assert b in Next(s, run[0]).live by {
        assert StaysConnected(Next(s, run[0]), run[1..], b);
      }
      StepKeeps(s, run[0]);
      SettledStep(s, run[0], b);
      SettledRun(Next(s, run[0]), run[1..], b);
    }
  }

  /** Failover safety. Once a backup has been served, it stays undamaged for as long as its
      socket stays open, whatever else happens; and if the primary then crashes, anywhere in
      an admin step or between two, the backup can be promoted and every order shipped so
      far is in its log, at the same index. */
  lemma FailoverSafety(s: Cluster, run: seq<Label>, b: nat)
    requires Reachable(s) && b in s.live && b !in Todo(s) && b !in s.lost
    requires Legal(s, run) && StaysConnected(s, run, b)
    ensures var s1 := After(s, run);
            && Enabled(s1, Crash(s1.primary))
            && var s2 := AfterCrash(s1, s1.primary);
            && s2.shipped == s1.shipped
            && CanTakeOver(s2, b) && Enabled(s2, Promote(b)) && HoldsShipped(s2, s2.nodes[b])
  {
    hide Inv, Enabled, Next, Settled, After, Legal, StaysConnected, HoldsShipped, CanTakeOver;
    ReachableInv(s);
    ServedIsSettled(s, b);
    SettledRun(s, run, b);
    var s1 := After(s, run);
    SettledCrash(s1, b);
    assert s1.primary < |s1.nodes| by {
      SettledUp(s1, b);
    }
    CrashKeeps(s1, s1.primary);
    assert CanTakeOver(AfterCrash(s1, s1.primary), b);
    Successor(AfterCrash(s1, s1.primary), b);
  }

  lemma Successor(s: Cluster, b: nat)
    requires Inv(s) && CanTakeOver(s, b)
    ensures b < |s.nodes| && HoldsShipped(s, s.nodes[b])
  {
    hide Inv, HoldsShipped;
    SafeSuccessor(s, b);
  }

  // ---- promotion ----

  /** Every order shipped so far is in p's log, and committed there. */
  ghost predicate CommitsShipped(s: Cluster, p: Node) {
    forall k :: 0 <= k < |s.shipped| ==>
      s.shipped[k].0 <= p.committed < |p.log| && p.log[s.shipped[k].0] == s.shipped[k].1
  }

  /** The first admin step of a promoted node commits everything it holds before it takes a
      new order: its record is then the replay of its log; and every shipped order is among
      what it has committed if and only if its log reached past the last of them. */
  lemma PromotionRecovers(s: Cluster, b: nat, op: MapOp, reached: set<nat>)
    requires Reachable(s) && Enabled(s, Promote(b))
    requires Enabled(AfterPromote(s, b), Begin(op, reached))
    ensures b != s.primary && Sane(s.nodes[b])
    ensures var s' := AfterBegin(AfterPromote(s, b), op, reached);
            var p := s'.nodes[b];
            && p.committed == s.nodes[b].last < |p.log|
            && CommittedLog(p) == Logical(s.nodes[b])
            && p.record == Replay(Logical(s.nodes[b]))
            && (CommitsShipped(s, p) <==> CanTakeOver(s, b))
  {
    hide ApplyAll, Mirrored, Inv, Reachable, PrimaryAppend, AfterAppend, Sane;
    ReachableInv(s);
    assert b < |s.nodes|;
    NodeSane(s, b);
    var n := s.nodes[b];
    PromotedNode(n, op);
    SafeSuccessor(s, b);
    var p := AfterBegin(AfterPromote(s, b), op, reached).nodes[b];
    assert p == AfterAppend(Rechecked(n, true), op);
    SaneIndices(n);
    assert forall i :: 0 <= i <= n.last ==> p.log[i] == Logical(n)[i] == n.log[i];
  }

  lemma PromotedNode(n: Node, op: MapOp)
    requires Sane(n)
    ensures CanBegin(n, true, op)
    ensures var p := AfterAppend(Rechecked(n, true), op);
            && p.committed == n.last < |p.log|
            && CommittedLog(p) == Logical(n)
            && p.record == Replay(Logical(n))
            && forall i :: 0 <= i <= n.last ==> p.log[i] == Logical(n)[i]
  {
    hide ApplyAll, Mirrored, Write;
    RecheckSane(n);
    var p := AfterAppend(Rechecked(n, true), op);
    assert p.log[..n.last + 1] == n.log[..n.last + 1];
    forall i | 0 <= i <= n.last ensures p.log[i] == Logical(n)[i] {
      assert p.log[i] == p.log[..n.last + 1][i];
    }
  }

  /** A promotion forgets exactly the shipped orders behind the promoted node's last index. */
  lemma PromotionForgets(s: Cluster, b: nat)
    requires Reachable(s) && Enabled(s, Promote(b))
    ensures var kept := AfterPromote(s, b).shipped;
            && kept <= s.shipped
            && (forall k :: 0 <= k < |s.shipped| ==> (k < |kept| <==> s.shipped[k].0 <= s.nodes[b].last))
            && (kept == s.shipped <==> CanTakeOver(s, b))
  {
    hide Inv, Reachable, Overtaken, Within;
    ReachableInv(s);
    Shipments(s);
    WithinExact(s.shipped, s.nodes[b].last + 1);
    WithinWhole(s.shipped, s.nodes[b].last + 1);
  }

  lemma Shipments(s: Cluster)
    requires Inv(s)
    ensures s.primary < |s.nodes| && Ascending(s.shipped) && forall n :: n in s.up ==> n < |s.nodes|
  {
  }

  lemma WithinWhole(shipped: seq<(nat, MapOp)>, n: nat)
    requires Ascending(shipped)
    ensures Within(shipped, n) == shipped <==> LengthOf(shipped) <= n
  {
    WithinExact(shipped, n);
  }

  /** The last primary comes back from its log file alone: exactly the shipped orders behind the
      file's end are forgotten, or behind a peer's commit index if that is smaller and not 0. */
  lemma ResumeForgets(s: Cluster, fetched: int)
    requires Reachable(s) && s.primary !in s.up && s.primary !in s.lost && s.primary < |s.nodes| && fetched >= -1
    requires Restart(s.nodes[s.primary].wal.durable, fetched).Running?
    ensures var durable, s' := s.nodes[s.primary].wal.durable, AfterResume(s, fetched);
            var kept := if fetched != 0 && fetched < |durable| then fetched + 1 else |durable|;
            && durable <= s.ref
            && s'.primary == s.primary && s'.ref == s.ref[..kept]
            && s'.shipped <= s.shipped
            && (forall k :: 0 <= k < |s.shipped| ==> (k < |s'.shipped| <==> s.shipped[k].0 < kept))
            && (s'.shipped == s.shipped <==> ShippedLength(s) <= kept)
  {
    hide Inv, Reachable, Overtaken, Within, Restart, ApplyAll, Replay, Mirrored, Enabled;
    ReachableInv(s);
    Shipments(s);
    DeadPrimary(s);
    var durable := s.nodes[s.primary].wal.durable;
    RestartExact(durable, fetched);
    var m := Restart(durable, fetched).node;
    assert m.log[..m.last + 1] == s.ref[..m.last + 1];
    WithinExact(s.shipped, m.last + 1);
    WithinWhole(s.shipped, m.last + 1);
  }

  lemma ResumeCuts(s: Cluster, fetched: int)
    requires Enabled(s, Resume(fetched))
    ensures var s' := AfterResume(s, fetched);
            && s.primary < |s'.nodes| && -1 <= s'.nodes[s.primary].last
            && s'.shipped == Within(s.shipped, s'.nodes[s.primary].last + 1)
  {
    hide Restart, Overtaken, Within;
    RestartSane(s.nodes[s.primary].wal.durable, fetched);
  }

  lemma DeadPrimary(s: Cluster)
    requires Inv(s) && s.primary !in s.up && s.primary !in s.lost
    ensures s.primary < |s.nodes| && Shape(s) && s.nodes[s.primary].wal.durable <= s.ref
  {
    hide Sane, Tracks, InSync;
    assert NodeInv(s, s.primary);
  }

  /** Every node that becomes primary in the run, or comes back as primary, holds index i. */
  ghost predicate PromotesHolders(s: Cluster, run: seq<Label>, i: nat)
    requires Legal(s, run)
    decreases |run|
  {
    run != [] ==>
      && (run[0].Promote? ==> run[0].b < |s.nodes| && i <= s.nodes[run[0].b].last)
      && (run[0].Resume? ==> s.primary < |Next(s, run[0]).nodes| && i <= Next(s, run[0]).nodes[s.primary].last)
      && PromotesHolders(Next(s, run[0]), run[1..], i)
  }

  /** A shipped order stays where it is, whatever happens later, unless a node becomes primary
      whose log does not reach it. */
  lemma {:induction false} ShippedForever(s: Cluster, run: seq<Label>, k: nat)
    requires Inv(s) && Legal(s, run) && k < |s.shipped| && PromotesHolders(s, run, s.shipped[k].0)
    ensures var s' := After(s, run);
            var (i, op) := s.shipped[k];
            && k < |s'.shipped| && s'.shipped[k] == s.shipped[k]
            && i < |s'.ref| && s'.ref[i] == op
    decreases |run|
  {
    hide Inv, Enabled, Next;
    if run == [] {
      ShippedBounded(s, k);
    } else {
      StepKeeps(s, run[0]);
      ShippedStays(s, run[0], k);
      assert PromotesHolders(Next(s, run[0]), run[1..], s.shipped[k].0);
      ShippedForever(Next(s, run[0]), run[1..], k);
    }
  }

  lemma ShippedStays(s: Cluster, l: Label, k: nat)
    requires Inv(s) && Enabled(s, l) && k < |s.shipped|
    requires l.Promote? ==> s.shipped[k].0 <= s.nodes[l.b].last
    requires l.Resume? ==> s.shipped[k].0 <= Next(s, l).nodes[s.primary].last
    ensures k < |Next(s, l).shipped| && Next(s, l).shipped[k] == s.shipped[k]
  {
    hide Inv, Handle, Deliverable, Arriving, BadDelivery, Restart, StaleFile, Overtaken, ForkedBy, ForkedWaiting, Within;
    if l.Promote? {
      Shipments(s);
      WithinExact(s.shipped, s.nodes[l.b].last + 1);
    } else if l.Resume? {
      Shipments(s);
      ResumeCuts(s, l.fetched);
      WithinExact(s.shipped, Next(s, l).nodes[s.primary].last + 1);
    }
  }

  /** Reads after a shipment, failovers included: on any primary that has taken a step, and
      on any surviving node that has committed as far as the shipped order, a read of the
      customer returns the shipped order or a later one. */
  lemma ReadsSeeShipped(s: Cluster, n: nat, k: nat)
    requires Reachable(s) && k < |s.shipped| && n < |s.nodes| && n in s.up && n !in s.lost
    requires if n == s.primary then s.phase.Sending? || !s.recheckAllow else s.shipped[k].0 <= s.nodes[n].committed
    ensures Sane(s.nodes[n])
    ensures var (i, op) := s.shipped[k];
            WrittenSince(CommittedLog(s.nodes[n]), i, op.arg1, Lookup(s.nodes[n].record, op.arg1))
  {
    hide ApplyAll, Mirrored, Reachable, WrittenSince, Inv;
    ReachableInv(s);
    NodeSane(s, n);
    ShippedEverywhere(s, k);
    var (i, op) := s.shipped[k];
    assert CommittedLog(s.nodes[n])[i] == op;
    NewestIsSince(CommittedLog(s.nodes[n]), i, op.arg1);
  }
}
