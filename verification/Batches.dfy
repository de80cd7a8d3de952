/** The write-ahead logs of a running cluster: every file holds whole batches, so a crash costs
    a node at most the last BATCH_SIZE - 1 entries it wrote.
  */
module Batches {
  import opened RobotFactory
  import opened WalState
  import opened Replica
  import opened Cluster
  import opened ClusterProofs

  ghost predicate Batched(s: Cluster) {
    forall n: nat :: n < |s.nodes| && n !in s.lost ==> WholeBatches(CFG, s.nodes[n].wal)
  }

  lemma {:induction false} WriteAllBatched(w: Wal, ops: seq<MapOp>)
    requires WholeBatches(CFG, w)
    ensures WholeBatches(CFG, WriteAll(CFG, w, ops))
    decreases |ops|
  {
    hide WholeBatches;
    if ops != [] {
      WriteAllBatched(w, ops[..|ops| - 1]);
      StepKeepsWholeBatches(CFG, WriteAll(CFG, w, ops[..|ops| - 1]), WriteCall(ops[|ops| - 1]));
    }
  }

  lemma HandleBatched(n: Node, r: ReplReq, stream: seq<MapOp>)
    requires Deliverable(n, r) && WholeBatches(CFG, n.wal)
    ensures match Handle(n, r, stream) case Running(m, _) => WholeBatches(CFG, m.wal) case Terminated(w) => WholeBatches(CFG, w)
  {
    hide WholeBatches, Received, ApplyAll;
    if r.lastIndex - n.last > 1 {
      var log := Received(n.log, n.last, r.lastIndex - n.last, stream);
      ReceivedLength(n, r.lastIndex - n.last, stream);
      if |stream| >= r.lastIndex - n.last {
        WriteAllBatched(n.wal, log[n.last + 1..r.lastIndex + 1]);
      }
    } else {
      StepKeepsWholeBatches(CFG, n.wal, WriteCall(r.record));
      StepKeepsWholeBatches(CFG, Write(CFG, n.wal, r.record), SyncCall);
    }
  }

  lemma ReceivedLength(n: Node, need: nat, stream: seq<MapOp>)
    requires 0 <= n.last + 1 <= |n.log|
    ensures |Received(n.log, n.last, need, stream)| == |n.log| + Min(need, |stream|)
  {
  }

  lemma DownBatched(w: Wal)
    requires WholeBatches(CFG, w)
    ensures WholeBatches(CFG, Down(w).wal) && WholeBatches(CFG, Fresh(w.durable))
  {
  }

  lemma DeliverBatched(s: Cluster, b: nat, acked: bool, cut: nat, any: Node)
    requires Enabled(s, Deliver(b, acked, cut, any)) && Batched(s)
    ensures Batched(AfterDeliver(s, b, acked, cut, any))
  {
    hide WholeBatches, Handle, Deliverable, Arriving, BadDelivery;
    if b !in s.lost {
      var n, req := s.nodes[b], s.phase.req;
      var stream := Arriving(n, req, s.nodes[s.primary].log, cut);
      HandleBatched(n, req, stream);
      match Handle(n, req, stream)
      case Terminated(w) => DownBatched(w);
      case Running(_, _) =>
    }
  }

  lemma BeginBatched(s: Cluster, op: MapOp, reached: set<nat>)
    requires Enabled(s, Begin(op, reached)) && Batched(s) && s.primary !in s.lost
    ensures Batched(AfterBegin(s, op, reached))
  {
    hide WholeBatches, ForkedBy, Write;
    StepKeepsWholeBatches(CFG, s.nodes[s.primary].wal, WriteCall(op));
  }

  lemma RestartBatched(s: Cluster, n: nat, fetched: int)
    requires n < |s.nodes| && n !in s.lost && Batched(s)
    ensures Restart(s.nodes[n].wal.durable, fetched).Running? ==>
              WholeBatches(CFG, Restart(s.nodes[n].wal.durable, fetched).node.wal)
  {
    hide Restart;
    RestartSane(s.nodes[n].wal.durable, fetched);
    DownBatched(s.nodes[n].wal);
  }

  lemma StepBatched(s: Cluster, l: Label)
    requires Inv(s) && Enabled(s, l) && Batched(s)
    ensures Batched(Next(s, l))
  {
    hide Inv, WholeBatches, Handle, Deliverable, Arriving, BadDelivery, Restart, StaleFile, Overtaken, ForkedBy, ForkedWaiting;
    hide AfterBegin, AfterDeliver;
    InvShape(s);
    match l
    case ClientClosed(n) => if n !in s.lost { StepKeepsWholeBatches(CFG, s.nodes[n].wal, SyncCall); }
    case Begin(op, reached) => BeginBatched(s, op, reached);
    case Deliver(b, acked, cut, any) => DeliverBatched(s, b, acked, cut, any);
    case Crash(n) => if n !in s.lost { DownBatched(s.nodes[n].wal); }
    case Restarted(n, fetched, any) => if n !in s.lost { RestartBatched(s, n, fetched); }
    case Resume(fetched) => RestartBatched(s, s.primary, fetched);
    case _ =>
  }

  lemma {:induction false} RunBatched(s: Cluster, run: seq<Label>)
    requires Inv(s) && Legal(s, run) && Batched(s)
    ensures Batched(After(s, run))
    decreases |run|
  {
    hide Inv, Enabled, Next, Batched;
    if run != [] {
      StepKeeps(s, run[0]);
      StepBatched(s, run[0]);
      RunBatched(Next(s, run[0]), run[1..]);
    }
  }

  /** A log up to its last whole batch. */
  function Flushed(log: seq<MapOp>): seq<MapOp> {
    log[..|log| - |log| % BATCH_SIZE]
  }

  lemma BatchedFile(n: Node)
    requires Sane(n) && Tail(n) == [] && WholeBatches(CFG, n.wal)
    ensures n.wal.durable == Flushed(n.log)
  {
    hide ApplyAll;
    assert n.wal.durable + n.wal.pending == n.log by {
      assert All(n.wal) == n.wal.durable + n.wal.pending;
    }
    MultipleStep(|n.wal.durable|, BATCH_SIZE, |n.wal.pending|);
  }

  /** The file of an undamaged node without a tail is its log up to the last whole batch: if
      the node dies now, it recovers all but its newest |log| % BATCH_SIZE entries. */
  lemma NodeLossBound(s: Cluster, n: nat)
    requires Reachable(s) && n < |s.nodes| && n in s.up && n !in s.lost
    ensures Sane(s.nodes[n])
    ensures Tail(s.nodes[n]) == [] ==> s.nodes[n].wal.durable == Flushed(s.nodes[n].log)
  {
    hide Inv, Legal, After, Sane, Initial;
    var s0, run :| Initial(s0) && Legal(s0, run) && After(s0, run) == s;
    InitialInv(s0);
    RunKeeps(s0, run);
    InitialBatched(s0);
    RunBatched(s0, run);
    UpNodeSane(s, n);
    if Tail(s.nodes[n]) == [] {
      BatchedFile(s.nodes[n]);
    }
  }

  lemma InitialBatched(s: Cluster)
    requires Initial(s)
    ensures Batched(s)
  {
    assert WholeBatches(CFG, EMPTY_NODE.wal);
  }

  lemma UpNodeSane(s: Cluster, n: nat)
    requires Inv(s) && n < |s.nodes| && n in s.up && n !in s.lost
    ensures Sane(s.nodes[n]) && -1 <= s.nodes[n].last < |s.nodes[n].log|
  {
    assert NodeInv(s, n);
  }
}
