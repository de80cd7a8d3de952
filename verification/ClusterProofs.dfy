/** The invariant of the replication protocol and its preservation by every step. */
module ClusterProofs {
  import opened RobotFactory
  import opened WalState
  import opened Replica
  import opened Cluster

  /** One more than the index of the last shipped order. */
  function ShippedLength(s: Cluster): nat {
    LengthOf(s.shipped)
  }

  function LengthOf(shipped: seq<(nat, MapOp)>): nat {
    if shipped == [] then 0 else shipped[|shipped| - 1].0 + 1
  }

  ghost predicate Ascending(shipped: seq<(nat, MapOp)>) {
    && (forall j, k :: 0 <= j < k < |shipped| ==> shipped[j].0 < shipped[k].0)
    && (forall k :: 0 <= k < |shipped| ==> shipped[k].0 < LengthOf(shipped))
  }

  /** A promotion keeps exactly the shipped orders that the promoted node's log reaches. */
  lemma {:induction false} WithinExact(shipped: seq<(nat, MapOp)>, n: nat)
    requires Ascending(shipped)
    ensures var kept := Within(shipped, n);
            && kept <= shipped && Ascending(kept) && LengthOf(kept) <= n
            && forall k :: 0 <= k < |shipped| ==> (k < |kept| <==> shipped[k].0 < n)
  {
    if shipped != [] && shipped[|shipped| - 1].0 >= n {
      var rest := shipped[..|shipped| - 1];
      forall k | 0 <= k < |rest| ensures rest[k].0 <= rest[|rest| - 1].0 {
        assert rest[k] == shipped[k] && rest[|rest| - 1] == shipped[|rest| - 1];
      }
      assert Ascending(rest);
      WithinExact(rest, n);
      assert Within(shipped, n) == Within(rest, n);
    }
  }

  ghost predicate Shape(s: Cluster) {
    && s.primary < |s.nodes|
    && (forall n: nat :: n in s.up ==> n < |s.nodes|)
    && s.live <= s.up && s.primary !in s.live
    && Todo(s) <= s.live
    && (s.primary !in s.up ==> s.phase == Idle && s.live == {})
    && (s.primary in s.up ==> s.primary !in s.lost)
  }

  /** The log the current step, if any, builds on. */
  function StepBase(s: Cluster): seq<MapOp> {
    if OrderPhase(s) && s.ref != [] then s.ref[..|s.ref| - 1] else s.ref
  }

  ghost predicate History(s: Cluster) {
    && (OrderPhase(s) ==> s.ref != [])
    && StepBase(s) <= s.high && |s.high| <= |StepBase(s)| + 1
    && ShippedLength(s) <= |StepBase(s)|
    && Ascending(s.shipped)
    && forall k :: 0 <= k < |s.shipped| ==> s.ref[s.shipped[k].0] == s.shipped[k].1
  }

  ghost predicate PrimaryInv(s: Cluster)
    requires s.primary < |s.nodes|
  {
    var p := s.nodes[s.primary];
    s.primary in s.up ==>
      && Sane(p) && Logical(p) == s.ref
      && match s.phase
         case Idle =>
           && (s.recheckAllow || p.committed == p.last)
           && (s.live != {} ==> p.committed == p.last && p.last - 1 <= s.sent <= p.last)
         case Sending(req, _) => RequestOf(s.ref, req) && req.committedIndex == p.committed == s.sent
  }

  /** What an up node other than the primary may hold. */
  ghost predicate Tracks(s: Cluster, n: nat)
    requires n < |s.nodes| && Sane(s.nodes[n])
  {
    var m := s.nodes[n];
    if OrderPhase(s) && n !in Todo(s) then Logical(m) <= s.ref
    else Logical(m) <= s.high && (|Logical(m)| > |StepBase(s)| ==> m.committed < |StepBase(s)|)
  }

  ghost predicate NodeInv(s: Cluster, n: nat)
    requires n < |s.nodes|
  {
    var m := s.nodes[n];
    n !in s.lost && !(n == s.primary && n in s.up) ==>
      if n in s.up then
        && Sane(m)
        && Tracks(s, n)
        && (n in s.live && n !in Todo(s) ==> InSync(m, s.ref, s.sent))
      else m.wal.durable <= s.ref
  }

  ghost predicate Inv(s: Cluster) {
    && Shape(s)
    && History(s)
    && PrimaryInv(s)
    && forall n: nat :: n < |s.nodes| ==> NodeInv(s, n)
  }

  lemma InvShape(s: Cluster)
    requires Inv(s)
    ensures Shape(s)
  {
  }

  lemma InitialInv(s: Cluster)
    requires Initial(s)
    ensures Inv(s)
  {
    hide Sane, ApplyAll;
    EmptySane();
    forall n: nat | n < |s.nodes| ensures NodeInv(s, n) {
      assert s.nodes[n] == EMPTY_NODE;
    }
  }

  lemma EmptySane()
    ensures Sane(EMPTY_NODE) && Logical(EMPTY_NODE) == []
  {
  }

  // ---- no undefined behaviour ----

  lemma TracksFollows(s: Cluster, n: nat)
    requires Inv(s) && s.phase.Sending? && n in s.phase.todo && n !in s.lost
    ensures n < |s.nodes| && Sane(s.nodes[n]) && Follows(s.nodes[n], Base(s.ref, s.phase.req))
  {
    assert NodeInv(s, n);
    assert Base(s.ref, s.phase.req) == StepBase(s);
    var m := s.nodes[n];
    var base := StepBase(s);
    if |Logical(m)| <= |base| {
      assert Logical(m) == s.high[..|Logical(m)|] == base[..|Logical(m)|];
    } else {
      assert Logical(m) == s.high;
    }
  }

  /** No insert position is ever past the end of a vector, and neither recheckcommit nor a
      promotion meets an index without an entry. */
  lemma NothingUndefined(s: Cluster)
    requires Inv(s)
    ensures s.phase == Idle && s.primary in s.up ==> forall op :: CanBegin(s.nodes[s.primary], s.recheckAllow, op)
    ensures s.phase.Sending? ==> forall b | b in s.phase.todo && b !in s.lost :: b < |s.nodes| && Deliverable(s.nodes[b], s.phase.req)
    ensures forall b | b in s.up - s.lost :: CanPromote(s, b)
  {
    if s.phase.Sending? {
      forall b | b in s.phase.todo && b !in s.lost
        ensures b < |s.nodes| && Deliverable(s.nodes[b], s.phase.req)
      {
        TracksFollows(s, b);
        DeliveryOutcome(s.nodes[b], s.ref, [], s.phase.req, 0);
      }
    }
    forall b | b in s.up - s.lost ensures CanPromote(s, b) {
      assert b < |s.nodes| && NodeInv(s, b);
    }
  }

  // ---- each step ----

  lemma RecheckSane(p: Node)
    requires Sane(p)
    ensures RecheckCommit(p).Running?
    ensures var p' := RecheckCommit(p).node; Sane(p') && p'.log == p.log && p'.last == p'.committed == p.last && p'.wal == p.wal
  {
    if p.last > p.committed {
      ReplayNext(p.log, p.last);
    }
  }

  lemma AppendSane(p: Node, op: MapOp)
    requires Sane(p) && p.committed == p.last
    ensures var p' := PrimaryAppend(p, op);
            && Sane(p') && Logical(p') == Logical(p) + [op]
            && p'.last == p.last + 1 && p'.committed == p.committed && Tail(p') == Tail(p)
  {
    hide ApplyAll, Write;
    var p' := PrimaryAppend(p, op);
    assert p'.log == Logical(p) + [op] + Tail(p);
    assert p'.log[..p.committed + 1] == p.log[..p.committed + 1];
    StepConserves(CFG, p.wal, WriteCall(op));
    if Tail(p) == [] {
      assert p'.log == p.log + [op];
    }
  }

  lemma CommitSane(p: Node)
    requires Sane(p) && p.committed + 1 == p.last
    ensures var p' := PrimaryCommit(p, p.log[p.last]);
            Sane(p') && p'.log == p.log && p'.last == p.last == p'.committed
  {
    ReplayNext(p.log, p.last);
  }

  lemma BeginShape(s: Cluster, op: MapOp, reached: set<nat>)
    requires Inv(s) && Enabled(s, Begin(op, reached))
    ensures var s' := AfterBegin(s, op, reached); Shape(s') && History(s')
  {
    hide Sane, Write, NodeInv, PrimaryInv, ForkedBy, RecheckCommit;
    ForkedSubset(s, op, s.live + reached);
  }

  lemma BeginPrimary(s: Cluster, op: MapOp, reached: set<nat>)
    requires Inv(s) && Enabled(s, Begin(op, reached))
    ensures s.primary < |s.nodes| && PrimaryInv(AfterBegin(s, op, reached))
  {
    hide ApplyAll, Write, Mirrored, NodeInv, ForkedBy, Shape, History;
    var p := s.nodes[s.primary];
    RecheckSane(p);
    var p1 := Rechecked(p, s.recheckAllow);
    assert Sane(p1) && p1.log == p.log && p1.last == p.last == p1.committed;
    if IsOrder(op) {
      AppendSane(p1, op);
    }
  }

  lemma ForkedSubset(s: Cluster, op: MapOp, served: set<nat>)
    requires s.primary < |s.nodes|
    ensures s.primary !in ForkedBy(s, op, served)
  {
  }

  lemma BeginNode(s: Cluster, op: MapOp, reached: set<nat>, n: nat)
    requires Inv(s) && Enabled(s, Begin(op, reached)) && n < |s.nodes|
    ensures NodeInv(AfterBegin(s, op, reached), n)
  {
    hide ApplyAll, Write, Mirrored, ShippedLength, Ascending;
    assert NodeInv(s, n);
    if n != s.primary {
      assert AfterBegin(s, op, reached).nodes[n] == s.nodes[n];
    }
  }

  lemma BeginKeeps(s: Cluster, op: MapOp, reached: set<nat>)
    requires Inv(s) && Enabled(s, Begin(op, reached))
    ensures Inv(AfterBegin(s, op, reached))
  {
    hide NodeInv, Shape, History, PrimaryInv;
    BeginShape(s, op, reached);
    BeginPrimary(s, op, reached);
    forall n: nat | n < |s.nodes| ensures NodeInv(AfterBegin(s, op, reached), n) {
      BeginNode(s, op, reached, n);
    }
  }

  /** How much of the log a node must not exceed to be a prefix of it for sure. */
  function BaseLength(s: Cluster, n: nat): int {
    if OrderPhase(s) && n in Todo(s) then |s.ref| - 1 else |s.ref|
  }

  /** The file of a node without a tail is a prefix of its log, so of the primary's as far as
      the two logs agree for sure. */
  lemma FileIsPrefix(s: Cluster, n: nat)
    requires Inv(s) && n < |s.nodes| && n in s.up && n !in s.lost
    requires s.nodes[n].last + 1 == |s.nodes[n].log| && |s.nodes[n].wal.durable| <= BaseLength(s, n)
    ensures !StaleFile(s, n)
  {
    hide ApplyAll;
    assert NodeInv(s, n);
    var m := s.nodes[n];
    assert m.wal.durable <= All(m.wal) == m.log == Logical(m);
    if n != s.primary && !(OrderPhase(s) && n !in Todo(s)) {
      assert m.wal.durable <= s.high;
      assert m.wal.durable == s.high[..|m.wal.durable|] == StepBase(s)[..|m.wal.durable|];
    }
  }

  /** The parts of the invariant that one turn of the send loop leaves alone. */
  lemma TurnFrame(s: Cluster, s': Cluster)
    requires s.primary < |s.nodes| && History(s) && PrimaryInv(s)
    requires s.phase.Sending? && s'.phase.Sending? && s'.phase.req == s.phase.req
    requires s'.primary == s.primary < |s'.nodes| && s'.nodes[s.primary] == s.nodes[s.primary]
    requires s.primary in s.up && s.primary in s'.up
    requires s'.ref == s.ref && s'.high == s.high && s'.shipped == s.shipped && s'.sent == s.sent
    ensures History(s') && PrimaryInv(s')
  {
    hide Sane, RequestOf;
  }

  lemma DeliverShape(s: Cluster, b: nat, acked: bool, cut: nat, any: Node)
    requires Inv(s) && Enabled(s, Deliver(b, acked, cut, any))
    ensures var s' := AfterDeliver(s, b, acked, cut, any); Shape(s') && History(s') && PrimaryInv(s')
  {
    hide History, PrimaryInv, NodeInv, Handle, Deliverable, Arriving, BadDelivery;
    TurnFrame(s, AfterDeliver(s, b, acked, cut, any));
  }

  lemma DeliverToLostNode(s: Cluster, b: nat, acked: bool, cut: nat, any: Node, n: nat)
    requires Inv(s) && Enabled(s, Deliver(b, acked, cut, any)) && b in s.lost && n < |s.nodes|
    ensures NodeInv(AfterDeliver(s, b, acked, cut, any), n)
  {
    hide Consistent, Mirrored, Handle, Deliverable, Arriving, BadDelivery;
    assert NodeInv(s, n);
  }

  lemma DeliverToLostKeeps(s: Cluster, b: nat, acked: bool, cut: nat, any: Node)
    requires Inv(s) && Enabled(s, Deliver(b, acked, cut, any)) && b in s.lost
    ensures Inv(AfterDeliver(s, b, acked, cut, any))
  {
    hide Shape, History, PrimaryInv, Sane, Handle, Deliverable, Arriving, BadDelivery;
    DeliverShape(s, b, acked, cut, any);
    forall n: nat | n < |s.nodes| ensures NodeInv(AfterDeliver(s, b, acked, cut, any), n) {
      DeliverToLostNode(s, b, acked, cut, any, n);
    }
  }

  lemma DeliveryHere(s: Cluster, b: nat, cut: nat)
    requires Inv(s) && s.phase.Sending? && b in s.phase.todo && b !in s.lost
    ensures b < |s.nodes| && Deliverable(s.nodes[b], s.phase.req)
    ensures var n, req := s.nodes[b], s.phase.req;
            var stream := Arriving(n, req, s.nodes[s.primary].log, cut);
            var o := Handle(n, req, stream);
            && (o.Terminated? ==> n.last < req.lastIndex && o.wal == n.wal)
            && (o.Running? && !BadDelivery(n, s.ref, req, stream) ==> InSync(o.node, s.ref, req.committedIndex))
  {
    hide ApplyAll, Handle, Deliverable, Arriving, BadDelivery, InSync;
    TracksFollows(s, b);
    var p := s.nodes[s.primary];
    assert p.log == s.ref + Tail(p);
    DeliveryOutcome(s.nodes[b], s.ref, Tail(p), s.phase.req, cut);
  }

  lemma DeliverKillsSelf(s: Cluster, b: nat, acked: bool, cut: nat, any: Node)
    requires Inv(s) && Enabled(s, Deliver(b, acked, cut, any)) && b !in s.lost
    requires Handle(s.nodes[b], s.phase.req, Arriving(s.nodes[b], s.phase.req, s.nodes[s.primary].log, cut))
          == Terminated(s.nodes[b].wal)
    requires s.nodes[b].last < s.phase.req.lastIndex
    ensures NodeInv(AfterDeliver(s, b, acked, cut, any), b)
  {
    hide ApplyAll, Handle, Deliverable, Arriving, BadDelivery, Mirrored, History, PrimaryInv, InSync, Logical, StepBase;
    assert NodeInv(s, b);
  }

  lemma DeliverKillsOther(s: Cluster, b: nat, acked: bool, cut: nat, any: Node, n: nat)
    requires Inv(s) && Enabled(s, Deliver(b, acked, cut, any)) && b !in s.lost && n < |s.nodes| && n != b
    requires Handle(s.nodes[b], s.phase.req, Arriving(s.nodes[b], s.phase.req, s.nodes[s.primary].log, cut))
          == Terminated(s.nodes[b].wal)
    ensures NodeInv(AfterDeliver(s, b, acked, cut, any), n)
  {
    hide Sane, InSync, Handle, Deliverable, Arriving, BadDelivery, History, PrimaryInv;
    assert NodeInv(s, n);
    assert AfterDeliver(s, b, acked, cut, any).nodes[n] == s.nodes[n];
  }

  lemma DeliverKillsKeeps(s: Cluster, b: nat, acked: bool, cut: nat, any: Node)
    requires Inv(s) && Enabled(s, Deliver(b, acked, cut, any)) && b !in s.lost
    requires Handle(s.nodes[b], s.phase.req, Arriving(s.nodes[b], s.phase.req, s.nodes[s.primary].log, cut))
          == Terminated(s.nodes[b].wal)
    requires s.nodes[b].last < s.phase.req.lastIndex
    ensures Inv(AfterDeliver(s, b, acked, cut, any))
  {
    hide Shape, History, PrimaryInv, Sane, InSync, Handle, Deliverable, Arriving, BadDelivery, NodeInv;
    DeliverShape(s, b, acked, cut, any);
    forall n: nat | n < |s.nodes| ensures NodeInv(AfterDeliver(s, b, acked, cut, any), n) {
      if n == b {
        DeliverKillsSelf(s, b, acked, cut, any);
      } else {
        DeliverKillsOther(s, b, acked, cut, any, n);
      }
    }
  }

  /** The delivery of the current request to b returns, and unless it was bad b is in sync. */
  ghost predicate HandledWell(s: Cluster, b: nat, cut: nat)
    requires s.phase.Sending? && b < |s.nodes| && s.primary < |s.nodes| && Deliverable(s.nodes[b], s.phase.req)
  {
    var stream := Arriving(s.nodes[b], s.phase.req, s.nodes[s.primary].log, cut);
    var o := Handle(s.nodes[b], s.phase.req, stream);
    && o.Running?
    && (!BadDelivery(s.nodes[b], s.ref, s.phase.req, stream) ==> InSync(o.node, s.ref, s.phase.req.committedIndex))
  }

  lemma DeliverHandledSelf(s: Cluster, b: nat, acked: bool, cut: nat, any: Node)
    requires Inv(s) && Enabled(s, Deliver(b, acked, cut, any)) && b !in s.lost && HandledWell(s, b, cut)
    ensures NodeInv(AfterDeliver(s, b, acked, cut, any), b)
  {
    hide ApplyAll, Handle, Deliverable, Arriving, BadDelivery, Mirrored;
    assert NodeInv(s, b);
  }

  lemma DeliverHandledOther(s: Cluster, b: nat, acked: bool, cut: nat, any: Node, n: nat)
    requires Inv(s) && Enabled(s, Deliver(b, acked, cut, any)) && b !in s.lost && HandledWell(s, b, cut)
    requires n < |s.nodes| && n != b
    ensures NodeInv(AfterDeliver(s, b, acked, cut, any), n)
  {
    hide Sane, InSync, Handle, Deliverable, Arriving, BadDelivery;
    assert NodeInv(s, n);
    assert AfterDeliver(s, b, acked, cut, any).nodes[n] == s.nodes[n];
  }

  lemma DeliverHandledKeeps(s: Cluster, b: nat, acked: bool, cut: nat, any: Node)
    requires Inv(s) && Enabled(s, Deliver(b, acked, cut, any)) && b !in s.lost && HandledWell(s, b, cut)
    ensures Inv(AfterDeliver(s, b, acked, cut, any))
  {
    hide Shape, History, PrimaryInv, Sane, InSync, Handle, Deliverable, Arriving, BadDelivery, NodeInv;
    DeliverShape(s, b, acked, cut, any);
    forall n: nat | n < |s.nodes| ensures NodeInv(AfterDeliver(s, b, acked, cut, any), n) {
      if n == b {
        DeliverHandledSelf(s, b, acked, cut, any);
      } else {
        DeliverHandledOther(s, b, acked, cut, any, n);
      }
    }
  }

  lemma DeliverKeeps(s: Cluster, b: nat, acked: bool, cut: nat, any: Node)
    requires Inv(s) && Enabled(s, Deliver(b, acked, cut, any))
    ensures Inv(AfterDeliver(s, b, acked, cut, any))
  {
    hide Inv, Handle, Deliverable, Arriving, BadDelivery, InSync;
    var stream := Arriving(s.nodes[b], s.phase.req, s.nodes[s.primary].log, cut);
    if b in s.lost {
      DeliverToLostKeeps(s, b, acked, cut, any);
    } else {
      DeliveryHere(s, b, cut);
      if Handle(s.nodes[b], s.phase.req, stream).Terminated? {
        DeliverKillsKeeps(s, b, acked, cut, any);
      } else {
        DeliverHandledKeeps(s, b, acked, cut, any);
      }
    }
  }

  lemma DropNode(s: Cluster, b: nat, n: nat)
    requires Inv(s) && Enabled(s, Drop(b)) && n < |s.nodes|
    ensures NodeInv(AfterDrop(s, b), n)
  {
    hide ApplyAll, Mirrored;
    assert NodeInv(s, n);
  }

  lemma DropKeeps(s: Cluster, b: nat)
    requires Inv(s) && Enabled(s, Drop(b))
    ensures Inv(AfterDrop(s, b))
  {
    hide History, PrimaryInv, NodeInv;
    TurnFrame(s, AfterDrop(s, b));
    forall n: nat | n < |s.nodes| ensures NodeInv(AfterDrop(s, b), n) {
      DropNode(s, b, n);
    }
  }

  lemma FinishPrimary(s: Cluster)
    requires Inv(s) && Enabled(s, Finish)
    ensures s.primary < |s.nodes| && PrimaryInv(AfterFinish(s))
  {
    hide ApplyAll, Mirrored, NodeInv, History;
    var p := s.nodes[s.primary];
    if OrderPhase(s) {
      assert p.log[p.last] == Logical(p)[p.last] == s.phase.req.record;
      CommitSane(p);
    }
  }

  lemma FinishShape(s: Cluster)
    requires Inv(s) && Enabled(s, Finish)
    ensures Shape(AfterFinish(s)) && History(AfterFinish(s))
  {
    hide Sane, NodeInv;
    assert Shape(AfterFinish(s)) by {
      hide History, PrimaryInv;
    }
    assert History(AfterFinish(s)) by {
      hide Shape;
    }
  }

  lemma FinishNode(s: Cluster, n: nat)
    requires Inv(s) && Enabled(s, Finish) && n < |s.nodes|
    ensures NodeInv(AfterFinish(s), n)
  {
    hide ApplyAll, Mirrored;
    assert NodeInv(s, n);
  }

  lemma FinishKeeps(s: Cluster)
    requires Inv(s) && Enabled(s, Finish)
    ensures Inv(AfterFinish(s))
  {
    hide Shape, History, PrimaryInv, NodeInv;
    FinishPrimary(s);
    FinishShape(s);
    forall n: nat | n < |s.nodes| ensures NodeInv(AfterFinish(s), n) {
      FinishNode(s, n);
    }
  }

  lemma BackupCrashNode(s: Cluster, n: nat, i: nat)
    requires Inv(s) && Enabled(s, Crash(n)) && n != s.primary && i < |s.nodes|
    ensures NodeInv(AfterCrash(s, n), i)
  {
    hide ApplyAll, Mirrored;
    assert NodeInv(s, i);
    if i != n {
      assert AfterCrash(s, n).nodes[i] == s.nodes[i];
    }
  }

  lemma BackupCrashKeeps(s: Cluster, n: nat)
    requires Inv(s) && Enabled(s, Crash(n)) && n != s.primary
    ensures Inv(AfterCrash(s, n))
  {
    hide Sane, NodeInv;
    forall i: nat | i < |s.nodes| ensures NodeInv(AfterCrash(s, n), i) {
      BackupCrashNode(s, n, i);
    }
  }

  lemma PrimaryCrashNode(s: Cluster, i: nat)
    requires Inv(s) && Enabled(s, Crash(s.primary)) && i < |s.nodes|
    ensures NodeInv(AfterCrash(s, s.primary), i)
  {
    hide ApplyAll, Mirrored;
    assert NodeInv(s, i);
    if i != s.primary {
      assert AfterCrash(s, s.primary).nodes[i] == s.nodes[i];
    }
  }

  lemma PrimaryCrashKeeps(s: Cluster)
    requires Inv(s) && Enabled(s, Crash(s.primary))
    ensures Inv(AfterCrash(s, s.primary))
  {
    hide Sane, NodeInv;
    forall i: nat | i < |s.nodes| ensures NodeInv(AfterCrash(s, s.primary), i) {
      PrimaryCrashNode(s, i);
    }
  }

  lemma CrashKeeps(s: Cluster, n: nat)
    requires Inv(s) && Enabled(s, Crash(n))
    ensures Inv(AfterCrash(s, n))
  {
    if n == s.primary {
      PrimaryCrashKeeps(s);
    } else {
      BackupCrashKeeps(s, n);
    }
  }

  /** What is left of the invariant while nobody is primary, with b up and ready to be. */
  ghost predicate Vacant(s: Cluster, b: nat) {
    && s.primary < |s.nodes| && b < |s.nodes| && b in s.up && b !in s.lost
    && (forall n: nat :: n in s.up ==> n < |s.nodes|)
    && s.phase == Idle && s.live == {}
    && History(s)
    && Sane(s.nodes[b]) && Tracks(s, b)
    && forall n: nat :: n < |s.nodes| && n != b ==> NodeInv(s, n) && !(n == s.primary && n in s.up)
  }

  lemma PromoteNode(s: Cluster, b: nat, n: nat)
    requires Vacant(s, b) && n < |s.nodes|
    ensures NodeInv(AfterPromote(s, b), n)
  {
    hide ApplyAll, Mirrored, Within, Ascending, LengthOf;
    if n != b {
      assert NodeInv(s, n);
    }
  }

  lemma PromoteShape(s: Cluster, b: nat)
    requires Vacant(s, b)
    ensures Shape(AfterPromote(s, b)) && History(AfterPromote(s, b)) && PrimaryInv(AfterPromote(s, b))
  {
    hide ApplyAll, Mirrored, NodeInv, Within, Overtaken;
    WithinExact(s.shipped, s.nodes[b].last + 1);
    var s' := AfterPromote(s, b);
    assert b !in s'.lost by { NotOvertaken(s, b); }
    assert History(s') by { PromoteHistory(s, b); }
  }

  lemma NotOvertaken(s: Cluster, b: nat)
    requires b < |s.nodes|
    ensures b !in Overtaken(s, b)
  {
  }

  lemma PromoteHistory(s: Cluster, b: nat)
    requires Vacant(s, b)
    ensures History(AfterPromote(s, b))
  {
    hide ApplyAll, Consistent, Mirrored, NodeInv, Within, Overtaken, Ascending, LengthOf;
    SaneIndices(s.nodes[b]);
    WithinExact(s.shipped, s.nodes[b].last + 1);
    var s' := AfterPromote(s, b);
    assert s'.ref <= s.high && s'.ref == Logical(s.nodes[b]);
    forall k | 0 <= k < |s'.shipped| ensures s'.ref[s'.shipped[k].0] == s'.shipped[k].1 {
      var i := s.shipped[k].0;
      assert s'.shipped[k] == s.shipped[k] && i < |s'.ref|;
      ShippedBase(s, k);
      assert s'.ref[i] == s.high[i] == StepBase(s)[i];
    }
  }

  lemma SaneIndices(m: Node)
    requires Sane(m)
    ensures -1 <= m.committed <= m.last < |m.log|
  {
  }

  lemma ShippedBase(s: Cluster, k: nat)
    requires History(s) && k < |s.shipped|
    ensures s.shipped[k].0 < |StepBase(s)| <= |s.ref| && s.ref[s.shipped[k].0] == s.shipped[k].1
    ensures StepBase(s)[s.shipped[k].0] == s.shipped[k].1
  {
  }

  lemma TakeOverKeeps(s: Cluster, b: nat)
    requires Vacant(s, b)
    ensures CanPromote(s, b) && Inv(AfterPromote(s, b))
  {
    hide Shape, History, PrimaryInv, NodeInv;
    PromoteShape(s, b);
    forall n: nat | n < |s.nodes| ensures NodeInv(AfterPromote(s, b), n) {
      PromoteNode(s, b, n);
    }
  }

  lemma PromoteKeeps(s: Cluster, b: nat)
    requires Inv(s) && Enabled(s, Promote(b))
    ensures Inv(AfterPromote(s, b))
  {
    hide Sane, Tracks, History, PrimaryInv;
    assert NodeInv(s, b);
    TakeOverKeeps(s, b);
  }

  lemma ComeUp(s: Cluster, n: nat, m: Node)
    requires Inv(s) && n < |s.nodes| && n !in s.up && n != s.primary
    requires n !in s.lost ==> Sane(m) && Logical(m) <= s.ref
    ensures Inv(CameUp(s, n, m))
  {
    hide ApplyAll, Mirrored;
    var s' := CameUp(s, n, m);
    forall i: nat | i < |s'.nodes| ensures NodeInv(s', i) {
      assert NodeInv(s, i);
    }
  }

  lemma RestartKeeps(s: Cluster, n: nat, fetched: int, any: Node)
    requires Inv(s) && Enabled(s, Restarted(n, fetched, any))
    ensures Inv(AfterRestart(s, n, fetched, any))
  {
    hide ApplyAll, Restart, Mirrored;
    assert NodeInv(s, n);
    if n in s.lost {
      ComeUp(s, n, any);
    } else {
      var durable := s.nodes[n].wal.durable;
      RestartSane(durable, fetched);
      match Restart(durable, fetched)
      case Terminated(_) =>
      case Running(m, _) => ComeUp(s, n, m);
    }
  }

  /** A restarted primary: everybody else is as it was. */
  lemma ResumeVacant(s: Cluster, m: Node)
    requires Inv(s) && s.primary !in s.up && s.primary !in s.lost
    requires Sane(m) && Logical(m) <= s.ref
    ensures s.primary < |s.nodes| && Vacant(CameUp(s, s.primary, m), s.primary)
  {
    hide ApplyAll, Consistent, Mirrored;
    SaneIndices(m);
    var s' := CameUp(s, s.primary, m);
    forall n: nat | n < |s.nodes| && n != s.primary ensures NodeInv(s', n) {
      assert NodeInv(s, n);
    }
  }

  lemma ResumeKeeps(s: Cluster, fetched: int)
    requires Inv(s) && Enabled(s, Resume(fetched))
    ensures Inv(AfterResume(s, fetched))
  {
    hide ApplyAll, Restart, Mirrored, Vacant, AfterPromote, CameUp;
    assert NodeInv(s, s.primary);
    var durable := s.nodes[s.primary].wal.durable;
    RestartSane(durable, fetched);
    var m := Restart(durable, fetched).node;
    ResumeVacant(s, m);
    TakeOverKeeps(CameUp(s, s.primary, m), s.primary);
  }

  lemma StrayKeeps(s: Cluster, n: nat, any: Node)
    requires Inv(s) && Enabled(s, Stray(n, any))
    ensures Inv(s.(nodes := s.nodes[n := any]))
  {
    hide ApplyAll, Mirrored;
    var s' := s.(nodes := s.nodes[n := any]);
    forall i: nat | i < |s'.nodes| ensures NodeInv(s', i) {
      assert NodeInv(s, i);
    }
  }

  lemma SyncSane(n: Node)
    requires Sane(n)
    ensures Sane(n.(wal := Sync(n.wal)))
  {
    StepConserves(CFG, n.wal, SyncCall);
  }

  lemma ClosedNode(s: Cluster, n: nat, i: nat)
    requires Inv(s) && Enabled(s, ClientClosed(n)) && i < |s.nodes|
    ensures NodeInv(AfterClose(s, n), i)
  {
    hide ApplyAll, Mirrored, Sync;
    assert NodeInv(s, i);
    if i == n && n !in s.lost {
      SyncSane(s.nodes[n]);
    }
  }

  lemma ClosedShape(s: Cluster, n: nat)
    requires Inv(s) && Enabled(s, ClientClosed(n))
    ensures Shape(AfterClose(s, n)) && History(AfterClose(s, n)) && PrimaryInv(AfterClose(s, n))
  {
    hide ApplyAll, Mirrored, Sync, NodeInv;
    if n == s.primary {
      SyncSane(s.nodes[n]);
    }
  }

  lemma ClosedKeeps(s: Cluster, n: nat)
    requires Inv(s) && Enabled(s, ClientClosed(n))
    ensures Inv(AfterClose(s, n))
  {
    hide Shape, History, PrimaryInv, NodeInv;
    ClosedShape(s, n);
    forall i: nat | i < |s.nodes| ensures NodeInv(AfterClose(s, n), i) {
      ClosedNode(s, n, i);
    }
  }

  lemma StepKeeps(s: Cluster, l: Label)
    requires Inv(s) && Enabled(s, l)
    ensures Inv(Next(s, l))
  {
    hide Inv, Enabled;
    match l
    case ClientClosed(n) => ClosedKeeps(s, n);
    case Begin(op, reached) => BeginKeeps(s, op, reached);
    case Deliver(b, acked, cut, any) => DeliverKeeps(s, b, acked, cut, any);
    case Drop(b) => DropKeeps(s, b);
    case Finish => FinishKeeps(s);
    case Crash(n) => CrashKeeps(s, n);
    case Promote(b) => PromoteKeeps(s, b);
    case Restarted(n, fetched, any) => RestartKeeps(s, n, fetched, any);
    case Resume(fetched) => ResumeKeeps(s, fetched);
    case Stray(n, any) => StrayKeeps(s, n, any);
  }

  lemma {:induction false} RunKeeps(s: Cluster, run: seq<Label>)
    requires Inv(s) && Legal(s, run)
    ensures Inv(After(s, run))
    decreases |run|
  {
    hide Inv, Enabled, Next;
    if run != [] {
      StepKeeps(s, run[0]);
      RunKeeps(Next(s, run[0]), run[1..]);
    }
  }

  /** Every reachable cluster satisfies the invariant. */
  lemma ReachableInv(s: Cluster)
    requires Reachable(s)
    ensures Inv(s)
  {
    hide Inv;
    var s0, run :| Initial(s0) && Legal(s0, run) && After(s0, run) == s;
    InitialInv(s0);
    RunKeeps(s0, run);
  }

  lemma RunOf(s: Cluster, run: seq<Label>)
    requires run == []
    ensures Legal(s, run) && After(s, run) == s
  {
  }

  lemma RunCons(s: Cluster, l: Label, run: seq<Label>)
    requires Enabled(s, l) && Legal(Next(s, l), run)
    ensures Legal(s, [l] + run) && After(s, [l] + run) == After(Next(s, l), run)
  {
    hide Enabled, Next;
    assert ([l] + run)[0] == l && ([l] + run)[1..] == run;
  }

  lemma {:induction false} RunConcat(s: Cluster, a: seq<Label>, b: seq<Label>)
    requires Legal(s, a) && Legal(After(s, a), b)
    ensures Legal(s, a + b) && After(s, a + b) == After(After(s, a), b)
    decreases |a|
  {
    hide Enabled, Next;
    if a == [] {
      assert a + b == b;
    } else {
      RunConcat(Next(s, a[0]), a[1..], b);
      assert (a + b)[0] == a[0] && (a + b)[1..] == a[1..] + b;
    }
  }

  lemma TwoSteps(s: Cluster, a: Label, b: Label)
    requires Enabled(s, a) && Enabled(Next(s, a), b)
    ensures Legal(s, [a, b]) && After(s, [a, b]) == Next(Next(s, a), b)
  {
    hide Enabled, Next;
    RunOf(Next(Next(s, a), b), []);
    RunCons(Next(s, a), b, []);
    assert [b] + [] == [b];
    RunCons(s, a, [b]);
    assert [a] + [b] == [a, b];
  }
}
