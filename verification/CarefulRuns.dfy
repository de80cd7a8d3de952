/** Runs on which no node is ever lost, and rejoining after a crash. All conditions but one
    are on numbers that can be read off the nodes before a step happens; the one on Deliver
    is on what the network does during it.
  */
module CarefulRuns {
  import opened RobotFactory
  import opened WalState
  import opened Replica
  import opened Cluster
  import opened ClusterProofs

  /** The conditions under which each step loses nobody:
      - a backup that reconnects more than one entry behind has committed all it holds;
      - a recovery stream that carries an order is not cut just before its last entry;
      - the promoted node has the largest last index among the survivors, and no log file
        of a node that is down holds more; the same of a primary that comes back;
      - a node restarts without entries beyond its last index. */
  ghost predicate Careful(s: Cluster, l: Label)
    requires Enabled(s, l)
  {
    match l
    case Begin(op, reached) =>
      var newLast := s.nodes[s.primary].last + if IsOrder(op) then 1 else 0;
      forall n :: n in reached && newLast - s.nodes[n].last > 1 ==> s.nodes[n].committed == s.nodes[n].last
    case Deliver(b, acked, cut, any) =>
      IsOrder(s.phase.req.record) && s.phase.req.lastIndex - s.nodes[b].last > 1
      ==> cut != s.phase.req.lastIndex - s.nodes[b].last - 1
    case Promote(b) =>
      forall n: nat :: n < |s.nodes| && n != b ==>
        if n in s.up then s.nodes[n].last <= s.nodes[b].last
        else |s.nodes[n].wal.durable| <= s.nodes[b].last + 1
    case Restarted(n, fetched, any) =>
      fetched == 0 || fetched >= |s.nodes[n].wal.durable| - 1
    case Resume(fetched) =>
      var size := |s.nodes[s.primary].wal.durable|;
      && (fetched == 0 || fetched >= size - 1)
      && forall n: nat :: n < |s.nodes| && n != s.primary ==>
           if n in s.up then s.nodes[n].last < size else |s.nodes[n].wal.durable| <= size
    case _ => true
  }

  /** No tails, nobody ahead of the log the step builds on, and whoever is about to be
      served is ready for the handshake it needs. */
  ghost predicate TidyNode(s: Cluster, n: nat)
    requires n < |s.nodes|
  {
    var m := s.nodes[n];
    n in s.up ==>
      && m.last + 1 == |m.log|
      && (n != s.primary ==> m.last + 1 <= BaseLength(s, n))
      && (n in Todo(s) && s.phase.req.lastIndex - m.last > 1 ==> m.committed == m.last)
  }

  ghost predicate Tidy(s: Cluster) {
    s.lost == {} && forall n: nat :: n < |s.nodes| ==> TidyNode(s, n)
  }

  lemma TidyBegin(s: Cluster, op: MapOp, reached: set<nat>)
    requires Inv(s) && Tidy(s) && Enabled(s, Begin(op, reached)) && Careful(s, Begin(op, reached))
    ensures Tidy(AfterBegin(s, op, reached))
  {
    hide ApplyAll, Mirrored, Write;
    var s' := AfterBegin(s, op, reached);
    RecheckSane(s.nodes[s.primary]);
    forall n: nat | n < |s.nodes| ensures n !in ForkedBy(s, op, s.live + reached) {
      assert TidyNode(s, n);
    }
    assert ForkedBy(s, op, s.live + reached) == {};
    forall n: nat | n < |s'.nodes| ensures TidyNode(s', n) {
      assert TidyNode(s, n) && NodeInv(s, n);
    }
  }

  lemma TidyDelivery(s: Cluster, b: nat, acked: bool, cut: nat, any: Node)
    requires Inv(s) && Tidy(s)
    requires Enabled(s, Deliver(b, acked, cut, any)) && Careful(s, Deliver(b, acked, cut, any))
    ensures var stream := Arriving(s.nodes[b], s.phase.req, s.nodes[s.primary].log, cut);
            var o := Handle(s.nodes[b], s.phase.req, stream);
            && s.nodes[b].last + 1 == |s.nodes[b].log|
            && (o.Terminated? ==> o.wal.durable <= s.ref)
            && (o.Running? ==>
                  !BadDelivery(s.nodes[b], s.ref, s.phase.req, stream)
                  && o.node.last == |s.ref| - 1 == |o.node.log| - 1)
  {
    hide ApplyAll, Handle, Deliverable, TailServes, BadDelivery, InSync, Careful, Mirrored, Consistent;
    var n, p, req := s.nodes[b], s.nodes[s.primary], s.phase.req;
    assert TidyNode(s, b);
    TidyLogs(s, b);
    TidyFile(s, b);
    TracksFollows(s, b);
    assert p.log == s.ref + [];
    var stream := Arriving(n, req, p.log, cut);
    DeliveryOutcome(n, s.ref, [], req, cut);
    if BadDelivery(n, s.ref, req, stream) {
      CarefulStream(s, b, acked, cut, any);
      BadKills(n, s.ref, req, stream);
    } else {
      assert InSync(Handle(n, req, stream).node, s.ref, req.committedIndex);
      SyncedLog(Handle(n, req, stream).node, s.ref, req.committedIndex);
    }
  }

  lemma TidyLogs(s: Cluster, b: nat)
    requires Inv(s) && Tidy(s) && s.phase.Sending? && b in s.phase.todo
    ensures b < |s.nodes| && s.primary < |s.nodes| && RequestOf(s.ref, s.phase.req)
    ensures s.nodes[s.primary].log == s.ref && Consistent(s.nodes[b]) && Tail(s.nodes[b]) == []
    ensures |s.nodes[b].log| <= |StepBase(s)| == |Base(s.ref, s.phase.req)|
  {
    hide ApplyAll, Mirrored;
    assert NodeInv(s, b) && TidyNode(s, b) && TidyNode(s, s.primary);
  }

  /** The stream of a careful delivery. */
  lemma CarefulStream(s: Cluster, b: nat, acked: bool, cut: nat, any: Node)
    requires Inv(s) && Tidy(s)
    requires Enabled(s, Deliver(b, acked, cut, any)) && Careful(s, Deliver(b, acked, cut, any))
    requires s.nodes[s.primary].log == s.ref && -1 <= s.nodes[b].last && s.phase.req.lastIndex == |s.ref| - 1
    ensures var n, req := s.nodes[b], s.phase.req;
            var stream := Arriving(n, req, s.nodes[s.primary].log, cut);
            && (if req.lastIndex - n.last > 1 then n.committed == n.last && stream <= RecoveryStream(s.ref, n.last)
                else stream == [])
            && (IsOrder(req.record) && req.lastIndex - n.last > 1 ==> |stream| != req.lastIndex - n.last - 1)
  {
    hide Inv, Deliverable;
    assert TidyNode(s, b);
  }

  lemma TidyFile(s: Cluster, n: nat)
    requires Inv(s) && Tidy(s) && n < |s.nodes| && n in s.up
    ensures !StaleFile(s, n)
  {
    hide ApplyAll, StaleFile;
    assert TidyNode(s, n) && NodeInv(s, n);
    assert |s.nodes[n].wal.durable| <= |All(s.nodes[n].wal)| == |s.nodes[n].log|;
    FileIsPrefix(s, n);
  }

  lemma TidyDeliver(s: Cluster, b: nat, acked: bool, cut: nat, any: Node)
    requires Inv(s) && Tidy(s)
    requires Enabled(s, Deliver(b, acked, cut, any)) && Careful(s, Deliver(b, acked, cut, any))
    ensures Tidy(AfterDeliver(s, b, acked, cut, any))
  {
    hide Sane, NodeInv, Handle, Deliverable, Arriving, BadDelivery, Careful;
    TidyDelivery(s, b, acked, cut, any);
    var s' := AfterDeliver(s, b, acked, cut, any);
    forall i: nat | i < |s'.nodes| ensures TidyNode(s', i) {
      assert TidyNode(s, i);
    }
  }

  /** On a backup without a tail that is ready for its handshake, the only bad delivery it
      survives is the one cut just before the last entry. */
  lemma BadKills(n: Node, ref: seq<MapOp>, r: ReplReq, stream: seq<MapOp>)
    requires Consistent(n) && Tail(n) == [] && RequestOf(ref, r) && Deliverable(n, r)
    requires if r.lastIndex - n.last > 1 then n.committed == n.last && stream <= RecoveryStream(ref, n.last) else stream == []
    requires BadDelivery(n, ref, r, stream)
    requires IsOrder(r.record) && r.lastIndex - n.last > 1 ==> |stream| != r.lastIndex - n.last - 1
    ensures Handle(n, r, stream).Terminated?
  {
    hide Handle, TailServes;
    if r.lastIndex - n.last > 1 {
      CutRecovery(n, ref, r, stream);
    } else {
      OneBehind(n, ref, r);
    }
  }

  lemma TidyDrop(s: Cluster, b: nat)
    requires Inv(s) && Tidy(s) && Enabled(s, Drop(b))
    ensures Tidy(AfterDrop(s, b))
  {
    hide ApplyAll, Mirrored;
    var s' := AfterDrop(s, b);
    assert TidyNode(s, b);
    forall n: nat | n < |s'.nodes| ensures TidyNode(s', n) {
      assert TidyNode(s, n);
    }
  }

  lemma TidyFinish(s: Cluster)
    requires Inv(s) && Tidy(s) && Enabled(s, Finish)
    ensures Tidy(AfterFinish(s))
  {
    hide ApplyAll, Mirrored;
    var s' := AfterFinish(s);
    forall n: nat | n < |s'.nodes| ensures TidyNode(s', n) {
      assert TidyNode(s, n);
    }
  }

  lemma TidyCrash(s: Cluster, n: nat)
    requires Inv(s) && Tidy(s) && Enabled(s, Crash(n))
    ensures Tidy(AfterCrash(s, n))
  {
    hide ApplyAll, StaleFile, Sane, History;
    var s' := AfterCrash(s, n);
    assert TidyNode(s, n);
    TidyFile(s, n);
    forall i: nat | i < |s'.nodes| ensures TidyNode(s', i) {
      assert TidyNode(s, i);
    }
    if n == s.primary && OrderPhase(s) {
      forall i: nat | i < |s.nodes| ensures i !in ForkedWaiting(s) {
        assert TidyNode(s, i);
      }
    }
    assert s'.lost == {};
  }

  lemma TidyPromote(s: Cluster, b: nat)
    requires Inv(s) && Tidy(s) && Enabled(s, Promote(b)) && Careful(s, Promote(b))
    ensures Tidy(AfterPromote(s, b))
  {
    hide ApplyAll, Mirrored;
    var s' := AfterPromote(s, b);
    forall n: nat | n < |s.nodes| ensures n !in Overtaken(s, b) {
      assert NodeInv(s, n);
    }
    assert Overtaken(s, b) == {};
    forall n: nat | n < |s'.nodes| ensures TidyNode(s', n) {
      assert TidyNode(s, n);
    }
  }

  lemma TidyRestart(s: Cluster, n: nat, fetched: int, any: Node)
    requires Inv(s) && Tidy(s)
    requires Enabled(s, Restarted(n, fetched, any)) && Careful(s, Restarted(n, fetched, any))
    ensures Tidy(AfterRestart(s, n, fetched, any))
  {
    hide ApplyAll, Mirrored;
    var s' := AfterRestart(s, n, fetched, any);
    assert NodeInv(s, n);
    forall i: nat | i < |s'.nodes| ensures TidyNode(s', i) {
      assert TidyNode(s, i);
    }
  }

  lemma TidyResume(s: Cluster, fetched: int)
    requires Inv(s) && Tidy(s) && Enabled(s, Resume(fetched)) && Careful(s, Resume(fetched))
    ensures Tidy(AfterResume(s, fetched))
  {
    hide ApplyAll, Mirrored, Restart;
    var durable := s.nodes[s.primary].wal.durable;
    RestartLast(durable, fetched);
    var m := Restart(durable, fetched).node;
    var s1 := CameUp(s, s.primary, m);
    forall n: nat | n < |s.nodes| ensures n !in Overtaken(s1, s.primary) {
      assert NodeInv(s, n);
    }
    assert Overtaken(s1, s.primary) == {};
    var s' := AfterResume(s, fetched);
    forall n: nat | n < |s'.nodes| ensures TidyNode(s', n) {
      assert TidyNode(s, n);
    }
  }

  lemma RestartLast(durable: seq<MapOp>, fetched: int)
    requires Restart(durable, fetched).Running? && (fetched == 0 || fetched >= |durable| - 1)
    ensures var m := Restart(durable, fetched).node; m.log == durable && m.last == |durable| - 1
  {
  }

  lemma TidyClose(s: Cluster, n: nat)
    requires Tidy(s) && Enabled(s, ClientClosed(n))
    ensures Tidy(AfterClose(s, n))
  {
    forall i: nat | i < |s.nodes| ensures TidyNode(AfterClose(s, n), i) {
      assert TidyNode(s, i);
    }
  }

  lemma TidyStep(s: Cluster, l: Label)
    requires Inv(s) && Tidy(s) && Enabled(s, l) && Careful(s, l)
    ensures Tidy(Next(s, l))
  {
    hide Inv, Enabled, Careful;
    match l
    case ClientClosed(n) => TidyClose(s, n);
    case Begin(op, reached) => TidyBegin(s, op, reached);
    case Deliver(b, acked, cut, any) => TidyDeliver(s, b, acked, cut, any);
    case Drop(b) => TidyDrop(s, b);
    case Finish => TidyFinish(s);
    case Crash(n) => TidyCrash(s, n);
    case Promote(b) => TidyPromote(s, b);
    case Restarted(n, fetched, any) => TidyRestart(s, n, fetched, any);
    case Resume(fetched) => TidyResume(s, fetched);
    case Stray(n, any) => StrayNeedsLost(s, n, any);
  }

  lemma StrayNeedsLost(s: Cluster, n: nat, any: Node)
    requires Enabled(s, Stray(n, any))
    ensures s.lost != {}
  {
  }

  ghost predicate CarefulRun(s: Cluster, run: seq<Label>)
    requires Legal(s, run)
    decreases |run|
  {
    run != [] ==> Careful(s, run[0]) && CarefulRun(Next(s, run[0]), run[1..])
  }

  lemma {:induction false} TidyRun(s: Cluster, run: seq<Label>)
    requires Inv(s) && Tidy(s) && Legal(s, run) && CarefulRun(s, run)
    ensures Tidy(After(s, run))
    decreases |run|
  {
    hide Inv, Tidy, Enabled, Next, Careful;
    if run != [] {
      StepKeeps(s, run[0]);
      TidyStep(s, run[0]);
      TidyRun(Next(s, run[0]), run[1..]);
    }
  }

  /** Over every careful run, with any crashes, drops, restarts and promotions, no node is
      ever lost, none ever carries a tail, and every node that is up has a prefix of the
      primary's log. */
  lemma NobodyLost(s0: Cluster, run: seq<Label>)
    requires Initial(s0) && Legal(s0, run) && CarefulRun(s0, run)
    ensures Reachable(After(s0, run)) && After(s0, run).lost == {}
    ensures forall n: nat :: n < |After(s0, run).nodes| && n in After(s0, run).up ==>
              var m := After(s0, run).nodes[n];
              Sane(m) && Tail(m) == [] && Logical(m) == m.log <= After(s0, run).ref
  {
    hide Legal, CarefulRun, After, ApplyAll, Mirrored;
    InitialInv(s0);
    RunKeeps(s0, run);
    assert Tidy(s0);
    TidyRun(s0, run);
    var s := After(s0, run);
    forall n: nat | n < |s.nodes| && n in s.up
      ensures Sane(s.nodes[n]) && Tail(s.nodes[n]) == [] && Logical(s.nodes[n]) == s.nodes[n].log <= s.ref
    {
      TidyFollows(s, n);
    }
  }

  lemma TidyFollows(s: Cluster, n: nat)
    requires Inv(s) && Tidy(s) && n < |s.nodes| && n in s.up
    ensures Sane(s.nodes[n]) && Tail(s.nodes[n]) == [] && Logical(s.nodes[n]) == s.nodes[n].log <= s.ref
  {
    hide ApplyAll, Mirrored;
    assert NodeInv(s, n) && TidyNode(s, n);
    var log := Logical(s.nodes[n]);
    if n != s.primary && !(OrderPhase(s) && n !in Todo(s)) {
      assert log == s.high[..|log|] == StepBase(s)[..|log|] == s.ref[..|log|];
    }
  }

  // ---- crash, restart, rejoin ----

  /** The steps that leave node n to itself. */
  predicate Spares(l: Label, n: nat) {
    match l
    case Begin(op, reached) => n !in reached
    case Deliver(b, acked, cut, any) => b != n
    case Crash(b) => b != n
    case Promote(b) => b != n
    case _ => true
  }

  /** Up, a backup, with everything it holds committed, and not connected. */
  ghost predicate Waiting(s: Cluster, n: nat) {
    && n < |s.nodes| && n in s.up && n != s.primary && n !in s.lost
    && n !in s.live && s.nodes[n].committed == s.nodes[n].last
  }

  lemma LostStays(s: Cluster, l: Label)
    requires Enabled(s, l)
    ensures s.lost <= Next(s, l).lost
  {
    hide Handle, Deliverable, Arriving, BadDelivery, Restart, StaleFile, Overtaken, ForkedBy, ForkedWaiting;
  }

  lemma {:induction false} LostAfter(s: Cluster, run: seq<Label>)
    requires Legal(s, run)
    ensures s.lost <= After(s, run).lost
    decreases |run|
  {
    hide Enabled, Next;
    if run != [] {
      LostStays(s, run[0]);
      LostAfter(Next(s, run[0]), run[1..]);
    }
  }

  lemma SparedWaits(s: Cluster, l: Label, n: nat)
    requires Shape(s) && Enabled(s, l) && Waiting(s, n) && Spares(l, n) && n !in Next(s, l).lost
    ensures Waiting(Next(s, l), n)
  {
    hide Handle, Deliverable, Arriving, BadDelivery, Restart, StaleFile, Overtaken, ForkedBy, ForkedWaiting;
    hide RecheckCommit, PrimaryCommit, Within, Apply;
  }

  lemma {:induction false} SparedRun(s: Cluster, run: seq<Label>, n: nat)
    requires Inv(s) && Legal(s, run) && Waiting(s, n) && n !in After(s, run).lost
    requires forall i :: 0 <= i < |run| ==> Spares(run[i], n)
    ensures Inv(After(s, run)) && Waiting(After(s, run), n)
    decreases |run|
  {
    hide Inv, Enabled, Next, Waiting, Spares;
    if run != [] {
      var s' := Next(s, run[0]);
      StepKeeps(s, run[0]);
      LostAfter(s', run[1..]);
      InvShape(s);
      SparedWaits(s, run[0], n);
      SparedRun(s', run[1..], n);
    }
  }

  /** A dead backup comes up from its file; whatever happens then leaves it to itself, orders
      and failovers included; at last the primary of that moment takes an order, finds the
      backup reachable again, and serves it. */
  function Rejoin(n: nat, fetched: int, any: Node, between: seq<Label>, op: MapOp, reached: set<nat>, cut: nat): seq<Label> {
    [Restarted(n, fetched, any)] + (between + [Begin(op, reached), Deliver(n, true, cut, any)])
  }

  /** A backup that was killed, comes up again from its log file and is reached by some later
      order ends exactly where a backup that never crashed ends, whatever its file had lost and
      however many orders passed it by: same logical log, same commit index, same record. */
  lemma RejoinConverges(
      s: Cluster, n: nat, fetched: int, any: Node, between: seq<Label>, op: MapOp, reached: set<nat>, cut: nat)
    requires Inv(s) && n < |s.nodes| && n !in s.up && n != s.primary && n !in s.lost
    requires Restart(s.nodes[n].wal.durable, fetched).Running?
    requires Legal(AfterRestart(s, n, fetched, any), between)
    requires forall i :: 0 <= i < |between| ==> Spares(between[i], n)
    requires var t := After(AfterRestart(s, n, fetched, any), between);
             && n !in t.lost && Enabled(t, Begin(op, reached)) && n in reached && IsOrder(op)
             && -1 <= t.nodes[t.primary].last < |t.nodes[t.primary].log| && Tail(t.nodes[t.primary]) == []
             && cut >= |t.ref| + 1
    ensures Legal(s, Rejoin(n, fetched, any, between, op, reached, cut))
    ensures var t := After(AfterRestart(s, n, fetched, any), between);
            var s' := After(s, Rejoin(n, fetched, any, between, op, reached, cut));
            && n in s'.live && n !in s'.lost && n !in Todo(s')
            && forall b :: b in s'.live && b !in Todo(s') && b !in s'.lost ==>
                 && b < |s'.nodes|
                 && InSync(s'.nodes[b], t.ref + [op], |t.ref| - 1)
                 && s'.nodes[b].record == Replay(t.ref)
  {
    hide ApplyAll, Inv, Enabled, Legal, After, Handle, Deliverable, Restart, InSync, Waiting, Spares, AfterBegin, AfterDeliver;
    var s1 := AfterRestart(s, n, fetched, any);
    RestartKeeps(s, n, fetched, any) by { RestartIsEnabled(s, n, fetched, any); }
    RestartedWaits(s, n, fetched, any);
    SparedRun(s1, between, n);
    var t := After(s1, between);
    ReachedConverges(t, n, op, reached, cut, any);
    var last := [Begin(op, reached), Deliver(n, true, cut, any)];
    RunConcat(s1, between, last);
    RestartIsEnabled(s, n, fetched, any);
    RunCons(s, Restarted(n, fetched, any), between + last);
  }

  lemma RestartIsEnabled(s: Cluster, n: nat, fetched: int, any: Node)
    requires Inv(s) && n < |s.nodes| && n !in s.up && n != s.primary
    ensures Enabled(s, Restarted(n, fetched, any))
    ensures Next(s, Restarted(n, fetched, any)) == AfterRestart(s, n, fetched, any)
  {
  }

  /** A waiting backup that an order reaches. */
  lemma ReachedConverges(s: Cluster, n: nat, op: MapOp, reached: set<nat>, cut: nat, any: Node)
    requires Inv(s) && Waiting(s, n) && Enabled(s, Begin(op, reached)) && n in reached && IsOrder(op)
    requires -1 <= s.nodes[s.primary].last < |s.nodes[s.primary].log| && Tail(s.nodes[s.primary]) == []
    requires cut >= |s.ref| + 1
    ensures Legal(s, [Begin(op, reached), Deliver(n, true, cut, any)])
    ensures var s' := After(s, [Begin(op, reached), Deliver(n, true, cut, any)]);
            && n in s'.live && n !in s'.lost && n !in Todo(s')
            && forall b :: b in s'.live && b !in Todo(s') && b !in s'.lost ==>
                 && b < |s'.nodes|
                 && InSync(s'.nodes[b], s.ref + [op], |s.ref| - 1)
                 && s'.nodes[b].record == Replay(s.ref)
  {
    hide Inv, Enabled, Next, Legal, After, InSync, AfterBegin, AfterDeliver;
    var a, d := Begin(op, reached), Deliver(n, true, cut, any);
    ReachedBegin(s, n, op, reached);
    var s1 := Next(s, a);
    Rejoined(s1, n, cut, any);
    var s2 := Next(s1, d);
    forall b | b in s2.live && b !in Todo(s2) && b !in s2.lost
      ensures b < |s2.nodes| && InSync(s2.nodes[b], s.ref + [op], |s.ref| - 1)
           && s2.nodes[b].record == Replay(s.ref)
    {
      InvNode(s2, b);
      InSyncRecord(s2.nodes[b], s.ref + [op], |s.ref| - 1);
      assert (s.ref + [op])[..|s.ref|] == s.ref;
    }
    TwoSteps(s, a, d);
  }

  lemma ReachedBegin(s: Cluster, n: nat, op: MapOp, reached: set<nat>)
    requires Inv(s) && Waiting(s, n) && Enabled(s, Begin(op, reached)) && n in reached && IsOrder(op)
    requires -1 <= s.nodes[s.primary].last < |s.nodes[s.primary].log| && Tail(s.nodes[s.primary]) == []
    ensures var s' := Next(s, Begin(op, reached));
            && Inv(s') && OrderPhase(s') && n in s'.phase.todo && n !in s'.lost
            && s'.primary < |s'.nodes| && n < |s'.nodes|
            && s'.nodes[n].committed == s'.nodes[n].last
            && -1 <= s'.nodes[s'.primary].last < |s'.nodes[s'.primary].log| && Tail(s'.nodes[s'.primary]) == []
            && s'.ref == s.ref + [op] && s'.sent == |s.ref| - 1
  {
    hide Inv, RecheckCommit, Write, PrimaryAppend;
    BeginKeeps(s, op, reached);
    PrimaryReady(s, op, reached);
    assert AfterBegin(s, op, reached).nodes[n] == s.nodes[n];
  }

  lemma RestartedWaits(s: Cluster, n: nat, fetched: int, any: Node)
    requires Inv(s) && n < |s.nodes| && n !in s.up && n != s.primary && n !in s.lost
    requires Restart(s.nodes[n].wal.durable, fetched).Running?
    ensures Waiting(AfterRestart(s, n, fetched, any), n)
  {
    hide Restart, NodeInv, History, PrimaryInv;
    RestartSane(s.nodes[n].wal.durable, fetched);
  }

  lemma PrimaryReady(s: Cluster, op: MapOp, reached: set<nat>)
    requires Inv(s) && Enabled(s, Begin(op, reached)) && s.recheckAllow && IsOrder(op)
    requires -1 <= s.nodes[s.primary].last < |s.nodes[s.primary].log| && Tail(s.nodes[s.primary]) == []
    ensures var s' := AfterBegin(s, op, reached);
            && s'.sent == |s.ref| - 1
            && -1 <= s'.nodes[s.primary].last < |s'.nodes[s.primary].log|
            && Tail(s'.nodes[s.primary]) == []
  {
    hide ApplyAll, Mirrored, Write;
    RecheckSane(s.nodes[s.primary]);
  }

  lemma InSyncRecord(m: Node, ref: seq<MapOp>, committed: int)
    requires InSync(m, ref, committed)
    ensures -1 <= committed < |ref| && m.record == Replay(ref[..committed + 1])
  {
    assert m.log[..committed + 1] == Logical(m)[..committed + 1];
  }

  lemma InvNode(s: Cluster, b: nat)
    requires Inv(s) && b in s.live && b !in Todo(s) && b !in s.lost
    ensures b < |s.nodes| && InSync(s.nodes[b], s.ref, s.sent)
  {
    assert b < |s.nodes|;
    assert NodeInv(s, b);
  }

  lemma Rejoined(s: Cluster, n: nat, cut: nat, any: Node)
    requires Inv(s) && OrderPhase(s) && n in s.phase.todo && n !in s.lost
    requires n < |s.nodes| && s.primary < |s.nodes|
    requires -1 <= s.nodes[s.primary].last < |s.nodes[s.primary].log| && Tail(s.nodes[s.primary]) == []
    requires s.nodes[n].committed == s.nodes[n].last
    requires cut >= |s.ref|
    ensures Enabled(s, Deliver(n, true, cut, any))
    ensures var s' := Next(s, Deliver(n, true, cut, any));
            && Inv(s') && n in s'.live && n !in Todo(s') && n !in s'.lost
            && s'.ref == s.ref && s'.sent == s.sent
  {
    hide ApplyAll, Mirrored, Handle, Deliverable, NodeInv, BadDelivery, Arriving, InSync, RequestOf;
    TracksFollows(s, n);
    assert s.nodes[s.primary].log == s.ref + [];
    DeliveryOutcome(s.nodes[n], s.ref, [], s.phase.req, cut);
    FullCatchUp(s.nodes[n], s.ref, s.phase.req, cut);
    DeliverKeeps(s, n, true, cut, any);
    assert s.ref + [] == s.ref;
    assert s.phase.req.lastIndex - s.nodes[n].last > 1 ==>
        |Arriving(s.nodes[n], s.phase.req, s.nodes[s.primary].log, cut)| >= s.phase.req.lastIndex - s.nodes[n].last;
  }

  /** A catch-up that is not cut is right for a backup that has committed all it holds. */
  lemma FullCatchUp(n: Node, ref: seq<MapOp>, r: ReplReq, cut: nat)
    requires Consistent(n) && RequestOf(ref, r) && IsOrder(r.record)
    requires n.committed == n.last && cut >= |ref|
    ensures !BadDelivery(n, ref, r, Arriving(n, r, ref, cut))
    ensures r.lastIndex - n.last > 1 ==> |Arriving(n, r, ref, cut)| >= r.lastIndex - n.last
  {
    hide ApplyAll, TailServes;
  }
}
