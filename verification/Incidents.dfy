/** Runs on which the code falls short, from a start with every node up and empty: node 0 is
    the primary, node 1 a backup, and node 2 is never reached.
  */
module Incidents {
  import opened RobotFactory
  import opened WalState
  import opened Replica
  import opened Cluster
  import opened ClusterProofs
  import opened Batches
  import opened AdminQueue
  import opened HandlerLaws
  import opened Hypotheses

  // ---- steps of a cluster with nothing lost ----

  /** Everybody is up and node 1 is m. */
  ghost predicate At(s: Cluster, m: Node, phase: Phase, ref: seq<MapOp>, live: set<nat>, allow: bool) {
    && Inv(s) && Batched(s)
    && |s.nodes| == 3 && s.primary == 0 && s.up == {0, 1, 2} && s.lost == {}
    && s.nodes[0].log == s.ref && s.nodes[1] == m && s.nodes[2] == EMPTY_NODE
    && s.phase == phase && s.ref == ref && s.live == live && s.recheckAllow == allow
  }

  lemma StartAt()
    ensures Initial(ThreeNodes()) && At(ThreeNodes(), EMPTY_NODE, Idle, [], {}, true)
  {
    InitialInv(ThreeNodes());
    InitialBatched(ThreeNodes());
  }

  lemma BeginAt(s: Cluster, m: Node, ref: seq<MapOp>, live: set<nat>, allow: bool, op: MapOp, reached: set<nat>)
    returns (s': Cluster)
    requires At(s, m, Idle, ref, live, allow) && m.last <= |ref| - 1
    requires live <= {1} && reached <= {1} && (reached != {} ==> allow)
    ensures Enabled(s, Begin(op, reached)) && s' == Next(s, Begin(op, reached))
    ensures var ref' := if IsOrder(op) then ref + [op] else ref;
            At(s', m, Sending(ReplReq(0, |ref| - 1, |ref'| - 1, op), live + reached), ref', live + reached, false)
  {
    hide ApplyAll, Write, Mirrored, Batched, History, NodeInv;
    PrimaryAt(s, m, Idle, ref, live, allow);
    s' := AfterBegin(s, op, reached);
    assert ForkedBy(s, op, live + reached) == {};
    assert Insert(ref, |ref|, op) == ref + [op];
    StepKeeps(s, Begin(op, reached));
    StepBatched(s, Begin(op, reached));
  }

  lemma PrimaryAt(s: Cluster, m: Node, phase: Phase, ref: seq<MapOp>, live: set<nat>, allow: bool)
    requires At(s, m, phase, ref, live, allow)
    ensures var p := s.nodes[0];
            && Sane(p) && p.last == |ref| - 1 && Tail(p) == []
            && (phase == Idle && !allow ==> p.committed == p.last)
  {
    assert Logical(s.nodes[0]) == s.nodes[0].log[..s.nodes[0].last + 1];
  }

  lemma DropAt(s: Cluster, m: Node, r: ReplReq, ref: seq<MapOp>, live: set<nat>, allow: bool) returns (s': Cluster)
    requires At(s, m, Sending(r, {1}), ref, live, allow) && m.last < r.lastIndex
    ensures Enabled(s, Drop(1)) && s' == Next(s, Drop(1))
    ensures At(s', m, Sending(r, {}), ref, live - {1}, allow)
  {
    hide Inv, Batched;
    s' := AfterDrop(s, 1);
    StepKeeps(s, Drop(1));
    StepBatched(s, Drop(1));
  }

  lemma FinishAt(s: Cluster, m: Node, r: ReplReq, ref: seq<MapOp>, live: set<nat>, allow: bool) returns (s': Cluster)
    requires At(s, m, Sending(r, {}), ref, live, allow)
    ensures Enabled(s, Finish) && s' == Next(s, Finish)
    ensures At(s', m, Idle, ref, live, allow)
  {
    hide Inv, Batched;
    s' := AfterFinish(s);
    StepKeeps(s, Finish);
    StepBatched(s, Finish);
  }

  lemma CloseAt(s: Cluster, m: Node, ref: seq<MapOp>, live: set<nat>, allow: bool) returns (s': Cluster)
    requires At(s, m, Idle, ref, live, allow)
    ensures Enabled(s, ClientClosed(0)) && s' == Next(s, ClientClosed(0))
    ensures At(s', m, Idle, ref, live, true)
  {
    hide Inv, Batched;
    s' := AfterClose(s, 0);
    StepKeeps(s, ClientClosed(0));
    StepBatched(s, ClientClosed(0));
  }

  /** An order to a backup that has all the earlier ones. */
  lemma ServeAt(s: Cluster, m: Node, r: ReplReq, ref: seq<MapOp>, allow: bool, any: Node)
    returns (s': Cluster, m': Node)
    requires At(s, m, Sending(r, {1}), ref, {1}, allow) && RequestOf(ref, r) && IsOrder(r.record)
    requires Consistent(m) && m.log == ref[..|ref| - 1] && m.last == |ref| - 2
    ensures Enabled(s, Deliver(1, true, 0, any)) && s' == Next(s, Deliver(1, true, 0, any))
    ensures At(s', m', Sending(r, {}), ref, {1}, allow)
    ensures Consistent(m') && m'.log == ref && m'.last == |ref| - 1 && m'.committed == |ref| - 2
  {
    hide Inv, Batched, Handle, Deliverable, ApplyAll;
    AppendReaches(m, ref, r);
    m' := Handle(m, r, []).node;
    assert ref + m.log[|ref| - 1..] == ref;
    s' := AfterDeliver(s, 1, true, 0, any);
    StepKeeps(s, Deliver(1, true, 0, any));
    StepBatched(s, Deliver(1, true, 0, any));
  }

  // ---- orders to a connected backup ----

  function LastOf(ops: seq<MapOp>, any: Node): seq<Label>
    requires ops != []
  {
    [Begin(ops[|ops| - 1], if |ops| == 1 then {1} else {}), Deliver(1, true, 0, any), Finish]
  }

  function Serving(ops: seq<MapOp>, any: Node): seq<Label> {
    if ops == [] then [] else Serving(ops[..|ops| - 1], any) + LastOf(ops, any)
  }

  ghost predicate AllOrders(ops: seq<MapOp>) {
    forall i :: 0 <= i < |ops| ==> IsOrder(ops[i])
  }

  /** All of `ops` were shipped; the backup has them and lags by one commit. */
  ghost predicate Served(s: Cluster, ops: seq<MapOp>) {
    && |s.nodes| == 3
    && var m := s.nodes[1];
       && At(s, m, Idle, ops, if ops == [] then {} else {1}, ops == [])
       && Consistent(m) && m.log == ops && m.last == |ops| - 1
       && m.committed == if ops == [] then -1 else |ops| - 2
  }

  lemma {:induction false} ServingRun(ops: seq<MapOp>, any: Node)
    requires AllOrders(ops)
    ensures Legal(ThreeNodes(), Serving(ops, any)) && Served(After(ThreeNodes(), Serving(ops, any)), ops)
    decreases |ops|
  {
    hide At, Enabled, Next, Legal, After, Served, LastOf, ThreeNodes, IsOrder;
    var s0 := ThreeNodes();
    if ops == [] {
      StartServed();
      RunOf(s0, []);
    } else {
      var init := ops[..|ops| - 1];
      ServingRun(init, any);
      var s := After(s0, Serving(init, any));
      assert init + [ops[|ops| - 1]] == ops;
      ServeOne(s, init, ops[|ops| - 1], any);
      RunConcat(s0, Serving(init, any), LastOf(ops, any));
    }
  }

  lemma StartServed()
    ensures Served(ThreeNodes(), [])
  {
    hide At;
    StartAt();
    EmptyConsistent();
  }

  lemma EmptyConsistent()
    ensures Consistent(EMPTY_NODE) && EMPTY_NODE.last == -1
  {
  }

  lemma ServeOne(s: Cluster, ops: seq<MapOp>, op: MapOp, any: Node)
    requires Served(s, ops) && IsOrder(op)
    ensures Legal(s, LastOf(ops + [op], any)) && Served(After(s, LastOf(ops + [op], any)), ops + [op])
  {
    hide At, Served, Enabled, Next, Legal, After, Consistent;
    var m := ServedNode(s, ops);
    var reached: set<nat> := if ops == [] then {1} else {};
    var live: set<nat> := if ops == [] then {} else {1};
    assert live + reached == {1};
    var ref := ops + [op];
    assert ref[..|ref| - 1] == ops && ref[|ref| - 1] == op;
    var s1 := BeginAt(s, m, ops, live, ops == [], op, reached);
    var r := ReplReq(0, |ops| - 1, |ref| - 1, op);
    var s2, m2 := ServeAt(s1, m, r, ref, false, any);
    var s3 := FinishAt(s2, m2, r, ref, {1}, false);
    ServedIs(s3, m2, ref);
    TwoSteps(s1, Deliver(1, true, 0, any), Finish);
    RunCons(s, Begin(op, reached), [Deliver(1, true, 0, any), Finish]);
    assert [Begin(op, reached)] + [Deliver(1, true, 0, any), Finish] == [Begin(op, reached), Deliver(1, true, 0, any), Finish];
    assert LastOf(ref, any) == [Begin(op, reached), Deliver(1, true, 0, any), Finish];
  }

  lemma ServedIs(s: Cluster, m: Node, ops: seq<MapOp>)
    requires At(s, m, Idle, ops, {1}, false) && ops != []
    requires Consistent(m) && m.log == ops && m.last == |ops| - 1 && m.committed == |ops| - 2
    ensures Served(s, ops)
  {
    hide Inv, Batched;
  }

  lemma AtNode(s: Cluster, m: Node, phase: Phase, ref: seq<MapOp>, live: set<nat>, allow: bool)
    requires At(s, m, phase, ref, live, allow)
    ensures |s.nodes| == 3 && s.primary == 0 && s.nodes[1] == m && s.nodes[2] == EMPTY_NODE && s.ref == ref && s.lost == {}
    ensures s.nodes[0].log == ref
    ensures s.up == {0, 1, 2} && Inv(s)
  {
  }

  lemma OneMore(s: Cluster, run: seq<Label>, l: Label)
    requires Legal(s, run) && Enabled(After(s, run), l)
    ensures Legal(s, run + [l]) && After(s, run + [l]) == Next(After(s, run), l)
  {
    hide Enabled, Next;
    var t := After(s, run);
    RunOf(Next(t, l), []);
    RunCons(t, l, []);
    assert [l] + [] == [l];
    RunConcat(s, run, [l]);
  }

  // ---- away for one order ----

  function Away(a: MapOp, b: MapOp, c: MapOp, cut: nat, any: Node): seq<Label> {
    Serving([a], any) + [Begin(b, {}), Drop(1), Finish] + [ClientClosed(0)] + [Begin(c, {1})] + [Deliver(1, true, cut, any)]
  }

  /** The lagging handshake is the ordinary case: a backup that was served once and misses one
      order gets the first one again when it reconnects. Its log and file are wrong from there
      on, its record lacks an order its commit index claims, the last entry stays in the
      connection, and the backup acknowledges. */
  lemma LaggingRun(a: MapOp, b: MapOp, c: MapOp, cut: nat, any: Node)
    requires IsOrder(a) && IsOrder(b) && IsOrder(c) && cut >= 3
    ensures Legal(ThreeNodes(), Away(a, b, c, cut, any))
    ensures var s := After(ThreeNodes(), Away(a, b, c, cut, any));
            && |s.nodes| == 3 && s.ref == [a, b, c] && s.live == {1} && s.lost == {1}
            && LagsFor(s.nodes[1], a, b)
  {
    hide At, Enabled, Next, Legal, After, Served;
    var s0 := ThreeNodes();
    ServingRun([a], any);
    var run := Serving([a], any);
    var s1 := After(s0, run);
    var m := ServedNode(s1, [a]);
    var s2 := BeginAt(s1, m, [a], {1}, false, b, {});
    assert [a] + [b] == [a, b] && {1} + {} == {1};
    var s3 := DropAt(s2, m, ReplReq(0, 0, 1, b), [a, b], {1}, false);
    assert {1} - {1} == {};
    var s4 := FinishAt(s3, m, ReplReq(0, 0, 1, b), [a, b], {}, false);
    TwoSteps(s2, Drop(1), Finish);
    RunCons(s1, Begin(b, {}), [Drop(1), Finish]);
    assert [Begin(b, {})] + [Drop(1), Finish] == [Begin(b, {}), Drop(1), Finish];
    RunConcat(s0, run, [Begin(b, {}), Drop(1), Finish]);
    run := run + [Begin(b, {}), Drop(1), Finish];
    var s5 := CloseAt(s4, m, [a, b], {}, false);
    OneMore(s0, run, ClientClosed(0));
    run := run + [ClientClosed(0)];
    var s6 := BeginAt(s5, m, [a, b], {}, true, c, {1});
    assert [a, b] + [c] == [a, b, c] && {} + {1} == {1};
    OneMore(s0, run, Begin(c, {1}));
    run := run + [Begin(c, {1})];
    LaggingServed(s6, m, a, b, c, cut, any);
    OneMore(s0, run, Deliver(1, true, cut, any));
  }

  lemma ServedNode(s: Cluster, ops: seq<MapOp>) returns (m: Node)
    requires Served(s, ops)
    ensures At(s, m, Idle, ops, if ops == [] then {} else {1}, ops == [])
    ensures Consistent(m) && m.log == ops && m.last == |ops| - 1
    ensures m.committed == if ops == [] then -1 else |ops| - 2
  {
    m := s.nodes[1];
  }

  lemma LaggingServed(s: Cluster, m: Node, a: MapOp, b: MapOp, c: MapOp, cut: nat, any: Node)
    requires At(s, m, Sending(ReplReq(0, 1, 2, c), {1}), [a, b, c], {1}, false) && IsOrder(c)
    requires Consistent(m) && m.log == [a] && m.last == 0 && m.committed == -1 && cut >= 3
    ensures Enabled(s, Deliver(1, true, cut, any))
    ensures var s' := Next(s, Deliver(1, true, cut, any));
            && |s'.nodes| == 3 && s'.ref == [a, b, c] && s'.live == {1} && s'.lost == {1}
            && LagsFor(s'.nodes[1], a, b)
  {
    hide Inv, Batched, ApplyAll, WriteAll, Handle, Received;
    BackupSane(s, m, Sending(ReplReq(0, 1, 2, c), {1}), [a, b, c], {1}, false);
    var r := ReplReq(0, 1, 2, c);
    var stream := Arriving(m, r, [a, b, c], cut);
    assert stream == [a, b, c];
    HandleRecovery(m, r, stream);
    assert Received([a], 0, 2, stream) == [a, a, b] by {
      ReceivedTwo(a, stream);
    }
    assert Handle(m, r, stream).node.log == [a, a, b];
    var log := [a, b, c];
    assert log[..1] == [a] && log[0..2] == [a, b];
    assert Logical(m) == [a] && RecoveryStream(log, -1) == log;
    CatchUpRecord(m, log, r, stream);
    WriteAllConserves(CFG, m.wal, [a, b]);
    assert Replay([a]) == map[a.arg1 as int := a.arg2 as int] by {
      ReplayOne(a);
    }
    assert All(m.wal) == m.log && [a] + [a, b] == [a, a, b];
  }

  /** Last index 2 and commit index 1, with a twice and then b, and only a applied. */
  ghost predicate LagsFor(m: Node, a: MapOp, b: MapOp) {
    && m.log == [a, a, b] && m.last == 2 && m.committed == 1
    && m.record == map[a.arg1 as int := a.arg2 as int]
    && All(m.wal) == [a, a, b]
  }

  lemma BackupSane(s: Cluster, m: Node, phase: Phase, ref: seq<MapOp>, live: set<nat>, allow: bool)
    requires At(s, m, phase, ref, live, allow)
    ensures Sane(m)
  {
    hide Sane;
    assert NodeInv(s, 1);
  }

  lemma ReplayOne(a: MapOp)
    ensures Replay([a]) == map[a.arg1 as int := a.arg2 as int]
  {
    ReplayNext([a], 0);
    assert [a][..1] == [a] && [a][..0] == [];
  }

  lemma ReceivedTwo(a: MapOp, stream: seq<MapOp>)
    requires |stream| >= 2
    ensures Received([a], 0, 2, stream) == [a, stream[0], stream[1]]
  {
  }

  // ---- one behind, and cut short ----

  function LateComer(a: MapOp, next: MapOp, cut: nat, any: Node): seq<Label> {
    [Begin(a, {}), Finish] + [ClientClosed(0)] + [Begin(next, {1})] + [Deliver(1, true, cut, any)]
  }

  /** A backup that is first reached one order late dies if the request is commit-only, or if
      the catch-up is cut at once; if it is cut after its first entry it lives on with a last
      index that has no entry. */
  lemma LateComerRun(a: MapOp, next: MapOp, cut: nat, any: Node)
    requires IsOrder(a) && (IsOrder(next) ==> cut <= 1)
    ensures Legal(ThreeNodes(), LateComer(a, next, cut, any))
    ensures var s := After(ThreeNodes(), LateComer(a, next, cut, any));
            && |s.nodes| == 3
            && (!IsOrder(next) || cut == 0 ==> 1 !in s.up)
            && (IsOrder(next) && cut == 1 ==>
                  1 in s.up && s.lost == {1} && s.nodes[1].log == [a] && s.nodes[1].last == 1 && s.nodes[1].committed == 0)
  {
    hide At, Enabled, Next, Legal, After, EMPTY_NODE;
    var s0 := ThreeNodes();
    StartAt();
    EmptyConsistent();
    var s1 := BeginAt(s0, EMPTY_NODE, [], {}, true, a, {});
    var nobody: set<nat> := {};
    assert [] + [a] == [a] && nobody + {} == {};
    var s2 := FinishAt(s1, EMPTY_NODE, ReplReq(0, -1, 0, a), [a], {}, false);
    TwoSteps(s0, Begin(a, {}), Finish);
    var run := [Begin(a, {}), Finish];
    var s3 := CloseAt(s2, EMPTY_NODE, [a], {}, false);
    OneMore(s0, run, ClientClosed(0));
    run := run + [ClientClosed(0)];
    var s4 := BeginAt(s3, EMPTY_NODE, [a], {}, true, next, {1});
    assert [a] + [next] == [a, next] && {} + {1} == {1};
    OneMore(s0, run, Begin(next, {1}));
    run := run + [Begin(next, {1})];
    if IsOrder(next) {
      LateOrder(s4, a, next, cut, any);
    } else {
      LateCommit(s4, a, next, cut, any);
    }
    OneMore(s0, run, Deliver(1, true, cut, any));
  }

  lemma LateCommit(s: Cluster, a: MapOp, next: MapOp, cut: nat, any: Node)
    requires At(s, EMPTY_NODE, Sending(ReplReq(0, 0, 0, next), {1}), [a], {1}, false) && !IsOrder(next)
    ensures Enabled(s, Deliver(1, true, cut, any))
    ensures var s' := Next(s, Deliver(1, true, cut, any)); |s'.nodes| == 3 && 1 !in s'.up
  {
    hide Inv, Batched, Handle, Deliverable, ApplyAll, TailServes;
    var r := ReplReq(0, 0, 0, next);
    EmptyConsistent();
    OneBehind(EMPTY_NODE, [a], r);
    CommitOnlyEffect(EMPTY_NODE, r, []);
    assert Arriving(EMPTY_NODE, r, [a], cut) == [];
  }

  lemma LateOrder(s: Cluster, a: MapOp, next: MapOp, cut: nat, any: Node)
    requires At(s, EMPTY_NODE, Sending(ReplReq(0, 0, 1, next), {1}), [a, next], {1}, false) && IsOrder(next) && cut <= 1
    ensures Enabled(s, Deliver(1, true, cut, any))
    ensures var s' := Next(s, Deliver(1, true, cut, any));
            && |s'.nodes| == 3
            && (cut == 0 ==> 1 !in s'.up)
            && (cut == 1 ==>
                  1 in s'.up && s'.lost == {1} && s'.nodes[1].log == [a] && s'.nodes[1].last == 1 && s'.nodes[1].committed == 0)
  {
    hide Inv, Batched, WriteAll, ApplyAll;
    var stream := Arriving(EMPTY_NODE, ReplReq(0, 0, 1, next), [a, next], cut);
    assert stream == [a, next][..cut];
  }

  // ---- restarts ----

  /** Node 1 crashes and asks a peer for its commit index. */
  lemma CrashAt(s: Cluster, m: Node, ops: seq<MapOp>) returns (s': Cluster)
    requires At(s, m, Idle, ops, {1}, false) && Consistent(m) && m.log == ops && m.last == |ops| - 1
    ensures Enabled(s, Crash(1)) && s' == Next(s, Crash(1))
    ensures Inv(s') && Batched(s') && |s'.nodes| == 3 && s'.primary == 0 && s'.up == {0, 2} && s'.lost == {}
    ensures s'.nodes[0] == s.nodes[0] && s'.nodes[1] == Down(s.nodes[1].wal) && s'.nodes[1].wal.durable == Flushed(ops)
            && s'.nodes[2] == EMPTY_NODE && s'.phase == Idle && s'.ref == ops && s'.live == {} && !s'.recheckAllow
  {
    hide Inv, Batched, WholeBatches;
    s' := AfterCrash(s, 1);
    StepKeeps(s, Crash(1));
    StepBatched(s, Crash(1));
    BackupFile(s, m, ops);
  }

  lemma BackupFile(s: Cluster, m: Node, ops: seq<MapOp>)
    requires At(s, m, Idle, ops, {1}, false) && Consistent(m) && m.log == ops && m.last == |ops| - 1
    ensures m.wal.durable == Flushed(ops)
  {
    hide ApplyAll, WholeBatches;
    assert NodeInv(s, 1);
    BatchedFile(m);
  }

  function OutOfStep(ops: seq<MapOp>, any: Node): seq<Label> {
    Serving(ops, any) + [Crash(1)] + [Restarted(1, |ops| - 1, any)]
  }

  /** A connected backup that crashes one order after its file got a batch cannot come up: it
      asks the primary, whose commit index is then the length of the recovered log. */
  lemma RestartDies(ops: seq<MapOp>, any: Node)
    requires AllOrders(ops) && |ops| > BATCH_SIZE && |ops| % BATCH_SIZE == 1
    ensures Legal(ThreeNodes(), OutOfStep(ops, any))
    ensures var s := After(ThreeNodes(), OutOfStep(ops, any));
            && |s.nodes| == 3 && 1 !in s.up && s.lost == {}
            && s.nodes[0].committed == |ops| - 1
            && Restart(s.nodes[1].wal.durable, s.nodes[0].committed).Terminated?
  {
    hide At, Enabled, Next, Legal, After, Served, Restart, Serving, Flushed, AllOrders, Consistent;
    var s0 := ThreeNodes();
    ServingRun(ops, any);
    var run := Serving(ops, any);
    var s1 := After(s0, run);
    var m := ServedNode(s1, ops);
    PrimaryAt(s1, m, Idle, ops, {1}, false);
    AtNode(s1, m, Idle, ops, {1}, false);
    var s2 := CrashAt(s1, m, ops);
    OneMore(s0, run, Crash(1));
    run := run + [Crash(1)];
    FlushedShort(ops);
    DiesAt(s2, ops, any);
    OneMore(s0, run, Restarted(1, |ops| - 1, any));
  }

  lemma FlushedShort(ops: seq<MapOp>)
    requires |ops| % BATCH_SIZE == 1
    ensures Flushed(ops) == ops[..|ops| - 1]
  {
  }

  lemma DiesAt(s: Cluster, ops: seq<MapOp>, any: Node)
    requires |s.nodes| == 3 && s.primary == 0 && s.up == {0, 2} && s.lost == {}
    requires ops != [] && s.nodes[1].wal.durable == ops[..|ops| - 1] && |ops| > 1
    ensures Enabled(s, Restarted(1, |ops| - 1, any)) && Next(s, Restarted(1, |ops| - 1, any)) == s
    ensures Restart(s.nodes[1].wal.durable, |ops| - 1).Terminated?
  {
    hide Restart;
    RestartExact(s.nodes[1].wal.durable, |ops| - 1);
  }

  /** Node 1 comes up after a batch of orders, having asked node 2, which was never reached and
      answers -1: it takes over nothing of its file, all of which stays behind last_index. Then
      it is reached again. */
  function Forgetful(ops: seq<MapOp>, d: MapOp, cut: nat, any: Node): seq<Label> {
    Serving(ops, any) + [Crash(1)] + [Restarted(1, -1, any)] + [ClientClosed(0)] + [Begin(d, {1})]
    + [Deliver(1, true, cut, any)]
  }

  function Forgot(ops: seq<MapOp>): Node {
    EMPTY_NODE.(log := ops, wal := Fresh(ops))
  }

  lemma ForgetfulReached(ops: seq<MapOp>, d: MapOp, any: Node) returns (run: seq<Label>, s: Cluster)
    requires AllOrders(ops) && |ops| == BATCH_SIZE && IsOrder(d)
    ensures run == Serving(ops, any) + [Crash(1)] + [Restarted(1, -1, any)] + [ClientClosed(0)] + [Begin(d, {1})]
    ensures Legal(ThreeNodes(), run) && s == After(ThreeNodes(), run)
    ensures At(s, Forgot(ops), Sending(ReplReq(0, 9, 10, d), {1}), ops + [d], {1}, false)
  {
    hide At, Enabled, Next, Legal, After, Served, Restart, Forgot;
    var s0 := ThreeNodes();
    ServingRun(ops, any);
    run := Serving(ops, any);
    var s1 := After(s0, run);
    var m := ServedNode(s1, ops);
    var s2 := CrashAt(s1, m, ops);
    OneMore(s0, run, Crash(1));
    run := run + [Crash(1)];
    assert ops[..10] == ops;
    AtNode(s1, m, Idle, ops, {1}, false);
    var s3 := ForgotAt(s2, ops, any);
    OneMore(s0, run, Restarted(1, -1, any));
    run := run + [Restarted(1, -1, any)];
    var s4 := CloseAt(s3, Forgot(ops), ops, {}, false);
    OneMore(s0, run, ClientClosed(0));
    run := run + [ClientClosed(0)];
    assert Forgot(ops).last == -1 by { ForgotIs(ops); }
    s := BeginAt(s4, Forgot(ops), ops, {}, true, d, {1});
    assert {} + {1} == {1};
    OneMore(s0, run, Begin(d, {1}));
    run := run + [Begin(d, {1})];
  }

  lemma ForgotIs(ops: seq<MapOp>)
    ensures var n := Forgot(ops);
            n.last == n.committed == -1 && n.log == ops && n.record == map[] && n.wal == Fresh(ops)
            && Consistent(n) && Tail(n) == ops
  {
  }

  lemma ForgotAt(s: Cluster, ops: seq<MapOp>, any: Node) returns (s': Cluster)
    requires Inv(s) && Batched(s) && |s.nodes| == 3 && s.primary == 0 && s.up == {0, 2} && s.lost == {}
    requires s.nodes[0].log == ops && s.nodes[1].wal.durable == ops && |ops| == 10
    requires s.nodes[2] == EMPTY_NODE && s.phase == Idle && s.ref == ops && s.live == {} && !s.recheckAllow
    ensures Enabled(s, Restarted(1, -1, any)) && s' == Next(s, Restarted(1, -1, any))
    ensures At(s', Forgot(ops), Idle, ops, {}, false)
  {
    hide Inv, Batched;
    assert Restart(ops, -1) == Running(Forgot(ops), []);
    s' := AfterRestart(s, 1, -1, any);
    StepKeeps(s, Restarted(1, -1, any));
    StepBatched(s, Restarted(1, -1, any));
  }

  /** If the catch-up arrives in full, the node is in sync but its file is the log twice over,
      and should it crash now, its file is no prefix of the primary's log. */
  lemma ForgetfulLogsTwice(ops: seq<MapOp>, d: MapOp, cut: nat, any: Node)
    requires AllOrders(ops) && |ops| == BATCH_SIZE && IsOrder(d) && cut > BATCH_SIZE
    ensures Legal(ThreeNodes(), Forgetful(ops, d, cut, any))
    ensures var s := After(ThreeNodes(), Forgetful(ops, d, cut, any));
            && |s.nodes| == 3 && s.lost == {} && s.ref == ops + [d]
            && InSync(s.nodes[1], s.ref, BATCH_SIZE - 1)
            && s.nodes[1].wal.durable == ops + ops && StaleFile(s, 1)
  {
    hide At, Enabled, Next, Legal, After, InSync, StaleFile;
    var run, s := ForgetfulReached(ops, d, any);
    FullyServed(s, ops, d, cut, any);
    OneMore(ThreeNodes(), run, Deliver(1, true, cut, any));
  }

  lemma FullyServed(s: Cluster, ops: seq<MapOp>, d: MapOp, cut: nat, any: Node)
    requires At(s, Forgot(ops), Sending(ReplReq(0, 9, 10, d), {1}), ops + [d], {1}, false)
    requires |ops| == 10 && IsOrder(d) && cut > 10
    ensures Enabled(s, Deliver(1, true, cut, any))
    ensures var s' := Next(s, Deliver(1, true, cut, any));
            && |s'.nodes| == 3 && s'.lost == {} && s'.ref == ops + [d]
            && InSync(s'.nodes[1], s'.ref, 9)
            && s'.nodes[1].wal.durable == ops + ops && StaleFile(s', 1)
  {
    hide Inv, ApplyAll, WriteAll, Handle, Deliverable, InSync, Forgot, WholeBatches, TailServes;
    ForgotIs(ops);
    var n, ref, r := Forgot(ops), ops + [d], ReplReq(0, 9, 10, d);
    var stream := Arriving(n, r, ref, cut);
    assert stream == ref == RecoveryStream(ref, -1);
    RequestIs(ops, d);
    RecoveryReaches(n, ref, r);
    var m := Handle(n, r, ref).node;
    SyncedWithTail(m, ref, ops);
    assert ref[0..] == ref;
    HandleBatched(n, r, ref);
    WriteAllConserves(CFG, n.wal, ref);
    TwiceInFile(n.wal, m.wal, ops, d);
    var s' := AfterDeliver(s, 1, true, cut, any);
    assert s'.nodes[1] == m && |ops + ops| > |ref|;
  }

  lemma RequestIs(ops: seq<MapOp>, d: MapOp)
    requires |ops| == 10 && IsOrder(d)
    ensures RequestOf(ops + [d], ReplReq(0, 9, 10, d)) && Deliverable(Forgot(ops), ReplReq(0, 9, 10, d))
  {
  }

  lemma SyncedWithTail(m: Node, ref: seq<MapOp>, tail: seq<MapOp>)
    requires Consistent(m) && m.log == ref + tail && tail != [] && m.last == |ref| - 1 && m.committed == |ref| - 2
    ensures InSync(m, ref, |ref| - 2)
  {
    assert m.log[..|ref|] == ref;
  }

  lemma TwiceInFile(w: Wal, w': Wal, ops: seq<MapOp>, d: MapOp)
    requires |ops| == 10 && w == Fresh(ops) && All(w') == All(w) + (ops + [d]) && WholeBatches(CFG, w')
    ensures w'.durable == ops + ops
  {
    assert All(w') == ops + ops + [d];
    assert w'.durable + w'.pending == ops + ops + [d];
    assert |w'.durable| == 20;
    assert w'.durable == (ops + ops + [d])[..20];
  }

  /** If it is cut after the first entry, the node applies the ninth order in place of the
      tenth, and none of the others, and takes ten for committed. */
  lemma ForgetfulAppliesWrong(ops: seq<MapOp>, d: MapOp, any: Node)
    requires AllOrders(ops) && |ops| == BATCH_SIZE && IsOrder(d) && ops[8] != ops[9]
    ensures Legal(ThreeNodes(), Forgetful(ops, d, 1, any))
    ensures var s := After(ThreeNodes(), Forgetful(ops, d, 1, any));
            && |s.nodes| == 3 && s.lost == {1} && 1 in s.up
            && s.nodes[1].log == [ops[0]] + ops && s.nodes[1].committed == 9
            && s.nodes[1].record == map[ops[8].arg1 as int := ops[8].arg2 as int]
  {
    hide At, Enabled, Next, Legal, After;
    var run, s := ForgetfulReached(ops, d, any);
    CutServed(s, ops, d, any);
    OneMore(ThreeNodes(), run, Deliver(1, true, 1, any));
  }

  lemma CutServed(s: Cluster, ops: seq<MapOp>, d: MapOp, any: Node)
    requires At(s, Forgot(ops), Sending(ReplReq(0, 9, 10, d), {1}), ops + [d], {1}, false)
    requires |ops| == 10 && IsOrder(d) && ops[8] != ops[9]
    ensures Enabled(s, Deliver(1, true, 1, any))
    ensures var s' := Next(s, Deliver(1, true, 1, any));
            && |s'.nodes| == 3 && s'.lost == {1} && 1 in s'.up
            && s'.nodes[1].log == [ops[0]] + ops && s'.nodes[1].committed == 9
            && s'.nodes[1].record == map[ops[8].arg1 as int := ops[8].arg2 as int]
  {
    hide Inv, Batched, ApplyAll, WriteAll, Handle, Deliverable, Forgot, Unseen;
    ForgotIs(ops);
    var n, ref, r := Forgot(ops), ops + [d], ReplReq(0, 9, 10, d);
    var stream := Arriving(n, r, ref, 1);
    assert stream == [ops[0]];
    RequestIs(ops, d);
    CutRecovery(n, ref, r, stream);
    var log := Logical(n) + stream + Tail(n);
    assert log == [ops[0]] + ops && log[9] == ops[8];
    assert !(ref <= log) by {
      assert ref[9] == ops[9];
    }
    TailLog(n, ref, stream);
    assert BadDelivery(n, ref, r, stream);
  }

  // ---- from primary to backup and back ----

  /** A node that served as primary, took an order from another primary as backup and then
      serves as primary again, with recheck_allow still 0, commits past that order without
      applying it. */
  lemma PrimaryAgain(x: RobotInf, y: MapOp, z: RobotInf)
    requires IsOrderRobot(x) && IsOrderRobot(z) && IsOrder(y) && y.arg1 != x.customerId && y.arg1 != z.customerId
    ensures AdminNode(EMPTY_NODE, true, x).Running?
    ensures var n1, r := AdminNode(EMPTY_NODE, true, x).node, ReplReq(1, 0, 1, y);
            && Deliverable(n1, r) && Handle(n1, r, []).Running?
            && var n2 := Handle(n1, r, []).node;
            && AdminNode(n2, false, z).Running?
            && var n3 := AdminNode(n2, false, z).node;
            && n3.log == [EntryOf(x), y, EntryOf(z)] && n3.committed == n3.last == 2
            && y.arg1 !in n3.record
  {
    hide Write;
    var n1 := AdminNode(EMPTY_NODE, true, x).node;
    assert n1.log == [EntryOf(x)] && n1.last == n1.committed == 0 && n1.record.Keys == {x.customerId as int};
    var n2 := Handle(n1, ReplReq(1, 0, 1, y), []).node;
    assert n2.log == [EntryOf(x), y] && n2.last == 1 && n2.committed == 0 && n2.record.Keys == {x.customerId as int};
    var n3 := AdminNode(n2, false, z).node;
    assert n3.log == [EntryOf(x), y, EntryOf(z)];
  }

  // ---- a fork that catch-up leaves alone ----

  /** The survivor of Hypotheses.ForkHappens, reached again when the new primary has three
      orders: its first slot still holds the entry that was never shipped. */
  lemma ForkStays(n: Node, op: MapOp, b: MapOp, c: MapOp, d: MapOp)
    requires HoldsOnly(n, op)
    ensures var r := ReplReq(2, 1, 2, d);
            && Deliverable(n, r) && Handle(n, r, RecoveryStream([b, c, d], n.committed)).Running?
            && Handle(n, r, RecoveryStream([b, c, d], n.committed)).node.log == [op, b, c]
  {
    hide ApplyAll, WriteAll;
    var stream := RecoveryStream([b, c, d], n.committed);
    assert stream == [b, c, d];
    HandleRecovery(n, ReplReq(2, 1, 2, d), stream);
    ReceivedTwo(op, stream);
  }
}
