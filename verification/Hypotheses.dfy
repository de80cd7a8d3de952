/** Where the code falls short of its intent: for each way a node can be lost, or a record
    go wrong, exactly when it happens.
  */
module Hypotheses {
  import opened RobotFactory
  import opened WalState
  import opened Replica
  import opened Cluster
  import opened ClusterProofs
  import opened AdminQueue
  import opened Failover
  import opened ForkAbsorption

  /** Applying `op` to a record that should have had `missed` applied first: the result is
      right only if `op` overwrites that customer anyway, or `missed` was no news. */
  lemma SkippedEntry(m: Records, missed: MapOp, op: MapOp)
    ensures Apply(m, op) == Apply(Apply(m, missed), op)
            <==> op.arg1 == missed.arg1 || (missed.arg1 in m && m[missed.arg1] == missed.arg2)
  {
    var skipped, full := Apply(m, op), Apply(Apply(m, missed), op);
    if op.arg1 != missed.arg1 {
      assert full[missed.arg1] == missed.arg2;
      if missed.arg1 in m && m[missed.arg1] == missed.arg2 {
        assert forall c :: c in skipped <==> c in full;
      }
    }
  }

  /** A node that takes an order as primary while its newest entry is uncommitted and
      recheck_allow is 0 commits past that entry without applying it. Its record is the
      replay of its log afterwards exactly when the skipped entry would not have shown. */
  lemma PendingEntryIsSkipped(node: Node, robot: RobotInf)
    requires Sane(node) && node.committed == node.last - 1 && IsOrderRobot(robot)
    ensures AdminNode(node, false, robot).Running?
    ensures var n := AdminNode(node, false, robot).node;
            var missed, before := node.log[node.last], Replay(node.log[..node.last]);
            && n.committed == n.last == node.last + 1
            && Logical(n) == Logical(node) + [EntryOf(robot)]
            && (n.record == Replay(Logical(n))
                <==> robot.customerId == missed.arg1 || (missed.arg1 in before && before[missed.arg1] == missed.arg2))
  {
    hide ApplyAll, Mirrored, Write;
    var op := EntryOf(robot);
    var n := AdminNode(node, false, robot).node;
    var log := Logical(node) + [op];
    assert n.log[..n.last + 1] == log;
    assert log[..node.last] == node.log[..node.last];
    assert log[..node.last + 2] == log;
    ReplayNext(log, node.last);
    ReplayNext(log, node.last + 1);
    SkippedEntry(Replay(node.log[..node.last]), node.log[node.last], op);
  }

  /** A robot for customer -1 is taken for a commit-only request: it is released like any
      other, and nothing is logged or recorded. */
  lemma MinusOneIsNoCustomer(node: Node, recheck: bool, robot: RobotInf)
    requires Sane(node) && (recheck || node.committed == node.last) && robot.customerId == COMMIT_ONLY
    ensures AdminNode(node, recheck, robot).Running?
    ensures AdminNode(node, recheck, robot).node.log == node.log
    ensures AdminNode(node, recheck, robot).node.wal == node.wal
    ensures AdminNode(node, recheck, robot).node.record == Replay(Logical(node))
  {
    AdminNodeSane(node, recheck, robot);
  }

  /** Catch-up only fills slots behind last_index: a slot in which a node disagrees with the
      primary keeps disagreeing. */
  lemma RecoveryRepairsNothing(n: Node, primaryLog: seq<MapOp>, r: ReplReq, i: nat)
    requires -1 <= n.committed <= n.last < |n.log|
    requires r.lastIndex - n.last > 1 && r.lastIndex < |primaryLog|
    requires i <= n.last && n.log[i] != primaryLog[i]
    ensures Received(n.log, n.last, r.lastIndex - n.last, RecoveryStream(primaryLog, n.committed))[i] != primaryLog[i]
  {
    HandshakeExact(n, primaryLog, r);
    var after := Received(n.log, n.last, r.lastIndex - n.last, RecoveryStream(primaryLog, n.committed));
    assert after[i] == after[..n.last + 1][i] == Logical(n)[i];
  }

  /** A node restarts with a forked entry at the end of its file, and a peer answers
      `fetched`. Unless that kills it, it commits the fork exactly if the answer is 0 or not
      below the fork's index. The next order, with catch-up if need be, puts its log right in
      any case, but its record exactly if the fork was not committed or does not show. In the
      very first slot a committed fork always shows: nothing was committed before it, so the
      next order takes nothing back. */
  lemma ForkedRestart(ref: seq<MapOp>, forked: MapOp, fetched: int, r: ReplReq)
    requires RequestOf(ref, r) && r.record.arg1 != COMMIT_ONLY && fetched >= -1
    ensures var base := ref[..|ref| - 1];
            var o := Restart(base + [forked], fetched);
            var commits := fetched == 0 || fetched >= |base|;
            && (o.Terminated? <==> fetched == |base| + 1)
            && (o.Running? ==>
                  && (o.node.committed == |base| <==> commits)
                  && Deliverable(o.node, r)
                  && var stream := if r.lastIndex - o.node.last > 1 then RecoveryStream(ref, o.node.committed) else [];
                  && Handle(o.node, r, stream).Running?
                  && var m := Handle(o.node, r, stream).node;
                  && -1 <= m.last < |m.log| && Logical(m) == ref
                  && m.committed == (if commits && base == [] then 0 else |ref| - 2)
                  && (m.record == Replay(base) <==> !commits || (base != [] && ForkHidden(base, forked))))
  {
    hide ApplyAll, Write, Handle, Deliverable, Restart, ForkHidden;
    var base := ref[..|ref| - 1];
    RestartExact(base + [forked], fetched);
    var o := Restart(base + [forked], fetched);
    if o.Running? {
      if fetched != 0 && fetched < |base| {
        ForkInTail(o.node, ref, forked, r);
      } else if base == [] {
        FirstForkCommitted(o.node, ref, forked, r);
      } else {
        ForkCommitted(o.node, ref, forked, r);
      }
    }
  }

  /** Re-applying the newest entry of `base` overwrites the fork, or the fork was no news. */
  predicate ForkHidden(base: seq<MapOp>, forked: MapOp)
    requires base != []
  {
    forked.arg1 == base[|base| - 1].arg1
    || (forked.arg1 in Replay(base) && Replay(base)[forked.arg1] == forked.arg2)
  }

  lemma FirstForkCommitted(n: Node, ref: seq<MapOp>, forked: MapOp, r: ReplReq)
    requires |ref| == 1 && RequestOf(ref, r) && r.record.arg1 != COMMIT_ONLY
    requires Sane(n) && n.committed == n.last == 0 && n.log == [forked]
    ensures Deliverable(n, r) && Handle(n, r, []).Running?
    ensures var m := Handle(n, r, []).node;
            && -1 <= m.last < |m.log| && Logical(m) == ref && m.committed == 0
            && m.record != Replay([])
  {
    assert n.log[..1] == n.log;
    ReplayNext(n.log, 0);
    assert forked.arg1 in n.record;
  }

  lemma ForkInTail(n: Node, ref: seq<MapOp>, forked: MapOp, r: ReplReq)
    requires RequestOf(ref, r) && r.record.arg1 != COMMIT_ONLY
    requires Sane(n) && n.committed == n.last < |ref| - 1 && n.log == ref[..|ref| - 1] + [forked]
    ensures Deliverable(n, r)
    ensures var stream := if r.lastIndex - n.last > 1 then RecoveryStream(ref, n.committed) else [];
            && Handle(n, r, stream).Running?
            && var m := Handle(n, r, stream).node;
            && -1 <= m.last < |m.log| && Logical(m) == ref && m.committed == |ref| - 2
            && m.record == Replay(ref[..|ref| - 1])
  {
    hide ApplyAll, Mirrored, Handle, Deliverable;
    assert Logical(n) == ref[..n.last + 1];
    var stream := if r.lastIndex - n.last > 1 then RecoveryStream(ref, n.committed) else [];
    if r.lastIndex - n.last > 1 {
      RecoveryReaches(n, ref, r);
    } else {
      AppendReaches(n, ref, r);
    }
    var m := Handle(n, r, stream).node;
    assert m.log[..|ref|] == ref && m.log[..|ref| - 1] == ref[..|ref| - 1];
  }

  lemma ForkCommitted(n: Node, ref: seq<MapOp>, forked: MapOp, r: ReplReq)
    requires |ref| >= 2 && RequestOf(ref, r) && r.record.arg1 != COMMIT_ONLY
    requires Sane(n) && n.committed == n.last == |ref| - 1 && n.log == ref[..|ref| - 1] + [forked]
    ensures Deliverable(n, r) && Handle(n, r, []).Running?
    ensures var base := ref[..|ref| - 1];
            var m := Handle(n, r, []).node;
            && -1 <= m.last < |m.log| && Logical(m) == ref && m.committed == |ref| - 2
            && (m.record == Replay(base) <==> ForkHidden(base, forked))
  {
    hide ApplyAll, Write, Mirrored;
    var base := ref[..|ref| - 1];
    var k := |base| - 1;
    assert n.log[..|ref|] == n.log && n.log[..|base|] == base;
    ReplayNext(n.log, |base|);
    var m := Handle(n, r, []).node;
    assert m.log == ref + [forked];
    assert m.record == Apply(n.record, base[k]);
    assert base[..k + 1] == base;
    ReapplyNewest(base, k);
    ForkedRecord(Replay(base), forked, base[k]);
  }

  lemma ForkedRecord(m: Records, forked: MapOp, newest: MapOp)
    requires Apply(m, newest) == m
    ensures Apply(Apply(m, forked), newest) == m
            <==> forked.arg1 == newest.arg1 || (forked.arg1 in m && m[forked.arg1] == forked.arg2)
  {
    SkippedEntry(m, forked, newest);
  }

  /** A node as a restart leaves it (see Replica.RestartSane): all it has applied is all it
      claims to hold, and its file is its whole log. Catch-up from a primary then writes the
      entries it had kept beyond its last index a second time: the file spells out the log
      exactly if there were none. */
  lemma TailIsLoggedTwice(n: Node, ref: seq<MapOp>, r: ReplReq)
    requires Consistent(n) && n.committed == n.last && n.wal == Fresh(n.log)
    requires RequestOf(ref, r) && n.last < |ref| - 2 && Logical(n) == ref[..n.last + 1]
    ensures Deliverable(n, r)
    ensures Handle(n, r, RecoveryStream(ref, n.committed)).Running?
    ensures var m := Handle(n, r, RecoveryStream(ref, n.committed)).node;
            && Consistent(m) && Logical(m) == ref
            && All(m.wal) == n.log + ref[n.last + 1..]
            && (All(m.wal) == ref <==> Tail(n) == [])
  {
    hide ApplyAll, WriteAll, Handle, Deliverable, RecoveryStream;
    RecoveryReaches(n, ref, r);
    var m := Handle(n, r, RecoveryStream(ref, n.committed)).node;
    WriteAllConserves(CFG, n.wal, ref[n.last + 1..]);
    assert All(Fresh(n.log)) == n.log;
    LogicalIs(m, ref, Tail(n));
    TailShows(n.log, ref, n.last + 1);
  }

  /** The log goes on to index i, and has the same entry there as k places before. */
  predicate Repeats(log: seq<MapOp>, i: nat, k: nat) {
    k <= i < |log| && log[i] == log[i - k]
  }

  /** Until then its file is a prefix of the primary's log, tail and all. It stops being one
      exactly when an entry that was written again reaches the file and does not happen to
      repeat the entry as many places before it as the tail is long. */
  lemma FileAfterTail(n: Node, ref: seq<MapOp>, r: ReplReq)
    requires Consistent(n) && n.committed == n.last && n.wal == Fresh(n.log) && n.log <= ref
    requires RequestOf(ref, r) && n.last < |ref| - 2
    ensures Deliverable(n, r)
    ensures Handle(n, r, RecoveryStream(ref, n.committed)).Running?
    ensures var file := Handle(n, r, RecoveryStream(ref, n.committed)).node.wal.durable;
            && n.log <= file
            && (file <= ref <==> forall i: nat :: |n.log| <= i < |file| ==> Repeats(ref, i, |Tail(n)|))
  {
    hide ApplyAll, WriteAll, Handle, Deliverable;
    assert Logical(n) == ref[..n.last + 1];
    RecoveryReaches(n, ref, r);
    var wal := Handle(n, r, RecoveryStream(ref, n.committed)).node.wal;
    WriteAllConserves(CFG, n.wal, ref[n.last + 1..]);
    assert All(Fresh(n.log)) == n.log;
    PrefixOfTwice(n.log, ref, n.last + 1, |Tail(n)|, wal.durable);
  }

  /** A file that holds `log` and then more of `ref` from index `kept` on. */
  lemma PrefixOfTwice(log: seq<MapOp>, ref: seq<MapOp>, kept: nat, k: nat, file: seq<MapOp>)
    requires kept + k == |log| && log <= ref
    requires log <= file <= log + ref[kept..]
    ensures file <= ref <==> forall i: nat :: |log| <= i < |file| ==> Repeats(ref, i, k)
  {
    var all := log + ref[kept..];
    forall i: nat | |log| <= i < |file| ensures i - k < |ref| && file[i] == ref[i - k] {
      assert file[i] == all[i] == ref[kept..][i - |log|];
    }
    if file <= ref {
      forall i: nat | |log| <= i < |file| ensures Repeats(ref, i, k) {
        assert file[i] == ref[i];
      }
    }
    if forall i: nat :: |log| <= i < |file| ==> Repeats(ref, i, k) {
      PrefixByElements(log, ref, k, file);
    }
  }

  lemma PrefixByElements(log: seq<MapOp>, ref: seq<MapOp>, k: nat, file: seq<MapOp>)
    requires k <= |log| && log <= ref && log <= file
    requires forall i: nat :: |log| <= i < |file| ==> Repeats(ref, i, k) && file[i] == ref[i - k]
    ensures file <= ref
  {
    if |file| > |log| {
      assert Repeats(ref, |file| - 1, k);
    }
    forall i: nat | i < |file| ensures file[i] == ref[i] {
      if i < |log| {
        assert file[i] == log[i] == ref[i];
      } else {
        assert Repeats(ref, i, k);
      }
    }
  }

  lemma LogicalIs(n: Node, ref: seq<MapOp>, tail: seq<MapOp>)
    requires n.log == ref + tail && n.last == |ref| - 1 < |n.log|
    ensures Logical(n) == ref
  {
  }

  lemma TailShows(durable: seq<MapOp>, ref: seq<MapOp>, kept: nat)
    requires kept <= |durable| && kept <= |ref| && durable[..kept] == ref[..kept]
    ensures durable + ref[kept..] == ref <==> kept == |durable|
  {
    assert |durable + ref[kept..]| == |durable| + |ref| - kept;
    if kept == |durable| {
      assert durable + ref[kept..] == ref[..kept] + ref[kept..] == ref;
    }
  }

  // ---- a socket that is open is not yet a safe successor ----

  function TwoNodes(): Cluster {
    Cluster([EMPTY_NODE, EMPTY_NODE], {0, 1}, 0, true, {}, Idle, [], [], 0, [], {})
  }

  /** Node 1 was away while an order was shipped, and has just reconnected. */
  function Reconnect(first: MapOp, second: MapOp): seq<Label> {
    [Begin(first, {}), Finish, ClientClosed(0), Begin(second, {1})]
  }

  /** When the primary crashes now, node 1's socket is open and node 1 is undamaged, yet the
      shipped order is nowhere in its log. Being served since it reconnected is what counts. */
  lemma OpenSocketIsNotEnough(first: MapOp, second: MapOp)
    requires IsOrder(first) && IsOrder(second)
    ensures Initial(TwoNodes()) && Legal(TwoNodes(), Reconnect(first, second))
    ensures var s := After(TwoNodes(), Reconnect(first, second));
            && s.shipped == [(0, first)] && |s.nodes| == 2
            && 1 in s.live && 1 !in s.lost && s.nodes[1].log == []
            && !CanTakeOver(s, 1)
  {
    hide Handle, Write, Enabled, Next, Legal, After;
    var s0 := TwoNodes();
    var s1 := FirstStep(s0, first);
    var s2 := SecondStep(s1);
    var s3 := AfterClose(s2, 0);
    LabelIs(s2);
    var s4 := LastStep(s3, second);
    TwoSteps(s0, Begin(first, {}), Finish);
    TwoSteps(s2, ClientClosed(0), Begin(second, {1}));
    RunConcat(s0, [Begin(first, {}), Finish], [ClientClosed(0), Begin(second, {1})]);
    assert [Begin(first, {}), Finish] + [ClientClosed(0), Begin(second, {1})] == Reconnect(first, second);
  }

  lemma FirstStep(s: Cluster, op: MapOp) returns (s': Cluster)
    requires s == TwoNodes() && IsOrder(op)
    ensures Enabled(s, Begin(op, {})) && s' == Next(s, Begin(op, {}))
    ensures |s'.nodes| == 2 && s'.nodes[1] == EMPTY_NODE && |s'.nodes[0].log| == 1 && s'.nodes[0].last == 0
    ensures s'.phase.Sending? && s'.phase.todo == {} && s'.phase.req.record == op && s'.phase.req.lastIndex == 0
    ensures s'.up == {0, 1} && s'.primary == 0 && s'.live == {} && s'.lost == {} && s'.ref == [op]
    ensures s'.shipped == []
  {
    hide Write, ForkedBy, Deliverable, Restart;
    s' := AfterBegin(s, op, {});
    NothingForked(s, op);
  }

  lemma NothingForked(s: Cluster, op: MapOp)
    requires s == TwoNodes()
    ensures ForkedBy(s, op, s.live + {}) == {}
  {
  }

  lemma SecondStep(s: Cluster) returns (s': Cluster)
    requires |s.nodes| == 2 && s.nodes[1] == EMPTY_NODE && s.nodes[0].last == 0 && |s.nodes[0].log| == 1
    requires s.phase.Sending? && s.phase.todo == {} && IsOrder(s.phase.req.record) && s.phase.req.lastIndex == 0
    requires s.up == {0, 1} && s.primary == 0 && s.live == {} && s.lost == {} && s.ref == [s.phase.req.record]
    requires s.shipped == []
    ensures Enabled(s, Finish) && s' == Next(s, Finish)
    ensures |s'.nodes| == 2 && s'.nodes[1] == EMPTY_NODE && |s'.nodes[0].log| == 1
    ensures s'.nodes[0].last == s'.nodes[0].committed == 0
    ensures s'.phase == Idle && s'.shipped == [(0, s.phase.req.record)]
    ensures s'.up == {0, 1} && s'.primary == 0 && s'.live == {} && s'.lost == {}
  {
    s' := AfterFinish(s);
  }

  lemma LabelIs(s: Cluster)
    requires s.primary < |s.nodes| && 0 in s.up
    ensures Enabled(s, ClientClosed(0)) && Next(s, ClientClosed(0)) == AfterClose(s, 0)
  {
  }

  lemma LastStep(s: Cluster, op: MapOp) returns (s': Cluster)
    requires |s.nodes| == 2 && s.nodes[1] == EMPTY_NODE && |s.nodes[0].log| == 1
    requires s.nodes[0].last == s.nodes[0].committed == 0 && IsOrder(op)
    requires s.phase == Idle && s.recheckAllow
    requires s.up == {0, 1} && s.primary == 0 && s.live == {} && s.lost == {}
    ensures Enabled(s, Begin(op, {1})) && s' == Next(s, Begin(op, {1}))
    ensures |s'.nodes| == 2 && s'.nodes[1] == EMPTY_NODE && s'.shipped == s.shipped && s'.primary == 0
    ensures s'.live == {1} && s'.lost == {}
  {
    hide Write;
    s' := AfterBegin(s, op, {1});
    assert ForkedBy(s, op, {1}) == {};
  }

  // ---- a fork ----

  function ThreeNodes(): Cluster {
    Cluster([EMPTY_NODE, EMPTY_NODE, EMPTY_NODE], {0, 1, 2}, 0, true, {}, Idle, [], [], 0, [], {})
  }

  /** The primary dies with its order sent to one backup of two; the other is promoted. */
  function HalfSent(op: MapOp, cut: nat, any: Node): seq<Label> {
    [Begin(op, {1, 2}), Deliver(1, true, cut, any), Crash(0), Promote(2)]
  }

  /** Then the first backup holds an entry that the new primary does not: its log is no prefix
      of the primary's, and it carries a fork as ForkAbsorption describes it. */
  lemma ForkHappens(op: MapOp, cut: nat, any: Node)
    requires IsOrder(op)
    ensures Initial(ThreeNodes()) && Legal(ThreeNodes(), HalfSent(op, cut, any))
    ensures var s := After(ThreeNodes(), HalfSent(op, cut, any));
            && |s.nodes| == 3 && s.primary == 2 && s.up == {1, 2} && s.lost == {}
            && s.ref == s.nodes[2].log == [] && Sane(s.nodes[1]) && Mirrored(s.nodes[1])
            && HoldsOnly(s.nodes[1], op) && Carries(s.nodes[1], s.ref, op) && !(Logical(s.nodes[1]) <= s.ref)
  {
    hide Handle, Write, Enabled, Next, Legal, After, Sane, Carries, Mirrored, Logical, HoldsOnly;
    var s0 := ThreeNodes();
    var s1 := ForkBegins(s0, op);
    var s2 := ForkDelivered(s1, op, cut, any);
    var s3 := ForkCrash(s2, op);
    var s4 := ForkPromotes(s3, op);
    TwoSteps(s0, Begin(op, {1, 2}), Deliver(1, true, cut, any));
    TwoSteps(s2, Crash(0), Promote(2));
    RunConcat(s0, [Begin(op, {1, 2}), Deliver(1, true, cut, any)], [Crash(0), Promote(2)]);
    assert [Begin(op, {1, 2}), Deliver(1, true, cut, any)] + [Crash(0), Promote(2)] == HalfSent(op, cut, any);
  }

  /** The one order is logged on the primary, but not yet in its file. */
  ghost predicate HoldsOnly(m: Node, op: MapOp) {
    m.log == [op] && m.last == 0 && m.committed == -1 && m.record == map[]
  }

  lemma ForkBegins(s: Cluster, op: MapOp) returns (s': Cluster)
    requires s == ThreeNodes() && IsOrder(op)
    ensures Enabled(s, Begin(op, {1, 2})) && s' == Next(s, Begin(op, {1, 2}))
    ensures |s'.nodes| == 3 && s'.nodes[1] == s'.nodes[2] == EMPTY_NODE
    ensures HoldsOnly(s'.nodes[0], op) && s'.nodes[0].wal.durable == []
    ensures s'.phase == Sending(ReplReq(0, -1, 0, op), {1, 2}) && s'.live == {1, 2}
    ensures s'.up == {0, 1, 2} && s'.primary == 0 && s'.lost == {} && s'.ref == [op] && s'.high == [] && s'.shipped == []
  {
    s' := AfterBegin(s, op, {1, 2});
    assert ForkedBy(s, op, {1, 2}) == {};
  }

  lemma ForkDelivered(s: Cluster, op: MapOp, cut: nat, any: Node) returns (s': Cluster)
    requires |s.nodes| == 3 && s.nodes[1] == s.nodes[2] == EMPTY_NODE && IsOrder(op)
    requires HoldsOnly(s.nodes[0], op) && s.nodes[0].wal.durable == []
    requires s.phase == Sending(ReplReq(0, -1, 0, op), {1, 2}) && s.live == {1, 2}
    requires s.up == {0, 1, 2} && s.primary == 0 && s.lost == {} && s.ref == [op] && s.high == [] && s.shipped == []
    ensures Enabled(s, Deliver(1, true, cut, any)) && s' == Next(s, Deliver(1, true, cut, any))
    ensures |s'.nodes| == 3 && s'.nodes[0] == s.nodes[0] && s'.nodes[2] == EMPTY_NODE
    ensures HoldsOnly(s'.nodes[1], op) && All(s'.nodes[1].wal) == [op]
    ensures s'.phase == Sending(ReplReq(0, -1, 0, op), {2})
    ensures s'.up == {0, 1, 2} && s'.primary == 0 && s'.lost == {} && s'.ref == [op] && s'.high == [] && s'.shipped == []
  {
    s' := AfterDeliver(s, 1, true, cut, any);
  }

  lemma ForkCrash(s: Cluster, op: MapOp) returns (s': Cluster)
    requires |s.nodes| == 3 && s.nodes[2] == EMPTY_NODE && IsOrder(op)
    requires HoldsOnly(s.nodes[0], op) && s.nodes[0].wal.durable == []
    requires HoldsOnly(s.nodes[1], op)
    requires s.phase == Sending(ReplReq(0, -1, 0, op), {2})
    requires s.up == {0, 1, 2} && s.primary == 0 && s.lost == {} && s.ref == [op] && s.high == [] && s.shipped == []
    ensures Enabled(s, Crash(0)) && s' == Next(s, Crash(0))
    ensures |s'.nodes| == 3 && s'.nodes[1] == s.nodes[1] && s'.nodes[2] == EMPTY_NODE && s'.nodes[0] == EMPTY_NODE
    ensures s'.up == {1, 2} && s'.primary == 0 && s'.lost == {} && s'.high == [op] && s'.shipped == []
  {
    s' := AfterCrash(s, 0);
    assert ForkedWaiting(s) == {};
  }

  lemma ForkPromotes(s: Cluster, op: MapOp) returns (s': Cluster)
    requires |s.nodes| == 3 && s.nodes[0] == s.nodes[2] == EMPTY_NODE && IsOrder(op)
    requires HoldsOnly(s.nodes[1], op) && All(s.nodes[1].wal) == [op]
    requires s.up == {1, 2} && s.primary == 0 && s.lost == {} && s.high == [op] && s.shipped == []
    ensures Enabled(s, Promote(2)) && s' == Next(s, Promote(2))
    ensures |s'.nodes| == 3 && s'.primary == 2 && s'.up == {1, 2} && s'.lost == {}
    ensures s'.ref == s'.nodes[2].log == [] && Sane(s'.nodes[1]) && Mirrored(s'.nodes[1])
    ensures HoldsOnly(s'.nodes[1], op) && Carries(s'.nodes[1], s'.ref, op) && !(Logical(s'.nodes[1]) <= s'.ref)
  {
    s' := AfterPromote(s, 2);
    assert Overtaken(s, 2) == {};
    assert s.nodes[1].log == [] + [op];
  }
}
