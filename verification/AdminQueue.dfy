/** The primary's front: engineers queue robots with a promise each, the admin thread takes
    them one at a time, and an engineer ships when its promise is fulfilled
    (Server.cpp:150-206, 368-460). The mutex is held for a whole admin step, a whole
    enqueue and a whole read, so those are the atomic steps; between them anything may
    interleave.
  */
module AdminQueue {
  import opened RobotFactory
  import opened WalState
  import opened Replica
  import opened HandlerLaws
  import Cluster
  import opened ClusterProofs

  datatype RobotInf = RobotInf(customerId: Word, orderNumber: Word, requestType: Word, engineerId: int, adminId: int)

  const UPDATE: Word := 1

  /** The log entry of a robot. */
  function EntryOf(robot: RobotInf): MapOp {
    MapOp(UPDATE, robot.customerId, robot.orderNumber)
  }

  predicate IsOrderRobot(robot: RobotInf) {
    robot.customerId != COMMIT_ONLY
  }

  /** admin_thread_list and barrier_list, the promises fulfilled so far, and the replica. A
      promise is identified by a number. */
  datatype Desk = Desk(
    node: Node,
    recheckAllow: bool,
    adminThreadList: seq<RobotInf>,
    barrierList: seq<nat>,
    fulfilled: seq<nat>)

  function Enqueue(d: Desk, robot: RobotInf, promise: nat): Desk {
    d.(adminThreadList := d.adminThreadList + [robot], barrierList := d.barrierList + [promise])
  }

  /** The node through one admin step on the front robot: recheck, append, commit. */
  function AdminNode(node: Node, recheck: bool, robot: RobotInf): Outcome {
    match (if recheck then RecheckCommit(node) else Running(node, []))
    case Terminated(w) => Terminated(w)
    case Running(n, _) =>
      if IsOrderRobot(robot) && 0 <= n.last + 1 <= |n.log| then
        Running(PrimaryCommit(PrimaryAppend(n, EntryOf(robot)), EntryOf(robot)), [])
      else Running(n, [])
  }

  /** One admin step. The engineer is released at the end, with the admin's id on its robot. */
  function AdminStep(d: Desk): Desk
    requires d.adminThreadList != [] && d.barrierList != []
    requires AdminNode(d.node, d.recheckAllow, d.adminThreadList[0]).Running?
  {
    Desk(AdminNode(d.node, d.recheckAllow, d.adminThreadList[0]).node,
         false,
         d.adminThreadList[1..],
         d.barrierList[1..],
         d.fulfilled + [d.barrierList[0]])
  }

  /** What an engineer thread does when its client is gone: sync the log, allow a recheck. */
  function CloseConnection(d: Desk): Desk {
    d.(node := d.node.(wal := Sync(d.node.wal)), recheckAllow := true)
  }

  function Stamped(robot: RobotInf, adminId: int): RobotInf {
    if IsOrderRobot(robot) then robot.(adminId := adminId) else robot
  }

  /** The robot a customer gets back carries the admin's id if it was ordered, and is otherwise
      as the engineer made it. */
  lemma StampedIs(robot: RobotInf, adminId: int)
    ensures Stamped(robot, adminId)
         == RobotInf(robot.customerId, robot.orderNumber, robot.requestType, robot.engineerId,
                     if robot.customerId == -1 then robot.adminId else adminId)
    ensures EntryOf(robot) == MapOp(1, robot.customerId, robot.orderNumber)
  {
  }

  /** A node after the recheck that a step may start with. */
  lemma RecheckedNode(node: Node, recheck: bool)
    requires -1 <= node.last < |node.log|
    ensures recheck ==> RecheckCommit(node).Running?
    ensures var pending := recheck && node.last >= 0 && node.last > node.committed;
            (if recheck then RecheckCommit(node).node else node)
            == if pending then
                 node.(committed := node.last, record := node.record[node.log[node.last].arg1 := node.log[node.last].arg2])
               else node
  {
    RecheckEffect(node);
  }

  /** An admin step on any node whose last_index is in range: a pending entry is applied if a
      recheck is allowed, and only then; then an order is written to the log file and not
      synced, inserted behind last_index, and applied. */
  lemma AdminNodeEffect(node: Node, recheck: bool, robot: RobotInf)
    requires -1 <= node.last < |node.log|
    ensures AdminNode(node, recheck, robot).Running?
    ensures var pending := recheck && node.last >= 0 && node.last > node.committed;
            var n := if pending then
                       node.(committed := node.last, record := node.record[node.log[node.last].arg1 := node.log[node.last].arg2])
                     else node;
            var entry := MapOp(1, robot.customerId, robot.orderNumber);
            AdminNode(node, recheck, robot).node
            == if robot.customerId == -1 then n
               else Node(n.log[..n.last + 1] + [entry] + n.log[n.last + 1..], n.last + 1, n.last + 1,
                         n.record[robot.customerId := robot.orderNumber], Write(CFG, n.wal, entry))
  {
    hide Write, PrimaryAppend, PrimaryCommit, RecheckCommit, Apply, AdminNode;
    RecheckedNode(node, recheck);
    AdminNodeParts(node, recheck, robot);
    OrderedEffect(if recheck then RecheckCommit(node).node else node, EntryOf(robot));
  }

  lemma AdminNodeParts(node: Node, recheck: bool, robot: RobotInf)
    requires -1 <= node.last < |node.log|
    requires recheck ==> RecheckCommit(node).Running?
    requires var n := if recheck then RecheckCommit(node).node else node; n.last == node.last && n.log == node.log
    ensures var n, o := if recheck then RecheckCommit(node).node else node, AdminNode(node, recheck, robot);
            && o.Running?
            && o.node == if robot.customerId == -1 then n
                         else PrimaryCommit(PrimaryAppend(n, EntryOf(robot)), EntryOf(robot))
  {
    hide PrimaryAppend, PrimaryCommit, RecheckCommit;
  }

  lemma OrderedEffect(n: Node, entry: MapOp)
    requires -1 <= n.last < |n.log|
    ensures PrimaryCommit(PrimaryAppend(n, entry), entry)
         == Node(n.log[..n.last + 1] + [entry] + n.log[n.last + 1..], n.last + 1, n.last + 1,
                 n.record[entry.arg1 := entry.arg2], Write(CFG, n.wal, entry))
  {
    hide Write;
  }

  /** After any admin step no recheck is due until a client leaves; the front robot is gone
      from its list and its promise, fulfilled, from the other. */
  lemma AdminStepEffect(d: Desk)
    requires d.adminThreadList != [] && d.barrierList != []
    requires AdminNode(d.node, d.recheckAllow, d.adminThreadList[0]).Running?
    ensures var d' := AdminStep(d);
            && !d'.recheckAllow
            && d.adminThreadList == [d.adminThreadList[0]] + d'.adminThreadList
            && d.barrierList == [d.barrierList[0]] + d'.barrierList
            && d'.fulfilled == d.fulfilled + [d.barrierList[0]]
  {
    hide AdminNode;
  }

  /** When a client leaves: what is in the stdio buffer goes to the file, the batch stays where
      it is, a recheck is allowed, and nothing else changes. For the primary that is what the
      protocol's step does. */
  lemma CloseIsClientClosed(d: Desk, s: Cluster.Cluster)
    requires s.primary < |s.nodes| && d.node == s.nodes[s.primary] && d.recheckAllow == s.recheckAllow
    ensures var d' := CloseConnection(d);
            && d'.recheckAllow
            && d'.node.wal == Wal(d.node.wal.durable + d.node.wal.buffered, [], d.node.wal.pending)
            && d'.node == Node(d.node.log, d.node.last, d.node.committed, d.node.record, d'.node.wal)
            && d'.adminThreadList == d.adminThreadList && d'.barrierList == d.barrierList && d'.fulfilled == d.fulfilled
            && var s' := Cluster.AfterClose(s, s.primary);
               s'.nodes == s.nodes[s.primary := d'.node] && s'.recheckAllow == d'.recheckAllow
  {
  }

  /** The admin step is what the protocol's Begin and Finish do to the primary: the send
      loop between them leaves its node alone. */
  lemma AdminStepIsBeginAndFinish(s: Cluster.Cluster, robot: RobotInf, reached: set<nat>)
    requires Cluster.Enabled(s, Cluster.Begin(EntryOf(robot), reached))
    ensures var s' := Cluster.AfterBegin(s, EntryOf(robot), reached);
            && AdminNode(s.nodes[s.primary], s.recheckAllow, robot)
               == Running(Cluster.AfterFinish(s').nodes[s.primary], [])
            && !Cluster.AfterFinish(s').recheckAllow
            && s'.phase.req == ReplReq(s.primary, s'.sent, s'.nodes[s.primary].last, EntryOf(robot))
  {
    hide Write, Insert, Cluster.ForkedBy, Restart, Deliverable;
  }

  // ---- any number of engineers and one admin thread ----

  /** `enqueued` lists every robot ever queued, in order; its index in the list stands for
      its promise. `waiting` says which promise an engineer is blocked on. `shipped` lists the
      promises whose robots were sent to their customers. */
  datatype Factory = Factory(
    desk: Desk,
    enqueued: seq<RobotInf>,
    waiting: map<nat, nat>,
    shipped: seq<nat>)

  datatype Event =
    | EngineerQueues(engineer: nat, robot: RobotInf)
    | AdminSteps
    | EngineerShips(engineer: nat)
    | ConnectionCloses

  predicate CanHappen(f: Factory, e: Event) {
    match e
    case EngineerQueues(engineer, robot) => engineer !in f.waiting
    case AdminSteps =>
      && f.desk.adminThreadList != [] && f.desk.barrierList != []
      && AdminNode(f.desk.node, f.desk.recheckAllow, f.desk.adminThreadList[0]).Running?
    case EngineerShips(engineer) => engineer in f.waiting && f.waiting[engineer] in f.desk.fulfilled
    case ConnectionCloses => true
  }

  function Happen(f: Factory, e: Event): Factory
    requires CanHappen(f, e)
  {
    match e
    case EngineerQueues(engineer, robot) =>
      f.(desk := Enqueue(f.desk, robot, |f.enqueued|),
         enqueued := f.enqueued + [robot],
         waiting := f.waiting[engineer := |f.enqueued|])
    case AdminSteps => f.(desk := AdminStep(f.desk))
    case EngineerShips(engineer) =>
      f.(waiting := f.waiting - {engineer}, shipped := f.shipped + [f.waiting[engineer]])
    case ConnectionCloses => f.(desk := CloseConnection(f.desk))
  }

  function Entries(robots: seq<RobotInf>): seq<MapOp> {
    if robots == [] then []
    else Entries(robots[..|robots| - 1])
         + if IsOrderRobot(robots[|robots| - 1]) then [EntryOf(robots[|robots| - 1])] else []
  }

  function Processed(f: Factory): nat {
    |f.desk.fulfilled|
  }

  /** `initial` is the log the primary starts with. */
  ghost predicate QueueInv(f: Factory, initial: seq<MapOp>) {
    var done := Processed(f);
    && done <= |f.enqueued|
    && f.desk.adminThreadList == f.enqueued[done..]
    && |f.desk.barrierList| == |f.enqueued| - done
    && (forall k :: 0 <= k < |f.desk.barrierList| ==> f.desk.barrierList[k] == done + k)
    && (forall k :: 0 <= k < done ==> f.desk.fulfilled[k] == k)
    && Sane(f.desk.node)
    && (f.desk.recheckAllow || f.desk.node.committed == f.desk.node.last)
    && (done > 0 ==> f.desk.node.committed == f.desk.node.last)
    && Logical(f.desk.node) == initial + Entries(f.enqueued[..done])
  }

  ghost predicate ReleaseInv(f: Factory) {
    && (forall e :: e in f.waiting ==> f.waiting[e] < |f.enqueued| && f.waiting[e] !in f.shipped)
    && (forall e, e' :: e in f.waiting && e' in f.waiting && e != e' ==> f.waiting[e] != f.waiting[e'])
    && (forall k :: 0 <= k < |f.shipped| ==> f.shipped[k] < Processed(f))
    && (forall j, k :: 0 <= j < k < |f.shipped| ==> f.shipped[j] != f.shipped[k])
  }

  /** Every robot that was queued has shipped or has an engineer waiting for it. */
  ghost predicate NoneForgotten(f: Factory) {
    forall k: nat :: k < |f.enqueued| ==> k in f.shipped || k in f.waiting.Values
  }

  ghost predicate FactoryInv(f: Factory, initial: seq<MapOp>) {
    QueueInv(f, initial) && ReleaseInv(f)
  }

  ghost predicate Opening(f: Factory, initial: seq<MapOp>) {
    && Sane(f.desk.node) && Logical(f.desk.node) == initial && f.desk.recheckAllow
    && f.desk.adminThreadList == [] && f.desk.barrierList == [] && f.desk.fulfilled == []
    && f.enqueued == [] && f.waiting == map[] && f.shipped == []
  }

  ghost predicate Plausible(f: Factory, run: seq<Event>)
    decreases |run|
  {
    run == [] || (CanHappen(f, run[0]) && Plausible(Happen(f, run[0]), run[1..]))
  }

  ghost function AfterAll(f: Factory, run: seq<Event>): Factory
    requires Plausible(f, run)
    decreases |run|
  {
    if run == [] then f else AfterAll(Happen(f, run[0]), run[1..])
  }

  /** Under every interleaving: the two lists stay paired, position by position; every
      order enters the log exactly once, in enqueue order; what was enqueued is what was
      processed and then what is queued; the k-th promise is fulfilled by the k-th step, so
      by its own robot's, and by no other; no robot ships twice or before that; and none is
      forgotten. */
  lemma QueueDiscipline(f: Factory, initial: seq<MapOp>, run: seq<Event>)
    requires Opening(f, initial) && Plausible(f, run)
    ensures FactoryInv(AfterAll(f, run), initial) && NoneForgotten(AfterAll(f, run))
  {
    hide FactoryInv, Opening, NoneForgotten;
    OpeningInv(f, initial);
    InterleavingKeeps(f, initial, run);
  }

  lemma OpeningInv(f: Factory, initial: seq<MapOp>)
    requires Opening(f, initial)
    ensures FactoryInv(f, initial) && NoneForgotten(f)
  {
    hide Sane, Logical;
    assert initial == initial + [];
    assert f.enqueued[..0] == [] && f.enqueued[0..] == [];
  }

  /** An admin step on a sane node: it commits what was pending, then logs and commits the
      robot's entry, if it is an order. */
  lemma AdminNodeSane(node: Node, recheck: bool, robot: RobotInf)
    requires Sane(node) && (recheck || node.committed == node.last)
    ensures AdminNode(node, recheck, robot).Running?
    ensures var n := AdminNode(node, recheck, robot).node;
            && Sane(n) && n.committed == n.last
            && Logical(n) == Logical(node) + (if IsOrderRobot(robot) then [EntryOf(robot)] else [])
            && n.record == Replay(Logical(n))
            && Tail(n) == Tail(node)
  {
    hide ApplyAll, Mirrored, RecheckCommit, PrimaryAppend, PrimaryCommit;
    RecheckSane(node);
    var n1 := if recheck then RecheckCommit(node).node else node;
    if IsOrderRobot(robot) {
      AppendSane(n1, EntryOf(robot));
      var n2 := PrimaryAppend(n1, EntryOf(robot));
      assert n2.log[n2.last] == Logical(n2)[n2.last] == EntryOf(robot);
      CommitSane(n2);
    }
    var n := AdminNode(node, recheck, robot).node;
    assert n.log[..n.committed + 1] == Logical(n);
  }

  /** The admin thread never meets an empty barrier list with a robot in the other, or an
      index without an entry. */
  lemma AdminNeverStuck(f: Factory, initial: seq<MapOp>)
    requires FactoryInv(f, initial) && f.desk.adminThreadList != []
    ensures CanHappen(f, AdminSteps)
  {
    hide ApplyAll, Mirrored, AdminNode;
    AdminNodeSane(f.desk.node, f.desk.recheckAllow, f.desk.adminThreadList[0]);
  }

  lemma EnqueueKept(f: Factory, initial: seq<MapOp>, engineer: nat, robot: RobotInf)
    requires QueueInv(f, initial) && CanHappen(f, EngineerQueues(engineer, robot))
    ensures QueueInv(Happen(f, EngineerQueues(engineer, robot)), initial)
  {
    hide Sane, AdminNode, Entries;
    var done := Processed(f);
    assert (f.enqueued + [robot])[done..] == f.enqueued[done..] + [robot];
    assert (f.enqueued + [robot])[..done] == f.enqueued[..done];
  }

  lemma AdminStepKept(f: Factory, initial: seq<MapOp>)
    requires QueueInv(f, initial) && CanHappen(f, AdminSteps)
    ensures QueueInv(Happen(f, AdminSteps), initial)
  {
    hide ApplyAll, Mirrored, AdminNode;
    var f' := Happen(f, AdminSteps);
    var done := Processed(f);
    assert f.desk.adminThreadList[0] == f.enqueued[done];
    AdminNodeSane(f.desk.node, f.desk.recheckAllow, f.enqueued[done]);
    assert f.enqueued[..done + 1][..done] == f.enqueued[..done];
    assert Logical(f'.desk.node) == initial + Entries(f.enqueued[..done + 1]);
  }

  lemma QueueKept(f: Factory, initial: seq<MapOp>, e: Event)
    requires QueueInv(f, initial) && CanHappen(f, e)
    ensures QueueInv(Happen(f, e), initial)
  {
    hide ApplyAll, Mirrored, AdminNode, Sync;
    match e
    case EngineerQueues(engineer, robot) => EnqueueKept(f, initial, engineer, robot);
    case AdminSteps => AdminStepKept(f, initial);
    case EngineerShips(engineer) =>
    case ConnectionCloses => SyncSane(f.desk.node);
  }

  lemma ReleaseKept(f: Factory, initial: seq<MapOp>, e: Event)
    requires FactoryInv(f, initial) && CanHappen(f, e)
    ensures ReleaseInv(Happen(f, e))
  {
    hide ApplyAll, Sane, AdminNode, Entries;
    if e.EngineerShips? {
      var k :| 0 <= k < Processed(f) && f.desk.fulfilled[k] == f.waiting[e.engineer];
    }
  }

  lemma NoneForgottenKept(f: Factory, e: Event)
    requires CanHappen(f, e) && NoneForgotten(f)
    ensures NoneForgotten(Happen(f, e))
  {
    hide AdminNode, Sync;
    var f' := Happen(f, e);
    forall k: nat | k < |f'.enqueued| ensures k in f'.shipped || k in f'.waiting.Values {
      if e.EngineerQueues? && k == |f.enqueued| {
        assert f'.waiting[e.engineer] == k;
      } else if k !in f.shipped {
        var engineer :| engineer in f.waiting && f.waiting[engineer] == k;
        if e == EngineerShips(engineer) {
          assert f'.shipped[|f.shipped|] == k;
        } else {
          assert engineer in f'.waiting && f'.waiting[engineer] == k;
        }
      } else {
        assert f.shipped <= f'.shipped;
      }
    }
  }

  lemma {:induction false} InterleavingKeeps(f: Factory, initial: seq<MapOp>, run: seq<Event>)
    requires FactoryInv(f, initial) && NoneForgotten(f) && Plausible(f, run)
    ensures FactoryInv(AfterAll(f, run), initial) && NoneForgotten(AfterAll(f, run))
    decreases |run|
  {
    hide QueueInv, ReleaseInv, NoneForgotten, CanHappen, Happen;
    if run != [] {
      QueueKept(f, initial, run[0]);
      ReleaseKept(f, initial, run[0]);
      NoneForgottenKept(f, run[0]);
      InterleavingKeeps(Happen(f, run[0]), initial, run[1..]);
    }
  }
}
