/** The replication protocol of Server.cpp as a labelled transition system: one primary,
    any number of other nodes, and a step for everything that can happen to them, crashes
    in the middle of an admin step included.

    Nothing is assumed about a run beyond the guards of Enabled. Where the code breaks a
    backup (a bad delivery, a forked entry that is passed over, a file that is left with
    an entry the primary's log lacks), the node goes into `lost`, and from then on may be in any state
    whatever; every other node keeps the invariant.
  */
module Cluster {
  import opened RobotFactory
  import opened WalState
  import opened Replica

  /** The primary is between two admin steps, or in the send loop of one, with the sockets
      it has still to serve. The loop's order is left open. */
  datatype Phase = Idle | Sending(req: ReplReq, todo: set<nat>)

  /** `ref`, `high`, `sent`, `shipped` and `lost` are history:
      - ref: the logical log of the current primary, or of the last one if it is down;
      - high: the longest logical log a surviving node may still follow, one entry longer
        than the log the current step builds on at most;
      - sent: the commit index of the last request;
      - shipped: index and entry of every order whose engineer was released, oldest first; a
        promotion cuts off what the promoted node has never had. */
  datatype Cluster = Cluster(
    nodes: seq<Node>,
    up: set<nat>,
    primary: nat,
    recheckAllow: bool,
    live: set<nat>,
    phase: Phase,
    ref: seq<MapOp>,
    high: seq<MapOp>,
    sent: int,
    shipped: seq<(nat, MapOp)>,
    lost: set<nat>)

  datatype Label =
    | ClientClosed(n: nat)                      // a client leaves: log synced, recheck_allow = 1
    | Begin(op: MapOp, reached: set<nat>)       // admin step up to the send loop
    | Deliver(b: nat, acked: bool, cut: nat, any: Node)
    | Drop(b: nat)                              // the send fails before the backup has it
    | Finish                                    // commit and release the engineer
    | Crash(n: nat)
    | Promote(b: nat)                           // the front end turns to another node
    | Restarted(n: nat, fetched: int, any: Node)
    | Resume(fetched: int)                      // the crashed primary restarts and stays primary
    | Stray(n: nat, any: Node)                  // a lost node does anything

  // ---- pieces of a step ----

  predicate IsOrder(op: MapOp) {
    op.arg1 != COMMIT_ONLY
  }

  predicate OrderPhase(s: Cluster) {
    s.phase.Sending? && IsOrder(s.phase.req.record)
  }

  function Todo(s: Cluster): set<nat> {
    if s.phase.Sending? then s.phase.todo else {}
  }

  function WithTodo(phase: Phase, todo: set<nat>): Phase {
    if phase.Sending? then Sending(phase.req, todo) else phase
  }

  function Down(w: Wal): Node {
    EMPTY_NODE.(wal := WalState.Crash(w))
  }

  /** The primary's part of Begin: recheckcommit if allowed, then the append. The iterator
      must be valid, and at() must not throw. */
  predicate CanBegin(p: Node, recheck: bool, op: MapOp) {
    && 0 <= p.last + 1 <= |p.log|
    && (recheck ==> RecheckCommit(p).Running?)
  }

  function Rechecked(p: Node, recheck: bool): Node
    requires recheck ==> RecheckCommit(p).Running?
  {
    if recheck then RecheckCommit(p).node else p
  }

  function AfterAppend(p: Node, op: MapOp): Node
    requires 0 <= p.last + 1 <= |p.log|
  {
    if IsOrder(op) then PrimaryAppend(p, op) else p
  }

  function RequestFrom(id: nat, p: Node, op: MapOp): ReplReq {
    ReplReq(id, p.committed, p.last, op)
  }

  /** A node that already has an entry where the primary puts `op`, and not that one. */
  predicate HasAnother(m: Node, slot: int, op: MapOp) {
    m.last >= slot && !(0 <= m.last < |m.log| && m.log[m.last] == op)
  }

  /** Up nodes that hold more than the primary did when it took the order and that this
      step will not reach: the order forks the log away from under them. */
  function ForkedBy(s: Cluster, op: MapOp, served: set<nat>): set<nat>
    requires s.primary < |s.nodes|
  {
    set n: nat | n < |s.nodes| && n in s.up && n != s.primary && n !in served
                 && HasAnother(s.nodes[n], s.nodes[s.primary].last + 1, op)
  }

  /** The same, among nodes still waiting for the entry when the step is broken off. */
  function ForkedWaiting(s: Cluster): set<nat>
    requires s.phase.Sending?
  {
    set n: nat | n < |s.nodes| && n in s.phase.todo
                 && HasAnother(s.nodes[n], s.phase.req.lastIndex, s.phase.req.record)
  }

  /** A node whose log file holds an entry that the primary's log does not. */
  predicate StaleFile(s: Cluster, n: nat)
    requires n < |s.nodes|
  {
    !(s.nodes[n].wal.durable <= s.ref)
  }

  /** Nodes too far ahead of the node that is promoted. */
  function Overtaken(s: Cluster, b: nat): set<nat>
    requires b < |s.nodes|
  {
    set n: nat | n < |s.nodes| && n != b
                 && if n in s.up then s.nodes[n].last > s.nodes[b].last + 1 || s.nodes[n].committed > s.nodes[b].last
                    else |s.nodes[n].wal.durable| > s.nodes[b].last + 1
  }

  /** The shipped orders up to the first one that a log of length n does not reach. */
  function Within(shipped: seq<(nat, MapOp)>, n: nat): seq<(nat, MapOp)> {
    if shipped == [] || shipped[|shipped| - 1].0 < n then shipped else Within(shipped[..|shipped| - 1], n)
  }

  /** The last_index of a node that is promoted must have its entry. */
  predicate CanPromote(s: Cluster, b: nat) {
    b < |s.nodes| && 0 <= s.nodes[b].last + 1 <= |s.nodes[b].log|
  }

  // ---- guards ----

  ghost predicate Enabled(s: Cluster, l: Label) {
    && s.primary < |s.nodes|
    && match l
       case ClientClosed(n) => n < |s.nodes| && n in s.up
       case Begin(op, reached) =>
         && s.phase == Idle && s.primary in s.up
         && CanBegin(s.nodes[s.primary], s.recheckAllow, op)
         && (reached != {} ==> s.recheckAllow)
         && (forall n :: n in reached ==> n < |s.nodes| && n in s.up && n != s.primary)
       case Deliver(b, acked, cut, any) =>
         && s.phase.Sending? && b in s.phase.todo && b in s.up && b < |s.nodes| && b != s.primary
         && (b !in s.lost ==> Deliverable(s.nodes[b], s.phase.req))
       case Drop(b) => s.phase.Sending? && b in s.phase.todo && b < |s.nodes|
       case Finish => s.phase.Sending? && s.phase.todo == {}
       case Crash(n) => n < |s.nodes| && n in s.up
       case Promote(b) => s.primary !in s.up && b in s.up && b !in s.lost && CanPromote(s, b)
       case Restarted(n, fetched, any) => n < |s.nodes| && n !in s.up && n != s.primary
       case Resume(fetched) =>
         && s.primary !in s.up && s.primary !in s.lost
         && Restart(s.nodes[s.primary].wal.durable, fetched).Running?
       case Stray(n, any) => n < |s.nodes| && n in s.lost && n != s.primary
  }

  // ---- effects ----

  /** recheck_allow matters on the primary only. */
  function AfterClose(s: Cluster, n: nat): Cluster
    requires n < |s.nodes|
  {
    s.(nodes := s.nodes[n := s.nodes[n].(wal := Sync(s.nodes[n].wal))],
       recheckAllow := s.recheckAllow || n == s.primary)
  }

  function AfterBegin(s: Cluster, op: MapOp, reached: set<nat>): Cluster
    requires s.primary < |s.nodes| && CanBegin(s.nodes[s.primary], s.recheckAllow, op)
  {
    var p := Rechecked(s.nodes[s.primary], s.recheckAllow);
    var p' := AfterAppend(p, op);
    var served := s.live + reached;
    var forked := if IsOrder(op) then ForkedBy(s, op, served) else {};
    s.(nodes := s.nodes[s.primary := p'],
       recheckAllow := false,
       live := served,
       phase := Sending(RequestFrom(s.primary, p', op), served),
       ref := if IsOrder(op) then s.ref + [op] else s.ref,
       sent := p'.committed,
       lost := s.lost + forked)
  }

  ghost function AfterDeliver(s: Cluster, b: nat, acked: bool, cut: nat, any: Node): Cluster
    requires s.phase.Sending? && b < |s.nodes| && s.primary < |s.nodes|
    requires b !in s.lost ==> Deliverable(s.nodes[b], s.phase.req)
  {
    var n := s.nodes[b];
    var req := s.phase.req;
    var served := s.(phase := Sending(req, s.phase.todo - {b}), live := if acked then s.live else s.live - {b});
    if b in s.lost then served.(nodes := s.nodes[b := any])
    else
      var stream := Arriving(n, req, s.nodes[s.primary].log, cut);
      match Handle(n, req, stream)
      case Terminated(w) =>
        served.(nodes := s.nodes[b := Down(w)],
                up := s.up - {b},
                live := s.live - {b},
                lost := if w.durable <= s.ref then s.lost else s.lost + {b})
      case Running(n', unread) =>
        var bad := BadDelivery(n, s.ref, req, stream);
        served.(nodes := s.nodes[b := n'],
                live := if acked && (req.lastIndex - n.last > 1 ==> |stream| >= req.lastIndex - n.last)
                        then s.live else s.live - {b},
                lost := if bad then s.lost + {b} else s.lost)
  }

  function AfterDrop(s: Cluster, b: nat): Cluster
    requires s.phase.Sending?
  {
    var forked := if OrderPhase(s) && b in ForkedWaiting(s) then {b} else {};
    s.(live := s.live - {b},
       phase := Sending(s.phase.req, s.phase.todo - {b}),
       lost := s.lost + forked)
  }

  function AfterFinish(s: Cluster): Cluster
    requires s.phase.Sending? && s.primary < |s.nodes|
  {
    var op := s.phase.req.record;
    if IsOrder(op) then
      s.(nodes := s.nodes[s.primary := PrimaryCommit(s.nodes[s.primary], op)],
         phase := Idle,
         high := s.ref,
         shipped := s.shipped + [(if s.ref == [] then 0 else |s.ref| - 1, op)])
    else s.(phase := Idle)
  }

  function AfterCrash(s: Cluster, n: nat): Cluster
    requires n < |s.nodes|
  {
    var gone := s.(nodes := s.nodes[n := Down(s.nodes[n].wal)],
                   up := s.up - {n},
                   lost := if StaleFile(s, n) then s.lost + {n} else s.lost);
    if n != s.primary then
      gone.(live := s.live - {n}, phase := WithTodo(s.phase, Todo(s) - {n}))
    else
      var forked := if OrderPhase(s) then ForkedWaiting(s) else {};
      gone.(live := {}, phase := Idle,
            high := if OrderPhase(s) then s.ref else s.high,
            lost := gone.lost + forked)
  }

  function AfterPromote(s: Cluster, b: nat): Cluster
    requires CanPromote(s, b)
  {
    var ref := s.nodes[b].log[..s.nodes[b].last + 1];
    s.(primary := b,
       recheckAllow := true,
       live := {},
       phase := Idle,
       ref := ref,
       high := s.high[..Min(|s.high|, |ref| + 1)],
       shipped := Within(s.shipped, |ref|),
       lost := s.lost + Overtaken(s, b))
  }

  function AfterRestart(s: Cluster, n: nat, fetched: int, any: Node): Cluster
    requires n < |s.nodes|
  {
    if n in s.lost then CameUp(s, n, any)
    else
      match Restart(s.nodes[n].wal.durable, fetched)
      case Terminated(_) => s
      case Running(n', _) => CameUp(s, n, n')
  }

  /** A restart of the last primary that the front end still takes for the master. */
  function AfterResume(s: Cluster, fetched: int): Cluster
    requires s.primary < |s.nodes| && Restart(s.nodes[s.primary].wal.durable, fetched).Running?
  {
    AfterPromote(CameUp(s, s.primary, Restart(s.nodes[s.primary].wal.durable, fetched).node), s.primary)
  }

  function CameUp(s: Cluster, n: nat, m: Node): Cluster
    requires n < |s.nodes|
  {
    s.(nodes := s.nodes[n := m], up := s.up + {n})
  }

  ghost function Next(s: Cluster, l: Label): Cluster
    requires Enabled(s, l)
  {
    match l
    case ClientClosed(n) => AfterClose(s, n)
    case Begin(op, reached) => AfterBegin(s, op, reached)
    case Deliver(b, acked, cut, any) => AfterDeliver(s, b, acked, cut, any)
    case Drop(b) => AfterDrop(s, b)
    case Finish => AfterFinish(s)
    case Crash(n) => AfterCrash(s, n)
    case Promote(b) => AfterPromote(s, b)
    case Restarted(n, fetched, any) => AfterRestart(s, n, fetched, any)
    case Resume(fetched) => AfterResume(s, fetched)
    case Stray(n, any) => s.(nodes := s.nodes[n := any])
  }

  /** A factory cluster starts with every node up and empty. */
  ghost predicate Initial(s: Cluster) {
    && s.primary < |s.nodes|
    && (forall n: nat :: n < |s.nodes| <==> n in s.up)
    && (forall n :: 0 <= n < |s.nodes| ==> s.nodes[n] == EMPTY_NODE)
    && s.recheckAllow && s.live == {} && s.phase == Idle
    && s.ref == [] && s.high == [] && s.shipped == [] && s.lost == {}
  }

  ghost predicate Legal(s: Cluster, run: seq<Label>)
    decreases |run|
  {
    run == [] || (Enabled(s, run[0]) && Legal(Next(s, run[0]), run[1..]))
  }

  ghost function After(s: Cluster, run: seq<Label>): Cluster
    requires Legal(s, run)
    decreases |run|
  {
    if run == [] then s else After(Next(s, run[0]), run[1..])
  }

  ghost predicate Reachable(s: Cluster) {
    exists s0, run :: Initial(s0) && Legal(s0, run) && After(s0, run) == s
  }
}
