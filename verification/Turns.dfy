/** One turn of the admin thread, sockets and all, is a run of the replication protocol. */
module Turns {
  import opened RobotFactory
  import opened WalState
  import opened Replica
  import opened Cluster
  import opened ClusterProofs
  import opened AdminQueue
  import opened Server

  /** factories_record names each other node once. */
  predicate Knows(s: Cluster, ids: seq<nat>) {
    && (forall i :: 0 <= i < |ids| ==> ids[i] < |s.nodes| && ids[i] != s.primary)
    && (forall i, j :: 0 <= i < j < |ids| ==> ids[i] != ids[j])
  }

  function Open(sockets: seq<int>, ids: seq<nat>): set<nat>
    requires |sockets| == |ids|
  {
    OpenBetween(sockets, ids, 0, |ids|)
  }

  function OpenBetween(sockets: seq<int>, ids: seq<nat>, from: nat, to: nat): set<nat>
    requires from <= to <= |sockets| == |ids|
  {
    set i | from <= i < to && sockets[i] >= 0 :: ids[i]
  }

  /** The backups that are reached again. */
  function Retried(sockets: seq<int>, attempts: seq<int>, ids: seq<nat>): set<nat>
    requires |sockets| == |attempts| == |ids|
  {
    set i | 0 <= i < |ids| && sockets[i] < 0 < attempts[i] :: ids[i]
  }

  /** `to` is `from` after a recheck, if one was allowed. */
  ghost predicate RecheckedTo(allow: bool, from: seq<int>, attempts: seq<int>, to: seq<int>) {
    && |from| == |attempts| == |to|
    && forall i :: 0 <= i < |to| ==> to[i] == if allow then SocketRechecked(from[i], attempts[i]) else from[i]
  }

  /** The sockets the send loop starts from are the ones that were open and, if a recheck was
      allowed, the closed ones whose attempt succeeded. */
  lemma RecheckReaches(allow: bool, from: seq<int>, attempts: seq<int>, to: seq<int>, ids: seq<nat>)
    requires RecheckedTo(allow, from, attempts, to) && |ids| == |to|
    ensures Open(to, ids) == Open(from, ids) + if allow then Retried(from, attempts, ids) else {}
  {
    forall b: nat ensures b in Open(to, ids) <==> b in Open(from, ids) + if allow then Retried(from, attempts, ids) else {} {
      if b in Open(to, ids) {
        var i :| 0 <= i < |ids| && to[i] >= 0 && ids[i] == b;
        SocketReopens(from[i], attempts[i]);
      }
      if b in Open(from, ids) {
        var i :| 0 <= i < |ids| && from[i] >= 0 && ids[i] == b;
        SocketReopens(from[i], attempts[i]);
      }
      if allow && b in Retried(from, attempts, ids) {
        var i :| 0 <= i < |ids| && from[i] < 0 < attempts[i] && ids[i] == b;
        SocketReopens(from[i], attempts[i]);
      }
    }
  }

  // ---- the send loop ----

  /** What comes back from one backup, whether the request got there, and how much of the
      recovery stream did. */
  datatype Turn = Turn(x: Exchange, arrives: bool, cut: nat, any: Node)

  predicate Acknowledged(t: Turn) {
    t.x.sent && (t.x.ack == Ack(1) || (t.x.ack == Ack(2) && t.x.recoverySent && t.x.reack == Ack(1)))
  }

  function LabelOf(b: nat, t: Turn): Label {
    if t.arrives then Deliver(b, Acknowledged(t), t.cut, t.any) else Drop(b)
  }

  /** A backup acknowledges only what reached it in full and did not kill it. */
  ghost predicate Truthful(s: Cluster, b: nat, t: Turn) {
    Acknowledged(t) && s.phase.Sending? && b < |s.nodes| && s.primary < |s.nodes| ==>
      && t.arrives
      && (b !in s.lost && Deliverable(s.nodes[b], s.phase.req) ==>
            var stream := Arriving(s.nodes[b], s.phase.req, s.nodes[s.primary].log, t.cut);
            var gap := s.phase.req.lastIndex - s.nodes[b].last;
            && Handle(s.nodes[b], s.phase.req, stream).Running?
            && (gap > 1 ==> |stream| >= gap))
  }

  /** The labels of the send loop from socket i on. */
  function Sends(sockets: seq<int>, ids: seq<nat>, turns: seq<Turn>, i: nat): seq<Label>
    requires i <= |sockets| == |ids| == |turns|
    decreases |sockets| - i
  {
    if i == |sockets| then []
    else if sockets[i] < 0 then Sends(sockets, ids, turns, i + 1)
    else [LabelOf(ids[i], turns[i])] + Sends(sockets, ids, turns, i + 1)
  }

  ghost predicate AllTruthful(s: Cluster, sockets: seq<int>, ids: seq<nat>, turns: seq<Turn>, i: nat)
    requires i <= |sockets| == |ids| == |turns|
    decreases |sockets| - i
  {
    i < |sockets| ==>
      if sockets[i] < 0 then AllTruthful(s, sockets, ids, turns, i + 1)
      else
        && Truthful(s, ids[i], turns[i])
        && (Enabled(s, LabelOf(ids[i], turns[i])) ==>
              AllTruthful(Next(s, LabelOf(ids[i], turns[i])), sockets, ids, turns, i + 1))
  }

  ghost predicate SentTo(before: seq<int>, turns: seq<Turn>, after: seq<int>) {
    && |before| == |turns| == |after|
    && forall i :: 0 <= i < |after| ==> after[i] == SocketAfter(before[i], turns[i].x)
  }

  /** Before turn i of the loop: the sockets from i on are still to be served, and the open
      ones are those and the ones that acknowledged. */
  ghost predicate InLoop(s: Cluster, req: ReplReq, before: seq<int>, after: seq<int>, ids: seq<nat>, i: nat)
    requires i <= |before| == |after| == |ids|
  {
    && Inv(s) && s.primary in s.up && Knows(s, ids)
    && s.phase == Sending(req, OpenBetween(before, ids, i, |ids|))
    && s.live == OpenBetween(after, ids, 0, i) + OpenBetween(before, ids, i, |ids|)
  }

  lemma OpenParts(before: seq<int>, after: seq<int>, ids: seq<nat>, i: nat)
    requires i < |before| == |after| == |ids|
    ensures OpenBetween(after, ids, 0, i + 1) == OpenBetween(after, ids, 0, i) + if after[i] >= 0 then {ids[i]} else {}
    ensures OpenBetween(before, ids, i, |ids|)
         == (if before[i] >= 0 then {ids[i]} else {}) + OpenBetween(before, ids, i + 1, |ids|)
  {
  }

  lemma OnlyOnce(s: Cluster, before: seq<int>, after: seq<int>, ids: seq<nat>, i: nat)
    requires Knows(s, ids) && i < |before| == |after| == |ids|
    ensures ids[i] !in OpenBetween(after, ids, 0, i) && ids[i] !in OpenBetween(before, ids, i + 1, |ids|)
  {
  }

  /** What one turn of the loop does to the sockets. */
  lemma SendEffect(s: Cluster, b: nat, t: Turn)
    requires Inv(s) && s.primary in s.up && s.phase.Sending? && b in s.phase.todo && Truthful(s, b, t)
    ensures Enabled(s, LabelOf(b, t))
    ensures var s' := Next(s, LabelOf(b, t));
            && s'.phase == Sending(s.phase.req, s.phase.todo - {b})
            && s'.live == (if Acknowledged(t) then s.live else s.live - {b})
            && s'.primary == s.primary < |s.nodes| == |s'.nodes| && s'.nodes[s.primary] == s.nodes[s.primary]
            && s'.up - {b} == s.up - {b} && s'.recheckAllow == s.recheckAllow
            && s'.ref == s.ref && s'.shipped == s.shipped
  {
    hide Handle, Deliverable, Arriving, BadDelivery, NodeInv, History, PrimaryInv, ForkedWaiting;
    NothingUndefined(s);
  }

  /** The send loop is a run of deliveries and failed sends, one for each open socket. */
  lemma {:induction false} SendLoop(
      s: Cluster, req: ReplReq, before: seq<int>, after: seq<int>, ids: seq<nat>, turns: seq<Turn>, i: nat)
    requires i <= |before| == |after| == |ids| == |turns|
    requires SentTo(before, turns, after) && InLoop(s, req, before, after, ids, i)
    requires AllTruthful(s, before, ids, turns, i)
    ensures Legal(s, Sends(before, ids, turns, i))
    ensures var s' := After(s, Sends(before, ids, turns, i));
            && InLoop(s', req, before, after, ids, |ids|)
            && s'.primary == s.primary < |s.nodes| == |s'.nodes| && s'.nodes[s.primary] == s.nodes[s.primary]
            && s'.recheckAllow == s.recheckAllow && s'.ref == s.ref && s'.shipped == s.shipped
    decreases |before| - i
  {
    hide Inv, Enabled, Next, OpenBetween, Truthful, LabelOf, SocketAfter;
    InvShape(s);
    if i == |before| {
      RunOf(s, []);
    } else {
      OpenParts(before, after, ids, i);
      SocketSurvives(before[i], turns[i].x);
      if before[i] < 0 {
        SendLoop(s, req, before, after, ids, turns, i + 1);
      } else {
        OnlyOnce(s, before, after, ids, i);
        SendEffect(s, ids[i], turns[i]);
        var l := LabelOf(ids[i], turns[i]);
        StepKeeps(s, l);
        assert SocketAfter(before[i], turns[i].x) >= 0 <==> Acknowledged(turns[i]);
        PrimaryStays(s, l, ids[i]);
        SendLoop(Next(s, l), req, before, after, ids, turns, i + 1);
        RunCons(s, l, Sends(before, ids, turns, i + 1));
      }
    }
  }

  lemma PrimaryStays(s: Cluster, l: Label, b: nat)
    requires Enabled(s, l) && s.primary in s.up && b != s.primary
    requires Next(s, l).up - {b} == s.up - {b} && Next(s, l).primary == s.primary
    ensures s.primary in Next(s, l).up
  {
    assert s.primary in s.up - {b};
  }

  // ---- the whole turn ----

  /** The run of one turn of admin_thread. */
  function TurnRun(robot: RobotInf, reached: set<nat>, sockets: seq<int>, ids: seq<nat>, turns: seq<Turn>): seq<Label>
    requires |sockets| == |ids| == |turns|
  {
    [Begin(EntryOf(robot), reached)] + (Sends(sockets, ids, turns, 0) + [Finish])
  }

  /** A turn of the admin thread, with sockets `from`, `to` after the recheck and `end` after
      the send loop, is the run of the protocol in which Begin reaches the backups that were
      connected again, each open socket has its delivery or failed send, and Finish commits:
      the node, recheck_allow and the set of open sockets end up the same. */
  lemma TurnIsRun(s: Cluster, d: Desk, from: seq<int>, attempts: seq<int>, to: seq<int>, end: seq<int>,
                  ids: seq<nat>, turns: seq<Turn>)
    requires Inv(s) && s.phase == Idle && s.primary in s.up && Knows(s, ids)
    requires s.primary < |s.nodes| && d.node == s.nodes[s.primary] && d.recheckAllow == s.recheckAllow
    requires d.adminThreadList != [] && d.barrierList != []
    requires |from| == |attempts| == |to| == |end| == |ids| == |turns| && s.live == Open(from, ids)
    requires RecheckedTo(s.recheckAllow, from, attempts, to) && SentTo(to, turns, end)
    requires s.recheckAllow ==> Retried(from, attempts, ids) <= s.up
    requires var reached := if s.recheckAllow then Retried(from, attempts, ids) else {};
             Enabled(s, Begin(EntryOf(d.adminThreadList[0]), reached)) ==>
               AllTruthful(AfterBegin(s, EntryOf(d.adminThreadList[0]), reached), to, ids, turns, 0)
    ensures var robot := d.adminThreadList[0];
            var reached := if s.recheckAllow then Retried(from, attempts, ids) else {};
            && Legal(s, TurnRun(robot, reached, to, ids, turns))
            && AdminNode(d.node, d.recheckAllow, robot).Running?
            && var s' := After(s, TurnRun(robot, reached, to, ids, turns));
            && s'.phase == Idle && s'.primary == s.primary < |s'.nodes|
            && s'.nodes[s.primary] == AdminStep(d).node && s'.recheckAllow == AdminStep(d).recheckAllow
            && s'.live == Open(end, ids)
            && |s'.shipped| == |s.shipped| + if IsOrderRobot(robot) then 1 else 0
  {
    hide Inv, Enabled, Next, AfterBegin, AfterFinish, OpenBetween, AllTruthful, AdminNode, Legal, After, Sends, SentTo, Knows;
    var robot := d.adminThreadList[0];
    var op := EntryOf(robot);
    var reached := if s.recheckAllow then Retried(from, attempts, ids) else {};
    TurnBegins(s, op, reached, from, attempts, to, ids);
    AdminStepIsBeginAndFinish(s, robot, reached);
    StepKeeps(s, Begin(op, reached));
    NextBegin(s, op, reached);
    var s1 := AfterBegin(s, op, reached);
    LoopStarts(s1, s1.phase.req, to, end, ids);
    SendLoop(s1, s1.phase.req, to, end, ids, turns, 0);
    var s2 := After(s1, Sends(to, ids, turns, 0));
    LoopEnds(s2, s1.phase.req, to, end, ids);
    FinishSame(s1, s2);
    RunOf(Next(s2, Finish), []);
    RunCons(s2, Finish, []);
    assert [Finish] + [] == [Finish];
    RunConcat(s1, Sends(to, ids, turns, 0), [Finish]);
    RunCons(s, Begin(op, reached), Sends(to, ids, turns, 0) + [Finish]);
  }

  lemma NextBegin(s: Cluster, op: MapOp, reached: set<nat>)
    requires Enabled(s, Begin(op, reached))
    ensures s.primary < |s.nodes| && CanBegin(s.nodes[s.primary], s.recheckAllow, op)
    ensures Next(s, Begin(op, reached)) == AfterBegin(s, op, reached)
  {
  }

  lemma TurnBegins(s: Cluster, op: MapOp, reached: set<nat>, from: seq<int>, attempts: seq<int>, to: seq<int>, ids: seq<nat>)
    requires Inv(s) && s.phase == Idle && s.primary in s.up && Knows(s, ids)
    requires |from| == |attempts| == |to| == |ids| && s.live == Open(from, ids)
    requires RecheckedTo(s.recheckAllow, from, attempts, to)
    requires reached == if s.recheckAllow then Retried(from, attempts, ids) else {}
    requires reached <= s.up
    ensures Enabled(s, Begin(op, reached))
    ensures var s' := AfterBegin(s, op, reached);
            && s'.live == Open(to, ids) && s'.phase.Sending? && s'.phase.todo == Open(to, ids)
            && s'.phase.req.record == op
            && s'.primary == s.primary && s'.up == s.up && Knows(s', ids) && s'.shipped == s.shipped
            && |s'.nodes| == |s.nodes|
  {
    hide Inv, Write, RecheckCommit, ForkedBy, RecheckedTo, Open;
    InvShape(s);
    NothingUndefined(s);
    RecheckReaches(s.recheckAllow, from, attempts, to, ids);
  }

  lemma LoopStarts(s: Cluster, req: ReplReq, before: seq<int>, after: seq<int>, ids: seq<nat>)
    requires Inv(s) && s.primary in s.up && Knows(s, ids) && |before| == |after| == |ids|
    requires s.phase == Sending(req, Open(before, ids)) && s.live == Open(before, ids)
    ensures InLoop(s, req, before, after, ids, 0)
  {
    hide Inv;
    assert OpenBetween(after, ids, 0, 0) == {};
  }

  lemma LoopEnds(s: Cluster, req: ReplReq, before: seq<int>, after: seq<int>, ids: seq<nat>)
    requires |before| == |after| == |ids| && InLoop(s, req, before, after, ids, |ids|)
    ensures s.phase == Sending(req, {}) && s.live == Open(after, ids) && s.primary < |s.nodes|
  {
    hide Inv;
    InvShape(s);
    assert OpenBetween(before, ids, |ids|, |ids|) == {};
  }

  /** The last half of the step looks at the primary and the request only. */
  lemma FinishSame(s1: Cluster, s2: Cluster)
    requires s1.phase.Sending? && s2.phase == Sending(s1.phase.req, {})
    requires s1.primary == s2.primary < |s1.nodes| == |s2.nodes| && s1.nodes[s1.primary] == s2.nodes[s1.primary]
    requires s1.recheckAllow == s2.recheckAllow && s1.shipped == s2.shipped
    ensures Enabled(s2, Finish)
    ensures var s' := Next(s2, Finish);
            && s'.phase == Idle && s'.primary == s1.primary && |s'.nodes| == |s2.nodes|
            && s'.nodes[s1.primary] == AfterFinish(s1).nodes[s1.primary]
            && s'.recheckAllow == AfterFinish(s1).recheckAllow && s'.live == s2.live
            && |s'.shipped| == |s1.shipped| + if IsOrder(s1.phase.req.record) then 1 else 0
  {
  }
}
