/** What the invariant gives: the promises of the replication protocol, over every run. */
module ClusterTheorems {
  import opened RobotFactory
  import opened WalState
  import opened Replica
  import opened Cluster
  import opened ClusterProofs

  /** The entries a node has applied to its customer record. */
  function CommittedLog(n: Node): seq<MapOp>
    requires 0 <= n.committed + 1 <= |n.log|
  {
    n.log[..n.committed + 1]
  }

  // ---- log agreement ----

  /** Between two admin steps every backup with an open socket has the primary's last
      index and log, every other surviving backup has a prefix of it, or all of it and one
      entry it never committed, and what is in the log file of a node that is down is a
      prefix of it. */
  lemma LogAgreement(s: Cluster, n: nat)
    requires Reachable(s) && s.phase == Idle && s.primary in s.up
    requires n < |s.nodes| && n != s.primary && n !in s.lost
    ensures s.primary < |s.nodes|
    ensures var p, m := s.nodes[s.primary], s.nodes[n];
            && Sane(p)
            && (n in s.live ==> Sane(m) && m.last == p.last && Logical(m) == Logical(p))
            && (n in s.up ==> Sane(m) && Follows(m, Logical(p)))
            && (n !in s.up ==> m.wal.durable <= Logical(p))
  {
    hide ApplyAll, Mirrored;
    ReachableInv(s);
    assert NodeInv(s, n);
    var m := s.nodes[n];
    if n in s.up {
      if |Logical(m)| <= |s.ref| {
        assert Logical(m) == s.high[..|Logical(m)|] == s.ref[..|Logical(m)|];
      } else {
        assert Logical(m) == s.high;
      }
    }
  }

  /** Every surviving node keeps the state-machine invariant, in either role: its indices
      are in order, its commit index lags by one at most, its record is the replay of its
      committed entries, and its write-ahead log spells out its log. */
  lemma EveryNodeSane(s: Cluster, n: nat)
    requires Reachable(s) && n < |s.nodes| && n in s.up && n !in s.lost
    ensures Sane(s.nodes[n])
  {
    hide Sane;
    ReachableInv(s);
    assert NodeInv(s, n);
  }

  /** No step of any run indexes or inserts past the end of a vector, or starts from an
      index that has no entry, on a node that is not lost. */
  lemma NeverUndefined(s: Cluster)
    requires Reachable(s)
    ensures s.phase == Idle && s.primary in s.up ==> forall op :: Enabled(s, Begin(op, {}))
    ensures s.phase.Sending? ==>
              forall b | b in s.phase.todo && b !in s.lost :: b < |s.nodes| && Deliverable(s.nodes[b], s.phase.req)
    ensures forall b | b in s.up - s.lost :: CanPromote(s, b)
  {
    hide Inv, Deliverable;
    ReachableInv(s);
    NothingUndefined(s);
    assert s.primary < |s.nodes| by { InvShape(s); }
  }

  /** The guards forbid nothing that can happen: in every reachable cluster any node that is up
      may crash or see a client leave, in the middle of an admin step or not; an idle primary
      may take any order and reach any nodes that are up, if a recheck is allowed; each backup
      still to be served may be served or not, with any answer and any cut; and while the
      primary is down any undamaged node may be promoted, whatever it lacks. */
  lemma NothingBlocks(s: Cluster, n: nat, any: Node)
    requires Reachable(s) && n < |s.nodes|
    ensures s.primary < |s.nodes|
    ensures n in s.up ==> Enabled(s, Crash(n)) && Enabled(s, ClientClosed(n))
    ensures n !in s.up && n != s.primary ==> forall fetched :: Enabled(s, Restarted(n, fetched, any))
    ensures s.phase == Idle && s.primary in s.up ==>
              forall op, reached | reached <= s.up - {s.primary} && (reached != {} ==> s.recheckAllow) ::
                Enabled(s, Begin(op, reached))
    ensures s.phase.Sending? && n in s.phase.todo ==>
              && Enabled(s, Drop(n))
              && forall acked, cut :: Enabled(s, Deliver(n, acked, cut, any))
    ensures s.phase.Sending? && s.phase.todo == {} ==> Enabled(s, Finish)
    ensures s.primary !in s.up && n in s.up && n !in s.lost ==> Enabled(s, Promote(n))
    ensures s.primary !in s.up && s.primary !in s.lost ==>
              forall fetched | Restart(s.nodes[s.primary].wal.durable, fetched).Running? :: Enabled(s, Resume(fetched))
  {
    hide Sane, History, PrimaryInv, NodeInv, Restart, Deliverable, RecheckCommit, Reachable;
    ReachableInv(s);
    NothingUndefined(s);
    if s.primary in s.up && s.phase == Idle {
      forall op, reached | reached <= s.up - {s.primary} && (reached != {} ==> s.recheckAllow)
        ensures Enabled(s, Begin(op, reached))
      {
        assert CanBegin(s.nodes[s.primary], s.recheckAllow, op);
      }
    }
  }

  // ---- who is lost ----

  /** What a surviving node must be for the protocol to count on it: dead, its file is a prefix
      of the primary's log; up, it follows that log. */
  ghost predicate KeepsUp(s: Cluster, n: nat, log: seq<MapOp>)
    requires n < |s.nodes| && (n in s.up ==> -1 <= s.nodes[n].last < |s.nodes[n].log|)
  {
    if n in s.up then Follows(s.nodes[n], log) else s.nodes[n].wal.durable <= log
  }

  /** A step that begins loses exactly the nodes it passes over whose log the primary's has
      then forked away from. */
  lemma BeginLoses(s: Cluster, op: MapOp, reached: set<nat>, n: nat)
    requires Inv(s) && Enabled(s, Begin(op, reached)) && n < |s.nodes| && n in s.up && n !in s.lost && n != s.primary
    ensures -1 <= s.nodes[n].last < |s.nodes[n].log|
    ensures var s' := AfterBegin(s, op, reached);
            n in s'.lost <==> n !in s'.live && !Follows(s.nodes[n], s'.ref)
  {
    hide ApplyAll, Mirrored, Write, RecheckCommit;
    assert NodeInv(s, n);
    var m := s.nodes[n];
    assert Logical(m) <= s.high;
    var s' := AfterBegin(s, op, reached);
    if |Logical(m)| > |s.ref| {
      assert Logical(m) == s.high && |Logical(m)| == |s.ref| + 1 && s.ref <= Logical(m);
      assert Logical(m)[|s.ref|] == m.log[m.last];
      assert Logical(m) == s.ref + [m.log[m.last]];
    }
  }

  /** A failed send loses its backup exactly if that holds another entry in the order's slot. */
  lemma DropLoses(s: Cluster, b: nat, n: nat)
    requires Inv(s) && Enabled(s, Drop(b)) && n < |s.nodes| && n !in s.lost && b !in s.lost
    ensures -1 <= s.nodes[b].last < |s.nodes[b].log|
    ensures n in AfterDrop(s, b).lost <==> n == b && OrderPhase(s) && !(Logical(s.nodes[b]) <= s.ref)
  {
    hide ApplyAll, Mirrored;
    TracksFollows(s, b);
    if OrderPhase(s) {
      WaitingFork(s, b);
    }
  }

  lemma WaitingFork(s: Cluster, b: nat)
    requires Inv(s) && OrderPhase(s) && b in s.phase.todo && b !in s.lost
    ensures b < |s.nodes| && Sane(s.nodes[b])
    ensures HasAnother(s.nodes[b], s.phase.req.lastIndex, s.phase.req.record) <==> !(Logical(s.nodes[b]) <= s.ref)
  {
    hide ApplyAll, Mirrored;
    TracksFollows(s, b);
    var m, base := s.nodes[b], StepBase(s);
    assert Base(s.ref, s.phase.req) == base && s.ref == base + [s.phase.req.record];
    if |Logical(m)| > |base| {
      assert Logical(m)[|base|] == m.log[m.last];
      assert Logical(m) == base + [m.log[m.last]];
    }
  }

  /** A crash loses the crashed node exactly if its file is no prefix of the primary's log, and
      a crash of the primary in the middle of an order the waiting backups that hold another
      entry in its slot. */
  lemma CrashLoses(s: Cluster, c: nat, n: nat)
    requires Inv(s) && Enabled(s, Crash(c)) && n < |s.nodes| && n !in s.lost
    ensures n == c ==> (n in AfterCrash(s, c).lost <==> !(s.nodes[n].wal.durable <= s.ref))
    ensures n != c && n in Todo(s) ==> -1 <= s.nodes[n].last < |s.nodes[n].log|
    ensures n != c ==> (n in AfterCrash(s, c).lost <==>
                          c == s.primary && OrderPhase(s) && n in Todo(s) && !(Logical(s.nodes[n]) <= s.ref))
  {
    hide ApplyAll, Mirrored;
    InvShape(s);
    if n in Todo(s) {
      TracksFollows(s, n);
      if OrderPhase(s) {
        WaitingFork(s, n);
      }
    }
  }

  /** A promotion loses exactly the nodes that do not keep up with the promoted node's log. */
  lemma PromoteLoses(s: Cluster, b: nat, n: nat)
    requires Inv(s) && Enabled(s, Promote(b)) && n < |s.nodes| && n !in s.lost && n != b
    ensures n in s.up ==> -1 <= s.nodes[n].last < |s.nodes[n].log|
    ensures n in AfterPromote(s, b).lost <==> !KeepsUp(s, n, AfterPromote(s, b).ref)
  {
    hide ApplyAll, Mirrored;
    assert NodeInv(s, b) && NodeInv(s, n);
    var ref := AfterPromote(s, b).ref;
    assert ref == Logical(s.nodes[b]) <= s.high;
    if n in s.up {
      PrefixesFollow(s.nodes[n], ref, s.high);
    } else {
      assert s.nodes[n].wal.durable <= s.high;
    }
  }

  lemma PrefixesFollow(m: Node, ref: seq<MapOp>, high: seq<MapOp>)
    requires -1 <= m.last < |m.log| && Logical(m) <= high && ref <= high
    ensures Follows(m, ref) <==> m.last <= |ref| - 1 || (m.last == |ref| && m.committed < |ref|)
  {
    if |Logical(m)| <= |ref| {
      assert Logical(m) == high[..|Logical(m)|] == ref[..|Logical(m)|];
    } else {
      assert ref == high[..|ref|] == Logical(m)[..|ref|];
    }
  }

  // ---- staleness ----

  /** Between two admin steps a connected backup's record is the primary's, or lacks its
      newest entry: reads differ for that entry's customer at most. */
  lemma BoundedStaleness(s: Cluster, n: nat, customer: int)
    requires Reachable(s) && s.phase == Idle && n in s.live && n !in s.lost
    ensures n < |s.nodes| && s.primary < |s.nodes|
    ensures var p, m := s.nodes[s.primary], s.nodes[n];
            && Sane(p) && Sane(m) && p.committed == p.last && m.committed == s.sent
            && p.last - 1 <= s.sent <= p.last
            && p.record == Replay(Logical(p))
            && m.record == Replay(Logical(p)[..s.sent + 1])
            && (Lookup(m.record, customer) != Lookup(p.record, customer) ==>
                  s.sent < p.last && customer == p.log[p.last].arg1)
  {
    hide Inv, Reachable, Sane, ApplyAll, Replay;
    ReachableInv(s);
    ConnectedRecord(s, n);
    var log := Logical(s.nodes[s.primary]);
    var last := |log| - 1;
    assert log[..last + 1] == log;
    if s.sent < last && customer != log[last].arg1 {
      OneEntryOneCustomer(log, last, customer);
    }
  }

  lemma ConnectedRecord(s: Cluster, n: nat)
    requires Inv(s) && s.phase == Idle && n in s.live && n !in s.lost
    ensures n < |s.nodes| && s.primary < |s.nodes|
    ensures var p, m := s.nodes[s.primary], s.nodes[n];
            && Sane(p) && Sane(m) && p.committed == p.last < |p.log| && m.committed == s.sent
            && p.last - 1 <= s.sent <= p.last && -1 <= s.sent
            && |Logical(p)| == p.last + 1 && (p.last >= 0 ==> Logical(p)[p.last] == p.log[p.last])
            && p.record == Replay(Logical(p))
            && m.record == Replay(Logical(p)[..s.sent + 1])
  {
    hide ApplyAll, Mirrored;
    assert NodeInv(s, n);
    var p, m := s.nodes[s.primary], s.nodes[n];
    assert CommittedLog(m) == Logical(m)[..s.sent + 1];
    assert CommittedLog(p) == Logical(p);
  }

  /** After a commit-only step there is no difference left. */
  lemma CommitOnlyConverges(s: Cluster, n: nat)
    requires Reachable(s) && Enabled(s, Finish) && !IsOrder(s.phase.req.record)
    requires n in s.live && n !in s.lost
    ensures n < |s.nodes| && s.primary < |s.nodes|
    ensures var s' := AfterFinish(s);
            s'.nodes[n].record == s'.nodes[s.primary].record && Sane(s'.nodes[n]) && Sane(s'.nodes[s.primary])
            && Logical(s'.nodes[n]) == Logical(s'.nodes[s.primary])
  {
    hide ApplyAll, Mirrored;
    ReachableInv(s);
    assert NodeInv(s, n);
    var p, m := s.nodes[s.primary], s.nodes[n];
    assert CommittedLog(m) == Logical(m) && CommittedLog(p) == Logical(p);
  }

  // ---- what a node has committed only grows ----

  /** The steps that move a node's commit index are a delivery to it and the two halves of
      its own admin step. */
  lemma OtherwiseUntouched(s: Cluster, l: Label, n: nat)
    requires Enabled(s, l) && n < |s.nodes| && n in s.up && n in Next(s, l).up && n !in s.lost
    requires l.Deliver? ==> l.b != n
    requires l.Begin? || l.Finish? ==> n != s.primary
    ensures n < |Next(s, l).nodes|
    ensures Next(s, l).nodes[n].log == s.nodes[n].log && Next(s, l).nodes[n].committed == s.nodes[n].committed
  {
    hide Handle, Deliverable, Arriving, BadDelivery, Restart, StaleFile, Overtaken, ForkedBy, ForkedWaiting, Write, RecheckCommit;
  }

  lemma StepGrowsCommitted(s: Cluster, l: Label, n: nat)
    requires Inv(s) && Enabled(s, l)
    requires n < |s.nodes| && n in s.up && n !in s.lost
    requires n in Next(s, l).up && n !in Next(s, l).lost
    ensures n < |Next(s, l).nodes| && Sane(s.nodes[n]) && Sane(Next(s, l).nodes[n])
    ensures CommittedLog(s.nodes[n]) <= CommittedLog(Next(s, l).nodes[n])
  {
    hide Inv, Enabled;
    StepKeeps(s, l);
    NodeSane(s, n);
    SameNodes(s, l);
    NodeSane(Next(s, l), n);
    if l.Deliver? && l.b == n {
      DeliverGrows(s, n, l.acked, l.cut, l.any);
    } else if l.Begin? && n == s.primary {
      BeginGrows(s, l.op, l.reached);
    } else if l.Finish? && n == s.primary {
      FinishGrows(s);
    } else {
      OtherwiseUntouched(s, l, n);
    }
  }

  lemma SameNodes(s: Cluster, l: Label)
    requires Enabled(s, l)
    ensures |Next(s, l).nodes| == |s.nodes|
  {
    hide Handle, Deliverable, Arriving, BadDelivery, Restart;
  }

  lemma DeliverGrows(s: Cluster, n: nat, acked: bool, cut: nat, any: Node)
    requires Inv(s) && Enabled(s, Deliver(n, acked, cut, any)) && n !in s.lost
    requires n in AfterDeliver(s, n, acked, cut, any).up && n !in AfterDeliver(s, n, acked, cut, any).lost
    ensures var m, m' := s.nodes[n], AfterDeliver(s, n, acked, cut, any).nodes[n];
            Sane(m) && Sane(m') && CommittedLog(m) <= CommittedLog(m')
  {
    hide ApplyAll, Mirrored, Handle, Arriving, BadDelivery;
    TracksFollows(s, n);
    DeliveryHere(s, n, cut);
    CommittedIsPrefix(s.nodes[n], s.ref, s.phase.req);
  }

  lemma BeginGrows(s: Cluster, op: MapOp, reached: set<nat>)
    requires Inv(s) && Enabled(s, Begin(op, reached))
    ensures var m, m' := s.nodes[s.primary], AfterBegin(s, op, reached).nodes[s.primary];
            && 0 <= m.committed + 1 <= |m.log| && 0 <= m'.committed + 1 <= |m'.log|
            && CommittedLog(m) <= CommittedLog(m')
  {
    hide ApplyAll, Mirrored, Write;
    RecheckSane(s.nodes[s.primary]);
  }

  lemma FinishGrows(s: Cluster)
    requires Inv(s) && Enabled(s, Finish)
    ensures var m, m' := s.nodes[s.primary], AfterFinish(s).nodes[s.primary];
            && 0 <= m.committed + 1 <= |m.log| && 0 <= m'.committed + 1 <= |m'.log|
            && CommittedLog(m) <= CommittedLog(m')
  {
    hide ApplyAll, Mirrored;
  }

  lemma CommittedIsPrefix(m: Node, ref: seq<MapOp>, r: ReplReq)
    requires Consistent(m) && RequestOf(ref, r) && Follows(m, Base(ref, r))
    ensures m.committed <= r.committedIndex
    ensures CommittedLog(m) == ref[..m.committed + 1]
  {
    hide ApplyAll;
    var base := Base(ref, r);
    assert CommittedLog(m) == Logical(m)[..m.committed + 1];
    if Logical(m) <= base {
      assert Logical(m)[..m.committed + 1] == base[..m.committed + 1];
    } else {
      assert Logical(m)[..m.committed + 1] == base[..m.committed + 1];
    }
    assert base[..m.committed + 1] == ref[..m.committed + 1];
  }

  /** The node runs on, undamaged, through the whole run. */
  ghost predicate Uninterrupted(s: Cluster, run: seq<Label>, n: nat)
    requires Legal(s, run)
    decreases |run|
  {
    && n < |s.nodes| && n in s.up && n !in s.lost
    && (run != [] ==> Uninterrupted(Next(s, run[0]), run[1..], n))
  }

  /** Over any run that does not interrupt a node, what it has committed only grows. */
  lemma {:induction false} RunGrowsCommitted(s: Cluster, run: seq<Label>, n: nat)
    requires Inv(s) && Legal(s, run) && Uninterrupted(s, run, n)
    ensures var s' := After(s, run);
            && n < |s.nodes| == |s'.nodes| && n in s'.up && n !in s'.lost && Sane(s.nodes[n]) && Sane(s'.nodes[n])
            && CommittedLog(s.nodes[n]) <= CommittedLog(s'.nodes[n])
    decreases |run|
  {
    hide Inv, Next, Enabled, Sane, CommittedLog;
    if run != [] {
      StepKeeps(s, run[0]);
      assert Uninterrupted(Next(s, run[0]), run[1..], n);
      SameNodes(s, run[0]);
      StepGrowsCommitted(s, run[0], n);
      RunGrowsCommitted(Next(s, run[0]), run[1..], n);
    } else {
      NodeSane(s, n);
    }
  }

  lemma NodeSane(s: Cluster, n: nat)
    requires Inv(s) && n < |s.nodes| && n in s.up && n !in s.lost
    ensures Sane(s.nodes[n])
  {
    hide Sane;
    assert NodeInv(s, n);
  }
}
