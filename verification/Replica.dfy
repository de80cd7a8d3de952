/** One node of the factory cluster: what Server.cpp does to its log, its commit indices,
    its customer record and its write-ahead log, as functions from old state to new.
    Indices start at 0, -1 stands for "none"; the customer record is meant to be Replay
    of the committed entries.
  */
module Replica {
  import opened RobotFactory
  import opened WalState

  const BATCH_SIZE := 10
  const F_FLUSH := false
  const CFG := WalConfig(BATCH_SIZE, F_FLUSH)

  datatype Node = Node(log: seq<MapOp>, last: int, committed: int, record: Records, wal: Wal)

  /** A handler either returns, possibly leaving bytes of the stream unread, or dies of an
      uncaught std::out_of_range from vector::at. */
  datatype Outcome = Running(node: Node, unread: seq<MapOp>) | Terminated(wal: Wal)

  const EMPTY_NODE := Node([], -1, -1, map[], Fresh([]))

  /** The log as far as last_index says it has data. */
  function Logical(n: Node): seq<MapOp>
    requires -1 <= n.last < |n.log|
  {
    n.log[..n.last + 1]
  }

  /** Entries pushed beyond last_index; they are never applied by this node's handlers. */
  function Tail(n: Node): seq<MapOp>
    requires -1 <= n.last < |n.log|
  {
    n.log[n.last + 1..]
  }

  /** The state-machine invariant of a node in either role. */
  ghost predicate Consistent(n: Node) {
    && -1 <= n.committed <= n.last < |n.log|
    && n.last - n.committed <= 1
    && n.record == Replay(n.log[..n.committed + 1])
  }

  /** File, stdio buffer and batch together spell out the log, unless entries were pushed
      beyond last_index (those were logged in arrival order). */
  ghost predicate Mirrored(n: Node)
    requires -1 <= n.last < |n.log|
  {
    Tail(n) == [] ==> All(n.wal) == n.log
  }

  ghost predicate Sane(n: Node) {
    Consistent(n) && Mirrored(n)
  }

  // ---- primary ----

  /** recheckcommit. */
  function RecheckCommit(n: Node): Outcome {
    if 0 <= n.last && n.last > n.committed then
      if n.last < |n.log| then
        Running(n.(record := Apply(n.record, n.log[n.last]), committed := n.last), [])
      else Terminated(n.wal)
    else Running(n, [])
  }

  /** The logging half of an admin step. */
  function PrimaryAppend(n: Node, op: MapOp): Node
    requires 0 <= n.last + 1 <= |n.log|
  {
    n.(last := n.last + 1, wal := Write(CFG, n.wal, op), log := Insert(n.log, n.last + 1, op))
  }

  /** The committing half. */
  function PrimaryCommit(n: Node, op: MapOp): Node {
    n.(record := Apply(n.record, op), committed := n.last)
  }

  /** What SendRecoveryLog sends a backup that reported `committed`. */
  function RecoveryStream(log: seq<MapOp>, committed: int): seq<MapOp> {
    if 0 <= committed + 1 <= |log| then log[committed + 1..] else []
  }

  // ---- backup ----

  function Min(a: int, b: int): int {
    if a <= b then a else b
  }

  /** What GetRecoveryLog leaves in the log when `stream` is all that will ever arrive. */
  function Received(log: seq<MapOp>, last: int, need: nat, stream: seq<MapOp>): seq<MapOp>
    requires 0 <= last + 1 <= |log|
  {
    log[..last + 1] + stream[..Min(need, |stream|)] + log[last + 1..]
  }

  /** initiate_recovery after a stream that was not cut: log the new entries and commit
      those the primary has committed. */
  function AdoptRecovered(n: Node, log: seq<MapOp>, remoteLast: int, remoteCommitted: int): Node
    requires -1 <= n.last <= remoteLast < |log|
  {
    var wal := WriteAll(CFG, n.wal, log[n.last + 1..remoteLast + 1]);
    var upto := Min(remoteLast, remoteCommitted);
    if upto <= n.last then n.(log := log, wal := wal)
    else
      n.(log := log, wal := wal, committed := upto,
         record := ApplyAll(n.record, log[n.last + 1..upto + 1]))
  }

  /** The end of ifa_thread_read: take over the primary's last index and commit index. */
  function LearnCommit(n: Node, r: ReplReq, unread: seq<MapOp>): Outcome {
    var m := n.(last := r.lastIndex);
    if r.committedIndex == -1 then Running(m, unread)
    else if 0 <= r.committedIndex < |n.log| then
      Running(m.(record := Apply(n.record, n.log[r.committedIndex]), committed := r.committedIndex), unread)
    else Terminated(n.wal)
  }

  ghost predicate Deliverable(n: Node, r: ReplReq) {
    && 0 <= n.last + 1 <= |n.log|
    && (r.lastIndex - n.last <= 1 && r.record.arg1 != COMMIT_ONLY ==> 0 <= r.lastIndex <= |n.log|)
  }

  /** ifa_thread_read. `stream` is what arrives on the connection behind the request before
      it is cut, if it is. */
  ghost function Handle(n: Node, r: ReplReq, stream: seq<MapOp>): Outcome
    requires Deliverable(n, r)
  {
    var gap := r.lastIndex - n.last;
    if gap > 1 then
      var log := Received(n.log, n.last, gap, stream);
      if |stream| < gap then LearnCommit(n.(log := log), r, [])
      else LearnCommit(AdoptRecovered(n, log, r.lastIndex, r.committedIndex), r, stream[gap..])
    else if r.record.arg1 != COMMIT_ONLY then
      LearnCommit(n.(wal := Sync(Write(CFG, n.wal, r.record)), log := Insert(n.log, r.lastIndex, r.record)), r, stream)
    else LearnCommit(n, r, stream)
  }

  // ---- restart ----

  /** initiate_recovery_from_log: `fetched` is a peer's committed index, 0 if no peer answers. */
  function Restart(durable: seq<MapOp>, fetched: int): Outcome {
    var size := |durable|;
    if size == 0 && fetched == 0 then Running(EMPTY_NODE, [])
    else
      var bounded := if fetched > size then size - 1 else fetched;
      var upto := if bounded == 0 then size - 1 else bounded;
      if upto >= size then Terminated(Fresh(durable))
      else if upto < 0 then Running(EMPTY_NODE.(log := durable, wal := Fresh(durable)), [])
      else Running(Node(durable, upto, upto, Replay(durable[..upto + 1]), Fresh(durable)), [])
  }

  // ---- requests a primary sends ----

  /** The request of an admin step whose primary's logical log is now `ref`: an order
      travels with the previous commit index, a commit-only request with the newest. */
  ghost predicate RequestOf(ref: seq<MapOp>, r: ReplReq) {
    && r.lastIndex == |ref| - 1
    && if r.record.arg1 != COMMIT_ONLY
       then ref != [] && r.record == ref[|ref| - 1] && r.committedIndex == |ref| - 2
       else r.committedIndex == |ref| - 1
  }

  /** Where every delivery is meant to leave a backup. */
  ghost predicate InSync(n: Node, ref: seq<MapOp>, committed: int) {
    && Sane(n)
    && n.last == |ref| - 1
    && Logical(n) == ref
    && n.committed == committed
  }

  // ---- lemmas ----

  lemma LogicalDef(n: Node)
    requires -1 <= n.last < |n.log|
    ensures Logical(n) == n.log[..n.last + 1]
  {
  }

  lemma ConsistentAt(n: Node, ref: seq<MapOp>, tail: seq<MapOp>)
    requires n.log == ref + tail && n.last == |ref| - 1
    requires -1 <= n.committed <= n.last <= n.committed + 1
    requires n.record == Replay(ref[..n.committed + 1])
    ensures Consistent(n) && Logical(n) == ref && Tail(n) == tail
  {
    assert n.log[..n.committed + 1] == ref[..n.committed + 1];
  }

  lemma PrefixTail(log: seq<MapOp>, ref: seq<MapOp>, i: nat, k: nat)
    requires k <= i <= |log| && i <= |ref| && log[..i] == ref[..i]
    ensures log[..k] == ref[..k]
  {
    assert log[..k] == log[..i][..k] && ref[..k] == ref[..i][..k];
  }

  /** An append reaches a backup that has the earlier entries: it fills the next slot or,
      on a backup that holds a forked entry there, pushes that entry out of the way. */
  lemma AppendReaches(n: Node, ref: seq<MapOp>, r: ReplReq)
    requires Consistent(n) && RequestOf(ref, r) && r.record.arg1 != COMMIT_ONLY
    requires |ref| - 2 <= n.last && n.committed <= |ref| - 2
    requires n.log[..|ref| - 1] == ref[..|ref| - 1]
    ensures Deliverable(n, r) && Handle(n, r, []).Running?
    ensures var n' := Handle(n, r, []).node;
            && Handle(n, r, []).unread == []
            && Consistent(n') && n'.last == |ref| - 1 && n'.committed == |ref| - 2
            && n'.log == ref + n.log[|ref| - 1..]
            && n'.wal == Sync(Write(CFG, n.wal, r.record))
  {
    hide Write;
    var l := |ref| - 1;
    var n' := Handle(n, r, []).node;
    assert n'.log == ref + n.log[l..] by {
      assert ref == ref[..l] + [ref[l]];
    }
    if l > 0 {
      PrefixTail(n.log, ref, l, n.committed + 1);
      if n.committed == l - 2 {
        ReplayNext(ref, l - 1);
      } else {
        ReapplyNewest(ref, l - 1);
      }
    }
    ConsistentAt(n', ref, n.log[l..]);
  }

  /** A commit-only request reaches a backup that has every entry. */
  lemma CommitReaches(n: Node, ref: seq<MapOp>, r: ReplReq)
    requires Consistent(n) && RequestOf(ref, r) && r.record.arg1 == COMMIT_ONLY
    requires |ref| - 1 <= n.last && n.committed <= |ref| - 1
    requires n.log[..|ref|] == ref
    ensures Deliverable(n, r) && Handle(n, r, []).Running?
    ensures var n' := Handle(n, r, []).node;
            && Handle(n, r, []).unread == []
            && Consistent(n') && n'.last == n'.committed == |ref| - 1
            && n'.log == n.log && n'.wal == n.wal
  {
    var l := |ref| - 1;
    var n' := Handle(n, r, []).node;
    assert n.log == ref + n.log[l + 1..];
    assert ref[..l + 1] == ref;
    if l >= 0 {
      PrefixTail(n.log, ref, l + 1, n.committed + 1);
      if n.committed == l - 1 {
        ReplayNext(ref, l);
      } else {
        ReapplyNewest(ref, l);
      }
    }
    ConsistentAt(n', ref, n.log[l + 1..]);
  }

  lemma ReceivedAll(n: Node, ref: seq<MapOp>)
    requires -1 <= n.last < |n.log| && n.last < |ref|
    requires Logical(n) == ref[..n.last + 1]
    ensures Received(n.log, n.last, |ref| - 1 - n.last, ref[n.last + 1..]) == ref + Tail(n)
  {
    var stream := ref[n.last + 1..];
    assert stream[..|ref| - 1 - n.last] == stream;
    assert ref == ref[..n.last + 1] + stream;
  }

  /** Nothing the backup skipped shows: it had applied all it holds, or the entry it had
      not applied comes again. */
  predicate CaughtUp(n: Node, ref: seq<MapOp>) {
    n.committed == n.last || (0 <= n.committed + 1 == n.last < |ref| - 1 && ref[n.last] == ref[n.last + 1])
  }

  lemma AdoptedRecord(n: Node, ref: seq<MapOp>, tail: seq<MapOp>, upto: int)
    requires 0 <= n.last + 1 < upto + 1 <= |ref| && CaughtUp(n, ref)
    requires n.record == Replay(ref[..n.committed + 1])
    ensures ApplyAll(n.record, (ref + tail)[n.last + 1..upto + 1]) == Replay(ref[..upto + 1])
  {
    var missing := ref[n.last + 1..upto + 1];
    assert (ref + tail)[n.last + 1..upto + 1] == missing;
    ReplayConcat(ref[..n.last + 1], missing);
    assert ref[..n.last + 1] + missing == ref[..upto + 1];
    if n.committed != n.last {
      ReplayNext(ref, n.last);
      RepeatedFirst(n.record, missing);
    }
  }

  /** A recovery that reads exactly the missing entries leaves the backup in agreement and
      the connection drained. */
  lemma RecoveryReaches(n: Node, ref: seq<MapOp>, r: ReplReq)
    requires Consistent(n) && RequestOf(ref, r)
    requires n.last < |ref| - 2 && CaughtUp(n, ref)
    requires Logical(n) == ref[..n.last + 1]
    ensures Deliverable(n, r) && Handle(n, r, RecoveryStream(ref, n.last)).Running?
    ensures var n' := Handle(n, r, RecoveryStream(ref, n.last)).node;
            && Handle(n, r, RecoveryStream(ref, n.last)).unread == []
            && Consistent(n') && n'.last == |ref| - 1 && n'.committed == r.committedIndex
            && n'.log == ref + Tail(n)
            && n'.wal == WriteAll(CFG, n.wal, ref[n.last + 1..])
  {
    hide ApplyAll, WriteAll, Received, Logical;
    var c := r.committedIndex;
    var stream := RecoveryStream(ref, n.last);
    ReceivedAll(n, ref) by { LogicalDef(n); }
    var n' := Handle(n, r, stream).node;
    assert n.record == Replay(ref[..n.committed + 1]) by {
      LogicalDef(n);
      PrefixTail(n.log, ref, n.last + 1, n.committed + 1);
    }
    AdoptedRecord(n, ref, Tail(n), c);
    ReapplyNewest(ref, c);
    assert (ref + Tail(n))[n.last + 1..|ref|] == ref[n.last + 1..];
    ConsistentAt(n', ref, Tail(n));
  }

  /** Catch-up in general, with l the backup's last index, c its committed index, r the
      primary's last index and q >= r + 1 the length of the primary's log: slots l+1..r
      receive the primary's entries c+1..c+r-l, and l-c entries, plus whatever the primary
      holds beyond r, stay unread. */
  lemma HandshakeExact(n: Node, primaryLog: seq<MapOp>, r: ReplReq)
    requires -1 <= n.committed <= n.last < |n.log|
    requires r.lastIndex - n.last > 1 && r.lastIndex < |primaryLog|
    ensures var stream := RecoveryStream(primaryLog, n.committed);
            var need := r.lastIndex - n.last;
            var after := Received(n.log, n.last, need, stream);
            && |stream| >= need
            && |after| == |n.log| + need
            && after[..n.last + 1] == Logical(n)
            && after[r.lastIndex + 1..] == Tail(n)
            && (forall i :: n.last < i <= r.lastIndex ==> after[i] == primaryLog[i - (n.last - n.committed)])
            && |stream[need..]| == (n.last - n.committed) + (|primaryLog| - 1 - r.lastIndex)
  {
  }

  /** What the handler makes of a stream that is long enough. */
  lemma HandleRecovery(n: Node, r: ReplReq, stream: seq<MapOp>)
    requires -1 <= n.last < |n.log| && r.lastIndex - n.last > 1 && |stream| >= r.lastIndex - n.last
    requires -1 <= r.committedIndex <= r.lastIndex
    ensures Handle(n, r, stream).Running?
    ensures Handle(n, r, stream).unread == stream[r.lastIndex - n.last..]
    ensures Handle(n, r, stream).node.log == Received(n.log, n.last, r.lastIndex - n.last, stream)
    ensures Handle(n, r, stream).node.last == r.lastIndex
  {
    hide ApplyAll, WriteAll;
  }

  /** So the connection is left clean exactly when the backup had committed all it holds
      and the primary holds nothing beyond its last index. In that case a backup that agreed
      with the primary agrees with it again, whatever the entries. */
  lemma HandshakeDrains(n: Node, primaryLog: seq<MapOp>, r: ReplReq)
    requires Consistent(n)
    requires r.lastIndex - n.last > 1 && -1 <= r.committedIndex <= r.lastIndex < |primaryLog|
    ensures Handle(n, r, RecoveryStream(primaryLog, n.committed)).Running?
    ensures Handle(n, r, RecoveryStream(primaryLog, n.committed)).unread == []
            <==> n.committed == n.last && |primaryLog| == r.lastIndex + 1
    ensures Logical(n) == primaryLog[..n.last + 1] && n.committed == n.last
            ==> Logical(Handle(n, r, RecoveryStream(primaryLog, n.committed)).node) == primaryLog[..r.lastIndex + 1]
  {
    hide ApplyAll, Handle, Received, RecoveryStream;
    HandshakeExact(n, primaryLog, r);
    var stream := RecoveryStream(primaryLog, n.committed);
    HandleRecovery(n, r, stream);
    var after := Handle(n, r, stream).node.log;
    if Logical(n) == primaryLog[..n.last + 1] && n.committed == n.last {
      forall i | 0 <= i <= r.lastIndex ensures after[i] == primaryLog[i] {
        if i <= n.last {
          assert after[i] == after[..n.last + 1][i] == primaryLog[..n.last + 1][i];
        }
      }
      assert after[..r.lastIndex + 1] == primaryLog[..r.lastIndex + 1];
    }
  }

  /** A lagging backup is one entry short, so it gets back a copy of the entry it already
      holds: after catch-up it agrees with the primary only if the missed entries are all
      equal to the one before them. */
  lemma LaggingHandshake(n: Node, primaryLog: seq<MapOp>, r: ReplReq)
    requires Consistent(n) && n.committed == n.last - 1
    requires r.lastIndex - n.last > 1 && r.lastIndex == |primaryLog| - 1
    requires Logical(n) == primaryLog[..n.last + 1]
    ensures Received(n.log, n.last, r.lastIndex - n.last, RecoveryStream(primaryLog, n.committed))[..r.lastIndex + 1] == primaryLog
            <==> forall i :: n.last < i <= r.lastIndex ==> primaryLog[i] == primaryLog[i - 1]
  {
    hide Received, RecoveryStream, ApplyAll;
    HandshakeExact(n, primaryLog, r);
    var after := Received(n.log, n.last, r.lastIndex - n.last, RecoveryStream(primaryLog, n.committed));
    assert forall i :: 0 <= i <= n.last ==> after[i] == after[..n.last + 1][i] == primaryLog[i];
    if forall i :: n.last < i <= r.lastIndex ==> primaryLog[i] == primaryLog[i - 1] {
      assert after[..r.lastIndex + 1] == primaryLog;
    }
    if after[..r.lastIndex + 1] == primaryLog {
      forall i | n.last < i <= r.lastIndex ensures primaryLog[i] == primaryLog[i - 1] {
        assert after[..r.lastIndex + 1][i] == after[i];
      }
    }
  }

  /** A recovery that is cut: the handler runs on as if it had succeeded. It dies exactly if
      there is no entry at the primary's commit index, counting what it received and what it
      kept beyond its last index; otherwise it applies the entry it finds there. */
  lemma CutRecovery(n: Node, ref: seq<MapOp>, r: ReplReq, stream: seq<MapOp>)
    requires Consistent(n) && RequestOf(ref, r)
    requires r.lastIndex - n.last > 1 && |stream| < r.lastIndex - n.last
    ensures Handle(n, r, stream).Terminated? <==> r.committedIndex >= |n.log| + |stream|
    ensures Handle(n, r, stream).Terminated? ==> Handle(n, r, stream).wal == n.wal
    ensures Handle(n, r, stream).Running? ==>
              var log := Logical(n) + stream + Tail(n);
              Handle(n, r, stream) == Running(Node(log, r.lastIndex, r.committedIndex,
                                                   Apply(n.record, log[r.committedIndex]), n.wal), [])
  {
    hide ApplyAll, WriteAll;
    assert stream[..Min(r.lastIndex - n.last, |stream|)] == stream;
  }

  /** A commit-only request that finds the backup exactly one entry behind is not taken
      for a gap. The backup dies exactly if it keeps nothing beyond its last index; otherwise
      it applies the first entry it finds there, whatever that is. */
  lemma OneBehind(n: Node, ref: seq<MapOp>, r: ReplReq)
    requires Consistent(n) && RequestOf(ref, r)
    requires r.record.arg1 == COMMIT_ONLY && r.lastIndex - n.last == 1
    ensures Handle(n, r, []) == if Tail(n) == [] then Terminated(n.wal)
                                else Running(n.(last := r.lastIndex, committed := r.lastIndex,
                                                record := Apply(n.record, Tail(n)[0])), [])
  {
  }

  /** Recovery from the write-ahead log alone, in closed form. */
  lemma RestartExact(durable: seq<MapOp>, fetched: int)
    requires fetched >= -1
    ensures Restart(durable, fetched).Terminated? <==> fetched == |durable| > 0
    ensures Restart(durable, fetched).Running? ==>
              var n := Restart(durable, fetched).node;
              && n.last == n.committed
              && n.last == (if fetched != 0 && fetched < |durable| then fetched else |durable| - 1)
              && n.record == Replay(durable[..n.last + 1])
              && n.log == durable && n.wal == Fresh(durable)
              && Sane(n)
  {
  }

  /** Whatever a peer answers, a node that comes up from its file is sane. */
  lemma RestartSane(durable: seq<MapOp>, fetched: int)
    ensures Restart(durable, fetched).Running? ==>
              var n := Restart(durable, fetched).node;
              && Sane(n) && n.log == durable && n.wal == Fresh(durable) && n.committed == n.last
              && Logical(n) <= durable
  {
  }

  // ---- one delivery, whatever state the backup is in ----

  /** A backup that does not get the missing entries in full finds them all in what it did
      get and what it kept beyond its last index; the entries between its commit index and
      the primary's, which it skips, do not show; and its file is right. */
  predicate TailServes(n: Node, ref: seq<MapOp>, r: ReplReq, stream: seq<MapOp>) {
    && -1 <= n.last < |n.log| && 0 <= n.committed + 1 <= r.committedIndex < |ref|
    && var missing, have := RecoveryStream(ref, n.last), stream + Tail(n);
    && missing <= have
    && (missing == have ==> All(n.wal) == ref)
    && Unseen(n.record, ref[n.committed + 1..r.committedIndex], ref[r.committedIndex])
  }

  /** A delivery the code does not survive intact, `ref` being the primary's log: a recovery
      that reads anything but the missing entries; or one that is cut, or a commit-only
      request to a backup one entry behind, unless the backup's tail serves. */
  predicate BadDelivery(n: Node, ref: seq<MapOp>, r: ReplReq, stream: seq<MapOp>) {
    var gap := r.lastIndex - n.last;
    if gap > 1 && |stream| >= gap then stream != RecoveryStream(ref, n.last)
    else if gap > 1 || (gap == 1 && r.record.arg1 == COMMIT_ONLY) then !TailServes(n, ref, r, stream)
    else false
  }

  /** The log a request builds on. */
  function Base(ref: seq<MapOp>, r: ReplReq): seq<MapOp> {
    if r.record.arg1 != COMMIT_ONLY && ref != [] then ref[..|ref| - 1] else ref
  }

  /** A backup that has a prefix of `base`, or all of it and one uncommitted entry more. */
  ghost predicate Follows(n: Node, base: seq<MapOp>)
    requires -1 <= n.last < |n.log|
  {
    Logical(n) <= base
    || (base <= Logical(n) && |Logical(n)| == |base| + 1 && n.committed < |base|)
  }

  lemma AppendInSync(n: Node, ref: seq<MapOp>, r: ReplReq)
    requires Sane(n) && RequestOf(ref, r) && r.record.arg1 != COMMIT_ONLY
    requires |ref| - 2 <= n.last && Follows(n, Base(ref, r))
    ensures Deliverable(n, r) && Handle(n, r, []).Running?
    ensures Handle(n, r, []).unread == [] && InSync(Handle(n, r, []).node, ref, r.committedIndex)
    ensures Tail(n) == [] && |Logical(n)| <= |Base(ref, r)| ==> Tail(Handle(n, r, []).node) == []
  {
    hide Handle, ApplyAll, Write, Deliverable;
    var l := |ref| - 1;
    assert n.log[..l] == Logical(n)[..l] == ref[..l];
    AppendReaches(n, ref, r);
    var n' := Handle(n, r, []).node;
    assert n'.log[..l + 1] == ref;
    StepConserves(CFG, n.wal, WriteCall(r.record));
    StepConserves(CFG, Write(CFG, n.wal, r.record), SyncCall);
    if Tail(n') == [] {
      assert |n'.log| == |ref|;
      assert n.log == ref[..l] && Tail(n) == [];
      assert n'.log == ref[..l] + [r.record];
    }
  }

  lemma CommitInSync(n: Node, ref: seq<MapOp>, r: ReplReq)
    requires Sane(n) && RequestOf(ref, r) && r.record.arg1 == COMMIT_ONLY
    requires |ref| - 1 <= n.last && n.committed <= |ref| - 1 && n.log[..|ref|] == ref
    ensures Deliverable(n, r) && Handle(n, r, []).Running?
    ensures Handle(n, r, []).unread == [] && InSync(Handle(n, r, []).node, ref, r.committedIndex)
    ensures Handle(n, r, []).node.log == n.log && Handle(n, r, []).node.last == |ref| - 1
  {
    hide Handle, ApplyAll, Deliverable;
    CommitReaches(n, ref, r);
    var n' := Handle(n, r, []).node;
    if Tail(n') == [] {
      assert |n.log| == |ref| && n.last == |ref| - 1 && Tail(n) == [];
    }
  }

  lemma RecoveryInSync(n: Node, ref: seq<MapOp>, r: ReplReq)
    requires Sane(n) && RequestOf(ref, r)
    requires n.last < |ref| - 2 && CaughtUp(n, ref) && Follows(n, Base(ref, r))
    ensures Deliverable(n, r) && Handle(n, r, ref[n.last + 1..]).Running?
    ensures Handle(n, r, ref[n.last + 1..]).unread == []
    ensures InSync(Handle(n, r, ref[n.last + 1..]).node, ref, r.committedIndex)
    ensures Tail(n) == [] ==> Tail(Handle(n, r, ref[n.last + 1..]).node) == []
  {
    hide Handle, ApplyAll, WriteAll, Deliverable;
    assert Logical(n) == Base(ref, r)[..n.last + 1] == ref[..n.last + 1];
    RecoveryReaches(n, ref, r);
    var n' := Handle(n, r, ref[n.last + 1..]).node;
    assert n'.log[..|ref|] == ref;
    WriteAllConserves(CFG, n.wal, ref[n.last + 1..]);
    if Tail(n') == [] {
      assert |n'.log| == |ref| + |Tail(n)|;
      assert n.log == ref[..n.last + 1];
      assert n'.log == ref[..n.last + 1] + ref[n.last + 1..];
    }
  }

  /** The bytes of the recovery stream that arrive. */
  function Arriving(n: Node, r: ReplReq, primaryLog: seq<MapOp>, cut: nat): seq<MapOp> {
    if r.lastIndex - n.last > 1 then
      var stream := RecoveryStream(primaryLog, n.committed);
      stream[..Min(cut, |stream|)]
    else []
  }

  /** A recovery that is not cut short: it is right if and only if it read the missing
      entries and nothing else. */
  lemma RecoveryExact(n: Node, ref: seq<MapOp>, tail: seq<MapOp>, r: ReplReq, cut: nat)
    requires Sane(n) && RequestOf(ref, r) && Follows(n, Base(ref, r)) && r.lastIndex - n.last > 1
    requires |Arriving(n, r, ref + tail, cut)| >= r.lastIndex - n.last
    ensures Deliverable(n, r)
    ensures var stream := Arriving(n, r, ref + tail, cut);
            var o := Handle(n, r, stream);
            && o.Running?
            && (o.unread == [] && InSync(o.node, ref, r.committedIndex) <==> stream == RecoveryStream(ref, n.last))
            && (stream == RecoveryStream(ref, n.last) && Tail(n) == [] ==> Tail(o.node) == [])
  {
    hide ApplyAll, Handle, Mirrored, Consistent, Deliverable, InSync, Follows, Base, RequestOf, Received, Arriving;
    RecoveryBounds(n, ref, r);
    var stream := Arriving(n, r, ref + tail, cut);
    HandleRecovery(n, r, stream);
    var n' := Handle(n, r, stream).node;
    var gap := r.lastIndex - n.last;
    if stream == RecoveryStream(ref, n.last) {
      MissedIsCaughtUp(n, ref, tail, r, cut);
      RecoveryInSync(n, ref, r);
    }
    if stream[gap..] == [] && InSync(n', ref, r.committedIndex) {
      SyncedLog(n', ref, r.committedIndex);
      ReceivedWhole(n, gap, stream);
      ReadTheMissing(n, n', ref, stream);
    }
  }

  lemma RecoveryBounds(n: Node, ref: seq<MapOp>, r: ReplReq)
    requires Consistent(n) && RequestOf(ref, r) && r.lastIndex - n.last > 1
    ensures -1 <= n.committed <= n.last <= n.committed + 1 && n.last < |n.log|
    ensures n.last < |ref| - 2 && r.lastIndex == |ref| - 1 && -1 <= r.committedIndex <= r.lastIndex
    ensures Deliverable(n, r)
  {
  }

  /** A lagging backup is sent its newest entry again; if the stream is right all the same,
      the next entry equals that one. */
  lemma MissedIsCaughtUp(n: Node, ref: seq<MapOp>, tail: seq<MapOp>, r: ReplReq, cut: nat)
    requires -1 <= n.committed <= n.last <= n.committed + 1 && n.last < |ref| - 2 && r.lastIndex - n.last > 1
    requires Arriving(n, r, ref + tail, cut) == RecoveryStream(ref, n.last)
    ensures CaughtUp(n, ref)
  {
    var stream := Arriving(n, r, ref + tail, cut);
    if n.committed != n.last {
      assert stream[0] == (ref + tail)[n.last] == ref[n.last];
      assert stream[0] == ref[n.last + 1];
    }
  }

  lemma SyncedLog(m: Node, ref: seq<MapOp>, committed: int)
    requires InSync(m, ref, committed)
    ensures -1 <= m.last < |m.log| && m.last == |ref| - 1 && Logical(m) == ref
  {
  }

  lemma ReceivedWhole(n: Node, need: nat, stream: seq<MapOp>)
    requires -1 <= n.last < |n.log| && |stream| >= need && stream[need..] == []
    ensures |stream| == need && Received(n.log, n.last, need, stream) == Logical(n) + stream + Tail(n)
  {
    assert stream[..need] == stream;
  }

  lemma ReadTheMissing(n: Node, n': Node, ref: seq<MapOp>, stream: seq<MapOp>)
    requires -1 <= n.last < |n.log| && -1 <= n'.last < |n'.log|
    requires n'.log == Logical(n) + stream + Tail(n) && n'.last == n.last + |stream| && Logical(n') == ref
    ensures stream == RecoveryStream(ref, n.last)
  {
    assert stream == n'.log[n.last + 1..n'.last + 1] == Logical(n')[n.last + 1..];
  }

  /** What a backup's own tail makes of a request that skips or cuts the catch-up. */
  lemma TailExact(n: Node, ref: seq<MapOp>, r: ReplReq, stream: seq<MapOp>)
    requires Sane(n) && RequestOf(ref, r) && n.last < r.lastIndex && Logical(n) == ref[..n.last + 1]
    requires |stream| < r.lastIndex - n.last
    requires r.lastIndex - n.last == 1 ==> r.record.arg1 == COMMIT_ONLY
    ensures Deliverable(n, r)
    ensures var o := Handle(n, r, stream);
            && (o.Terminated? ==> !TailServes(n, ref, r, stream) && o.wal == n.wal)
            && (o.Running? ==> o.unread == [])
            && (o.Running? && InSync(o.node, ref, r.committedIndex) <==> TailServes(n, ref, r, stream))
  {
    hide ApplyAll, Handle, TailServes, InSync;
    var log := Logical(n) + stream + Tail(n);
    if r.lastIndex - n.last > 1 {
      CutRecovery(n, ref, r, stream);
    } else {
      assert stream == [] && log == n.log;
      OneBehind(n, ref, r);
    }
    TailInSync(n, ref, r, stream);
  }

  lemma TailInSync(n: Node, ref: seq<MapOp>, r: ReplReq, stream: seq<MapOp>)
    requires Sane(n) && RequestOf(ref, r) && n.last < r.lastIndex && Logical(n) == ref[..n.last + 1]
    requires 0 <= n.committed + 1 <= r.committedIndex
    ensures var log := Logical(n) + stream + Tail(n);
            var c := r.committedIndex;
            TailServes(n, ref, r, stream)
            <==> c < |log| && InSync(Node(log, r.lastIndex, c, Apply(n.record, log[c]), n.wal), ref, c)
  {
    hide ApplyAll, Apply, RequestOf, InSync, Unseen, Tail;
    var c := r.committedIndex;
    RequestShape(ref, r);
    var log := Logical(n) + stream + Tail(n);
    TailRecord(n, ref, c);
    TailLog(n, ref, stream);
    if c < |log| {
      InSyncParts(Node(log, r.lastIndex, c, Apply(n.record, log[c]), n.wal), ref, c);
    }
  }

  /** InSync in terms of the whole log. */
  lemma InSyncParts(m: Node, ref: seq<MapOp>, c: nat)
    requires m.last == |ref| - 1 && m.committed == c && |ref| - 2 <= c < |ref|
    ensures InSync(m, ref, c)
            <==> ref <= m.log && m.record == Replay(ref[..c + 1]) && (m.log == ref ==> All(m.wal) == ref)
  {
    hide ApplyAll, Replay, All;
    if |ref| <= |m.log| {
      assert ref <= m.log <==> Logical(m) == ref;
      assert Tail(m) == [] <==> |m.log| == |ref|;
      if ref <= m.log {
        assert m.log[..c + 1] == ref[..c + 1];
      }
    }
  }

  lemma RequestShape(ref: seq<MapOp>, r: ReplReq)
    requires RequestOf(ref, r)
    ensures r.lastIndex == |ref| - 1 && |ref| - 2 <= r.committedIndex < |ref|
  {
  }

  lemma TailLog(n: Node, ref: seq<MapOp>, stream: seq<MapOp>)
    requires -1 <= n.last < |n.log| && n.last < |ref| && Logical(n) == ref[..n.last + 1]
    ensures var log, have := Logical(n) + stream + Tail(n), stream + Tail(n);
            && (ref[n.last + 1..] <= have <==> ref <= log)
            && (ref[n.last + 1..] == have <==> ref == log)
  {
    var log, have := Logical(n) + stream + Tail(n), stream + Tail(n);
    assert log == ref[..n.last + 1] + have;
    assert ref == ref[..n.last + 1] + ref[n.last + 1..];
    if ref <= log {
      assert ref[n.last + 1..] == log[..|ref|][n.last + 1..] == have[..|ref| - n.last - 1];
    }
  }

  lemma TailRecord(n: Node, ref: seq<MapOp>, c: int)
    requires Consistent(n) && n.last < |ref| && Logical(n) == ref[..n.last + 1] && n.committed < c < |ref|
    ensures Apply(n.record, ref[c]) == Replay(ref[..c + 1])
            <==> Unseen(n.record, ref[n.committed + 1..c], ref[c])
  {
    hide ApplyAll;
    PrefixTail(n.log, ref, n.last + 1, n.committed + 1);
    ReplayConcat(ref[..n.committed + 1], ref[n.committed + 1..c]);
    assert ref[..n.committed + 1] + ref[n.committed + 1..c] == ref[..c];
    ReplayNext(ref, c);
    UnseenExact(n.record, ref[n.committed + 1..c], ref[c]);
  }

  /** A delivery puts a backup that follows the primary's earlier log in sync with it, with
      nothing left unread, if and only if it is not bad in the sense above; if it kills the
      backup, the log file is as it was. */
  lemma DeliveryOutcome(n: Node, ref: seq<MapOp>, tail: seq<MapOp>, r: ReplReq, cut: nat)
    requires Sane(n) && RequestOf(ref, r) && Follows(n, Base(ref, r))
    ensures Deliverable(n, r)
    ensures var stream := Arriving(n, r, ref + tail, cut);
            var o := Handle(n, r, stream);
            && (o.Terminated? ==> BadDelivery(n, ref, r, stream) && n.last < r.lastIndex && o.wal == n.wal)
            && (o.Running? && o.unread == [] && InSync(o.node, ref, r.committedIndex)
                <==> !BadDelivery(n, ref, r, stream))
            && (!BadDelivery(n, ref, r, stream) && Tail(n) == [] && |Logical(n)| <= |Base(ref, r)| ==> Tail(o.node) == [])
  {
    hide ApplyAll, Handle, Deliverable, Mirrored, InSync, Tail, Replay, TailServes;
    var stream := Arriving(n, r, ref + tail, cut);
    var gap := r.lastIndex - n.last;
    if gap > 1 && |stream| >= gap {
      RecoveryExact(n, ref, tail, r, cut);
    } else if gap > 1 || (gap == 1 && r.record.arg1 == COMMIT_ONLY) {
      assert Logical(n) == Base(ref, r)[..n.last + 1] == ref[..n.last + 1];
      TailExact(n, ref, r, stream);
      NoTailServesNot(n, ref, r, stream);
    } else if r.record.arg1 != COMMIT_ONLY {
      AppendInSync(n, ref, r);
    } else {
      FollowsWhole(n, ref);
      CommitInSync(n, ref, r);
      TailFrom(Handle(n, r, []).node);
    }
  }

  lemma TailFrom(m: Node)
    ensures -1 <= m.last < |m.log| && |m.log| == m.last + 1 ==> Tail(m) == []
  {
  }

  lemma FollowsWhole(n: Node, ref: seq<MapOp>)
    requires Consistent(n) && |ref| - 1 <= n.last && Follows(n, ref)
    ensures n.committed <= |ref| - 1 && n.log[..|ref|] == ref
    ensures Tail(n) == [] && |Logical(n)| <= |ref| ==> |n.log| == |ref|
  {
    assert n.log[..|ref|] == Logical(n)[..|ref|] == ref;
  }

  lemma NoTailServesNot(n: Node, ref: seq<MapOp>, r: ReplReq, stream: seq<MapOp>)
    requires -1 <= n.last < |n.log| && RequestOf(ref, r) && |stream| < r.lastIndex - n.last
    ensures TailServes(n, ref, r, stream) ==> Tail(n) != []
  {
  }
}
