/** What the handlers do to any node at all, in agreement with the primary or not, with
    entries beyond last_index or without, and for any request and any stream.
  */
module HandlerLaws {
  import opened RobotFactory
  import opened WalState
  import opened Replica

  /** The entry looked up at the end of a request; -1 asks for none. */
  predicate AsksFor(r: ReplReq, log: seq<MapOp>) {
    r.committedIndex == -1 || 0 <= r.committedIndex < |log|
  }

  /** An order that needs no catch-up: written to the log file and synced, inserted at its
      index, whatever is there; then the entry at the request's commit index is applied. */
  lemma OrderEffect(n: Node, r: ReplReq, stream: seq<MapOp>)
    requires r.record.arg1 != -1 && r.lastIndex - n.last <= 1
    requires 0 <= n.last + 1 <= |n.log| && 0 <= r.lastIndex <= |n.log|
    ensures Deliverable(n, r)
    ensures var log := n.log[..r.lastIndex] + [r.record] + n.log[r.lastIndex..];
            var o := Handle(n, r, stream);
            && (o.Running? <==> AsksFor(r, log))
            && (o.Running? ==>
                  && o.unread == stream
                  && o.node.log == log && o.node.last == r.lastIndex
                  && All(o.node.wal) == All(n.wal) + [r.record] && o.node.wal.buffered == []
                  && o.node.wal == Sync(Write(CFG, n.wal, r.record))
                  && (r.committedIndex == -1 ==> o.node.record == n.record && o.node.committed == n.committed)
                  && (r.committedIndex >= 0 ==>
                        && o.node.committed == r.committedIndex
                        && o.node.record == n.record[log[r.committedIndex].arg1 := log[r.committedIndex].arg2]))
  {
    hide Write;
    StepConserves(CFG, n.wal, WriteCall(r.record));
    StepConserves(CFG, Write(CFG, n.wal, r.record), SyncCall);
  }

  /** A commit-only request that needs no catch-up touches neither log nor file. */
  lemma CommitOnlyEffect(n: Node, r: ReplReq, stream: seq<MapOp>)
    requires r.record.arg1 == -1 && r.lastIndex - n.last <= 1 && 0 <= n.last + 1 <= |n.log|
    ensures Deliverable(n, r)
    ensures var o := Handle(n, r, stream);
            && (o.Running? <==> AsksFor(r, n.log))
            && (o.Running? ==>
                  && o.unread == stream
                  && o.node.log == n.log && o.node.wal == n.wal && o.node.last == r.lastIndex
                  && (r.committedIndex == -1 ==> o.node.record == n.record && o.node.committed == n.committed)
                  && (r.committedIndex >= 0 ==>
                        && o.node.committed == r.committedIndex
                        && o.node.record == n.record[n.log[r.committedIndex].arg1 := n.log[r.committedIndex].arg2]))
            && (o.Terminated? ==> o.wal == n.wal)
  {
  }

  /** How many of the entries that were read are committed at once. */
  function CommittedNow(n: Node, r: ReplReq): nat {
    var upto := if r.committedIndex < r.lastIndex then r.committedIndex else r.lastIndex;
    if upto <= n.last then 0 else upto - n.last
  }

  /** A catch-up whose stream is long enough: as many entries as there are missing indices go
      behind last_index and to the log file, whatever they are, the committed ones of them are
      applied, and the rest of the stream stays unread. */
  lemma CatchUpEffect(n: Node, r: ReplReq, stream: seq<MapOp>)
    requires 0 <= n.last + 1 <= |n.log| && r.lastIndex - n.last > 1 && |stream| >= r.lastIndex - n.last
    ensures Deliverable(n, r)
    ensures var gap := r.lastIndex - n.last;
            var read := stream[..gap];
            var log := n.log[..n.last + 1] + read + n.log[n.last + 1..];
            var o := Handle(n, r, stream);
            && (o.Running? <==> AsksFor(r, log))
            && (o.Running? ==>
                  && o.unread == stream[gap..]
                  && o.node.log == log && o.node.last == r.lastIndex
                  && o.node.wal == WriteAll(CFG, n.wal, read) && All(o.node.wal) == All(n.wal) + read
                  && (r.committedIndex == -1 ==> o.node.record == n.record && o.node.committed == n.committed)
                  && (r.committedIndex >= 0 ==>
                        var record := ApplyAll(n.record, stream[..CommittedNow(n, r)]);
                        && o.node.committed == r.committedIndex
                        && o.node.record == record[log[r.committedIndex].arg1 := log[r.committedIndex].arg2]))
  {
    hide ApplyAll, WriteAll, LearnCommit, Received, AdoptRecovered, CommittedNow, AsksFor;
    var gap := r.lastIndex - n.last;
    var read := stream[..gap];
    var log := n.log[..n.last + 1] + read + n.log[n.last + 1..];
    ReceivedIs(n, gap, stream);
    WriteAllConserves(CFG, n.wal, read);
    AdoptedParts(n, log, read, r);
    assert stream[..CommittedNow(n, r)] == read[..CommittedNow(n, r)];
    Learned(AdoptRecovered(n, log, r.lastIndex, r.committedIndex), r, stream[gap..]);
  }

  lemma ReceivedIs(n: Node, gap: nat, stream: seq<MapOp>)
    requires 0 <= n.last + 1 <= |n.log| && gap <= |stream|
    ensures Received(n.log, n.last, gap, stream) == n.log[..n.last + 1] + stream[..gap] + n.log[n.last + 1..]
  {
  }

  lemma AdoptedParts(n: Node, log: seq<MapOp>, read: seq<MapOp>, r: ReplReq)
    requires 0 <= n.last + 1 <= |n.log| && r.lastIndex - n.last == |read| > 1
    requires log == n.log[..n.last + 1] + read + n.log[n.last + 1..]
    ensures var m := AdoptRecovered(n, log, r.lastIndex, r.committedIndex);
            var now := CommittedNow(n, r);
            && m.log == log && m.wal == WriteAll(CFG, n.wal, read)
            && m.record == ApplyAll(n.record, read[..now])
            && (now == 0 ==> m.record == n.record && m.committed == n.committed)
            && (r.committedIndex < 0 ==> now == 0) && now <= |read|
  {
    hide WriteAll, ApplyAll;
    MiddleParts(n.log[..n.last + 1], read, n.log[n.last + 1..], CommittedNow(n, r));
    NothingApplied(n.record);
  }

  lemma MiddleParts(a: seq<MapOp>, read: seq<MapOp>, c: seq<MapOp>, now: nat)
    requires now <= |read|
    ensures (a + read + c)[|a|..|a| + |read|] == read
    ensures (a + read + c)[|a|..|a| + now] == read[..now]
  {
    assert (a + read + c)[|a|..|a| + now] == read[..now];
  }

  lemma NothingApplied(record: Records)
    ensures ApplyAll(record, []) == record
  {
  }

  lemma Learned(m: Node, r: ReplReq, unread: seq<MapOp>)
    ensures var o := LearnCommit(m, r, unread);
            && (o.Running? <==> AsksFor(r, m.log))
            && (o.Running? ==>
                  && o.unread == unread && o.node.log == m.log && o.node.wal == m.wal && o.node.last == r.lastIndex
                  && (r.committedIndex == -1 ==> o.node.record == m.record && o.node.committed == m.committed)
                  && (r.committedIndex >= 0 ==>
                        && o.node.committed == r.committedIndex
                        && o.node.record == m.record[m.log[r.committedIndex].arg1 := m.log[r.committedIndex].arg2]))
            && (o.Terminated? ==> o.wal == m.wal)
  {
  }

  /** A catch-up that is cut: what was read goes behind last_index, nothing goes to the file,
      and of the missing entries only the one at the commit index is applied. */
  lemma CutEffect(n: Node, r: ReplReq, stream: seq<MapOp>)
    requires 0 <= n.last + 1 <= |n.log| && r.lastIndex - n.last > 1 && |stream| < r.lastIndex - n.last
    ensures Deliverable(n, r)
    ensures var log := n.log[..n.last + 1] + stream + n.log[n.last + 1..];
            var o := Handle(n, r, stream);
            && (o.Running? <==> AsksFor(r, log))
            && (o.Running? ==>
                  && o.unread == []
                  && o.node.log == log && o.node.last == r.lastIndex && o.node.wal == n.wal
                  && (r.committedIndex == -1 ==> o.node.record == n.record && o.node.committed == n.committed)
                  && (r.committedIndex >= 0 ==>
                        && o.node.committed == r.committedIndex
                        && o.node.record == n.record[log[r.committedIndex].arg1 := log[r.committedIndex].arg2]))
            && (o.Terminated? ==> o.wal == n.wal)
  {
    hide LearnCommit;
    var log := n.log[..n.last + 1] + stream + n.log[n.last + 1..];
    assert stream[..|stream|] == stream;
    assert Received(n.log, n.last, r.lastIndex - n.last, stream) == log;
    Learned(n.(log := log), r, []);
  }

  /** The record after catch-up of a backup that agreed with the primary, in terms of `first`,
      where the stream starts. If it had committed all it held, first is its next index, and
      its record ends with the entry its new commit index claims. If it lagged by one commit,
      first is its newest index: the stream repeats that entry in log and file, and the record
      ends one entry short of the commit index. */
  lemma CatchUpRecord(n: Node, primaryLog: seq<MapOp>, r: ReplReq, stream: seq<MapOp>)
    requires r.lastIndex - n.last > 1 && n.last < r.committedIndex <= r.lastIndex < |primaryLog|
    requires Consistent(n) && Logical(n) == primaryLog[..n.last + 1]
    requires stream <= RecoveryStream(primaryLog, n.committed) && |stream| >= r.lastIndex - n.last
    ensures Handle(n, r, stream).Running?
    ensures var m, first := Handle(n, r, stream).node, n.committed + 1;
            var gap, now := r.lastIndex - n.last, r.committedIndex - n.last;
            && n.last <= first <= n.last + 1
            && m.committed == r.committedIndex && m.last == r.lastIndex
            && m.record == Replay(primaryLog[..first + now])
            && m.wal == WriteAll(CFG, n.wal, primaryLog[first..first + gap])
            && m.log == primaryLog[..n.last + 1] + primaryLog[first..first + gap] + Tail(n)
  {
    hide ApplyAll, WriteAll, Handle, Deliverable, Tail, Replay, Logical, RecoveryStream, Consistent, Apply;
    var first := n.committed + 1;
    var gap, now := r.lastIndex - n.last, r.committedIndex - n.last;
    Agreed(n, primaryLog);
    StreamFrom(primaryLog, n.committed);
    ReadParts(primaryLog, first, stream, gap);
    ReadParts(primaryLog, first, stream, now);
    ShiftedRecord(n.record, primaryLog, first, now);
    CommittedEntry(n, r, stream);
    CatchUpEffect(n, r, stream);
    assert CommittedNow(n, r) == now;
    AppliedAgain(ApplyAll(n.record, stream[..now]), primaryLog[first + now - 1]);
  }

  lemma Agreed(n: Node, primaryLog: seq<MapOp>)
    requires Consistent(n) && n.last < |primaryLog| && Logical(n) == primaryLog[..n.last + 1]
    ensures -1 <= n.committed <= n.last <= n.committed + 1 && n.last < |n.log|
    ensures n.record == Replay(primaryLog[..n.committed + 1])
    ensures n.log[..n.last + 1] == primaryLog[..n.last + 1] && n.log[n.last + 1..] == Tail(n)
  {
    hide ApplyAll;
    PrefixTail(n.log, primaryLog, n.last + 1, n.committed + 1);
  }

  /** The entry that the request's commit index finds is the last of those just committed. */
  lemma CommittedEntry(n: Node, r: ReplReq, stream: seq<MapOp>)
    requires 0 <= n.last + 1 <= |n.log| && n.last < r.committedIndex <= r.lastIndex && |stream| >= r.lastIndex - n.last
    ensures var log := n.log[..n.last + 1] + stream[..r.lastIndex - n.last] + n.log[n.last + 1..];
            r.committedIndex < |log| && log[r.committedIndex] == stream[r.committedIndex - n.last - 1]
  {
  }

  lemma AppliedAgain(record: Records, op: MapOp)
    ensures Apply(record, op) == record[op.arg1 := op.arg2]
  {
  }

  lemma StreamFrom(primaryLog: seq<MapOp>, committed: int)
    requires 0 <= committed + 1 <= |primaryLog|
    ensures RecoveryStream(primaryLog, committed) == primaryLog[committed + 1..]
  {
  }

  lemma ReadParts(primaryLog: seq<MapOp>, first: nat, stream: seq<MapOp>, count: nat)
    requires first <= |primaryLog| && stream <= primaryLog[first..] && count <= |stream|
    ensures stream[..count] == primaryLog[first..first + count]
    ensures forall i :: 0 <= i < |stream| ==> stream[i] == primaryLog[first + i]
  {
  }

  lemma ShiftedRecord(record: Records, primaryLog: seq<MapOp>, first: nat, now: nat)
    requires first + now <= |primaryLog| && now > 0 && record == Replay(primaryLog[..first])
    ensures var after := ApplyAll(record, primaryLog[first..first + now]);
            && after == Replay(primaryLog[..first + now])
            && Apply(after, primaryLog[first + now - 1]) == after
  {
    hide ApplyAll;
    ReplayConcat(primaryLog[..first], primaryLog[first..first + now]);
    assert primaryLog[..first] + primaryLog[first..first + now] == primaryLog[..first + now];
    ReapplyNewest(primaryLog, first + now - 1);
  }

  /** recheckcommit, on any node: it applies the entry at last_index and no other, and counts
      all entries as committed. */
  lemma RecheckEffect(n: Node)
    ensures var pending, o := n.last >= 0 && n.last > n.committed, RecheckCommit(n);
            && (o.Terminated? <==> pending && n.last >= |n.log|)
            && (o.Running? && !pending ==> o.node == n)
            && (o.Running? && pending ==>
                  o.node == Node(n.log, n.last, n.last, n.record[n.log[n.last].arg1 := n.log[n.last].arg2], n.wal))
  {
  }
}
