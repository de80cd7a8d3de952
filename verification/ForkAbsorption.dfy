/** A promoted node may lack the last, unshipped entry that another survivor has. Positional
    insertion then absorbs that entry: it ends up behind last_index and stays there.
  */
module ForkAbsorption {
  import opened RobotFactory
  import opened WalState
  import opened Replica

  function Grown(ref: seq<MapOp>, op: MapOp): seq<MapOp> {
    if op.arg1 != COMMIT_ONLY then ref + [op] else ref
  }

  function GrownAll(ref: seq<MapOp>, ops: seq<MapOp>): seq<MapOp>
    decreases |ops|
  {
    if ops == [] then ref else GrownAll(Grown(ref, ops[0]), ops[1..])
  }

  /** What a primary that has committed `ref` sends for `op`. */
  function NextRequest(primary: int, ref: seq<MapOp>, op: MapOp): ReplReq {
    ReplReq(primary, |ref| - 1, |Grown(ref, op)| - 1, op)
  }

  /** `n` handles the primary's next requests one after the other, unharmed, and is then `m`. */
  ghost predicate Becomes(n: Node, primary: int, ref: seq<MapOp>, ops: seq<MapOp>, m: Node)
    decreases |ops|
  {
    if ops == [] then m == n
    else
      var r := NextRequest(primary, ref, ops[0]);
      && Deliverable(n, r)
      && Handle(n, r, []).Running?
      && Becomes(Handle(n, r, []).node, primary, Grown(ref, ops[0]), ops[1..], m)
  }

  /** Holding `stale` at the slot the primary fills next, or already behind last_index. */
  ghost predicate Carries(n: Node, ref: seq<MapOp>, stale: MapOp) {
    && Consistent(n)
    && n.log == ref + [stale]
    && n.committed <= |ref| - 1
  }

  lemma AbsorbOne(n: Node, primary: int, ref: seq<MapOp>, stale: MapOp, op: MapOp)
    requires Carries(n, ref, stale) && |ref| - 1 <= n.last
    ensures var r := NextRequest(primary, ref, op);
            && Deliverable(n, r) && Handle(n, r, []).Running?
            && Carries(Handle(n, r, []).node, Grown(ref, op), stale)
            && Handle(n, r, []).node.last == |Grown(ref, op)| - 1
  {
    hide ApplyAll, Handle, Deliverable;
    var r := NextRequest(primary, ref, op);
    var grown := Grown(ref, op);
    assert n.log[..|ref|] == ref;
    if op.arg1 != COMMIT_ONLY {
      assert grown[..|ref|] == ref;
      AppendReaches(n, grown, r);
      assert n.log[|ref|..] == [stale];
    } else {
      CommitReaches(n, ref, r);
    }
  }

  /** However many appends and commit-only requests follow, after each of them the
      survivor's log agrees with the new primary's, the stale entry lies unchanged behind
      it, and the record is the replay of the agreed entries alone. */
  lemma {:induction false} ForkAbsorbed(n: Node, primary: int, ref: seq<MapOp>, stale: MapOp, ops: seq<MapOp>)
    returns (m: Node)
    requires Carries(n, ref, stale) && |ref| - 1 <= n.last && ops != []
    ensures Becomes(n, primary, ref, ops, m)
    ensures Consistent(m) && Logical(m) == GrownAll(ref, ops) && Tail(m) == [stale]
    ensures m.record == Replay(GrownAll(ref, ops)[..m.committed + 1])
    decreases |ops|
  {
    hide ApplyAll, Handle, Deliverable;
    AbsorbOne(n, primary, ref, stale, ops[0]);
    var next := Handle(n, NextRequest(primary, ref, ops[0]), []).node;
    var grown := Grown(ref, ops[0]);
    if |ops| == 1 {
      m := next;
      assert m.log[..m.committed + 1] == grown[..m.committed + 1];
      assert GrownAll(ref, ops) == grown;
    } else {
      m := ForkAbsorbed(next, primary, grown, stale, ops[1..]);
    }
  }

  /** The log file is not put right: after the order that absorbs the stale entry it spells
      out both, the stale one first, so it is not the node's log any more. */
  lemma FileKeepsFork(n: Node, primary: int, ref: seq<MapOp>, stale: MapOp, op: MapOp)
    requires Carries(n, ref, stale) && n.last == |ref| && Mirrored(n) && op.arg1 != COMMIT_ONLY
    ensures var r := NextRequest(primary, ref, op);
            && Deliverable(n, r) && Handle(n, r, []).Running?
            && All(Handle(n, r, []).node.wal) == ref + [stale, op]
            && Logical(Handle(n, r, []).node) == ref + [op]
  {
    hide ApplyAll, Handle, Deliverable, Write, Sync;
    var r := NextRequest(primary, ref, op);
    assert n.log[..|ref|] == ref;
    assert Grown(ref, op)[..|ref|] == ref;
    AppendReaches(n, Grown(ref, op), r);
    var m := Handle(n, r, []).node;
    assert Tail(n) == [];
    StepConserves(CFG, n.wal, WriteCall(op));
    StepConserves(CFG, Write(CFG, n.wal, op), SyncCall);
    assert ref + [stale] + [op] == ref + [stale, op];
    assert m.log[..|ref| + 1] == ref + [op];
  }
}
