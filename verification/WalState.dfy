/** The write-ahead log as operations: what is in the file, what is still in the stdio
    buffer, and what waits in the batch (CommitLog.cpp:8-23, 56-58, 85-110).
  */
module WalState {
  import opened RobotFactory

  /** `durable` survives a crash of the process; the other two do not. */
  datatype Wal = Wal(durable: seq<MapOp>, buffered: seq<MapOp>, pending: seq<MapOp>)

  datatype WalConfig = WalConfig(batchSize: nat, fFlush: bool)

  function All(w: Wal): seq<MapOp> {
    w.durable + w.buffered + w.pending
  }

  function Fresh(durable: seq<MapOp>): Wal {
    Wal(durable, [], [])
  }

  function Sync(w: Wal): Wal {
    Wal(w.durable + w.buffered, [], w.pending)
  }

  /** Append to the batch; a full batch goes to stdio, and on to the file unless every
      batch is a single unflushed record. */
  function Write(cfg: WalConfig, w: Wal, op: MapOp): Wal {
    var pending := w.pending + [op];
    if |pending| < cfg.batchSize then w.(pending := pending)
    else
      var handed := Wal(w.durable, w.buffered + pending, []);
      if cfg.fFlush || cfg.batchSize > 1 then Sync(handed) else handed
  }

  function WriteAll(cfg: WalConfig, w: Wal, ops: seq<MapOp>): Wal {
    if ops == [] then w else Write(cfg, WriteAll(cfg, w, ops[..|ops| - 1]), ops[|ops| - 1])
  }

  /** The C library empties part of its buffer on its own. */
  function SpillSome(w: Wal, count: nat): Wal {
    var k := if count <= |w.buffered| then count else |w.buffered|;
    Wal(w.durable + w.buffered[..k], w.buffered[k..], w.pending)
  }

  /** Nothing but the boundary between file and buffer moved, and towards the file. */
  ghost predicate IsSpill(w: Wal, w': Wal) {
    && w'.pending == w.pending
    && w'.durable + w'.buffered == w.durable + w.buffered
    && w.durable <= w'.durable
  }

  lemma SpillSomeIsSpill(w: Wal, k: nat)
    ensures IsSpill(w, SpillSome(w, k))
  {
    var n := if k <= |w.buffered| then k else |w.buffered|;
    assert w.buffered[..n] + w.buffered[n..] == w.buffered;
    assert w.durable + w.buffered[..n] + w.buffered[n..] == w.durable + (w.buffered[..n] + w.buffered[n..]);
  }

  lemma CutPoint(a: seq<MapOp>, b: seq<MapOp>, a': seq<MapOp>, b': seq<MapOp>)
    requires a' + b' == a + b && a <= a'
    ensures var k := |a'| - |a|; k <= |b| && a' == a + b[..k] && b' == b[k..]
  {
    var k := |a'| - |a|;
    assert a' == (a + b)[..|a'|];
    assert b' == (a + b)[|a'|..];
    assert (a + b)[..|a'|] == a + b[..k];
    assert (a + b)[|a'|..] == b[k..];
  }

  lemma SpillIsCall(w: Wal, w': Wal)
    ensures IsSpill(w, w') <==> exists k: nat :: w' == SpillSome(w, k)
  {
    if IsSpill(w, w') {
      CutPoint(w.durable, w.buffered, w'.durable, w'.buffered);
      assert w' == SpillSome(w, |w'.durable| - |w.durable|);
    }
    if k: nat :| w' == SpillSome(w, k) {
      SpillSomeIsSpill(w, k);
    }
  }

  /** What a crash leaves. */
  function Crash(w: Wal): Wal {
    Fresh(w.durable)
  }

  /** What a run is made of. */
  datatype Call = WriteCall(op: MapOp) | SyncCall | Spill(count: nat)

  function Step(cfg: WalConfig, w: Wal, c: Call): Wal {
    match c
    case WriteCall(op) => Write(cfg, w, op)
    case SyncCall => Sync(w)
    case Spill(count) => SpillSome(w, count)
  }

  function Run(cfg: WalConfig, w: Wal, calls: seq<Call>): Wal {
    if calls == [] then w else Step(cfg, Run(cfg, w, calls[..|calls| - 1]), calls[|calls| - 1])
  }

  function Appended(calls: seq<Call>): seq<MapOp> {
    if calls == [] then []
    else
      Appended(calls[..|calls| - 1])
      + match calls[|calls| - 1]
        case WriteCall(op) => [op]
        case SyncCall => []
        case Spill(_) => []
  }

  lemma StepConserves(cfg: WalConfig, w: Wal, c: Call)
    ensures All(Step(cfg, w, c)) == All(w) + match c case WriteCall(op) => [op] case _ => []
  {
    match c
    case WriteCall(op) =>
      assert w.durable + w.buffered + (w.pending + [op]) == All(w) + [op];
      assert w.durable + (w.buffered + (w.pending + [op])) == All(w) + [op];
    case SyncCall =>
    case Spill(count) =>
      var k := if count <= |w.buffered| then count else |w.buffered|;
      assert w.buffered[..k] + w.buffered[k..] == w.buffered;
  }

  /** Nothing is lost, duplicated or reordered by any run of calls. */
  lemma {:induction false} RunConserves(cfg: WalConfig, w: Wal, calls: seq<Call>)
    ensures All(Run(cfg, w, calls)) == All(w) + Appended(calls)
  {
    if calls != [] {
      RunConserves(cfg, w, calls[..|calls| - 1]);
      StepConserves(cfg, Run(cfg, w, calls[..|calls| - 1]), calls[|calls| - 1]);
    }
  }

  lemma {:induction false} WriteAllConserves(cfg: WalConfig, w: Wal, ops: seq<MapOp>)
    ensures All(WriteAll(cfg, w, ops)) == All(w) + ops
    ensures w.durable <= WriteAll(cfg, w, ops).durable
  {
    if ops == [] {
      assert All(w) + ops == All(w);
    } else {
      WriteAllConserves(cfg, w, ops[..|ops| - 1]);
      StepConserves(cfg, WriteAll(cfg, w, ops[..|ops| - 1]), WriteCall(ops[|ops| - 1]));
      assert ops[..|ops| - 1] + [ops[|ops| - 1]] == ops;
    }
  }

  /** With real batches (or F_FLUSH) no call leaves anything in the stdio buffer, and the
      file holds whole batches. */
  ghost predicate WholeBatches(cfg: WalConfig, w: Wal) {
    && cfg.batchSize >= 1
    && |w.pending| < cfg.batchSize
    && w.buffered == []
    && |w.durable| % cfg.batchSize == 0
  }

  lemma MultipleStep(total: nat, b: nat, more: nat)
    requires b >= 1 && total % b == 0
    ensures more == b ==> (total + more) % b == 0
    ensures more < b ==> (total + more) % b == more
  {
    var q := total / b;
    assert total == q * b;
    if more == b {
      assert total + more == (q + 1) * b;
      RemainderUnique(total + more, b, q + 1, 0);
    } else if more < b {
      RemainderUnique(total + more, b, q, more);
    }
  }

  lemma RemainderUnique(x: nat, b: nat, q: nat, r: nat)
    requires b >= 1 && r < b && x == q * b + r
    ensures x % b == r
  {
    var d := x / b - q;
    assert x == x / b * b + x % b;
    assert d * b == r - x % b;
  }

  lemma StepKeepsWholeBatches(cfg: WalConfig, w: Wal, c: Call)
    requires cfg.fFlush || cfg.batchSize > 1
    requires WholeBatches(cfg, w)
    ensures WholeBatches(cfg, Step(cfg, w, c))
  {
    if c.WriteCall? {
      MultipleStep(|w.durable|, cfg.batchSize, cfg.batchSize);
    }
  }

  lemma {:induction false} RunKeepsWholeBatches(cfg: WalConfig, calls: seq<Call>)
    requires cfg.batchSize >= 1 && (cfg.fFlush || cfg.batchSize > 1)
    ensures WholeBatches(cfg, Run(cfg, Fresh([]), calls))
  {
    hide Step;
    if calls != [] {
      RunKeepsWholeBatches(cfg, calls[..|calls| - 1]);
      StepKeepsWholeBatches(cfg, Run(cfg, Fresh([]), calls[..|calls| - 1]), calls[|calls| - 1]);
    }
  }

  /** A crash after any run on a fresh file, n of whose calls were appends, recovers
      exactly the first n - n % batchSize operations: it loses at most batchSize - 1. */
  lemma LossBound(cfg: WalConfig, calls: seq<Call>)
    requires cfg.batchSize >= 1 && (cfg.fFlush || cfg.batchSize > 1)
    ensures var n := |Appended(calls)|;
            && WholeBatches(cfg, Run(cfg, Fresh([]), calls))
            && Crash(Run(cfg, Fresh([]), calls)) == Fresh(Appended(calls)[..n - n % cfg.batchSize])
  {
    hide Run, Appended;
    RunKeepsWholeBatches(cfg, calls);
    RunConserves(cfg, Fresh([]), calls);
    var w := Run(cfg, Fresh([]), calls);
    assert w.durable + w.pending == Appended(calls) by {
      assert All(w) == w.durable + w.pending;
      assert All(Fresh([])) == [];
    }
    MultipleStep(|w.durable|, cfg.batchSize, |w.pending|);
    assert w.durable == (w.durable + w.pending)[..|w.durable|];
  }

  /** Without real batches every append waits in the stdio buffer for a sync: right after
      one, a crash loses nothing. */
  lemma {:induction false} SyncedSingles(calls: seq<Call>)
    ensures var cfg := WalConfig(1, false);
            && Run(cfg, Fresh([]), calls).pending == []
            && Crash(Sync(Run(cfg, Fresh([]), calls))) == Fresh(Appended(calls))
  {
    var cfg := WalConfig(1, false);
    if calls != [] {
      SyncedSingles(calls[..|calls| - 1]);
    }
    RunConserves(cfg, Fresh([]), calls);
    var w := Run(cfg, Fresh([]), calls);
    assert All(w) == w.durable + w.buffered;
    assert All(Fresh([])) + Appended(calls) == Appended(calls);
  }
}
