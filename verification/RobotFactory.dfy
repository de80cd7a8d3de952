/** The records shared by every component (RobotFactory.h), and the state machine
    they drive: a customer record is what is left of the log when its entries are
    applied in order, newest last.
  */
module RobotFactory {

  /** A C `int` and a C `unsigned`. */
  type Word = x: int | -0x8000_0000 <= x < 0x8000_0000
  type UWord = x: int | 0 <= x < 0x1_0000_0000

  /** `arg1` is the customer, `arg2` the order number. */
  datatype MapOp = MapOp(opcode: Word, arg1: Word, arg2: Word)

  /** The customer id that marks a commit-only request. */
  const COMMIT_ONLY: Word := -1

  datatype ReplReq = ReplReq(factoryId: int, committedIndex: int, lastIndex: int, record: MapOp)

  type Records = map<int, int>

  /** std::vector::insert before position i. */
  function Insert<T>(s: seq<T>, i: nat, x: T): seq<T>
    requires i <= |s|
  {
    s[..i] + [x] + s[i..]
  }

  lemma InsertParts<T>(s: seq<T>, i: nat, x: T)
    requires i <= |s|
    ensures Insert(s, i, x)[..i + 1] == s[..i] + [x]
    ensures Insert(s, i, x)[i + 1..] == s[i..]
  {
  }

  function Apply(m: Records, op: MapOp): Records {
    m[op.arg1 := op.arg2]
  }

  /** The left fold of Apply. */
  function ApplyAll(m: Records, ops: seq<MapOp>): Records {
    if ops == [] then m else Apply(ApplyAll(m, ops[..|ops| - 1]), ops[|ops| - 1])
  }

  function Replay(ops: seq<MapOp>): Records {
    ApplyAll(map[], ops)
  }

  lemma {:induction false} ReplayConcat(a: seq<MapOp>, b: seq<MapOp>)
    ensures ApplyAll(Replay(a), b) == Replay(a + b)
    decreases |b|
  {
    if b == [] {
      assert a + b == a;
    } else {
      assert (a + b)[..|a + b| - 1] == a + b[..|b| - 1];
      ReplayConcat(a, b[..|b| - 1]);
    }
  }

  /** What a read returns: the newest order number on record, or -1. */
  function Lookup(m: Records, customer: int): int {
    if customer in m then m[customer] else -1
  }

  /** Index of the newest entry of `customer`, or -1. */
  function NewestEntry(ops: seq<MapOp>, customer: int): (i: int)
    ensures -1 <= i < |ops|
    ensures 0 <= i ==> ops[i].arg1 == customer
    ensures forall j :: i < j < |ops| ==> ops[j].arg1 != customer
  {
    if ops == [] then -1
    else if ops[|ops| - 1].arg1 == customer then |ops| - 1
    else NewestEntry(ops[..|ops| - 1], customer)
  }

  lemma ReplayNext(ops: seq<MapOp>, i: nat)
    requires i < |ops|
    ensures Replay(ops[..i + 1]) == Apply(Replay(ops[..i]), ops[i])
  {
    assert ops[..i + 1][..i] == ops[..i];
  }

  /** Applying the newest committed entry a second time changes nothing. */
  lemma ReapplyNewest(ops: seq<MapOp>, i: nat)
    requires i < |ops|
    ensures Apply(Replay(ops[..i + 1]), ops[i]) == Replay(ops[..i + 1])
  {
    ReplayNext(ops, i);
  }

  /** Applying entries to a record, customer by customer: the newest entry counts. */
  lemma {:induction false} ApplyAllAt(m: Records, ops: seq<MapOp>, customer: int)
    ensures customer in ApplyAll(m, ops) <==> customer in m || NewestEntry(ops, customer) >= 0
    ensures customer in ApplyAll(m, ops) ==>
              ApplyAll(m, ops)[customer] == var i := NewestEntry(ops, customer); if i < 0 then m[customer] else ops[i].arg2
  {
    if ops != [] && ops[|ops| - 1].arg1 != customer {
      ApplyAllAt(m, ops[..|ops| - 1], customer);
    }
  }

  /** A record to which `skipped` was never applied does not show it once `op` is. */
  predicate Unseen(m: Records, skipped: seq<MapOp>, op: MapOp) {
    forall j :: 0 <= j < |skipped| && skipped[j].arg1 != op.arg1 && NewestEntry(skipped, skipped[j].arg1) == j ==>
      skipped[j].arg1 in m && m[skipped[j].arg1] == skipped[j].arg2
  }

  lemma UnseenExact(m: Records, skipped: seq<MapOp>, op: MapOp)
    ensures Apply(ApplyAll(m, skipped), op) == Apply(m, op) <==> Unseen(m, skipped, op)
  {
    var full, short := Apply(ApplyAll(m, skipped), op), Apply(m, op);
    forall c: int | c != op.arg1
      ensures c in full <==> c in m || NewestEntry(skipped, c) >= 0
      ensures c in full ==> full[c] == var j := NewestEntry(skipped, c); if j < 0 then m[c] else skipped[j].arg2
    {
      ApplyAllAt(m, skipped, c);
    }
    if full == short {
      forall j | 0 <= j < |skipped| && skipped[j].arg1 != op.arg1 && NewestEntry(skipped, skipped[j].arg1) == j
        ensures skipped[j].arg1 in m && m[skipped[j].arg1] == skipped[j].arg2
      {
        assert skipped[j].arg1 in full;
        assert full[skipped[j].arg1] == short[skipped[j].arg1];
      }
    }
    if Unseen(m, skipped, op) {
      forall c: int ensures (c in full <==> c in short) && (c in full ==> full[c] == short[c]) {
        var j := NewestEntry(skipped, c);
        if c != op.arg1 && j >= 0 {
          assert skipped[j].arg1 == c;
        }
      }
    }
  }

  /** Entries may be applied again if all that follows is applied again too. */
  lemma {:induction false} RepeatedFirst(m: Records, ops: seq<MapOp>)
    requires ops != []
    ensures ApplyAll(Apply(m, ops[0]), ops) == ApplyAll(m, ops)
    decreases |ops|
  {
    if |ops| == 1 {
      assert ops[..0] == [];
    } else {
      RepeatedFirst(m, ops[..|ops| - 1]);
    }
  }

  /** A read of a replayed log is the newest write to that customer. */
  lemma {:induction false} LookupIsNewestWrite(ops: seq<MapOp>, customer: int)
    ensures Lookup(Replay(ops), customer)
         == (var i := NewestEntry(ops, customer); if i < 0 then -1 else ops[i].arg2)
  {
    if ops != [] && ops[|ops| - 1].arg1 != customer {
      LookupIsNewestWrite(ops[..|ops| - 1], customer);
    }
  }

  /** `value` was written for `customer` at index `from` of the log or behind it. */
  ghost predicate WrittenSince(log: seq<MapOp>, from: nat, customer: int, value: int) {
    exists j :: from <= j < |log| && log[j].arg1 == customer && log[j].arg2 == value
  }

  lemma NewestIsSince(log: seq<MapOp>, from: nat, customer: int)
    requires from < |log| && log[from].arg1 == customer
    ensures WrittenSince(log, from, customer, Lookup(Replay(log), customer))
  {
    LookupIsNewestWrite(log, customer);
    var j := NewestEntry(log, customer);
    assert from <= j;
    assert log[j].arg1 == customer && log[j].arg2 == Lookup(Replay(log), customer);
  }

  /** Two replicas one entry apart disagree about that entry's customer at most. */
  lemma OneEntryOneCustomer(ops: seq<MapOp>, i: nat, customer: int)
    requires i < |ops| && customer != ops[i].arg1
    ensures Lookup(Replay(ops[..i + 1]), customer) == Lookup(Replay(ops[..i]), customer)
  {
    ReplayNext(ops, i);
  }

  /** The order numbers `customer` has in the log, oldest first. */
  function OrdersOf(ops: seq<MapOp>, customer: int): seq<int> {
    if ops == [] then []
    else
      OrdersOf(ops[..|ops| - 1], customer)
      + if ops[|ops| - 1].arg1 == customer then [ops[|ops| - 1].arg2 as int] else []
  }

  /** 1, 2, ..., k: what one client connection sends (ClientThread.cpp:29-42). */
  ghost predicate Consecutive(orders: seq<int>) {
    forall k :: 0 <= k < |orders| ==> orders[k] == k + 1
  }

  lemma {:induction false} OrdersGrow(ops: seq<MapOp>, n: nat, customer: int)
    requires n <= |ops|
    ensures OrdersOf(ops[..n], customer) <= OrdersOf(ops, customer)
    decreases |ops|
  {
    if n < |ops| {
      OrdersGrow(ops[..|ops| - 1], n, customer);
      assert ops[..|ops| - 1][..n] == ops[..n];
    } else {
      assert ops[..n] == ops;
    }
  }

  /** A read of a consecutively numbering customer counts that customer's entries. */
  lemma {:induction false} ReadCountsOrders(ops: seq<MapOp>, customer: int)
    requires Consecutive(OrdersOf(ops, customer))
    ensures var k := |OrdersOf(ops, customer)|;
            Lookup(Replay(ops), customer) == if k == 0 then -1 else k
  {
    if ops != [] {
      var init := ops[..|ops| - 1];
      var earlier := OrdersOf(init, customer);
      assert Consecutive(earlier) by {
        forall k | 0 <= k < |earlier| ensures earlier[k] == k + 1 {
          assert earlier[k] == OrdersOf(ops, customer)[k];
        }
      }
      ReadCountsOrders(init, customer);
      if ops[|ops| - 1].arg1 == customer {
        assert OrdersOf(ops, customer)[|earlier|] == |earlier| + 1;
      }
    }
  }

  /** Reads of a growing committed prefix never go back. */
  lemma ReadsNeverDecrease(ops: seq<MapOp>, m: nat, n: nat, customer: int)
    requires m <= n <= |ops|
    requires Consecutive(OrdersOf(ops, customer))
    ensures Lookup(Replay(ops[..m]), customer) <= Lookup(Replay(ops[..n]), customer)
  {
    forall p: nat | p <= |ops|
      ensures OrdersOf(ops[..p], customer) <= OrdersOf(ops, customer)
    {
      OrdersGrow(ops, p, customer);
    }
    OrdersGrow(ops[..n], m, customer);
    assert ops[..n][..m] == ops[..m];
    ReadCountsOrders(ops[..m], customer);
    ReadCountsOrders(ops[..n], customer);
  }
}
