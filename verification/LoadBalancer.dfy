/** The front end's shared state (load_balancer/ServerThread.cpp): a round-robin pointer for
    reads, a sticky master for orders, and a health table a concurrent heartbeat keeps.
    Nodes are numbered 0..n-1.
  */
module LoadBalancer {

  datatype Balancer = Balancer(current: nat, master: nat, health: map<nat, bool>, size: nat)

  /** What the locked part of get_master_node decides. ReadLater: the master was healthy,
      and its id is read again after the lock is released. */
  datatype MasterChoice = Chosen(id: nat) | NoMaster | ReadLater

  /** What LoadBalancerThread picks for a session's reads. NullStub: the scan has already
      replaced the connection object by NULL when it comes to a healthy node, and uses it. */
  datatype WorkerChoice = Routed(id: nat) | Refused | NullStub

  ghost predicate Formed(b: Balancer) {
    && b.size >= 1 && b.current < b.size && b.master < b.size
    && forall i: nat :: i in b.health <==> i < b.size
  }

  predicate Healthy(b: Balancer, i: nat) {
    i in b.health && b.health[i]
  }

  ghost predicate AllHealthy(b: Balancer) {
    forall i: nat :: i < b.size ==> Healthy(b, i)
  }

  /** The lowest healthy id from `from` on, or the number of nodes. */
  function LowestHealthy(b: Balancer, from: nat): (r: nat)
    requires from <= b.size
    ensures from <= r <= b.size
    ensures r < b.size ==> Healthy(b, r)
    ensures forall i :: from <= i < r ==> !Healthy(b, i)
    decreases b.size - from
  {
    if from == b.size || Healthy(b, from) then from else LowestHealthy(b, from + 1)
  }

  /** The health table that takes nodes 0..size-1 for healthy. */
  function Everyone(size: nat): (health: map<nat, bool>)
    ensures forall i: nat :: i in health <==> i < size
    ensures forall i: nat :: i < size ==> health[i]
  {
    if size == 0 then map[] else Everyone(size - 1)[size - 1 := true]
  }

  function CheckMaster(b: Balancer): (Balancer, MasterChoice) {
    if Healthy(b, b.master) then (b, ReadLater)
    else
      var i := LowestHealthy(b, 0);
      if i < b.size then (b.(master := i), Chosen(i)) else (b, NoMaster)
  }

  function PickWorker(b: Balancer): (Balancer, WorkerChoice) {
    if Healthy(b, b.current) then
      (b.(current := if b.current + 1 == b.size then 0 else b.current + 1), Routed(b.current))
    else
      var i := LowestHealthy(b, 0);
      (b, if i == b.size then Refused else if i == 0 then Routed(0) else NullStub)
  }

  class RobotFactory {
    var currentWorkerNode: nat
    var masterNodeId: nat
    var nodeHealth: map<nat, bool>
    const workerNodeMapSize: nat

    ghost function View(): Balancer
      reads this
    {
      Balancer(currentWorkerNode, masterNodeId, nodeHealth, workerNodeMapSize)
    }

    constructor (size: nat)
      requires size >= 1
      ensures View() == Balancer(0, 0, Everyone(size), size)
      ensures Formed(View()) && AllHealthy(View())
    {
      currentWorkerNode, masterNodeId := 0, 0;
      workerNodeMapSize := size;
      var health: map<nat, bool> := map[];
      var i := 0;
      while i < size
        invariant 0 <= i <= size && health == Everyone(i)
      {
        health := health[i := true];
        i := i + 1;
      }
      nodeHealth := health;
    }

    /** The part of get_master_node that holds the lock. */
    method CheckMasterLocked() returns (choice: MasterChoice)
      requires Formed(View())
      modifies `masterNodeId
      ensures (View(), choice) == CheckMaster(old(View())) && Formed(View())
    {
      if !nodeHealth[masterNodeId] {
        var i := 0;
        while i < workerNodeMapSize
          invariant 0 <= i <= workerNodeMapSize && unchanged(this)
          invariant LowestHealthy(View(), 0) == LowestHealthy(View(), i)
        {
          if nodeHealth[i] {
            masterNodeId := i;
            return Chosen(i);
          }
          i := i + 1;
        }
        return NoMaster;
      }
      return ReadLater;
    }

    /** The worker selection of LoadBalancerThread. */
    method SelectWorker() returns (choice: WorkerChoice)
      requires Formed(View())
      modifies `currentWorkerNode
      ensures (View(), choice) == PickWorker(old(View())) && Formed(View())
    {
      if !nodeHealth[currentWorkerNode] {
        var stubIsNull := false;
        var i := 0;
        while i < workerNodeMapSize
          invariant 0 <= i <= workerNodeMapSize && unchanged(this)
          invariant LowestHealthy(View(), 0) == LowestHealthy(View(), i)
          invariant stubIsNull <==> i > 0
        {
          if nodeHealth[i] {
            return if stubIsNull then NullStub else Routed(i);
          } else {
            stubIsNull := true;
          }
          i := i + 1;
        }
        return Refused;
      }
      choice := Routed(currentWorkerNode);
      currentWorkerNode := currentWorkerNode + 1;
      if currentWorkerNode == workerNodeMapSize {
        currentWorkerNode := 0;
      }
    }

    /** One answer, or missing answer, of the heartbeat. */
    method HeartBeat(id: nat, answered: bool)
      requires Formed(View()) && id < workerNodeMapSize
      modifies `nodeHealth
      ensures View() == After(old(View()), Beat(id, answered)) && Formed(View())
    {
      nodeHealth := nodeHealth[id := answered];
    }

    /** The heartbeat thread starts by taking every node for healthy. */
    method HeartBeatStart()
      requires Formed(View())
      modifies `nodeHealth
      ensures View() == After(old(View()), BeatStart) && Formed(View())
    {
      var i := 0;
      while i < workerNodeMapSize
        invariant 0 <= i <= workerNodeMapSize
        invariant forall k: nat :: k in nodeHealth <==> k < workerNodeMapSize
        invariant forall k: nat :: k < i ==> nodeHealth[k]
      {
        nodeHealth := nodeHealth[i := true];
        i := i + 1;
      }
    }
  }

  // ---- what one choice means ----

  /** The master changes only in a call that found it unhealthy, to the lowest healthy id;
      there is no master only if no node is healthy. */
  lemma MasterChangesOnlyWhenSick(b: Balancer)
    requires Formed(b)
    ensures var (b', choice) := CheckMaster(b);
            && Formed(b') && b'.current == b.current && b'.health == b.health
            && (b'.master != b.master ==> !Healthy(b, b.master) && choice == Chosen(b'.master))
            && (choice.Chosen? ==> !Healthy(b, b.master) && Healthy(b, choice.id) && b'.master == choice.id
                                   && forall i: nat :: i < choice.id ==> !Healthy(b, i))
            && (choice.NoMaster? <==> forall i: nat :: i < b.size ==> !Healthy(b, i))
            && (choice.ReadLater? <==> Healthy(b, b.master))
  {
    assert b.master < b.size;
  }

  /** A session is routed to a healthy node; it is refused exactly when no node is healthy;
      and the selection runs into its NULL stub exactly when the node whose turn it is and
      node 0 are both unhealthy while some other node is healthy. */
  lemma WorkerChoiceExact(b: Balancer)
    requires Formed(b)
    ensures var (b', choice) := PickWorker(b);
            && Formed(b') && b'.master == b.master && b'.health == b.health
            && (choice.Routed? ==> Healthy(b, choice.id))
            && (choice.Refused? <==> forall i: nat :: i < b.size ==> !Healthy(b, i))
            && (choice.NullStub? <==>
                  !Healthy(b, b.current) && !Healthy(b, 0) && exists i: nat :: i < b.size && Healthy(b, i))
            && (Healthy(b, b.current) ==>
                  choice == Routed(b.current) && b'.current == (b.current + 1) % b.size)
            && (!Healthy(b, b.current) ==> b'.current == b.current && (choice == Routed(0) <==> Healthy(b, 0)))
  {
    assert b.current < b.size;
    NextTurn(b.current, b.size);
  }

  lemma NextTurn(current: nat, size: nat)
    requires current < size
    ensures (if current + 1 == size then 0 else current + 1) == (current + 1) % size
  {
  }

  // ---- any interleaving of sessions and heartbeats ----

  datatype Event = MasterCheck | WorkerPick | Beat(id: nat, answered: bool) | BeatStart

  function After(b: Balancer, e: Event): Balancer {
    match e
    case MasterCheck => CheckMaster(b).0
    case WorkerPick => PickWorker(b).0
    case Beat(id, answered) => if id < b.size then b.(health := b.health[id := answered]) else b
    case BeatStart => b.(health := Everyone(b.size))
  }

  function AfterAll(b: Balancer, run: seq<Event>): Balancer {
    if run == [] then b else After(AfterAll(b, run[..|run| - 1]), run[|run| - 1])
  }

  /** Both ids stay in range through any interleaving. */
  lemma {:induction false} AlwaysFormed(b: Balancer, run: seq<Event>)
    requires Formed(b)
    ensures Formed(AfterAll(b, run)) && AfterAll(b, run).size == b.size
  {
    if run != [] {
      var before := AfterAll(b, run[..|run| - 1]);
      AlwaysFormed(b, run[..|run| - 1]);
      MasterChangesOnlyWhenSick(before);
      WorkerChoiceExact(before);
    }
  }

  predicate SetsHealth(e: Event, id: nat) {
    e == BeatStart || (e.Beat? && e.id == id)
  }

  /** The last event of a run that says something about a node's health, or -1. */
  function LastWord(run: seq<Event>, id: nat): (i: int)
    ensures -1 <= i < |run|
    ensures i >= 0 ==> run[i] == BeatStart || run[i] == Beat(id, true) || run[i] == Beat(id, false)
    ensures forall j :: i < j < |run| ==> run[j] != BeatStart && run[j] != Beat(id, true) && run[j] != Beat(id, false)
  {
    if run == [] then -1
    else if SetsHealth(run[|run| - 1], id) then |run| - 1
    else LastWord(run[..|run| - 1], id)
  }

  /** Through any interleaving a node is healthy exactly if it answered its last heartbeat
      since the heartbeat thread started, or had none since; sessions, master checks and
      other nodes' heartbeats have no say in it. */
  lemma {:induction false} HealthIsLastWord(b: Balancer, run: seq<Event>, id: nat)
    requires Formed(b) && id < b.size
    ensures Healthy(AfterAll(b, run), id)
            <==> var i := LastWord(run, id);
                 if i < 0 then Healthy(b, id) else run[i] == BeatStart || run[i] == Beat(id, true)
  {
    if run != [] {
      var init, last := run[..|run| - 1], run[|run| - 1];
      AlwaysFormed(b, init);
      MasterChangesOnlyWhenSick(AfterAll(b, init));
      WorkerChoiceExact(AfterAll(b, init));
      HealthIsLastWord(b, init, id);
    }
  }

  /** The NULL stub is one missed heartbeat away: a front end that has just started, with two
      nodes or more, meets it at the first session after node 0 fails to answer. */
  lemma NullStubHappens(size: nat)
    requires size >= 2
    ensures PickWorker(AfterAll(Balancer(0, 0, Everyone(size), size), [Beat(0, false)])).1 == NullStub
  {
    var start := Balancer(0, 0, Everyone(size), size);
    var run := [Beat(0, false)];
    assert run[..|run| - 1] == [];
    var b := AfterAll(start, run);
    assert b == After(start, Beat(0, false)) == start.(health := start.health[0 := false]);
    assert !Healthy(b, 0) && Healthy(b, 1);
  }

  /** get_master_node reads the master's id a second time without the lock. Whatever other
      sessions and the heartbeat did since the locked check found the master healthy, the
      id that is read was healthy at some moment inside the call. */
  lemma {:induction false} ReturnedMasterWasHealthy(b: Balancer, run: seq<Event>) returns (moment: nat)
    requires Formed(b) && CheckMaster(b).1 == ReadLater
    ensures moment <= |run|
    ensures Healthy(AfterAll(b, run[..moment]), AfterAll(b, run).master)
  {
    if run == [] {
      moment := 0;
    } else {
      var init := run[..|run| - 1];
      var before := AfterAll(b, init);
      AlwaysFormed(b, init);
      MasterChangesOnlyWhenSick(before);
      WorkerChoiceExact(before);
      if AfterAll(b, run).master == before.master {
        moment := ReturnedMasterWasHealthy(b, init);
        assert init[..moment] == run[..moment];
      } else {
        moment := |init|;
        assert run[..moment] == init;
      }
    }
  }

  // ---- fairness ----

  /** Every node is healthy whenever a session picks its worker. */
  ghost predicate HealthyThroughout(b: Balancer, run: seq<Event>) {
    forall k :: 0 <= k < |run| && run[k] == WorkerPick ==> AllHealthy(AfterAll(b, run[..k]))
  }

  /** How many sessions of the run were routed to `id`. */
  function Served(b: Balancer, run: seq<Event>, id: nat): nat {
    if run == [] then 0
    else
      var init := run[..|run| - 1];
      Served(b, init, id)
      + if run[|run| - 1] == WorkerPick && PickWorker(AfterAll(b, init)).1 == Routed(id) then 1 else 0
  }

  /** The pointer went past `id` since it was last at `start`. */
  predicate Passed(start: nat, pointer: nat, id: nat) {
    if start <= pointer then start <= id < pointer else id >= start || id < pointer
  }

  lemma {:induction false} Rounds(b: Balancer, run: seq<Event>) returns (rounds: nat)
    requires Formed(b) && HealthyThroughout(b, run)
    ensures forall id: nat :: id < b.size ==>
              Served(b, run, id) == rounds + if Passed(b.current, AfterAll(b, run).current, id) then 1 else 0
  {
    if run == [] {
      rounds := 0;
    } else {
      var init := run[..|run| - 1];
      var before, after := AfterAll(b, init), AfterAll(b, run);
      forall k | 0 <= k < |init| && init[k] == WorkerPick ensures AllHealthy(AfterAll(b, init[..k])) {
        assert init[..k] == run[..k];
      }
      rounds := Rounds(b, init);
      AlwaysFormed(b, init);
      if run[|run| - 1] == WorkerPick {
        assert run[..|run| - 1] == init;
        assert AllHealthy(before);
        assert Healthy(before, before.current);
        if after.current == b.current {
          rounds := rounds + 1;
        }
      } else {
        MasterChangesOnlyWhenSick(before);
      }
    }
  }

  /** As long as all nodes are healthy the sessions are spread evenly: no node ever serves
      two more than another. */
  lemma RoundRobinIsFair(b: Balancer, run: seq<Event>, i: nat, j: nat)
    requires Formed(b) && HealthyThroughout(b, run) && i < b.size && j < b.size
    ensures Served(b, run, i) <= Served(b, run, j) + 1
  {
    var rounds := Rounds(b, run);
  }
}
