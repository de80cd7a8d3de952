/** The handlers of Server.cpp as methods of a node object, each proved equal to the
    function on node states that the protocol is built from.
  */
module Server {
  import opened RobotFactory
  import opened WalState
  import opened WalCodec
  import opened CommitLogs
  import opened Replica
  import opened ServerStubs
  import opened AdminQueue

  /** What comes back on a backup's socket in one send loop. */
  datatype Reply = Broken | Ack(success: int)

  datatype Exchange = Exchange(sent: bool, ack: Reply, recoverySent: bool, reack: Reply)

  /** The socket after one turn of the send loop: it stays open only if the backup
      acknowledged, at once or after it was sent the log. */
  function SocketAfter(socket: int, x: Exchange): int {
    if socket < 0 then socket
    else if !x.sent || x.ack.Broken? then -1
    else if x.ack.success == 2 then
      if !x.recoverySent || x.reack.Broken? || x.reack.success != 1 then -1 else socket
    else if x.ack.success != 1 then -1
    else socket
  }

  lemma SocketSurvives(socket: int, x: Exchange)
    ensures SocketAfter(socket, x) >= 0 <==>
            socket >= 0 && x.sent
            && (x.ack == Ack(1) || (x.ack == Ack(2) && x.recoverySent && x.reack == Ack(1)))
    ensures SocketAfter(socket, x) >= 0 ==> SocketAfter(socket, x) == socket
  {
  }

  /** The socket after recheckreplsock, given what a new connection attempt would return. */
  function SocketRechecked(socket: int, attempt: int): int {
    if socket >= 0 then socket else if attempt > 0 then attempt else -1
  }

  /** After a recheck a socket is open if and only if it was, and then it is the same one, or
      the attempt to connect succeeded, and then it is the new one. */
  lemma SocketReopens(socket: int, attempt: int)
    ensures SocketRechecked(socket, attempt) >= 0 <==> socket >= 0 || attempt > 0
    ensures socket >= 0 ==> SocketRechecked(socket, attempt) == socket
    ensures socket < 0 < attempt ==> SocketRechecked(socket, attempt) == attempt
  {
  }

  lemma {:induction false} OneMoreEntry(w: Wal, m: Records, ops: seq<MapOp>, op: MapOp)
    ensures WriteAll(CFG, w, ops + [op]) == Write(CFG, WriteAll(CFG, w, ops), op)
    ensures ApplyAll(m, ops + [op]) == Apply(ApplyAll(m, ops), op)
  {
    assert (ops + [op])[..|ops|] == ops;
  }

  class ServerSocket {
    var adminThreadList: seq<RobotInf>
    var barrierList: seq<nat>
    var fulfilled: seq<nat>           // promises whose set_value was called
    var customerRecord: Records
    var smrLog: seq<MapOp>
    var sockets: seq<int>             // factories_record[i].socket
    var lastIndex: int
    var committedIndex: int
    var primaryId: int
    var recheckAllow: bool
    const myFactoryId: int
    const clog: CommitLog

    ghost predicate Valid()
      reads this, clog
    {
      clog.Valid() && clog.Config() == CFG
    }

    ghost function View(): Node
      reads this, clog
    {
      Node(smrLog, lastIndex, committedIndex, customerRecord, clog.View())
    }

    ghost function DeskView(): Desk
      reads this, clog
    {
      Desk(View(), recheckAllow, adminThreadList, barrierList, fulfilled)
    }

    /** The start of a node on an open, whole log file; recovery comes next. */
    constructor (factoryId: int, clog: CommitLog, backups: nat)
      requires clog.Valid() && clog.Config() == CFG
      ensures Valid() && this.clog == clog && myFactoryId == factoryId
      ensures View() == EMPTY_NODE.(wal := clog.View()) && recheckAllow
      ensures adminThreadList == [] && barrierList == [] && fulfilled == []
      ensures sockets == seq(backups, i => -1)
    {
      adminThreadList, barrierList, fulfilled := [], [], [];
      customerRecord, smrLog := map[], [];
      sockets := seq(backups, i => -1);
      lastIndex, committedIndex, primaryId := -1, -1, -1;
      recheckAllow := true;
      myFactoryId := factoryId;
      this.clog := clog;
    }

    /** Append one entry to the write-ahead log; its index field is never set. */
    method LogToDisk(op: MapOp)
      requires Valid()
      modifies clog
      ensures Valid() && View() == old(View()).(wal := Write(CFG, old(clog.View()), op))
    {
      hide Sound, Meaning, Write;
      var index: Word := *;
      clog.WriteLogWithCrc(op, index);
    }

    /** Returns false if vector::at throws. */
    method RecheckCommit() returns (alive: bool)
      requires Valid()
      modifies `customerRecord, `committedIndex
      ensures Valid()
      ensures alive <==> Replica.RecheckCommit(old(View())).Running?
      ensures alive ==> View() == Replica.RecheckCommit(old(View())).node
    {
      hide Sound, Meaning;
      if lastIndex >= 0 && lastIndex > committedIndex {
        if lastIndex >= |smrLog| {
          return false;
        }
        var op := smrLog[lastIndex];
        customerRecord := customerRecord[op.arg1 := op.arg2];
        committedIndex := lastIndex;
      }
      alive := true;
    }

    /** Retry every backup whose socket is closed. */
    method RecheckReplSock(attempts: seq<int>)
      requires |attempts| == |sockets|
      modifies `sockets
      ensures |sockets| == |old(sockets)|
      ensures forall i :: 0 <= i < |sockets| ==> sockets[i] == SocketRechecked(old(sockets)[i], attempts[i])
      ensures forall i :: 0 <= i < |sockets| && old(sockets)[i] >= 0 ==> sockets[i] == old(sockets)[i]
      ensures forall i :: 0 <= i < |sockets| && old(sockets)[i] < 0 ==>
                if attempts[i] > 0 then sockets[i] == attempts[i] else sockets[i] < 0
    {
      var i := 0;
      while i < |sockets|
        invariant 0 <= i <= |sockets| == |old(sockets)|
        invariant forall k :: 0 <= k < i ==> sockets[k] == SocketRechecked(old(sockets)[k], attempts[k])
        invariant forall k :: i <= k < |sockets| ==> sockets[k] == old(sockets)[k]
      {
        if sockets[i] < 0 {
          sockets := sockets[i := if attempts[i] > 0 then attempts[i] else -1];
        }
        i := i + 1;
      }
    }

    /** The replay loop of initiate_recovery, over entries that were all received. */
    method AdoptEntries(before: int, remoteLast: int, remoteCommitted: int)
      requires Valid() && -1 <= before == lastIndex <= remoteLast < |smrLog|
      modifies this`customerRecord, this`committedIndex, clog
      ensures Valid()
      ensures View() == AdoptRecovered(old(View()), smrLog, remoteLast, remoteCommitted)
    {
      hide Sound, Meaning, Write, WriteAll, ApplyAll;
      ghost var n := View();
      var i := lastIndex + 1;
      NothingAdopted(n);
      assert smrLog[i..i] == [];
      while i <= remoteLast
        invariant lastIndex + 1 <= i <= remoteLast + 1 && Valid()
        invariant View() == AdoptRecovered(n, smrLog, i - 1, remoteCommitted)
      {
        var op := smrLog[i];
        assert smrLog[n.last + 1..i + 1] == smrLog[n.last + 1..i] + [op];
        OneMoreEntry(n.wal, n.record, smrLog[n.last + 1..i], op);
        LogToDisk(op);
        if i <= remoteCommitted {
          customerRecord := customerRecord[op.arg1 := op.arg2];
          committedIndex := i;
        }
        i := i + 1;
      }
    }

    lemma NothingAdopted(n: Node)
      ensures WriteAll(CFG, n.wal, []) == n.wal && ApplyAll(n.record, []) == n.record
    {
    }

    /** Ask for the missing entries, insert them, log them and commit what is committed.
        `ackSent` is whether the first answer reached the primary. */
    method InitiateRecovery(conn: Connection, ackSent: bool, remoteLast: int, remoteCommitted: int)
      requires Valid() && 0 <= lastIndex + 1 <= |smrLog| && lastIndex < remoteLast
      modifies this`smrLog, this`customerRecord, this`committedIndex, this`primaryId, clog, conn`inFlight
      ensures Valid()
      ensures var stream := if ackSent then old(conn.inFlight) else [];
              var need := remoteLast - old(lastIndex);
              var log := Received(old(smrLog), old(lastIndex), need, stream);
              && View() == (if |stream| < need then old(View()).(log := log)
                            else AdoptRecovered(old(View()), log, remoteLast, remoteCommitted))
              && (ackSent ==> conn.inFlight == old(conn.inFlight)[Min(need, |stream|)..])
              && (!ackSent ==> unchanged(conn))
    {
      hide Sound, Meaning;
      if !ackSent {
        primaryId := -1;
        assert Received(smrLog, lastIndex, remoteLast - lastIndex, []) == smrLog;
        return;
      }
      var ok;
      ok, smrLog := GetRecoveryLog(conn, smrLog, lastIndex, remoteLast);
      if !ok {
        primaryId := -1;
        return;
      }
      AdoptSame(old(View()), smrLog, remoteLast, remoteCommitted);
      AdoptEntries(lastIndex, remoteLast, remoteCommitted);
    }

    lemma AdoptSame(n: Node, log: seq<MapOp>, remoteLast: int, remoteCommitted: int)
      requires -1 <= n.last <= remoteLast < |log|
      ensures AdoptRecovered(n.(log := log), log, remoteLast, remoteCommitted)
           == AdoptRecovered(n, log, remoteLast, remoteCommitted)
    {
    }

    /** Handle one replication request that was received whole. Returns false if
        vector::at throws. */
    method IfaThreadRead(request: ReplReq, conn: Connection, ackSent: bool) returns (alive: bool)
      requires Valid() && Deliverable(View(), request)
      modifies this`smrLog, this`customerRecord, this`lastIndex, this`committedIndex, this`primaryId, clog, conn`inFlight
      ensures Valid()
      ensures var gap := request.lastIndex - old(lastIndex);
              var stream := if gap > 1 && !ackSent then [] else old(conn.inFlight);
              var o := Handle(old(View()), request, stream);
              && (alive <==> o.Running?)
              && (alive ==> View() == o.node)
              && (alive && gap > 1 && ackSent ==> conn.inFlight == o.unread)
              && (!alive ==> clog.View() == o.wal)
      ensures request.lastIndex - old(lastIndex) <= 1 ==> unchanged(conn)
      ensures alive ==> primaryId == request.factoryId
    {
      hide Sound, Meaning, AdoptRecovered, Received, Write;
      if request.lastIndex - lastIndex > 1 {
        InitiateRecovery(conn, ackSent, request.lastIndex, request.committedIndex);
      } else if request.record.arg1 != COMMIT_ONLY {
        LogToDisk(request.record);
        clog.Sync();
        smrLog := Insert(smrLog, request.lastIndex, request.record);
      }
      primaryId := request.factoryId;
      lastIndex := request.lastIndex;
      if request.committedIndex != -1 {
        if request.committedIndex < 0 || request.committedIndex >= |smrLog| {
          return false;
        }
        var op := smrLog[request.committedIndex];
        customerRecord := customerRecord[op.arg1 := op.arg2];
        committedIndex := request.committedIndex;
      }
      alive := true;
    }

    /** At start-up, after the log file was opened, whatever is in it; `fetched` is the
        committed index of the first peer that answers, 0 if none does. Returns false if
        vector::at throws. */
    method InitiateRecoveryFromLog(fetched: int) returns (alive: bool)
      requires smrLog == [] && lastIndex == committedIndex == -1 && customerRecord == map[] && clog.position == 0
      modifies this`smrLog, this`customerRecord, this`lastIndex, this`committedIndex, clog`position
      ensures var durable := RecoveredOps(clog.crc, clog.file);
              var o := Restart(durable, fetched);
              && (alive <==> o.Running?)
              && (alive ==> Node(smrLog, lastIndex, committedIndex, customerRecord, Fresh(durable)) == o.node)
              && (old(clog.View()) == Fresh(durable) && alive ==> View() == o.node)
      ensures old(Valid()) ==> Valid()
    {
      hide Sound, Meaning, RecoveredOps, Restart;
      smrLog := clog.RecoverWithCrc(smrLog);
      assert clog.file[0..] == clog.file;
      assert smrLog == RecoveredOps(clog.crc, clog.file);
      alive := ReplayRecovered(fetched);
    }

    /** The rest of initiate_recovery_from_log, once the log is in memory. */
    method ReplayRecovered(fetched: int) returns (alive: bool)
      requires lastIndex == committedIndex == -1 && customerRecord == map[]
      modifies `customerRecord, `lastIndex, `committedIndex
      ensures alive <==> Restart(smrLog, fetched).Running?
      ensures alive ==> Node(smrLog, lastIndex, committedIndex, customerRecord, Fresh(smrLog)) == Restart(smrLog, fetched).node
    {
      hide ApplyAll;
      if |smrLog| == 0 && fetched == 0 {
        return true;
      }
      var upto := fetched;
      if upto > |smrLog| {
        upto := |smrLog| - 1;
      }
      if upto == 0 {
        upto := |smrLog| - 1;
      }
      alive := ReplayUpTo(upto);
    }

    /** The replay loop of initiate_recovery_from_log. Returns false if vector::at throws. */
    method ReplayUpTo(upto: int) returns (alive: bool)
      requires lastIndex == committedIndex == -1 && customerRecord == map[]
      modifies `customerRecord, `lastIndex, `committedIndex
      ensures alive <==> upto < |smrLog|
      ensures alive && upto < 0 ==> unchanged(this)
      ensures alive && upto >= 0 ==> lastIndex == committedIndex == upto && customerRecord == Replay(smrLog[..upto + 1])
    {
      var i := 0;
      while i <= upto
        invariant 0 <= i <= |smrLog| && (i <= upto + 1 || i == 0)
        invariant lastIndex == committedIndex == i - 1
        invariant customerRecord == Replay(smrLog[..i])
        decreases upto + 1 - i
      {
        if i >= |smrLog| {
          return false;
        }
        ReplayNext(smrLog, i);
        var op := smrLog[i];
        customerRecord := customerRecord[op.arg1 := op.arg2];
        committedIndex := i;
        lastIndex := i;
        i := i + 1;
      }
      alive := true;
    }

    /** The end of engineer_thread_body, when the client is gone. */
    method ConnectionClosed()
      requires Valid()
      modifies this`recheckAllow, clog
      ensures Valid() && DeskView() == CloseConnection(old(DeskView()))
      ensures recheckAllow && clog.file == old(clog.file + clog.stdio) && clog.stdio == []
      ensures clog.commitLogWithCrcBatch == old(clog.commitLogWithCrcBatch)
    {
      hide Sound, Meaning;
      clog.Sync();
      recheckAllow := true;
    }

    /** engineer_thread_robot_def and engineer_thread_send_commited_index, up to the wait. */
    method Enqueue(robot: RobotInf, promise: nat)
      modifies `adminThreadList, `barrierList
      ensures DeskView() == AdminQueue.Enqueue(old(DeskView()), robot, promise)
    {
      hide Meaning;
      adminThreadList := adminThreadList + [robot];
      barrierList := barrierList + [promise];
    }

    /** engineer_thread_read_def. */
    method EngineerReadDef(customer: int) returns (lastOrder: int)
      ensures lastOrder == Lookup(customerRecord, customer)
    {
      if customer !in customerRecord {
        lastOrder := -1;
      } else {
        lastOrder := customerRecord[customer];
      }
    }

    /** The send loop over the backups. */
    method SendToBackups(exchanges: seq<Exchange>)
      requires |exchanges| == |sockets|
      modifies `sockets
      ensures |sockets| == |old(sockets)|
      ensures forall i :: 0 <= i < |sockets| ==> sockets[i] == SocketAfter(old(sockets)[i], exchanges[i])
    {
      var i := 0;
      while i < |sockets|
        invariant 0 <= i <= |sockets| == |old(sockets)|
        invariant forall k :: 0 <= k < i ==> sockets[k] == SocketAfter(old(sockets)[k], exchanges[k])
        invariant forall k :: i <= k < |sockets| ==> sockets[k] == old(sockets)[k]
      {
        if sockets[i] >= 0 {
          var x := exchanges[i];
          if !x.sent || x.ack.Broken? {
            sockets := sockets[i := -1];
          } else {
            var success := x.ack.success;
            var broken := false;
            if success == 2 {
              if !x.recoverySent || x.reack.Broken? {
                broken := true;
              } else {
                success := x.reack.success;
              }
            }
            if broken || success != 1 {
              sockets := sockets[i := -1];
            }
          }
        }
        i := i + 1;
      }
    }

    /** What the primary commits: its own entry, once the backups have it or are gone. */
    method CommitOrder(entry: MapOp)
      requires Valid()
      modifies `customerRecord, `committedIndex
      ensures Valid() && View() == PrimaryCommit(old(View()), entry)
    {
      hide Sound, Meaning;
      customerRecord := customerRecord[entry.arg1 := entry.arg2];
      committedIndex := lastIndex;
    }

    /** What a step does first if a connection has closed since the last one. */
    method Recheck(attempts: seq<int>) returns (alive: bool)
      requires Valid() && |attempts| == |sockets|
      modifies `customerRecord, `committedIndex, `sockets, `recheckAllow
      ensures Valid() && |sockets| == |old(sockets)|
      ensures alive <==> (old(recheckAllow) ==> Replica.RecheckCommit(old(View())).Running?)
      ensures alive ==> !recheckAllow
      ensures alive ==> View() == if old(recheckAllow) then Replica.RecheckCommit(old(View())).node else old(View())
      ensures alive ==> forall i :: 0 <= i < |sockets| ==>
                sockets[i] == if old(recheckAllow) then SocketRechecked(old(sockets)[i], attempts[i]) else old(sockets)[i]
    {
      hide Sound, Meaning, SocketRechecked;
      alive := true;
      if recheckAllow {
        alive := RecheckCommit();
        if alive {
          RecheckReplSock(attempts);
          recheckAllow := false;
        }
      }
    }

    /** Log an order to disk, then to memory. */
    method LogOrder(entry: MapOp)
      requires Valid() && 0 <= lastIndex + 1 <= |smrLog|
      modifies this`smrLog, this`lastIndex, clog
      ensures Valid() && View() == PrimaryAppend(old(View()), entry)
    {
      hide Sound, Meaning, Write;
      lastIndex := lastIndex + 1;
      LogToDisk(entry);
      smrLog := Insert(smrLog, lastIndex, entry);
    }

    /** The middle of a step: log an order, send it, commit it; anything else is only sent. */
    method Replicate(robot: RobotInf, exchanges: seq<Exchange>) returns (sent: ReplReq)
      requires Valid() && 0 <= lastIndex + 1 <= |smrLog| && |exchanges| == |sockets|
      modifies this`smrLog, this`customerRecord, this`lastIndex, this`committedIndex, this`sockets, clog
      ensures Valid() && |sockets| == |old(sockets)|
      ensures var n, entry := old(View()), EntryOf(robot);
              View() == if IsOrderRobot(robot) then PrimaryCommit(PrimaryAppend(n, entry), entry) else n
      ensures sent == ReplReq(myFactoryId, old(committedIndex), lastIndex, EntryOf(robot))
      ensures forall i :: 0 <= i < |sockets| ==> sockets[i] == SocketAfter(old(sockets)[i], exchanges[i])
    {
      hide Sound, Meaning, Write, SocketAfter, PrimaryCommit;
      var entry := MapOp(UPDATE, robot.customerId, robot.orderNumber);
      if robot.customerId != COMMIT_ONLY {
        LogOrder(entry);
      }
      sent := ReplReq(myFactoryId, committedIndex, lastIndex, entry);
      SendToBackups(exchanges);
      if robot.customerId != COMMIT_ONLY {
        CommitOrder(entry);
      }
    }

    lemma Ordered(n: Node, entry: MapOp)
      requires 0 <= n.last + 1 <= |n.log|
      ensures PrimaryCommit(PrimaryAppend(n, entry), entry).last == n.last + 1
    {
    }

    lemma RecheckFrame(n: Node)
      ensures Replica.RecheckCommit(n).Running? ==>
                Replica.RecheckCommit(n).node.last == n.last && Replica.RecheckCommit(n).node.log == n.log
    {
    }

    /** One turn of admin_thread. `attempts` and `exchanges` are what the network does in
        it. Returns false if recheckcommit throws; otherwise the request that was sent, and
        the robot as its engineer finds it. */
    method AdminThread(adminId: int, attempts: seq<int>, exchanges: seq<Exchange>)
      returns (alive: bool, sent: ReplReq, shipped: RobotInf)
      requires Valid() && 0 <= lastIndex + 1 <= |smrLog|
      requires adminThreadList != [] && barrierList != []
      requires |attempts| == |exchanges| == |sockets|
      modifies this, clog
      ensures Valid() && |sockets| == |old(sockets)|
      ensures var robot := old(adminThreadList)[0];
              var o := AdminNode(old(View()), old(recheckAllow), robot);
              && (alive <==> o.Running?)
              && (alive ==>
                    && DeskView() == AdminStep(old(DeskView()))
                    && !recheckAllow
                    && shipped == Stamped(robot, adminId)
                    && (robot.customerId != -1 ==> shipped == robot.(adminId := adminId))
                    && sent.factoryId == primaryId == myFactoryId
                    && sent.record == MapOp(1, robot.customerId, robot.orderNumber)
                    && sent.lastIndex == o.node.last
                    && sent.committedIndex == (if old(recheckAllow) then Replica.RecheckCommit(old(View())).node.committed
                                               else old(committedIndex))
                    && forall i :: 0 <= i < |sockets| ==>
                         var socket := if old(recheckAllow) then SocketRechecked(old(sockets)[i], attempts[i])
                                       else old(sockets)[i];
                         sockets[i] == SocketAfter(socket, exchanges[i]))
    {
      hide Sound, Meaning, Write, SocketAfter, SocketRechecked, Replica.RecheckCommit, PrimaryAppend, PrimaryCommit;
      var robot := adminThreadList[0];
      shipped, sent := robot, ReplReq(0, 0, 0, MapOp(0, 0, 0));
      RecheckFrame(View());
      alive := Recheck(attempts);
      if !alive {
        return;
      }
      Ordered(View(), EntryOf(robot));
      var promise := barrierList[0];
      adminThreadList, barrierList := adminThreadList[1..], barrierList[1..];
      primaryId := myFactoryId;
      sent := Replicate(robot, exchanges);
      if robot.customerId != COMMIT_ONLY {
        shipped := robot.(adminId := adminId);
      }
      fulfilled := fulfilled + [promise];
      alive := true;
    }
  }
}
