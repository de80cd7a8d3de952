/** The two ends of the catch-up stream in ServerStub.h, over a connection that is a FIFO
    of whole log entries and can break at any point.
  */
module ServerStubs {
  import opened RobotFactory
  import opened Replica

  /** One direction of a socket. A send fails once `sendsLeft` are used up, a receive fails
      when nothing more will arrive. */
  class Connection {
    var inFlight: seq<MapOp>
    var sendsLeft: nat

    constructor (inFlight: seq<MapOp>, sendsLeft: nat)
      ensures this.inFlight == inFlight && this.sendsLeft == sendsLeft
    {
      this.inFlight, this.sendsLeft := inFlight, sendsLeft;
    }

    method Send(op: MapOp) returns (ok: bool)
      modifies this
      ensures ok <==> old(sendsLeft) > 0
      ensures ok ==> inFlight == old(inFlight) + [op] && sendsLeft == old(sendsLeft) - 1
      ensures !ok ==> unchanged(this)
    {
      ok := sendsLeft > 0;
      if ok {
        inFlight, sendsLeft := inFlight + [op], sendsLeft - 1;
      }
    }

    method Receive(default: MapOp) returns (ok: bool, op: MapOp)
      modifies `inFlight
      ensures ok <==> old(inFlight) != []
      ensures ok ==> op == old(inFlight)[0] && inFlight == old(inFlight)[1..]
      ensures !ok ==> inFlight == old(inFlight)
    {
      ok, op := inFlight != [], default;
      if ok {
        op, inFlight := inFlight[0], inFlight[1..];
      }
    }
  }

  /** The primary's end: everything from the backup's committed index on, as far as the
      connection carries it. */
  method SendRecoveryLog(conn: Connection, smrLog: seq<MapOp>, receivedIndex: int) returns (ok: bool)
    modifies conn
    ensures var stream := RecoveryStream(smrLog, receivedIndex);
            var sent := Min(|stream|, old(conn.sendsLeft));
            && conn.inFlight == old(conn.inFlight) + stream[..sent]
            && conn.sendsLeft == old(conn.sendsLeft) - sent
            && (ok <==> sent == |stream|)
    ensures 0 <= receivedIndex + 1 <= |smrLog| ==>
              var left := |smrLog| - (receivedIndex + 1);
              var sent := if left <= old(conn.sendsLeft) then left else old(conn.sendsLeft);
              && conn.inFlight == old(conn.inFlight) + smrLog[receivedIndex + 1..receivedIndex + 1 + sent]
              && (ok <==> left <= old(conn.sendsLeft))
    ensures !(0 <= receivedIndex + 1 <= |smrLog|) ==> ok && conn.inFlight == old(conn.inFlight)
  {
    ghost var stream := RecoveryStream(smrLog, receivedIndex);
    var from := receivedIndex + 1;
    if from < 0 || from > |smrLog| {
      return true; // the index is compared as an unsigned number
    }
    var i := from;
    while i < |smrLog|
      invariant from <= i <= |smrLog|
      invariant i - from <= old(conn.sendsLeft)
      invariant conn.sendsLeft == old(conn.sendsLeft) - (i - from)
      invariant conn.inFlight == old(conn.inFlight) + stream[..i - from]
    {
      var sent := conn.Send(smrLog[i]);
      if !sent {
        return false;
      }
      assert stream[..i + 1 - from] == stream[..i - from] + [smrLog[i]];
      i := i + 1;
    }
    ok := true;
  }

  /** The backup's end: read one entry per missing index and insert it at that index. */
  method GetRecoveryLog(conn: Connection, smrLog: seq<MapOp>, myLast: int, remoteLast: int)
    returns (ok: bool, log: seq<MapOp>)
    requires 0 <= myLast + 1 <= |smrLog| && myLast <= remoteLast
    modifies conn`inFlight
    ensures var need := remoteLast - myLast;
            var got := Min(need, |old(conn.inFlight)|);
            && log == Received(smrLog, myLast, need, old(conn.inFlight))
            && conn.inFlight == old(conn.inFlight)[got..]
            && (ok <==> got == need)
    ensures var need := remoteLast - myLast;
            var read := if need <= |old(conn.inFlight)| then old(conn.inFlight)[..need] else old(conn.inFlight);
            && log == smrLog[..myLast + 1] + read + smrLog[myLast + 1..]
            && old(conn.inFlight) == read + conn.inFlight
            && (ok <==> need <= |old(conn.inFlight)|)
  {
    ghost var stream := conn.inFlight;
    log := smrLog;
    var i := myLast + 1;
    while i <= remoteLast
      invariant myLast + 1 <= i <= remoteLast + 1
      invariant i - (myLast + 1) <= |stream| && conn.inFlight == stream[i - (myLast + 1)..]
      invariant log == smrLog[..myLast + 1] + stream[..i - (myLast + 1)] + smrLog[myLast + 1..]
    {
      var got, op := conn.Receive(MapOp(0, 0, 0));
      if !got {
        return false, log;
      }
      ghost var done := i - (myLast + 1);
      assert stream[..done + 1] == stream[..done] + [op];
      log := Insert(log, i, op);
      i := i + 1;
    }
    ok := true;
  }
}
