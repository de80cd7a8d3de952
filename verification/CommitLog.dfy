/** CommitLog.cpp: the batched write-ahead log as an object over bytes, proved against
    the operation-level WalState.
  */
module CommitLogs {
  import opened RobotFactory
  import opened WalCodec
  import opened WalState

  lemma {:induction false} EncodePlainSnoc(ops: seq<MapOp>, op: MapOp)
    ensures EncodePlain(ops + [op]) == EncodePlain(ops) + EncodeOp(op)
  {
    if ops == [] {
      assert [op][1..] == [];
      assert EncodePlain([op]) == EncodeOp(op) + EncodePlain([]);
    } else {
      assert (ops + [op])[1..] == ops[1..] + [op];
      EncodePlainSnoc(ops[1..], op);
    }
  }

  lemma {:induction false} EncodeAllSnoc(entries: seq<WalEntry>, entry: WalEntry)
    ensures EncodeAll(entries + [entry]) == EncodeAll(entries) + EncodeEntry(entry)
  {
    hide EncodeEntry;
    if entries == [] {
      assert [entry][1..] == [];
      assert EncodeAll([entry]) == EncodeEntry(entry) + EncodeAll([]);
    } else {
      assert (entries + [entry])[1..] == entries[1..] + [entry];
      EncodeAllSnoc(entries[1..], entry);
    }
  }

  lemma AddedBytes(file: Bytes, stdio: Bytes, batch: Bytes, entry: Bytes)
    ensures file + stdio + (batch + entry) == file + stdio + batch + entry
    ensures file + (stdio + (batch + entry)) + [] == file + stdio + batch + entry
    ensures file + (stdio + (batch + entry)) + [] + [] == file + stdio + batch + entry
  {
  }

  /** Operations in the file, added by the buffer, added by the batch. */
  ghost function Decode(parse: Parser, file: Bytes, stdio: Bytes, pending: seq<MapOp>): (w: Wal)
    ensures w.durable == ReadAll(parse, 24, file) && w.pending == pending
    ensures w.durable + w.buffered == ReadAll(parse, 24, file + stdio)
  {
    FilePrefix(parse, 24, file, stdio);
    Wal(ReadAll(parse, 24, file), ReadAll(parse, 24, file + stdio)[|ReadAll(parse, 24, file)|..], pending)
  }

  lemma DecodePending(parse: Parser, file: Bytes, stdio: Bytes, pending: seq<MapOp>, pending': seq<MapOp>)
    ensures Decode(parse, file, stdio, pending').(pending := pending) == Decode(parse, file, stdio, pending)
  {
  }

  lemma DecodeFlush(parse: Parser, file: Bytes, stdio: Bytes, pending: seq<MapOp>)
    ensures file + stdio + [] == file + stdio
    ensures Decode(parse, file + stdio, [], pending) == WalState.Sync(Decode(parse, file, stdio, pending))
  {
    assert file + stdio + [] == file + stdio;
  }

  lemma DecodeHandOver(parse: Parser, file: Bytes, stdio: Bytes, bytes: Bytes, pending: seq<MapOp>)
    requires Clean(parse, 24, file + stdio)
    requires Clean(parse, 24, bytes) && ReadAll(parse, 24, bytes) == pending
    ensures Clean(parse, 24, file + (stdio + bytes))
    ensures var w := Decode(parse, file, stdio, pending);
            Decode(parse, file, stdio + bytes, []) == Wal(w.durable, w.buffered + pending, [])
  {
    var w := Decode(parse, file, stdio, pending);
    ReadConcat(parse, 24, file + stdio, bytes);
    assert file + (stdio + bytes) == file + stdio + bytes;
    SuffixAfter(w.durable, Decode(parse, file, stdio + bytes, []).buffered, w.buffered, pending);
  }

  lemma SuffixAfter(front: seq<MapOp>, a: seq<MapOp>, b: seq<MapOp>, c: seq<MapOp>)
    requires front + a == front + b + c
    ensures a == b + c
  {
    assert (front + a)[|front|..] == a;
    assert (front + b + c)[|front|..] == b + c;
  }

  lemma DecodeSpill(parse: Parser, file: Bytes, stdio: Bytes, pending: seq<MapOp>, count: nat)
    requires count <= |stdio|
    ensures file + stdio[..count] + stdio[count..] == file + stdio
    ensures IsSpill(Decode(parse, file, stdio, pending),
                    Decode(parse, file + stdio[..count], stdio[count..], pending))
  {
    assert file + stdio[..count] + stdio[count..] == file + stdio;
    FilePrefix(parse, 24, file, stdio[..count]);
  }

  /** The bytes of an open log: in the file, in the stdio buffer, and the batch. */
  datatype Disk = Disk(file: Bytes, stdio: Bytes, batch: seq<WalEntry>)

  /** The file and the buffer together are whole intact records. A file a crash tore, or
      one with a bad record in it, does not qualify. */
  ghost predicate Sound(crc: Checksum, cfg: WalConfig, d: Disk) {
    && |d.batch| < cfg.batchSize
    && AllIntact(crc, d.batch)
    && Clean(CrcRecord(crc), 24, d.file + d.stdio)
  }

  ghost function Meaning(crc: Checksum, d: Disk): Wal {
    Decode(CrcRecord(crc), d.file, d.stdio, Data(d.batch))
  }

  function Flushed(d: Disk): Disk {
    Disk(d.file + d.stdio, [], d.batch)
  }

  function Added(cfg: WalConfig, d: Disk, entry: WalEntry): Disk {
    var batch := d.batch + [entry];
    if |batch| < cfg.batchSize then d.(batch := batch)
    else
      var handed := Disk(d.file, d.stdio + EncodeAll(batch), []);
      if cfg.fFlush || cfg.batchSize > 1 then Flushed(handed) else handed
  }

  function Spilled(d: Disk, count: nat): Disk
    requires count <= |d.stdio|
  {
    Disk(d.file + d.stdio[..count], d.stdio[count..], d.batch)
  }

  lemma FlushRefines(crc: Checksum, cfg: WalConfig, d: Disk)
    requires Sound(crc, cfg, d)
    ensures Sound(crc, cfg, Flushed(d))
    ensures Meaning(crc, Flushed(d)) == WalState.Sync(Meaning(crc, d))
  {
    DecodeFlush(CrcRecord(crc), d.file, d.stdio, Data(d.batch));
  }

  lemma AddRefines(crc: Checksum, cfg: WalConfig, d: Disk, entry: WalEntry)
    requires Sound(crc, cfg, d) && Intact(crc, entry)
    ensures Sound(crc, cfg, Added(cfg, d, entry))
    ensures Meaning(crc, Added(cfg, d, entry)) == Write(cfg, Meaning(crc, d), entry.data)
  {
    hide ReadAll, Clean, EncodeAll, Decode, CrcRecord;
    var batch := d.batch + [entry];
    assert Data(batch) == Data(d.batch) + [entry.data];
    DecodePending(CrcRecord(crc), d.file, d.stdio, Data(d.batch), Data(batch));
    if |batch| >= cfg.batchSize {
      RecoverEncoded(crc, batch);
      DecodeHandOver(CrcRecord(crc), d.file, d.stdio, EncodeAll(batch), Data(batch));
      FlushRefines(crc, cfg, Disk(d.file, d.stdio + EncodeAll(batch), []));
    }
  }

  lemma SpillRefines(crc: Checksum, cfg: WalConfig, d: Disk, count: nat)
    requires Sound(crc, cfg, d) && count <= |d.stdio|
    ensures Sound(crc, cfg, Spilled(d, count))
    ensures IsSpill(Meaning(crc, d), Meaning(crc, Spilled(d, count)))
  {
    DecodeSpill(CrcRecord(crc), d.file, d.stdio, Data(d.batch), count);
  }

  /** One turn of the recovery loop. */
  lemma NextRecord(crc: Checksum, file: Bytes, position: nat)
    requires position + RECORD_SIZE <= |file|
    ensures var e := DecodeEntry(file[position..position + RECORD_SIZE]);
            RecoveredOps(crc, file[position..])
            == if Intact(crc, e) then [e.data] + RecoveredOps(crc, file[position + RECORD_SIZE..]) else []
  {
    assert file[position..][..RECORD_SIZE] == file[position..position + RECORD_SIZE];
    assert file[position..][RECORD_SIZE..] == file[position + RECORD_SIZE..];
  }

  lemma NoWholeRecord(crc: Checksum, bytes: Bytes)
    ensures |bytes| < RECORD_SIZE ==> RecoveredOps(crc, bytes) == []
    ensures |bytes| < OP_SIZE ==> PlainRecoveredOps(bytes) == []
  {
  }

  lemma NextPlainRecord(file: Bytes, position: nat)
    requires position + OP_SIZE <= |file|
    ensures PlainRecoveredOps(file[position..])
         == [DecodeOp(file[position..position + OP_SIZE])] + PlainRecoveredOps(file[position + OP_SIZE..])
  {
    assert file[position..][..OP_SIZE] == file[position..position + OP_SIZE];
    assert file[position..][OP_SIZE..] == file[position + OP_SIZE..];
  }

  class CommitLog {
    const crc: Checksum           // crc32(0, data, 12)
    var file: Bytes               // bytes that reached the file
    var position: nat             // read position; the file is open for appending
    var stdio: Bytes              // written by fwrite, not flushed yet
    var commitLogWithCrcBatch: seq<WalEntry>
    var commitLogBatch: seq<MapOp>
    var batchSize: nat
    var fFlush: bool

    ghost function Config(): WalConfig
      reads this
    {
      WalConfig(batchSize, fFlush)
    }

    ghost function State(): Disk
      reads this
    {
      Disk(file, stdio, commitLogWithCrcBatch)
    }

    ghost predicate Valid()
      reads this
    {
      Sound(crc, Config(), State())
    }

    /** What a crash right now would recover, what the buffer adds, what the batch adds. */
    ghost function View(): Wal
      reads this
    {
      Meaning(crc, State())
    }

    constructor (contents: Bytes, fFlush: bool, batch: nat, crc: Checksum)
      ensures State() == Disk(contents, [], []) && position == 0 && commitLogBatch == []
      ensures this.crc == crc && this.fFlush == fFlush
      ensures batchSize == if batch > 1 then batch else 1
      ensures Clean(CrcRecord(crc), 24, contents) ==> Valid() && View() == Fresh(RecoveredOps(crc, contents))
    {
      this.crc := crc;
      this.fFlush := fFlush;
      batchSize := if batch > 1 then batch else 1;
      file, position, stdio := contents, 0, [];
      commitLogWithCrcBatch, commitLogBatch := [], [];
      new;
      assert contents + [] == contents;
    }

    method ConstructLog(op: MapOp, index: Word) returns (entry: WalEntry)
      ensures Intact(crc, entry) && entry == Construct(crc, op, index)
    {
      entry := WalEntry(index, OP_SIZE, op, crc(EncodeOp(op)));
    }

    method WriteLogWithCrc(op: MapOp, index: Word)
      modifies `file, `stdio, `commitLogWithCrcBatch
      ensures State() == Added(Config(), old(State()), Construct(crc, op, index))
      ensures file + stdio + EncodeAll(commitLogWithCrcBatch)
           == old(file + stdio + EncodeAll(commitLogWithCrcBatch)) + EncodeEntry(Construct(crc, op, index))
      ensures old(|commitLogWithCrcBatch|) + 1 < batchSize <==> commitLogWithCrcBatch != []
      ensures commitLogWithCrcBatch == [] && (fFlush || batchSize > 1) ==> stdio == []
      ensures commitLogWithCrcBatch != [] ==> unchanged(`file, `stdio)
      ensures !fFlush && batchSize <= 1 ==> unchanged(`file)
      ensures old(Valid()) ==> Valid() && View() == Write(Config(), old(View()), op)
    {
      hide Sound, Meaning;
      var entry := ConstructLog(op, index);
      if Valid() {
        AddRefines(crc, Config(), State(), entry);
      }
      EncodeAllSnoc(commitLogWithCrcBatch, entry);
      AddedBytes(file, stdio, EncodeAll(commitLogWithCrcBatch), EncodeEntry(entry));
      commitLogWithCrcBatch := commitLogWithCrcBatch + [entry];
      if |commitLogWithCrcBatch| >= batchSize {
        stdio := stdio + EncodeAll(commitLogWithCrcBatch);
        if fFlush || batchSize > 1 {
          file, stdio := file + stdio, [];
        }
        commitLogWithCrcBatch := [];
      }
    }

    /** sync flushes stdio; it does not touch the pending batch. */
    method Sync()
      modifies `file, `stdio
      ensures State() == Flushed(old(State()))
      ensures file == old(file + stdio) && stdio == [] && unchanged(`commitLogWithCrcBatch)
      ensures old(Valid()) ==> Valid() && View() == WalState.Sync(old(View()))
    {
      hide Sound, Meaning;
      if Valid() {
        FlushRefines(crc, Config(), State());
      }
      file, stdio := file + stdio, [];
    }

    /** The C library may empty any part of its buffer on its own, mid-record included. */
    method LibrarySpill(count: nat)
      requires count <= |stdio|
      modifies `file, `stdio
      ensures State() == Spilled(old(State()), count)
      ensures file + stdio == old(file + stdio) && old(file) <= file && |file| == old(|file|) + count
      ensures old(Valid()) ==> Valid() && IsSpill(old(View()), View())
    {
      hide Sound, Meaning;
      if Valid() {
        SpillRefines(crc, Config(), State(), count);
      }
      file, stdio := file + stdio[..count], stdio[count..];
    }

    /** Without checksums: bytes in, in order, same batching. */
    method WriteLog(op: MapOp)
      requires batchSize >= 1 && |commitLogBatch| < batchSize
      modifies `file, `stdio, `commitLogBatch
      ensures |commitLogBatch| < batchSize
      ensures file + stdio + EncodePlain(commitLogBatch) == old(file + stdio + EncodePlain(commitLogBatch)) + EncodeOp(op)
      ensures old(|commitLogBatch|) + 1 < batchSize <==> commitLogBatch != []
      ensures commitLogBatch == [] && (fFlush || batchSize > 1) ==> stdio == []
      ensures commitLogBatch != [] ==> unchanged(`file, `stdio)
      ensures !fFlush && batchSize == 1 ==> unchanged(`file)
    {
      EncodePlainSnoc(commitLogBatch, op);
      assert file + stdio + EncodePlain(commitLogBatch) + EncodeOp(op)
          == file + stdio + EncodePlain(commitLogBatch + [op]);
      commitLogBatch := commitLogBatch + [op];
      if |commitLogBatch| >= batchSize {
        ghost var bytes := EncodePlain(commitLogBatch);
        assert file + (stdio + bytes) + [] == file + stdio + bytes;
        assert file + (stdio + bytes) + [] + [] == file + stdio + bytes;
        stdio := stdio + EncodePlain(commitLogBatch);
        if fFlush || batchSize > 1 {
          file, stdio := file + stdio, [];
        }
        commitLogBatch := [];
      }
    }

    /** One fread and the check of its checksum. */
    method ReadRecord() returns (intact: bool, op: MapOp)
      requires position + RECORD_SIZE <= |file|
      modifies `position
      ensures position == old(position) + RECORD_SIZE
      ensures RecoveredOps(crc, file[old(position)..])
           == if intact then [op] + RecoveredOps(crc, file[position..]) else []
    {
      NextRecord(crc, file, position);
      var entry := DecodeEntry(file[position..position + RECORD_SIZE]);
      position := position + RECORD_SIZE;
      op := entry.data;
      intact := entry.cksum == crc(EncodeOp(op));
    }

    /** Recovered entries go in front of whatever the caller's log already held. */
    method RecoverWithCrc(log: seq<MapOp>) returns (recovered: seq<MapOp>)
      requires position <= |file|
      modifies `position
      ensures recovered == RecoveredOps(crc, old(file[position..])) + log
      ensures old(position) <= position <= |file|
    {
      hide RecoveredOps;
      ghost var expected, rest := RecoveredOps(crc, file[position..]), RecoveredOps(crc, file[position..]);
      recovered := log;
      var i := 0;
      while position + RECORD_SIZE <= |file|
        invariant 0 <= i <= |recovered| && old(position) <= position <= |file|
        invariant recovered[i..] == log
        invariant rest == RecoveredOps(crc, file[position..])
        invariant recovered[..i] + rest == expected
        decreases |file| - position
      {
        var intact, op := ReadRecord();
        if !intact {
          assert recovered == recovered[..i] + recovered[i..];
          return;
        }
        rest := rest[1..];
        assert recovered[..i] + ([op] + rest) == recovered[..i] + [op] + rest;
        InsertParts(recovered, i, op);
        recovered := Insert(recovered, i, op);
        i := i + 1;
      }
      NoWholeRecord(crc, file[position..]);
      assert recovered == recovered[..i] + recovered[i..];
      position := |file|;
    }

    method Recover(log: seq<MapOp>) returns (recovered: seq<MapOp>)
      requires position <= |file|
      modifies `position
      ensures recovered == PlainRecoveredOps(old(file[position..])) + log
      ensures position == |file|
    {
      hide PlainRecoveredOps;
      ghost var expected, rest := PlainRecoveredOps(file[position..]), PlainRecoveredOps(file[position..]);
      recovered := log;
      var i := 0;
      while position + OP_SIZE <= |file|
        invariant 0 <= i <= |recovered| && position <= |file|
        invariant recovered[i..] == log
        invariant rest == PlainRecoveredOps(file[position..])
        invariant recovered[..i] + rest == expected
        decreases |file| - position
      {
        NextPlainRecord(file, position);
        var op := DecodeOp(file[position..position + OP_SIZE]);
        position := position + OP_SIZE;
        rest := rest[1..];
        assert recovered[..i] + ([op] + rest) == recovered[..i] + [op] + rest;
        InsertParts(recovered, i, op);
        recovered := Insert(recovered, i, op);
        i := i + 1;
      }
      NoWholeRecord(crc, file[position..]);
      assert recovered == recovered[..i] + recovered[i..];
      position := |file|;
    }
  }
}
