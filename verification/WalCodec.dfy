/** Bytes of the write-ahead log: the 24-byte checksummed record (RobotFactory.h:100-105),
    the 12-byte plain record, and what the two recovery loops of CommitLog.cpp make of
    an arbitrary file. The checksum is any total function of the data bytes.
  */
module WalCodec {
  import opened RobotFactory

  type Byte = x: int | 0 <= x < 256
  type Bytes = seq<Byte>
  type Checksum = Bytes -> UWord

  datatype WalEntry = WalEntry(index: Word, length: UWord, data: MapOp, cksum: UWord)

  const RECORD_SIZE := 24
  const OP_SIZE := 12

  // ---- fields, in the machine's (little-endian, two's complement) layout ----

  function EncodeUnsigned(u: UWord): (b: Bytes)
    ensures |b| == 4
  {
    [u % 256, u / 256 % 256, u / 65536 % 256, u / 16777216]
  }

  function DecodeUnsigned(b: Bytes): UWord
    requires |b| == 4
  {
    (b[0] as int) + 256 * (b[1] as int) + 65536 * (b[2] as int) + 16777216 * (b[3] as int)
  }

  function EncodeSigned(w: Word): (b: Bytes)
    ensures |b| == 4
  {
    EncodeUnsigned(if w < 0 then w + 0x1_0000_0000 else w)
  }

  function DecodeSigned(b: Bytes): Word
    requires |b| == 4
  {
    var u := DecodeUnsigned(b);
    if u < 0x8000_0000 then u else u - 0x1_0000_0000
  }

  lemma UnsignedRoundTrip(u: UWord)
    ensures DecodeUnsigned(EncodeUnsigned(u)) == u
  {
    assert u / 256 / 256 == u / 65536 && u / 65536 / 256 == u / 16777216;
  }

  lemma SignedRoundTrip(w: Word)
    ensures DecodeSigned(EncodeSigned(w)) == w
  {
    UnsignedRoundTrip(if w < 0 then w + 0x1_0000_0000 else w);
  }

  // ---- records ----

  function EncodeOp(op: MapOp): (b: Bytes)
    ensures |b| == OP_SIZE
  {
    EncodeSigned(op.opcode) + EncodeSigned(op.arg1) + EncodeSigned(op.arg2)
  }

  function DecodeOp(b: Bytes): MapOp
    requires |b| == OP_SIZE
  {
    MapOp(DecodeSigned(b[..4]), DecodeSigned(b[4..8]), DecodeSigned(b[8..]))
  }

  function EncodeEntry(e: WalEntry): (b: Bytes)
    ensures |b| == RECORD_SIZE
  {
    EncodeSigned(e.index) + EncodeUnsigned(e.length) + EncodeOp(e.data) + EncodeUnsigned(e.cksum)
  }

  function DecodeEntry(b: Bytes): WalEntry
    requires |b| == RECORD_SIZE
  {
    WalEntry(DecodeSigned(b[..4]), DecodeUnsigned(b[4..8]), DecodeOp(b[8..20]), DecodeUnsigned(b[20..]))
  }

  lemma OpRoundTrip(op: MapOp)
    ensures DecodeOp(EncodeOp(op)) == op
  {
    var b := EncodeOp(op);
    assert b[..4] == EncodeSigned(op.opcode);
    assert b[4..8] == EncodeSigned(op.arg1);
    assert b[8..] == EncodeSigned(op.arg2);
    SignedRoundTrip(op.opcode);
    SignedRoundTrip(op.arg1);
    SignedRoundTrip(op.arg2);
  }

  lemma EntryRoundTrip(e: WalEntry)
    ensures DecodeEntry(EncodeEntry(e)) == e
  {
    var b := EncodeEntry(e);
    assert b[..4] == EncodeSigned(e.index);
    assert b[4..8] == EncodeUnsigned(e.length);
    assert b[8..20] == EncodeOp(e.data);
    assert b[20..] == EncodeUnsigned(e.cksum);
    SignedRoundTrip(e.index);
    UnsignedRoundTrip(e.length);
    OpRoundTrip(e.data);
    UnsignedRoundTrip(e.cksum);
  }

  /** The test of CommitLog.cpp:122. */
  predicate Intact(crc: Checksum, e: WalEntry) {
    e.cksum == crc(EncodeOp(e.data))
  }

  ghost predicate AllIntact(crc: Checksum, entries: seq<WalEntry>) {
    forall i :: 0 <= i < |entries| ==> Intact(crc, entries[i])
  }

  function Data(entries: seq<WalEntry>): (ops: seq<MapOp>)
    ensures |ops| == |entries|
    ensures forall i :: 0 <= i < |ops| ==> ops[i] == entries[i].data
  {
    seq(|entries|, i requires 0 <= i < |entries| => entries[i].data)
  }

  // ---- whole files, in either format ----

  datatype Parsed = Bad | Good(op: MapOp)

  type Parser = Bytes -> Parsed

  /** What one fread and the check after it make of the bytes of a record. */
  function CrcRecord(crc: Checksum): Parser {
    (b: Bytes) =>
      if |b| != RECORD_SIZE then Bad
      else
        var e := DecodeEntry(b);
        if Intact(crc, e) then Good(e.data) else Bad
  }

  function PlainRecord(): Parser {
    (b: Bytes) => if |b| != OP_SIZE then Bad else Good(DecodeOp(b))
  }

  /** The recovery loop: whole records from the front, up to the first bad one. */
  function ReadAll(parse: Parser, size: nat, file: Bytes): seq<MapOp>
    requires size > 0
  {
    if |file| < size then []
    else
      match parse(file[..size])
      case Bad => []
      case Good(op) => [op] + ReadAll(parse, size, file[size..])
  }

  /** What Recoverwithcrc reads from a file into an empty log. */
  function RecoveredOps(crc: Checksum, file: Bytes): seq<MapOp> {
    ReadAll(CrcRecord(crc), RECORD_SIZE, file)
  }

  /** What Recover reads from a file into an empty log. */
  function PlainRecoveredOps(file: Bytes): seq<MapOp> {
    ReadAll(PlainRecord(), OP_SIZE, file)
  }

  /** A file of whole records, every one of them good. */
  predicate Clean(parse: Parser, size: nat, file: Bytes)
    requires size > 0
  {
    file == [] || (|file| >= size && parse(file[..size]).Good? && Clean(parse, size, file[size..]))
  }

  /** Recovery reads a clean file to its end and goes on into whatever follows. */
  lemma {:induction false} ReadConcat(parse: Parser, size: nat, f: Bytes, g: Bytes)
    requires size > 0 && Clean(parse, size, f)
    ensures ReadAll(parse, size, f + g) == ReadAll(parse, size, f) + ReadAll(parse, size, g)
    ensures Clean(parse, size, g) ==> Clean(parse, size, f + g)
    decreases |f|
  {
    if f == [] {
      assert f + g == g;
    } else {
      assert (f + g)[..size] == f[..size];
      assert (f + g)[size..] == f[size..] + g;
      ReadConcat(parse, size, f[size..], g);
    }
  }

  /** Cutting a clean file to k bytes loses exactly the records that are not whole. */
  lemma {:induction false} TornTail(parse: Parser, size: nat, file: Bytes, k: nat)
    requires size > 0 && Clean(parse, size, file) && k <= |file|
    ensures k / size <= |ReadAll(parse, size, file)|
    ensures ReadAll(parse, size, file[..k]) == ReadAll(parse, size, file)[..k / size]
    decreases |file|
  {
    if k < size {
      QuotientBase(k, size);
    } else {
      QuotientStep(k, size);
      assert file[..k][..size] == file[..size];
      assert file[..k][size..] == file[size..][..k - size];
      TornTail(parse, size, file[size..], k - size);
    }
  }

  lemma QuotientBase(k: nat, size: nat)
    requires k < size
    ensures k / size == 0
  {
  }

  lemma QuotientStep(k: nat, size: nat)
    requires 0 < size <= k
    ensures k / size == (k - size) / size + 1
  {
    var q := (k - size) / size;
    assert k == (q + 1) * size + (k - size) % size;
    var d := k / size - (q + 1);
    assert d * size == (k - size) % size - k % size;
  }

  /** Whatever a file gives, more bytes after it only add to that. */
  lemma {:induction false} FilePrefix(parse: Parser, size: nat, file: Bytes, more: Bytes)
    requires size > 0
    ensures ReadAll(parse, size, file) <= ReadAll(parse, size, file + more)
    decreases |file|
  {
    if |file| >= size {
      assert (file + more)[..size] == file[..size];
      assert (file + more)[size..] == file[size..] + more;
      FilePrefix(parse, size, file[size..], more);
    }
  }

  // ---- what the program writes ----

  function EncodeAll(entries: seq<WalEntry>): Bytes {
    if entries == [] then [] else EncodeEntry(entries[0]) + EncodeAll(entries[1..])
  }

  function EncodePlain(ops: seq<MapOp>): Bytes {
    if ops == [] then [] else EncodeOp(ops[0]) + EncodePlain(ops[1..])
  }

  lemma EntryReadsBack(crc: Checksum, e: WalEntry)
    ensures CrcRecord(crc)(EncodeEntry(e)) == if Intact(crc, e) then Good(e.data) else Bad
  {
    EntryRoundTrip(e);
  }

  /** Encoded intact records come back, whatever their index and length fields hold. */
  lemma {:induction false} RecoverEncoded(crc: Checksum, entries: seq<WalEntry>)
    requires AllIntact(crc, entries)
    ensures RecoveredOps(crc, EncodeAll(entries)) == Data(entries)
    ensures Clean(CrcRecord(crc), RECORD_SIZE, EncodeAll(entries))
    ensures |EncodeAll(entries)| == 24 * |entries|
  {
    hide EncodeEntry, EncodeOp, DecodeEntry;
    if entries != [] {
      var b := EncodeAll(entries);
      assert b[..RECORD_SIZE] == EncodeEntry(entries[0]);
      assert b[RECORD_SIZE..] == EncodeAll(entries[1..]);
      EntryReadsBack(crc, entries[0]);
      RecoverEncoded(crc, entries[1..]);
      assert Data(entries) == [entries[0].data] + Data(entries[1..]);
    }
  }

  lemma {:induction false} RecoverPlain(ops: seq<MapOp>)
    ensures PlainRecoveredOps(EncodePlain(ops)) == ops
    ensures Clean(PlainRecord(), OP_SIZE, EncodePlain(ops))
    ensures |EncodePlain(ops)| == 12 * |ops|
  {
    if ops != [] {
      var b := EncodePlain(ops);
      assert b[..OP_SIZE] == EncodeOp(ops[0]);
      assert b[OP_SIZE..] == EncodePlain(ops[1..]);
      OpRoundTrip(ops[0]);
      assert PlainRecord()(b[..OP_SIZE]) == Good(ops[0]);
      RecoverPlain(ops[1..]);
    }
  }

  /** `index` is never assigned by the program: it is whatever the stack held. */
  function Construct(crc: Checksum, op: MapOp, index: Word): (e: WalEntry)
    ensures Intact(crc, e) && e.data == op && e.length == OP_SIZE
  {
    WalEntry(index, OP_SIZE, op, crc(EncodeOp(op)))
  }

  function ConstructAll(crc: Checksum, ops: seq<MapOp>, indices: seq<Word>): (es: seq<WalEntry>)
    requires |indices| == |ops|
    ensures AllIntact(crc, es) && Data(es) == ops
  {
    seq(|ops|, i requires 0 <= i < |ops| => Construct(crc, ops[i], indices[i]))
  }

  /** Torn-tail recovery, from the appended operations to the recovered ones. */
  lemma TornAppends(crc: Checksum, ops: seq<MapOp>, indices: seq<Word>, k: nat)
    requires |indices| == |ops|
    requires k <= |EncodeAll(ConstructAll(crc, ops, indices))|
    ensures |EncodeAll(ConstructAll(crc, ops, indices))| == 24 * |ops|
    ensures RecoveredOps(crc, EncodeAll(ConstructAll(crc, ops, indices))[..k]) == ops[..k / RECORD_SIZE]
  {
    var entries := ConstructAll(crc, ops, indices);
    RecoverEncoded(crc, entries);
    TornTail(CrcRecord(crc), RECORD_SIZE, EncodeAll(entries), k);
  }

  lemma PlainTornAppends(ops: seq<MapOp>, k: nat)
    requires k <= |EncodePlain(ops)|
    ensures k / OP_SIZE <= |ops|
    ensures PlainRecoveredOps(EncodePlain(ops)[..k]) == ops[..k / OP_SIZE]
  {
    RecoverPlain(ops);
    TornTail(PlainRecord(), OP_SIZE, EncodePlain(ops), k);
  }

  /** With or without checksums an undamaged history recovers to the same log. */
  lemma BothFormatsAgree(crc: Checksum, ops: seq<MapOp>, indices: seq<Word>)
    requires |indices| == |ops|
    ensures RecoveredOps(crc, EncodeAll(ConstructAll(crc, ops, indices))) == PlainRecoveredOps(EncodePlain(ops)) == ops
  {
    RecoverEncoded(crc, ConstructAll(crc, ops, indices));
    RecoverPlain(ops);
  }

  // ---- bytes ----

  function LittleEndian(b0: int, b1: int, b2: int, b3: int): int {
    b0 + 256 * b1 + 65536 * b2 + 16777216 * b3
  }

  /** The four bytes at `at` as an unsigned number, least significant byte first. */
  function NumberAt(b: Bytes, at: nat): int
    requires at + 4 <= |b|
  {
    LittleEndian(b[at], b[at + 1], b[at + 2], b[at + 3])
  }

  /** A C `int` as the unsigned number with the same bytes. */
  function TwosComplement(w: Word): int {
    if w < 0 then w + 0x1_0000_0000 else w
  }

  lemma DecodedNumber(b: Bytes, at: nat, part: Bytes)
    requires at + 4 <= |b| && part == b[at..at + 4]
    ensures DecodeUnsigned(part) == NumberAt(b, at)
    ensures TwosComplement(DecodeSigned(part)) == NumberAt(b, at)
  {
    assert part[0] == b[at] && part[1] == b[at + 1] && part[2] == b[at + 2] && part[3] == b[at + 3];
  }

  /** Every byte of a record the program writes: index, length 12, opcode, customer, order
      number, and the checksum of its own bytes 8 to 19, each least significant byte first. */
  lemma RecordLayout(crc: Checksum, op: MapOp, index: Word)
    ensures var b := EncodeEntry(Construct(crc, op, index));
            && |b| == 24
            && LittleEndian(b[0], b[1], b[2], b[3]) == TwosComplement(index)
            && b[4..8] == [12, 0, 0, 0]
            && LittleEndian(b[8], b[9], b[10], b[11]) == TwosComplement(op.opcode)
            && LittleEndian(b[12], b[13], b[14], b[15]) == TwosComplement(op.arg1)
            && LittleEndian(b[16], b[17], b[18], b[19]) == TwosComplement(op.arg2)
            && LittleEndian(b[20], b[21], b[22], b[23]) == crc(b[8..20])
  {
    hide DecodeEntry, EncodeOp, TwosComplement;
    var e := Construct(crc, op, index);
    var b := EncodeEntry(e);
    EntryParts(e);
    assert [12 as Byte, 0, 0, 0] == EncodeUnsigned(OP_SIZE);
    assert b[0..24] == b;
    DecodedEntry(b, 0);
    EntryRoundTrip(e);
  }

  lemma EntryParts(e: WalEntry)
    ensures EncodeEntry(e)[4..8] == EncodeUnsigned(e.length) && EncodeEntry(e)[8..20] == EncodeOp(e.data)
  {
    hide EncodeUnsigned, EncodeSigned, EncodeOp;
  }

  lemma SliceOfSlice(b: Bytes, from: nat, to: nat, i: nat, j: nat)
    requires from <= to <= |b| && i <= j <= to - from
    ensures b[from..to][i..j] == b[from + i..from + j]
  {
    var whole := b[from..to];
    assert |whole[i..j]| == |b[from + i..from + j]|;
    forall k | 0 <= k < j - i ensures whole[i..j][k] == b[from + i..from + j][k] {
      assert whole[i..j][k] == whole[i + k] == b[from + (i + k)];
    }
  }

  /** What the bytes of a record at `at` decode to. */
  lemma DecodedEntry(file: Bytes, at: nat)
    requires at + 24 <= |file|
    ensures var e := DecodeEntry(file[at..at + 24]);
            && TwosComplement(e.index) == NumberAt(file, at)
            && TwosComplement(e.data.opcode) == NumberAt(file, at + 8)
            && TwosComplement(e.data.arg1) == NumberAt(file, at + 12)
            && TwosComplement(e.data.arg2) == NumberAt(file, at + 16)
            && e.cksum == NumberAt(file, at + 20)
  {
    hide DecodeSigned, DecodeUnsigned, NumberAt, TwosComplement;
    var b := file[at..at + 24];
    SliceOfSlice(file, at, at + 24, 8, 20);
    SliceOfSlice(file, at, at + 24, 0, 4);
    SliceOfSlice(file, at, at + 24, 20, 24);
    SliceOfSlice(file, at + 8, at + 20, 0, 4);
    SliceOfSlice(file, at + 8, at + 20, 4, 8);
    SliceOfSlice(file, at + 8, at + 20, 8, 12);
    DecodedNumber(file, at, b[..4]);
    DecodedNumber(file, at + 8, b[8..20][..4]);
    DecodedNumber(file, at + 12, b[8..20][4..8]);
    DecodedNumber(file, at + 16, b[8..20][8..]);
    DecodedNumber(file, at + 20, b[20..]);
  }

  lemma NumberOfBytes(b: Bytes)
    requires |b| == 4
    ensures EncodeUnsigned(DecodeUnsigned(b)) == b
  {
    var u := DecodeUnsigned(b);
    var high: nat := (b[1] as int) + 256 * (b[2] as int) + 65536 * (b[3] as int);
    var top: nat := (b[2] as int) + 256 * (b[3] as int);
    LowByte(u, b[0], high);
    LowByte(high, b[1], top);
    LowByte(top, b[2], b[3]);
    assert u / 65536 == u / 256 / 256 && u / 16777216 == u / 256 / 256 / 256;
  }

  lemma LowByte(u: nat, low: Byte, high: nat)
    requires u == low + 256 * high
    ensures u % 256 == low && u / 256 == high
  {
  }

  /** Decoding loses nothing either: the checksum is taken of the bytes that were read. */
  lemma OpOfBytes(b: Bytes)
    requires |b| == 12
    ensures EncodeOp(DecodeOp(b)) == b
  {
    NumberOfBytes(b[..4]);
    NumberOfBytes(b[4..8]);
    NumberOfBytes(b[8..]);
    assert b == b[..4] + b[4..8] + b[8..];
  }

  /** A record is good exactly if its last four bytes are the checksum of its data bytes. */
  lemma GoodRecord(crc: Checksum, file: Bytes, at: nat)
    requires at + 24 <= |file|
    ensures var p := CrcRecord(crc)(file[at..at + 24]);
            && (p.Good? <==>
                  NumberAt(file, at + 20) == crc(file[at + 8..at + 20]))
            && (p.Good? ==>
                  && NumberAt(file, at + 8) == TwosComplement(p.op.opcode)
                  && NumberAt(file, at + 12) == TwosComplement(p.op.arg1)
                  && NumberAt(file, at + 16) == TwosComplement(p.op.arg2))
  {
    hide DecodeEntry, EncodeOp, DecodeOp;
    var b := file[at..at + 24];
    DecodedEntry(file, at);
    EntryData(b);
    OpOfBytes(b[8..20]);
    SliceOfSlice(file, at, at + 24, 8, 20);
  }

  lemma EntryData(b: Bytes)
    requires |b| == 24
    ensures DecodeEntry(b).data == DecodeOp(b[8..20])
  {
  }

  /** Something is recovered from a file exactly if its first record is good, in bytes. */
  lemma FirstRecord(crc: Checksum, file: Bytes)
    requires |file| >= 24
    ensures RecoveredOps(crc, file) != []
            <==> file[20] + 256 * (file[21] as int) + 65536 * (file[22] as int) + 16777216 * (file[23] as int)
                 == crc(file[8..20])
  {
    hide CrcRecord;
    GoodRecord(crc, file, 0);
    assert file[0..24] == file[..24];
    assert file[0 + 8..0 + 20] == file[8..20];
  }

  /** The longest valid prefix, in bytes: the operations recovered are the data of the records
      in front of the first one whose last four bytes are not the checksum of its data. */
  lemma RecoveredBytes(crc: Checksum, file: Bytes)
    ensures var ops := RecoveredOps(crc, file);
            && 24 * |ops| <= |file|
            && (forall i: nat :: i < |ops| ==> StoredChecksum(crc, file, i) && StoredOp(file, i, ops[i]))
            && (24 * |ops| + 24 <= |file| ==> !StoredChecksum(crc, file, |ops|))
  {
    hide CrcRecord, ReadAll;
    var ops := RecoveredOps(crc, file);
    LongestValidPrefix(CrcRecord(crc), file);
    forall i: nat | i < |ops| ensures StoredChecksum(crc, file, i) && StoredOp(file, i, ops[i]) {
      assert CrcRecord(crc)(RecordAt(file, i)) == Good(ops[i]);
      GoodRecord(crc, file, 24 * i);
    }
    if 24 * |ops| + 24 <= |file| {
      GoodRecord(crc, file, 24 * |ops|);
    }
  }

  /** The last four bytes of record i are the checksum of its twelve data bytes. */
  predicate StoredChecksum(crc: Checksum, file: Bytes, i: nat) {
    24 * i + 24 <= |file| && NumberAt(file, 24 * i + 20) == crc(file[24 * i + 8..24 * i + 20])
  }

  predicate StoredOp(file: Bytes, i: nat, op: MapOp) {
    && 24 * i + 24 <= |file|
    && NumberAt(file, 24 * i + 8) == TwosComplement(op.opcode)
    && NumberAt(file, 24 * i + 12) == TwosComplement(op.arg1)
    && NumberAt(file, 24 * i + 16) == TwosComplement(op.arg2)
  }

  /** The plain format: every twelve bytes are an operation, and a rest is ignored. */
  lemma {:induction false} PlainRecoveredBytes(file: Bytes)
    ensures var ops := PlainRecoveredOps(file);
            && |ops| == |file| / 12
            && forall i: nat :: i < |ops| ==> PlainStored(file, i, ops[i])
    decreases |file|
  {
    hide NumberAt, TwosComplement;
    if |file| >= 12 {
      var rest := file[12..];
      PlainRecoveredBytes(rest);
      var ops, more := PlainRecoveredOps(file), PlainRecoveredOps(rest);
      PlainFirst(file);
      assert ops == [ops[0]] + more;
      forall i: nat | i < |ops| ensures PlainStored(file, i, ops[i]) {
        if i > 0 {
          assert PlainStored(rest, i - 1, more[i - 1]);
          PlainShifted(file, i, ops[i]);
        }
      }
    }
  }

  predicate PlainStored(file: Bytes, i: nat, op: MapOp) {
    && 12 * i + 12 <= |file|
    && NumberAt(file, 12 * i) == TwosComplement(op.opcode)
    && NumberAt(file, 12 * i + 4) == TwosComplement(op.arg1)
    && NumberAt(file, 12 * i + 8) == TwosComplement(op.arg2)
  }

  lemma PlainFirst(file: Bytes)
    requires |file| >= 12
    ensures PlainRecoveredOps(file) != [] && PlainRecoveredOps(file)[1..] == PlainRecoveredOps(file[12..])
    ensures PlainStored(file, 0, PlainRecoveredOps(file)[0])
  {
    hide NumberAt, TwosComplement, DecodeSigned;
    var b := file[..12];
    DecodedNumber(file, 0, b[..4]);
    DecodedNumber(file, 4, b[4..8]);
    DecodedNumber(file, 8, b[8..]);
  }

  lemma PlainShifted(file: Bytes, i: nat, op: MapOp)
    requires i > 0 && |file| >= 12 && PlainStored(file[12..], i - 1, op)
    ensures PlainStored(file, i, op)
  {
    hide TwosComplement;
  }

  // ---- damaged files ----

  /** Record i of a file, for whole records only. */
  function RecordAt(file: Bytes, i: nat): Bytes
    requires 24 * i + 24 <= |file|
  {
    file[24 * i..24 * i + 24]
  }

  lemma RecordAfterFirst(file: Bytes, i: nat)
    requires 24 * i + 48 <= |file|
    ensures RecordAt(file, i + 1) == RecordAt(file[24..], i)
  {
    var a := 24 * i;
    assert file[a + 24..a + 48] == file[24..][a..a + 24];
  }

  /** On any file at all, recovery yields the data of the longest prefix of whole good
      records: every record it returns is good, and it stopped at the end of the whole
      records or at one that is bad. */
  lemma {:induction false} LongestValidPrefix(parse: Parser, file: Bytes)
    ensures var n := |ReadAll(parse, 24, file)|;
            && 24 * n <= |file|
            && (forall i :: 0 <= i < n ==> parse(RecordAt(file, i)) == Good(ReadAll(parse, 24, file)[i]))
            && (24 * n + 24 <= |file| ==> parse(RecordAt(file, n)) == Bad)
    decreases |file|
  {
    if |file| >= 24 {
      assert RecordAt(file, 0) == file[..24];
      if parse(file[..24]).Good? {
        var rest := file[24..];
        var n := |ReadAll(parse, 24, rest)|;
        LongestValidPrefix(parse, rest);
        if 24 * n + 24 <= |rest| {
          RecordAfterFirst(file, n);
        }
        forall i | 0 < i < n + 1
          ensures parse(RecordAt(file, i)) == Good(ReadAll(parse, 24, file)[i])
        {
          RecordAfterFirst(file, i - 1);
        }
      }
    }
  }

  /** A bad record hides everything written after it: the file is opened for appending,
      so later records land behind it. */
  lemma BadRecordHidesTheRest(crc: Checksum, file: Bytes, bad: WalEntry, later: Bytes)
    requires Clean(CrcRecord(crc), RECORD_SIZE, file) && !Intact(crc, bad)
    ensures RecoveredOps(crc, file + EncodeEntry(bad) + later) == RecoveredOps(crc, file)
  {
    var tail := EncodeEntry(bad) + later;
    assert file + EncodeEntry(bad) + later == file + tail;
    assert tail[..RECORD_SIZE] == EncodeEntry(bad);
    EntryReadsBack(crc, bad);
    ReadConcat(CrcRecord(crc), RECORD_SIZE, file, tail);
  }
}
