/**
  The single-file database as bytes: framed records, the checkpoint and WAL regions, and what append,
  checkpoint and truncation do to them.  The payload codecs and the checksum are parameters.
 */
module WalFile {
  import opened Wrap
  import opened Bytes
  import opened DbHeader

  datatype Redo = Redo(lsn: nat, txn: nat, op: int)

  datatype Ckpt = Ckpt(lsn: nat, commitTs: nat, graph: int)

  datatype Codec = Codec(
    encode: Redo -> seq<Byte>,
    decode: seq<Byte> -> Option<Redo>,
    encodeCk: Ckpt -> seq<Byte>,
    decodeCk: seq<Byte> -> Option<Ckpt>,
    crc: Crc)

  ghost predicate Faithful(c: Codec) {
    && (forall e: Redo :: c.decode(c.encode(e)) == Some(e))
    && (forall k: Ckpt :: c.decodeCk(c.encodeCk(k)) == Some(k))
    && (forall b: seq<Byte> :: c.crc(b) < U32)
  }

  lemma Coded(c: Codec, e: Redo)
    requires Faithful(c)
    ensures c.decode(c.encode(e)) == Some(e) && c.crc(c.encode(e)) < U32
  {
  }

  lemma CodedCk(c: Codec, k: Ckpt)
    requires Faithful(c)
    ensures c.decodeCk(c.encodeCk(k)) == Some(k) && c.crc(c.encodeCk(k)) < U32
  {
  }

  lemma Summed(c: Codec, b: seq<Byte>)
    requires Faithful(c)
    ensures c.crc(b) < U32
  {
  }

  datatype File = File(bytes: seq<Byte>, header: Header)

  datatype DbError = Io | WalChecksum(offset: nat) | CheckpointChecksum | Deserialization

  datatype Result<+T> = Ok(value: T) | Err(error: DbError)

  const RECORD_HEADER: nat := 8

  // ----- frames -----

  /** Length, checksum, payload; a length of 2^32 or more is cut to its low four bytes. */
  function Frame(payload: seq<Byte>, crc: Crc): (b: seq<Byte>)
    ensures |b| == RECORD_HEADER + |payload|
  {
    Le(|payload|, 4) + Le(crc(payload), 4) + payload
  }

  function Frames(es: seq<Redo>, c: Codec): seq<Byte> {
    if es == [] then [] else Frame(c.encode(es[0]), c.crc) + Frames(es[1..], c)
  }

  datatype FrameResult = Payload(bytes: seq<Byte>) | NoLength | Cut | Corrupt

  function ReadFrame(b: seq<Byte>, off: nat, crc: Crc): (r: FrameResult)
    ensures r.Payload? ==> off + RECORD_HEADER + |r.bytes| <= |b|
  {
    var len := ReadAt(b, off, 4);
    if len.None? then NoLength
    else
      var n := FromLe(len.value);
      var sum := ReadAt(b, off + 4, 4);
      var payload := ReadAt(b, off + 8, n);
      if sum.None? || payload.None? then Cut
      else if crc(payload.value) != FromLe(sum.value) then Corrupt
      else Payload(payload.value)
  }

  /** Reading frames from `off` until `end`: a missing length field ends the scan quietly. */
  function Scan(b: seq<Byte>, off: nat, end: nat, c: Codec): Result<seq<Redo>>
    decreases end - off
  {
    if off >= end then Ok([])
    else match ReadFrame(b, off, c.crc)
      case NoLength => Ok([])
      case Cut => Err(Io)
      case Corrupt => Err(WalChecksum(off))
      case Payload(p) =>
        var e := c.decode(p);
        if e.None? then Err(Deserialization)
        else
          var rest := Scan(b, off + RECORD_HEADER + |p|, end, c);
          if rest.Err? then rest else Ok([e.value] + rest.value)
  }

  // ----- sorting by LSN (stable) -----

  function Insert(e: Redo, es: seq<Redo>): seq<Redo> {
    if es == [] || e.lsn <= es[0].lsn then [e] + es else [es[0]] + Insert(e, es[1..])
  }

  function SortByLsn(es: seq<Redo>): seq<Redo> {
    if es == [] then [] else Insert(es[0], SortByLsn(es[1..]))
  }

  ghost predicate Sorted(es: seq<Redo>) { forall i, j | 0 <= i < j < |es| :: es[i].lsn <= es[j].lsn }

  lemma {:induction false} InsertKeeps(e: Redo, es: seq<Redo>)
    ensures multiset(Insert(e, es)) == multiset{e} + multiset(es)
  {
    if !(es == [] || e.lsn <= es[0].lsn) {
      InsertKeeps(e, es[1..]);
      assert es == [es[0]] + es[1..];
    }
  }

  lemma {:induction false} InsertSorts(e: Redo, es: seq<Redo>)
    requires Sorted(es)
    ensures Sorted(Insert(e, es))
  {
    if !(es == [] || e.lsn <= es[0].lsn) {
      InsertSorts(e, es[1..]);
      InsertKeeps(e, es[1..]);
      var r := Insert(e, es[1..]);
      forall i | 0 <= i < |r| ensures es[0].lsn <= r[i].lsn {
        assert r[i] in multiset(r);
        assert r[i] == e || r[i] in es[1..];
      }
    }
  }

  /** The reader's result is an LSN-sorted permutation of what was appended. */
  lemma {:induction false} SortSorts(es: seq<Redo>)
    ensures Sorted(SortByLsn(es)) && multiset(SortByLsn(es)) == multiset(es)
  {
    if es != [] {
      SortSorts(es[1..]);
      InsertSorts(es[0], SortByLsn(es[1..]));
      InsertKeeps(es[0], SortByLsn(es[1..]));
      assert es == [es[0]] + es[1..];
    }
  }

  lemma {:induction false} SortedStays(es: seq<Redo>)
    requires Sorted(es)
    ensures SortByLsn(es) == es
  {
    if es != [] {
      SortedStays(es[1..]);
      assert es == [es[0]] + es[1..];
    }
  }

  /** The entries with one number. */
  function Numbered(es: seq<Redo>, lsn: nat): seq<Redo> {
    if es == [] then [] else (if es[0].lsn == lsn then [es[0]] else []) + Numbered(es[1..], lsn)
  }

  lemma {:induction false} InsertStable(e: Redo, es: seq<Redo>, lsn: nat)
    ensures Numbered(Insert(e, es), lsn) == (if e.lsn == lsn then [e] else []) + Numbered(es, lsn)
  {
    if es == [] || e.lsn <= es[0].lsn {
      NumberedCons(e, es, lsn);
    } else {
      InsertStable(e, es[1..], lsn);
      var r := Insert(e, es[1..]);
      assert Insert(e, es) == [es[0]] + r && es == [es[0]] + es[1..];
      hide *;
      NumberedCons(es[0], r, lsn);
      NumberedCons(es[0], es[1..], lsn);
      EitherEmpty(if es[0].lsn == lsn then [es[0]] else [], if e.lsn == lsn then [e] else [], Numbered(es[1..], lsn));
    }
  }

  lemma EitherEmpty(x: seq<Redo>, y: seq<Redo>, z: seq<Redo>)
    requires x == [] || y == []
    ensures x + (y + z) == y + (x + z)
  {
  }

  lemma NumberedCons(e: Redo, es: seq<Redo>, lsn: nat)
    ensures Numbered([e] + es, lsn) == (if e.lsn == lsn then [e] else []) + Numbered(es, lsn)
  {
    assert ([e] + es)[1..] == es;
  }

  /** Sorting is stable: entries with one number stay in order. */
  lemma {:induction false} SortStable(es: seq<Redo>, lsn: nat)
    ensures Numbered(SortByLsn(es), lsn) == Numbered(es, lsn)
  {
    if es != [] {
      SortStable(es[1..], lsn);
      InsertStable(es[0], SortByLsn(es[1..]), lsn);
    }
  }

  // ----- the operations -----

  function WalEnd(h: Header): nat { h.walOffset + h.walLength }

  function PutHeader(b: seq<Byte>, h: Header): seq<Byte>
    requires h.headerSize >= 72
  {
    WriteAt(b, 0, Encode(h))
  }

  function NewFile(c: Codec): File {
    var h := Sealed(NEW, c.crc);
    File(PutHeader([], h), h)
  }

  function AppendHeader(h: Header, e: Redo, c: Codec): Header {
    Sealed(h.(walLength := h.walLength + RECORD_HEADER + |c.encode(e)|, flags := SetWal(h.flags), lastLsn := e.lsn), c.crc)
  }

  function Append(f: File, e: Redo, c: Codec): File
    requires f.header.headerSize >= 72
  {
    var b := WriteAt(f.bytes, WalEnd(f.header), Frame(c.encode(e), c.crc));
    var h := AppendHeader(f.header, e, c);
    File(PutHeader(b, h), h)
  }

  function CheckpointHeader(h: Header, k: Ckpt, c: Codec): Header {
    var size := RECORD_HEADER + |c.encodeCk(k)|;
    Sealed(h.(ckLength := size, flags := ClearWal(SetCheckpoint(h.flags)), walOffset := h.ckOffset + size,
              walLength := 0, lastLsn := k.lsn, lastCommitTs := k.commitTs), c.crc)
  }

  function Checkpoint(f: File, k: Ckpt, c: Codec): File
    requires f.header.headerSize >= 72
  {
    var b := WriteAt(f.bytes, f.header.ckOffset, Frame(c.encodeCk(k), c.crc));
    var h := CheckpointHeader(f.header, k, c);
    File(PutHeader(b, h), h)
  }

  function ReadWal(f: File, c: Codec): Result<seq<Redo>> {
    if !HasWal(f.header.flags) || f.header.walLength == 0 then Ok([])
    else
      var r := Scan(f.bytes, f.header.walOffset, WalEnd(f.header), c);
      if r.Err? then r else Ok(SortByLsn(r.value))
  }

  function ReadCheckpoint(f: File, c: Codec): Result<Option<Ckpt>> {
    if !HasCheckpoint(f.header.flags) || f.header.ckLength == 0 then Ok(None)
    else match ReadFrame(f.bytes, f.header.ckOffset, c.crc)
      case NoLength => Err(Io)
      case Cut => Err(Io)
      case Corrupt => Err(CheckpointChecksum)
      case Payload(p) =>
        var k := c.decodeCk(p);
        if k.None? then Err(Deserialization) else Ok(Some(k.value))
  }

  function Retained(es: seq<Redo>, minLsn: nat): seq<Redo> {
    if es == [] then []
    else if es[0].lsn >= minLsn then [es[0]] + Retained(es[1..], minLsn)
    else Retained(es[1..], minLsn)
  }

  /** The entries at or above the bound, as often as they occur. */
  ghost predicate AtLeast(kept: multiset<Redo>, all: multiset<Redo>, minLsn: nat) {
    forall x :: kept[x] == if x.lsn >= minLsn then all[x] else 0
  }

  /** What is retained are exactly the entries at or above the bound, as often as they occur. */
  lemma {:induction false} RetainedExact(es: seq<Redo>, minLsn: nat)
    ensures AtLeast(multiset(Retained(es, minLsn)), multiset(es), minLsn)
  {
    if es != [] {
      RetainedExact(es[1..], minLsn);
      assert es == [es[0]] + es[1..];
    }
  }

  /** They stay in order: what is retained of two parts is retained of the whole, one after the other. */
  lemma {:induction false} RetainedInOrder(a: seq<Redo>, b: seq<Redo>, minLsn: nat)
    ensures Retained(a + b, minLsn) == Retained(a, minLsn) + Retained(b, minLsn)
    decreases |a|
  {
    if a == [] {
      assert a + b == b;
    } else {
      assert (a + b)[1..] == a[1..] + b;
      RetainedInOrder(a[1..], b, minLsn);
    }
  }

  function ResetWal(f: File, empty: bool, c: Codec): File
    requires f.header.headerSize >= 72
  {
    var h := Sealed(f.header.(walLength := 0, flags := if empty then ClearWal(f.header.flags) else f.header.flags), c.crc);
    File(PutHeader(f.bytes, h), h)
  }

  function AppendAll(f: File, es: seq<Redo>, c: Codec): File
    requires f.header.headerSize >= 72
    decreases |es|
  {
    if es == [] then f else AppendAll(Append(f, es[0], c), es[1..], c)
  }

  /** Truncation reads everything, and when something is to go, resets the region and appends the rest. */
  function Truncate(f: File, minLsn: nat, c: Codec): Result<File>
    requires f.header.headerSize >= 72
  {
    var all := ReadWal(f, c);
    if all.Err? then Err(all.error)
    else
      var keep := Retained(all.value, minLsn);
      if |keep| == |all.value| then Ok(f)
      else Ok(AppendAll(ResetWal(f, keep == [], c), keep, c))
  }

  // ----- what a file holds -----

  ghost predicate Layout(h: Header, crc: Crc) {
    && Fits(h) && h.magic == MAGIC && h.version <= CURRENT_VERSION && h.crc == crc(Fields(h))
    && h.ckOffset == HEADER_SIZE && h.walOffset == HEADER_SIZE + h.ckLength && h.flags < 4
  }

  ghost predicate SmallEntries(es: seq<Redo>, c: Codec) {
    forall e | e in es :: |c.encode(e)| < U32 && e.lsn < U64
  }

  ghost predicate CkRegion(b: seq<Byte>, h: Header, c: Codec, ck: Option<Ckpt>) {
    if ck.Some? then
      && HasCheckpoint(h.flags) && |c.encodeCk(ck.value)| < U32
      && h.ckLength == RECORD_HEADER + |c.encodeCk(ck.value)|
      && At(b, HEADER_SIZE, Frame(c.encodeCk(ck.value), c.crc))
    else !HasCheckpoint(h.flags) && h.ckLength == 0
  }

  ghost predicate WalRegion(b: seq<Byte>, h: Header, c: Codec, es: seq<Redo>) {
    SmallEntries(es, c) && h.walLength == |Frames(es, c)| && At(b, h.walOffset, Frames(es, c))
  }

  /** The regions of `f` are disjoint and adjacent, and hold the checkpoint `ck` and the entries `es`. */
  ghost predicate Regions(f: File, c: Codec, ck: Option<Ckpt>, es: seq<Redo>) {
    && Layout(f.header, c.crc) && At(f.bytes, 0, Encode(f.header))
    && CkRegion(f.bytes, f.header, c, ck) && WalRegion(f.bytes, f.header, c, es)
  }

  /** The file `f` holds the checkpoint `ck` and the appended entries `es`. */
  ghost predicate Holds(f: File, c: Codec, ck: Option<Ckpt>, es: seq<Redo>) {
    Regions(f, c, ck, es) && (HasWal(f.header.flags) <==> es != [])
  }

  lemma FrameReads(b: seq<Byte>, off: nat, payload: seq<Byte>, crc: Crc)
    requires At(b, off, Frame(payload, crc)) && |payload| < U32 && crc(payload) < U32
    ensures ReadFrame(b, off, crc) == Payload(payload)
  {
    var n := |payload|;
    var len, sum := Le(n, 4), Le(crc(payload), 4);
    WordSizes();
    LeRoundTrip(n, 4);
    LeRoundTrip(crc(payload), 4);
    assert Frame(payload, crc) == (len + sum) + payload;
    hide Le, FromLe, Pow256, At, ReadAt, Frame;
    AtSplit(b, off, len + sum, payload);
    AtSplit(b, off, len, sum);
    AtRead(b, off, len);
    AtRead(b, off + 4, sum);
    AtRead(b, off + 8, payload);
  }

  lemma ScanOne(b: seq<Byte>, off: nat, end: nat, e: Redo, rest: seq<Redo>, c: Codec)
    requires off < end && ReadFrame(b, off, c.crc) == Payload(c.encode(e)) && c.decode(c.encode(e)) == Some(e)
    requires Scan(b, off + RECORD_HEADER + |c.encode(e)|, end, c) == Ok(rest)
    ensures Scan(b, off, end, c) == Ok([e] + rest)
  {
    hide ReadFrame;
  }

  /** Scanning a region of frames gives exactly the entries framed there. */
  lemma {:induction false} ScanExact(b: seq<Byte>, off: nat, es: seq<Redo>, c: Codec)
    requires Faithful(c) && SmallEntries(es, c) && At(b, off, Frames(es, c))
    ensures Scan(b, off, off + |Frames(es, c)|, c) == Ok(es)
    decreases |es|
  {
    hide *;
    if es == [] {
      ScanNone(b, off, c);
    } else {
      var e, rest := es[0], es[1..];
      var fr, more := Frame(c.encode(e), c.crc), Frames(rest, c);
      FramesHead(es, c);
      SmallTail(es, c);
      Coded(c, e);
      AtSplit(b, off, fr, more);
      FrameReads(b, off, c.encode(e), c.crc);
      ScanExact(b, off + |fr|, rest, c);
      ScanOne(b, off, off + |fr| + |more|, e, rest, c);
      assert [e] + rest == es;
    }
  }

  /** A record as it stands in the file: length, stored checksum, payload. */
  function Stored(payload: seq<Byte>, sum: nat): (b: seq<Byte>)
    ensures |b| == RECORD_HEADER + |payload|
  {
    Le(|payload|, 4) + Le(sum, 4) + payload
  }

  /** A record is accepted exactly when the stored checksum is the payload's. */
  lemma StoredReads(b: seq<Byte>, off: nat, payload: seq<Byte>, sum: nat, crc: Crc)
    requires At(b, off, Stored(payload, sum)) && |payload| < U32 && sum < U32
    ensures ReadFrame(b, off, crc) == if crc(payload) == sum then Payload(payload) else Corrupt
  {
    var len, check := Le(|payload|, 4), Le(sum, 4);
    WordSizes();
    LeRoundTrip(|payload|, 4);
    LeRoundTrip(sum, 4);
    assert Stored(payload, sum) == (len + check) + payload;
    hide Le, FromLe, Pow256, At, ReadAt;
    AtSplit(b, off, len + check, payload);
    AtSplit(b, off, len, check);
    AtRead(b, off, len);
    AtRead(b, off + 4, check);
    AtRead(b, off + 8, payload);
  }

  /** A record whose payload was changed is reported with its offset, whatever good records stand before it. */
  lemma {:induction false} CorruptReported(b: seq<Byte>, off: nat, end: nat, es: seq<Redo>, payload: seq<Byte>, sum: nat, c: Codec)
    requires Faithful(c) && SmallEntries(es, c) && At(b, off, Frames(es, c)) && off + |Frames(es, c)| < end
    requires At(b, off + |Frames(es, c)|, Stored(payload, sum)) && |payload| < U32 && sum < U32 && c.crc(payload) != sum
    ensures Scan(b, off, end, c) == Err(WalChecksum(off + |Frames(es, c)|))
    decreases |es|
  {
    hide *;
    if es == [] {
      ScanNone(b, off, c);
      StoredReads(b, off, payload, sum, c.crc);
      ScanCorrupt(b, off, end, c);
    } else {
      var e, rest := es[0], es[1..];
      FramesHead(es, c);
      AtSplit(b, off, Frame(c.encode(e), c.crc), Frames(rest, c));
      var next := off + RECORD_HEADER + |c.encode(e)|;
      SmallRest(es, c);
      Coded(c, e);
      CorruptReported(b, next, end, rest, payload, sum, c);
      FrameReads(b, off, c.encode(e), c.crc);
      ScanFails(b, off, end, e, WalChecksum(off + |Frames(es, c)|), c);
    }
  }

  /** A record that is intact but cannot be decoded is reported as such. */
  lemma UndecodableReported(b: seq<Byte>, off: nat, end: nat, payload: seq<Byte>, sum: nat, c: Codec)
    requires off < end && At(b, off, Stored(payload, sum)) && |payload| < U32 && sum < U32
    requires c.crc(payload) == sum && c.decode(payload).None?
    ensures Scan(b, off, end, c) == Err(Deserialization)
  {
    StoredReads(b, off, payload, sum, c.crc);
    hide ReadFrame;
  }

  /** The same for a checkpoint, which is never skipped quietly: changed, undecodable, or cut short. */
  lemma CheckpointErrors(f: File, payload: seq<Byte>, sum: nat, n: nat, c: Codec)
    requires HasCheckpoint(f.header.flags) && f.header.ckLength > 0
    requires |payload| < U32 && sum < U32 && n <= RECORD_HEADER + |payload| && At(f.bytes, f.header.ckOffset, Stored(payload, sum)[..n])
    requires n < RECORD_HEADER + |payload| ==> |f.bytes| == f.header.ckOffset + n
    ensures ReadCheckpoint(f, c) == if n < RECORD_HEADER + |payload| then Err(Io)
                                    else if c.crc(payload) != sum then Err(CheckpointChecksum)
                                    else if c.decodeCk(payload).None? then Err(Deserialization)
                                    else Ok(Some(c.decodeCk(payload).value))
  {
    if n == RECORD_HEADER + |payload| {
      assert Stored(payload, sum)[..n] == Stored(payload, sum);
      StoredReads(f.bytes, f.header.ckOffset, payload, sum, c.crc);
      hide ReadFrame;
    } else {
      CutFrame(f.bytes, f.header.ckOffset, payload, sum, n, c.crc);
      hide ReadFrame;
    }
  }

  lemma CutFrame(b: seq<Byte>, off: nat, payload: seq<Byte>, sum: nat, n: nat, crc: Crc)
    requires |payload| < U32 && sum < U32 && n < RECORD_HEADER + |payload|
    requires |b| == off + n && At(b, off, Stored(payload, sum)[..n])
    ensures ReadFrame(b, off, crc) == if n < 4 then NoLength else Cut
  {
    WordSizes();
    LeRoundTrip(|payload|, 4);
    if n >= 4 {
      var d := Stored(payload, sum)[..n];
      assert b[off..off + 4] == d[..4] by { assert b[off..off + |d|] == d; }
      assert d[..4] == Le(|payload|, 4);
      hide Le, FromLe, Pow256;
    }
  }

  lemma ScanCorrupt(b: seq<Byte>, off: nat, end: nat, c: Codec)
    requires off < end && ReadFrame(b, off, c.crc) == Corrupt
    ensures Scan(b, off, end, c) == Err(WalChecksum(off))
  {
    hide ReadFrame;
  }

  lemma SmallRest(es: seq<Redo>, c: Codec)
    requires es != [] && SmallEntries(es, c)
    ensures SmallEntries(es[1..], c) && |c.encode(es[0])| < U32
  {
  }

  lemma ScanFails(b: seq<Byte>, off: nat, end: nat, e: Redo, error: DbError, c: Codec)
    requires off < end && ReadFrame(b, off, c.crc) == Payload(c.encode(e)) && c.decode(c.encode(e)) == Some(e)
    requires Scan(b, off + RECORD_HEADER + |c.encode(e)|, end, c) == Err(error)
    ensures Scan(b, off, end, c) == Err(error)
  {
    hide ReadFrame;
  }

  /** A record cut short is an error too, unless not even its length is there. */
  lemma CutReported(b: seq<Byte>, off: nat, end: nat, payload: seq<Byte>, sum: nat, n: nat, c: Codec)
    requires |payload| < U32 && sum < U32 && n < RECORD_HEADER + |payload| && off < end
    requires |b| == off + n && At(b, off, Stored(payload, sum)[..n])
    ensures Scan(b, off, end, c) == if n < 4 then Ok([]) else Err(Io)
  {
    CutFrame(b, off, payload, sum, n, c.crc);
    hide ReadFrame;
  }

  lemma FramesHead(es: seq<Redo>, c: Codec)
    requires es != []
    ensures Frames(es, c) == Frame(c.encode(es[0]), c.crc) + Frames(es[1..], c)
    ensures RECORD_HEADER == 8
  {
  }

  lemma ScanNone(b: seq<Byte>, off: nat, c: Codec)
    ensures |Frames([], c)| == 0 && Scan(b, off, off, c) == Ok([])
  {
  }

  /** Reopening and reading give back what the file holds. */
  lemma HoldsReads(f: File, c: Codec, ck: Option<Ckpt>, es: seq<Redo>)
    requires Faithful(c) && Holds(f, c, ck, es)
    ensures Decode(f.bytes, c.crc) == Good(f.header)
    ensures ReadCheckpoint(f, c) == Ok(ck)
    ensures ReadWal(f, c) == Ok(SortByLsn(es))
  {
    HoldsOpens(f, c, ck, es);
    HoldsCheckpoint(f, c, ck, es);
    HoldsWal(f, c, ck, es);
  }

  lemma HoldsOpens(f: File, c: Codec, ck: Option<Ckpt>, es: seq<Redo>)
    requires Holds(f, c, ck, es)
    ensures Decode(f.bytes, c.crc) == Good(f.header)
  {
    hide Encode, At, Decode, Frame, Frames, Fields;
    HeaderRoundTrip(f.header, f.bytes, c.crc);
  }

  lemma HoldsCheckpoint(f: File, c: Codec, ck: Option<Ckpt>, es: seq<Redo>)
    requires Faithful(c) && Holds(f, c, ck, es)
    ensures ReadCheckpoint(f, c) == Ok(ck)
  {
    hide Encode, At, Frame, Frames, Fields, ReadFrame, Faithful;
    if ck.Some? {
      CodedCk(c, ck.value);
      FrameReads(f.bytes, HEADER_SIZE, c.encodeCk(ck.value), c.crc);
    }
  }

  lemma HoldsWal(f: File, c: Codec, ck: Option<Ckpt>, es: seq<Redo>)
    requires Faithful(c) && Holds(f, c, ck, es)
    ensures ReadWal(f, c) == Ok(SortByLsn(es))
  {
    hide *;
    HoldsSplit(f, c, ck, es);
    RegionsWal(f, c, ck, es);
    ScanExact(f.bytes, f.header.walOffset, es, c);
    if es == [] { SortNothing(); } else { SmallTail(es, c); }
    ReadWalIs(f, c, es);
  }

  lemma HoldsSplit(f: File, c: Codec, ck: Option<Ckpt>, es: seq<Redo>)
    requires Holds(f, c, ck, es)
    ensures Regions(f, c, ck, es) && (HasWal(f.header.flags) <==> es != [])
  {
    hide Regions;
  }

  lemma RegionsWal(f: File, c: Codec, ck: Option<Ckpt>, es: seq<Redo>)
    requires Regions(f, c, ck, es)
    ensures SmallEntries(es, c) && f.header.walLength == |Frames(es, c)| && At(f.bytes, f.header.walOffset, Frames(es, c))
  {
  }

  lemma ReadWalIs(f: File, c: Codec, es: seq<Redo>)
    requires Scan(f.bytes, f.header.walOffset, f.header.walOffset + f.header.walLength, c) == Ok(es)
    requires HasWal(f.header.flags) <==> es != []
    requires es != [] ==> f.header.walLength > 0
    requires es == [] ==> SortByLsn(es) == []
    ensures ReadWal(f, c) == Ok(SortByLsn(es))
  {
    hide Scan, SortByLsn;
  }

  lemma SortNothing()
    ensures SortByLsn([]) == []
  {
  }

  // ----- the operations keep it -----

  lemma {:induction false} FramesAppend(es: seq<Redo>, e: Redo, c: Codec)
    ensures Frames(es + [e], c) == Frames(es, c) + Frame(c.encode(e), c.crc)
  {
    if es == [] {
      assert [e][1..] == [] && [] + [e] == [e];
      assert Frames([e], c) == Frame(c.encode(e), c.crc) + Frames([], c);
    } else {
      assert (es + [e])[1..] == es[1..] + [e];
      FramesAppend(es[1..], e, c);
    }
  }

  /** What the file-size limit allows: the entry fits its length field and the offsets their words. */
  ghost predicate Room(h: Header, e: Redo, c: Codec) {
    |c.encode(e)| < U32 && e.lsn < U64 && WalEnd(h) + RECORD_HEADER + |c.encode(e)| < U64
  }

  lemma HeaderLength(h: Header)
    requires Fits(h)
    ensures |Encode(h)| == HEADER_SIZE
  {
    EncodeParts(h);
  }

  lemma NewHolds(c: Codec)
    requires Faithful(c)
    ensures Holds(NewFile(c), c, None, [])
  {
    var h := Sealed(NEW, c.crc);
    Resealed(NEW, c.crc);
    HeaderLength(h);
    Summed(c, Fields(NEW));
    hide Fields, Encode, Faithful, WriteAt;
    AtWritten([], 0, Encode(h));
    AtNothing(PutHeader([], h), 0, Encode(h));
  }

  lemma AppendLayout(h: Header, e: Redo, c: Codec)
    requires Layout(h, c.crc) && Room(h, e, c) && Faithful(c)
    ensures Layout(AppendHeader(h, e, c), c.crc)
  {
  }

  lemma AppendBytes(b: seq<Byte>, lo: nat, old': seq<Byte>, fr: seq<Byte>, hd: seq<Byte>)
    requires |hd| == HEADER_SIZE <= lo && At(b, lo, old')
    ensures var b2 := WriteAt(WriteAt(b, lo + |old'|, fr), 0, hd);
            At(b2, 0, hd) && At(b2, lo, old' + fr)
  {
    var mid := lo + |old'|;
    var b1 := WriteAt(b, mid, fr);
    hide WriteAt, At;
    AtWritten(b, mid, fr);
    AtKept(b, mid, fr, lo, old');
    AtWritten(b1, 0, hd);
    AtKept(b1, 0, hd, mid, fr);
    AtKept(b1, 0, hd, lo, old');
    AtJoin(WriteAt(b1, 0, hd), lo, old', fr);
  }

  lemma CheckpointKept(b: seq<Byte>, d: seq<Byte>, off: nat, fr: seq<Byte>, hd: seq<Byte>)
    requires |hd| == HEADER_SIZE && At(b, HEADER_SIZE, d) && HEADER_SIZE + |d| <= off
    ensures At(WriteAt(WriteAt(b, off, fr), 0, hd), HEADER_SIZE, d)
  {
    hide WriteAt, At;
    AtKept(b, off, fr, HEADER_SIZE, d);
    AtKept(WriteAt(b, off, fr), 0, hd, HEADER_SIZE, d);
  }

  lemma AppendRegions(f: File, e: Redo, c: Codec, ck: Option<Ckpt>, es: seq<Redo>)
    requires Faithful(c) && Regions(f, c, ck, es) && Room(f.header, e, c)
    ensures Holds(Append(f, e, c), c, ck, es + [e]) && Regions(Append(f, e, c), c, ck, es + [e])
    ensures Append(f, e, c).header.lastLsn == e.lsn && Append(f, e, c).header.headerSize == HEADER_SIZE
    ensures WalEnd(Append(f, e, c).header) == WalEnd(f.header) + RECORD_HEADER + |c.encode(e)|
  {
    hide *;
    var h, h' := f.header, AppendHeader(f.header, e, c);
    RegionsParts(f, c, ck, es);
    LayoutFacts(h, c.crc);
    var f' := Append(f, e, c);
    AppendLayout(h, e, c);
    LayoutFacts(h', c.crc);
    HeaderLength(h');
    AppendFacts(f, e, c);
    CkRegionFits(f.bytes, h, c, ck);
    WalGrows(f, c, e, es);
    CkStays(f, c, e, ck);
    RegionsIntro(f', c, ck, es + [e]);
  }

  lemma RegionsParts(f: File, c: Codec, ck: Option<Ckpt>, es: seq<Redo>)
    requires Regions(f, c, ck, es)
    ensures Layout(f.header, c.crc) && CkRegion(f.bytes, f.header, c, ck) && WalRegion(f.bytes, f.header, c, es)
  {
    hide Layout, CkRegion, WalRegion, At;
  }

  lemma RegionsIntro(f: File, c: Codec, ck: Option<Ckpt>, es: seq<Redo>)
    requires Layout(f.header, c.crc) && f.header.headerSize >= 72 && At(f.bytes, 0, Encode(f.header))
    requires CkRegion(f.bytes, f.header, c, ck) && WalRegion(f.bytes, f.header, c, es)
    requires HasWal(f.header.flags) <==> es != []
    ensures Regions(f, c, ck, es) && Holds(f, c, ck, es)
  {
    hide Layout, CkRegion, WalRegion, At;
  }

  lemma LayoutFacts(h: Header, crc: Crc)
    requires Layout(h, crc)
    ensures Fits(h) && h.headerSize == HEADER_SIZE == 256 && h.ckOffset == HEADER_SIZE && h.walOffset == HEADER_SIZE + h.ckLength
  {
    hide Fields;
  }

  lemma AppendFacts(f: File, e: Redo, c: Codec)
    requires f.header.headerSize >= 72
    ensures var h' := AppendHeader(f.header, e, c);
            && h'.headerSize == f.header.headerSize
            && Append(f, e, c) == File(WriteAt(WriteAt(f.bytes, WalEnd(f.header), Frame(c.encode(e), c.crc)), 0, Encode(h')), h')
            && h'.walOffset == f.header.walOffset && h'.ckLength == f.header.ckLength && h'.lastLsn == e.lsn
            && h'.walLength == f.header.walLength + |Frame(c.encode(e), c.crc)|
            && HasWal(h'.flags) && HasCheckpoint(h'.flags) == HasCheckpoint(f.header.flags)
            && WalEnd(h') == WalEnd(f.header) + RECORD_HEADER + |c.encode(e)|
            && WalEnd(f.header) == f.header.walOffset + f.header.walLength
    ensures [e] != []
  {
    hide WriteAt, Encode, Fields, HasWal, HasCheckpoint, Le;
  }

  lemma CkRegionFits(b: seq<Byte>, h: Header, c: Codec, ck: Option<Ckpt>)
    requires CkRegion(b, h, c, ck)
    ensures ck.Some? ==> h.ckLength == |Frame(c.encodeCk(ck.value), c.crc)|
  {
    hide At;
  }

  lemma WalGrows(f: File, c: Codec, e: Redo, es: seq<Redo>)
    requires WalRegion(f.bytes, f.header, c, es) && Room(f.header, e, c) && HEADER_SIZE <= f.header.walOffset
    requires f.header.headerSize == HEADER_SIZE == 256 && |Encode(AppendHeader(f.header, e, c))| == HEADER_SIZE
    ensures WalRegion(Append(f, e, c).bytes, AppendHeader(f.header, e, c), c, es + [e])
    ensures At(Append(f, e, c).bytes, 0, Encode(AppendHeader(f.header, e, c)))
  {
    hide Encode, At, Frame, Frames, SmallEntries, WriteAt, AppendHeader, Append, HasCheckpoint, Fields, Le;
    var fr, old' := Frame(c.encode(e), c.crc), Frames(es, c);
    AppendFacts(f, e, c);
    SmallGrows(es, e, c);
    FramesAppend(es, e, c);
    AppendBytes(f.bytes, f.header.walOffset, old', fr, Encode(AppendHeader(f.header, e, c)));
  }

  lemma CkStays(f: File, c: Codec, e: Redo, ck: Option<Ckpt>)
    requires CkRegion(f.bytes, f.header, c, ck) && f.header.walOffset == HEADER_SIZE + f.header.ckLength
    requires f.header.headerSize == HEADER_SIZE == 256 && |Encode(AppendHeader(f.header, e, c))| == HEADER_SIZE
    ensures CkRegion(Append(f, e, c).bytes, AppendHeader(f.header, e, c), c, ck)
  {
    AppendFacts(f, e, c);
    hide Encode, At, Frame, WriteAt, AppendHeader, Append, HasCheckpoint;
    if ck.Some? {
      CheckpointKept(f.bytes, Frame(c.encodeCk(ck.value), c.crc), WalEnd(f.header), Frame(c.encode(e), c.crc),
                     Encode(AppendHeader(f.header, e, c)));
    }
  }

  lemma SmallGrows(es: seq<Redo>, e: Redo, c: Codec)
    requires SmallEntries(es, c) && |c.encode(e)| < U32 && e.lsn < U64
    ensures SmallEntries(es + [e], c)
  {
  }

  ghost predicate CkRoom(k: Ckpt, c: Codec) {
    && |c.encodeCk(k)| < U32 && k.lsn < U64 && k.commitTs < U64
    && HEADER_SIZE + RECORD_HEADER + |c.encodeCk(k)| < U64
  }

  lemma CheckpointLayout(h: Header, k: Ckpt, c: Codec)
    requires Layout(h, c.crc) && CkRoom(k, c) && Faithful(c)
    ensures Layout(CheckpointHeader(h, k, c), c.crc)
  {
  }

  lemma CheckpointBytes(b: seq<Byte>, fr: seq<Byte>, hd: seq<Byte>)
    requires |hd| == HEADER_SIZE
    ensures var b2 := WriteAt(WriteAt(b, HEADER_SIZE, fr), 0, hd);
            At(b2, 0, hd) && At(b2, HEADER_SIZE, fr)
  {
    hide WriteAt, At;
    var b1 := WriteAt(b, HEADER_SIZE, fr);
    AtWritten(b, HEADER_SIZE, fr);
    AtWritten(b1, 0, hd);
    AtKept(b1, 0, hd, HEADER_SIZE, fr);
  }

  lemma AtNothing(b: seq<Byte>, off: nat, d: seq<Byte>)
    requires At(b, off, d)
    ensures At(b, off, []) && At(b, off + |d|, [])
  {
  }

  /** A checkpoint may grow over the old WAL region; it empties that region anyway. */
  lemma CheckpointHolds(f: File, k: Ckpt, c: Codec, ck: Option<Ckpt>, es: seq<Redo>)
    requires Faithful(c) && Regions(f, c, ck, es) && CkRoom(k, c)
    ensures Holds(Checkpoint(f, k, c), c, Some(k), [])
    ensures Checkpoint(f, k, c).header.lastLsn == k.lsn
  {
    var h' := CheckpointHeader(f.header, k, c);
    CheckpointLayout(f.header, k, c);
    HeaderLength(h');
    var fr := Frame(c.encodeCk(k), c.crc);
    CheckpointBytes(f.bytes, fr, Encode(h'));
    AtNothing(Checkpoint(f, k, c).bytes, HEADER_SIZE, fr);
    hide Encode, At, Frame, Fields, WriteAt, Faithful;
    assert Frames([], c) == [] && SmallEntries([], c);
  }

  lemma Resealed(h: Header, crc: Crc)
    ensures Sealed(h, crc).crc == crc(Fields(Sealed(h, crc)))
  {
    assert Words(Sealed(h, crc)) == Words(h);
  }

  lemma ResetLayout(h: Header, flags: nat, crc: Crc)
    requires Layout(h, crc) && flags < 4 && crc(Fields(h.(walLength := 0, flags := flags))) < U32
    ensures Layout(Sealed(h.(walLength := 0, flags := flags), crc), crc)
  {
  }

  lemma ResetRegions(f: File, empty: bool, c: Codec, ck: Option<Ckpt>, es: seq<Redo>)
    requires Faithful(c) && Regions(f, c, ck, es)
    ensures Regions(ResetWal(f, empty, c), c, ck, [])
    ensures empty ==> Holds(ResetWal(f, empty, c), c, ck, [])
    ensures ResetWal(f, empty, c).header.lastLsn == f.header.lastLsn
    ensures ResetWal(f, empty, c).header.walOffset == f.header.walOffset
    ensures ResetWal(f, empty, c).header.walLength == 0
  {
    var h' := ResetWal(f, empty, c).header;
    Summed(c, Fields(f.header.(walLength := 0, flags := h'.flags)));
    ResetLayout(f.header, h'.flags, c.crc);
    HeaderLength(h');
    var fr := Frames(es, c);
    hide Encode, At, Frame, Fields, WriteAt, Faithful, Layout;
    AtWritten(f.bytes, 0, Encode(h'));
    AtKept(f.bytes, 0, Encode(h'), h'.walOffset, fr);
    AtNothing(WriteAt(f.bytes, 0, Encode(h')), h'.walOffset, fr);
    if ck.Some? {
      AtKept(f.bytes, 0, Encode(h'), HEADER_SIZE, Frame(c.encodeCk(ck.value), c.crc));
    }
    assert Frames([], c) == [] && SmallEntries([], c);
  }

  lemma SmallTail(es: seq<Redo>, c: Codec)
    requires SmallEntries(es, c) && es != []
    ensures SmallEntries(es[1..], c) && |c.encode(es[0])| < U32 && es[0].lsn < U64
    ensures |Frames(es, c)| == RECORD_HEADER + |c.encode(es[0])| + |Frames(es[1..], c)| > 0
  {
  }

  lemma {:induction false} AppendAllHolds(f: File, es: seq<Redo>, c: Codec, ck: Option<Ckpt>, es0: seq<Redo>)
    requires Faithful(c) && Regions(f, c, ck, es0) && SmallEntries(es, c) && f.header.headerSize == HEADER_SIZE
    requires WalEnd(f.header) + |Frames(es, c)| < U64
    ensures Regions(AppendAll(f, es, c), c, ck, es0 + es)
    ensures es != [] ==> Holds(AppendAll(f, es, c), c, ck, es0 + es)
    ensures AppendAll(f, es, c).header.lastLsn == if es == [] then f.header.lastLsn else es[|es| - 1].lsn
    decreases |es|
  {
    hide Regions, Holds, SmallEntries, Append, Faithful, Frame, Frames;
    if es == [] {
      assert es0 + es == es0;
    } else {
      var e, rest := es[0], es[1..];
      SmallTail(es, c);
      AppendRegions(f, e, c, ck, es0);
      var f1 := Append(f, e, c);
      AppendAllHolds(f1, rest, c, ck, es0 + [e]);
      assert es0 + [e] + rest == es0 + es;
      assert rest == [] ==> AppendAll(f1, rest, c) == f1 && es0 + es == es0 + [e];
    }
  }

  // ----- sizes under sorting and filtering -----

  lemma {:induction false} InsertSize(e: Redo, es: seq<Redo>, c: Codec)
    ensures |Frames(Insert(e, es), c)| == RECORD_HEADER + |c.encode(e)| + |Frames(es, c)|
  {
    if !(es == [] || e.lsn <= es[0].lsn) { InsertSize(e, es[1..], c); }
  }

  lemma {:induction false} SortSize(es: seq<Redo>, c: Codec)
    ensures |Frames(SortByLsn(es), c)| == |Frames(es, c)|
  {
    if es != [] {
      SortSize(es[1..], c);
      InsertSize(es[0], SortByLsn(es[1..]), c);
    }
  }

  lemma {:induction false} RetainedSize(es: seq<Redo>, minLsn: nat, c: Codec)
    ensures |Frames(Retained(es, minLsn), c)| <= |Frames(es, c)| && |Retained(es, minLsn)| <= |es|
    ensures forall e | e in Retained(es, minLsn) :: e in es && e.lsn >= minLsn
    ensures |Retained(es, minLsn)| == |es| <==> Retained(es, minLsn) == es
  {
    if es != [] {
      RetainedSize(es[1..], minLsn, c);
      assert es == [es[0]] + es[1..];
    }
  }

  lemma SortedMembers(es: seq<Redo>)
    ensures forall e | e in SortByLsn(es) :: e in es
  {
    SortSorts(es);
    forall e | e in SortByLsn(es) ensures e in es { assert e in multiset(es); }
  }

  /** Truncation keeps, in LSN order, exactly the entries at or above the bound; when nothing is below
      it the file is left alone. */
  function Truncated(es: seq<Redo>, minLsn: nat): seq<Redo> {
    var all := SortByLsn(es);
    if |Retained(all, minLsn)| == |all| then es else Retained(all, minLsn)
  }

  lemma TruncatedExact(es: seq<Redo>, minLsn: nat)
    ensures AtLeast(multiset(Truncated(es, minLsn)), multiset(es), minLsn)
  {
    var all := SortByLsn(es);
    SortSorts(es);
    RetainedExact(all, minLsn);
    WholeRetained(all, minLsn);
  }

  lemma {:induction false} WholeRetained(es: seq<Redo>, minLsn: nat)
    ensures |Retained(es, minLsn)| <= |es|
    ensures |Retained(es, minLsn)| == |es| ==> Retained(es, minLsn) == es
  {
    if es != [] {
      WholeRetained(es[1..], minLsn);
      assert es == [es[0]] + es[1..];
    }
  }

  lemma TruncateCases(f: File, minLsn: nat, c: Codec, ck: Option<Ckpt>, es: seq<Redo>)
    requires Faithful(c) && Holds(f, c, ck, es) && WalEnd(f.header) < U64 && f.header.headerSize == HEADER_SIZE
    ensures var all := SortByLsn(es);
            var keep := Retained(all, minLsn);
            && ReadWal(f, c) == Ok(all) && |keep| <= |all| == |es|
            && if |keep| == |all| then Truncate(f, minLsn, c) == Ok(f) && Truncated(es, minLsn) == es
               else
                 var f1 := ResetWal(f, keep == [], c);
                 && Truncate(f, minLsn, c) == Ok(AppendAll(f1, keep, c)) && Truncated(es, minLsn) == keep
                 && Regions(f1, c, ck, []) && f1.header.headerSize == HEADER_SIZE
                 && SmallEntries(keep, c) && WalEnd(f1.header) + |Frames(keep, c)| < U64
  {
    HoldsReads(f, c, ck, es);
    SortLength(es);
    var keep := Retained(SortByLsn(es), minLsn);
    RetainedSize(SortByLsn(es), minLsn, c);
    ResetRegions(f, keep == [], c, ck, es);
    KeepFits(f, c, ck, es, minLsn);
  }

  lemma SortLength(es: seq<Redo>)
    ensures |SortByLsn(es)| == |es|
  {
    SortSorts(es);
    assert |multiset(SortByLsn(es))| == |SortByLsn(es)| && |multiset(es)| == |es|;
  }

  lemma KeepFits(f: File, c: Codec, ck: Option<Ckpt>, es: seq<Redo>, minLsn: nat)
    requires Regions(f, c, ck, es) && WalEnd(f.header) < U64
    ensures var keep := Retained(SortByLsn(es), minLsn);
            SmallEntries(keep, c) && f.header.walOffset + |Frames(keep, c)| < U64
  {
    RetainedSize(SortByLsn(es), minLsn, c);
    SortedMembers(es);
    SortSize(es, c);
  }

  lemma TruncateHolds(f: File, minLsn: nat, c: Codec, ck: Option<Ckpt>, es: seq<Redo>)
    requires Faithful(c) && Holds(f, c, ck, es) && WalEnd(f.header) < U64
    ensures f.header.headerSize == HEADER_SIZE
    ensures Truncate(f, minLsn, c).Ok? && Holds(Truncate(f, minLsn, c).value, c, ck, Truncated(es, minLsn))
  {
    hide *;
    HoldsSplit(f, c, ck, es);
    RegionsEnd(f, c, ck, es);
    TruncateCases(f, minLsn, c, ck, es);
    var all := SortByLsn(es);
    var keep := Retained(all, minLsn);
    if |keep| != |all| {
      var f1 := ResetWal(f, keep == [], c);
      if keep == [] {
        ResetRegions(f, true, c, ck, es);
        AppendNone(f1, c);
      } else {
        AppendAllHolds(f1, keep, c, ck, []);
        assert [] + keep == keep;
      }
    }
  }

  /** Appending several entries leaves the last one's number in the header. */
  lemma {:induction false} AppendAllHeader(f: File, es: seq<Redo>, c: Codec)
    requires f.header.headerSize >= 72
    ensures var h := AppendAll(f, es, c).header;
            && h.lastCommitTs == f.header.lastCommitTs
            && h.lastLsn == if es == [] then f.header.lastLsn else es[|es| - 1].lsn
    decreases |es|
  {
    if es != [] {
      assert Append(f, es[0], c).header.headerSize == f.header.headerSize;
      hide Append;
      AppendHeaderFields(f, es[0], c);
      AppendAllHeader(Append(f, es[0], c), es[1..], c);
    }
  }

  lemma AppendHeaderFields(f: File, e: Redo, c: Codec)
    requires f.header.headerSize >= 72
    ensures Append(f, e, c).header.lastLsn == e.lsn && Append(f, e, c).header.lastCommitTs == f.header.lastCommitTs
  {
  }

  lemma {:induction false} RetainedSorted(es: seq<Redo>, minLsn: nat)
    requires Sorted(es)
    ensures Sorted(Retained(es, minLsn)) && forall x | x in Retained(es, minLsn) :: x in es
  {
    if es != [] {
      RetainedSorted(es[1..], minLsn);
      assert es == [es[0]] + es[1..];
      var r := Retained(es[1..], minLsn);
      forall x | x in r ensures es[0].lsn <= x.lsn {
        assert x in es[1..];
        var i :| 0 <= i < |es[1..]| && es[1..][i] == x;
        assert es[i + 1] == x;
      }
    }
  }

  /** What truncation leaves in the header: the greatest number kept, if it rewrote anything. */
  lemma TruncateHeader(f: File, minLsn: nat, c: Codec, ck: Option<Ckpt>, es: seq<Redo>)
    requires Faithful(c) && Holds(f, c, ck, es) && WalEnd(f.header) < U64 && f.header.headerSize == HEADER_SIZE
    requires Truncate(f, minLsn, c).Ok?
    ensures var h, kept := Truncate(f, minLsn, c).value.header, Truncated(es, minLsn);
            && h.lastCommitTs == f.header.lastCommitTs
            && if |kept| == |es| || kept == [] then h.lastLsn == f.header.lastLsn else Greatest(multiset(kept), h.lastLsn)
  {
    TruncateCases(f, minLsn, c, ck, es);
    var all := SortByLsn(es);
    var keep := Retained(all, minLsn);
    if |keep| != |all| {
      var f1 := ResetWal(f, keep == [], c);
      AppendAllHeader(f1, keep, c);
      SortSorts(es);
      RetainedSorted(all, minLsn);
      hide AppendAll, ResetWal, Retained, SortByLsn, Truncate, Truncated;
      ResetHeaderFields(f, keep == [], c);
      if keep != [] { LastIsGreatest(keep); }
    }
  }

  lemma ResetHeaderFields(f: File, empty: bool, c: Codec)
    requires f.header.headerSize >= 72
    ensures ResetWal(f, empty, c).header.lastLsn == f.header.lastLsn
    ensures ResetWal(f, empty, c).header.lastCommitTs == f.header.lastCommitTs
  {
  }

  ghost predicate Greatest(es: multiset<Redo>, lsn: nat) {
    (exists x :: x in es && x.lsn == lsn) && forall x | x in es :: x.lsn <= lsn
  }

  lemma LastIsGreatest(es: seq<Redo>)
    requires es != [] && Sorted(es)
    ensures Greatest(multiset(es), es[|es| - 1].lsn)
  {
    assert es[|es| - 1] in multiset(es);
    forall x | x in multiset(es) ensures x.lsn <= es[|es| - 1].lsn {
      assert x in es;
      var i :| 0 <= i < |es| && es[i] == x;
    }
  }

  lemma AppendNone(f: File, c: Codec)
    requires f.header.headerSize >= 72
    ensures AppendAll(f, [], c) == f
  {
  }

  lemma RegionsEnd(f: File, c: Codec, ck: Option<Ckpt>, es: seq<Redo>)
    requires Regions(f, c, ck, es)
    ensures f.header.headerSize == HEADER_SIZE == 256 && WalEnd(f.header) <= |f.bytes|
    ensures SmallEntries(es, c) && f.header.walLength == |Frames(es, c)|
  {
  }
}
