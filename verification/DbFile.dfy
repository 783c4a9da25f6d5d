/** The database file object: a cursor, a cached header, writes that wait for a sync. */
module DbFile {
  import opened Wrap
  import opened Bytes
  import opened DbHeader
  import opened WalFile
  import opened CrashSafety

  class DbFile {
    const codec: Codec
    var disk: Disk
    var cursor: nat
    var header: Header

    function File(): File
      reads this
    {
      WalFile.File.File(Visible(disk), header)
    }

    /** A new file: the header is written and synced. */
    constructor Create(codec: Codec)
      ensures this.codec == codec && File() == NewFile(codec) && disk.pending == []
    {
      this.codec := codec;
      header := Sealed(NEW, codec.crc);
      disk := Disk([], []);
      cursor := 0;
      new;
      WriteHeader();
      SyncData();
    }

    /** An existing file, before its header is read. */
    constructor Attach(codec: Codec, bytes: seq<Byte>)
      ensures this.codec == codec && disk == Disk(bytes, []) && Visible(disk) == bytes
    {
      this.codec := codec;
      disk := Disk(bytes, []);
      header := NEW;
      cursor := 0;
    }

    method ReadHeader() returns (r: HeaderResult)
      modifies this`header, this`cursor
      ensures r == Decode(Visible(disk), codec.crc)
      ensures header == if r.Good? then r.header else old(header)
    {
      cursor := 72;
      r := Decode(Visible(disk), codec.crc);
      if r.Good? { header := r.header; }
    }

    method Seek(off: nat)
      modifies this`cursor
      ensures cursor == off
    {
      cursor := off;
    }

    method WriteAll(data: seq<Byte>)
      modifies this`disk, this`cursor
      ensures disk == Act(old(disk), Put(Write(old(cursor), data)))
      ensures Visible(disk) == WriteAt(old(Visible(disk)), old(cursor), data)
      ensures cursor == old(cursor) + |data|
    {
      AppliedAppend(disk.durable, disk.pending, Write(cursor, data));
      disk := disk.(pending := disk.pending + [Write(cursor, data)]);
      cursor := cursor + |data|;
    }

    method ReadExact(n: nat) returns (r: Option<seq<Byte>>)
      modifies this`cursor
      ensures r == ReadAt(Visible(disk), old(cursor), n)
      ensures cursor == old(cursor) + if r.Some? then n else 0
    {
      r := ReadAt(Visible(disk), cursor, n);
      if r.Some? { cursor := cursor + n; }
    }

    method SyncData()
      modifies this`disk
      ensures disk == Act(old(disk), Sync) && Visible(disk) == old(Visible(disk)) && disk.pending == []
    {
      disk := Disk(Visible(disk), []);
    }

    method WriteHeader()
      requires header.headerSize >= 72
      modifies this`disk, this`cursor
      ensures disk == Act(old(disk), Put(Write(0, Encode(header))))
      ensures Visible(disk) == PutHeader(old(Visible(disk)), header)
    {
      Seek(0);
      WriteAll(Encode(header));
    }

    /** One framed record at the cursor. */
    method WriteFrame(payload: seq<Byte>)
      requires cursor <= |Visible(disk)|
      modifies this`disk, this`cursor
      ensures disk.durable == old(disk.durable)
      ensures disk.pending == old(disk.pending) +
                [Write(old(cursor), Le(|payload|, 4)), Write(old(cursor) + 4, Le(codec.crc(payload), 4)),
                 Write(old(cursor) + 8, payload)]
      ensures Visible(disk) == WriteAt(old(Visible(disk)), old(cursor), Frame(payload, codec.crc))
    {
      var sum := codec.crc(payload);
      hide WriteAt, Le, Applied;
      WriteAll(Le(|payload|, 4));
      WriteAll(Le(sum, 4));
      WriteAll(payload);
      WriteThrice(old(Visible(disk)), old(cursor), Le(|payload|, 4), Le(sum, 4), payload);
    }

    /** The record, a sync, the header, a sync. */
    method AppendWal(e: Redo)
      requires header.headerSize >= 72 && WalEnd(header) <= |Visible(disk)|
      modifies this
      ensures File() == Append(old(File()), e, codec)
      ensures old(disk.pending) == [] ==> disk == Exec(old(disk), AppendActions(old(header), e, codec))
      ensures disk.pending == []
    {
      var payload := codec.encode(e);
      ghost var d0, h0 := disk, header;
      Seek(WalEnd(header));
      WriteFrame(payload);
      ghost var d1 := disk;
      SyncData();
      ghost var d2 := disk;
      header := AppendHeader(header, e, codec);
      WriteHeader();
      ghost var d3 := disk;
      SyncData();
      if d0.pending == [] {
        var b1 := WriteAt(d0.durable, WalEnd(h0), Frame(payload, codec.crc));
        assert Visible(d0) == d0.durable;
        AppendStages(d0.durable, h0, e, codec);
        assert AppendActions(h0, e, codec)[..6] == AppendActions(h0, e, codec);
        assert disk == Disk(PutHeader(b1, header), []);
      }
    }

    method ReadFrameHere() returns (r: FrameResult)
      modifies this`cursor
      ensures r == ReadFrame(Visible(disk), old(cursor), codec.crc)
    {
      ghost var off := cursor;
      var len := ReadExact(4);
      if len.None? { return NoLength; }
      var sum := ReadExact(4);
      if sum.None? { return Cut; }
      var payload := ReadExact(FromLe(len.value));
      if payload.None? { return Cut; }
      if codec.crc(payload.value) != FromLe(sum.value) { return Corrupt; }
      return Payload(payload.value);
    }

    /** The read loop over the WAL region. */
    method ScanRegion(start: nat, end: nat) returns (r: Result<seq<Redo>>)
      modifies this`cursor
      ensures r == Scan(Visible(disk), start, end, codec)
    {
      var entries, offset := [], start;
      ghost var b := Visible(disk);
      ghost var all := Scan(b, start, end, codec);
      PrependNothing(all);
      hide Scan, Visible, ReadFrame, Prepend;
      while offset < end
        invariant all == Prepend(entries, Scan(b, offset, end, codec))
        decreases if offset < end then end - offset else 0
      {
        Seek(offset);
        var frame := ReadFrameHere();
        ScanStep(b, offset, end, codec, entries);
        match frame
        case NoLength => return Ok(entries);
        case Cut => return Err(Io);
        case Corrupt => return Err(WalChecksum(offset));
        case Payload(p) =>
          var e := codec.decode(p);
          if e.None? { return Err(Deserialization); }
          entries := entries + [e.value];
          offset := offset + RECORD_HEADER + |p|;
      }
      ScanPast(b, offset, end, codec, entries);
      r := Ok(entries);
    }

    method ReadWalEntries() returns (r: Result<seq<Redo>>)
      modifies this`cursor
      ensures r == ReadWal(File(), codec)
    {
      if !HasWal(header.flags) || header.walLength == 0 { return Ok([]); }
      r := ScanRegion(header.walOffset, WalEnd(header));
      if r.Ok? { r := Ok(SortByLsn(r.value)); }
    }

    method ReadCheckpointData() returns (r: Result<Option<Ckpt>>)
      modifies this`cursor
      ensures r == ReadCheckpoint(File(), codec)
    {
      if !HasCheckpoint(header.flags) || header.ckLength == 0 { return Ok(None); }
      Seek(header.ckOffset);
      var frame := ReadFrameHere();
      match frame
      case NoLength => r := Err(Io);
      case Cut => r := Err(Io);
      case Corrupt => r := Err(CheckpointChecksum);
      case Payload(p) =>
        var k := codec.decodeCk(p);
        r := if k.None? then Err(Deserialization) else Ok(Some(k.value));
    }

    method WriteCheckpoint(k: Ckpt)
      requires header.headerSize >= 72 && header.ckOffset <= |Visible(disk)|
      modifies this
      ensures File() == Checkpoint(old(File()), k, codec) && disk.pending == []
    {
      Seek(header.ckOffset);
      WriteFrame(codec.encodeCk(k));
      header := CheckpointHeader(header, k, codec);
      WriteHeader();
      SyncData();
    }

    /** Appends the retained entries one by one to an emptied WAL region. */
    method RewriteRetained(keep: seq<Redo>)
      requires header.headerSize >= 72 && WalEnd(header) <= |Visible(disk)|
      modifies this
      ensures File() == AppendAll(old(File()), keep, codec)
    {
      ghost var f1 := File();
      hide Append, AppendActions, Exec, Visible, AppendAll;
      var i := 0;
      assert keep[0..] == keep;
      while i < |keep|
        invariant 0 <= i <= |keep| && f1.header.headerSize >= 72
        invariant header.headerSize >= 72 && WalEnd(header) <= |Visible(disk)|
        invariant AppendAll(f1, keep, codec) == AppendAll(File(), keep[i..], codec)
      {
        Slices(keep, i);
        AppendAllHead(File(), keep[i..], codec);
        AppendEnds(File(), keep[i], codec);
        AppendWal(keep[i]);
        i := i + 1;
      }
      assert keep[|keep|..] == [];
      AppendAllNone(File(), codec);
    }

    /** Empties the WAL region. */
    method ResetRegion(empty: bool)
      requires header.headerSize >= 72
      modifies this
      ensures File() == ResetWal(old(File()), empty, codec)
    {
      ghost var f0 := File();
      hide Visible, ResetHeader, PutHeader, Encode, ResetWal;
      header := ResetHeader(header, empty, codec);
      ResetHeaderSize(f0.header, empty, codec);
      WriteHeader();
      ResetIs(f0, empty, codec);
    }

    /** Keep the entries from an LSN on; returns how many were removed. A file whose entries cannot be read
        is left alone and the error returned. */
    method TruncateWalUntil(minLsn: nat) returns (r: Result<nat>)
      requires header.headerSize >= 72
      modifies this
      ensures match Truncate(old(File()), minLsn, codec)
              case Err(e) => r == Err(e) && File() == old(File())
              case Ok(f) =>
                var all := ReadWal(old(File()), codec).value;
                File() == f && r == Ok(|all| - |Retained(all, minLsn)|)
    {
      ghost var f0 := File();
      TruncateIs(f0, minLsn, codec);
      hide Visible, ReadWal, Truncate, ResetWal, AppendAll, ResetHeader, Retained, SortByLsn, PutHeader, Encode;
      var all := ReadWalEntries();
      if all.Err? { return Err(all.error); }
      var keep := Retained(all.value, minLsn);
      if |keep| == |all.value| { return Ok(0); }
      ReadInside(f0, keep == [], codec);
      ResetRegion(keep == []);
      RewriteRetained(keep);
      SyncData();
      r := Ok(|all.value| - |keep|);
    }
  }

  function ResetHeader(h: Header, empty: bool, c: Codec): Header {
    Sealed(h.(walLength := 0, flags := if empty then ClearWal(h.flags) else h.flags), c.crc)
  }

  lemma ResetHeaderSize(h: Header, empty: bool, c: Codec)
    ensures ResetHeader(h, empty, c).headerSize == h.headerSize
  {
  }

  lemma ResetIs(f: File, empty: bool, c: Codec)
    requires f.header.headerSize >= 72
    ensures ResetWal(f, empty, c) ==
              WalFile.File.File(PutHeader(f.bytes, ResetHeader(f.header, empty, c)), ResetHeader(f.header, empty, c))
  {
  }

  function Prepend(es: seq<Redo>, r: Result<seq<Redo>>): Result<seq<Redo>> {
    if r.Err? then r else Ok(es + r.value)
  }

  lemma ScanStep(b: seq<Byte>, off: nat, end: nat, c: Codec, es: seq<Redo>)
    requires off < end
    ensures Prepend(es, Scan(b, off, end, c)) ==
              match ReadFrame(b, off, c.crc)
              case NoLength => Ok(es)
              case Cut => Err(Io)
              case Corrupt => Err(WalChecksum(off))
              case Payload(p) =>
                var e := c.decode(p);
                if e.None? then Err(Deserialization)
                else Prepend(es + [e.value], Scan(b, off + RECORD_HEADER + |p|, end, c))
  {
    var r := ReadFrame(b, off, c.crc);
    if r.NoLength? { assert es + [] == es; }
    if r.Payload? && c.decode(r.bytes).Some? {
      var e := c.decode(r.bytes).value;
      var rest := Scan(b, off + RECORD_HEADER + |r.bytes|, end, c);
      if rest.Ok? { assert es + ([e] + rest.value) == es + [e] + rest.value; }
    }
  }

  lemma ScanPast(b: seq<Byte>, off: nat, end: nat, c: Codec, es: seq<Redo>)
    requires off >= end
    ensures Prepend(es, Scan(b, off, end, c)) == Ok(es)
  {
    assert es + [] == es;
  }

  lemma PrependNothing(r: Result<seq<Redo>>)
    ensures Prepend([], r) == r
  {
    if r.Ok? { assert [] + r.value == r.value; }
  }

  lemma Slices(es: seq<Redo>, i: nat)
    requires i < |es|
    ensures es[i..] != [] && es[i..][0] == es[i] && es[i..][1..] == es[i + 1..]
  {
  }

  lemma TruncateIs(f: File, minLsn: nat, c: Codec)
    requires f.header.headerSize >= 72
    ensures var all := ReadWal(f, c);
            Truncate(f, minLsn, c) ==
              if all.Err? then Err(all.error)
              else
                var keep := Retained(all.value, minLsn);
                if |keep| == |all.value| then Ok(f) else Ok(AppendAll(ResetWal(f, keep == [], c), keep, c))
    ensures ReadWal(f, c).Ok? ==> |Retained(ReadWal(f, c).value, minLsn)| <= |ReadWal(f, c).value|
  {
    if ReadWal(f, c).Ok? { RetainedSize(ReadWal(f, c).value, minLsn, c); }
  }

  /** After an append the WAL still ends inside the file. */
  lemma AppendEnds(f: File, e: Redo, c: Codec)
    requires f.header.headerSize >= 72 && WalEnd(f.header) <= |f.bytes|
    ensures var f' := Append(f, e, c); f'.header.headerSize >= 72 && WalEnd(f'.header) <= |f'.bytes|
  {
  }

  /** If any entry was read, the WAL region starts inside the file, and does so when it is emptied. */
  lemma ReadInside(f: File, empty: bool, c: Codec)
    requires f.header.headerSize >= 72 && ReadWal(f, c).Ok? && ReadWal(f, c).value != []
    ensures var f' := ResetWal(f, empty, c);
            f'.header.headerSize >= 72 && WalEnd(f'.header) == f.header.walOffset <= |f'.bytes|
  {
  }

  lemma AppendAllNone(f: File, c: Codec)
    requires f.header.headerSize >= 72
    ensures AppendAll(f, [], c) == f
  {
  }

  lemma AppendAllHead(f: File, es: seq<Redo>, c: Codec)
    requires es != [] && f.header.headerSize >= 72
    ensures Append(f, es[0], c).header.headerSize >= 72 && AppendAll(f, es, c) == AppendAll(Append(f, es[0], c), es[1..], c)
  {
  }
}
