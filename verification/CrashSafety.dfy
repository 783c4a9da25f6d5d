/**
  Crashes.  A write is visible at once but durable only after a sync.  When the machine stops, every
  byte of the durable image is either what it was or what some unsynced write put there, bytes past
  the durable end are anything at all, and the 256-byte header is written whole or not at all.
 */
module CrashSafety {
  import opened Wrap
  import opened Bytes
  import opened DbHeader
  import opened WalFile

  datatype Write = Write(off: nat, data: seq<Byte>)

  datatype Disk = Disk(durable: seq<Byte>, pending: seq<Write>)

  datatype Action = Put(w: Write) | Sync

  function Applied(b: seq<Byte>, ws: seq<Write>): seq<Byte>
    decreases |ws|
  {
    if ws == [] then b else Applied(WriteAt(b, ws[0].off, ws[0].data), ws[1..])
  }

  /** What the running program reads. */
  function Visible(d: Disk): seq<Byte> { Applied(d.durable, d.pending) }

  function Act(d: Disk, a: Action): Disk {
    match a
    case Put(w) => d.(pending := d.pending + [w])
    case Sync => Disk(Visible(d), [])
  }

  function Exec(d: Disk, acts: seq<Action>): Disk
    decreases |acts|
  {
    if acts == [] then d else Exec(Act(d, acts[0]), acts[1..])
  }

  predicate Covers(w: Write, p: nat) { w.off <= p < w.off + |w.data| }

  ghost predicate HeaderWhole(d: Disk, img: seq<Byte>) {
    && HEADER_SIZE <= |d.durable| <= |img|
    && (img[..HEADER_SIZE] == d.durable[..HEADER_SIZE]
        || exists w | w in d.pending :: w.off == 0 && |w.data| == HEADER_SIZE && img[..HEADER_SIZE] == w.data)
  }

  ghost predicate CrashImage(d: Disk, img: seq<Byte>) {
    && HeaderWhole(d, img)
    && (forall p: nat | HEADER_SIZE <= p < |d.durable| ::
          img[p] == d.durable[p] || exists w | w in d.pending :: Covers(w, p) && img[p] == w.data[p - w.off])
  }

  /** The steps of an append: three writes, a sync, the header, a sync. */
  function AppendActions(h: Header, e: Redo, c: Codec): seq<Action>
    requires h.headerSize >= 72
  {
    var payload, off := c.encode(e), WalEnd(h);
    [Put(Write(off, Le(|payload|, 4))), Put(Write(off + 4, Le(c.crc(payload), 4))), Put(Write(off + 8, payload)),
     Sync, Put(Write(0, Encode(AppendHeader(h, e, c)))), Sync]
  }

  lemma {:induction false} AppliedAppend(b: seq<Byte>, ws: seq<Write>, w: Write)
    ensures Applied(b, ws + [w]) == WriteAt(Applied(b, ws), w.off, w.data)
    decreases |ws|
  {
    if ws == [] { assert [] + [w] == [w] && [w][1..] == []; }
    else {
      assert (ws + [w])[1..] == ws[1..] + [w];
      AppliedAppend(WriteAt(b, ws[0].off, ws[0].data), ws[1..], w);
    }
  }

  lemma {:induction false} ExecAppend(d: Disk, acts: seq<Action>, a: Action)
    ensures Exec(d, acts + [a]) == Act(Exec(d, acts), a)
    decreases |acts|
  {
    if acts == [] { assert [] + [a] == [a] && [a][1..] == []; }
    else {
      assert (acts + [a])[1..] == acts[1..] + [a];
      ExecAppend(Act(d, acts[0]), acts[1..], a);
    }
  }

  /** A file's contents depend only on the bytes before the end of its WAL region. */
  lemma PrefixHolds(f: File, img: seq<Byte>, c: Codec, ck: Option<Ckpt>, es: seq<Redo>)
    requires Holds(f, c, ck, es) && SamePrefix(f.bytes, img, WalEnd(f.header))
    ensures Holds(File(img, f.header), c, ck, es)
  {
    var h, end := f.header, WalEnd(f.header);
    HeaderLength(h);
    hide Encode, At, Frame, Frames, Fields, SmallEntries, SamePrefix;
    AtPrefix(f.bytes, img, end, 0, Encode(h));
    AtPrefix(f.bytes, img, end, h.walOffset, Frames(es, c));
    if ck.Some? { AtPrefix(f.bytes, img, end, HEADER_SIZE, Frame(c.encodeCk(ck.value), c.crc)); }
  }

  /** Writes at or past `end` cannot disturb what is durable before it. */
  lemma CrashKeepsPrefix(d: Disk, img: seq<Byte>, end: nat)
    requires CrashImage(d, img) && HEADER_SIZE <= end <= |d.durable|
    requires forall w | w in d.pending :: w.off >= end
    ensures SamePrefix(d.durable, img, end)
  {
    forall p | 0 <= p < end ensures img[p] == d.durable[p] {
      if p < HEADER_SIZE {
        assert img[..HEADER_SIZE][p] == d.durable[..HEADER_SIZE][p];
      }
    }
  }

  /** The disk after each step of three writes, a sync, a write and a sync. */
  lemma Stages(b: seq<Byte>, w0: Write, w1: Write, w2: Write, w3: Write, acts: seq<Action>)
    requires acts == [Put(w0), Put(w1), Put(w2), Sync, Put(w3), Sync]
    ensures var d := Disk(b, []);
            var b1 := Applied(b, [w0, w1, w2]);
            && Exec(d, acts[..0]) == d
            && Exec(d, acts[..1]) == Disk(b, [w0])
            && Exec(d, acts[..2]) == Disk(b, [w0, w1])
            && Exec(d, acts[..3]) == Disk(b, [w0, w1, w2])
            && Exec(d, acts[..4]) == Disk(b1, [])
            && Exec(d, acts[..5]) == Disk(b1, [w3])
            && Exec(d, acts[..6]) == Disk(WriteAt(b1, w3.off, w3.data), [])
  {
    hide WriteAt;
    var d := Disk(b, []);
    var b1 := Applied(b, [w0, w1, w2]);
    assert acts[..0] == [];
    ExecPrefix(d, acts, 0);
    assert [] + [w0] == [w0];
    ExecPrefix(d, acts, 1);
    assert [w0] + [w1] == [w0, w1];
    ExecPrefix(d, acts, 2);
    assert [w0, w1] + [w2] == [w0, w1, w2];
    ExecPrefix(d, acts, 3);
    ExecPrefix(d, acts, 4);
    assert [] + [w3] == [w3];
    ExecPrefix(d, acts, 5);
    AppliedAppend(b1, [], w3);
  }

  /** The disk after each step of an append. */
  lemma AppendStages(b: seq<Byte>, h: Header, e: Redo, c: Codec)
    requires WalEnd(h) <= |b| && h.headerSize >= 72
    ensures var acts := AppendActions(h, e, c);
            var d := Disk(b, []);
            var b1 := WriteAt(b, WalEnd(h), Frame(c.encode(e), c.crc));
            && (forall n | 0 <= n <= 3 :: Exec(d, acts[..n]).durable == b
                                       && forall w | w in Exec(d, acts[..n]).pending :: w.off >= WalEnd(h))
            && Exec(d, acts[..4]) == Disk(b1, [])
            && Exec(d, acts[..5]) == Disk(b1, [Write(0, Encode(AppendHeader(h, e, c)))])
            && Exec(d, acts[..6]) == Disk(PutHeader(b1, AppendHeader(h, e, c)), [])
  {
    var acts := AppendActions(h, e, c);
    var payload, off := c.encode(e), WalEnd(h);
    var w0, w1, w2, w3 := acts[0].w, acts[1].w, acts[2].w, acts[4].w;
    Stages(b, w0, w1, w2, w3, acts);
    ThreeWrites(b, off, w0.data, w1.data, w2.data);
    FrameParts(payload, c.crc);
    var d := Disk(b, []);
    hide Le, Encode, AppendHeader, Frame, WriteAt, Applied, AppendActions, Exec;
    forall n | 0 <= n <= 3
      ensures Exec(d, acts[..n]).durable == b && forall w | w in Exec(d, acts[..n]).pending :: w.off >= off
    {
      assert n == 0 || n == 1 || n == 2 || n == 3;
    }
  }

  lemma FrameParts(payload: seq<Byte>, crc: Crc)
    ensures Frame(payload, crc) == Le(|payload|, 4) + Le(crc(payload), 4) + payload
  {
  }

  lemma ExecPrefix(d: Disk, acts: seq<Action>, n: nat)
    requires n < |acts|
    ensures Exec(d, acts[..n + 1]) == Act(Exec(d, acts[..n]), acts[n])
  {
    assert acts[..n + 1] == acts[..n] + [acts[n]];
    ExecAppend(d, acts[..n], acts[n]);
  }

  lemma AppliedThree(b: seq<Byte>, w0: Write, w1: Write, w2: Write)
    ensures Applied(b, [w0, w1, w2]) ==
              WriteAt(WriteAt(WriteAt(b, w0.off, w0.data), w1.off, w1.data), w2.off, w2.data)
  {
    hide WriteAt;
    AppliedAppend(b, [], w0);
    AppliedAppend(b, [w0], w1);
    AppliedAppend(b, [w0, w1], w2);
    assert [] + [w0] == [w0];
    assert [w0] + [w1] == [w0, w1];
    assert [w0, w1] + [w2] == [w0, w1, w2];
  }

  lemma WriteThrice(b: seq<Byte>, off: nat, d0: seq<Byte>, d1: seq<Byte>, d2: seq<Byte>)
    requires off <= |b|
    ensures WriteAt(WriteAt(WriteAt(b, off, d0), off + |d0|, d1), off + |d0| + |d1|, d2) ==
              WriteAt(b, off, d0 + d1 + d2)
  {
    hide WriteAt;
    WriteTwice(b, off, d0, d1);
    WriteTwice(b, off, d0 + d1, d2);
  }

  lemma ThreeWrites(b: seq<Byte>, off: nat, d0: seq<Byte>, d1: seq<Byte>, d2: seq<Byte>)
    requires off <= |b| && |d0| == 4 && |d1| == 4
    ensures Applied(b, [Write(off, d0), Write(off + 4, d1), Write(off + 8, d2)]) == WriteAt(b, off, d0 + d1 + d2)
  {
    hide WriteAt, Applied;
    AppliedThree(b, Write(off, d0), Write(off + 4, d1), Write(off + 8, d2));
    WriteThrice(b, off, d0, d1, d2);
  }

  /** What reopening a file and reading it gives. */
  ghost predicate Reopens(img: seq<Byte>, c: Codec, ck: Option<Ckpt>, es: seq<Redo>) {
    var r := Decode(img, c.crc);
    && r.Good?
    && ReadCheckpoint(File(img, r.header), c) == Ok(ck)
    && ReadWal(File(img, r.header), c) == Ok(SortByLsn(es))
  }

  lemma HoldsReopens(f: File, c: Codec, ck: Option<Ckpt>, es: seq<Redo>)
    requires Faithful(c) && Holds(f, c, ck, es)
    ensures Reopens(f.bytes, c, ck, es)
  {
    HoldsReads(f, c, ck, es);
  }

  /** With only the header unsynced, the image is the old bytes or the bytes with the new header. */
  lemma HeaderImage(b: seq<Byte>, hd: seq<Byte>, img: seq<Byte>)
    requires |hd| == HEADER_SIZE && CrashImage(Disk(b, [Write(0, hd)]), img)
    ensures SamePrefix(b, img, |b|) || SamePrefix(WriteAt(b, 0, hd), img, |b|)
    ensures |b| >= HEADER_SIZE && |WriteAt(b, 0, hd)| == |b|
  {
    var d, w := Disk(b, [Write(0, hd)]), Write(0, hd);
    assert forall x | x in d.pending :: x == w;
    forall p | HEADER_SIZE <= p < |b| ensures img[p] == b[p] {}
    if img[..HEADER_SIZE] == b[..HEADER_SIZE] {
      forall p | 0 <= p < |b| ensures img[..|b|][p] == b[p] {
        if p < HEADER_SIZE { assert img[..HEADER_SIZE][p] == b[..HEADER_SIZE][p]; }
      }
      assert img[..|b|] == b[..|b|];
    } else {
      var b2 := WriteAt(b, 0, hd);
      assert b2 == hd + b[HEADER_SIZE..];
      forall p | 0 <= p < |b| ensures img[..|b|][p] == b2[p] {
        if p < HEADER_SIZE { assert img[..HEADER_SIZE][p] == hd[p]; }
      }
      assert img[..|b|] == b2[..|b|];
    }
  }

  ghost predicate Ready(f: File, e: Redo, c: Codec, ck: Option<Ckpt>, es: seq<Redo>) {
    Faithful(c) && Holds(f, c, ck, es) && Room(f.header, e, c)
  }

  /** The bytes after the record is written and before the header is. */
  function RecordWritten(f: File, e: Redo, c: Codec): seq<Byte> {
    WriteAt(f.bytes, WalEnd(f.header), Frame(c.encode(e), c.crc))
  }

  lemma ReadyFacts(f: File, e: Redo, c: Codec, ck: Option<Ckpt>, es: seq<Redo>)
    requires Ready(f, e, c, ck, es)
    ensures Faithful(c) && Layout(f.header, c.crc) && Room(f.header, e, c)
    ensures f.header.headerSize == HEADER_SIZE <= WalEnd(f.header) <= |f.bytes|
    ensures Holds(Append(f, e, c), c, ck, es + [e])
    ensures |Encode(AppendHeader(f.header, e, c))| == HEADER_SIZE
    ensures WalEnd(Append(f, e, c).header) <= |Append(f, e, c).bytes|
    ensures |RecordWritten(f, e, c)| >= WalEnd(Append(f, e, c).header)
    ensures SamePrefix(f.bytes, RecordWritten(f, e, c), WalEnd(f.header))
  {
    AppendRegions(f, e, c, ck, es);
    AppendLayout(f.header, e, c);
    HeaderLength(AppendHeader(f.header, e, c));
    RegionsEnd(f, c, ck, es);
    RegionsEnd(Append(f, e, c), c, ck, es + [e]);
    hide At, Encode, Fields, Frames, Faithful, SmallEntries, Regions;
    WritePrefix(f.bytes, WalEnd(f.header), Frame(c.encode(e), c.crc), WalEnd(f.header));
  }

  lemma CrashBeforeHeader(f: File, e: Redo, c: Codec, ck: Option<Ckpt>, es: seq<Redo>, d: Disk, img: seq<Byte>)
    requires Ready(f, e, c, ck, es) && CrashImage(d, img)
    requires d.durable == f.bytes || d.durable == RecordWritten(f, e, c)
    requires forall w | w in d.pending :: w.off >= WalEnd(f.header)
    ensures Reopens(img, c, ck, es)
  {
    ReadyFacts(f, e, c, ck, es);
    hide RecordWritten, Append, Holds, Layout, Room, Reopens, CrashImage, Faithful, SamePrefix, Ready;
    var end := WalEnd(f.header);
    if d.durable == f.bytes {
      CrashKeepsPrefix(d, img, end);
    } else {
      RecordLonger(f, e, c);
      CrashKeepsPrefix(d, img, end);
      PrefixTrans(f.bytes, d.durable, img, end);
    }
    OldImage(f, img, c, ck, es);
  }

  lemma RecordLonger(f: File, e: Redo, c: Codec)
    ensures |RecordWritten(f, e, c)| >= |f.bytes|
  {
  }

  lemma CrashInHeader(f: File, e: Redo, c: Codec, ck: Option<Ckpt>, es: seq<Redo>, img: seq<Byte>)
    requires Ready(f, e, c, ck, es)
    requires f.header.headerSize >= 72
    requires CrashImage(Disk(RecordWritten(f, e, c), [Write(0, Encode(AppendHeader(f.header, e, c)))]), img)
    ensures Reopens(img, c, ck, es) || Reopens(img, c, ck, es + [e])
  {
    ReadyFacts(f, e, c, ck, es);
    var b1, f' := RecordWritten(f, e, c), Append(f, e, c);
    RecordLonger(f, e, c);
    assert f'.bytes == WriteAt(b1, 0, Encode(f'.header)) && f'.header == AppendHeader(f.header, e, c);
    hide RecordWritten, Append, Holds, Layout, Room, Reopens, CrashImage, Faithful, SamePrefix, WriteAt, Encode, Ready, AppendHeader;
    HeaderImage(b1, Encode(f'.header), img);
    if SamePrefix(b1, img, |b1|) {
      ShorterPrefix(b1, img, |b1|, WalEnd(f.header));
      PrefixTrans(f.bytes, b1, img, WalEnd(f.header));
      OldImage(f, img, c, ck, es);
    } else {
      ShorterPrefix(f'.bytes, img, |b1|, WalEnd(f'.header));
      OldImage(f', img, c, ck, es + [e]);
    }
  }

  /**
    Crash-safe append: wherever the machine stops inside an append, and whatever unsynced bytes
    survive, reopening succeeds and finds the old entries or the old entries and the new one.
   */
  lemma AppendCrashSafe(f: File, e: Redo, c: Codec, ck: Option<Ckpt>, es: seq<Redo>, n: nat, img: seq<Byte>)
    requires Faithful(c) && Holds(f, c, ck, es) && Room(f.header, e, c)
    requires n <= 6 && CrashImage(Exec(Disk(f.bytes, []), AppendActions(f.header, e, c)[..n]), img)
    ensures Reopens(img, c, ck, es) || Reopens(img, c, ck, es + [e])
    ensures n <= 4 ==> Reopens(img, c, ck, es)
    ensures n == 6 ==> Reopens(img, c, ck, es + [e])
  {
    ReadyFacts(f, e, c, ck, es);
    AppendStages(f.bytes, f.header, e, c);
    var acts := AppendActions(f.header, e, c);
    var d, f' := Exec(Disk(f.bytes, []), acts[..n]), Append(f, e, c);
    assert n == 6 ==> d == Disk(f'.bytes, []);
    assert n == 4 ==> d == Disk(RecordWritten(f, e, c), []);
    assert n == 5 ==> d == Disk(RecordWritten(f, e, c), [Write(0, Encode(AppendHeader(f.header, e, c)))]);
    hide Holds, Layout, Room, Reopens, CrashImage, Faithful, Exec, AppendActions, Encode, Frame, WriteAt, Append,
         RecordWritten, AppendHeader, SamePrefix;
    if n <= 4 {
      assert Ready(f, e, c, ck, es);
      CrashBeforeHeader(f, e, c, ck, es, d, img);
    } else if n == 5 {
      CrashInHeader(f, e, c, ck, es, img);
    } else {
      CrashKeepsPrefix(d, img, WalEnd(f'.header));
      OldImage(f', img, c, ck, es + [e]);
    }
  }

  lemma OldImage(f: File, img: seq<Byte>, c: Codec, ck: Option<Ckpt>, es: seq<Redo>)
    requires Faithful(c) && Holds(f, c, ck, es) && SamePrefix(f.bytes, img, WalEnd(f.header))
    ensures Reopens(img, c, ck, es)
  {
    PrefixHolds(f, img, c, ck, es);
    HoldsReopens(File(img, f.header), c, ck, es);
  }
}
