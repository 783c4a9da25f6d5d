/** The two persistence providers, the checkpoint procedure over them, and recovery. */
module Persistence {
  import opened Wrap
  import opened Bytes
  import opened DbHeader
  import opened WalFile

  datatype Mem = Mem(ckpt: Option<Ckpt>, wal: seq<Redo>, nextLsn: nat)

  datatype FileStore = FileStore(file: File, nextLsn: nat)

  /** Logging allocates an LSN and appends; a checkpoint carries the next LSN without consuming it and
      then truncates everything below it; reopening seeds the counter from the file. */
  datatype Op = Log(txn: nat, op: int) | Snapshot(commitTs: nat, graph: int) | Reopen

  function MemStep(m: Mem, op: Op): Mem {
    match op
    case Log(txn, o) => m.(wal := m.wal + [Redo(m.nextLsn, txn, o)], nextLsn := m.nextLsn + 1)
    case Snapshot(ts, g) => m.(ckpt := Some(Ckpt(m.nextLsn, ts, g)), wal := Retained(m.wal, m.nextLsn))
    case Reopen => m
  }

  function FileStep(x: FileStore, op: Op, c: Codec): FileStore
    requires x.file.header.headerSize == HEADER_SIZE
  {
    match op
    case Log(txn, o) => FileStore(Append(x.file, Redo(x.nextLsn, txn, o), c), x.nextLsn + 1)
    case Snapshot(ts, g) =>
      var k := Ckpt(x.nextLsn, ts, g);
      var f1 := Checkpoint(x.file, k, c);
      var f2 := Truncate(f1, k.lsn, c);
      FileStore(if f2.Ok? then f2.value else f1, x.nextLsn)
    case Reopen => x.(nextLsn := x.file.header.lastLsn + 1)
  }

  const MEM := Mem(None, [], 1)

  function NewStore(c: Codec): FileStore { FileStore(NewFile(c), 1) }

  /** The step fits the file format's words. */
  ghost predicate StepFits(x: FileStore, op: Op, c: Codec) {
    match op
    case Log(txn, o) => Room(x.file.header, Redo(x.nextLsn, txn, o), c)
    case Snapshot(ts, g) => CkRoom(Ckpt(x.nextLsn, ts, g), c)
    case Reopen => true
  }

  ghost predicate Fits(x: FileStore, ops: seq<Op>, c: Codec)
    decreases |ops|
  {
    ops == [] ||
    (StepFits(x, ops[0], c) && x.file.header.headerSize == HEADER_SIZE && Fits(FileStep(x, ops[0], c), ops[1..], c))
  }

  function MemRun(m: Mem, ops: seq<Op>): Mem
    decreases |ops|
  {
    if ops == [] then m else MemRun(MemStep(m, ops[0]), ops[1..])
  }

  ghost function FileRun(x: FileStore, ops: seq<Op>, c: Codec): FileStore
    requires Fits(x, ops, c)
    decreases |ops|
  {
    if ops == [] then x else FileRun(FileStep(x, ops[0], c), ops[1..], c)
  }

  predicate SameEntry(a: Redo, b: Redo) { a.txn == b.txn && a.op == b.op }

  predicate SameEntries(w: seq<Redo>, es: seq<Redo>) {
    |w| == |es| && forall i | 0 <= i < |w| :: SameEntry(w[i], es[i])
  }

  predicate SameCkpt(a: Option<Ckpt>, b: Option<Ckpt>) {
    a.Some? == b.Some? && (a.Some? ==> a.value.commitTs == b.value.commitTs && a.value.graph == b.value.graph)
  }

  /** LSNs ascend strictly, lie between the checkpoint's and the next one. */
  ghost predicate LsnsOk(ckpt: Option<Ckpt>, es: seq<Redo>, bound: nat) {
    && (forall i, j | 0 <= i < j < |es| :: es[i].lsn < es[j].lsn)
    && (forall e | e in es :: e.lsn < bound && (ckpt.Some? ==> ckpt.value.lsn <= e.lsn))
    && (ckpt.Some? ==> ckpt.value.lsn <= bound)
  }

  /** `exact` while the file has not been reopened: then even the LSNs agree. */
  ghost predicate Agree(m: Mem, x: FileStore, c: Codec, ck: Option<Ckpt>, es: seq<Redo>, exact: bool) {
    && Holds(x.file, c, ck, es) && SameEntries(m.wal, es) && SameCkpt(m.ckpt, ck)
    && LsnsOk(m.ckpt, m.wal, m.nextLsn) && LsnsOk(ck, es, x.nextLsn)
    && LsnsOk(ck, es, x.file.header.lastLsn + 1)
    && (exact ==> m.wal == es && m.ckpt == ck && m.nextLsn == x.nextLsn)
  }

  lemma {:induction false} AllBelow(es: seq<Redo>, minLsn: nat)
    requires forall e | e in es :: e.lsn < minLsn
    ensures Retained(es, minLsn) == []
  {
    if es != [] { AllBelow(es[1..], minLsn); }
  }

  lemma {:induction false} AllAbove(es: seq<Redo>, minLsn: nat)
    requires forall e | e in es :: e.lsn >= minLsn
    ensures Retained(es, minLsn) == es
  {
    if es != [] {
      AllAbove(es[1..], minLsn);
      assert es == [es[0]] + es[1..];
    }
  }

  lemma LsnsGrow(ckpt: Option<Ckpt>, es: seq<Redo>, bound: nat, e: Redo)
    requires LsnsOk(ckpt, es, bound) && bound <= e.lsn
    ensures LsnsOk(ckpt, es + [e], e.lsn + 1)
  {
  }

  lemma SameGrow(w: seq<Redo>, es: seq<Redo>, a: Redo, b: Redo)
    requires SameEntries(w, es) && SameEntry(a, b)
    ensures SameEntries(w + [a], es + [b])
  {
  }

  lemma LogAgrees(m: Mem, x: FileStore, txn: nat, o: int, c: Codec, ck: Option<Ckpt>, es: seq<Redo>, exact: bool)
    requires Faithful(c) && Agree(m, x, c, ck, es, exact) && StepFits(x, Log(txn, o), c)
    requires x.file.header.headerSize == HEADER_SIZE
    ensures Agree(MemStep(m, Log(txn, o)), FileStep(x, Log(txn, o), c), c, ck, es + [Redo(x.nextLsn, txn, o)], exact)
  {
    var e, e' := Redo(x.nextLsn, txn, o), Redo(m.nextLsn, txn, o);
    hide *;
    AgreeFacts(m, x, c, ck, es, exact);
    HoldsSplit(x.file, c, ck, es);
    assert Room(x.file.header, e, c) by { LogFits(x, txn, o, c); }
    AppendRegions(x.file, e, c, ck, es);
    assert SameEntry(e', e) by { SameBody(e', e); }
    SameGrow(m.wal, es, e', e);
    LsnsGrow(ck, es, x.nextLsn, e);
    LsnsGrow(m.ckpt, m.wal, m.nextLsn, e');
    LogSteps(m, x, txn, o, c);
    AgreeIntro(MemStep(m, Log(txn, o)), FileStep(x, Log(txn, o), c), c, ck, es + [e], exact);
  }

  lemma SameBody(a: Redo, b: Redo)
    requires a.txn == b.txn && a.op == b.op
    ensures SameEntry(a, b)
  {
  }

  lemma LogFits(x: FileStore, txn: nat, o: int, c: Codec)
    requires StepFits(x, Log(txn, o), c)
    ensures Room(x.file.header, Redo(x.nextLsn, txn, o), c)
  {
  }

  lemma LogSteps(m: Mem, x: FileStore, txn: nat, o: int, c: Codec)
    requires x.file.header.headerSize == HEADER_SIZE
    ensures MemStep(m, Log(txn, o)) == Mem(m.ckpt, m.wal + [Redo(m.nextLsn, txn, o)], m.nextLsn + 1)
    ensures FileStep(x, Log(txn, o), c) == FileStore(Append(x.file, Redo(x.nextLsn, txn, o), c), x.nextLsn + 1)
  {
    hide Append;
  }

  lemma AgreeFacts(m: Mem, x: FileStore, c: Codec, ck: Option<Ckpt>, es: seq<Redo>, exact: bool)
    requires Agree(m, x, c, ck, es, exact)
    ensures Holds(x.file, c, ck, es) && SameEntries(m.wal, es) && SameCkpt(m.ckpt, ck)
    ensures LsnsOk(m.ckpt, m.wal, m.nextLsn) && LsnsOk(ck, es, x.nextLsn) && LsnsOk(ck, es, x.file.header.lastLsn + 1)
    ensures exact ==> m.wal == es && m.ckpt == ck && m.nextLsn == x.nextLsn
  {
    hide Holds, SameEntries, SameCkpt, LsnsOk;
  }

  lemma AgreeIntro(m: Mem, x: FileStore, c: Codec, ck: Option<Ckpt>, es: seq<Redo>, exact: bool)
    requires Holds(x.file, c, ck, es) && SameEntries(m.wal, es) && SameCkpt(m.ckpt, ck)
    requires LsnsOk(m.ckpt, m.wal, m.nextLsn) && LsnsOk(ck, es, x.nextLsn) && LsnsOk(ck, es, x.file.header.lastLsn + 1)
    requires exact ==> m.wal == es && m.ckpt == ck && m.nextLsn == x.nextLsn
    ensures Agree(m, x, c, ck, es, exact)
  {
    hide Holds, SameEntries, SameCkpt, LsnsOk;
  }

  lemma SnapshotAgrees(m: Mem, x: FileStore, ts: nat, g: int, c: Codec, ck: Option<Ckpt>, es: seq<Redo>, exact: bool)
    requires Faithful(c) && Agree(m, x, c, ck, es, exact) && StepFits(x, Snapshot(ts, g), c)
    requires x.file.header.headerSize == HEADER_SIZE
    ensures Agree(MemStep(m, Snapshot(ts, g)), FileStep(x, Snapshot(ts, g), c), c, Some(Ckpt(x.nextLsn, ts, g)), [], exact)
  {
    var k := Ckpt(x.nextLsn, ts, g);
    hide *;
    AgreeFacts(m, x, c, ck, es, exact);
    HoldsSplit(x.file, c, ck, es);
    RegionsEnd(x.file, c, ck, es);
    assert CkRoom(k, c) by { SnapshotRoom(x, ts, g, c); }
    CheckpointHolds(x.file, k, c, ck, es);
    var f1 := Checkpoint(x.file, k, c);
    HoldsSplit(f1, c, Some(k), []);
    RegionsEnd(f1, c, Some(k), []);
    HoldsReads(f1, c, Some(k), []);
    BelowNext(m.ckpt, m.wal, m.nextLsn);
    SortNothing();
    SnapshotSteps(m, x, ts, g, c);
    FreshLsns(k);
    FreshLsns(Ckpt(m.nextLsn, ts, g));
    AgreeIntro(MemStep(m, Snapshot(ts, g)), FileStep(x, Snapshot(ts, g), c), c, Some(k), [], exact);
  }

  lemma SnapshotRoom(x: FileStore, ts: nat, g: int, c: Codec)
    requires StepFits(x, Snapshot(ts, g), c)
    ensures CkRoom(Ckpt(x.nextLsn, ts, g), c)
  {
  }

  lemma BelowNext(ck: Option<Ckpt>, es: seq<Redo>, bound: nat)
    requires LsnsOk(ck, es, bound)
    ensures Retained(es, bound) == []
  {
    AllBelow(es, bound);
  }

  lemma FreshLsns(k: Ckpt)
    ensures LsnsOk(Some(k), [], k.lsn) && LsnsOk(Some(k), [], k.lsn + 1)
    ensures SameEntries([], []) && forall k': Ckpt :: k'.commitTs == k.commitTs && k'.graph == k.graph ==> SameCkpt(Some(k'), Some(k))
  {
  }

  lemma SnapshotSteps(m: Mem, x: FileStore, ts: nat, g: int, c: Codec)
    requires x.file.header.headerSize == HEADER_SIZE
    requires var f1 := Checkpoint(x.file, Ckpt(x.nextLsn, ts, g), c); f1.header.headerSize >= 72 && ReadWal(f1, c) == Ok([])
    ensures MemStep(m, Snapshot(ts, g)) == Mem(Some(Ckpt(m.nextLsn, ts, g)), Retained(m.wal, m.nextLsn), m.nextLsn)
    ensures FileStep(x, Snapshot(ts, g), c) == FileStore(Checkpoint(x.file, Ckpt(x.nextLsn, ts, g), c), x.nextLsn)
  {
    hide Checkpoint, ReadWal;
  }

  lemma StepAgrees(m: Mem, x: FileStore, op: Op, c: Codec, ck: Option<Ckpt>, es: seq<Redo>, exact: bool)
    returns (ck': Option<Ckpt>, es': seq<Redo>)
    requires Faithful(c) && Agree(m, x, c, ck, es, exact) && StepFits(x, op, c)
    requires x.file.header.headerSize == HEADER_SIZE
    ensures Agree(MemStep(m, op), FileStep(x, op, c), c, ck', es', exact && !op.Reopen?)
  {
    match op
    case Log(txn, o) =>
      LogAgrees(m, x, txn, o, c, ck, es, exact);
      ck', es' := ck, es + [Redo(x.nextLsn, txn, o)];
    case Snapshot(ts, g) =>
      SnapshotAgrees(m, x, ts, g, c, ck, es, exact);
      ck', es' := Some(Ckpt(x.nextLsn, ts, g)), [];
    case Reopen =>
      ck', es' := ck, es;
  }

  lemma {:induction false} RunAgrees(m: Mem, x: FileStore, ops: seq<Op>, c: Codec, ck: Option<Ckpt>, es: seq<Redo>, exact: bool)
    returns (ck': Option<Ckpt>, es': seq<Redo>)
    requires Faithful(c) && Agree(m, x, c, ck, es, exact) && Fits(x, ops, c)
    ensures Agree(MemRun(m, ops), FileRun(x, ops, c), c, ck', es', exact && Reopen !in ops)
    decreases |ops|
  {
    hide Agree, Faithful;
    ck', es' := ck, es;
    if ops != [] {
      ck', es' := StepAgrees(m, x, ops[0], c, ck, es, exact);
      ck', es' := RunAgrees(MemStep(m, ops[0]), FileStep(x, ops[0], c), ops[1..], c, ck', es', exact && !ops[0].Reopen?);
      assert ops == [ops[0]] + ops[1..];
    }
  }

  lemma StartAgrees(c: Codec)
    requires Faithful(c)
    ensures Agree(MEM, NewStore(c), c, None, [], true)
  {
    NewHolds(c);
  }

  /** Over every run, the file provider reads back exactly what the in-memory provider holds; after a
      reopen the LSNs may have moved on but entries and checkpoint are the same. */
  lemma ProvidersAgree(ops: seq<Op>, c: Codec)
    requires Faithful(c) && Fits(NewStore(c), ops, c)
    ensures var m, x := MemRun(MEM, ops), FileRun(NewStore(c), ops, c);
            var wal, ck := ReadWal(x.file, c), ReadCheckpoint(x.file, c);
            && wal.Ok? && ck.Ok? && SameEntries(m.wal, wal.value) && SameCkpt(m.ckpt, ck.value)
            && (Reopen !in ops ==> wal.value == m.wal && ck.value == m.ckpt && x.nextLsn == m.nextLsn)
  {
    hide *;
    StartAgrees(c);
    var ck, es := RunAgrees(MEM, NewStore(c), ops, c, None, [], true);
    var x := FileRun(NewStore(c), ops, c);
    RecoverAt(MemRun(MEM, ops), x, c, ck, es, Reopen !in ops);
  }

  /** Stored LSNs are pairwise distinct, ascending, and below the next one issued. */
  ghost predicate Issued(es: seq<Redo>, bound: nat) {
    && (forall i, j | 0 <= i < j < |es| :: es[i].lsn < es[j].lsn)
    && (forall i | 0 <= i < |es| :: es[i].lsn < bound)
  }

  /** Recovery data: the checkpoint, and the entries at or above its LSN. */
  function Load(f: File, c: Codec): Result<(Option<Ckpt>, seq<Redo>)> {
    var ck, wal := ReadCheckpoint(f, c), ReadWal(f, c);
    if ck.Err? then Err(ck.error)
    else if wal.Err? then Err(wal.error)
    else Ok((ck.value, Retained(wal.value, if ck.value.Some? then ck.value.value.lsn else 0)))
  }

  /** Loading returns the stored checkpoint and, in order, exactly the stored entries at or above its number. */
  lemma LoadFilters(f: File, c: Codec)
    requires Load(f, c).Ok?
    ensures ReadCheckpoint(f, c) == Ok(Load(f, c).value.0) && ReadWal(f, c).Ok?
    ensures var (ck, es) := Load(f, c).value;
            AtLeast(multiset(es), multiset(ReadWal(f, c).value), if ck.Some? then ck.value.lsn else 0)
  {
    var ck := ReadCheckpoint(f, c).value;
    RetainedExact(ReadWal(f, c).value, if ck.Some? then ck.value.lsn else 0);
  }

  /** What a run asks to be kept: the last snapshot and what was logged since. */
  datatype Wanted = Wanted(snapshot: Option<(nat, int)>, logged: seq<(nat, int)>)

  function Want(w: Wanted, op: Op): Wanted {
    match op
    case Log(txn, o) => w.(logged := w.logged + [(txn, o)])
    case Snapshot(ts, g) => Wanted(Some((ts, g)), [])
    case Reopen => w
  }

  function WantRun(w: Wanted, ops: seq<Op>): Wanted
    decreases |ops|
  {
    if ops == [] then w else WantRun(Want(w, ops[0]), ops[1..])
  }

  ghost predicate Keeps(m: Mem, w: Wanted) {
    && (m.ckpt.Some? <==> w.snapshot.Some?)
    && (m.ckpt.Some? ==> (m.ckpt.value.commitTs, m.ckpt.value.graph) == w.snapshot.value)
    && |m.wal| == |w.logged| && (forall i | 0 <= i < |m.wal| :: (m.wal[i].txn, m.wal[i].op) == w.logged[i])
    && (forall e | e in m.wal :: e.lsn < m.nextLsn)
  }

  /** The in-memory provider keeps what the run asks for, and so, by ProvidersAgree, does the file. */
  lemma {:induction false} RunKeeps(m: Mem, w: Wanted, ops: seq<Op>)
    requires Keeps(m, w)
    ensures Keeps(MemRun(m, ops), WantRun(w, ops))
    decreases |ops|
  {
    if ops != [] {
      if ops[0].Snapshot? { AllBelow(m.wal, m.nextLsn); }
      assert Keeps(MemStep(m, ops[0]), Want(w, ops[0]));
      hide Keeps, MemStep, Want;
      RunKeeps(MemStep(m, ops[0]), Want(w, ops[0]), ops[1..]);
    }
  }

  /** Reopening right after an entry was logged goes on where the counter stood; right after a snapshot, whose
      number was not drawn, it skips that number. */
  lemma ReopenCounter(x: FileStore, op: Op, c: Codec)
    requires x.file.header.headerSize == HEADER_SIZE && Faithful(c) && !op.Reopen?
    requires op.Snapshot? ==> x.nextLsn > 0
    requires op.Snapshot? ==> ReadWal(Checkpoint(x.file, Ckpt(x.nextLsn, op.commitTs, op.graph), c), c) == Ok([])
    ensures var y := FileStep(x, op, c);
            && y.file.header.headerSize == HEADER_SIZE
            && FileStep(y, Reopen, c).nextLsn == if op.Log? then y.nextLsn else y.nextLsn + 1
  {
    if op.Snapshot? {
      var f1 := Checkpoint(x.file, Ckpt(x.nextLsn, op.commitTs, op.graph), c);
      assert f1.header.lastLsn == x.nextLsn && f1.header.headerSize == HEADER_SIZE;
      hide Checkpoint, ReadWal;
      assert Truncate(f1, x.nextLsn, c) == Ok(f1);
    }
  }

  /** No two stored entries share an LSN even across reopens, nothing stored collides with what is
      issued next, and the recovery filter drops none of the entries logged since the checkpoint. */
  lemma RecoveryLosesNothing(ops: seq<Op>, c: Codec)
    requires Faithful(c) && Fits(NewStore(c), ops, c)
    ensures var m, x := MemRun(MEM, ops), FileRun(NewStore(c), ops, c);
            var wal, load := ReadWal(x.file, c), Load(x.file, c);
            && wal.Ok? && load.Ok? && load.value.1 == wal.value && SameEntries(m.wal, load.value.1)
            && Issued(wal.value, x.nextLsn) && Issued(wal.value, x.file.header.lastLsn + 1)
  {
    hide *;
    StartAgrees(c);
    var ck, es := RunAgrees(MEM, NewStore(c), ops, c, None, [], true);
    var m, x := MemRun(MEM, ops), FileRun(NewStore(c), ops, c);
    RecoverAt(m, x, c, ck, es, Reopen !in ops);
  }

  lemma RecoverAt(m: Mem, x: FileStore, c: Codec, ck: Option<Ckpt>, es: seq<Redo>, exact: bool)
    requires Faithful(c) && Agree(m, x, c, ck, es, exact)
    ensures ReadWal(x.file, c) == Ok(es) && Load(x.file, c) == Ok((ck, es)) && SameEntries(m.wal, es)
    ensures Issued(es, x.nextLsn) && Issued(es, x.file.header.lastLsn + 1)
    ensures ReadCheckpoint(x.file, c) == Ok(ck) && SameCkpt(m.ckpt, ck)
    ensures exact ==> m.wal == es && m.ckpt == ck && m.nextLsn == x.nextLsn
  {
    HoldsReads(x.file, c, ck, es);
    LsnsUse(ck, es, x.nextLsn);
    LsnsUse(ck, es, x.file.header.lastLsn + 1);
    hide Holds, Faithful, ReadWal, ReadCheckpoint, LsnsOk, Retained, SortByLsn, Issued, SameEntries;
  }

  lemma LsnsUse(ck: Option<Ckpt>, es: seq<Redo>, bound: nat)
    requires LsnsOk(ck, es, bound)
    ensures SortByLsn(es) == es && Retained(es, if ck.Some? then ck.value.lsn else 0) == es
    ensures Issued(es, bound)
  {
    SortedStays(es);
    AllAbove(es, if ck.Some? then ck.value.lsn else 0);
    forall i | 0 <= i < |es| ensures es[i].lsn < bound { assert es[i] in es; }
  }
}
