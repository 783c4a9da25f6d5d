/** Every run over one database file refines a checkpoint and a list of entries. */
module FileRuns {
  import opened Wrap
  import opened Bytes
  import opened DbHeader
  import opened WalFile

  datatype FileOp = AppendOp(e: Redo) | CheckpointOp(k: Ckpt) | TruncateOp(minLsn: nat) | ReopenOp

  /** The last checkpoint, how often each entry is held, and the two numbers the header remembers. */
  datatype Abstract = Abstract(ck: Option<Ckpt>, es: multiset<Redo>, lastLsn: nat, lastCommitTs: nat)

  ghost predicate AStep(a: Abstract, op: FileOp, a': Abstract) {
    match op
    case AppendOp(e) => a' == a.(es := a.es + multiset{e}, lastLsn := e.lsn)
    case CheckpointOp(k) => a' == Abstract(Some(k), multiset{}, k.lsn, k.commitTs)
    case TruncateOp(minLsn) =>
      && a'.ck == a.ck && a'.lastCommitTs == a.lastCommitTs && AtLeast(a'.es, a.es, minLsn)
      && if a'.es == a.es || a'.es == multiset{} then a'.lastLsn == a.lastLsn else Greatest(a'.es, a'.lastLsn)
    case ReopenOp => a' == a
  }

  /** `states` are the abstract states of a run from `a`, the last included. */
  ghost predicate ARun(states: seq<Abstract>, a: Abstract, ops: seq<FileOp>) {
    |states| == |ops| + 1 && states[0] == a && forall i | 0 <= i < |ops| :: AStep(states[i], ops[i], states[i + 1])
  }

  const NOTHING := Abstract(None, multiset{}, 0, 0)

  /** One operation on the bytes; reopening replaces the cached header by the decoded one. */
  function FStep(f: File, op: FileOp, c: Codec): Result<File>
    requires f.header.headerSize >= 72
  {
    match op
    case AppendOp(e) => Ok(Append(f, e, c))
    case CheckpointOp(k) => Ok(Checkpoint(f, k, c))
    case TruncateOp(minLsn) => Truncate(f, minLsn, c)
    case ReopenOp =>
      var r := Decode(f.bytes, c.crc);
      if r.Good? then Ok(File(f.bytes, r.header)) else Err(Io)
  }

  ghost predicate OpFits(f: File, op: FileOp, c: Codec) {
    match op
    case AppendOp(e) => Room(f.header, e, c)
    case CheckpointOp(k) => CkRoom(k, c)
    case TruncateOp(_) => WalEnd(f.header) < U64
    case ReopenOp => true
  }

  /** The states of a run: every operation succeeds and stays within the format's words. */
  ghost predicate IsRun(f: File, ops: seq<FileOp>, c: Codec, f': File)
    decreases |ops|
  {
    if ops == [] then f' == f
    else
      && OpFits(f, ops[0], c)
      && (f.header.headerSize >= 72 ==>
            FStep(f, ops[0], c).Ok? ==> IsRun(FStep(f, ops[0], c).value, ops[1..], c, f'))
  }

  /** The entries a file holds after an operation. */
  function After(es: seq<Redo>, op: FileOp): seq<Redo> {
    match op
    case AppendOp(e) => es + [e]
    case CheckpointOp(k) => []
    case TruncateOp(minLsn) => Truncated(es, minLsn)
    case ReopenOp => es
  }

  function CkAfter(ck: Option<Ckpt>, op: FileOp): Option<Ckpt> { if op.CheckpointOp? then Some(op.k) else ck }

  function Of(f: File, ck: Option<Ckpt>, es: seq<Redo>): Abstract {
    Abstract(ck, multiset(es), f.header.lastLsn, f.header.lastCommitTs)
  }

  lemma StepIs(f: File, op: FileOp, c: Codec, ck: Option<Ckpt>, es: seq<Redo>)
    requires Faithful(c) && Holds(f, c, ck, es) && OpFits(f, op, c) && f.header.headerSize >= 72 && FStep(f, op, c).Ok?
    ensures AStep(Of(f, ck, es), op, Of(FStep(f, op, c).value, CkAfter(ck, op), After(es, op)))
  {
    match op
    case AppendOp(e) => AppendHeaderFields(f, e, c);
    case CheckpointOp(k) =>
    case TruncateOp(minLsn) => TruncateIs(f, minLsn, c, ck, es);
    case ReopenOp => hide Decode; HoldsReads(f, c, ck, es);
  }

  lemma TruncateIs(f: File, minLsn: nat, c: Codec, ck: Option<Ckpt>, es: seq<Redo>)
    requires Faithful(c) && Holds(f, c, ck, es) && WalEnd(f.header) < U64 && f.header.headerSize >= 72 && Truncate(f, minLsn, c).Ok?
    ensures AStep(Of(f, ck, es), TruncateOp(minLsn), Of(Truncate(f, minLsn, c).value, ck, Truncated(es, minLsn)))
  {
    HoldsSplit(f, c, ck, es);
    RegionsEnd(f, c, ck, es);
    hide Holds, Regions, Faithful, Truncate, Truncated, Greatest, AtLeast;
    TruncatedExact(es, minLsn);
    TruncateHeader(f, minLsn, c, ck, es);
    Sizes(Truncated(es, minLsn), es, minLsn);
  }

  lemma Sizes(kept: seq<Redo>, es: seq<Redo>, minLsn: nat)
    requires AtLeast(multiset(kept), multiset(es), minLsn)
    ensures multiset(kept) == multiset{} <==> kept == []
    ensures multiset(kept) == multiset(es) ==> |kept| == |es|
    ensures |kept| == |es| ==> multiset(kept) == multiset(es)
  {
    assert |multiset(kept)| == |kept| && |multiset(es)| == |es|;
    assert multiset(kept) <= multiset(es);
    if |kept| == |es| {
      var rest := multiset(es) - multiset(kept);
      assert multiset(es) == multiset(kept) + rest;
      assert |rest| == 0;
    }
  }

  lemma StepHolds(f: File, op: FileOp, c: Codec, ck: Option<Ckpt>, es: seq<Redo>)
    requires Faithful(c) && Holds(f, c, ck, es) && OpFits(f, op, c)
    ensures f.header.headerSize >= 72 && FStep(f, op, c).Ok?
    ensures Holds(FStep(f, op, c).value, c, CkAfter(ck, op), After(es, op))
  {
    HoldsSplit(f, c, ck, es);
    RegionsEnd(f, c, ck, es);
    hide Holds, Regions, Faithful, Append, Checkpoint, Truncate, Truncated, Decode, CkRoom, Room;
    match op
    case AppendOp(e) => AppendRegions(f, e, c, ck, es);
    case CheckpointOp(k) => CheckpointHolds(f, k, c, ck, es);
    case TruncateOp(minLsn) => TruncateHolds(f, minLsn, c, ck, es);
    case ReopenOp => HoldsReads(f, c, ck, es);
  }

  lemma {:induction false} RunHolds(f: File, ops: seq<FileOp>, c: Codec, ck: Option<Ckpt>, es: seq<Redo>, f': File)
    returns (states: seq<Abstract>, ck': Option<Ckpt>, es': seq<Redo>)
    requires Faithful(c) && Holds(f, c, ck, es) && IsRun(f, ops, c, f')
    ensures Holds(f', c, ck', es') && ARun(states, Of(f, ck, es), ops)
    ensures states[|ops|] == Of(f', ck', es')
    decreases |ops|
  {
    hide Holds, Faithful, FStep, AStep, OpFits;
    var a := Of(f, ck, es);
    states, ck', es' := [a], ck, es;
    if ops != [] {
      StepHolds(f, ops[0], c, ck, es);
      StepIs(f, ops[0], c, ck, es);
      var rest;
      rest, ck', es' := RunHolds(FStep(f, ops[0], c).value, ops[1..], c, CkAfter(ck, ops[0]), After(es, ops[0]), f');
      states := [a] + rest;
      forall i | 0 <= i < |ops| ensures AStep(states[i], ops[i], states[i + 1]) {
        if i > 0 { assert AStep(rest[i - 1], ops[1..][i - 1], rest[i]); }
      }
    }
  }

  /** The abstract states of a run are fixed by its operations. */
  lemma {:induction false} OneRun(states: seq<Abstract>, states': seq<Abstract>, a: Abstract, ops: seq<FileOp>, n: nat)
    requires ARun(states, a, ops) && ARun(states', a, ops) && n <= |ops|
    ensures |states| == |states'| == |ops| + 1 && states[n] == states'[n]
    decreases n
  {
    if n > 0 {
      OneRun(states, states', a, ops, n - 1);
      assert AStep(states[n - 1], ops[n - 1], states[n]) && AStep(states'[n - 1], ops[n - 1], states'[n]);
      OneStep(states[n - 1], ops[n - 1], states[n], states'[n]);
    }
  }

  lemma OneStep(a: Abstract, op: FileOp, b: Abstract, b': Abstract)
    requires AStep(a, op, b) && AStep(a, op, b')
    ensures b == b'
  {
    if op.TruncateOp? {
      assert forall x :: b.es[x] == b'.es[x];
      assert b.es == b'.es;
      if b.es != a.es && b.es != multiset{} { OneGreatest(b.es, b.lastLsn, b'.lastLsn); }
    }
  }

  lemma OneGreatest(es: multiset<Redo>, x: nat, y: nat)
    requires Greatest(es, x) && Greatest(es, y)
    ensures x == y
  {
  }

  lemma StartsEmpty(c: Codec)
    ensures NOTHING == Of(NewFile(c), None, [])
  {
  }

  lemma Lengths(states: seq<Abstract>, a: Abstract, ops: seq<FileOp>)
    requires ARun(states, a, ops)
    ensures |states| == |ops| + 1
  {
  }

  lemma OfIs(f: File, ck: Option<Ckpt>, es: seq<Redo>)
    ensures Of(f, ck, es) == Abstract(ck, multiset(es), f.header.lastLsn, f.header.lastCommitTs)
  {
  }

  /** After any run from a new file, no operation fails, reopening gives the cached header, the last
      checkpoint is read back, and so are the entries appended since it and at or above every bound of a
      later truncation, as an LSN-sorted permutation; the header remembers the number of the entry appended last,
      or, after a truncation that rewrote the log, the greatest kept. */
  lemma FileRefines(ops: seq<FileOp>, c: Codec, f: File)
    requires Faithful(c) && IsRun(NewFile(c), ops, c, f)
    ensures Decode(f.bytes, c.crc) == Good(f.header)
    ensures exists states: seq<Abstract> :: ARun(states, NOTHING, ops)
    ensures forall states: seq<Abstract> | ARun(states, NOTHING, ops) ::
              var a := states[|ops|];
              && ReadCheckpoint(f, c) == Ok(a.ck)
              && ReadWal(f, c).Ok? && Sorted(ReadWal(f, c).value)
              && multiset(ReadWal(f, c).value) == a.es
              && f.header.lastLsn == a.lastLsn && f.header.lastCommitTs == a.lastCommitTs
  {
    hide *;
    NewHolds(c);
    var run, ck, es := RunHolds(NewFile(c), ops, c, None, [], f);
    HoldsReads(f, c, ck, es);
    SortSorts(es);
    OfIs(f, ck, es);
    StartsEmpty(c);
    forall states: seq<Abstract> | ARun(states, NOTHING, ops)
      ensures |states| == |ops| + 1 && states[|ops|] == Of(f, ck, es)
    {
      Lengths(states, NOTHING, ops);
      OneRun(states, run, NOTHING, ops, |ops|);
    }
  }
}
