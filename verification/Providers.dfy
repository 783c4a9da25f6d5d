/** The providers as objects. */
module Providers {
  import opened Wrap
  import opened Bytes
  import opened DbHeader
  import opened WalFile
  import opened CrashSafety
  import opened DbFile
  import opened Persistence

  class InMemoryPersistence {
    var nextLsn: nat
    var wal: seq<Redo>
    var ckpt: Option<Ckpt>

    function State(): Mem
      reads this
    {
      Mem(ckpt, wal, nextLsn)
    }

    constructor ()
      ensures State() == MEM
    {
      nextLsn, wal, ckpt := 1, [], None;
    }

    method NextLsn() returns (lsn: nat)
      modifies this`nextLsn
      ensures lsn == old(nextLsn) && nextLsn == lsn + 1
    {
      lsn := nextLsn;
      nextLsn := nextLsn + 1;
    }

    method AppendWal(e: Redo)
      modifies this`wal
      ensures wal == old(wal) + [e]
    {
      wal := wal + [e];
    }

    /** Keeps, in order, the entries at or above the bound. */
    method TruncateWalUntil(minLsn: nat) returns (removed: nat)
      modifies this`wal
      ensures wal == Retained(old(wal), minLsn) && removed == |old(wal)| - |wal|
    {
      var kept, i := [], 0;
      assert wal[0..] == wal;
      assert [] + Retained(wal, minLsn) == Retained(wal, minLsn);
      while i < |wal|
        invariant 0 <= i <= |wal| && |kept| <= i
        invariant Retained(wal, minLsn) == kept + Retained(wal[i..], minLsn)
      {
        assert wal[i..][1..] == wal[i + 1..];
        if wal[i].lsn >= minLsn { kept := kept + [wal[i]]; }
        i := i + 1;
      }
      assert kept + [] == kept;
      removed := |wal| - |kept|;
      wal := kept;
    }

    method WriteCheckpoint(k: Ckpt)
      modifies this`ckpt
      ensures ckpt == Some(k)
    {
      ckpt := Some(k);
    }

    method Log(txn: nat, op: int)
      modifies this
      ensures State() == MemStep(old(State()), Persistence.Op.Log(txn, op))
    {
      var lsn := NextLsn();
      AppendWal(Redo(lsn, txn, op));
    }

    method Snapshot(commitTs: nat, graph: int)
      modifies this
      ensures State() == MemStep(old(State()), Persistence.Op.Snapshot(commitTs, graph))
    {
      var lsn := nextLsn;
      WriteCheckpoint(Ckpt(lsn, commitTs, graph));
      var _ := TruncateWalUntil(lsn);
    }
  }

  class DbFilePersistence {
    const file: DbFile
    var nextLsn: nat
    ghost var ck: Option<Ckpt>
    ghost var es: seq<Redo>

    ghost predicate Valid()
      reads this, file
    {
      Faithful(file.codec) && Holds(file.File(), file.codec, ck, es)
    }

    ghost function Store(): FileStore
      reads this, file
    {
      FileStore(file.File(), nextLsn)
    }

    constructor (codec: Codec)
      requires Faithful(codec)
      ensures Valid() && fresh(file) && file.codec == codec && Store() == NewStore(codec)
    {
      var f := new DbFile.Create(codec);
      file := f;
      nextLsn := 1;
      ck, es := None, [];
      new;
      NewHolds(codec);
      assert file.File() == NewFile(codec);
    }

    /** The counter continues after the last LSN recorded in the header. */
    method Reseed()
      modifies this`nextLsn
      ensures nextLsn == file.header.lastLsn + 1
    {
      nextLsn := file.header.lastLsn + 1;
    }

    method NextLsn() returns (lsn: nat)
      modifies this`nextLsn
      ensures lsn == old(nextLsn) && nextLsn == lsn + 1
    {
      lsn := nextLsn;
      nextLsn := nextLsn + 1;
    }

    method Log(txn: nat, op: int)
      requires Valid() && Room(file.header, Redo(nextLsn, txn, op), file.codec)
      modifies this, file
      ensures Valid() && es == old(es) + [Redo(old(nextLsn), txn, op)] && ck == old(ck)
      ensures old(file.header.headerSize) == HEADER_SIZE
      ensures Store() == FileStep(old(Store()), Persistence.Op.Log(txn, op), file.codec)
    {
      var lsn := NextLsn();
      var e := Redo(lsn, txn, op);
      ghost var f0 := file.File();
      RegionsEnd(f0, file.codec, ck, es);
      AppendRegions(f0, e, file.codec, ck, es);
      hide Holds, Regions, Faithful;
      file.AppendWal(e);
      es := es + [e];
    }

    method Snapshot(commitTs: nat, graph: int)
      requires Valid() && CkRoom(Ckpt(nextLsn, commitTs, graph), file.codec)
      modifies this, file
      ensures Valid() && es == [] && ck == Some(Ckpt(old(nextLsn), commitTs, graph))
      ensures old(file.header.headerSize) == HEADER_SIZE
      ensures Store() == FileStep(old(Store()), Persistence.Op.Snapshot(commitTs, graph), file.codec)
    {
      var k := Ckpt(nextLsn, commitTs, graph);
      ghost var f0 := file.File();
      RegionsEnd(f0, file.codec, ck, es);
      RegionsStart(f0, file.codec, ck, es);
      CheckpointHolds(f0, k, file.codec, ck, es);
      CheckpointFits(f0, k, file.codec, ck, es);
      hide Holds, Regions, Faithful, Checkpoint, Truncate, Truncated;
      file.WriteCheckpoint(k);
      ck, es := Some(k), [];
      TruncateHolds(file.File(), k.lsn, file.codec, ck, es);
      var _ := file.TruncateWalUntil(k.lsn);
      TruncatedNothing(k.lsn);
    }
  }

  lemma RegionsStart(f: File, c: Codec, ck: Option<Ckpt>, es: seq<Redo>)
    requires Regions(f, c, ck, es)
    ensures f.header.ckOffset <= |f.bytes|
  {
  }

  lemma CheckpointFits(f: File, k: Ckpt, c: Codec, ck: Option<Ckpt>, es: seq<Redo>)
    requires Faithful(c) && Regions(f, c, ck, es) && CkRoom(k, c)
    ensures f.header.headerSize >= 72 && WalEnd(Checkpoint(f, k, c).header) < U64
  {
  }

  lemma TruncatedNothing(minLsn: nat)
    ensures Truncated([], minLsn) == []
  {
  }
}
