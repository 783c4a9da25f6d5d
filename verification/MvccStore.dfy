/**
  The transactional (TP) multi-version store: version chains, undo entries, snapshot reads,
  pessimistic writes, commit, abort, watermark and garbage collection.

  A chain is a head record with a stamp, and a pointer to the newest undo entry.  Undo entries are
  immutable and point to older ones; each is owned by the undo buffer of the transaction that wrote
  it, and chain pointers are weak, so an entry can be followed only while its owner is kept.
 */
module MvccStore {
  import opened Wrap
  import opened Stamps

  /** Property values are only copied and compared. */
  type Value = int

  datatype Key = VertexKey(vid: nat) | EdgeKey(eid: nat)

  datatype Record = Record(labelId: nat, props: seq<Value>, dead: bool)

  datatype Delta =
    | Restore(original: Record)
    | SetBack(indices: seq<nat>, props: seq<Value>)
    | MarkDead

  datatype Undo = Null | Entry(owner: nat, delta: Delta, ts: nat, next: Undo)

  datatype Chain = Chain(rec: Record, ts: nat, undo: Undo)

  datatype Item = Item(key: Key, entry: Undo)

  /** `drawn` is the commit timestamp, taken before the commit lock is. */
  datatype Txn = Txn(start: nat, drawn: Option<nat>, buf: seq<Item>)

  /** `done` maps the commit timestamp of a finished, not yet collected transaction to its id, `kept`
      to its undo buffer. */
  datatype Store = Store(
    chains: map<Key, Chain>,
    active: map<nat, Txn>,
    done: map<nat, nat>,
    kept: map<nat, seq<Item>>,
    latest: nat,
    watermark: nat,
    nextTs: nat,
    nextId: nat)

  const EMPTY := Store(map[], map[], map[], map[], 0, 0, 1, TXN_ID_START + 1)

  // ----- records and deltas -----

  function SetProps(r: Record, indices: seq<nat>, props: seq<Value>): Record
    decreases |indices|
  {
    if indices == [] || props == [] then r
    else
      var r' := if indices[0] < |r.props| then r.(props := r.props[indices[0] := props[0]]) else r;
      SetProps(r', indices[1..], props[1..])
  }

  /** What a reader sees of a record: a tombstone is nothing. */
  function View(r: Record): Option<Record> { if r.dead then None else Some(r) }

  /** Undo as a reader does it. */
  function ApplyDelta(d: Delta, r: Record): Record {
    match d
    case Restore(original) => original
    case SetBack(indices, props) => SetProps(r, indices, props)
    case MarkDead => r.(dead := true)
  }

  /** Undo as abort does it: a restored image always has its tombstone flag cleared. */
  function AbortDelta(d: Delta, r: Record): Record {
    match d
    case Restore(original) => original.(dead := false)
    case SetBack(indices, props) => SetProps(r, indices, props)
    case MarkDead => r.(dead := true)
  }

  // ----- reads -----

  function Live(s: Store): set<nat> { s.active.Keys + s.done.Values }

  predicate Sees(ts: nat, t: nat, start: nat) {
    (IsTxnId(ts) && ts == t) || (!IsTxnId(ts) && ts <= start)
  }

  /** The undo walk: apply deltas until one leads to a version older than `start`. */
  function Walk(u: Undo, live: set<nat>, r: Record, start: nat): Record {
    if u.Null? || u.owner !in live then r
    else
      var r' := ApplyDelta(u.delta, r);
      if u.ts < start then r' else Walk(u.next, live, r', start)
  }

  function ReadChain(c: Chain, live: set<nat>, t: nat, start: nat): Option<Record> {
    View(if Sees(c.ts, t, start) then c.rec else Walk(c.undo, live, c.rec, start))
  }

  function Read(s: Store, t: nat, k: Key): Option<Record>
    requires t in s.active
  {
    if k in s.chains then ReadChain(s.chains[k], Live(s), t, s.active[t].start) else None
  }

  // ----- writes -----

  /** The pessimistic conflict check. */
  predicate Writable(ts: nat, t: nat, start: nat) {
    !(IsTxnId(ts) && ts != t) && !(!IsTxnId(ts) && ts > start)
  }

  predicate Running(s: Store, t: nat) { t in s.active && s.active[t].drawn.None? }

  function Push(s: Store, t: nat, k: Key, c: Chain): Store
    requires t in s.active && c.undo.Entry?
  {
    var txn := s.active[t];
    s.(chains := s.chains[k := c], active := s.active[t := txn.(buf := txn.buf + [Item(k, c.undo)])])
  }

  predicate InRange(indices: seq<nat>, r: Record) {
    forall i | 0 <= i < |indices| :: indices[i] < |r.props|
  }

  function Saved(r: Record, indices: seq<nat>): seq<Value>
    requires InRange(indices, r)
  {
    seq(|indices|, i requires 0 <= i < |indices| => r.props[indices[i]])
  }

  predicate CanWrite(s: Store, t: nat, k: Key) {
    Running(s, t) && k in s.chains && Writable(s.chains[k].ts, t, s.active[t].start)
  }

  function DoSet(s: Store, t: nat, k: Key, indices: seq<nat>, props: seq<Value>): Store {
    if CanWrite(s, t, k) && InRange(indices, s.chains[k].rec) then
      var c := s.chains[k];
      var e := Entry(t, SetBack(indices, Saved(c.rec, indices)), c.ts, c.undo);
      Push(s, t, k, Chain(SetProps(c.rec, indices, props), t, e))
    else s
  }

  function DoDelete(s: Store, t: nat, k: Key): Store {
    if CanWrite(s, t, k) then
      var c := s.chains[k];
      Push(s, t, k, Chain(c.rec.(dead := true), t, Entry(t, Restore(c.rec), c.ts, c.undo)))
    else s
  }

  /** Creation is refused on a tombstone and on anything the creator can see. The id of an edge is free
      again once collection has removed the edge. */
  predicate CanCreate(s: Store, t: nat, k: Key) {
    && Running(s, t)
    && !(k in s.chains && s.chains[k].rec.dead)
    && Read(s, t, k).None?
    && Writable(if k in s.chains then s.chains[k].ts else t, t, s.active[t].start)
  }

  function DoCreate(s: Store, t: nat, k: Key, rec: Record): Store {
    if CanCreate(s, t, k) then
      var c := if k in s.chains then s.chains[k] else Chain(rec, t, Null);
      // vertices mark "no committed base" with stamp 0, edges keep the head's own stamp
      var ts := if k.VertexKey? && c.ts == t then 0 else c.ts;
      Push(s, t, k, c.(undo := Entry(t, MarkDead, ts, c.undo)))
    else s
  }

  // ----- transaction manager -----

  lemma {:induction false} Least(m: set<nat>) returns (t: nat)
    requires m != {}
    ensures t in m && forall u | u in m :: t <= u
    decreases |m|
  {
    t :| t in m;
    var rest := m - {t};
    assert m == rest + {t};
    if rest != {} {
      var y := Least(rest);
      if y < t { t := y; }
    }
  }

  /** The front of an ordered map: its least key. */
  ghost function Front(m: set<nat>): (t: nat)
    requires m != {}
    ensures t in m && forall u | u in m :: t <= u
  {
    assert exists t :: t in m && forall u | u in m :: t <= u by { var t := Least(m); }
    var t :| t in m && forall u | u in m :: t <= u;
    t
  }

  function Max(a: nat, b: nat): nat { if a < b then b else a }

  /** The start of the active transaction with the least id, or the latest commit, never moving back. */
  ghost function Watermark(active: map<nat, Txn>, latest: nat, old': nat): nat {
    Max(if active.Keys == {} then latest else active[Front(active.Keys)].start, old')
  }

  ghost function Retired(s: Store, t: nat): Store
    requires t in s.active
  {
    var active := s.active - {t};
    s.(active := active, watermark := Watermark(active, s.latest, s.watermark))
  }

  ghost function DoBegin(s: Store): Store {
    if s.nextTs < MAX_COMMIT_TS && s.nextId < U64_MAX then
      var active := s.active[s.nextId := Txn(s.nextTs, None, [])];
      s.(active := active, nextTs := s.nextTs + 1, nextId := s.nextId + 1,
         watermark := Watermark(active, s.latest, s.watermark))
    else s
  }

  /** First half of commit: the commit timestamp is drawn before the commit lock is taken. */
  function DoDraw(s: Store, t: nat): Store {
    if Running(s, t) && s.nextTs < MAX_COMMIT_TS then
      s.(active := s.active[t := s.active[t].(drawn := Some(s.nextTs))], nextTs := s.nextTs + 1)
    else s
  }

  function StampAll(chains: map<Key, Chain>, buf: seq<Item>, c: nat): map<Key, Chain>
    decreases |buf|
  {
    if buf == [] then chains
    else
      var k := buf[0].key;
      StampAll(if k in chains then chains[k := chains[k].(ts := c)] else chains, buf[1..], c)
  }

  predicate Names(buf: seq<Item>, k: Key) { exists x :: x in buf && x.key == k }

  /** Every record the transaction wrote is still stored. Commit panics on one that is not. */
  predicate Finds(s: Store, t: nat)
    requires t in s.active
  {
    forall x | x in s.active[t].buf :: x.key in s.chains
  }

  predicate Drawn(s: Store, t: nat) { t in s.active && s.active[t].drawn.Some? }

  /** Second half of commit: every record written is stamped, the transaction becomes `done`. */
  ghost function DoPublish(s: Store, t: nat): Store {
    if Drawn(s, t) && Finds(s, t) then
      var c, buf := s.active[t].drawn.value, s.active[t].buf;
      var s1 := s.(chains := StampAll(s.chains, buf, c), latest := c, done := s.done[c := t], kept := s.kept[c := buf]);
      Retired(s1, t)
    else s
  }

  /** One undo entry of an abort: it acts only while the head still carries the aborter's id. */
  function AbortOne(c: Chain, t: nat, e: Undo): Chain {
    if c.ts == t && e.Entry? then Chain(AbortDelta(e.delta, c.rec), e.ts, e.next) else c
  }

  /** The abort loop takes the undo buffer oldest entry first. */
  function AbortAll(chains: map<Key, Chain>, buf: seq<Item>, t: nat): map<Key, Chain>
    decreases |buf|
  {
    if buf == [] then chains
    else
      var k := buf[0].key;
      AbortAll(if k in chains then chains[k := AbortOne(chains[k], t, buf[0].entry)] else chains, buf[1..], t)
  }

  /** A commit that fails validation aborts after its timestamp was drawn. */
  ghost function DoAbort(s: Store, t: nat): Store {
    if t in s.active then
      Retired(s.(chains := AbortAll(s.chains, s.active[t].buf, t)), t)
    else s
  }

  /** One collected undo entry of an edge: the image of a deletion marks it, a later creation unmarks it. */
  function Mark(x: Item, marked: set<Key>): set<Key> {
    if !x.key.EdgeKey? || !x.entry.Entry? then marked
    else match x.entry.delta
      case Restore(_) => marked + {x.key}
      case MarkDead => marked - {x.key}
      case SetBack(_, _) => marked
  }

  function MarkAll(buf: seq<Item>, marked: set<Key>): set<Key>
    decreases |buf|
  {
    if buf == [] then marked else MarkAll(buf[1..], Mark(buf[0], marked))
  }

  /** The edges marked by the undo buffers of `cs`, taken in commit order. */
  ghost function MarkedBy(kept: map<nat, seq<Item>>, cs: set<nat>, marked: set<Key>): set<Key>
    requires cs <= kept.Keys
    decreases |cs|
  {
    if cs == {} then marked else MarkedBy(kept, cs - {Front(cs)}, MarkAll(kept[Front(cs)], marked))
  }

  function Expired(s: Store): set<nat> { set c | c in s.kept && c <= s.watermark }

  /** Collection removes a marked edge whose head is a tombstone, whoever made it one. */
  ghost predicate Removed(s: Store, k: Key) {
    k in s.chains && s.chains[k].rec.dead && k in MarkedBy(s.kept, Expired(s), {})
  }

  /** Finished transactions at or below the watermark lose their undo entries, and the edges they
      deleted are removed. */
  ghost function DoCollect(s: Store): Store {
    s.(chains := map k | k in s.chains && !Removed(s, k) :: s.chains[k],
       done := s.done - Expired(s), kept := s.kept - Expired(s))
  }

  // ----- runs -----

  datatype Op =
    | Begin
    | Create(t: nat, k: Key, rec: Record)
    | Set(t: nat, k: Key, indices: seq<nat>, props: seq<Value>)
    | Delete(t: nat, k: Key)
    | Draw(t: nat)
    | Publish(t: nat)
    | Abort(t: nat)
    | Collect

  ghost function Do(s: Store, op: Op): Store {
    match op
    case Begin => DoBegin(s)
    case Create(t, k, rec) => DoCreate(s, t, k, rec)
    case Set(t, k, indices, props) => DoSet(s, t, k, indices, props)
    case Delete(t, k) => DoDelete(s, t, k)
    case Draw(t) => DoDraw(s, t)
    case Publish(t) => DoPublish(s, t)
    case Abort(t) => DoAbort(s, t)
    case Collect => DoCollect(s)
  }

  ghost function Run(s: Store, ops: seq<Op>): Store
    decreases |ops|
  {
    if ops == [] then s else Run(Do(s, ops[0]), ops[1..])
  }
}

/**
  Snapshot isolation, said directly: every key has a log of committed versions, every transaction a
  private set of pending values.  Nothing here knows about chains, undo entries or collection.
 */
module SnapshotSpec {
  import opened Wrap
  import opened Stamps
  import opened MvccStore

  datatype Version = Version(ts: nat, val: Option<Record>, start: nat)

  datatype ATxn = ATxn(start: nat, drawn: Option<nat>, pending: map<Key, Option<Record>>)

  datatype Abs = Abs(log: map<Key, seq<Version>>, txns: map<nat, ATxn>, clock: nat, nextId: nat)

  const START := Abs(map[], map[], 1, TXN_ID_START + 1)

  function Last<T>(h: seq<T>): T
    requires h != []
  {
    h[|h| - 1]
  }

  function Init<T>(h: seq<T>): seq<T>
    requires h != []
  {
    h[..|h| - 1]
  }

  /** The newest version committed at or before `start`. */
  function Lookup(h: seq<Version>, start: nat): Option<Record> {
    if h == [] then None
    else if Last(h).ts <= start then Last(h).val
    else Lookup(Init(h), start)
  }

  function ARead(a: Abs, t: nat, k: Key): Option<Record>
    requires t in a.txns
  {
    if k in a.txns[t].pending then a.txns[t].pending[k]
    else if k in a.log then Lookup(a.log[k], a.txns[t].start)
    else None
  }

  predicate ARunning(a: Abs, t: nat) { t in a.txns && a.txns[t].drawn.None? }

  predicate HeldByOther(a: Abs, t: nat, k: Key) {
    exists u | u in a.txns :: u != t && k in a.txns[u].pending
  }

  /** First updater wins: nobody else holds the key and its newest version is in the snapshot.
      An edge whose creation was aborted stays unusable. */
  predicate AWritable(a: Abs, t: nat, k: Key) {
    && ARunning(a, t)
    && k in a.log
    && (k in a.txns[t].pending
        || (&& !HeldByOther(a, t, k)
            && (a.log[k] == [] ==> k.VertexKey?)
            && (a.log[k] != [] ==> Last(a.log[k]).ts <= a.txns[t].start)))
  }

  function Put(a: Abs, t: nat, k: Key, v: Option<Record>): Abs
    requires t in a.txns
  {
    a.(txns := a.txns[t := a.txns[t].(pending := a.txns[t].pending[k := v])])
  }

  function ASetValue(v: Option<Record>, indices: seq<nat>, props: seq<Value>): Option<Record> {
    if v.Some? then Some(SetProps(v.value, indices, props)) else None
  }

  function APublished(a: Abs, t: nat): Abs
    requires t in a.txns && a.txns[t].drawn.Some?
  {
    var x := a.txns[t];
    a.(log := map k | k in a.log ::
                if k in x.pending then a.log[k] + [Version(x.drawn.value, x.pending[k], x.start)] else a.log[k],
       txns := a.txns - {t})
  }

  /** Edges in `gone` are forgotten: their logs, and what active transactions held of them. */
  function AForget(a: Abs, gone: set<Key>): Abs {
    a.(log := map k | k in a.log && !Forgets(k, gone) :: a.log[k],
       txns := map t | t in a.txns :: Without(a.txns[t], gone))
  }

  predicate Forgets(k: Key, gone: set<Key>) { k.EdgeKey? && k in gone }

  function Without(x: ATxn, gone: set<Key>): ATxn {
    x.(pending := map k | k in x.pending && !Forgets(k, gone) :: x.pending[k])
  }

  /** What the store decides: whether a property list fits its record and a commit finds its records,
      and which edges a collection removes. */
  datatype How = How(fits: bool, gone: set<Key>)

  const FINE := How(true, {})

  /** One operation of the specification. */
  function ADo(a: Abs, op: Op, how: How): Abs {
    match op
    case Begin =>
      if a.clock < MAX_COMMIT_TS && a.nextId < U64_MAX then
        a.(txns := a.txns[a.nextId := ATxn(a.clock, None, map[])], clock := a.clock + 1, nextId := a.nextId + 1)
      else a
    case Create(t, k, rec) =>
      if ARunning(a, t) && k !in a.log then Put(a.(log := a.log[k := []]), t, k, View(rec)) else a
    case Set(t, k, indices, props) =>
      if AWritable(a, t, k) && how.fits then Put(a, t, k, ASetValue(ARead(a, t, k), indices, props)) else a
    case Delete(t, k) =>
      if AWritable(a, t, k) then Put(a, t, k, None) else a
    case Draw(t) =>
      if ARunning(a, t) && a.clock < MAX_COMMIT_TS then
        a.(txns := a.txns[t := a.txns[t].(drawn := Some(a.clock))], clock := a.clock + 1)
      else a
    case Publish(t) => if t in a.txns && a.txns[t].drawn.Some? && how.fits then APublished(a, t) else a
    case Abort(t) => if t in a.txns then a.(txns := a.txns - {t}) else a
    case Collect => AForget(a, how.gone)
  }
}
