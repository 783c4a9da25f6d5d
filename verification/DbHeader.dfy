/** The 256-byte file header: fields in little-endian order, guarded by a checksum. */
module DbHeader {
  import opened Wrap
  import opened Bytes

  const MAGIC: seq<Byte> := [77, 73, 78, 73, 71, 85, 0, 0]
  const CURRENT_VERSION: nat := 1
  const HEADER_SIZE: nat := 256

  datatype Header = Header(
    magic: seq<Byte>,
    version: nat,
    headerSize: nat,
    flags: nat,
    ckOffset: nat,
    ckLength: nat,
    walOffset: nat,
    walLength: nat,
    lastLsn: nat,
    lastCommitTs: nat,
    crc: nat)

  const NEW := Header(MAGIC, CURRENT_VERSION, HEADER_SIZE, 0, HEADER_SIZE, 0, HEADER_SIZE, 0, 0, 0, 0)

  // ----- flags: bit 0 is HAS_CHECKPOINT, bit 1 is HAS_WAL -----

  predicate HasCheckpoint(flags: nat) { flags % 2 == 1 }

  predicate HasWal(flags: nat) { flags / 2 % 2 == 1 }

  function SetCheckpoint(flags: nat): (r: nat)
    ensures HasCheckpoint(r) && HasWal(r) == HasWal(flags) && (flags < 4 ==> r < 4)
  {
    if HasCheckpoint(flags) then flags else flags + 1
  }

  function SetWal(flags: nat): (r: nat)
    ensures HasWal(r) && HasCheckpoint(r) == HasCheckpoint(flags) && (flags < 4 ==> r < 4)
  {
    if HasWal(flags) then flags else flags + 2
  }

  function ClearWal(flags: nat): (r: nat)
    ensures !HasWal(r) && HasCheckpoint(r) == HasCheckpoint(flags) && (flags < 4 ==> r < 4)
  {
    if HasWal(flags) then flags - 2 else flags
  }

  // ----- encoding -----

  type Crc = seq<Byte> -> nat

  /** Every field fits its word; the header size is the one this version writes. */
  ghost predicate Fits(h: Header) {
    && |h.magic| == 8 && h.version < U32 && h.headerSize == HEADER_SIZE && h.flags < U32 && h.crc < U32
    && h.ckOffset < U64 && h.ckLength < U64 && h.walOffset < U64 && h.walLength < U64
    && h.lastLsn < U64 && h.lastCommitTs < U64
  }

  /** Words with their widths in bytes, written one after the other. */
  function Pack(values: seq<nat>, widths: seq<nat>): (b: seq<Byte>)
    requires |values| == |widths|
  {
    if values == [] then [] else Le(values[0], widths[0]) + Pack(values[1..], widths[1..])
  }

  /** Words read one after the other; nothing if the file is too short. */
  function Unpack(b: seq<Byte>, off: nat, widths: seq<nat>): Option<seq<nat>>
    decreases |widths|
  {
    if widths == [] then Some([])
    else
      var word := ReadAt(b, off, widths[0]);
      var rest := Unpack(b, off + widths[0], widths[1..]);
      if word.None? || rest.None? then None else Some([FromLe(word.value)] + rest.value)
  }

  predicate AllFit(values: seq<nat>, widths: seq<nat>)
    requires |values| == |widths|
  {
    forall i | 0 <= i < |values| :: values[i] < Pow256(widths[i])
  }

  lemma {:induction false} UnpackPack(b: seq<Byte>, off: nat, values: seq<nat>, widths: seq<nat>)
    requires |values| == |widths| && AllFit(values, widths) && At(b, off, Pack(values, widths))
    ensures Unpack(b, off, widths) == Some(values)
    decreases |values|
  {
    if values != [] {
      var first, more := Le(values[0], widths[0]), Pack(values[1..], widths[1..]);
      assert Pack(values, widths) == first + more;
      LeRoundTrip(values[0], widths[0]);
      hide Pack, Le, FromLe, Pow256, At, ReadAt;
      AtSplit(b, off, first, more);
      AtRead(b, off, first);
      UnpackPack(b, off + widths[0], values[1..], widths[1..]);
      assert [values[0]] + values[1..] == values;
    }
  }

  const WIDTHS: seq<nat> := [4, 4, 4, 8, 8, 8, 8, 8, 8]

  function Words(h: Header): (w: seq<nat>)
    ensures |w| == |WIDTHS|
  {
    [h.version, h.headerSize, h.flags, h.ckOffset, h.ckLength, h.walOffset, h.walLength, h.lastLsn, h.lastCommitTs]
  }

  /** The bytes the checksum covers. */
  function Fields(h: Header): seq<Byte> { h.magic + Pack(Words(h), WIDTHS) }

  function Encode(h: Header): seq<Byte>
    requires h.headerSize >= 72
  {
    Fields(h) + Le(h.crc, 4) + Zeros(h.headerSize - 72)
  }

  function Sealed(h: Header, crc: Crc): Header { h.(crc := crc(Fields(h))) }

  datatype HeaderError = ShortRead | InvalidMagic | UnsupportedVersion | ChecksumMismatch

  datatype HeaderResult = Good(header: Header) | Bad(error: HeaderError)

  function FromWords(magic: seq<Byte>, w: seq<nat>): Header
    requires |w| == 10
  {
    Header(magic, w[0], w[1], w[2], w[3], w[4], w[5], w[6], w[7], w[8], w[9])
  }

  lemma {:induction false} UnpackLength(b: seq<Byte>, off: nat, widths: seq<nat>)
    ensures Unpack(b, off, widths).Some? ==> |Unpack(b, off, widths).value| == |widths|
    decreases |widths|
  {
    if widths != [] { UnpackLength(b, off + widths[0], widths[1..]); }
  }

  function Decode(b: seq<Byte>, crc: Crc): HeaderResult {
    var magic := ReadAt(b, 0, 8);
    var words := Unpack(b, 8, WIDTHS + [4]);
    if magic.None? || words.None? then Bad(ShortRead)
    else
      UnpackLength(b, 8, WIDTHS + [4]);
      var h := FromWords(magic.value, words.value);
      if h.magic != MAGIC then Bad(InvalidMagic)
      else if h.version > CURRENT_VERSION then Bad(UnsupportedVersion)
      else if crc(Fields(h)) != h.crc then Bad(ChecksumMismatch)
      else Good(h)
  }

  lemma {:induction false} PackAppend(values: seq<nat>, widths: seq<nat>, x: nat, n: nat)
    requires |values| == |widths|
    ensures Pack(values + [x], widths + [n]) == Pack(values, widths) + Le(x, n)
    decreases |values|
  {
    if values == [] {
      assert [x][1..] == [] && [n][1..] == [];
      assert values + [x] == [x] && widths + [n] == [n];
      assert Pack([x][1..], [n][1..]) == [];
    } else {
      assert (values + [x])[1..] == values[1..] + [x] && (widths + [n])[1..] == widths[1..] + [n];
      PackAppend(values[1..], widths[1..], x, n);
    }
  }

  lemma {:induction false} PackLength(values: seq<nat>, widths: seq<nat>)
    requires |values| == |widths|
    ensures |Pack(values, widths)| == Sum(widths)
    decreases |values|
  {
    if values != [] { PackLength(values[1..], widths[1..]); }
  }

  function Sum(widths: seq<nat>): nat { if widths == [] then 0 else widths[0] + Sum(widths[1..]) }

  lemma FieldBytes(h: Header)
    requires |h.magic| == 8
    ensures |Fields(h)| == 68
  {
    PackLength(Words(h), WIDTHS);
    SumOfEights(6);
    assert WIDTHS[1..][1..][1..] == seq(6, i => 8);
  }

  lemma {:induction false} SumOfEights(n: nat)
    ensures Sum(seq(n, i => 8)) == 8 * n
  {
    if n > 0 {
      assert seq(n, i => 8)[1..] == seq(n - 1, i => 8);
      SumOfEights(n - 1);
    }
  }

  lemma EncodeParts(h: Header)
    requires |h.magic| == 8 && h.headerSize >= 72
    ensures Encode(h) == h.magic + (Pack(Words(h) + [h.crc], WIDTHS + [4]) + Zeros(h.headerSize - 72))
    ensures |Encode(h)| == h.headerSize
  {
    FieldBytes(h);
    PackAppend(Words(h), WIDTHS, h.crc, 4);
    hide Pack, Le;
  }

  /** Each word stands after those before it. */
  lemma {:induction false} PackAt(values: seq<nat>, widths: seq<nat>, i: nat)
    requires |values| == |widths| && i < |values|
    ensures At(Pack(values, widths), Sum(widths[..i]), Le(values[i], widths[i]))
    decreases |values|
  {
    var first, more := Le(values[0], widths[0]), Pack(values[1..], widths[1..]);
    if i > 0 {
      PackAt(values[1..], widths[1..], i - 1);
      assert widths[..i] == [widths[0]] + widths[1..][..i - 1];
      hide Le;
      var off := Sum(widths[1..][..i - 1]);
      assert (first + more)[widths[0] + off..widths[0] + off + widths[i]] == more[off..off + widths[i]];
    }
  }

  /** Byte offsets of the eleven fields: magic, version, header size, flags, checkpoint offset and length,
      log offset and length, last LSN, last commit, checksum. */
  const PLACES: seq<nat> := [0, 8, 12, 16, 20, 28, 36, 44, 52, 60, 68]

  /** Every field stands at its offset, little-endian; the rest of the header is zero. */
  lemma FieldPlaces(h: Header)
    requires Fits(h)
    ensures var b := Encode(h);
            && At(b, PLACES[0], h.magic) && At(b, PLACES[1], Le(h.version, 4)) && At(b, PLACES[2], Le(h.headerSize, 4))
            && At(b, PLACES[3], Le(h.flags, 4)) && At(b, PLACES[4], Le(h.ckOffset, 8)) && At(b, PLACES[5], Le(h.ckLength, 8))
            && At(b, PLACES[6], Le(h.walOffset, 8)) && At(b, PLACES[7], Le(h.walLength, 8)) && At(b, PLACES[8], Le(h.lastLsn, 8))
            && At(b, PLACES[9], Le(h.lastCommitTs, 8)) && At(b, PLACES[10], Le(h.crc, 4))
            && |b| == HEADER_SIZE && forall i | 72 <= i < HEADER_SIZE :: b[i] == 0
  {
    var w, widths := Words(h) + [h.crc], WIDTHS + [4];
    EncodeParts(h);
    FieldBytes(h);
    forall i: nat | i < 10 ensures At(Encode(h), PLACES[i + 1], Le(w[i], widths[i])) {
      PackAt(w, widths, i);
      PlaceIs(i);
      hide Pack, Le, Sum, Words, Fields;
      InParts(h.magic, Pack(w, widths), Zeros(h.headerSize - 72), PLACES[i + 1], Le(w[i], widths[i]));
    }
    hide Pack, Le;
    assert w[0] == h.version && w[1] == h.headerSize && w[2] == h.flags && w[3] == h.ckOffset && w[4] == h.ckLength
        && w[5] == h.walOffset && w[6] == h.walLength && w[7] == h.lastLsn && w[8] == h.lastCommitTs && w[9] == h.crc;
  }

  lemma PlaceIs(i: nat)
    requires i < 10
    ensures 8 + Sum((WIDTHS + [4])[..i]) == PLACES[i + 1]
    decreases i
  {
    if i > 0 {
      PlaceIs(i - 1);
      var widths := WIDTHS + [4];
      assert widths[..i] == widths[..i - 1] + [widths[i - 1]];
      SumMore(widths[..i - 1], widths[i - 1]);
    }
  }

  lemma {:induction false} SumMore(widths: seq<nat>, n: nat)
    ensures Sum(widths + [n]) == Sum(widths) + n
  {
    if widths == [] {
      assert [] + [n] == [n] && [n][1..] == [];
    } else {
      assert (widths + [n])[1..] == widths[1..] + [n];
      SumMore(widths[1..], n);
    }
  }

  lemma InParts(magic: seq<Byte>, pack: seq<Byte>, zeros: seq<Byte>, place: nat, d: seq<Byte>)
    requires |magic| == 8 && place >= 8 && At(pack, place - 8, d)
    ensures At(magic + (pack + zeros), place, d)
  {
    var b := magic + (pack + zeros);
    assert b[place..place + |d|] == pack[place - 8..place - 8 + |d|];
  }

  /** The checkpoint flag is worth 1, the log flag 2. */
  lemma FlagBits()
    ensures SetCheckpoint(0) == 1 && SetWal(0) == 2 && SetWal(SetCheckpoint(0)) == 3 && ClearWal(3) == 1 && ClearWal(2) == 0
    ensures HasCheckpoint(1) && !HasWal(1) && HasWal(2) && !HasCheckpoint(2) && !HasCheckpoint(0) && !HasWal(0)
  {
  }

  /** A file too short for a header. */
  lemma ShortFile(b: seq<Byte>, crc: Crc)
    requires |b| < 72
    ensures Decode(b, crc) == Bad(ShortRead)
  {
    var widths := WIDTHS + [4];
    if Unpack(b, 8, widths).Some? {
      UnpackInside(b, 8, widths);
      FourWords();
    }
  }

  lemma FourWords()
    ensures Sum(WIDTHS + [4]) == 64
  {
    PlaceIs(9);
    SumMore(WIDTHS, 4);
    assert (WIDTHS + [4])[..9] == WIDTHS;
  }

  lemma {:induction false} UnpackInside(b: seq<Byte>, off: nat, widths: seq<nat>)
    requires Unpack(b, off, widths).Some? && widths != []
    ensures off + Sum(widths) <= |b|
    decreases |widths|
  {
    if |widths| > 1 { UnpackInside(b, off + widths[0], widths[1..]); } else { assert widths[1..] == []; }
  }

  /** Reading what was written gives the header back exactly when it is valid and sealed, and otherwise says
      what is wrong first: magic, version, checksum. Anything may follow the header in the file. */
  lemma HeaderRoundTrip(h: Header, b: seq<Byte>, crc: Crc)
    requires Fits(h) && At(b, 0, Encode(h))
    ensures Decode(b, crc) == if h.magic != MAGIC then Bad(InvalidMagic)
                              else if h.version > CURRENT_VERSION then Bad(UnsupportedVersion)
                              else if h.crc != crc(Fields(h)) then Bad(ChecksumMismatch)
                              else Good(h)
  {
    var w, widths := Words(h) + [h.crc], WIDTHS + [4];
    WordSizes();
    assert AllFit(w, widths) by { hide Pow256; }
    EncodeParts(h);
    var pack, zeros := Pack(w, widths), Zeros(h.headerSize - 72);
    hide Pack, Encode, At, Unpack, Fields, ReadAt, AllFit, Pow256;
    AtSplit(b, 0, h.magic, pack + zeros);
    AtSplit(b, 8, pack, zeros);
    AtRead(b, 0, h.magic);
    UnpackPack(b, 8, w, widths);
    assert FromWords(h.magic, w) == h;
  }
}
