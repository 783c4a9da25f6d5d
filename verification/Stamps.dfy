/** Small shared vocabulary: options and the two timestamp domains of the transaction layer. */
module Wrap {
  datatype Option<+T> = None | Some(value: T)
}

/** A timestamp is a 64-bit word: transaction ids have the top bit set, commit timestamps do not. */
module Stamps {
  const TXN_ID_START: nat := 0x8000_0000_0000_0000
  const MAX_COMMIT_TS: nat := 0x7FFF_FFFF_FFFF_FFFF
  const U64_MAX: nat := 0xFFFF_FFFF_FFFF_FFFF

  predicate IsTxnId(ts: nat) { ts >= TXN_ID_START }
}
