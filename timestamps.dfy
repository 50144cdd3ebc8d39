/** Timestamps as the streamer sees them: signed 64-bit integers, one value of
    which (libavutil's AV_NOPTS_VALUE) stands for "no timestamp". */
module Timestamps {

  /** The C type int64_t. */
  newtype int64 = x: int | -0x8000_0000_0000_0000 <= x < 0x8000_0000_0000_0000

  const INT64_MIN: int64 := -0x8000_0000_0000_0000

  /** AV_NOPTS_VALUE. libavutil is not part of this model; its definition of
      AV_NOPTS_VALUE as INT64_MIN is taken as an ASSUMPTION here. */
  const NOPTS: int64 := INT64_MIN

  datatype Option<T> = None | Some(value: T)

  /** Whether a timestamp carries a value, i.e. is not the sentinel. */
  predicate IsPresent(t: int64) {
    t != NOPTS
  }

  /** Reads the sentinel encoding as an explicit optional timestamp. */
  function ToOption(t: int64): Option<int64> {
    if IsPresent(t) then Some(t) else None
  }

  /** Writes an optional timestamp in the sentinel encoding. */
  function FromOption(o: Option<int64>): int64 {
    match o
    case None => NOPTS
    case Some(t) => t
  }

  /** Every timestamp survives a trip through the optional encoding, and every
      optional timestamp that does not carry the sentinel as a value does too. */
  lemma OptionRoundTrip(t: int64, o: Option<int64>)
    ensures FromOption(ToOption(t)) == t
    ensures o != Some(NOPTS) ==> ToOption(FromOption(o)) == o
  {
  }

  /** Since the sentinel is the least int64, a present timestamp is strictly
      above it, so no present timestamp is ever `<=` the sentinel. */
  lemma PresentAboveSentinel(t: int64)
    ensures IsPresent(t) <==> NOPTS < t
  {
  }
}
