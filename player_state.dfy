/**
 * Engine playback states and the canonical encoding of a raw
 * (playWhenReady, playbackState) sample that the state store compares and keeps.
 */
module PlayerState {
  import opened Wrappers

  /** The engine's four playback states. */
  datatype EngineState = Idle | Buffering | Ready | Ended

  /** The engine library's integer code of a playback state (Player.STATE_*). */
  function Code(s: EngineState): bv32 {
    match s
    case Idle => 1
    case Buffering => 2
    case Ready => 3
    case Ended => 4
  }

  /** The high-nibble flag that marks playWhenReady in an encoded state. */
  const FLAG_PLAY_WHEN_READY: bv32 := 0xF000_0000

  /** StateStore.getState: the state code OR'd with the flag when playWhenReady holds. */
  function Encode(playWhenReady: bool, s: EngineState): (e: bv32)
    ensures HasPlayWhenReady(e) == playWhenReady
    ensures e & 0x0FFF_FFFF == Code(s)
  {
    Code(s) | (if playWhenReady then FLAG_PLAY_WHEN_READY else 0)
  }

  /** Whether an encoded entry carries the playWhenReady flag (isLastReportedPlayWhenReady). */
  predicate HasPlayWhenReady(e: bv32): (b: bool)
    ensures b <==> e >> 28 != 0
  {
    e & FLAG_PLAY_WHEN_READY != 0
  }

  /** The inverse of Encode: recovers the sample from an encoded entry, if it is one. */
  function Decode(e: bv32): (r: Option<(bool, EngineState)>)
    ensures r.Some? ==> Encode(r.value.0, r.value.1) == e
  {
    var flag := e & FLAG_PLAY_WHEN_READY;
    var low := e & 0x0FFF_FFFF;
    if flag != 0 && flag != FLAG_PLAY_WHEN_READY then None
    else if low == 1 then Some((flag != 0, Idle))
    else if low == 2 then Some((flag != 0, Buffering))
    else if low == 3 then Some((flag != 0, Ready))
    else if low == 4 then Some((flag != 0, Ended))
    else None
  }

  /** Decoding an encoded sample gives the sample back. */
  lemma DecodeEncode(playWhenReady: bool, s: EngineState)
    ensures Decode(Encode(playWhenReady, s)) == Some((playWhenReady, s))
  {
  }

  /** Two samples encode identically exactly when they are the same sample. */
  lemma EncodeInjective(p1: bool, s1: EngineState, p2: bool, s2: EngineState)
    ensures Encode(p1, s1) == Encode(p2, s2) <==> p1 == p2 && s1 == s2
  {
    if Encode(p1, s1) == Encode(p2, s2) {
      DecodeEncode(p1, s1);
      DecodeEncode(p2, s2);
    }
  }

  /** The flag test recovers playWhenReady from an encoded sample. */
  lemma FlagRecoversPlayWhenReady(playWhenReady: bool, s: EngineState)
    ensures HasPlayWhenReady(Encode(playWhenReady, s)) == playWhenReady
  {
  }

  /**
   * An encoded sample equals a plain state code only when playWhenReady is false:
   * comparisons against plain codes never see a playing sample.
   */
  lemma EncodeEqualsPlainCode(playWhenReady: bool, s: EngineState, t: EngineState)
    ensures Encode(playWhenReady, s) == Code(t) <==> !playWhenReady && s == t
  {
    EncodeInjective(playWhenReady, s, false, t);
  }
}
