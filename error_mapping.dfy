/**
 * onPlayerError of the ExoPlayer adapter: how a playback error's cause is
 * classified into the (what, extra) pair delivered to the error listener.
 */
module ErrorMapping {
  import opened Wrappers
  import opened Events

  /**
   * The cause of a playback error. For an HTTP data-source exception the flags say
   * whether it is an InvalidResponseCodeException and which substrings its text holds.
   */
  datatype Cause =
    | NoCause
    | HttpDataSource(unableToConnect: bool, invalidResponseCode: bool,
                     has403: bool, has404: bool, has500: bool, has502: bool)
    | UnrecognizedInputFormat
    | IllegalStateCause
    | DecoderInitialization
    | OtherCause

  /** The response-code family read off an invalid-response message, first match wins. */
  function ResponseExtra(has403: bool, has404: bool, has500: bool, has502: bool): ErrorExtra {
    if has403 then Response403
    else if has404 then Response404
    else if has500 then Response500
    else if has502 then Response502
    else ResponseOther
  }

  /**
   * The error notified for a playback error (`error` is None for a null error),
   * or None when nothing is notified.
   */
  function ClassifyError(error: Option<Cause>, playerRunning: bool, hasNetwork: bool): (r: Option<(ErrorWhat, ErrorExtra)>)
    ensures error.None? || !playerRunning ==> r == Some((WhatUnknown, ExtraUnknown))
    ensures r.None? ==> error.Some? && error.value.HttpDataSource? && !error.value.unableToConnect
    ensures r.Some? && r.value.0 == WhatIO ==> error.Some? && playerRunning && error.value.HttpDataSource?
    ensures r.Some? && r.value.1 in {Response403, Response404, Response500, Response502, ResponseOther}
            ==> error.Some? && error.value.HttpDataSource? && error.value.invalidResponseCode
  {
    if error.Some? && playerRunning then
      match error.value
      case NoCause => Some((WhatUnknown, ExtraUnknown))
      case HttpDataSource(unable, invalid, h403, h404, h500, h502) =>
        if unable then Some((WhatIO, if hasNetwork then ExtraConn else ExtraNetwork))
        else if invalid then Some((WhatIO, ResponseExtra(h403, h404, h500, h502)))
        else None
      case UnrecognizedInputFormat => Some((WhatExtractor, ExtraUnknown))
      case IllegalStateCause => Some((WhatIllegalState, ExtraUnknown))
      case DecoderInitialization => Some((WhatDecoderInit, ExtraUnknown))
      case OtherCause => Some((WhatUnknown, ExtraUnknown))
    else Some((WhatUnknown, ExtraUnknown))
  }

  /**
   * Nothing is notified exactly for an HTTP data-source exception of a running
   * player that is neither a connection failure nor an invalid response code.
   */
  lemma SilentExactly(error: Option<Cause>, playerRunning: bool, hasNetwork: bool)
    ensures ClassifyError(error, playerRunning, hasNetwork).None?
            <==> error.Some? && playerRunning && error.value.HttpDataSource?
                 && !error.value.unableToConnect && !error.value.invalidResponseCode
  {
  }

  /** A null error, or any error while the player is idle or released, reads as unknown/unknown. */
  lemma NotRunningIsUnknown(error: Option<Cause>, playerRunning: bool, hasNetwork: bool)
    requires error.None? || !playerRunning
    ensures ClassifyError(error, playerRunning, hasNetwork) == Some((WhatUnknown, ExtraUnknown))
  {
  }

  /** I/O errors come only from HTTP data-source causes; connection failures split on connectivity. */
  lemma IoOnlyFromHttp(error: Option<Cause>, playerRunning: bool, hasNetwork: bool)
    ensures var r := ClassifyError(error, playerRunning, hasNetwork);
            r.Some? && r.value.0 == WhatIO ==> error.Some? && playerRunning && error.value.HttpDataSource?
    ensures var r := ClassifyError(error, playerRunning, hasNetwork);
            r.Some? && r.value.0 == WhatIO && r.value.1 in {ExtraNetwork, ExtraConn}
            ==> error.value.unableToConnect && (r.value.1 == ExtraConn <==> hasNetwork)
  {
  }

  /**
   * An invalid-response message naming several codes is classified by the first
   * of 403, 404, 500, 502 it names; one naming none is "other"; a connection
   * failure wins over the response code.
   */
  lemma ResponseCodePriority(hasNetwork: bool, h403: bool, h404: bool, h500: bool, h502: bool)
    ensures var r := ClassifyError(Some(HttpDataSource(false, true, h403, h404, h500, h502)), true, hasNetwork);
            && r.Some? && r.value.0 == WhatIO
            && (r.value.1 == Response403 <==> h403)
            && (r.value.1 == Response404 <==> !h403 && h404)
            && (r.value.1 == Response500 <==> !h403 && !h404 && h500)
            && (r.value.1 == Response502 <==> !h403 && !h404 && !h500 && h502)
            && (r.value.1 == ResponseOther <==> !h403 && !h404 && !h500 && !h502)
    ensures ClassifyError(Some(HttpDataSource(true, true, h403, h404, h500, h502)), true, hasNetwork)
            == Some((WhatIO, if hasNetwork then ExtraConn else ExtraNetwork))
  {
  }

  /** Each non-HTTP cause of a running player maps to its own stable pair. */
  lemma DistinctCausesDistinctPairs(c1: Cause, c2: Cause, hasNetwork: bool)
    requires c1 in {UnrecognizedInputFormat, IllegalStateCause, DecoderInitialization}
    requires c2 in {UnrecognizedInputFormat, IllegalStateCause, DecoderInitialization}
    ensures ClassifyError(Some(c1), true, hasNetwork) == ClassifyError(Some(c2), true, hasNetwork) <==> c1 == c2
  {
  }
}
