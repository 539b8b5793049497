/**
 * The listener interface shared by the backend adapter and the façade: the seven
 * callback kinds and the payload each one carries. The numeric `what`/`extra`
 * constants of that interface are kept symbolic.
 */
module Events {

  /** One listener kind per callback of the player interface. */
  datatype ListenerKind =
    | PreparedKind
    | CompletionKind
    | BufferingUpdateKind
    | SeekCompleteKind
    | VideoSizeChangedKind
    | ErrorKind
    | InfoKind

  /** Every kind; the façade keeps one registry for each. */
  const AllKinds: set<ListenerKind> :=
    {PreparedKind, CompletionKind, BufferingUpdateKind, SeekCompleteKind,
     VideoSizeChangedKind, ErrorKind, InfoKind}

  /** The `what` of an info callback. */
  datatype InfoWhat = BufferingStartInfo | BufferingEndInfo | VideoRenderingStart | VideoRotationChanged

  /** The `what` of an error callback. */
  datatype ErrorWhat = WhatIO | WhatExtractor | WhatIllegalState | WhatDecoderInit | WhatUnknown

  /** The `extra` of an error callback. */
  datatype ErrorExtra =
    | ExtraNetwork
    | ExtraConn
    | Response403
    | Response404
    | Response500
    | Response502
    | ResponseOther
    | ExtraUnknown

  /** One callback invocation with its arguments. */
  datatype Notification =
    | Prepared
    | Completion
    | BufferingUpdate(percent: int)
    | SeekComplete
    | VideoSizeChanged(width: int, height: int)
    | Error(what: ErrorWhat, errorExtra: ErrorExtra)
    | Info(info: InfoWhat, infoExtra: int)

  /** The listener kind that receives a notification. */
  function KindOf(n: Notification): ListenerKind {
    match n
    case Prepared => PreparedKind
    case Completion => CompletionKind
    case BufferingUpdate(_) => BufferingUpdateKind
    case SeekComplete => SeekCompleteKind
    case VideoSizeChanged(_, _) => VideoSizeChangedKind
    case Error(_, _) => ErrorKind
    case Info(_, _) => InfoKind
  }
}
