# iplayer media-player core, modelled in Dafny

This project models the two pieces of state logic at the core of the iplayer
video library:

- **The ExoPlayer adapter** (`ExoMediaPlayer`). It wraps the ExoPlayer engine behind a
  MediaPlayer-style interface. Its parts:
  - the player-status lifecycle (IDLE, INITIALIZED, PREPARING, PREPARED, END);
  - the state store, a four-slot window of encoded `(playWhenReady, playbackState)` samples;
  - `reportPlayerState`, which turns that level-triggered window into edge events
    (completion, prepared, buffering start and end) and drives the buffering-update repeater;
  - media-source selection: classify the URI, else use the process-wide cache of resolved
    URLs, else probe the URL in the background;
  - the mapping from playback errors to (what, extra) error codes;
  - `isPlaying`.
- **The façade** (`XMediaPlayer`). It owns the output surface and fans callbacks out to
  listeners. Its parts:
  - the surface-ownership protocol over `mSurface`, `ownsSurface`, `textureView` and
    `surfaceHolder`;
  - the view callbacks;
  - seven ordered listener registries with add, remove, clear and dispatch.

Collaborators that the code calls but does not define are modelled as recorded traces:

- `ExoMediaPlayer.engineCalls` records the ExoPlayer engine calls.
- `ExoMediaPlayer.notified` records the listener callbacks.
- `XMediaPlayer.calls` records the backend and surface calls.
- `XMediaPlayer.delivered` records the listener deliveries.

Ordering properties such as "hand the new surface to the backend before releasing the old
one" and "no surface is released twice" are stated over these traces.

Modules:

- `Wrappers`: Option and Outcome; Java exceptions as values.
- `Events`: listener kinds and notification payloads.
- `PlayerState`: engine states and the bit-vector encoding `getState`.
- `History`: the `StateStore` class over an `array<bv32>`, with the value functions
  that specify it.
- `Reconciler`: `reportPlayerState` on values, with its properties.
- `SourceResolver`: `buildMediaSource`, the prepare decision, the probe outcome and the
  `UrlCache` class.
- `ErrorMapping`: the `onPlayerError` classification.
- `ExoPlayer`: the `ExoMediaPlayer` class.
- `Surfaces`: the surface protocol on values, its invariant and its proof over arbitrary
  operation sequences.
- `Fanout`: ordered registries and dispatch on values.
- `XMedia`: the `XMediaPlayer` class.

Inputs the source obtains from outside become parameters:

- the engine's current `playWhenReady`, playback state and buffered percentage;
- `Util.inferContentType`, a function value;
- network availability;
- the probe's result;
- whether a texture view still has the façade's listener;
- whether a holder's surface is valid.

`Player.STATE_*` are the ExoPlayer 2 codes 1 to 4. The encoding is the OR with
`0xF000_0000` on `bv32`.

## Model

| member | source | states |
|---|---|---|
| PlayerState.DecodeEncode | exoplayer/src/main/java/com/caij/exoplayer/ExoMediaPlayer.java:675-677 | the encoding of a sample can be decoded back to that sample |
| PlayerState.EncodeInjective | exoplayer/src/main/java/com/caij/exoplayer/ExoMediaPlayer.java:675-677 | two samples encode identically exactly when they are the same (playWhenReady, state) pair |
| PlayerState.FlagRecoversPlayWhenReady | exoplayer/src/main/java/com/caij/exoplayer/ExoMediaPlayer.java:683-685 | the high-nibble flag test on an encoded sample recovers playWhenReady |
| PlayerState.EncodeEqualsPlainCode | exoplayer/src/main/java/com/caij/exoplayer/ExoMediaPlayer.java:769-771 | an encoded sample equals a plain state code exactly when playWhenReady is false and the states agree |
| PlayerState.Decode | exoplayer/src/main/java/com/caij/exoplayer/ExoMediaPlayer.java:675-677 | a decoded entry re-encodes to the same bits |
| PlayerState.Encode | exoplayer/src/main/java/com/caij/exoplayer/ExoMediaPlayer.java:675-677 | the encoding carries the flag exactly when playWhenReady holds and its low bits are the state code |
| PlayerState.HasPlayWhenReady | exoplayer/src/main/java/com/caij/exoplayer/ExoMediaPlayer.java:683-685 | the flag test holds exactly when the top nibble is non-zero |
| History.InitialHistory | exoplayer/src/main/java/com/caij/exoplayer/ExoMediaPlayer.java:650-655 | the initial window holds four entries, each the encoding of (false, IDLE) |
| History.Record | exoplayer/src/main/java/com/caij/exoplayer/ExoMediaPlayer.java:657-673 | a repeat of the last entry leaves the window unchanged; otherwise the window shifts left, keeps length 4, ends in the new entry, and that entry differs from its predecessor |
| History.TailMatchesExactly | exoplayer/src/main/java/com/caij/exoplayer/ExoMediaPlayer.java:687-697 | comparing entries under the all-ones mask is plain equality of the window's trailing entries with the pattern |
| History.TailMatches | exoplayer/src/main/java/com/caij/exoplayer/ExoMediaPlayer.java:687-697 | without ignorePlayWhenReady, matchesHistory holds exactly when the window's trailing entries equal the pattern, in order |
| History.RecordExtendsDistinct | exoplayer/src/main/java/com/caij/exoplayer/ExoMediaPlayer.java:657-673 | recording preserves the pairwise distinctness of adjacent entries and extends it by one slot on a change |
| History.FeedKeepsChangesDistinct | exoplayer/src/main/java/com/caij/exoplayer/ExoMediaPlayer.java:657-673 | after any run of samples, the slots written by changes hold pairwise distinct adjacent entries |
| History.Feed | exoplayer/src/main/java/com/caij/exoplayer/ExoMediaPlayer.java:657-673 | feeding any run of samples keeps the window at four entries; what the fed window holds is stated by History.FeedKeepsChangesDistinct |
| History.StateStore.constructor | exoplayer/src/main/java/com/caij/exoplayer/ExoMediaPlayer.java:650-655 | a fresh store holds the initial window |
| History.StateStore.History | exoplayer/src/main/java/com/caij/exoplayer/ExoMediaPlayer.java:650 | the window always has four entries |
| History.StateStore.GetMostRecentState | exoplayer/src/main/java/com/caij/exoplayer/ExoMediaPlayer.java:679-681 | returns the newest entry of the window |
| History.StateStore.IsLastReportedPlayWhenReady | exoplayer/src/main/java/com/caij/exoplayer/ExoMediaPlayer.java:683-685 | returns playWhenReady of whichever sample the newest entry encodes |
| History.StateStore.SetMostRecentState | exoplayer/src/main/java/com/caij/exoplayer/ExoMediaPlayer.java:657-673 | the in-place shift of the array leaves the window equal to Record of the old window and the encoded sample |
| History.StateStore.MatchesHistory | exoplayer/src/main/java/com/caij/exoplayer/ExoMediaPlayer.java:687-697 | the accumulating loop returns whether the masked trailing entries equal the pattern |
| History.StateStore.Reset | exoplayer/src/main/java/com/caij/exoplayer/ExoMediaPlayer.java:699-701 | a fresh array holding the initial window |
| Reconciler.ReportSample | exoplayer/src/main/java/com/caij/exoplayer/ExoMediaPlayer.java:756-811 | reporting keeps the window at four entries |
| Reconciler.RepeatIsNoOp | exoplayer/src/main/java/com/caij/exoplayer/ExoMediaPlayer.java:763-766 | a sample equal to the newest entry changes nothing, requests nothing of the repeater and emits nothing |
| Reconciler.SecondReportSilent | exoplayer/src/main/java/com/caij/exoplayer/ExoMediaPlayer.java:763-766 | reporting the same sample twice in a row makes the second report a no-op |
| Reconciler.DecideCharacterised | exoplayer/src/main/java/com/caij/exoplayer/ExoMediaPlayer.java:775-809 | each event is emitted exactly when its own pattern matches the updated window, so the first-match order never has to choose |
| Reconciler.Decide | exoplayer/src/main/java/com/caij/exoplayer/ExoMediaPlayer.java:775-809 | Completion exactly when the newest entry is (true, ENDED); Prepared, BufferingStart and BufferingEnd each only when the newest entry is the last sample of that event's pattern |
| Reconciler.RepeaterRequestFor | exoplayer/src/main/java/com/caij/exoplayer/ExoMediaPlayer.java:769-773 | the repeater is started only by the encoding of (false, READY) and stopped only by that of (false, IDLE) or (false, ENDED), never by a flagged entry |
| Reconciler.EventOnlyOnChange | exoplayer/src/main/java/com/caij/exoplayer/ExoMediaPlayer.java:763-766 | an event is emitted only when the sample differs from the newest entry |
| Reconciler.CompletionOnEnded | exoplayer/src/main/java/com/caij/exoplayer/ExoMediaPlayer.java:775-778 | a new (true, ENDED) sample emits Completion whatever the earlier history |
| Reconciler.RepeaterRequestCharacterised | exoplayer/src/main/java/com/caij/exoplayer/ExoMediaPlayer.java:769-773 | the repeater is started only by (false, READY) and stopped only by (false, IDLE) or (false, ENDED); playing samples never touch it here |
| Reconciler.Events | exoplayer/src/main/java/com/caij/exoplayer/ExoMediaPlayer.java:756-811 | a run of samples yields one event per sample; which event each sample yields is stated by Reconciler.EventsStep, Reconciler.PreparedExactlyOnce, Reconciler.BufferingEdges and Reconciler.RepeatsSilent |
| Reconciler.PreparedExactlyOnce | exoplayer/src/main/java/com/caij/exoplayer/ExoMediaPlayer.java:780-787 | from any window, (false,IDLE), (false,BUFFERING), (false,READY) followed by any number of repeated (false,READY) samples emit Prepared exactly once, on the third sample |
| Reconciler.IdleThenBuffering | exoplayer/src/main/java/com/caij/exoplayer/ExoMediaPlayer.java:756-787 | from any window, (false,IDLE) then (false,BUFFERING) emit nothing and leave those two samples newest in the window |
| Reconciler.ReadyCompletesPrepared | exoplayer/src/main/java/com/caij/exoplayer/ExoMediaPlayer.java:780-787 | (false,READY) after (false,IDLE), (false,BUFFERING) emits Prepared and becomes the newest entry |
| Reconciler.EventsStep | exoplayer/src/main/java/com/caij/exoplayer/ExoMediaPlayer.java:756-811 | a run of reports is the first report followed by the rest from the new window |
| Reconciler.BufferingEdges | exoplayer/src/main/java/com/caij/exoplayer/ExoMediaPlayer.java:789-809 | while playing, READY, BUFFERING, READY emit BufferingStart and then BufferingEnd, whatever the earlier window |
| Reconciler.ShiftedTail | exoplayer/src/main/java/com/caij/exoplayer/ExoMediaPlayer.java:657-673 | after a change, the window's last two entries are the previous newest entry and the new sample |
| Reconciler.RepeatsSilent | exoplayer/src/main/java/com/caij/exoplayer/ExoMediaPlayer.java:763-766 | repeating a recorded sample any number of times emits nothing |
| SourceResolver.BuildMediaSource | exoplayer/src/main/java/com/caij/exoplayer/ExoMediaPlayer.java:470-495 | a built source is always for the requested URI and headers; DASH and SmoothStreaming types (inferred from the override URL when one is given) throw IllegalArgumentException |
| SourceResolver.ExtensionClassification | exoplayer/src/main/java/com/caij/exoplayer/ExoMediaPlayer.java:475-486 | with type OTHER, an .mp4/.MP4 path selects the extractor and an .m3u8/.M3U8 path selects HLS; no other path is classified |
| SourceResolver.Lookup | exoplayer/src/main/java/com/caij/exoplayer/ExoMediaPlayer.java:189-190 | a cached URL reads as its entry; a URL not in the cache reads as ""; so a non-empty result is always the cached entry |
| SourceResolver.Resolve | exoplayer/src/main/java/com/caij/exoplayer/ExoMediaPlayer.java:183-198 | a classified URI is prepared at once; a prepared source is for the requested URI and headers; a probe is for the URI's own text after a cache miss; IllegalArgumentException exactly when the URI, or the cached URL, has a DASH or SmoothStreaming type |
| SourceResolver.ClassificationIgnoresCache | exoplayer/src/main/java/com/caij/exoplayer/ExoMediaPlayer.java:183-186 | a classification hit or a throw decides without the cache and starts no probe |
| SourceResolver.ProbeOnlyOnMiss | exoplayer/src/main/java/com/caij/exoplayer/ExoMediaPlayer.java:188-198 | a probe starts exactly when classification fails and the cache has no non-empty entry, and it probes the URI's own text |
| SourceResolver.AfterProbe | exoplayer/src/main/java/com/caij/exoplayer/ExoMediaPlayer.java:215-228 | a null result prepares the default source and caches nothing; a result whose type is DASH or SmoothStreaming throws IllegalArgumentException and nothing else does; otherwise the built source, or the default one when the result does not classify, is prepared and the result is cached under the requested URL |
| SourceResolver.CancelledWrite | exoplayer/src/main/java/com/caij/exoplayer/ExoMediaPlayer.java:230-236 | a cancelled probe caches its result exactly when that result is non-empty |
| SourceResolver.ProbeThenCacheHit | exoplayer/src/main/java/com/caij/exoplayer/ExoMediaPlayer.java:188-228 | after a successful probe is cached, resolving the same URI again prepares the same source with no probe |
| SourceResolver.EndToEndScenario | exoplayer/src/main/java/com/caij/exoplayer/ExoMediaPlayer.java:183-228 | an illustration on one concrete URL of the general SourceResolver.ProbeThenCacheHit: an unclassifiable URL is probed on a miss, its redirect target is cached, and a later resolution is immediate |
| SourceResolver.UrlCache.constructor | exoplayer/src/main/java/com/caij/exoplayer/ExoMediaPlayer.java:64 | the cache starts empty |
| SourceResolver.UrlCache.Get | exoplayer/src/main/java/com/caij/exoplayer/ExoMediaPlayer.java:189-190 | a missing key reads as ""; a non-empty result is the stored entry |
| SourceResolver.UrlCache.Put | exoplayer/src/main/java/com/caij/exoplayer/ExoMediaPlayer.java:223 | the entry is overwritten; the last writer wins |
| ErrorMapping.SilentExactly | exoplayer/src/main/java/com/caij/exoplayer/ExoMediaPlayer.java:578-596 | nothing is notified exactly for an HTTP data-source exception of a running player that is neither a connection failure nor an invalid response code |
| ErrorMapping.ClassifyError | exoplayer/src/main/java/com/caij/exoplayer/ExoMediaPlayer.java:571-625 | a null error or a non-running player gives UNKNOWN/UNKNOWN; silence and IO errors come only from HTTP data-source causes; response-code extras only from an invalid response code |
| ErrorMapping.NotRunningIsUnknown | exoplayer/src/main/java/com/caij/exoplayer/ExoMediaPlayer.java:575-624 | a null error or a non-running player gives UNKNOWN/UNKNOWN |
| ErrorMapping.IoOnlyFromHttp | exoplayer/src/main/java/com/caij/exoplayer/ExoMediaPlayer.java:578-596 | IO errors come only from HTTP data-source causes, and a connection failure gives CONN exactly when the network is available |
| ErrorMapping.ResponseCodePriority | exoplayer/src/main/java/com/caij/exoplayer/ExoMediaPlayer.java:589-600 | an invalid response code of a running player is an IO error whose extra is the first of 403, 404, 500, 502 the message names, or OTHER when it names none; a connection failure takes precedence over the response code |
| ErrorMapping.DistinctCausesDistinctPairs | exoplayer/src/main/java/com/caij/exoplayer/ExoMediaPlayer.java:597-607 | unrecognized-format, illegal-state and decoder-init causes map to three different pairs |
| ExoPlayer.IsPlayingFromSample | exoplayer/src/main/java/com/caij/exoplayer/ExoMediaPlayer.java:352-365 | isPlaying holds exactly when the engine is alive and the encoded sample carries the flag and is neither IDLE nor ENDED |
| ExoPlayer.IsPlayerRunning | exoplayer/src/main/java/com/caij/exoplayer/ExoMediaPlayer.java:511-513 | the player is running exactly in the INITIALIZED, PREPARING and PREPARED statuses |
| ExoPlayer.IsPlaying | exoplayer/src/main/java/com/caij/exoplayer/ExoMediaPlayer.java:352-365 | the player is playing exactly when the engine exists, playWhenReady holds and the state is neither IDLE nor ENDED |
| ExoPlayer.AnnouncementsGated | exoplayer/src/main/java/com/caij/exoplayer/ExoMediaPlayer.java:756-811 | a report makes at most one callback, only to a set listener of its kind; a repeated sample makes none; Completion and Prepared are delivered exactly when their listener is set |
| ExoPlayer.ExoMediaPlayer.constructor | exoplayer/src/main/java/com/caij/exoplayer/ExoMediaPlayer.java:97-133 | a new adapter is IDLE, has a live engine, an initial window and no listeners; the repeater is stopped |
| ExoPlayer.ExoMediaPlayer.SetBufferRepeaterStarted | exoplayer/src/main/java/com/caij/exoplayer/ExoMediaPlayer.java:738-744 | the repeater runs exactly when a start is requested and a buffering listener is set |
| ExoPlayer.ExoMediaPlayer.Announce | exoplayer/src/main/java/com/caij/exoplayer/ExoMediaPlayer.java:710-734 | a callback goes to the listener of its kind only if that listener is set |
| ExoPlayer.ExoMediaPlayer.CancelProbe | exoplayer/src/main/java/com/caij/exoplayer/ExoMediaPlayer.java:179-181 | the live probe, if any, is cancelled and no probe stays live |
| ExoPlayer.ExoMediaPlayer.SetDataSource | exoplayer/src/main/java/com/caij/exoplayer/ExoMediaPlayer.java:144-171 | from IDLE the URI (possibly null) and headers are stored and the status becomes INITIALIZED; otherwise IllegalStateException is thrown and nothing changes |
| ExoPlayer.ExoMediaPlayer.PrepareAsync | exoplayer/src/main/java/com/caij/exoplayer/ExoMediaPlayer.java:175-242 | without an engine, NullPointerException and no change; otherwise stop playback, cancel the probe, then prepare, probe or throw as Resolve decides; PREPARING only on normal return |
| ExoPlayer.ExoMediaPlayer.OnProbeFinished | exoplayer/src/main/java/com/caij/exoplayer/ExoMediaPlayer.java:215-228 | the engine prepares the source and the cache is written as AfterProbe says |
| ExoPlayer.ExoMediaPlayer.OnProbeCancelled | exoplayer/src/main/java/com/caij/exoplayer/ExoMediaPlayer.java:230-236 | the cache is written as CancelledWrite says |
| ExoPlayer.ExoMediaPlayer.Reset | exoplayer/src/main/java/com/caij/exoplayer/ExoMediaPlayer.java:283-298 | the status becomes IDLE and the probe is cancelled; with a live engine, playback is stopped with reset, the window is re-initialised, looping is cleared and the repeater stopped |
| ExoPlayer.ExoMediaPlayer.Release | exoplayer/src/main/java/com/caij/exoplayer/ExoMediaPlayer.java:300-325 | the status becomes END and the probe is cancelled; a live engine is released, the repeater stopped and all seven listeners cleared |
| ExoPlayer.ExoMediaPlayer.SetListener | exoplayer/src/main/java/com/caij/exoplayer/ExoMediaPlayer.java:420-454 | a listener slot is set or emptied; for the buffering listener the repeater follows it |
| ExoPlayer.ExoMediaPlayer.NotifyOnPrepared | exoplayer/src/main/java/com/caij/exoplayer/ExoMediaPlayer.java:723-729 | the status becomes PREPARED before the prepared listener is called |
| ExoPlayer.ExoMediaPlayer.ReportPlayerState | exoplayer/src/main/java/com/caij/exoplayer/ExoMediaPlayer.java:756-811 | the window, the repeater and the callbacks follow ReportSample exactly; Prepared also enters PREPARED; without an engine nothing changes |
| ExoPlayer.ExoMediaPlayer.ApplyRepeaterRequest | exoplayer/src/main/java/com/caij/exoplayer/ExoMediaPlayer.java:769-773 | start and stop requests go through setBufferRepeaterStarted; other samples leave the repeater alone |
| ExoPlayer.ExoMediaPlayer.ReadEvent | exoplayer/src/main/java/com/caij/exoplayer/ExoMediaPlayer.java:775-809 | the four tests on the store return Decide of its window |
| ExoPlayer.ExoMediaPlayer.AnnounceEvent | exoplayer/src/main/java/com/caij/exoplayer/ExoMediaPlayer.java:775-809 | the event's callback is announced and a prepared event enters PREPARED |
| ExoPlayer.ExoMediaPlayer.OnPlayerStateChanged | exoplayer/src/main/java/com/caij/exoplayer/ExoMediaPlayer.java:554-558 | state changes are reported only while the player is running |
| ExoPlayer.ExoMediaPlayer.OnPlayerError | exoplayer/src/main/java/com/caij/exoplayer/ExoMediaPlayer.java:571-625 | a live engine stops the repeater; the error listener receives exactly the ClassifyError result, if any |
| ExoPlayer.ExoMediaPlayer.OnSeekProcessed | exoplayer/src/main/java/com/caij/exoplayer/ExoMediaPlayer.java:638-642 | seek-complete is announced only while running |
| ExoPlayer.ExoMediaPlayer.OnVideoSizeChanged | exoplayer/src/main/java/com/caij/exoplayer/ExoMediaPlayer.java:517-526 | while running, the size is stored and announced, and a positive unapplied rotation is announced after it |
| ExoPlayer.ExoMediaPlayer.OnRenderedFirstFrame | exoplayer/src/main/java/com/caij/exoplayer/ExoMediaPlayer.java:529-533 | rendering-start is announced only while running with a live engine |
| ExoPlayer.ExoMediaPlayer.OnRepeaterTick | exoplayer/src/main/java/com/caij/exoplayer/ExoMediaPlayer.java:113-128 | a running repeater stops itself on IDLE or ENDED and otherwise delivers the buffered percentage, which always reaches a listener |
| ExoPlayer.ExoMediaPlayer.Start | exoplayer/src/main/java/com/caij/exoplayer/ExoMediaPlayer.java:245-254 | a live engine is told to play |
| ExoPlayer.ExoMediaPlayer.Pause | exoplayer/src/main/java/com/caij/exoplayer/ExoMediaPlayer.java:269-272 | a live engine is told not to play |
| ExoPlayer.ExoMediaPlayer.Stop | exoplayer/src/main/java/com/caij/exoplayer/ExoMediaPlayer.java:257-266 | the engine is stopped only while isPlaying holds |
| ExoPlayer.ExoMediaPlayer.SeekTo | exoplayer/src/main/java/com/caij/exoplayer/ExoMediaPlayer.java:275-280 | a live engine seeks |
| ExoPlayer.ExoMediaPlayer.SetLooping | exoplayer/src/main/java/com/caij/exoplayer/ExoMediaPlayer.java:384-389 | the flag is kept even without an engine; a live engine gets the repeat mode |
| ExoPlayer.ExoMediaPlayer.SetSurface | exoplayer/src/main/java/com/caij/exoplayer/ExoMediaPlayer.java:392-403 | a live engine receives the surface |
| Surfaces.BindSurfaceBinds | video/src/main/java/com/caij/video/XMediaPlayer.java:104-120 | the backend receives the new surface first; the old one is released afterwards, only if it was bound, differs from the new one and was owned; the façade then holds exactly the given surface and ownership |
| Surfaces.DetachOnlyUnregisters | video/src/main/java/com/caij/video/XMediaPlayer.java:123-137 | detaching forgets both providers and only unregisters; the texture listener is unset only if it is still the façade's |
| Surfaces.ViewPathsBind | video/src/main/java/com/caij/video/XMediaPlayer.java:55-81 | the holder path never owns and binds only a valid surface; the texture path always owns and binds a newly allocated surface only if the texture is available |
| Surfaces.ClearOtherViewIsNoOp | video/src/main/java/com/caij/video/XMediaPlayer.java:83-93 | clear(view) with a view that is not the current one changes nothing and calls nothing |
| Surfaces.ClearPrefersTexture | video/src/main/java/com/caij/video/XMediaPlayer.java:95-102 | with a texture attached, clear() unbinds the texture path and ignores the holder |
| Surfaces.RemoveSurfaceCallbacks | video/src/main/java/com/caij/video/XMediaPlayer.java:123-137 | detaching forgets both view providers, keeps the bound surface and its ownership, and makes only registration calls |
| Surfaces.BindSurface | video/src/main/java/com/caij/video/XMediaPlayer.java:104-120 | the backend gets the target first; the façade then holds the target with the given ownership; the only other call releases the previous surface, when it was owned and is replaced |
| Surfaces.SetVideoSurfaceHolder | video/src/main/java/com/caij/video/XMediaPlayer.java:55-65 | the holder path records the holder, drops the texture, never owns, and binds a surface exactly when the holder has a valid one |
| Surfaces.SetTextureView | video/src/main/java/com/caij/video/XMediaPlayer.java:67-81 | the texture path records the texture, drops the holder, always owns, and binds a surface (allocating one) exactly when the texture is available |
| Surfaces.ClearSurfaceView | video/src/main/java/com/caij/video/XMediaPlayer.java:83-87 | clear(SurfaceView) changes nothing unless the view's holder is the current one, and then unbinds everything without ownership |
| Surfaces.ClearTextureView | video/src/main/java/com/caij/video/XMediaPlayer.java:89-93 | clear(TextureView) changes nothing unless the view is the current texture, and then unbinds everything, keeping ownership true |
| Surfaces.ClearAll | video/src/main/java/com/caij/video/XMediaPlayer.java:95-102 | clear() changes nothing with no view attached; otherwise it unbinds everything, owning exactly when a texture was attached |
| Surfaces.ReleaseAsWritten | video/src/main/java/com/caij/video/XMediaPlayer.java:194-205 | the source's release tells the backend first, detaches both views, releases an owned surface last, and still records that surface as bound and owned |
| Surfaces.Release | video/src/main/java/com/caij/video/XMediaPlayer.java:194-205 | release tells the backend first and leaves no surface or view bound |
| Surfaces.InitialInv | video/src/main/java/com/caij/video/XMediaPlayer.java:23-29 | a fresh façade satisfies the protocol invariant |
| Surfaces.BackendSlotUnchanged | video/src/main/java/com/caij/video/XMediaPlayer.java:104-120 | calls other than setSurface leave the surface the backend renders into unchanged |
| Surfaces.NeutralCallsKeepInv | video/src/main/java/com/caij/video/XMediaPlayer.java:123-137 | registration calls keep the surface invariant |
| Surfaces.AppendSetSurface | video/src/main/java/com/caij/video/XMediaPlayer.java:106 | handing a surface to the backend keeps the no-double-release and release-after-hand-off properties and makes it the backend's surface |
| Surfaces.AppendRelease | video/src/main/java/com/caij/video/XMediaPlayer.java:108-114 | releasing a never-released surface that the backend no longer renders into keeps both trace properties |
| Surfaces.BindKeepsInv | video/src/main/java/com/caij/video/XMediaPlayer.java:104-120 | binding keeps the invariant: no double release, no release of a surface the backend still renders into |
| Surfaces.AllocateKeepsInv | video/src/main/java/com/caij/video/XMediaPlayer.java:77-80 | a newly allocated surface has never been released |
| Surfaces.ThenKeepsInv | video/src/main/java/com/caij/video/XMediaPlayer.java:55-81 | two invariant-keeping steps in sequence keep the invariant |
| Surfaces.DetachKeepsInv | video/src/main/java/com/caij/video/XMediaPlayer.java:123-137 | detaching keeps the invariant |
| Surfaces.AttachHolderKeepsInv | video/src/main/java/com/caij/video/XMediaPlayer.java:55-65 | attaching a holder keeps the invariant |
| Surfaces.AttachTextureKeepsInv | video/src/main/java/com/caij/video/XMediaPlayer.java:67-81 | attaching a texture keeps the invariant |
| Surfaces.SetHolderKeepsInv | video/src/main/java/com/caij/video/XMediaPlayer.java:55-65 | setVideoSurfaceHolder keeps the invariant |
| Surfaces.SetTextureKeepsInv | video/src/main/java/com/caij/video/XMediaPlayer.java:67-81 | setTextureView keeps the invariant |
| Surfaces.BackendReleaseKeepsInv | video/src/main/java/com/caij/video/XMediaPlayer.java:195 | releasing the backend keeps the invariant |
| Surfaces.ReleaseOwnedKeepsInv | video/src/main/java/com/caij/video/XMediaPlayer.java:199-202 | once the backend is released, releasing and forgetting the owned surface keeps the invariant |
| Surfaces.ClearKeepsInv | video/src/main/java/com/caij/video/XMediaPlayer.java:83-102 | each of the three clear operations keeps the invariant |
| Surfaces.ReleaseInSteps | video/src/main/java/com/caij/video/XMediaPlayer.java:194-205 | release is: release the backend, then detach, then release and forget the owned surface |
| Surfaces.ReleaseKeepsInv | video/src/main/java/com/caij/video/XMediaPlayer.java:194-205 | release, as corrected, keeps the invariant |
| Surfaces.ApplyKeepsInv | video/src/main/java/com/caij/video/XMediaPlayer.java:51-205 | every façade operation and view callback keeps the invariant |
| Surfaces.RunUnfold | video/src/main/java/com/caij/video/XMediaPlayer.java:51-137 | a run of operations is its first operation followed by the rest |
| Surfaces.RunKeepsInv | video/src/main/java/com/caij/video/XMediaPlayer.java:51-205 | any run of operations keeps the invariant |
| Surfaces.ProtocolSafe | video/src/main/java/com/caij/video/XMediaPlayer.java:104-205 | from a fresh façade, for any operation sequence: no surface is released twice, none while the live backend renders into it, and at most one view provider is attached |
| Surfaces.ReleaseAsWrittenReleasesTwice | video/src/main/java/com/caij/video/XMediaPlayer.java:194-205 | the source's release keeps the released surface bound, so a second release releases it again |
| Fanout.RemoveFirst | video/src/main/java/com/caij/video/XMediaPlayer.java:447-476 | removing a listener drops one occurrence, if there is one, and nothing else |
| Fanout.RemoveFirstOccurrence | video/src/main/java/com/caij/video/XMediaPlayer.java:447-476 | the removed occurrence is the first one |
| Fanout.AddThenRemove | video/src/main/java/com/caij/video/XMediaPlayer.java:415-476 | adding a new listener and then removing it restores the registry |
| Fanout.AddDuplicateThenRemove | video/src/main/java/com/caij/video/XMediaPlayer.java:415-476 | with duplicates, add then remove drops the earlier occurrence and keeps the new one last |
| Fanout.Deliveries | video/src/main/java/com/caij/video/XMediaPlayer.java:364-413 | dispatch calls the registered listeners once per registration, in registration order, up to the first null entry, where it stops |
| Fanout.DeliveriesAppend | video/src/main/java/com/caij/video/XMediaPlayer.java:364-445 | in a registry without null entries, a listener added last is called last |
| Fanout.DeliveriesStopAtNull | video/src/main/java/com/caij/video/XMediaPlayer.java:364-413 | dispatch over a registry reaches exactly the entries before its first null entry |
| Fanout.RemovedListenerSilent | video/src/main/java/com/caij/video/XMediaPlayer.java:364-476 | a listener registered once and then removed is not called |
| Fanout.DeliveriesCount | video/src/main/java/com/caij/video/XMediaPlayer.java:364-413 | in a registry without null entries, a listener is called as many times as it is registered |
| XMedia.XMediaPlayer.constructor | video/src/main/java/com/caij/video/XMediaPlayer.java:31-49 | a new façade has no surface, no views and seven empty registries |
| XMedia.XMediaPlayer.EmptyRegistries | video/src/main/java/com/caij/video/XMediaPlayer.java:31-37 | the seven registries, each empty |
| XMedia.XMediaPlayer.SetVideoSurfaceInternal | video/src/main/java/com/caij/video/XMediaPlayer.java:104-120 | the fields and the call trace follow BindSurface |
| XMedia.XMediaPlayer.RemoveSurfaceCallbacks | video/src/main/java/com/caij/video/XMediaPlayer.java:123-137 | the fields and the call trace follow RemoveSurfaceCallbacks |
| XMedia.XMediaPlayer.SetVideoSurfaceHolder | video/src/main/java/com/caij/video/XMediaPlayer.java:51-65 | the fields and trace follow SetVideoSurfaceHolder, and the protocol invariant is kept |
| XMedia.XMediaPlayer.AttachHolder | video/src/main/java/com/caij/video/XMediaPlayer.java:57-64 | record the holder, register and bind, as AttachHolder says |
| XMedia.XMediaPlayer.SetTextureView | video/src/main/java/com/caij/video/XMediaPlayer.java:67-81 | the fields and trace follow SetTextureView, and the invariant is kept |
| XMedia.XMediaPlayer.AttachTexture | video/src/main/java/com/caij/video/XMediaPlayer.java:70-80 | record the texture, register, allocate and bind, as AttachTexture says |
| XMedia.XMediaPlayer.ClearSurfaceView | video/src/main/java/com/caij/video/XMediaPlayer.java:83-87 | follows ClearSurfaceView and keeps the invariant |
| XMedia.XMediaPlayer.ClearTextureView | video/src/main/java/com/caij/video/XMediaPlayer.java:89-93 | follows ClearTextureView and keeps the invariant |
| XMedia.XMediaPlayer.Clear | video/src/main/java/com/caij/video/XMediaPlayer.java:95-102 | the registries are emptied and the surface part follows ClearAll |
| XMedia.XMediaPlayer.Release | video/src/main/java/com/caij/video/XMediaPlayer.java:194-205 | follows the corrected Release: the backend is released first, the owned surface released once, the registries emptied and the invariant kept |
| XMedia.XMediaPlayer.SurfaceCreated | video/src/main/java/com/caij/video/XMediaPlayer.java:327-330 | binds the holder's surface, not owned |
| XMedia.XMediaPlayer.SurfaceDestroyed | video/src/main/java/com/caij/video/XMediaPlayer.java:337-340 | binds nothing, not owned |
| XMedia.XMediaPlayer.SurfaceTextureAvailable | video/src/main/java/com/caij/video/XMediaPlayer.java:342-345 | binds a newly allocated surface, owned |
| XMedia.XMediaPlayer.SurfaceTextureDestroyed | video/src/main/java/com/caij/video/XMediaPlayer.java:352-356 | binds nothing, owned, and returns false |
| XMedia.XMediaPlayer.SetSurfaceDirectly | video/src/main/java/com/caij/video/XMediaPlayer.java:252-260 | setDisplay and setSurface always throw IllegalStateException |
| XMedia.XMediaPlayer.ClearListeners | video/src/main/java/com/caij/video/XMediaPlayer.java:179-188 | all seven registries become empty |
| XMedia.XMediaPlayer.AddListener | video/src/main/java/com/caij/video/XMediaPlayer.java:415-445 | appends to the registry of that kind; duplicates and null are kept |
| XMedia.XMediaPlayer.RemoveListener | video/src/main/java/com/caij/video/XMediaPlayer.java:447-476 | removes the first equal entry, null included, from the registry of that kind |
| XMedia.XMediaPlayer.SetListener | video/src/main/java/com/caij/video/XMediaPlayer.java:277-323 | the prepared setter appends a non-null listener; every other deprecated setter throws IllegalStateException and changes nothing |
| XMedia.XMediaPlayer.Notify | video/src/main/java/com/caij/video/XMediaPlayer.java:364-413 | the dispatch loop calls the registry's listeners in order up to the first null entry, which throws NullPointerException; without one, onInfo and onError return true |

## Left out

- Engine plumbing: ExoPlayer library internals, `MediaSource` factories, data-source
  factories and the bandwidth meter. A built source is a value naming its kind, URI and
  headers.
- The probe's network I/O: `HttpURLConnection`, `AsyncTask` and the thread pool. Its result
  (a redirect target or none) is a parameter of the completion methods. Thread scheduling is
  not modelled. Each completion runs atomically, and a cancelled probe runs only its
  cancellation path.
- Concurrency: `synchronized` and the thread-safety of `ConcurrentHashMap`. The cache is a
  plain map shared through a `UrlCache` object.
- The repeater's `Handler` timing. The repeater is a running flag; each tick is an explicit
  call.
- Logging, `getDuration`, `getCurrentPosition`, the video-size getters, `setVolume` and
  `setSpeed` (floating point), `setScreenOnWhilePlaying` and `setWakeMode` (empty bodies),
  and `setNextMediaPlayer` (always throws).
- XMediaPlayer's pass-through methods (`setDataSource`, `prepareAsync`, `start`, `stop`,
  `pause`, `seekTo`, `reset`, the getters, `setLooping`). They delegate to the backend
  unchanged.
- The façade's constructor registers the façade as all seven listeners of its backend. That
  wiring is not modelled; the two classes are modelled separately.
- `surfaceChanged`, `onSurfaceTextureSizeChanged` and `onSurfaceTextureUpdated` have empty
  bodies. They are the `NoOpCallback` operation in `Surfaces.Op`, so `Surfaces.ProtocolSafe`
  covers them.
- Surface identity: Java compares surfaces by reference. Here a holder's surface is
  `Provided(id)`, and a surface made from a SurfaceTexture is `Created(serial)` with a fresh
  serial. A holder surface that is replaced by another object with the same id is not
  distinguished.
- ExoPlayer.ExoMediaPlayer.SetDataSource: `setDataSource(String)` with a null path throws
  NullPointerException from `Uri.parse` before anything is stored; the model takes an
  already parsed `Option<Uri>` and does not model that parse.
- XMedia.XMediaPlayer.Notify: listeners run no code in the model. A listener that throws,
  or that calls back into the façade during dispatch (adding or removing a listener, clear,
  release), is not modelled: the registry is read once per dispatch. In the source the loop
  iterates the live list, so an add during the pass throws ConcurrentModificationException
  and a self-removal can skip the next listener. The same holds for
  ExoPlayer.ExoMediaPlayer.Announce and AnnounceEvent, whose listener slots are called with
  no effect on the adapter's state.
- Listener identity: registries hold listener ids, with `None` for a null listener. `remove`
  uses Java `equals`, modelled as entry equality.
- `Util.inferContentType` is an arbitrary function from a URL string to a content type. The
  URI's path is a field of `Uri`, not parsed from the text.
- Error and info codes of the player interface are symbolic constants, not their integer
  values.
- ExoPlayer.ExoMediaPlayer.PrepareAsync: prepareAsync does not always end in PREPARING. The
  code enters PREPARING only when `buildMediaSource` does not throw and the engine exists
  (line 177 dereferences it). The model follows the code.
- ExoPlayer.ExoMediaPlayer.ReportPlayerState: the repeater comparison at lines 769-771 uses
  the full encoded value against plain state codes, so a playing sample never starts or
  stops the repeater. The model keeps this. Completion does not stop the repeater; the tick
  at lines 119-121 does.
- ExoPlayer.ExoMediaPlayer.OnPlayerError: the `contains("...")` tests on the exception text
  are booleans of the cause. The text itself is not modelled.

## Findings

| source | as written | input that shows it | evidently intended | confidence | as-written member | corrected member |
|---|---|---|---|---|---|---|
| video/src/main/java/com/caij/video/XMediaPlayer.java:194-205 | `release()` releases an owned `mSurface` but leaves it in `mSurface` with `ownsSurface` still true | attach an available TextureView, then call `release()` twice: the second call releases the same surface again (so would a later `setTextureView(null)`) | forget the surface once it is released, so that each owned surface is released exactly once | not executed | Surfaces.ReleaseAsWritten, Surfaces.ReleaseAsWrittenReleasesTwice | Surfaces.Release, Surfaces.ReleaseKeepsInv, XMedia.XMediaPlayer.Release |
