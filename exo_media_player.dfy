/**
 * The ExoPlayer adapter: the MediaPlayer-style status lifecycle on top of the
 * engine, source resolution with the background probe and the URL cache, the
 * reconciliation of engine state changes into listener callbacks, the error
 * mapping and the buffering repeater.
 */
module ExoPlayer {
  import opened Wrappers
  import opened Events
  import opened PlayerState
  import opened History
  import opened Reconciler
  import opened SourceResolver
  import opened ErrorMapping
  import Surfaces

  /** mPlayerStatus */
  datatype PlayerStatus = StatusIdle | StatusInitialized | StatusPreparing | StatusPrepared | StatusEnd

  /** isPlayerRunning: a data source has been set and the player is not released. */
  predicate IsPlayerRunning(status: PlayerStatus): (b: bool)
    ensures b <==> status in {StatusInitialized, StatusPreparing, StatusPrepared}
  {
    status != StatusIdle && status != StatusEnd
  }

  /** isPlaying: a live engine that is ready or buffering and wants to play. */
  function IsPlaying(engineAlive: bool, playWhenReady: bool, state: EngineState): (r: bool)
    ensures r <==> engineAlive && playWhenReady && state != Idle && state != Ended
  {
    engineAlive && (state == Ready || state == Buffering) && playWhenReady
  }

  /**
   * isPlaying agrees with the encoded sample: the player plays exactly when the
   * engine is alive, the sample carries the playWhenReady flag, and its state is
   * neither IDLE nor ENDED.
   */
  lemma IsPlayingFromSample(engineAlive: bool, playWhenReady: bool, state: EngineState)
    ensures IsPlaying(engineAlive, playWhenReady, state)
            <==> engineAlive && HasPlayWhenReady(Encode(playWhenReady, state))
                 && Encode(playWhenReady, state) != Encode(true, Idle)
                 && Encode(playWhenReady, state) != Encode(true, Ended)
  {
    FlagRecoversPlayWhenReady(playWhenReady, state);
    if playWhenReady {
      EncodeInjective(true, state, true, Idle);
      EncodeInjective(true, state, true, Ended);
    }
  }

  /** The calls the adapter makes on its engine. */
  datatype EngineCall =
    | SetPlayWhenReady(play: bool)
    | PrepareSource(source: MediaSource)
    | StopEngine(resetEngine: bool)
    | ReleaseEngine
    | SetRepeatMode(repeatAll: bool)
    | SeekEngine(msec: int)
    | SetVideoSurface(target: Option<Surfaces.Surface>)

  /** A notification reaches the single listener slot of its kind only if one is set. */
  function Announcement(n: Notification, listeners: set<ListenerKind>): seq<Notification> {
    if KindOf(n) in listeners then [n] else []
  }

  /** The callback an event of reportPlayerState turns into. */
  function EventNotification(event: Event, percent: int): Option<Notification> {
    match event
    case NoEvent => None
    case CompletionEvent => Some(Completion)
    case PreparedEvent => Some(Prepared)
    case BufferingStartEvent => Some(Info(BufferingStartInfo, percent))
    case BufferingEndEvent => Some(Info(BufferingEndInfo, percent))
  }

  /** What reportPlayerState announces for an event. */
  function Announcements(event: Event, percent: int, listeners: set<ListenerKind>): seq<Notification> {
    var n := EventNotification(event, percent);
    if n.Some? then Announcement(n.value, listeners) else []
  }

  /** Whether the repeater runs after a request; it only starts with a buffering listener. */
  function RepeaterAfter(running: bool, request: RepeaterRequest, listeners: set<ListenerKind>): bool {
    match request
    case StartRepeater => BufferingUpdateKind in listeners
    case StopRepeater => false
    case KeepRepeater => running
  }

  /** The engine calls prepareAsync makes for a resolution, after stopping playback. */
  function PrepareCalls(r: Resolution): seq<EngineCall> {
    if r.PrepareNow? then [PrepareSource(r.source)] else []
  }

  /** The probes a cancel() affects: the live one, if any. */
  function Cancelled(probe: Option<string>): multiset<string> {
    if probe.Some? then multiset{probe.value} else multiset{}
  }

  /** The cache after an optional write. */
  function Written(entries: map<string, string>, w: Option<(string, string)>): map<string, string> {
    if w.Some? then entries[w.value.0 := w.value.1] else entries
  }

  /**
   * Announcements are the listener-gated image of the events: exactly one callback
   * per event when its listener is set, none otherwise, and never one for a
   * sample that repeats the most recent entry.
   */
  lemma AnnouncementsGated(h: seq<bv32>, playWhenReady: bool, s: EngineState, percent: int,
                           listeners: set<ListenerKind>)
    requires |h| == SIZE
    ensures var r := ReportSample(h, playWhenReady, s);
            var a := Announcements(r.event, percent, listeners);
            && |a| <= 1
            && (h[SIZE - 1] == Encode(playWhenReady, s) ==> a == [])
            && (r.event == CompletionEvent ==> (a == [Completion] <==> CompletionKind in listeners))
            && (r.event == PreparedEvent ==> (a == [Prepared] <==> PreparedKind in listeners))
            && (a != [] ==> KindOf(a[0]) in listeners)
  {
    if h[SIZE - 1] == Encode(playWhenReady, s) {
      RepeatIsNoOp(h, playWhenReady, s);
    }
  }

  class ExoMediaPlayer {
    var status: PlayerStatus
    /** mExoPlayer != null */
    var engineAlive: bool
    var isLooping: bool
    const store: StateStore
    /** The kinds whose single listener slot is set. */
    var listeners: set<ListenerKind>
    var repeaterRunning: bool
    var uri: Option<Uri>
    var headers: Option<Headers>
    /** The URL of the probe task that is running and not cancelled. */
    var probe: Option<string>
    /** Cancelled probe tasks whose onCancelled has not run yet. */
    var cancelledProbes: multiset<string>
    /** The process-wide cache of resolved URLs, shared by every adapter. */
    const cache: UrlCache
    /** The engine library's content-type inference. */
    const inferContentType: string -> ContentType
    /** Calls made on the engine, in order. */
    var engineCalls: seq<EngineCall>
    /** Callbacks made on the listeners, in order. */
    var notified: seq<Notification>
    var videoWidth: int
    var videoHeight: int

    ghost predicate Valid()
      reads this, store
    {
      && store.Valid()
      && (repeaterRunning ==> BufferingUpdateKind in listeners)
      && (probe.Some? ==> engineAlive && uri.Some? && probe.value == uri.value.text
                          && (status == StatusPreparing || status == StatusPrepared))
    }

    constructor (cache: UrlCache, infer: string -> ContentType)
      ensures Valid() && fresh(store) && fresh(store.prevStates)
      ensures store.History() == InitialHistory()
      ensures status == StatusIdle && engineAlive && !isLooping && listeners == {} && !repeaterRunning
      ensures uri.None? && headers.None? && probe.None? && cancelledProbes == multiset{}
      ensures engineCalls == [] && notified == [] && videoWidth == 0 && videoHeight == 0
      ensures this.cache == cache && inferContentType == infer
    {
      status := StatusIdle;
      engineAlive := true;
      isLooping := false;
      store := new StateStore();
      listeners := {};
      repeaterRunning := false;
      uri := None;
      headers := None;
      probe := None;
      cancelledProbes := multiset{};
      this.cache := cache;
      inferContentType := infer;
      engineCalls := [];
      notified := [];
      videoWidth := 0;
      videoHeight := 0;
    }

    /** setBufferRepeaterStarted: start only with a buffering listener, otherwise stop. */
    method SetBufferRepeaterStarted(start: bool)
      modifies this`repeaterRunning
      ensures repeaterRunning == (start && BufferingUpdateKind in listeners)
    {
      repeaterRunning := start && BufferingUpdateKind in listeners;
    }

    /** notifyOn…: call the listener of the notification's kind if it is set. */
    method Announce(n: Notification)
      modifies this`notified
      ensures notified == old(notified) + Announcement(n, listeners)
    {
      if KindOf(n) in listeners {
        notified := notified + [n];
      }
    }

    /** cancel(true) on the current task, if any. */
    method CancelProbe()
      modifies this`probe, this`cancelledProbes
      ensures probe.None? && cancelledProbes == old(cancelledProbes) + Cancelled(old(probe))
    {
      if probe.Some? {
        cancelledProbes := cancelledProbes + multiset{probe.value};
        probe := None;
      }
    }

    /** setDataSource (all overloads): only from IDLE; a null Uri is stored as None. */
    method SetDataSource(u: Option<Uri>, h: Option<Headers>) returns (o: Outcome<JavaException>)
      requires Valid()
      modifies this`uri, this`headers, this`status
      ensures Valid()
      ensures old(status) == StatusIdle ==> o == Pass && status == StatusInitialized && uri == u && headers == h
      ensures old(status) != StatusIdle ==>
                o == Fail(IllegalState) && status == old(status) && uri == old(uri) && headers == old(headers)
    {
      if status != StatusIdle {
        return Fail(IllegalState);
      }
      uri := u;
      headers := h;
      status := StatusInitialized;
      o := Pass;
    }

    /**
     * prepareAsync: stop playback, cancel a pending probe, then prepare a source
     * now, start a probe, or throw; PREPARING is entered only on normal return.
     */
    method PrepareAsync() returns (o: Outcome<JavaException>)
      requires Valid()
      modifies this`engineCalls, this`probe, this`cancelledProbes, this`status
      ensures Valid()
      ensures !old(engineAlive) ==>
                && o == Fail(NullPointer) && engineCalls == old(engineCalls) && probe == old(probe)
                && cancelledProbes == old(cancelledProbes) && status == old(status)
      ensures old(engineAlive) ==> cancelledProbes == old(cancelledProbes) + Cancelled(old(probe))
      ensures old(engineAlive) && old(uri).None? ==>
                o == Pass && status == StatusPreparing && probe.None?
                && engineCalls == old(engineCalls) + [SetPlayWhenReady(false)]
      ensures old(engineAlive) && old(uri).Some? ==>
                var r := Resolve(inferContentType, old(uri).value, old(headers), old(cache.entries));
                && engineCalls == old(engineCalls) + [SetPlayWhenReady(false)] + PrepareCalls(r)
                && probe == (if r.StartProbe? then Some(r.url) else None)
                && o == (if r.ThrowsIllegalArgument? then Fail(IllegalArgument) else Pass)
                && status == (if r.ThrowsIllegalArgument? then old(status) else StatusPreparing)
    {
      if !engineAlive {
        return Fail(NullPointer);
      }
      engineCalls := engineCalls + [SetPlayWhenReady(false)];
      CancelProbe();
      if uri.Some? {
        ProbeOnlyOnMiss(inferContentType, uri.value, headers, cache.entries);
        var built := BuildMediaSource(inferContentType, uri.value, headers, None);
        if built.Unsupported? {
          return Fail(IllegalArgument);
        }
        if built.Built? {
          engineCalls := engineCalls + [PrepareSource(built.source)];
        } else {
          var urlstr := uri.value.text;
          var realUrl := cache.Get(urlstr);
          if realUrl != "" {
            var rebuilt := BuildMediaSource(inferContentType, uri.value, headers, Some(realUrl));
            if rebuilt.Unsupported? {
              return Fail(IllegalArgument);
            }
            var source := if rebuilt.Built? then rebuilt.source else DefaultMediaSource(uri.value, headers);
            engineCalls := engineCalls + [PrepareSource(source)];
          } else {
            probe := Some(urlstr);
          }
        }
      }
      status := StatusPreparing;
      o := Pass;
    }

    /** The probe's onPostExecute with its result (None when the probe failed). */
    method OnProbeFinished(result: Option<string>) returns (o: Outcome<JavaException>)
      requires Valid() && probe.Some?
      modifies this`engineCalls, this`probe, cache
      ensures Valid() && probe.None?
      ensures var out := AfterProbe(inferContentType, old(uri).value, old(headers), old(probe).value, result);
              if out.PrepareAndCache? then
                && o == Pass && engineCalls == old(engineCalls) + [PrepareSource(out.source)]
                && cache.entries == Written(old(cache.entries), out.cacheWrite)
              else
                o == Fail(IllegalArgument) && engineCalls == old(engineCalls) && cache.entries == old(cache.entries)
    {
      var urlstr := probe.value;
      probe := None;
      if result.Some? {
        var built := BuildMediaSource(inferContentType, uri.value, headers, result);
        if built.Unsupported? {
          return Fail(IllegalArgument);
        }
        var source := if built.Built? then built.source else DefaultMediaSource(uri.value, headers);
        engineCalls := engineCalls + [PrepareSource(source)];
        cache.Put(urlstr, result.value);
      } else {
        engineCalls := engineCalls + [PrepareSource(DefaultMediaSource(uri.value, headers))];
      }
      o := Pass;
    }

    /** A cancelled probe's onCancelled: a non-empty result is still cached. */
    method OnProbeCancelled(url: string, result: Option<string>)
      requires Valid() && url in cancelledProbes
      modifies this`cancelledProbes, cache
      ensures Valid()
      ensures cancelledProbes == old(cancelledProbes) - multiset{url}
      ensures cache.entries == Written(old(cache.entries), CancelledWrite(url, result))
    {
      cancelledProbes := cancelledProbes - multiset{url};
      if result.Some? && result.value != "" {
        cache.Put(url, result.value);
      }
    }

    /** reset: back to IDLE; a live engine is stopped and the window and looping are reset. */
    method Reset()
      requires Valid()
      modifies this`engineCalls, this`isLooping, this`repeaterRunning, this`probe, this`cancelledProbes,
               this`status, store
      ensures Valid()
      ensures status == StatusIdle && probe.None? && cancelledProbes == old(cancelledProbes) + Cancelled(old(probe))
      ensures old(engineAlive) ==>
                && engineCalls == old(engineCalls) + [SetPlayWhenReady(false), StopEngine(true)]
                && store.History() == InitialHistory() && !isLooping && !repeaterRunning
      ensures !old(engineAlive) ==>
                && engineCalls == old(engineCalls) && isLooping == old(isLooping)
                && repeaterRunning == old(repeaterRunning) && store.prevStates == old(store.prevStates)
    {
      if engineAlive {
        engineCalls := engineCalls + [SetPlayWhenReady(false), StopEngine(true)];
        store.Reset();
        isLooping := false;
        SetBufferRepeaterStarted(false);
      }
      CancelProbe();
      status := StatusIdle;
    }

    /** release: a live engine is released and every listener cleared; the status becomes END. */
    method Release()
      requires Valid()
      modifies this`engineAlive, this`engineCalls, this`repeaterRunning, this`listeners, this`probe,
               this`cancelledProbes, this`status
      ensures Valid()
      ensures status == StatusEnd && !engineAlive && probe.None?
      ensures cancelledProbes == old(cancelledProbes) + Cancelled(old(probe))
      ensures old(engineAlive) ==> engineCalls == old(engineCalls) + [ReleaseEngine] && !repeaterRunning && listeners == {}
      ensures !old(engineAlive) ==>
                engineCalls == old(engineCalls) && repeaterRunning == old(repeaterRunning) && listeners == old(listeners)
    {
      if engineAlive {
        engineCalls := engineCalls + [ReleaseEngine];
        engineAlive := false;
        SetBufferRepeaterStarted(false);
        listeners := {};
      }
      CancelProbe();
      status := StatusEnd;
    }

    /**
     * setOn…Listener: fill or empty the slot of one kind; the buffering listener
     * also starts or stops the repeater.
     */
    method SetListener(kind: ListenerKind, present: bool)
      requires Valid()
      modifies this`listeners, this`repeaterRunning
      ensures Valid()
      ensures listeners == if present then old(listeners) + {kind} else old(listeners) - {kind}
      ensures kind == BufferingUpdateKind ==> repeaterRunning == present
      ensures kind != BufferingUpdateKind ==> repeaterRunning == old(repeaterRunning)
    {
      listeners := if present then listeners + {kind} else listeners - {kind};
      if kind == BufferingUpdateKind {
        SetBufferRepeaterStarted(present);
      }
    }

    /** notifyOnPrepared: enter PREPARED, then call the prepared listener. */
    method NotifyOnPrepared()
      modifies this`status, this`notified
      ensures status == StatusPrepared && notified == old(notified) + Announcement(Prepared, listeners)
    {
      status := StatusPrepared;
      Announce(Prepared);
    }

    /**
     * reportPlayerState with the engine's current sample and buffered percentage:
     * record the sample, drive the repeater, and announce the event it completes.
     */
    method ReportPlayerState(playWhenReady: bool, state: EngineState, percent: int)
      requires Valid()
      modifies this`status, this`repeaterRunning, this`notified, store.prevStates
      ensures Valid()
      ensures !engineAlive ==>
                && status == old(status) && repeaterRunning == old(repeaterRunning) && notified == old(notified)
                && store.History() == old(store.History())
      ensures engineAlive ==>
                var r := ReportSample(old(store.History()), playWhenReady, state);
                && store.History() == r.history
                && repeaterRunning == RepeaterAfter(old(repeaterRunning), r.repeater, listeners)
                && notified == old(notified) + Announcements(r.event, percent, listeners)
                && status == (if r.event == PreparedEvent then StatusPrepared else old(status))
    {
      if !engineAlive {
        return;
      }
      var newState := Encode(playWhenReady, state);
      var mostRecent := store.GetMostRecentState();
      if newState != mostRecent {
        store.SetMostRecentState(playWhenReady, state);
        ApplyRepeaterRequest(RepeaterRequestFor(newState));
        var event := ReadEvent();
        AnnounceEvent(event, percent);
      }
    }

    /** The repeater half of reportPlayerState: start on plain READY, stop on plain IDLE or ENDED. */
    method ApplyRepeaterRequest(request: RepeaterRequest)
      modifies this`repeaterRunning
      ensures repeaterRunning == RepeaterAfter(old(repeaterRunning), request, listeners)
    {
      match request
      case StartRepeater => SetBufferRepeaterStarted(true);
      case StopRepeater => SetBufferRepeaterStarted(false);
      case KeepRepeater =>
    }

    /** The pattern tests of reportPlayerState against the updated window, first match wins. */
    method ReadEvent() returns (event: Event)
      requires store.Valid()
      ensures event == Decide(store.History())
    {
      if store.GetMostRecentState() == Encode(true, Ended) {
        return CompletionEvent;
      }
      var informPrepared := store.MatchesHistory(PreparedPattern(), false);
      if informPrepared {
        return PreparedEvent;
      }
      var bufferingStart := store.MatchesHistory(BufferingStartPattern(), false);
      if bufferingStart {
        return BufferingStartEvent;
      }
      var bufferingEnd := store.MatchesHistory(BufferingEndPattern(), false);
      if bufferingEnd {
        return BufferingEndEvent;
      }
      event := NoEvent;
    }

    /** The notifying half of reportPlayerState: a prepared event also enters PREPARED. */
    method AnnounceEvent(event: Event, percent: int)
      modifies this`status, this`notified
      ensures notified == old(notified) + Announcements(event, percent, listeners)
      ensures status == (if event == PreparedEvent then StatusPrepared else old(status))
    {
      match event
      case NoEvent =>
      case CompletionEvent => Announce(Completion);
      case PreparedEvent => NotifyOnPrepared();
      case BufferingStartEvent => Announce(Info(BufferingStartInfo, percent));
      case BufferingEndEvent => Announce(Info(BufferingEndInfo, percent));
    }

    /** onPlayerStateChanged: reported only while the player is running. */
    method OnPlayerStateChanged(playWhenReady: bool, state: EngineState, percent: int)
      requires Valid()
      modifies this`status, this`repeaterRunning, this`notified, store.prevStates
      ensures Valid()
      ensures !IsPlayerRunning(old(status)) || !engineAlive ==>
                && status == old(status) && repeaterRunning == old(repeaterRunning) && notified == old(notified)
                && store.History() == old(store.History())
      ensures IsPlayerRunning(old(status)) && engineAlive ==>
                var r := ReportSample(old(store.History()), playWhenReady, state);
                && store.History() == r.history
                && repeaterRunning == RepeaterAfter(old(repeaterRunning), r.repeater, listeners)
                && notified == old(notified) + Announcements(r.event, percent, listeners)
                && status == (if r.event == PreparedEvent then StatusPrepared else old(status))
    {
      if IsPlayerRunning(status) {
        ReportPlayerState(playWhenReady, state, percent);
      }
    }

    /**
     * onPlayerError: a live engine stops the repeater; the classified error, if
     * any, goes to the error listener.
     */
    method OnPlayerError(error: Option<Cause>, hasNetwork: bool)
      requires Valid()
      modifies this`repeaterRunning, this`notified
      ensures Valid()
      ensures repeaterRunning == (if engineAlive then false else old(repeaterRunning))
      ensures var c := ClassifyError(error, IsPlayerRunning(status), hasNetwork);
              notified == old(notified) + (if c.Some? then Announcement(Error(c.value.0, c.value.1), listeners) else [])
    {
      if engineAlive {
        SetBufferRepeaterStarted(false);
      }
      var c := ClassifyError(error, IsPlayerRunning(status), hasNetwork);
      if c.Some? {
        Announce(Error(c.value.0, c.value.1));
      }
    }

    /** onSeekProcessed: a seek-complete callback while running. */
    method OnSeekProcessed()
      modifies this`notified
      ensures notified == old(notified) + (if IsPlayerRunning(status) then Announcement(SeekComplete, listeners) else [])
    {
      if IsPlayerRunning(status) {
        Announce(SeekComplete);
      }
    }

    /**
     * onVideoSizeChanged: while running, remember the size, announce it, and
     * announce a positive unapplied rotation.
     */
    method OnVideoSizeChanged(width: int, height: int, rotation: int)
      modifies this`videoWidth, this`videoHeight, this`notified
      ensures IsPlayerRunning(status) ==>
                && videoWidth == width && videoHeight == height
                && notified == old(notified) + Announcement(VideoSizeChanged(width, height), listeners)
                   + (if rotation > 0 then Announcement(Info(VideoRotationChanged, rotation), listeners) else [])
      ensures !IsPlayerRunning(status) ==>
                videoWidth == old(videoWidth) && videoHeight == old(videoHeight) && notified == old(notified)
    {
      if IsPlayerRunning(status) {
        videoWidth := width;
        videoHeight := height;
        Announce(VideoSizeChanged(width, height));
        if rotation > 0 {
          Announce(Info(VideoRotationChanged, rotation));
        }
      }
    }

    /** onRenderedFirstFrame: a rendering-start info while running with a live engine. */
    method OnRenderedFirstFrame()
      modifies this`notified
      ensures notified == old(notified)
              + (if IsPlayerRunning(status) && engineAlive then Announcement(Info(VideoRenderingStart, 0), listeners) else [])
    {
      if IsPlayerRunning(status) && engineAlive {
        Announce(Info(VideoRenderingStart, 0));
      }
    }

    /**
     * One tick of the buffering repeater, with the engine's state and buffered
     * percentage: IDLE or ENDED stops the repeater, otherwise the percentage is
     * announced.
     */
    method OnRepeaterTick(state: EngineState, percent: int)
      requires Valid() && repeaterRunning
      modifies this`repeaterRunning, this`notified
      ensures Valid()
      ensures !engineAlive ==> repeaterRunning && notified == old(notified)
      ensures engineAlive && (state == Idle || state == Ended) ==> !repeaterRunning && notified == old(notified)
      ensures engineAlive && (state == Ready || state == Buffering) ==>
                repeaterRunning && notified == old(notified) + [BufferingUpdate(percent)]
    {
      if engineAlive {
        if state == Idle || state == Ended {
          SetBufferRepeaterStarted(false);
        } else {
          Announce(BufferingUpdate(percent));
        }
      }
    }

    /** start */
    method Start()
      modifies this`engineCalls
      ensures engineCalls == old(engineCalls) + (if engineAlive then [SetPlayWhenReady(true)] else [])
    {
      if engineAlive {
        engineCalls := engineCalls + [SetPlayWhenReady(true)];
      }
    }

    /** pause */
    method Pause()
      modifies this`engineCalls
      ensures engineCalls == old(engineCalls) + (if engineAlive then [SetPlayWhenReady(false)] else [])
    {
      if engineAlive {
        engineCalls := engineCalls + [SetPlayWhenReady(false)];
      }
    }

    /** stop, with the engine's current sample: stops the engine only while it is playing. */
    method Stop(playWhenReady: bool, state: EngineState)
      modifies this`engineCalls
      ensures engineCalls == old(engineCalls)
              + (if IsPlaying(engineAlive, playWhenReady, state) then [SetPlayWhenReady(false), StopEngine(false)] else [])
    {
      if engineAlive && IsPlaying(engineAlive, playWhenReady, state) {
        engineCalls := engineCalls + [SetPlayWhenReady(false), StopEngine(false)];
      }
    }

    /** seekTo */
    method SeekTo(msec: int)
      modifies this`engineCalls
      ensures engineCalls == old(engineCalls) + (if engineAlive then [SeekEngine(msec)] else [])
    {
      if engineAlive {
        engineCalls := engineCalls + [SeekEngine(msec)];
      }
    }

    /** setLooping: the flag is kept even without an engine. */
    method SetLooping(looping: bool)
      modifies this`engineCalls, this`isLooping
      ensures isLooping == looping
      ensures engineCalls == old(engineCalls) + (if engineAlive then [SetRepeatMode(looping)] else [])
    {
      if engineAlive {
        engineCalls := engineCalls + [SetRepeatMode(looping)];
      }
      isLooping := looping;
    }

    /** setSurface (and setDisplay, which passes the holder's surface) */
    method SetSurface(target: Option<Surfaces.Surface>)
      modifies this`engineCalls
      ensures engineCalls == old(engineCalls) + (if engineAlive then [SetVideoSurface(target)] else [])
    {
      if engineAlive {
        engineCalls := engineCalls + [SetVideoSurface(target)];
      }
    }
  }
}
