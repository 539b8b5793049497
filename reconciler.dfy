/**
 * reportPlayerState of the ExoPlayer adapter, on values: how one raw sample
 * changes the history window, what it asks of the buffering repeater and which
 * semantic event it emits.
 */
module Reconciler {
  import opened Wrappers
  import opened PlayerState
  import opened History

  /** The semantic event a sample emits. */
  datatype Event = NoEvent | CompletionEvent | PreparedEvent | BufferingStartEvent | BufferingEndEvent

  /** What a sample asks of the buffering repeater. */
  datatype RepeaterRequest = StartRepeater | StopRepeater | KeepRepeater

  /** The three entries whose arrival in order means the source is prepared. */
  function PreparedPattern(): seq<bv32> {
    [Encode(false, Idle), Encode(false, Buffering), Encode(false, Ready)]
  }

  /** Ready then buffering while playing: buffering started. */
  function BufferingStartPattern(): seq<bv32> {
    [Encode(true, Ready), Encode(true, Buffering)]
  }

  /** Buffering then ready while playing: buffering ended. */
  function BufferingEndPattern(): seq<bv32> {
    [Encode(true, Buffering), Encode(true, Ready)]
  }

  /**
   * The repeater request for a new encoded sample. The comparison is against the
   * plain state codes, so it only fires for samples without playWhenReady.
   */
  function RepeaterRequestFor(e: bv32): (r: RepeaterRequest)
    ensures r != KeepRepeater ==> !HasPlayWhenReady(e)
    ensures r == StartRepeater ==> Decode(e) == Some((false, Ready))
    ensures r == StopRepeater ==> Decode(e) == Some((false, Idle)) || Decode(e) == Some((false, Ended))
  {
    if e == Code(Ready) then StartRepeater
    else if e == Code(Idle) || e == Code(Ended) then StopRepeater
    else KeepRepeater
  }

  /** The event read off the updated window, first match wins. */
  function Decide(h: seq<bv32>): (e: Event)
    requires |h| == SIZE
    ensures e == CompletionEvent <==> h[SIZE - 1] == Encode(true, Ended)
    ensures e == PreparedEvent ==> h[SIZE - 1] == Encode(false, Ready)
    ensures e == BufferingStartEvent ==> h[SIZE - 1] == Encode(true, Buffering)
    ensures e == BufferingEndEvent ==> h[SIZE - 1] == Encode(true, Ready)
  {
    if h[SIZE - 1] == Encode(true, Ended) then CompletionEvent
    else if TailMatches(h, PreparedPattern(), false) then PreparedEvent
    else if TailMatches(h, BufferingStartPattern(), false) then BufferingStartEvent
    else if TailMatches(h, BufferingEndPattern(), false) then BufferingEndEvent
    else NoEvent
  }

  /** The effect of one sample. */
  datatype Report = Report(history: seq<bv32>, repeater: RepeaterRequest, event: Event)

  /** One sample reported against the window `h`. */
  function ReportSample(h: seq<bv32>, playWhenReady: bool, s: EngineState): (r: Report)
    requires |h| == SIZE
    ensures |r.history| == SIZE
  {
    var e := Encode(playWhenReady, s);
    if e == h[SIZE - 1] then Report(h, KeepRepeater, NoEvent)
    else
      var h' := Record(h, e);
      Report(h', RepeaterRequestFor(e), Decide(h'))
  }

  /** Idempotence: a sample equal to the most recent entry changes nothing and emits nothing. */
  lemma RepeatIsNoOp(h: seq<bv32>, playWhenReady: bool, s: EngineState)
    requires |h| == SIZE && h[SIZE - 1] == Encode(playWhenReady, s)
    ensures ReportSample(h, playWhenReady, s) == Report(h, KeepRepeater, NoEvent)
  {
  }

  /** Reporting the same sample twice in a row: the second report is a no-op. */
  lemma SecondReportSilent(h: seq<bv32>, playWhenReady: bool, s: EngineState)
    requires |h| == SIZE
    ensures var r := ReportSample(h, playWhenReady, s);
            ReportSample(r.history, playWhenReady, s) == Report(r.history, KeepRepeater, NoEvent)
  {
  }

  /**
   * The four patterns end in four different samples, so at most one can match and
   * the priority order never decides between two: each event is emitted exactly
   * when its own pattern matches the updated window.
   */
  lemma DecideCharacterised(h: seq<bv32>)
    requires |h| == SIZE
    ensures Decide(h) == CompletionEvent <==> h[SIZE - 1] == Encode(true, Ended)
    ensures Decide(h) == PreparedEvent <==> h[1..] == PreparedPattern()
    ensures Decide(h) == BufferingStartEvent <==> h[2..] == BufferingStartPattern()
    ensures Decide(h) == BufferingEndEvent <==> h[2..] == BufferingEndPattern()
  {
    EncodeInjective(true, Ended, false, Ready);
    EncodeInjective(true, Ended, true, Buffering);
    EncodeInjective(true, Ended, true, Ready);
    EncodeInjective(false, Ready, true, Buffering);
    EncodeInjective(false, Ready, true, Ready);
    EncodeInjective(true, Buffering, true, Ready);
    assert h[1..][2] == h[3] && h[2..][1] == h[3];
  }

  /** A sample emits an event only when it changes the window. */
  lemma EventOnlyOnChange(h: seq<bv32>, playWhenReady: bool, s: EngineState)
    requires |h| == SIZE
    ensures ReportSample(h, playWhenReady, s).event != NoEvent ==> h[SIZE - 1] != Encode(playWhenReady, s)
  {
  }

  /** (true, ENDED) emits Completion whatever the history, unless it is already the most recent entry. */
  lemma CompletionOnEnded(h: seq<bv32>)
    requires |h| == SIZE && h[SIZE - 1] != Encode(true, Ended)
    ensures ReportSample(h, true, Ended).event == CompletionEvent
  {
  }

  /**
   * The repeater is started only by a non-playing READY sample and stopped only by
   * a non-playing IDLE or ENDED sample; playing samples never touch it here.
   */
  lemma RepeaterRequestCharacterised(playWhenReady: bool, s: EngineState)
    ensures RepeaterRequestFor(Encode(playWhenReady, s)) == StartRepeater <==> !playWhenReady && s == Ready
    ensures RepeaterRequestFor(Encode(playWhenReady, s)) == StopRepeater <==> !playWhenReady && (s == Idle || s == Ended)
  {
    EncodeEqualsPlainCode(playWhenReady, s, Ready);
    EncodeEqualsPlainCode(playWhenReady, s, Idle);
    EncodeEqualsPlainCode(playWhenReady, s, Ended);
  }

  /** Events of a run of samples, one per sample. */
  function Events(h: seq<bv32>, samples: seq<(bool, EngineState)>): (r: seq<Event>)
    requires |h| == SIZE
    ensures |r| == |samples|
    decreases |samples|
  {
    if samples == [] then []
    else
      var rep := ReportSample(h, samples[0].0, samples[0].1);
      [rep.event] + Events(rep.history, samples[1..])
  }

  /**
   * Exactly-once prepared: from any window, (false,IDLE), (false,BUFFERING),
   * (false,READY) emit Prepared on the third sample only, and any number of
   * repeated (false,READY) samples emit nothing more.
   */
  lemma PreparedExactlyOnce(h: seq<bv32>, n: nat)
    requires |h| == SIZE
    ensures Events(h, [(false, Idle), (false, Buffering), (false, Ready)] + Repeat((false, Ready), n))
         == [NoEvent, NoEvent, PreparedEvent] + Repeat(NoEvent, n)
  {
    var t := Repeat((false, Ready), n);
    var s3 := [(false, Ready)] + t;
    var s2 := [(false, Buffering)] + s3;
    var s1 := [(false, Idle)] + s2;
    assert s1 == [(false, Idle), (false, Buffering), (false, Ready)] + t;
    assert s1[1..] == s2 && s2[1..] == s3 && s3[1..] == t;
    var r1 := ReportSample(h, false, Idle);
    var r2 := ReportSample(r1.history, false, Buffering);
    var r3 := ReportSample(r2.history, false, Ready);
    assert Events(r2.history, s3) == [PreparedEvent] + Repeat(NoEvent, n) by {
      IdleThenBuffering(h);
      ReadyCompletesPrepared(r2.history);
      RepeatsSilent(r3.history, false, Ready, n);
      EventsStep(r2.history, s3);
    }
    assert Events(h, s1) == [NoEvent] + ([NoEvent] + Events(r2.history, s3)) by {
      IdleThenBuffering(h);
      EventsStep(r1.history, s2);
      EventsStep(h, s1);
    }
    Regroup(NoEvent, NoEvent, PreparedEvent, Repeat(NoEvent, n));
  }

  /** Three single elements in front of a sequence, regrouped. */
  lemma Regroup<T>(a: T, b: T, c: T, rest: seq<T>)
    ensures [a] + ([b] + ([c] + rest)) == [a, b, c] + rest
  {
    assert [a, b, c] == [a] + ([b] + [c]);
  }

  /** (false,IDLE) then (false,BUFFERING) emit nothing and leave those two samples last in the window. */
  lemma IdleThenBuffering(h: seq<bv32>)
    requires |h| == SIZE
    ensures var r1 := ReportSample(h, false, Idle);
            var r2 := ReportSample(r1.history, false, Buffering);
            && r1.event == NoEvent && r2.event == NoEvent
            && r2.history[2..] == [Encode(false, Idle), Encode(false, Buffering)]
  {
    var r1 := ReportSample(h, false, Idle);
    EncodeInjective(false, Idle, false, Buffering);
    ShiftedTail(r1.history, Encode(false, Buffering));
  }

  /** (false,READY) after (false,IDLE), (false,BUFFERING) completes the prepared pattern. */
  lemma ReadyCompletesPrepared(h: seq<bv32>)
    requires |h| == SIZE && h[2..] == [Encode(false, Idle), Encode(false, Buffering)]
    ensures var r := ReportSample(h, false, Ready);
            r.event == PreparedEvent && r.history[SIZE - 1] == Encode(false, Ready)
  {
    var r := ReportSample(h, false, Ready);
    EncodeInjective(false, Buffering, false, Ready);
    assert h[SIZE - 1] == Encode(false, Buffering);
    assert r.history[1..] == PreparedPattern() by {
      assert r.history[..SIZE - 1] == h[1..];
    }
    DecideCharacterised(r.history);
  }

  /** Events unfolded by one sample. */
  lemma EventsStep(h: seq<bv32>, samples: seq<(bool, EngineState)>)
    requires |h| == SIZE && samples != []
    ensures var rep := ReportSample(h, samples[0].0, samples[0].1);
            Events(h, samples) == [rep.event] + Events(rep.history, samples[1..])
  {
  }

  /**
   * Buffering edges: while playing, READY then BUFFERING then READY emits
   * BufferingStart on the second sample and BufferingEnd on the third, whatever
   * the window held before.
   */
  lemma BufferingEdges(h: seq<bv32>)
    requires |h| == SIZE
    ensures var ev := Events(h, [(true, Ready), (true, Buffering), (true, Ready)]);
            ev[1] == BufferingStartEvent && ev[2] == BufferingEndEvent
  {
    var samples := [(true, Ready), (true, Buffering), (true, Ready)];
    var h1 := ReportSample(h, true, Ready).history;
    var r2 := ReportSample(h1, true, Buffering);
    var r3 := ReportSample(r2.history, true, Ready);
    EncodeInjective(true, Ready, true, Buffering);
    ShiftedTail(h1, Encode(true, Buffering));
    DecideCharacterised(r2.history);
    ShiftedTail(r2.history, Encode(true, Ready));
    DecideCharacterised(r3.history);
    assert samples[1..][1..] == [(true, Ready)];
    assert Events(h, samples)[1..] == Events(h1, samples[1..]);
    assert Events(h1, samples[1..])[1..] == Events(r2.history, [(true, Ready)]);
  }

  /** After a change, the window's last two entries are the previous most recent one and the new sample. */
  lemma ShiftedTail(h: seq<bv32>, e: bv32)
    requires |h| == SIZE && h[SIZE - 1] != e
    ensures Record(h, e)[2..] == [h[SIZE - 1], e]
  {
  }

  /** Repeating one sample any number of times after its first report emits nothing further. */
  lemma {:induction false} RepeatsSilent(h: seq<bv32>, playWhenReady: bool, s: EngineState, n: nat)
    requires |h| == SIZE && h[SIZE - 1] == Encode(playWhenReady, s)
    ensures Events(h, Repeat((playWhenReady, s), n)) == Repeat(NoEvent, n)
    decreases n
  {
    if n > 0 {
      RepeatsSilent(h, playWhenReady, s, n - 1);
    }
  }

  /** `n` copies of `x`. */
  function Repeat<T>(x: T, n: nat): (r: seq<T>)
    ensures |r| == n
  {
    if n == 0 then [] else [x] + Repeat(x, n - 1)
  }

}
