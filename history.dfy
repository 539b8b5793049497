/**
 * The state store of the ExoPlayer adapter: a four-slot window of the most
 * recent encoded samples, oldest first, shifted in place when a new distinct
 * sample arrives.
 */
module History {
  import opened PlayerState

  /** The window size. */
  const SIZE: nat := 4

  /** The window after construction or reset: four plain IDLE codes. */
  function InitialHistory(): (h: seq<bv32>)
    ensures |h| == SIZE
    ensures forall i :: 0 <= i < SIZE ==> h[i] == Encode(false, Idle)
  {
    [Code(Idle), Code(Idle), Code(Idle), Code(Idle)]
  }

  /** setMostRecentState on the window's value: drop a repeat, otherwise shift left and append. */
  function Record(h: seq<bv32>, e: bv32): (r: seq<bv32>)
    requires |h| == SIZE
    ensures |r| == SIZE
    ensures r[SIZE - 1] == e
    ensures h[SIZE - 1] == e ==> r == h
    ensures h[SIZE - 1] != e ==> r[..SIZE - 1] == h[1..] && r[SIZE - 2] != r[SIZE - 1]
  {
    if h[SIZE - 1] == e then h else h[1..] + [e]
  }

  /** The window's trailing |pattern| entries equal the pattern, compared under `mask`. */
  predicate TailMatches(h: seq<bv32>, pattern: seq<bv32>, ignorePlayWhenReady: bool): (b: bool)
    requires |pattern| <= |h|
    ensures !ignorePlayWhenReady ==> (b <==> h[|h| - |pattern|..] == pattern)
  {
    TailMatchesExactly(h, pattern);
    var mask: bv32 := if ignorePlayWhenReady then !FLAG_PLAY_WHEN_READY else 0xFFFF_FFFF;
    MaskedTailEquals(h, pattern, mask)
  }

  /** Entry by entry, the trailing |pattern| entries agree with the pattern on the bits of `mask`. */
  predicate MaskedTailEquals(h: seq<bv32>, pattern: seq<bv32>, mask: bv32)
    requires |pattern| <= |h|
  {
    forall i :: 0 <= i < |pattern| ==> h[|h| - |pattern| + i] & mask == pattern[i] & mask
  }

  /** Comparing under the all-ones mask is plain equality of the window's suffix with the pattern. */
  lemma TailMatchesExactly(h: seq<bv32>, pattern: seq<bv32>)
    requires |pattern| <= |h|
    ensures MaskedTailEquals(h, pattern, 0xFFFF_FFFF) <==> h[|h| - |pattern|..] == pattern
  {
    var start := |h| - |pattern|;
    if MaskedTailEquals(h, pattern, 0xFFFF_FFFF) {
      forall i | 0 <= i < |pattern| ensures h[start..][i] == pattern[i] {
        assert h[start + i] & 0xFFFF_FFFF == pattern[i] & 0xFFFF_FFFF;
      }
    }
  }

  /** Adjacent entries of the window from index `from` on are pairwise distinct. */
  ghost predicate DistinctFrom(h: seq<bv32>, from: nat) {
    forall i :: from <= i && i + 1 < |h| ==> h[i] != h[i + 1]
  }

  /** The window after feeding `samples` one by one through Record. */
  function Feed(h: seq<bv32>, samples: seq<bv32>): (r: seq<bv32>)
    requires |h| == SIZE
    ensures |r| == SIZE
    decreases |samples|
  {
    if samples == [] then h else Feed(Record(h, samples[0]), samples[1..])
  }

  /** The number of samples in `samples` that change the window when fed from `h`. */
  function Changes(h: seq<bv32>, samples: seq<bv32>): nat
    requires |h| == SIZE
    decreases |samples|
  {
    if samples == [] then 0
    else (if h[SIZE - 1] != samples[0] then 1 else 0) + Changes(Record(h, samples[0]), samples[1..])
  }

  /** One change shifts the distinct suffix one slot further back. */
  lemma RecordExtendsDistinct(h: seq<bv32>, e: bv32, from: nat)
    requires |h| == SIZE && DistinctFrom(h, from)
    ensures DistinctFrom(Record(h, e), from)
    ensures h[SIZE - 1] != e ==> DistinctFrom(Record(h, e), if from == 0 then 0 else from - 1)
  {
    var r := Record(h, e);
    if h[SIZE - 1] != e {
      var f := if from == 0 then 0 else from - 1;
      forall i | f <= i && i + 1 < |r| ensures r[i] != r[i + 1] {
        if i + 1 < SIZE - 1 {
          assert r[i] == h[i + 1] && r[i + 1] == h[i + 2];
        }
      }
    }
  }

  /**
   * History bound: however many samples arrive, the window stays four entries long,
   * and after k changes its last k + 1 entries hold no two adjacent equal ones.
   */
  lemma {:induction false} FeedKeepsChangesDistinct(h: seq<bv32>, samples: seq<bv32>, from: nat)
    requires |h| == SIZE && DistinctFrom(h, from)
    ensures |Feed(h, samples)| == SIZE
    ensures DistinctFrom(Feed(h, samples), if Changes(h, samples) >= from then 0 else from - Changes(h, samples))
    decreases |samples|
  {
    if samples != [] {
      var e := samples[0];
      RecordExtendsDistinct(h, e, from);
      var next := if h[SIZE - 1] != e && from > 0 then from - 1 else from;
      FeedKeepsChangesDistinct(Record(h, e), samples[1..], next);
    }
  }

  /** The state store: a fixed window of encoded samples in an array. */
  class StateStore {
    var prevStates: array<bv32>

    ghost predicate Valid()
      reads this
    {
      prevStates.Length == SIZE
    }

    /** The window's contents, oldest first. */
    function History(): (h: seq<bv32>)
      reads this, prevStates
      requires Valid()
      ensures |h| == SIZE
    {
      prevStates[..]
    }

    constructor ()
      ensures Valid() && fresh(prevStates)
      ensures History() == InitialHistory()
    {
      prevStates := new bv32[SIZE][Code(Idle), Code(Idle), Code(Idle), Code(Idle)];
    }

    /** The most recent entry. */
    function GetMostRecentState(): (e: bv32)
      reads this, prevStates
      requires Valid()
      ensures e == History()[SIZE - 1]
    {
      prevStates[SIZE - 1]
    }

    /** Whether the most recent entry was recorded with playWhenReady. */
    function IsLastReportedPlayWhenReady(): (b: bool)
      reads this, prevStates
      requires Valid()
      ensures forall p, s :: History()[SIZE - 1] == Encode(p, s) ==> b == p
    {
      HasPlayWhenReady(prevStates[SIZE - 1])
    }

    /** Records a sample: a no-op on a repeat, otherwise an in-place shift and append. */
    method SetMostRecentState(playWhenReady: bool, state: EngineState)
      requires Valid()
      modifies prevStates
      ensures Valid()
      ensures History() == Record(old(History()), Encode(playWhenReady, state))
    {
      var newState := Encode(playWhenReady, state);
      if prevStates[3] == newState {
        return;
      }
      prevStates[0] := prevStates[1];
      prevStates[1] := prevStates[2];
      prevStates[2] := prevStates[3];
      prevStates[3] := newState;
    }

    /** Compares the trailing entries with `states`, accumulating the verdict entry by entry. */
    method MatchesHistory(states: seq<bv32>, ignorePlayWhenReady: bool) returns (flag: bool)
      requires Valid()
      requires |states| <= SIZE
      ensures flag == TailMatches(History(), states, ignorePlayWhenReady)
    {
      flag := true;
      var andFlag: bv32 := if ignorePlayWhenReady then !FLAG_PLAY_WHEN_READY else 0xFFFF_FFFF;
      var startIndex := prevStates.Length - |states|;
      for i := startIndex to prevStates.Length
        invariant flag <==> forall k :: startIndex <= k < i ==> prevStates[k] & andFlag == states[k - startIndex] & andFlag
      {
        flag := flag && (prevStates[i] & andFlag == states[i - startIndex] & andFlag);
      }
    }

    /** Replaces the window with a fresh all-IDLE one. */
    method Reset()
      modifies this
      ensures Valid() && fresh(prevStates)
      ensures History() == InitialHistory()
    {
      prevStates := new bv32[SIZE][Code(Idle), Code(Idle), Code(Idle), Code(Idle)];
    }
  }
}
