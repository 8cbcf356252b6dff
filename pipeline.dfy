/** The producer-side analysis step and the reader-side snapshot of the
    audio analyser. The shared globals become the fields of one `Pipeline`
    object; each bounded deque is a `seq` field that `Process` reassigns, and
    the body of the locked block is one atomic method. Band energies are
    inputs: the spectral transform that produces them is not modelled. */
module AudioPipeline {
  import opened Bounded
  import opened BeatDetector

  /** Capacity of each of the four history buffers. */
  const HistoryCapacity: nat := 200

  /** The band energies of one frame. */
  datatype Bands = Bands(bass: real, mid: real, treble: real)

  function BassOf(log: seq<Bands>): seq<real>
  {
    seq(|log|, i requires 0 <= i < |log| => log[i].bass)
  }

  function MidOf(log: seq<Bands>): seq<real>
  {
    seq(|log|, i requires 0 <= i < |log| => log[i].mid)
  }

  function TrebleOf(log: seq<Bands>): seq<real>
  {
    seq(|log|, i requires 0 <= i < |log| => log[i].treble)
  }

  lemma ProjectionsSnoc(log: seq<Bands>, b: Bands)
    ensures BassOf(log + [b]) == BassOf(log) + [b.bass]
    ensures MidOf(log + [b]) == MidOf(log) + [b.mid]
    ensures TrebleOf(log + [b]) == TrebleOf(log) + [b.treble]
  {
  }

  /** The indices of the set flags, in increasing order: where the renderer
      draws its beat markers. */
  function BeatPositions(beats: seq<bool>): (r: seq<nat>)
    ensures forall k :: 0 <= k < |r| ==> r[k] < |beats| && beats[r[k]]
    ensures forall j, k :: 0 <= j < k < |r| ==> r[j] < r[k]
  {
    if |beats| == 0 then []
    else BeatPositions(beats[..|beats| - 1]) + (if beats[|beats| - 1] then [|beats| - 1] else [])
  }

  /** No set flag is missed: every set index has a marker. */
  lemma {:induction false} BeatPositionsComplete(beats: seq<bool>, i: int)
    requires 0 <= i < |beats| && beats[i]
    ensures i in BeatPositions(beats)
  {
    var p := beats[..|beats| - 1];
    if i < |beats| - 1 {
      assert p[i];
      BeatPositionsComplete(p, i);
    }
  }

  /** The set flags of the newest n entries of a spaced flag sequence are
      set flags of the whole sequence, and their positions keep its spacing. */
  lemma WindowMarkers(flags: seq<bool>, n: nat)
    requires Spaced(flags)
    ensures var w := LastN(flags, n); var m := BeatPositions(w);
      && (forall k :: 0 <= k < |m| ==> flags[|flags| - |w| + m[k]])
      && (forall k :: 0 <= k < |m| - 1 ==> m[k + 1] - m[k] >= Cooldown)
  {
    var w := LastN(flags, n);
    var m := BeatPositions(w);
    var off := |flags| - |w|;
    assert w == flags[off..];
    forall k | 0 <= k < |m|
      ensures flags[off + m[k]]
    {
      assert w[m[k]] == flags[off + m[k]];
    }
    forall k | 0 <= k < |m| - 1
      ensures m[k + 1] - m[k] >= Cooldown
    {
      assert w[m[k]] == flags[off + m[k]] && w[m[k + 1]] == flags[off + m[k + 1]];
      SpacedPair(flags, off + m[k], off + m[k + 1]);
    }
  }

  /** The four history buffers, index-aligned: entry i of each belongs to
      the same frame. */
  datatype History = History(bass: seq<real>, mid: seq<real>, treble: seq<real>, beats: seq<bool>)

  const EmptyHistory: History := History([], [], [], [])

  /** Every buffer is within its capacity. */
  predicate Fits(h: History)
  {
    |h.bass| <= HistoryCapacity && |h.mid| <= HistoryCapacity
    && |h.treble| <= HistoryCapacity && |h.beats| <= HistoryCapacity
  }

  /** The four buffers have one length, so index i of each is one frame. */
  predicate Aligned(h: History)
  {
    |h.bass| == |h.mid| == |h.treble| == |h.beats|
  }

  /** Appending one frame's entry to all four buffers together: they stay
      within capacity and aligned, and each ends with the new frame's entry. */
  function Record(h: History, b: Bands, beat: bool): (r: History)
    requires Fits(h)
    ensures Fits(r)
    ensures Aligned(h) ==> Aligned(r) && |r.bass| == Min(|h.bass| + 1, HistoryCapacity)
    ensures r.bass != [] && r.mid != [] && r.treble != [] && r.beats != []
    ensures r.bass[|r.bass| - 1] == b.bass && r.mid[|r.mid| - 1] == b.mid
    ensures r.treble[|r.treble| - 1] == b.treble && r.beats[|r.beats| - 1] == beat
  {
    History(Push(h.bass, b.bass, HistoryCapacity), Push(h.mid, b.mid, HistoryCapacity),
            Push(h.treble, b.treble, HistoryCapacity), Push(h.beats, beat, HistoryCapacity))
  }

  /** The state the locked block works on: the detector's and the history's. */
  datatype PipelineState = PipelineState(detector: Detector, history: History)

  predicate WellFormed(s: PipelineState)
  {
    |s.detector.recent| <= RecentCapacity && Fits(s.history)
  }

  /** One pass through the locked block: detect, then record the frame. */
  function Step(s: PipelineState, b: Bands): (r: (PipelineState, bool))
    requires WellFormed(s)
    ensures WellFormed(r.0)
  {
    var (d, beat) := Update(s.detector, b.bass);
    (PipelineState(d, Record(s.history, b, beat)), beat)
  }

  /** The state after processing the frames of `log` from start-up. */
  function Replay(log: seq<Bands>): (s: PipelineState)
    ensures WellFormed(s)
  {
    if log == [] then PipelineState(Initial(), EmptyHistory)
    else Step(Replay(log[..|log| - 1]), log[|log| - 1]).0
  }

  /** Replaying one more frame is one more step. */
  lemma ReplaySnoc(log: seq<Bands>, b: Bands)
    ensures Replay(log + [b]) == Step(Replay(log), b).0
  {
    assert (log + [b])[..|log|] == log;
  }

  /** The replayed detector is the detector run on the bass values. */
  lemma {:induction false} ReplayDetector(log: seq<Bands>)
    ensures Replay(log).detector == Run(BassOf(log))
  {
    if log != [] {
      var p, b := log[..|log| - 1], log[|log| - 1];
      assert log == p + [b];
      ReplayDetector(p);
      ProjectionsSnoc(p, b);
      assert BassOf(log)[..|p|] == BassOf(p);
    }
  }

  /** The history after n frames holds the newest min(n, 200) frames in
      arrival order, with the flag each of their calls recorded. */
  lemma {:induction false} ReplayHistory(log: seq<Bands>)
    ensures var xs := BassOf(log);
      Replay(log).history == History(LastN(xs, HistoryCapacity), LastN(MidOf(log), HistoryCapacity),
                                     LastN(TrebleOf(log), HistoryCapacity), LastN(Flags(xs), HistoryCapacity))
  {
    if log != [] {
      var p, b := log[..|log| - 1], log[|log| - 1];
      var xs := BassOf(p);
      var beat := Update(Replay(p).detector, b.bass).1;
      assert log == p + [b];
      ReplayHistory(p);
      ReplayDetector(p);
      ProjectionsSnoc(p, b);
      UpdateReference(xs, b.bass);
      FlagsSnoc(xs, b.bass);
      assert Flags(BassOf(log)) == Flags(xs) + [beat];
      PushLastN(xs, b.bass, HistoryCapacity);
      PushLastN(MidOf(p), b.mid, HistoryCapacity);
      PushLastN(TrebleOf(p), b.treble, HistoryCapacity);
      PushLastN(Flags(xs), beat, HistoryCapacity);
    }
  }

  /** The state the reference definitions give for the frames of `log`: the
      newest min(n, 20) bass values, n calls, the counter of the latest
      recorded beat, and the newest min(n, 200) entries of each history. */
  ghost function ReferenceState(log: seq<Bands>): PipelineState
  {
    var xs := BassOf(log);
    PipelineState(Detector(LastN(xs, RecentCapacity), |log|, LastBeat(Flags(xs))),
                  History(LastN(xs, HistoryCapacity), LastN(MidOf(log), HistoryCapacity),
                          LastN(TrebleOf(log), HistoryCapacity), LastN(Flags(xs), HistoryCapacity)))
  }

  /** Replaying the frames reaches the reference state. */
  lemma ReplayReference(log: seq<Bands>)
    ensures Replay(log) == ReferenceState(log)
  {
    ReplayDetector(log);
    RunReference(BassOf(log));
    ReplayHistory(log);
  }

  /** One step from the reference state of `log` reaches that of `log + [b]`. */
  lemma StepReference(log: seq<Bands>, b: Bands)
    ensures Step(ReferenceState(log), b).0 == ReferenceState(log + [b])
  {
    ReplayReference(log);
    ReplayReference(log + [b]);
    ReplaySnoc(log, b);
  }

  class Pipeline {
    /** The recent-bass window of the detector, at most RecentCapacity values. */
    var recentBass: seq<real>
    /** Number of frames processed; never reset. */
    var sampleCounter: int
    /** Counter value of the latest beat, NoBeat before the first. */
    var lastBeatSample: int
    /** The history buffers read by the renderer, at most HistoryCapacity each. */
    var bassHistory: seq<real>
    var midHistory: seq<real>
    var trebleHistory: seq<real>
    var beatFlags: seq<bool>
    /** The band energies of every frame processed so far, oldest first. */
    ghost var log: seq<Bands>

    /** The detector fields as one value. */
    function DetectorState(): Detector
      reads this
    {
      Detector(recentBass, sampleCounter, lastBeatSample)
    }

    /** The history fields as one value. */
    function Buffers(): History
      reads this
    {
      History(bassHistory, midHistory, trebleHistory, beatFlags)
    }

    function State(): PipelineState
      reads this
    {
      PipelineState(DetectorState(), Buffers())
    }

    /** The fields are the state that the processed frames lead to. */
    ghost predicate Valid()
      reads this
    {
      State() == Replay(log)
    }

    /** The module-level globals at start-up: empty deques, counter 0 and the
        sentinel -1. */
    constructor ()
      ensures Valid() && log == []
      ensures recentBass == [] && sampleCounter == 0 && lastBeatSample == NoBeat
      ensures bassHistory == [] && midHistory == [] && trebleHistory == [] && beatFlags == []
    {
      recentBass := [];
      sampleCounter := 0;
      lastBeatSample := NoBeat;
      bassHistory, midHistory, trebleHistory, beatFlags := [], [], [], [];
      log := [];
    }

    /** The locked block of the analysis callback, as one atomic step:
        detect, then append the frame to the history. */
    method Process(bass: real, mid: real, treble: real) returns (beat: bool)
      requires Valid()
      modifies this
      ensures Valid()
      ensures log == old(log) + [Bands(bass, mid, treble)]
      ensures (State(), beat) == Step(old(State()), Bands(bass, mid, treble))
      ensures sampleCounter == old(sampleCounter) + 1
      ensures lastBeatSample == if beat then sampleCounter else old(lastBeatSample)
    {
      ghost var before := State();
      var frame := Bands(bass, mid, treble);
      beat := Detect(bass);
      Append(frame, beat);
      assert (State(), beat) == Step(before, frame);
      log := log + [frame];
      KeepsValid(old(log), frame, before, beat);
    }

    /** The detection half of the locked block: bounded append to the window,
        counter increment, and the threshold and cooldown test. */
    method Detect(bass: real) returns (beat: bool)
      requires |recentBass| <= RecentCapacity
      modifies this
      ensures (DetectorState(), beat) == Update(old(DetectorState()), bass)
      ensures Buffers() == old(Buffers()) && log == old(log)
    {
      recentBass := Push(recentBass, bass, RecentCapacity);
      sampleCounter := sampleCounter + 1;

      var fired := 0;
      if |recentBass| >= MinHistory {
        var recentAvg := Mean(recentBass[..|recentBass| - 1]);
        var samplesSinceLastBeat := sampleCounter - lastBeatSample;
        if bass > recentAvg * Threshold && samplesSinceLastBeat >= Cooldown {
          fired := 1;
          lastBeatSample := sampleCounter;
        }
      }
      beat := fired == 1;
    }

    /** The history half of the locked block: each buffer receives this
        frame's entry, the oldest being evicted from a full buffer. */
    method Append(frame: Bands, beat: bool)
      requires Fits(Buffers())
      modifies this
      ensures Buffers() == Record(old(Buffers()), frame, beat)
      ensures DetectorState() == old(DetectorState()) && log == old(log)
    {
      bassHistory := Push(bassHistory, frame.bass, HistoryCapacity);
      midHistory := Push(midHistory, frame.mid, HistoryCapacity);
      trebleHistory := Push(trebleHistory, frame.treble, HistoryCapacity);
      beatFlags := Push(beatFlags, beat, HistoryCapacity);
    }

    /** A step from the replayed state of the earlier frames leaves the
        fields at the replayed state of all of them. */
    lemma KeepsValid(earlier: seq<Bands>, frame: Bands, before: PipelineState, beat: bool)
      requires before == Replay(earlier) && WellFormed(before)
      requires (State(), beat) == Step(before, frame) && log == earlier + [frame]
      ensures Valid()
    {
      ReplaySnoc(earlier, frame);
    }

    /** What the fields hold in terms of the frames processed: the window is
        the newest min(n, 20) bass values, the counter is n, the last-beat
        counter is that of the latest recorded beat, and each history buffer
        holds the newest min(n, 200) entries in arrival order. */
    lemma Reference()
      requires Valid()
      ensures recentBass == LastN(BassOf(log), RecentCapacity)
      ensures sampleCounter == |log|
      ensures lastBeatSample == LastBeat(Flags(BassOf(log)))
      ensures bassHistory == LastN(BassOf(log), HistoryCapacity)
      ensures midHistory == LastN(MidOf(log), HistoryCapacity)
      ensures trebleHistory == LastN(TrebleOf(log), HistoryCapacity)
      ensures beatFlags == LastN(Flags(BassOf(log)), HistoryCapacity)
    {
      ReplayDetector(log);
      RunReference(BassOf(log));
      ReplayHistory(log);
    }

    /** The renderer's atomic read: four copies of one length, holding the
        newest HistoryCapacity frames index-aligned and in arrival order. */
    function Snapshot(): (s: History)
      reads this
      requires Valid()
      ensures |s.bass| == |s.mid| == |s.treble| == |s.beats| == Min(HistoryCapacity, |log|)
      ensures s.bass == LastN(BassOf(log), HistoryCapacity)
      ensures s.mid == LastN(MidOf(log), HistoryCapacity)
      ensures s.treble == LastN(TrebleOf(log), HistoryCapacity)
      ensures s.beats == LastN(Flags(BassOf(log)), HistoryCapacity)
      ensures |log| > 0 ==>
        var n := |s.bass| - 1;
        && s.bass[n] == log[|log| - 1].bass
        && s.mid[n] == log[|log| - 1].mid
        && s.treble[n] == log[|log| - 1].treble
        && s.beats[n] == Flags(BassOf(log))[|log| - 1]
    {
      ReplayHistory(log);
      Buffers()
    }

    /** The detector's state stays bounded and consistent with the counter. */
    lemma DetectorBounds()
      requires Valid()
      ensures |recentBass| == Min(RecentCapacity, sampleCounter) <= RecentCapacity
      ensures sampleCounter == |log|
      ensures lastBeatSample == NoBeat || 1 <= lastBeatSample <= sampleCounter
      ensures lastBeatSample == NoBeat || lastBeatSample >= Cooldown + NoBeat
    {
      ReplayDetector(log);
      RunBounds(BassOf(log));
    }

    /** The beat markers the renderer draws are at least Cooldown samples
        apart, and each one is a frame whose call fired. */
    lemma MarkersSpaced()
      requires Valid()
      ensures var m := BeatPositions(Snapshot().beats);
        && (forall k :: 0 <= k < |m| ==> Flags(BassOf(log))[|log| - |beatFlags| + m[k]])
        && (forall k :: 0 <= k < |m| - 1 ==> m[k + 1] - m[k] >= Cooldown)
    {
      var flags := Flags(BassOf(log));
      var beats := Snapshot().beats;
      assert beats == LastN(flags, HistoryCapacity) && |flags| == |log|;
      assert beats == beatFlags;
      FlagsSpaced(BassOf(log));
      WindowMarkers(flags, HistoryCapacity);
    }

    /** After 250 frames the history holds 200 of them, starting with the
        51st. */
    lemma OverflowKeepsNewest()
      requires Valid() && |log| == 250
      ensures |Snapshot().bass| == HistoryCapacity
      ensures Snapshot().bass[0] == log[50].bass
      ensures Snapshot().beats[0] == Flags(BassOf(log))[50]
    {
    }
  }
}
