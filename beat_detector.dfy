/** The beat detector of the analysis callback, as a reference definition:
    the flag recorded by every call is a function of the bass values received
    so far. Call number n (the value of the sample counter after it is
    incremented) records the flag at index n - 1. */
module BeatDetector {
  import opened Bounded

  /** Capacity of the recent-bass window. */
  const RecentCapacity: nat := 20
  /** Entries the window must hold (the new one included) before detecting. */
  const MinHistory: nat := 5
  /** Minimum counter distance between two beats. */
  const Cooldown: int := 15
  /** A beat needs the bass to exceed this multiple of the recent mean. */
  const Threshold: real := 1.5
  /** Initial value of the last-beat counter: no beat yet. */
  const NoBeat: int := -1

  function Sum(s: seq<real>): (r: real)
    ensures (forall i :: 0 <= i < |s| ==> s[i] >= 0.0) ==> r >= 0.0
  {
    if s == [] then 0.0 else Sum(s[..|s| - 1]) + s[|s| - 1]
  }

  /** Arithmetic mean of a non-empty sequence (numpy's `mean` without rounding). */
  function Mean(s: seq<real>): (r: real)
    requires |s| > 0
    ensures (forall i :: 0 <= i < |s| ==> s[i] >= 0.0) ==> r >= 0.0
  {
    Sum(s) / (|s| as real)
  }

  lemma {:induction false} SumConstant(s: seq<real>, c: real)
    requires forall i :: 0 <= i < |s| ==> s[i] == c
    ensures Sum(s) == c * (|s| as real)
  {
    if s != [] {
      SumConstant(s[..|s| - 1], c);
    }
  }

  lemma MeanConstant(s: seq<real>, c: real)
    requires |s| > 0
    requires forall i :: 0 <= i < |s| ==> s[i] == c
    ensures Mean(s) == c
  {
    SumConstant(s, c);
  }

  /** The counter value of the latest beat among `flags` (flag i belongs to
      counter i + 1), or NoBeat when none of them is set. */
  function LastBeat(flags: seq<bool>): (r: int)
    ensures r == NoBeat || 1 <= r <= |flags|
    ensures r != NoBeat ==> flags[r - 1]
    ensures forall i :: 0 <= i < |flags| && flags[i] ==> i < r
  {
    if |flags| == 0 then NoBeat
    else if flags[|flags| - 1] then |flags|
    else LastBeat(flags[..|flags| - 1])
  }

  /** Whether the call that receives `bass` after the bass values `prior`
      fires, when the latest beat so far was at counter `lastBeat`. That call
      sets the counter to |prior| + 1; its window holds min(|prior| + 1, 20)
      values, and the values before the new one are the newest 19 of `prior`. */
  function Decide(prior: seq<real>, bass: real, lastBeat: int): (r: bool)
    ensures r ==> |prior| + 1 >= MinHistory && |prior| + 1 - lastBeat >= Cooldown
  {
    var counter := |prior| + 1;
    && counter >= MinHistory
    && bass > Mean(LastN(prior, RecentCapacity - 1)) * Threshold
    && counter - lastBeat >= Cooldown
  }

  /** The beat flag recorded by each call, for the bass values `xs` of the
      calls so far. */
  function Flags(xs: seq<real>): (r: seq<bool>)
    ensures |r| == |xs|
  {
    if xs == [] then []
    else
      var prior := xs[..|xs| - 1];
      var p := Flags(prior);
      p + [Decide(prior, xs[|xs| - 1], LastBeat(p))]
  }

  /** The detector's own window decides as the reference does: after the
      bounded append, the window holds at least MinHistory values exactly when
      the counter has reached MinHistory, and its values before the newest one
      are the newest RecentCapacity - 1 values of `prior`. */
  lemma DecideFromWindow(prior: seq<real>, bass: real, lastBeat: int)
    ensures var w := Push(LastN(prior, RecentCapacity), bass, RecentCapacity);
      Decide(prior, bass, lastBeat) <==>
        && |w| >= MinHistory
        && bass > Mean(w[..|w| - 1]) * Threshold
        && |prior| + 1 - lastBeat >= Cooldown
  {
    PushLastN(prior, bass, RecentCapacity);
    LastNWithoutNewest(prior, bass, RecentCapacity);
  }

  /** The detector's state: the recent window, the sample counter and the
      counter value of the latest beat. */
  datatype Detector = Detector(recent: seq<real>, counter: int, lastBeat: int)

  /** The state before the first call: an empty window, counter 0 and the
      sentinel. Its first call never fires, whatever the bass value. */
  function Initial(): (d: Detector)
    ensures d.recent == [] && d.counter == 0 && d.lastBeat == NoBeat
    ensures forall bass :: !Update(d, bass).1
  {
    Detector([], 0, NoBeat)
  }

  /** One call of the detector: append to the bounded window, increment the
      counter, and fire when the window holds at least MinHistory values, the
      bass exceeds Threshold times the mean of the window without the new
      value, and the counter is at least Cooldown past the latest beat. */
  function Update(d: Detector, bass: real): (r: (Detector, bool))
    requires |d.recent| <= RecentCapacity
    ensures |r.0.recent| <= RecentCapacity
    ensures r.0.counter == d.counter + 1
    ensures r.0.lastBeat == if r.1 then r.0.counter else d.lastBeat
    ensures r.1 ==> |r.0.recent| >= MinHistory && r.0.counter - d.lastBeat >= Cooldown
  {
    var recent := Push(d.recent, bass, RecentCapacity);
    var counter := d.counter + 1;
    if |recent| >= MinHistory
       && bass > Mean(recent[..|recent| - 1]) * Threshold
       && counter - d.lastBeat >= Cooldown
    then (Detector(recent, counter, counter), true)
    else (Detector(recent, counter, d.lastBeat), false)
  }

  /** The detector's state after the calls that received `xs`. */
  function Run(xs: seq<real>): (d: Detector)
    ensures |d.recent| <= RecentCapacity
  {
    if xs == [] then Initial() else Update(Run(xs[..|xs| - 1]), xs[|xs| - 1]).0
  }

  /** The state machine agrees with the reference: after n calls the window
      holds the newest min(n, 20) bass values in arrival order, the counter
      is n, and the last-beat counter is that of the latest recorded flag. */
  lemma {:induction false} RunReference(xs: seq<real>)
    ensures Run(xs).recent == LastN(xs, RecentCapacity)
    ensures Run(xs).counter == |xs|
    ensures Run(xs).lastBeat == LastBeat(Flags(xs))
  {
    if xs != [] {
      var prior, x := xs[..|xs| - 1], xs[|xs| - 1];
      assert xs == prior + [x];
      RunReference(prior);
      UpdateDecides(Run(prior), prior, x);
      FlagsSnoc(prior, x);
      LastBeatSnoc(Flags(prior), Decide(prior, x, LastBeat(Flags(prior))));
    }
  }

  /** The flag a call emits is the reference flag for that call. */
  lemma UpdateReference(xs: seq<real>, x: real)
    ensures Update(Run(xs), x).1 == Flags(xs + [x])[|xs|]
  {
    RunReference(xs);
    UpdateDecides(Run(xs), xs, x);
    FlagsSnoc(xs, x);
  }

  /** From a state whose window and counter are those the reference gives
      for `prior`, a call fires exactly when the reference decides so, and it
      moves the last-beat counter only when it fires. */
  lemma UpdateDecides(d: Detector, prior: seq<real>, x: real)
    requires d.recent == LastN(prior, RecentCapacity) && d.counter == |prior|
    ensures var beat := Decide(prior, x, d.lastBeat);
      && Update(d, x).1 == beat
      && Update(d, x).0 == Detector(LastN(prior + [x], RecentCapacity), |prior| + 1,
                                    if beat then |prior| + 1 else d.lastBeat)
  {
    DecideFromWindow(prior, x, d.lastBeat);
    PushLastN(prior, x, RecentCapacity);
  }

  /** The start-up guarantee for a sequence of recorded flags: no flag within
      the first four calls, and none before counter 14 (the gap to the
      sentinel -1 must reach Cooldown). */
  ghost predicate LateFirstBeat(r: seq<bool>)
  {
    forall i :: 0 <= i < |r| && r[i] ==> i + 1 >= MinHistory && i + 1 >= Cooldown + NoBeat
  }

  /** The cooldown guarantee: any two set flags are at least Cooldown calls
      apart. */
  ghost predicate Spaced(r: seq<bool>)
  {
    forall i, j :: 0 <= i < j < |r| && r[i] && r[j] ==> j - i >= Cooldown
  }

  /** Two set flags of a spaced sequence are at least Cooldown apart. */
  lemma SpacedPair(r: seq<bool>, i: int, j: int)
    requires Spaced(r) && 0 <= i < j < |r| && r[i] && r[j]
    ensures j - i >= Cooldown
  {
  }

  /** No flag the detector records is set before call 14. */
  lemma {:induction false} FlagsLate(xs: seq<real>)
    ensures LateFirstBeat(Flags(xs))
  {
    if xs != [] {
      var prior := xs[..|xs| - 1];
      var p := Flags(prior);
      var b := Decide(prior, xs[|xs| - 1], LastBeat(p));
      var r := Flags(xs);
      FlagsLate(prior);
      assert r == p + [b];
      forall i | 0 <= i < |r| && r[i]
        ensures i + 1 >= MinHistory && i + 1 >= Cooldown + NoBeat
      {
        if i == |p| {
          assert b && LastBeat(p) >= NoBeat;
        } else {
          assert p[i];
        }
      }
    }
  }

  /** Every flag sequence the detector records is spaced. */
  lemma {:induction false} FlagsSpaced(xs: seq<real>)
    ensures Spaced(Flags(xs))
  {
    if xs != [] {
      var prior := xs[..|xs| - 1];
      var p := Flags(prior);
      var b := Decide(prior, xs[|xs| - 1], LastBeat(p));
      var r := Flags(xs);
      FlagsSpaced(prior);
      assert r == p + [b];
      forall i, j | 0 <= i < j < |r| && r[i] && r[j]
        ensures j - i >= Cooldown
      {
        assert p[i];
        if j == |p| {
          // every earlier beat is at or before the counter LastBeat(p)
          assert b && i < LastBeat(p);
        } else {
          assert p[j];
        }
      }
    }
  }

  /** The detector's state stays bounded and consistent with its counter:
      the window holds min(n, 20) values, and the last-beat counter is the
      sentinel or a call number of at least 14. */
  lemma RunBounds(xs: seq<real>)
    ensures |Run(xs).recent| == Min(RecentCapacity, Run(xs).counter) <= RecentCapacity
    ensures Run(xs).counter == |xs|
    ensures Run(xs).lastBeat == NoBeat || 1 <= Run(xs).lastBeat <= Run(xs).counter
    ensures Run(xs).lastBeat == NoBeat || Run(xs).lastBeat >= Cooldown + NoBeat
  {
    RunReference(xs);
    FlagsLate(xs);
    LastBeatLate(Flags(xs));
  }

  /** The latest beat of a sequence without early beats is not early. */
  lemma LastBeatLate(flags: seq<bool>)
    requires LateFirstBeat(flags)
    ensures LastBeat(flags) == NoBeat || LastBeat(flags) >= Cooldown + NoBeat
  {
    if LastBeat(flags) != NoBeat {
      assert flags[LastBeat(flags) - 1];
    }
  }

  /** One more call appends exactly one flag and leaves the earlier ones alone. */
  lemma FlagsSnoc(xs: seq<real>, x: real)
    ensures Flags(xs + [x]) == Flags(xs) + [Decide(xs, x, LastBeat(Flags(xs)))]
  {
    assert (xs + [x])[..|xs|] == xs;
  }

  /** The last-beat counter moves only when a beat fires, and then to the
      current counter. */
  lemma LastBeatSnoc(flags: seq<bool>, b: bool)
    ensures LastBeat(flags + [b]) == if b then |flags| + 1 else LastBeat(flags)
  {
    assert (flags + [b])[..|flags|] == flags;
  }

  /** A recorded flag never changes afterwards: the flags of the first k
      calls depend only on the first k bass values. */
  lemma {:induction false} FlagsPrefix(xs: seq<real>, k: nat)
    requires k <= |xs|
    ensures Flags(xs)[..k] == Flags(xs[..k])
  {
    if k < |xs| {
      var prior := xs[..|xs| - 1];
      var r := Flags(xs);
      FlagsDropLast(xs);
      FlagsPrefix(prior, k);
      assert prior[..k] == xs[..k];
      assert r[..k] == r[..|prior|][..k];
    } else {
      assert xs[..k] == xs;
    }
  }

  /** The flags before the latest call are the flags of the earlier calls. */
  lemma FlagsDropLast(xs: seq<real>)
    requires xs != []
    ensures Flags(xs)[..|xs| - 1] == Flags(xs[..|xs| - 1])
  {
  }

  /** After four calls, whatever the values, nothing has fired. */
  lemma ColdStart(xs: seq<real>)
    requires |xs| <= MinHistory - 1
    ensures forall i :: 0 <= i < |xs| ==> !Flags(xs)[i]
  {
    FlagsLate(xs);
  }

  /** Five equal values then a value three times as large: the sixth call
      exceeds the threshold but is within 15 of the sentinel, so it is silent. */
  lemma SixthCallSilent()
    ensures !Flags([10.0, 10.0, 10.0, 10.0, 10.0, 30.0])[5]
  {
    FlagsLate([10.0, 10.0, 10.0, 10.0, 10.0, 30.0]);
  }

  /** Thirteen equal positive values then a triple: the fourteenth call is
      the first that can fire, and it does; the same value again on the
      fifteenth call is inside the cooldown and does not. */
  lemma FirstBeatAtFourteen(t: seq<real>, c: real)
    requires |t| == Cooldown + NoBeat - 1 && c > 0.0
    requires forall i :: 0 <= i < |t| ==> t[i] == c
    ensures Flags(t + [3.0 * c])[|t|]
    ensures !Flags(t + [3.0 * c] + [3.0 * c])[|t| + 1]
  {
    var f := Flags(t);
    FlagsLate(t);
    assert forall i :: 0 <= i < |f| ==> !f[i];
    assert LastBeat(f) == NoBeat;
    MeanConstant(LastN(t, RecentCapacity - 1), c);
    assert Decide(t, 3.0 * c, NoBeat);
    var u := t + [3.0 * c];
    FlagsSnoc(t, 3.0 * c);
    var g := Flags(u);
    assert g == f + [true];
    LastBeatSnoc(f, true);
    assert LastBeat(g) == |u|;
    assert !Decide(u, 3.0 * c, |u|);
    FlagsSnoc(u, 3.0 * c);
  }
}
