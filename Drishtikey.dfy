/**
 * The gaze calibration prototype of Drishtikey, an eye-tracking virtual
 * keyboard: five screen targets are visited in a fixed order. At each one a
 * timer starts with the first offered gaze offset; offsets offered before
 * `dwellTime` has passed are dropped, and the first one offered after it is
 * recorded, wherever the user was looking in between. After the fifth target
 * a straight line per axis maps gaze offsets to screen coordinates.
 *
 * The wall clock is not read here: `Record` takes the current time as `now`.
 * The per-axis fit is the exact least-squares line of the `Regression` module.
 */
module Drishtikey {
  import opened Wrappers
  import opened Regression

  /** The five calibration targets. */
  datatype Target = TopLeft | TopRight | BottomLeft | BottomRight | Center

  /** The order in which the targets are visited. */
  const Steps: seq<Target> := [TopLeft, TopRight, BottomLeft, BottomRight, Center]

  /** Distance in pixels between a corner target and the two screen edges next to it. */
  const Margin: int := 50

  /** Where `t` comes in the calibration order. */
  function StepIndex(t: Target): (i: nat)
    ensures i < |Steps| && Steps[i] == t
  {
    match t
    case TopLeft => 0
    case TopRight => 1
    case BottomLeft => 2
    case BottomRight => 3
    case Center => 4
  }

  /** `StepIndex` inverts indexing into `Steps`, so each target is visited exactly once. */
  lemma StepIndexInverse(i: nat)
    requires i < |Steps|
    ensures StepIndex(Steps[i]) == i
  {
  }

  /** A table with an entry for every target. */
  ghost predicate Covers<V>(m: map<Target, V>) {
    forall t: Target :: t in m
  }

  /**
   * The screen position of each target on a `w` by `h` screen: the corners sit
   * `Margin` pixels in from both edges, the centre at the halved size rounded
   * down (for the positive divisor 2, Dafny's `/` agrees with floor division).
   */
  function ScreenTable(w: int, h: int): (table: map<Target, (int, int)>)
    ensures Covers(table)
    // the four corners form a rectangle ...
    ensures table[TopLeft].0 == table[BottomLeft].0 && table[TopRight].0 == table[BottomRight].0
    ensures table[TopLeft].1 == table[TopRight].1 && table[BottomLeft].1 == table[BottomRight].1
    // ... whose sides lie `Margin` in from the edges of the screen
    ensures table[TopLeft].0 == Margin && table[TopLeft].0 + table[TopRight].0 == w
    ensures table[TopLeft].1 == Margin && table[TopLeft].1 + table[BottomLeft].1 == h
    // the centre target is within half a pixel of the middle of the screen, on the top-left side
    ensures 0 <= w - 2 * table[Center].0 <= 1 && 0 <= h - 2 * table[Center].1 <= 1
  {
    var table := map[
      TopLeft := (Margin, Margin),
      TopRight := (w - Margin, Margin),
      BottomLeft := (Margin, h - Margin),
      BottomRight := (w - Margin, h - Margin),
      Center := (w / 2, h / 2)
    ];
    assert Covers(table) by {
      forall t: Target
        ensures t in table
      {
        assert t.TopLeft? || t.TopRight? || t.BottomLeft? || t.BottomRight? || t.Center?;
      }
    }
    table
  }

  /** The per-axis mean of a target's gaze samples, as `np.mean(samples, axis=0)`. */
  function MeanGaze(samples: seq<Pair>): Pair
    requires |samples| > 0
  {
    (MeanX(samples), MeanY(samples))
  }

  /** The mean of samples that are all equal to `g` is `g`; in particular a single sample is its own mean. */
  lemma MeanOfEqualSamples(samples: seq<Pair>, g: Pair)
    requires |samples| > 0
    requires forall p :: p in samples ==> p == g
    ensures MeanGaze(samples) == g
  {
    var n := |samples| as real;
    SumConstant(samples, X(), g.0);
    SumConstant(samples, Y(), g.1);
    assert Sum(samples, X()) / n == g.0;
    assert Sum(samples, Y()) / n == g.1;
  }

  /** Every target has a non-empty list of gaze samples, so that each has a mean. */
  ghost predicate HasAllSamples(samples: map<Target, seq<Pair>>) {
    forall t: Target :: t in samples && |samples[t]| > 0
  }

  /** The mean gaze offsets, in calibration order. */
  function GazeMeans(samples: map<Target, seq<Pair>>): seq<Pair>
    requires HasAllSamples(samples)
  {
    seq(|Steps|, i requires 0 <= i < |Steps| => MeanGaze(samples[Steps[i]]))
  }

  /** The target positions, in calibration order, as reals. */
  function TargetPoints(points: map<Target, (int, int)>): seq<Pair>
    requires Covers(points)
  {
    seq(|Steps|, i requires 0 <= i < |Steps| => (points[Steps[i]].0 as real, points[Steps[i]].1 as real))
  }

  function Xs(ps: seq<Pair>): seq<real>
  {
    seq(|ps|, i requires 0 <= i < |ps| => ps[i].0)
  }

  function Ys(ps: seq<Pair>): seq<real>
  {
    seq(|ps|, i requires 0 <= i < |ps| => ps[i].1)
  }

  /** The horizontal mapping: screen x as a line in gaze x, fitted over the five targets. */
  function MappingX(samples: map<Target, seq<Pair>>, points: map<Target, (int, int)>): Line
    requires HasAllSamples(samples) && Covers(points)
  {
    PolyFit(Xs(GazeMeans(samples)), Xs(TargetPoints(points)))
  }

  /** The vertical mapping: screen y as a line in gaze y, fitted over the five targets. */
  function MappingY(samples: map<Target, seq<Pair>>, points: map<Target, (int, int)>): Line
    requires HasAllSamples(samples) && Covers(points)
  {
    PolyFit(Ys(GazeMeans(samples)), Ys(TargetPoints(points)))
  }

  /**
   * If the screen x of every target is exactly `l` applied to its mean gaze x,
   * and two targets have different mean gaze x, the horizontal
   * mapping is `l`.
   */
  lemma MappingXRecoversAffine(samples: map<Target, seq<Pair>>, points: map<Target, (int, int)>, l: Line, s: Target, t: Target)
    requires HasAllSamples(samples) && Covers(points)
    requires MeanGaze(samples[s]).0 != MeanGaze(samples[t]).0
    requires forall u: Target :: points[u].0 as real == Predict(l, MeanGaze(samples[u]).0)
    ensures MappingX(samples, points) == l
  {
    var xs, ys := Xs(GazeMeans(samples)), Xs(TargetPoints(points));
    forall k | 0 <= k < |xs|
      ensures ys[k] == Predict(l, xs[k])
    {
      assert points[Steps[k]].0 as real == Predict(l, MeanGaze(samples[Steps[k]]).0);
    }
    PolyFitRecoversAffine(xs, ys, l, StepIndex(s), StepIndex(t));
  }

  /** The vertical counterpart of `MappingXRecoversAffine`. */
  lemma MappingYRecoversAffine(samples: map<Target, seq<Pair>>, points: map<Target, (int, int)>, l: Line, s: Target, t: Target)
    requires HasAllSamples(samples) && Covers(points)
    requires MeanGaze(samples[s]).1 != MeanGaze(samples[t]).1
    requires forall u: Target :: points[u].1 as real == Predict(l, MeanGaze(samples[u]).1)
    ensures MappingY(samples, points) == l
  {
    var xs, ys := Ys(GazeMeans(samples)), Ys(TargetPoints(points));
    forall k | 0 <= k < |xs|
      ensures ys[k] == Predict(l, xs[k])
    {
      assert points[Steps[k]].1 as real == Predict(l, MeanGaze(samples[Steps[k]]).1);
    }
    PolyFitRecoversAffine(xs, ys, l, StepIndex(s), StepIndex(t));
  }

  /**
   * No line maps the five mean gaze x values to the five target x values with
   * a smaller sum of squared errors than the horizontal mapping.
   */
  lemma MappingXIsLeastSquares(samples: map<Target, seq<Pair>>, points: map<Target, (int, int)>, m: Line)
    requires HasAllSamples(samples) && Covers(points)
    ensures SSE(Zip(Xs(GazeMeans(samples)), Xs(TargetPoints(points))), MappingX(samples, points))
         <= SSE(Zip(Xs(GazeMeans(samples)), Xs(TargetPoints(points))), m)
  {
    FitIsLeastSquares(Zip(Xs(GazeMeans(samples)), Xs(TargetPoints(points))), m);
  }

  /** The vertical counterpart of `MappingXIsLeastSquares`. */
  lemma MappingYIsLeastSquares(samples: map<Target, seq<Pair>>, points: map<Target, (int, int)>, m: Line)
    requires HasAllSamples(samples) && Covers(points)
    ensures SSE(Zip(Ys(GazeMeans(samples)), Ys(TargetPoints(points))), MappingY(samples, points))
         <= SSE(Zip(Ys(GazeMeans(samples)), Ys(TargetPoints(points))), m)
  {
    FitIsLeastSquares(Zip(Ys(GazeMeans(samples)), Ys(TargetPoints(points))), m);
  }

  /**
   * The samples of a session that has finished the first `step` targets: one
   * for each of them, none for the targets still to come.
   */
  ghost predicate SamplesUpTo(samples: map<Target, seq<Pair>>, step: nat) {
    forall t: Target :: t in samples && |samples[t]| == if StepIndex(t) < step then 1 else 0
  }

  /** `samples` with `g` appended to the list of the target at position `step`. */
  function AppendAt(samples: map<Target, seq<Pair>>, step: nat, g: Pair): map<Target, seq<Pair>>
    requires step < |Steps| && Steps[step] in samples
  {
    samples[Steps[step] := samples[Steps[step]] + [g]]
  }

  /** Appending one sample for the current target finishes that target. */
  lemma AppendAdvances(samples: map<Target, seq<Pair>>, step: nat, g: Pair)
    requires SamplesUpTo(samples, step) && step < |Steps|
    ensures SamplesUpTo(AppendAt(samples, step, g), step + 1)
  {
    var r := AppendAt(samples, step, g);
    forall t: Target
      ensures t in r && |r[t]| == if StepIndex(t) < step + 1 then 1 else 0
    {
      if t != Steps[step] {
        assert StepIndex(t) != step;
      }
    }
  }

  /** Once all five targets are finished, every target has a sample. */
  lemma FinishedHasAllSamples(samples: map<Target, seq<Pair>>)
    requires SamplesUpTo(samples, |Steps|)
    ensures HasAllSamples(samples)
  {
    forall t: Target
      ensures t in samples && |samples[t]| > 0
    {
      assert StepIndex(t) < |Steps|;
    }
  }

  /** Before all five targets are finished, the last target has no sample yet. */
  lemma UnfinishedLacksSamples(samples: map<Target, seq<Pair>>, step: nat)
    requires SamplesUpTo(samples, step) && step < |Steps|
    ensures !HasAllSamples(samples)
  {
    assert StepIndex(Center) >= step;
    assert |samples[Center]| == 0;
  }

  /**
   * When all five targets are finished, each target's mean gaze is the one
   * sample recorded for it.
   */
  lemma FinishedMeansAreSamples(samples: map<Target, seq<Pair>>, t: Target)
    requires SamplesUpTo(samples, |Steps|)
    ensures |samples[t]| == 1 && MeanGaze(samples[t]) == samples[t][0]
  {
    assert StepIndex(t) < |Steps|;
    MeanOfEqualSamples(samples[t], samples[t][0]);
  }

  /**
   * The four columns built for the first `i` targets in calibration order:
   * entry `j` pairs the mean gaze offset of target `Steps[j]` with its screen
   * position.
   */
  ghost predicate ColumnsUpTo(
    samples: map<Target, seq<Pair>>, points: map<Target, (int, int)>,
    gazeX: seq<real>, gazeY: seq<real>, screenX: seq<real>, screenY: seq<real>, i: nat)
  {
    && Covers(samples) && Covers(points) && i <= |Steps|
    && |gazeX| == i && |gazeY| == i && |screenX| == i && |screenY| == i
    && forall j :: 0 <= j < i ==>
         && |samples[Steps[j]]| > 0
         && gazeX[j] == MeanGaze(samples[Steps[j]]).0 && gazeY[j] == MeanGaze(samples[Steps[j]]).1
         && screenX[j] == points[Steps[j]].0 as real && screenY[j] == points[Steps[j]].1 as real
  }

  /** Adding the entries of target `Steps[i]` extends the columns by one target. */
  lemma ColumnsExtend(
    samples: map<Target, seq<Pair>>, points: map<Target, (int, int)>,
    gazeX: seq<real>, gazeY: seq<real>, screenX: seq<real>, screenY: seq<real>, i: nat)
    requires ColumnsUpTo(samples, points, gazeX, gazeY, screenX, screenY, i)
    requires i < |Steps| && |samples[Steps[i]]| > 0
    ensures ColumnsUpTo(samples, points,
      gazeX + [MeanGaze(samples[Steps[i]]).0], gazeY + [MeanGaze(samples[Steps[i]]).1],
      screenX + [points[Steps[i]].0 as real], screenY + [points[Steps[i]].1 as real], i + 1)
  {
  }

  /**
   * Columns covering all five targets mean every target has samples, and
   * fitting them gives `MappingX` and `MappingY`.
   */
  lemma ColumnsComplete(
    samples: map<Target, seq<Pair>>, points: map<Target, (int, int)>,
    gazeX: seq<real>, gazeY: seq<real>, screenX: seq<real>, screenY: seq<real>)
    requires ColumnsUpTo(samples, points, gazeX, gazeY, screenX, screenY, |Steps|)
    ensures HasAllSamples(samples)
    ensures PolyFit(gazeX, screenX) == MappingX(samples, points)
    ensures PolyFit(gazeY, screenY) == MappingY(samples, points)
  {
    forall t: Target
      ensures |samples[t]| > 0
    {
      assert Steps[StepIndex(t)] == t;
    }
    assert gazeX == Xs(GazeMeans(samples)) && gazeY == Ys(GazeMeans(samples));
    assert screenX == Xs(TargetPoints(points)) && screenY == Ys(TargetPoints(points));
  }

  /** One calibration session. */
  class Calibration {
    const screenWidth: int
    const screenHeight: int
    const dwellTime: real
    const screenPoints: map<Target, (int, int)>

    /** The gaze offsets recorded so far, per target. */
    var gazeSamples: map<Target, seq<Pair>>
    /** Index in `Steps` of the target being calibrated. */
    var currentStep: nat
    /** When the first offset for the current target was offered, if the timer runs. */
    var startTime: Option<real>
    var completed: bool
    var coeffX: Option<Line>
    var coeffY: Option<Line>

    /** The target table is in place and every target has a sample list. */
    ghost predicate Shaped()
      reads this
    {
      screenPoints == ScreenTable(screenWidth, screenHeight) && Covers(gazeSamples)
    }

    /**
     * The session invariant: the targets before `currentStep` hold one sample
     * each and the others none; the session is complete exactly when all five
     * are done, and only then are the mappings set, to the least-squares lines
     * through the recorded samples.
     */
    ghost predicate Valid()
      reads this
    {
      && Shaped()
      && currentStep <= |Steps|
      && (completed <==> currentStep == |Steps|)
      && SamplesUpTo(gazeSamples, currentStep)
      && (completed ==> startTime == None)
      && if completed then
           HasAllSamples(gazeSamples)
           && coeffX == Some(MappingX(gazeSamples, screenPoints))
           && coeffY == Some(MappingY(gazeSamples, screenPoints))
         else
           coeffX == None && coeffY == None
    }

    constructor(screenWidth: int, screenHeight: int, dwellTime: real := 1.5)
      ensures this.screenWidth == screenWidth && this.screenHeight == screenHeight
      ensures this.dwellTime == dwellTime
      ensures forall t: Target :: t in gazeSamples && gazeSamples[t] == []
      ensures currentStep == 0 && startTime == None && !completed
      ensures Valid()
    {
      this.screenWidth := screenWidth;
      this.screenHeight := screenHeight;
      this.dwellTime := dwellTime;
      this.screenPoints := ScreenTable(screenWidth, screenHeight);
      gazeSamples := map t: Target | t in Steps :: [];
      currentStep := 0;
      startTime := None;
      completed := false;
      coeffX := None;
      coeffY := None;
      new;
      forall t: Target
        ensures t in gazeSamples
      {
        assert Steps[StepIndex(t)] == t;
      }
    }

    /**
     * Offers one gaze offset observed at time `now`. The first call at a
     * target starts the timer at `now`; a call is accepted once `dwellTime`
     * has passed since then, so with a zero dwell time that same first call is
     * accepted. Offsets offered earlier are dropped, and the gaze is not
     * checked in between. An accepted offset is appended to the current target's
     * samples and the session moves on to the next target; the call that
     * finishes the fifth target computes the mappings.
     */
    method Record(gazeOffset: Pair, now: real) returns (accepted: bool)
      requires Valid()
      modifies this
      ensures Valid()
      ensures accepted <==> !old(completed) && now - old(startTime).GetOr(now) >= dwellTime
      // a completed session ignores further calls
      ensures old(completed) ==> unchanged(this)
      // a rejected call only starts the timer, if it was not running
      ensures !old(completed) && !accepted ==>
        && startTime == Some(old(startTime).GetOr(now))
        && gazeSamples == old(gazeSamples) && currentStep == old(currentStep)
        && !completed && coeffX == old(coeffX) && coeffY == old(coeffY)
      // an accepted call appends to the current target alone and moves on
      ensures accepted ==>
        && old(currentStep) < |Steps|
        && gazeSamples[Steps[old(currentStep)]] == old(gazeSamples[Steps[currentStep]]) + [gazeOffset]
        && (forall t: Target :: t != Steps[old(currentStep)] ==> gazeSamples[t] == old(gazeSamples[t]))
        && currentStep == old(currentStep) + 1
        && startTime == None
      ensures currentStep >= old(currentStep)
    {
      if completed {
        return false;
      }
      var start := startTime.GetOr(now);
      startTime := Some(start);
      if now - start < dwellTime {
        return false;
      }
      AppendAdvances(gazeSamples, currentStep, gazeOffset);
      gazeSamples := AppendAt(gazeSamples, currentStep, gazeOffset);
      currentStep := currentStep + 1;
      startTime := None;
      if currentStep >= |Steps| {
        completed := true;
        FinishedHasAllSamples(gazeSamples);
        var ok := ComputeMapping();
      }
      return true;
    }

    /**
     * Pairs each target's mean gaze offset with the target's screen position,
     * in calibration order, and fits one line per axis. A target without
     * samples has no mean: the mapping is then not computed and `ok` is false
     * (`compute_mapping` raises an exception before setting anything).
     */
    method ComputeMapping() returns (ok: bool)
      requires Shaped()
      modifies this
      ensures Shaped()
      ensures gazeSamples == old(gazeSamples) && currentStep == old(currentStep)
      ensures startTime == old(startTime) && completed == old(completed)
      ensures ok <==> HasAllSamples(gazeSamples)
      ensures ok ==> coeffX == Some(MappingX(gazeSamples, screenPoints)) && coeffY == Some(MappingY(gazeSamples, screenPoints))
      ensures !ok ==> coeffX == old(coeffX) && coeffY == old(coeffY)
      ensures old(Valid()) ==> Valid()
    {
      if Valid() && !completed {
        UnfinishedLacksSamples(gazeSamples, currentStep);
      }
      var gazeX, gazeY, screenX, screenY := [], [], [], [];
      for i := 0 to |Steps|
        invariant ColumnsUpTo(gazeSamples, screenPoints, gazeX, gazeY, screenX, screenY, i)
        modifies {}
      {
        var samples := gazeSamples[Steps[i]];
        if |samples| == 0 {
          assert !HasAllSamples(gazeSamples) by {
            assert |gazeSamples[Steps[i]]| == 0;
          }
          return false;
        }
        var g := MeanGaze(samples);
        var s := screenPoints[Steps[i]];
        ColumnsExtend(gazeSamples, screenPoints, gazeX, gazeY, screenX, screenY, i);
        gazeX, gazeY := gazeX + [g.0], gazeY + [g.1];
        screenX, screenY := screenX + [s.0 as real], screenY + [s.1 as real];
      }
      ColumnsComplete(gazeSamples, screenPoints, gazeX, gazeY, screenX, screenY);
      coeffX := Some(PolyFit(gazeX, screenX));
      coeffY := Some(PolyFit(gazeY, screenY));
      ok := true;
    }
  }
}
