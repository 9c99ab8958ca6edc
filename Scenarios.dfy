/**
 * Whole calibration sessions driven through `Calibration.Record`, with the
 * clock readings given explicitly.
 */
module Scenarios {
  import opened Wrappers
  import opened Regression
  import opened Drishtikey

  /**
   * With the default dwell time of 1.5 s, the first call at a target only
   * starts the timer, a call 1 s later is still too early, a call at 1.5 s is
   * accepted, and the next call, for the second target, starts a new timer at
   * 1.5 s.
   */
  method DefaultDwell() returns (answers: seq<bool>, timer: Option<real>)
    ensures answers == [false, false, true, false]
    ensures timer == Some(1.5)
  {
    var c := new Calibration(1920, 1080);
    var a0 := c.Record((0.0, 0.0), 0.0);
    var a1 := c.Record((0.0, 0.0), 1.0);
    var a2 := c.Record((0.0, 0.0), 1.5);
    var a3 := c.Record((3.0, 0.0), 1.5);
    answers, timer := [a0, a1, a2, a3], c.startTime;
  }

  /** With a zero dwell time the very first call at a target is accepted. */
  method ZeroDwell() returns (accepted: bool)
    ensures accepted
  {
    var c := new Calibration(1920, 1080, 0.0);
    accepted := c.Record((0.0, 0.0), 0.0);
  }

  /** Where the simulated user looks at each target of a 1000 by 800 screen. */
  function Gaze(t: Target): Pair {
    match t
    case TopLeft => (35.0, 35.0)
    case TopRight => (485.0, 35.0)
    case BottomLeft => (35.0, 385.0)
    case BottomRight => (485.0, 385.0)
    case Center => (260.0, 210.0)
  }

  /**
   * On a 1000 by 800 screen with no dwell time, a user whose gaze offset is
   * half the target position plus 10 on both axes gets the mapping
   * `screen = 2 gaze - 20` on both axes; a sixth call is ignored.
   */
  method FullSession() returns (coeffX: Option<Line>, coeffY: Option<Line>, sixth: bool)
    ensures coeffX == Some(Line(2.0, -20.0)) && coeffY == Some(Line(2.0, -20.0))
    ensures !sixth
  {
    var c := new Calibration(1000, 800, 0.0);
    for i := 0 to |Steps|
      invariant c.Valid() && c.currentStep == i && c.startTime == None
      invariant c.screenWidth == 1000 && c.screenHeight == 800 && c.dwellTime == 0.0
      invariant forall t: Target :: StepIndex(t) < i ==> c.gazeSamples[t] == [Gaze(t)]
    {
      StepIndexInverse(i);
      var accepted := c.Record(Gaze(Steps[i]), 0.0);
    }
    SessionMappings(c.gazeSamples, c.screenPoints);
    sixth := c.Record((5.0, 5.0), 1.0);
    coeffX, coeffY := c.coeffX, c.coeffY;
  }

  /** The mappings fitted to the samples recorded in `FullSession`. */
  lemma SessionMappings(samples: map<Target, seq<Pair>>, points: map<Target, (int, int)>)
    requires points == ScreenTable(1000, 800)
    requires Covers(samples) && forall t: Target :: samples[t] == [Gaze(t)]
    ensures HasAllSamples(samples) && Covers(points)
    ensures MappingX(samples, points) == Line(2.0, -20.0)
    ensures MappingY(samples, points) == Line(2.0, -20.0)
  {
    var l := Line(2.0, -20.0);
    forall t: Target
      ensures |samples[t]| > 0 && MeanGaze(samples[t]) == Gaze(t)
      ensures points[t].0 as real == Predict(l, Gaze(t).0) && points[t].1 as real == Predict(l, Gaze(t).1)
    {
      MeanOfEqualSamples(samples[t], Gaze(t));
      match t
      case TopLeft => assert points[t] == (50, 50);
      case TopRight => assert points[t] == (950, 50);
      case BottomLeft => assert points[t] == (50, 750);
      case BottomRight => assert points[t] == (950, 750);
      case Center => assert points[t] == (500, 400);
    }
    MappingXRecoversAffine(samples, points, l, TopLeft, TopRight);
    MappingYRecoversAffine(samples, points, l, TopLeft, BottomLeft);
  }
}
