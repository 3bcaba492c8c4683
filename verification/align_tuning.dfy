/** The tuning run of the projection-alignment tool
    (tools/imagej/Align_Projections/src/Align_Projections.java, tune and
    run).

    The tuner searches for the centre of rotation and the detector angle
    that maximise the correlation of the aligned first and last
    projections.  The two parameters are weighted so that a unit step in
    either moves the image edge by about a pixel, and Powell's method
    searches twice from the same starting point: first with coarse
    thresholds, then, unless the user stopped it or the optimiser failed,
    with the default ones.  The optimiser is not part of this model: it is
    a parameter that, given a checker and a starting point, reports how it
    ended. */
module AlignTuning {
  import opened Wrappers
  import opened AlignConvergence

  /** The weight of each parameter in the optimiser's coordinates. */
  datatype Weights = Weights(centre: real, angle: real)

  /** The two tuned parameters: the centre of rotation in pixels and the
      detector angle in degrees. */
  datatype Settings = Settings(centerPixel: real, detectorAngle: real)

  /** The weights set by tune(): 1 for the centre, and for the angle the
      distance in pixels that rotating by one degree moves a point half the
      stack's width from the centre.  `pi` stands for Math.PI. */
  function TuningWeights(stackWidth: int, pi: real): (w: Weights)
    ensures w.centre == 1.0 && 360.0 * w.angle == pi * stackWidth as real
  {
    Weights(1.0, pi / 180.0 * stackWidth as real / 2.0)
  }

  /** Both weights are positive for an open image. */
  lemma {:induction false} WeightsPositive(stackWidth: int, pi: real)
    requires stackWidth > 0 && pi > 0.0
    ensures TuningWeights(stackWidth, pi).angle > 0.0
  {
    var w := TuningWeights(stackWidth, pi);
    Positive(pi, stackWidth as real);
  }

  lemma Positive(x: real, y: real)
    requires x > 0.0 && y > 0.0
    ensures x * y > 0.0
  {
  }

  /** The optimiser's coordinates of a pair of settings. */
  function Weigh(s: Settings, w: Weights): (real, real)
  {
    (Times(s.centerPixel, w.centre), Times(s.detectorAngle, w.angle))
  }

  function Times(a: real, k: real): real { a * k }

  /** The settings of a point in the optimiser's coordinates, as value()
      and run() recover them. */
  function Unweigh(x: (real, real), w: Weights): (s: Settings)
    requires w.centre != 0.0 && w.angle != 0.0
  {
    Settings(x.0 / w.centre, x.1 / w.angle)
  }

  /** Weighing and unweighing are inverse, both ways round. */
  lemma {:induction false} UnweighWeigh(s: Settings, w: Weights)
    requires w.centre != 0.0 && w.angle != 0.0
    ensures Unweigh(Weigh(s, w), w) == s
  {
    ExactQuotient(Times(s.centerPixel, w.centre), w.centre, s.centerPixel);
    ExactQuotient(Times(s.detectorAngle, w.angle), w.angle, s.detectorAngle);
  }

  lemma {:induction false} WeighUnweigh(x: (real, real), w: Weights)
    requires w.centre != 0.0 && w.angle != 0.0
    ensures Weigh(Unweigh(x, w), w) == x
  {
    QuotientTimes(x.0, w.centre);
    QuotientTimes(x.1, w.angle);
  }

  lemma ExactQuotient(p: real, d: real, q: real)
    requires d != 0.0 && p == Times(q, d)
    ensures p / d == q
  {
  }

  lemma QuotientTimes(p: real, d: real)
    requires d != 0.0
    ensures Times(p / d, d) == p
  {
  }

  /** One evaluation of the objective: a point and its correlation. */
  datatype Evaluation = Evaluation(point: (real, real), value: real)

  /** How an optimisation ended.  Each evaluation of the objective records
      its point and value in the tuner, so an optimisation that ended by an
      exception leaves the last evaluation behind, if there was one. */
  datatype Outcome =
    | Returned(best: Evaluation)
    | Escaped(last: Option<Evaluation>)
    | Failed(last: Option<Evaluation>)

  /** The state the run works on. */
  datatype Tuner = Tuner(settings: Settings, crossCorrelation: real, stopTuning: bool)

  /** One call of the optimiser: the checker it was given and where it
      started. */
  datatype Call = Call(checker: Checker, start: (real, real))

  datatype Run = Run(final: Tuner, calls: seq<Call>)

  /** The tuner after an evaluation has been recorded. */
  function Record(t: Tuner, e: Evaluation, w: Weights): (r: Tuner)
    requires w.centre != 0.0 && w.angle != 0.0
    ensures Weigh(r.settings, w) == e.point && r.crossCorrelation == e.value
    ensures r.stopTuning == t.stopTuning
  {
    WeighUnweigh(e.point, w);
    t.(settings := Unweigh(e.point, w), crossCorrelation := e.value)
  }

  /** The tuner after an optimisation. */
  function Conclude(t: Tuner, o: Outcome, w: Weights): (r: Tuner)
    requires w.centre != 0.0 && w.angle != 0.0
    ensures r.stopTuning == t.stopTuning
  {
    match o
    case Returned(b) => Record(t, b, w)
    case Escaped(Some(e)) => Record(t, e, w)
    case Failed(Some(e)) => Record(t, e, w)
    case _ => t
  }

  /** run(): start from the weighted current settings, optimise with the
      coarse checker, and unless the user asked to stop or the optimiser
      threw, optimise again with the default checker from the same point.
      `cancelled` says whether the user asked to stop during the first
      phase. */
  function Tune(s: Settings, crossCorrelation: real, stackWidth: int, pi: real,
                optimise: (Checker, (real, real)) -> Outcome, cancelled: bool): (r: Run)
    requires stackWidth > 0 && pi > 0.0
    ensures |r.calls| == 1 || |r.calls| == 2
    ensures r.calls[0] == Call(PhaseOneChecker(), Weigh(s, TuningWeights(stackWidth, pi)))
    ensures |r.calls| == 2 <==> !cancelled && !optimise(r.calls[0].checker, r.calls[0].start).Failed?
    ensures |r.calls| == 2 ==> r.calls[1] == Call(DefaultChecker(), r.calls[0].start)
    ensures r.final.stopTuning <==> cancelled || optimise(r.calls[0].checker, r.calls[0].start).Failed?
  {
    var w := TuningWeights(stackWidth, pi);
    WeightsPositive(stackWidth, pi);
    var x := Weigh(s, w);
    var first := optimise(PhaseOneChecker(), x);
    var t1 := Conclude(Tuner(s, crossCorrelation, false), first, w);
    var t1' := t1.(stopTuning := cancelled || first.Failed?);
    if t1'.stopTuning then Run(t1', [Call(PhaseOneChecker(), x)])
    else
      var second := optimise(DefaultChecker(), x);
      Run(Conclude(t1', second, w), [Call(PhaseOneChecker(), x), Call(DefaultChecker(), x)])
  }

  /** When the second phase returns, the run ends at the point it returned:
      the first phase's result has been discarded. */
  lemma {:induction false} SecondPhaseDecides(s: Settings, cc: real, stackWidth: int, pi: real,
                                              optimise: (Checker, (real, real)) -> Outcome, cancelled: bool)
    requires stackWidth > 0 && pi > 0.0
    requires var r := Tune(s, cc, stackWidth, pi, optimise, cancelled);
             |r.calls| == 2 && optimise(r.calls[1].checker, r.calls[1].start).Returned?
    ensures var r := Tune(s, cc, stackWidth, pi, optimise, cancelled);
            var b := optimise(r.calls[1].checker, r.calls[1].start).best;
            Weigh(r.final.settings, TuningWeights(stackWidth, pi)) == b.point
            && r.final.crossCorrelation == b.value && !r.final.stopTuning
  {
  }

  /** So two optimisers that differ only in the first phase, neither of
      them failing there, end the run in the same state. */
  lemma {:induction false} FirstPhaseIrrelevant(s: Settings, cc: real, stackWidth: int, pi: real,
                                                f: (Checker, (real, real)) -> Outcome,
                                                g: (Checker, (real, real)) -> Outcome)
    requires stackWidth > 0 && pi > 0.0
    requires var x := Weigh(s, TuningWeights(stackWidth, pi));
             !f(PhaseOneChecker(), x).Failed? && !g(PhaseOneChecker(), x).Failed?
             && f(DefaultChecker(), x) == g(DefaultChecker(), x) && f(DefaultChecker(), x).Returned?
    ensures Tune(s, cc, stackWidth, pi, f, false).final == Tune(s, cc, stackWidth, pi, g, false).final
  {
  }

  /** After a returned first phase that the user cancelled, the settings are
      the point it returned. */
  lemma {:induction false} CancelKeepsFirstPhase(s: Settings, cc: real, stackWidth: int, pi: real,
                                                 optimise: (Checker, (real, real)) -> Outcome)
    requires stackWidth > 0 && pi > 0.0
    requires optimise(PhaseOneChecker(), Weigh(s, TuningWeights(stackWidth, pi))).Returned?
    ensures var r := Tune(s, cc, stackWidth, pi, optimise, true);
            |r.calls| == 1 && r.final.stopTuning
            && Weigh(r.final.settings, TuningWeights(stackWidth, pi))
               == optimise(PhaseOneChecker(), Weigh(s, TuningWeights(stackWidth, pi))).best.point
  {
  }

  /** An optimiser that never evaluates the objective leaves the settings
      and correlation as they were. */
  lemma {:induction false} NothingEvaluated(s: Settings, cc: real, stackWidth: int, pi: real,
                                            optimise: (Checker, (real, real)) -> Outcome, cancelled: bool)
    requires stackWidth > 0 && pi > 0.0
    requires forall c: Checker, x: (real, real) :: optimise(c, x) == Escaped(None)
    ensures var r := Tune(s, cc, stackWidth, pi, optimise, cancelled);
            r.final.settings == s && r.final.crossCorrelation == cc
  {
  }
}
