/**
  The tilt-gesture detector (`get_gradient` and `check_and_draw_line` in
  main.py): the slope between forehead landmarks 69 and 299, and a
  dwell timer that turns a tilt held for more than a second into exactly
  one page move.
 */
module Gesture {
  import opened Wrappers
  import opened Navigation

  /** Slopes whose magnitude is at most this count as "not tilted". */
  const Threshold: real := 0.4

  /** A tilt must last strictly longer than this many seconds to fire. */
  const Dwell: real := 1.0

  /** Pixel coordinates of landmark 69 (x1, y1) and landmark 299 (x2, y2). */
  datatype Landmarks = Landmarks(x1: int, y1: int, x2: int, y2: int)

  /** The division in `get_gradient` raises when both points share an x. */
  datatype GestureError = ZeroDivision

  /** One face seen by the capture loop, with the clock reading taken for it. */
  datatype Sample = Sample(points: Landmarks, now: real)

  /** The state after one evaluation, and the page move it fired, if any. */
  datatype Evaluation = Evaluation(viewer: Viewer, turn: Option<Turn>)

  /** The state after a run of evaluations, and the page moves fired in order. */
  datatype Trace = Trace(viewer: Viewer, turns: seq<Turn>)

  function Abs(x: real): real { if x < 0.0 then -x else x }

  /** `get_gradient`: rise over run between the two points. Fails exactly
      when the run is zero; otherwise the slope is the unique number that
      turns the run into the rise. */
  function Gradient(x1: int, y1: int, x2: int, y2: int): (r: Result<real, GestureError>)
    ensures r.Failure? <==> x1 == x2
    ensures r.Success? ==> r.value * (x2 - x1) as real == (y2 - y1) as real
  {
    if x1 == x2 then Failure(ZeroDivision)
    else Success((y2 - y1) as real / (x2 - x1) as real)
  }

  /** The slope of a landmark pair whose points do not share an x. */
  function Slope(p: Landmarks): real
    requires p.x1 != p.x2
  {
    Gradient(p.x1, p.y1, p.x2, p.y2).value
  }

  /** The test `abs(gradient) > 0.4`. */
  predicate IsTilted(g: real) { Abs(g) > Threshold }

  function IntAbs(x: int): int { if x < 0 then -x else x }

  /** The tilt test needs no division. With run dx and rise dy, the slope
      exceeds 0.4 exactly when 5·dy > 2·dx (for a rightward run; the
      inequality flips for a leftward one), it is below -0.4 exactly when
      5·dy < -2·dx (again flipped for a leftward run), and the pair is
      tilted exactly when 5·|dy| > 2·|dx|. In particular a rise of 2 over
      a run of 5 is not tilted. */
  lemma {:induction false} TiltInIntegers(p: Landmarks)
    requires p.x1 != p.x2
    ensures var dx, dy := p.x2 - p.x1, p.y2 - p.y1;
            && (Slope(p) > Threshold <==> (dx > 0 && 5 * dy > 2 * dx) || (dx < 0 && 5 * dy < 2 * dx))
            && (Slope(p) < -Threshold <==> (dx > 0 && 5 * dy < -2 * dx) || (dx < 0 && 5 * dy > -2 * dx))
            && (IsTilted(Slope(p)) <==> 5 * IntAbs(dy) > 2 * IntAbs(dx))
  {
    var dx, dy := p.x2 - p.x1, p.y2 - p.y1;
    IntThreshold(dx, dy);
    if dx > 0 {
      PositiveRun(Slope(p), dx as real, dy as real);
    } else {
      NegativeRun(Slope(p), dx as real, dy as real);
    }
  }

  /** For a rightward run, the slope's comparisons with ±0.4 become
      comparisons of the rise with ±0.4 times the run. */
  lemma PositiveRun(g: real, dx: real, dy: real)
    requires dx > 0.0 && g * dx == dy
    ensures g > 0.4 <==> dy > 0.4 * dx
    ensures g < -0.4 <==> dy < -0.4 * dx
  {
    ScaleByPositive(g, dx);
  }

  /** For a leftward run the same comparisons hold with the order flipped. */
  lemma NegativeRun(g: real, dx: real, dy: real)
    requires dx < 0.0 && g * dx == dy
    ensures g > 0.4 <==> dy < 0.4 * dx
    ensures g < -0.4 <==> dy > -0.4 * dx
  {
    ScaleByNegative(g, dx);
  }

  lemma ScaleByPositive(a: real, c: real)
    requires c > 0.0
    ensures a > 0.4 <==> a * c > 0.4 * c
    ensures a < -0.4 <==> a * c < -0.4 * c
  {
    if a > 0.4 || a * c > 0.4 * c {
      assert a * c - 0.4 * c == (a - 0.4) * c;
    }
    if a < -0.4 || a * c < -0.4 * c {
      assert -0.4 * c - a * c == (-0.4 - a) * c;
    }
  }

  lemma ScaleByNegative(a: real, c: real)
    requires c < 0.0
    ensures a > 0.4 <==> a * c < 0.4 * c
    ensures a < -0.4 <==> a * c > -0.4 * c
  {
    if a > 0.4 || a * c < 0.4 * c {
      assert a * c - 0.4 * c == (a - 0.4) * c;
    }
    if a < -0.4 || a * c > -0.4 * c {
      assert -0.4 * c - a * c == (-0.4 - a) * c;
    }
  }

  /** Comparing with 0.4 times an integer is comparing five times with twice. */
  lemma IntThreshold(dx: int, dy: int)
    ensures dy as real > 0.4 * dx as real <==> 5 * dy > 2 * dx
    ensures dy as real < 0.4 * dx as real <==> 5 * dy < 2 * dx
    ensures dy as real < -0.4 * dx as real <==> 5 * dy < -2 * dx
    ensures dy as real > -0.4 * dx as real <==> 5 * dy > -2 * dx
  {
  }

  /** `check_and_draw_line` without its drawing and printing: compute the
      slope, then clear, start, keep or fire the tilt timer. `now` is the
      clock reading taken by the branch that needs one. */
  function Evaluate(v: Viewer, p: Landmarks, now: real): (r: Result<Evaluation, GestureError>)
    ensures r.Failure? <==> p.x1 == p.x2
    ensures r.Success? ==> r.value.viewer.doc == v.doc
    ensures r.Success? && Valid(v) ==> Valid(r.value.viewer)
    // not tilted (a slope of exactly 0.4 included): timer cleared, page kept
    ensures r.Success? && !IsTilted(Slope(p)) ==>
              r.value == Evaluation(v.(tiltStart := None), None)
    // tilt begins: the timer starts now, page kept
    ensures r.Success? && IsTilted(Slope(p)) && v.tiltStart.None? ==>
              r.value == Evaluation(v.(tiltStart := Some(now)), None)
    // tilt held for at most the dwell time: nothing changes
    ensures r.Success? && IsTilted(Slope(p)) && v.tiltStart.Some? && now - v.tiltStart.value <= Dwell ==>
              r.value == Evaluation(v, None)
    // tilt held past the dwell time: exactly one move, chosen by the sign, and the timer is cleared
    ensures r.Success? && IsTilted(Slope(p)) && v.tiltStart.Some? && now - v.tiltStart.value > Dwell ==>
              && r.value.turn.Some?
              && (r.value.turn == Some(Previous) <==> Slope(p) > 0.0)
              && r.value.viewer == Move(v, r.value.turn.value).(tiltStart := None)
    // the timer only runs while the pair is tilted
    ensures r.Success? && r.value.viewer.tiltStart.Some? ==> IsTilted(Slope(p))
  {
    match Gradient(p.x1, p.y1, p.x2, p.y2)
    case Failure(e) => Failure(e)
    case Success(g) =>
      if Abs(g) > Threshold then
        match v.tiltStart
        case None => Success(Evaluation(v.(tiltStart := Some(now)), None))
        case Some(start) =>
          if now - start > Dwell then
            if g > Threshold then Success(Evaluation(PrevPage(v).(tiltStart := None), Some(Previous)))
            else if g < -Threshold then Success(Evaluation(NextPage(v).(tiltStart := None), Some(Next)))
            else Success(Evaluation(v.(tiltStart := None), None))
          else Success(Evaluation(v, None))
      else Success(Evaluation(v.(tiltStart := None), None))
  }

  /** No auto-repeat: right after a move fires the timer is clear, so the
      next evaluation, whatever its points and time, cannot fire again; a
      held tilt only restarts the timer. */
  lemma NoAutoRepeat(v: Viewer, p: Landmarks, now: real, q: Landmarks, later: real)
    requires q.x1 != q.x2
    ensures Evaluate(v, p, now).Success? && Evaluate(v, p, now).value.turn.Some? ==>
              var w := Evaluate(v, p, now).value.viewer;
              && w.tiltStart.None?
              && Evaluate(w, q, later).value.turn.None?
              && Evaluate(w, q, later).value.viewer.page == w.page
              && (IsTilted(Slope(q)) ==> Evaluate(w, q, later).value.viewer.tiltStart == Some(later))
  {
  }

  /** Worked cases: a slope of -0.5 held past the dwell time turns to the
      next page and +0.5 to the previous one; a slope of exactly 0.4 is not
      a tilt and clears the timer, while 0.41 starts it. */
  lemma SlopeExamples(v: Viewer, start: real)
    ensures var held := v.(tiltStart := Some(start));
            && Evaluate(held, Landmarks(0, 0, 10, -5), start + 1.5).value.turn == Some(Next)
            && Evaluate(held, Landmarks(0, 0, 10, 5), start + 1.5).value.turn == Some(Previous)
            && Evaluate(held, Landmarks(0, 0, 5, 2), start + 1.5).value == Evaluation(v.(tiltStart := None), None)
            && Evaluate(v.(tiltStart := None), Landmarks(0, 0, 100, 41), start).value.viewer.tiltStart == Some(start)
  {
  }

  /** The per-face loop of the capture loop: evaluate each sample in turn.
      The first degenerate pair raises, which ends the program; an empty
      run (a frame with no face) changes nothing, the timer included. */
  function Run(v: Viewer, samples: seq<Sample>): (r: Result<Trace, GestureError>)
    ensures samples == [] ==> r == Success(Trace(v, []))
    ensures r.Failure? <==> exists i :: 0 <= i < |samples| && samples[i].points.x1 == samples[i].points.x2
    ensures r.Success? ==> r.value.viewer.doc == v.doc && |r.value.turns| <= |samples|
    ensures r.Success? && Valid(v) ==> Valid(r.value.viewer)
    decreases |samples|
  {
    if samples == [] then Success(Trace(v, []))
    else
      match Evaluate(v, samples[0].points, samples[0].now)
      case Failure(e) => Failure(e)
      case Success(ev) =>
        match Run(ev.viewer, samples[1..])
        case Failure(e) => Failure(e)
        case Success(t) => Success(Trace(t.viewer, OptionToSeq(ev.turn) + t.turns))
  }

  /** A gesture moves pages exactly as the arrow keys would: the page
      reached by a run is the page reached by pressing the keys for the
      moves it fired, in the same order. */
  lemma {:induction false} RunMatchesKeys(v: Viewer, samples: seq<Sample>)
    requires Run(v, samples).Success?
    ensures var t := Run(v, samples).value;
            t.viewer == Navigate(v, t.turns).(tiltStart := t.viewer.tiltStart)
    decreases |samples|
  {
    if samples != [] {
      var ev := Evaluate(v, samples[0].points, samples[0].now).value;
      var rest := Run(ev.viewer, samples[1..]).value;
      RunMatchesKeys(ev.viewer, samples[1..]);
      var mid := Navigate(v, OptionToSeq(ev.turn));
      assert ev.viewer == mid.(tiltStart := ev.viewer.tiltStart);
      NavigateIgnoresTimer(mid, ev.viewer.tiltStart, rest.turns);
      NavigateAppend(v, OptionToSeq(ev.turn), rest.turns);
    }
  }

  /** Debounce: while the timer started at `start` is running and every
      sample is tilted and taken no more than the dwell time after `start`,
      nothing fires and nothing changes. */
  lemma {:induction false} HeldWithinDwell(v: Viewer, samples: seq<Sample>)
    requires v.tiltStart.Some?
    requires forall i :: 0 <= i < |samples| ==>
               samples[i].points.x1 != samples[i].points.x2
               && IsTilted(Slope(samples[i].points))
               && samples[i].now - v.tiltStart.value <= Dwell
    ensures Run(v, samples) == Success(Trace(v, []))
    decreases |samples|
  {
    if samples != [] {
      HeldWithinDwell(v, samples[1..]);
    }
  }

  /** A tilt first seen at time `t0` and held, with every sample taken no
      more than the dwell time after `t0`, starts the timer at `t0` and
      turns no page. */
  lemma TiltShorterThanDwell(v: Viewer, samples: seq<Sample>)
    requires v.tiltStart.None? && |samples| > 0
    requires forall i :: 0 <= i < |samples| ==>
               samples[i].points.x1 != samples[i].points.x2
               && IsTilted(Slope(samples[i].points))
               && samples[i].now - samples[0].now <= Dwell
    ensures Run(v, samples) == Success(Trace(v.(tiltStart := Some(samples[0].now)), []))
  {
    var w := v.(tiltStart := Some(samples[0].now));
    HeldWithinDwell(w, samples[1..]);
  }

  /** Once the dwell time has passed, a held tilt fires exactly one move:
      the run of a start sample, any samples within the dwell time, and one
      sample past it, fires one move and leaves the timer clear. */
  lemma {:induction false} HeldPastDwellFiresOnce(v: Viewer, samples: seq<Sample>, last: Sample)
    requires v.tiltStart.None? && |samples| > 0
    requires forall i :: 0 <= i < |samples| ==>
               samples[i].points.x1 != samples[i].points.x2
               && IsTilted(Slope(samples[i].points))
               && samples[i].now - samples[0].now <= Dwell
    requires last.points.x1 != last.points.x2 && IsTilted(Slope(last.points))
    requires last.now - samples[0].now > Dwell
    ensures Run(v, samples + [last]).Success?
    ensures |Run(v, samples + [last]).value.turns| == 1
    ensures Run(v, samples + [last]).value.viewer.tiltStart.None?
  {
    TiltShorterThanDwell(v, samples);
    RunAppend(v, samples, [last]);
  }

  /** Running `a + b` is running `a`, then `b` from where `a` left off. */
  lemma {:induction false} RunAppend(v: Viewer, a: seq<Sample>, b: seq<Sample>)
    requires Run(v, a).Success?
    ensures Run(v, a + b) ==
            match Run(Run(v, a).value.viewer, b)
            case Failure(e) => Failure(e)
            case Success(t) => Success(Trace(t.viewer, Run(v, a).value.turns + t.turns))
    decreases |a|
  {
    if a == [] {
      assert a + b == b;
      match Run(v, b)
      case Failure(e) =>
      case Success(t) => assert [] + t.turns == t.turns;
    } else {
      assert (a + b)[0] == a[0];
      assert (a + b)[1..] == a[1..] + b;
      var ev := Evaluate(v, a[0].points, a[0].now).value;
      RunAppend(ev.viewer, a[1..], b);
      assert OptionToSeq(ev.turn) + Run(ev.viewer, a[1..]).value.turns == Run(v, a).value.turns;
      match Run(Run(ev.viewer, a[1..]).value.viewer, b)
      case Failure(e) =>
      case Success(t) =>
        assert OptionToSeq(ev.turn) + (Run(ev.viewer, a[1..]).value.turns + t.turns)
            == Run(v, a).value.turns + t.turns;
    }
  }
}
