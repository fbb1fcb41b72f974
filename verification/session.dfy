/**
  The running program as a whole: arrow keys, the "Select PDF" button and
  the faces the capture loop detects, applied to one viewer in the order
  they happen.
 */
module Session {
  import opened Wrappers
  import opened Navigation
  import opened Gesture

  /** One input the program reacts to. */
  datatype Command =
    | RightKey                                                  // bound to `next_page`
    | LeftKey                                                   // bound to `previous_page`
    | SelectPdf(path: string, outcome: Result<nat, OpenError>)  // the "Select PDF" button
    | Face(sample: Sample)                                      // one face in one camera frame

  /** One input applied to the viewer. The key bindings and the button run
      as toolkit callbacks, so an error while opening a file is reported and
      the viewer carries on unchanged; a degenerate landmark pair raises in
      the capture loop itself and ends the program. */
  function Step(v: Viewer, c: Command): (r: Result<Viewer, GestureError>)
    ensures c.RightKey? ==> r == Success(NextPage(v))
    ensures c.LeftKey? ==> r == Success(PrevPage(v))
    ensures c.SelectPdf? ==> r.Success? && (c.outcome.Failure? ==> r.value == v)
    ensures r.Failure? <==> Raises(c)
    ensures r.Success? && Valid(v) ==> Valid(r.value)
  {
    match c
    case RightKey => Success(NextPage(v))
    case LeftKey => Success(PrevPage(v))
    case SelectPdf(path, outcome) =>
      (match LoadPdf(v, path, outcome)
       case Success(w) => Success(w)
       case Failure(_) => Success(v))
    case Face(s) =>
      (match Evaluate(v, s.points, s.now)
       case Success(ev) => Success(ev.viewer)
       case Failure(e) => Failure(e))
  }

  /** An input that raises: a face whose landmarks share an x coordinate. */
  predicate Raises(c: Command) {
    c.Face? && c.sample.points.x1 == c.sample.points.x2
  }

  /** A sequence of inputs, stopping at the first one that raises. The
      program survives exactly the sequences in which no input raises. */
  function Steps(v: Viewer, cs: seq<Command>): (r: Result<Viewer, GestureError>)
    ensures cs == [] ==> r == Success(v)
    ensures r.Failure? <==> exists i :: 0 <= i < |cs| && Raises(cs[i])
    decreases |cs|
  {
    if cs == [] then Success(v)
    else match Step(v, cs[0])
      case Failure(e) => Failure(e)
      case Success(w) => Steps(w, cs[1..])
  }

  /** Whatever the user presses, selects or nods, the page index stays a
      page of the open document. */
  lemma {:induction false} StepsKeepValid(v: Viewer, cs: seq<Command>)
    requires Valid(v)
    ensures Steps(v, cs).Success? ==> Valid(Steps(v, cs).value)
    decreases |cs|
  {
    if cs != [] {
      match Step(v, cs[0])
      case Failure(_) =>
      case Success(w) => StepsKeepValid(w, cs[1..]);
    }
  }

  /** From start-up, any run of inputs that does not end the program
      leaves the viewer on a page that exists, whenever a document is
      shown. */
  lemma SessionInBounds(cs: seq<Command>)
    ensures Steps(Initial, cs).Success? && IsOpen(Steps(Initial, cs).value) ==>
              0 <= Steps(Initial, cs).value.page < Steps(Initial, cs).value.doc.value.pageCount
  {
    StepsKeepValid(Initial, cs);
  }

  /** Face samples alone drive the viewer exactly as the per-face loop of
      the capture loop does. */
  lemma {:induction false} FacesAreRun(v: Viewer, samples: seq<Sample>)
    ensures var cs := seq(|samples|, i requires 0 <= i < |samples| => Face(samples[i]));
            && (Steps(v, cs).Failure? <==> Run(v, samples).Failure?)
            && (Steps(v, cs).Success? ==> Steps(v, cs).value == Run(v, samples).value.viewer)
    decreases |samples|
  {
    var cs := seq(|samples|, i requires 0 <= i < |samples| => Face(samples[i]));
    if samples != [] {
      var tail := seq(|samples| - 1, i requires 0 <= i < |samples| - 1 => Face(samples[1..][i]));
      assert cs[1..] == tail;
      match Evaluate(v, samples[0].points, samples[0].now)
      case Failure(_) =>
      case Success(ev) => FacesAreRun(ev.viewer, samples[1..]);
    }
  }
}
