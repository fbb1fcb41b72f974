/**
  The document viewer: which PDF is open, which page is shown, and the
  clamped page moves bound to the arrow keys (PDFViewer in main.py).
  The tilt timer lives in the same record because the source keeps it on
  the same object; only the gesture detector changes it.
 */
module Navigation {
  import opened Wrappers

  /** An opened PDF, reduced to the one thing the logic reads: its page count. */
  datatype Document = Document(pageCount: nat)

  /** The state of a PDFViewer: `doc`, `current_page` and `tilt_start_time`. */
  datatype Viewer = Viewer(doc: Option<Document>, page: int, tiltStart: Option<real>)

  /** A page move: `previous_page` (left arrow, or a held positive slope)
      or `next_page` (right arrow, or a held negative slope). */
  datatype Turn = Previous | Next

  /** Raised by the PDF library when the selected file cannot be opened. */
  datatype OpenError = OpenError

  /** The state right after construction: no document, page 0, no timer. */
  const Initial: Viewer := Viewer(None, 0, None)

  function Min(a: int, b: int): int { if a <= b then a else b }
  function Max(a: int, b: int): int { if a >= b then a else b }

  /** The guard `if self.doc:`. A PDF document object is truthy exactly
      when its length, the page count, is non-zero; `None` is falsy. */
  predicate IsOpen(v: Viewer) {
    v.doc.Some? && v.doc.value.pageCount > 0
  }

  /** Index of the last page of the open document. */
  function LastPage(v: Viewer): (n: nat)
    requires IsOpen(v)
    ensures n < v.doc.value.pageCount
  {
    v.doc.value.pageCount - 1
  }

  /** The page index is never negative and, while a document is open,
      names one of its pages. */
  predicate Valid(v: Viewer) {
    0 <= v.page && (IsOpen(v) ==> v.page <= LastPage(v))
  }

  /** `next_page`: one page forward, stopping at the last page; nothing
      happens without an open document. */
  function NextPage(v: Viewer): (r: Viewer)
    ensures r.doc == v.doc && r.tiltStart == v.tiltStart
    ensures !IsOpen(v) ==> r == v
    ensures IsOpen(v) && v.page < LastPage(v) ==> r.page == v.page + 1
    ensures IsOpen(v) && v.page == LastPage(v) ==> r == v
    ensures Valid(v) ==> Valid(r)
  {
    if IsOpen(v) then v.(page := Min(v.page + 1, v.doc.value.pageCount - 1)) else v
  }

  /** `previous_page`: one page back, stopping at page 0; nothing happens
      without an open document. */
  function PrevPage(v: Viewer): (r: Viewer)
    ensures r.doc == v.doc && r.tiltStart == v.tiltStart
    ensures !IsOpen(v) ==> r == v
    ensures IsOpen(v) && v.page > 0 ==> r.page == v.page - 1
    ensures IsOpen(v) && v.page == 0 ==> r == v
    ensures Valid(v) ==> Valid(r)
  {
    if IsOpen(v) then v.(page := Max(v.page - 1, 0)) else v
  }

  /** Dispatch of one page move to the matching viewer operation. */
  function Move(v: Viewer, t: Turn): (r: Viewer)
    ensures r.doc == v.doc && r.tiltStart == v.tiltStart
    ensures Valid(v) ==> Valid(r)
  {
    match t
    case Previous => PrevPage(v)
    case Next => NextPage(v)
  }

  /** `load_pdf`. `path` is what the file dialog returned (empty when the
      user cancelled) and `outcome` is what the PDF library produced for it:
      the page count of the opened document, or the error it raised. */
  function LoadPdf(v: Viewer, path: string, outcome: Result<nat, OpenError>): (r: Result<Viewer, OpenError>)
    ensures path == [] ==> r == Success(v)
    ensures path != [] && outcome.Failure? ==> r == Failure(outcome.error)
    ensures path != [] && outcome.Success? ==>
              r.Success? && r.value.doc == Some(Document(outcome.value))
              && r.value.page == 0 && r.value.tiltStart == v.tiltStart
    ensures r.Success? && Valid(v) ==> Valid(r.value)
  {
    if path == [] then Success(v)
    else match outcome
      case Failure(e) => Failure(e)
      case Success(n) => Success(v.(doc := Some(Document(n)), page := 0))
  }

  /** `update_display`: the index of the page rendered, if any. In a valid
      state the index `self.doc[self.current_page]` reads is always a page
      of the document. */
  function ShownPage(v: Viewer): (r: Option<nat>)
    requires Valid(v)
    ensures r.Some? <==> IsOpen(v)
    ensures r.Some? ==> r.value == v.page && r.value < v.doc.value.pageCount
  {
    if IsOpen(v) then Some(v.page as nat) else None
  }

  /** A sequence of page moves applied one after another. */
  function Navigate(v: Viewer, turns: seq<Turn>): (r: Viewer)
    ensures r.doc == v.doc && r.tiltStart == v.tiltStart
    ensures Valid(v) ==> Valid(r)
    ensures !IsOpen(v) ==> r == v
    decreases |turns|
  {
    if turns == [] then v else Navigate(Move(v, turns[0]), turns[1..])
  }

  /** `k` copies of the same move. */
  function Repeat(t: Turn, k: nat): (s: seq<Turn>)
    ensures |s| == k
    ensures forall i :: 0 <= i < k ==> s[i] == t
  {
    if k == 0 then [] else [t] + Repeat(t, k - 1)
  }

  /** Pressing "next" `k` times from a valid page lands on the page `k`
      further on, or on the last page if that comes first. */
  lemma {:induction false} NavigateNexts(v: Viewer, k: nat)
    requires Valid(v) && IsOpen(v)
    ensures Navigate(v, Repeat(Next, k)).page == Min(v.page + k, LastPage(v))
    decreases k
  {
    if k > 0 {
      assert Repeat(Next, k)[1..] == Repeat(Next, k - 1);
      NavigateNexts(NextPage(v), k - 1);
    }
  }

  /** Pressing "previous" `k` times from a valid page lands on the page `k`
      earlier, or on page 0 if that comes first. */
  lemma {:induction false} NavigatePrevs(v: Viewer, k: nat)
    requires Valid(v) && IsOpen(v)
    ensures Navigate(v, Repeat(Previous, k)).page == Max(v.page - k, 0)
    decreases k
  {
    if k > 0 {
      assert Repeat(Previous, k)[1..] == Repeat(Previous, k - 1);
      NavigatePrevs(PrevPage(v), k - 1);
    }
  }

  /** Away from the ends, "previous" undoes "next" and "next" undoes
      "previous". */
  lemma NextPrevRoundTrip(v: Viewer)
    requires Valid(v) && IsOpen(v)
    ensures v.page < LastPage(v) ==> PrevPage(NextPage(v)) == v
    ensures v.page > 0 ==> NextPage(PrevPage(v)) == v
  {
  }

  /** Navigating along `a + b` is navigating along `a`, then along `b`. */
  lemma {:induction false} NavigateAppend(v: Viewer, a: seq<Turn>, b: seq<Turn>)
    ensures Navigate(v, a + b) == Navigate(Navigate(v, a), b)
    decreases |a|
  {
    if a != [] {
      assert (a + b)[0] == a[0];
      assert (a + b)[1..] == a[1..] + b;
      NavigateAppend(Move(v, a[0]), a[1..], b);
    } else {
      assert a + b == b;
    }
  }

  /** Page moves neither read nor write the tilt timer. */
  lemma {:induction false} NavigateIgnoresTimer(v: Viewer, t: Option<real>, turns: seq<Turn>)
    ensures Navigate(v.(tiltStart := t), turns) == Navigate(v, turns).(tiltStart := t)
    decreases |turns|
  {
    if turns != [] {
      NavigateIgnoresTimer(Move(v, turns[0]), t, turns[1..]);
    }
  }
}
