# Tilt sheet flipper: page navigation and tilt-gesture debounce

Tilt_SheetFlipper is a small desktop program. It shows a PDF one page at a
time and turns pages when the reader holds a head tilt. A webcam feeds a
face-mesh model. The program takes forehead landmarks 69 and 299 and
computes the slope of the line between them. A slope steeper than 0.4
that is held for more than one second turns exactly one page. A positive
slope goes to the previous page; a negative slope goes to the next page.
The arrow keys turn pages too.

This project models the two state machines of `main.py` as pure Dafny
functions over one immutable record,
`Viewer(doc: Option<Document>, page: int, tiltStart: Option<real>)`:

- `wrappers.dfy`, module `Wrappers`: `Option` and `Result`.
- `navigation.dfy`, module `Navigation`: the document (reduced to its page
  count), the clamped `next_page` / `previous_page` moves, `load_pdf`, and
  the page index read by `update_display`.
- `gesture.dfy`, module `Gesture`: `get_gradient`, the timer logic of
  `check_and_draw_line` (`Evaluate`), and the per-face loop of the capture
  loop (`Run`, a fold of `Evaluate`).
- `session.dfy`, module `Session`: key presses, file selections and face
  samples applied in sequence to one viewer.

Modelling choices:

- The guard `if self.doc:` is Python truthiness. The document object's
  length is its page count, so a document with no pages counts as "no
  document" (`Navigation.IsOpen`).
- `get_gradient` divides without a guard. When both landmarks share an x
  coordinate it raises `ZeroDivisionError`. That error escapes the capture
  loop and ends the program. The model returns `Failure(ZeroDivision)` and
  does not invent a fallback (`Gradient`, `Evaluate`, `Run`, `Steps`).
- Each clock reading becomes a `now: real` parameter. The reading taken to
  start the timer (main.py:70) and the one taken to compare against it
  (main.py:71) are in different branches, so one evaluation uses one `now`.
- The file dialog's answer is the `path` parameter; an empty path means
  the dialog was cancelled. The result of opening the PDF is the
  `outcome` parameter: a page count, or `OpenError`.
- The capture loop evaluates every detected face, not only the first.
  A frame with no face does not touch the timer (`Run` on `[]`).
- In `Session.Step`, an error while opening a file leaves the viewer
  unchanged. The toolkit reports exceptions raised in a button callback and
  keeps running.

## Model

| member | source | states |
|---|---|---|
| Navigation.NextPage | main.py:50-53 | With a document open, moves one page forward, except on the last page, where the state is unchanged. Without a document nothing changes. The document and timer are never touched, and an in-bounds index stays in bounds. |
| Navigation.PrevPage | main.py:55-58 | With a document open, moves one page back, except on page 0, where the state is unchanged. Without a document nothing changes. The document and timer are never touched, and an in-bounds index stays in bounds. |
| Navigation.Move | main.py:29-30 | A page move changes neither the document nor the timer, and it keeps an in-bounds index in bounds. |
| Navigation.LoadPdf | main.py:33-38 | A cancelled dialog (empty path) changes nothing. A failed open raises its error. A successful open installs the new document, resets the page to 0 and keeps the timer. A valid state stays valid. |
| Navigation.ShownPage | main.py:40-42 | A page is rendered exactly when a document with pages is open. The index it reads is the current page, and in a valid state that is a page of the document. |
| Navigation.Navigate | main.py:50-58 | Any sequence of next/previous moves keeps the page index in bounds, keeps the document and timer, and changes nothing when no document is open. |
| Navigation.NavigateNexts | main.py:50-53 | k next-page moves from page p land on min(p + k, last page). |
| Navigation.NavigatePrevs | main.py:55-58 | k previous-page moves from page p land on max(p - k, 0). |
| Navigation.NextPrevRoundTrip | main.py:50-58 | Away from the last page, previous undoes next. Away from page 0, next undoes previous. |
| Navigation.NavigateAppend | main.py:50-58 | Moving along a + b is moving along a and then along b. |
| Navigation.NavigateIgnoresTimer | main.py:50-58 | Page moves neither read nor change the tilt timer. |
| Gesture.Gradient | main.py:11-12 | The slope is undefined (division by zero) exactly when x1 == x2. Otherwise it is the unique number that, multiplied by the run x2 - x1, gives the rise y2 - y1. |
| Gesture.TiltInIntegers | main.py:68-76 | The tests slope > 0.4, slope < -0.4 and abs(slope) > 0.4 hold exactly when the matching integer inequality between 5·rise and 2·run holds. So a rise of 2 over a run of 5 (slope exactly 0.4) is not a tilt. |
| Gesture.Evaluate | main.py:65-82 | A degenerate pair raises. A pair that is not tilted clears the timer and keeps the page. A new tilt starts the timer at now. A tilt held for at most 1.0 s changes nothing. A tilt held for longer fires exactly one move and clears the timer: previous for a positive slope, next for a negative one. The document never changes, the timer runs only while tilted, and the page stays in bounds. |
| Gesture.SlopeExamples | main.py:65-82 | A held slope of -0.5 goes to the next page and +0.5 to the previous page. A slope of exactly 0.4 clears the timer; 0.41 starts it. |
| Gesture.NoAutoRepeat | main.py:69-80 | Right after a move fires, the timer is clear. The next evaluation cannot fire and keeps the page. If the pair is still tilted, it only restarts the timer. |
| Gesture.Run | main.py:102-121 | Evaluating the faces of a frame in turn fails exactly when some face has a degenerate pair. A frame with no face changes nothing. The document is kept, at most one move fires per face, and the page stays in bounds. |
| Gesture.RunMatchesKeys | main.py:72-79 | The page a run of gestures reaches is the page reached by pressing the arrow keys for the moves it fired, in order. |
| Gesture.HeldWithinDwell | main.py:68-71 | While the timer runs, tilted samples taken no more than 1.0 s after its start fire nothing and change nothing. |
| Gesture.TiltShorterThanDwell | main.py:68-71 | A tilt that starts with no timer running and is held no longer than 1.0 s fires nothing. It leaves the timer at the first sample's time. |
| Gesture.HeldPastDwellFiresOnce | main.py:68-80 | A tilt that starts with no timer running and is held until a sample more than 1.0 s later fires exactly one move. The timer is then clear. |
| Gesture.RunAppend | main.py:102-121 | Running the samples a + b is running a and then b from where a left off, with the fired moves concatenated. |
| Session.Step | main.py:102-130 | The right and left keys are next and previous page. Selecting a file never ends the program, and a failed open leaves the viewer unchanged. A face sample ends the program exactly when its pair is degenerate. A valid state stays valid. |
| Session.Steps | main.py:91-133 | The program survives a sequence of inputs exactly when none of them is a face with a degenerate landmark pair. An empty sequence leaves the viewer as it was. |
| Session.StepsKeepValid | main.py:33-58 | Any sequence of inputs that does not end the program keeps a valid viewer valid. |
| Session.SessionInBounds | main.py:15-17 | From start-up (no document, page 0, no timer), whenever a document is shown after any sequence of inputs, its current page exists. |
| Session.FacesAreRun | main.py:102-121 | Feeding face samples as inputs ends the program exactly when the per-face loop raises. Otherwise it leaves the viewer the loop leaves. |

## Left out

- PDF opening and rendering (main.py:36, main.py:40-48) are library calls. A document is only its page count. The result of opening it is a parameter. Rendering is reduced to the page index it reads.
- The window, buttons, key bindings and file dialog (main.py:19-31, main.py:34) are toolkit plumbing. The dialog's answer is a parameter, and key presses are `Session.Command` values.
- `close_viewer` (main.py:60-63) closes the document and destroys the window, which ends the program. No state of the model survives it.
- Camera capture, face-mesh inference, the preview window and the quit checks (main.py:84-101, main.py:123-136) are device or library I/O. The model starts from the landmark pairs they produce.
- Scaling normalized landmarks to pixels (main.py:109-114) is floating-point work on library output. Pixels are plain integers.
- Line and circle overlays and the printed messages (main.py:73-74, main.py:77-78, main.py:117-118) are presentation only.
- `time.time()` (main.py:70-71) is a clock read. It becomes the `now` parameter.
- Gesture.Evaluate: slopes and times are exact reals, not IEEE doubles, so float rounding is not modelled. For integer pixel coordinates of screen size, the comparisons with 0.4 agree with exact arithmetic.
- The start-up call to `load_pdf` (main.py:138-141) runs outside any toolkit callback, so an error there ends the program. `Session.Step` models the button path, where an error is reported and the program continues.

## Notes on the source

- A degenerate landmark pair (equal x coordinates) raises `ZeroDivisionError` and ends the program. The model follows the code and does not skip the frame or treat the pair as "no tilt".
- Every detected face is evaluated in turn, not only the first one.
- A frame with no detected face leaves a running timer untouched, so a brief detection dropout does not reset the dwell.
