/** The PDF export controller of the results dashboard
    (components/ResultsDashboard.tsx): the status of the two PDF libraries, the
    single-flight download flag, the download button, and the loop that slices
    the rendered report into A4 pages. Timers become events (a polling tick, the
    eight-second timeout, the end of a generation run); whether the libraries
    are present is a parameter of the events that look. */
module PdfExport {
  datatype LibStatus = LibLoading | LibLoaded | LibError

  /** How a generation run ended: no report element, the file was saved, or
      html2canvas/jsPDF threw. */
  datatype GenerationOutcome = MissingElement | Saved | Failed

  /** pdfLibStatus and isDownloadingPdf, whether the polling interval and the
      timeout are still pending, and how many generation runs are scheduled. */
  datatype ExportState = ExportState(libStatus: LibStatus, downloading: bool, polling: bool, scheduled: nat)

  datatype Event = Tick(ready: bool) | Timeout(ready: bool) | Click | Finish(outcome: GenerationOutcome)

  /** The mount effect: loaded at once if the libraries are there, otherwise
      loading with the interval and the timeout armed. */
  function Mount(ready: bool): (r: ExportState)
    ensures r.libStatus == (if ready then LibLoaded else LibLoading)
    ensures r.polling <==> !ready
    ensures !r.downloading && r.scheduled == 0
  {
    if ready then ExportState(LibLoaded, false, false, 0) else ExportState(LibLoading, false, true, 0)
  }

  /** A polling tick that finds the libraries clears both timers and marks them loaded. */
  function PollTick(s: ExportState, ready: bool): (r: ExportState)
    ensures s.polling && ready ==> r == s.(libStatus := LibLoaded, polling := false)
    ensures !(s.polling && ready) ==> r == s
  {
    if s.polling && ready then s.(libStatus := LibLoaded, polling := false) else s
  }

  /** The timeout as written: it clears the interval and reports an error when
      the libraries are missing, but sets nothing when they are present. */
  function TimeoutAsWritten(s: ExportState, ready: bool): (r: ExportState)
    ensures s.polling ==> !r.polling && r.libStatus == (if ready then s.libStatus else LibError)
    ensures !s.polling ==> r == s
    ensures r.downloading == s.downloading && r.scheduled == s.scheduled
  {
    if s.polling then s.(polling := false, libStatus := if !ready then LibError else s.libStatus) else s
  }

  /** The timeout as intended: whichever way it ends, it settles the status. */
  function TimeoutSettled(s: ExportState, ready: bool): (r: ExportState)
    ensures s.polling ==> !r.polling && r.libStatus == (if ready then LibLoaded else LibError)
    ensures !s.polling ==> r == s
    ensures r.downloading == s.downloading && r.scheduled == s.scheduled
  {
    if s.polling then s.(polling := false, libStatus := if ready then LibLoaded else LibError) else s
  }

  /** handleDownloadClick, with whether it raised an alert. */
  function DownloadClick(s: ExportState): (r: (ExportState, bool))
    ensures s.downloading ==> r == (s, false)
    ensures !s.downloading && s.libStatus == LibError ==> r == (s, true)
    ensures !s.downloading && s.libStatus == LibLoaded ==>
      r == (s.(downloading := true, scheduled := s.scheduled + 1), false)
    ensures !s.downloading && s.libStatus == LibLoading ==> r == (s, false)
  {
    if s.downloading then (s, false)
    else if s.libStatus == LibError then (s, true)
    else if s.libStatus == LibLoaded then (s.(downloading := true, scheduled := s.scheduled + 1), false)
    else (s, false)
  }

  /** The end of generatePdf: on every path the flag is cleared; only a thrown
      error alerts. */
  function FinishGeneration(s: ExportState, outcome: GenerationOutcome): (r: (ExportState, bool))
    requires s.scheduled > 0
    ensures !r.0.downloading && r.0.scheduled == s.scheduled - 1
    ensures r.0.libStatus == s.libStatus && r.0.polling == s.polling
    ensures r.1 <==> outcome == Failed
  {
    (s.(downloading := false, scheduled := s.scheduled - 1), outcome == Failed)
  }

  /** One event, with the settled timeout. A completion without a scheduled
      run cannot happen and changes nothing. */
  function Step(s: ExportState, e: Event): (r: ExportState)
    ensures r.scheduled <= s.scheduled + (if e.Click? then 1 else 0)
    ensures !e.Finish? ==> r.scheduled >= s.scheduled
    ensures e.Tick? || e.Timeout? ==> r.downloading == s.downloading && r.scheduled == s.scheduled
    ensures e.Click? || e.Finish? ==> r.libStatus == s.libStatus && r.polling == s.polling
  {
    match e
    case Tick(ready) => PollTick(s, ready)
    case Timeout(ready) => TimeoutSettled(s, ready)
    case Click => DownloadClick(s).0
    case Finish(outcome) => if s.scheduled > 0 then FinishGeneration(s, outcome).0 else s
  }

  /** One event, with the timeout as written. The two semantics part only at a
      timeout that finds the libraries while they are still pending. */
  function StepAsWritten(s: ExportState, e: Event): (r: ExportState)
    ensures r != Step(s, e) <==> e.Timeout? && e.ready && s.polling && s.libStatus != LibLoaded
  {
    match e
    case Timeout(ready) => TimeoutAsWritten(s, ready)
    case _ => Step(s, e)
  }

  /** A trace of events, in order. Without a click no generation run starts. */
  function Run(s: ExportState, es: seq<Event>): (r: ExportState)
    ensures (forall i :: 0 <= i < |es| ==> !es[i].Click?) ==> r.scheduled <= s.scheduled
    decreases |es|
  {
    if es == [] then s
    else
      assert forall i :: 0 <= i < |es[1..]| ==> es[1..][i] == es[i + 1];
      Run(Step(s, es[0]), es[1..])
  }

  /** A trace with the timeout as written. It agrees with Run on every trace
      without a timeout. */
  function RunAsWritten(s: ExportState, es: seq<Event>): (r: ExportState)
    ensures (forall i :: 0 <= i < |es| ==> !es[i].Click?) ==> r.scheduled <= s.scheduled
    ensures (forall i :: 0 <= i < |es| ==> !es[i].Timeout?) ==> r == Run(s, es)
    decreases |es|
  {
    if es == [] then s
    else
      assert forall i :: 0 <= i < |es[1..]| ==> es[1..][i] == es[i + 1];
      RunAsWritten(StepAsWritten(s, es[0]), es[1..])
  }

  // ---------------------------------------------------------------------------
  // The download button

  datatype ButtonLabel = Saving | Preparing | SaveAsPdf | LoadFailed

  datatype ButtonState = ButtonState(caption: ButtonLabel, disabled: bool)

  /** getButtonState: a running download wins; otherwise the library status decides. */
  function ButtonOf(s: ExportState): (r: ButtonState)
    ensures r.disabled <==> s.downloading || s.libStatus == LibLoading
    ensures r.caption == Saving <==> s.downloading
    ensures !s.downloading ==>
      r.caption == (match s.libStatus case LibLoading => Preparing case LibLoaded => SaveAsPdf case LibError => LoadFailed)
  {
    if s.downloading then ButtonState(Saving, true)
    else match s.libStatus
      case LibLoading => ButtonState(Preparing, true)
      case LibLoaded => ButtonState(SaveAsPdf, false)
      case LibError => ButtonState(LoadFailed, false)
  }

  /** An enabled button is exactly one whose click starts a download or alerts. */
  lemma EnabledButtonClickActs(s: ExportState)
    ensures !ButtonOf(s).disabled <==> (DownloadClick(s).0 != s || DownloadClick(s).1)
  {
  }

  // ---------------------------------------------------------------------------
  // Single flight

  /** A generation run is scheduled exactly while the flag is set, and never two. */
  predicate SingleFlight(s: ExportState) {
    s.scheduled == (if s.downloading then 1 else 0)
  }

  lemma StepKeepsSingleFlight(s: ExportState, e: Event)
    requires SingleFlight(s)
    ensures SingleFlight(Step(s, e)) && SingleFlight(StepAsWritten(s, e))
  {
  }

  lemma {:induction false} RunKeepsSingleFlight(s: ExportState, es: seq<Event>)
    requires SingleFlight(s)
    ensures SingleFlight(Run(s, es)) && SingleFlight(RunAsWritten(s, es))
    decreases |es|
  {
    if es != [] {
      StepKeepsSingleFlight(s, es[0]);
      RunKeepsSingleFlight(Step(s, es[0]), es[1..]);
      RunKeepsSingleFlight(StepAsWritten(s, es[0]), es[1..]);
    }
  }

  /** From mount on, a click while a download runs never schedules a second run. */
  lemma MountedSingleFlight(ready: bool, es: seq<Event>)
    ensures Run(Mount(ready), es).scheduled <= 1
    ensures RunAsWritten(Mount(ready), es).scheduled <= 1
  {
    RunKeepsSingleFlight(Mount(ready), es);
  }

  // ---------------------------------------------------------------------------
  // The library status only settles once

  /** The status moves only out of loading; loaded and error are kept. */
  predicate StatusMoves(a: LibStatus, b: LibStatus) {
    a == b || a == LibLoading
  }

  /** While the timers are pending the status is loading. */
  predicate PollingLoads(s: ExportState) {
    s.polling ==> s.libStatus == LibLoading
  }

  lemma StepStatusMoves(s: ExportState, e: Event)
    requires PollingLoads(s)
    ensures StatusMoves(s.libStatus, Step(s, e).libStatus) && PollingLoads(Step(s, e))
    ensures StatusMoves(s.libStatus, StepAsWritten(s, e).libStatus) && PollingLoads(StepAsWritten(s, e))
  {
  }

  lemma {:induction false} RunStatusMoves(s: ExportState, es: seq<Event>)
    requires PollingLoads(s)
    ensures StatusMoves(s.libStatus, Run(s, es).libStatus)
    ensures StatusMoves(s.libStatus, RunAsWritten(s, es).libStatus)
    decreases |es|
  {
    if es != [] {
      StepStatusMoves(s, es[0]);
      RunStatusMoves(Step(s, es[0]), es[1..]);
      RunStatusMoves(StepAsWritten(s, es[0]), es[1..]);
    }
  }

  /** From mount on, whatever happens, the status goes from loading to loaded
      or to error at most once, and loaded is never revoked. */
  lemma MountedStatusMoves(ready: bool, es: seq<Event>, more: seq<Event>)
    ensures StatusMoves(Run(Mount(ready), es).libStatus, Run(Mount(ready), es + more).libStatus)
    ensures StatusMoves(RunAsWritten(Mount(ready), es).libStatus, RunAsWritten(Mount(ready), es + more).libStatus)
  {
    RunConcat(Mount(ready), es, more);
    RunKeepsPollingLoads(Mount(ready), es);
    RunStatusMoves(Run(Mount(ready), es), more);
    RunStatusMoves(RunAsWritten(Mount(ready), es), more);
  }

  lemma {:induction false} RunKeepsPollingLoads(s: ExportState, es: seq<Event>)
    requires PollingLoads(s)
    ensures PollingLoads(Run(s, es)) && PollingLoads(RunAsWritten(s, es))
    decreases |es|
  {
    if es != [] {
      StepStatusMoves(s, es[0]);
      RunKeepsPollingLoads(Step(s, es[0]), es[1..]);
      RunKeepsPollingLoads(StepAsWritten(s, es[0]), es[1..]);
    }
  }

  /** Running two traces one after the other is running their concatenation. */
  lemma {:induction false} RunConcat(s: ExportState, es: seq<Event>, more: seq<Event>)
    ensures Run(s, es + more) == Run(Run(s, es), more)
    ensures RunAsWritten(s, es + more) == RunAsWritten(RunAsWritten(s, es), more)
    decreases |es|
  {
    if es == [] {
      assert es + more == more;
    } else {
      assert (es + more)[1..] == es[1..] + more;
      RunConcat(Step(s, es[0]), es[1..], more);
      RunConcat(StepAsWritten(s, es[0]), es[1..], more);
    }
  }

  // ---------------------------------------------------------------------------
  // The timeout that finds the libraries present

  /** Loading and nothing left to look again: no event can change anything. */
  predicate Stuck(s: ExportState) {
    s.libStatus == LibLoading && !s.polling && !s.downloading && s.scheduled == 0
  }

  /** The libraries arrive after the last poll but before the timeout: the
      timeout clears the interval and sets nothing, and the button stays
      disabled on its loading label. */
  lemma LateLoadLeavesLoading()
    ensures Stuck(StepAsWritten(Mount(false), Timeout(true)))
    ensures ButtonOf(StepAsWritten(Mount(false), Timeout(true))) == ButtonState(Preparing, true)
  {
  }

  lemma {:induction false} StuckIsForever(s: ExportState, es: seq<Event>)
    requires Stuck(s)
    ensures RunAsWritten(s, es) == s
    decreases |es|
  {
    if es != [] {
      assert StepAsWritten(s, es[0]) == s;
      StuckIsForever(s, es[1..]);
    }
  }

  /** With the settled timeout, loading means the timers are still pending. */
  predicate Live(s: ExportState) {
    s.libStatus == LibLoading <==> s.polling
  }

  lemma {:induction false} RunKeepsLive(s: ExportState, es: seq<Event>)
    requires Live(s)
    ensures Live(Run(s, es))
    decreases |es|
  {
    if es != [] {
      assert Live(Step(s, es[0]));
      RunKeepsLive(Step(s, es[0]), es[1..]);
    }
  }

  /** With the settled timeout the status is never loading once the timeout has
      fired, whatever came before it and whatever follows. */
  lemma SettledTimeoutDecides(ready: bool, es: seq<Event>, late: bool, more: seq<Event>)
    ensures Run(Mount(ready), es + [Timeout(late)] + more).libStatus != LibLoading
  {
    var before := Run(Mount(ready), es);
    RunKeepsLive(Mount(ready), es);
    var after := Step(before, Timeout(late));
    assert after.libStatus != LibLoading;
    RunStatusMoves(after, more);
    RunConcat(Mount(ready), es, [Timeout(late)] + more);
    assert es + [Timeout(late)] + more == es + ([Timeout(late)] + more);
    assert Run(before, [Timeout(late)] + more) == Run(after, more) by {
      assert ([Timeout(late)] + more)[1..] == more;
    }
  }

  // ---------------------------------------------------------------------------
  // Page slicing

  /** The jsPDF A4 portrait page, in millimetres. */
  const PageWidth: real := 210.0
  const PageHeight: real := 297.0

  /** imgHeightInPdf: the canvas scaled to the page width, keeping its aspect ratio. */
  function ImageHeightInPdf(canvasWidth: real, canvasHeight: real): (r: real)
    requires canvasWidth > 0.0
    ensures r * canvasWidth == PageWidth * canvasHeight
  {
    if canvasHeight == 0.0 then 0.0 else PageWidth / (canvasWidth / canvasHeight)
  }

  /** The offsets at which the image is drawn, one per page: the first page at
      0, each further page one page height higher, and as many pages as it
      takes to cover the image, at least one. */
  method PageOffsets(imgHeight: real, pageHeight: real) returns (positions: seq<real>)
    requires pageHeight > 0.0
    ensures |positions| >= 1
    ensures imgHeight <= |positions| as real * pageHeight
    ensures |positions| == 1 || (|positions| - 1) as real * pageHeight < imgHeight
    ensures forall i :: 0 <= i < |positions| ==> positions[i] == -(i as real) * pageHeight
  {
    var heightLeft := imgHeight;
    var position := 0.0;
    positions := [position];
    heightLeft := heightLeft - pageHeight;
    while heightLeft > 0.0
      invariant |positions| >= 1
      invariant heightLeft == imgHeight - |positions| as real * pageHeight
      invariant position == -((|positions| - 1) as real) * pageHeight
      invariant forall i :: 0 <= i < |positions| ==> positions[i] == -(i as real) * pageHeight
      invariant |positions| == 1 || (|positions| - 1) as real * pageHeight < imgHeight
      decreases (imgHeight / pageHeight).Floor - |positions|
    {
      BelowQuotient(|positions|, imgHeight, pageHeight);
      position := position - pageHeight;
      positions := positions + [position];
      heightLeft := heightLeft - pageHeight;
    }
  }

  lemma BelowQuotient(k: nat, h: real, p: real)
    requires p > 0.0 && k as real * p < h
    ensures k <= (h / p).Floor
  {
    var q := h / p;
    assert q * p == h;
    if q < k as real {
      assert false;
    }
  }

  /** The two bounds on the page count pin it down: it is max(1, ceil(H / P)). */
  lemma PageCountUnique(h: real, p: real, a: nat, b: nat)
    requires p > 0.0
    requires a >= 1 && h <= a as real * p && (a == 1 || (a - 1) as real * p < h)
    requires b >= 1 && h <= b as real * p && (b == 1 || (b - 1) as real * p < h)
    ensures a == b
  {
    CoverNoFewer(h, p, a, b);
    CoverNoFewer(h, p, b, a);
  }

  /** Pages that cover the image are at least as many as a count whose one page
      less does not cover it. */
  lemma CoverNoFewer(h: real, p: real, a: nat, b: nat)
    requires p > 0.0 && a >= 1 && h <= a as real * p
    requires b >= 1 && (b == 1 || (b - 1) as real * p < h)
    ensures b <= a
  {
    if b != 1 {
      var below := (b - 1) as real;
      var cover := a as real;
      assert below * p < cover * p;
      ScaleCancel(below, cover, p);
      assert below < cover;
    }
  }

  lemma ScaleCancel(x: real, y: real, p: real)
    requires p > 0.0 && x * p < y * p
    ensures x < y
  {
    assert (y - x) * p == y * p - x * p;
    assert (y - x) * p > 0.0;
    ScaleSign(y - x, p);
  }

  /** A product with a positive factor is positive only when the other factor is. */
  lemma ScaleSign(d: real, p: real)
    requires p > 0.0 && d * p > 0.0
    ensures d > 0.0
  {
  }

  // ---------------------------------------------------------------------------
  // The component's state, updated in place

  class PdfExporter {
    var libStatus: LibStatus
    var isDownloadingPdf: bool
    var polling: bool
    var scheduled: nat

    function State(): ExportState
      reads this
    {
      ExportState(libStatus, isDownloadingPdf, polling, scheduled)
    }

    /** The mount effect, with whether the libraries are already there. */
    constructor (ready: bool)
      ensures State() == Mount(ready)
    {
      isDownloadingPdf := false;
      scheduled := 0;
      if ready {
        libStatus := LibLoaded;
        polling := false;
      } else {
        libStatus := LibLoading;
        polling := true;
      }
    }

    method HandleTick(ready: bool)
      modifies this
      ensures State() == PollTick(old(State()), ready)
    {
      if polling && ready {
        polling := false;
        libStatus := LibLoaded;
      }
    }

    /** The timeout as the component writes it: it clears the interval and
        reports an error when the libraries are missing, and sets nothing when
        they are present. */
    method HandleTimeout(ready: bool)
      modifies this
      ensures State() == TimeoutAsWritten(old(State()), ready)
    {
      if polling {
        polling := false;
        if !ready {
          libStatus := LibError;
        }
      }
    }

    /** The timeout as intended, settling the status both ways. */
    method HandleTimeoutSettled(ready: bool)
      modifies this
      ensures State() == TimeoutSettled(old(State()), ready)
    {
      if polling {
        polling := false;
        if ready {
          libStatus := LibLoaded;
        } else {
          libStatus := LibError;
        }
      }
    }

    method HandleDownloadClick() returns (alerted: bool)
      modifies this
      ensures (State(), alerted) == DownloadClick(old(State()))
    {
      alerted := false;
      if isDownloadingPdf {
        return;
      }
      if libStatus == LibError {
        alerted := true;
      } else if libStatus == LibLoaded {
        isDownloadingPdf := true;
        scheduled := scheduled + 1;
      }
    }

    method CompleteGeneration(outcome: GenerationOutcome) returns (alerted: bool)
      requires scheduled > 0
      modifies this
      ensures !isDownloadingPdf
      ensures (State(), alerted) == FinishGeneration(old(State()), outcome)
    {
      alerted := outcome == Failed;
      scheduled := scheduled - 1;
      isDownloadingPdf := false;
    }
  }
}
