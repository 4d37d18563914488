/**
 * The browser-side viewer controller of frontend/static/script.js (class SVGViewer).
 *
 * Remote calls are split in two: the handler that issues the call (recorded in
 * `inFlight`) and the continuation that runs when the call settles, which takes
 * the outcome as a parameter. The container size that `resizeHandler` reads from
 * the layout is a parameter too. The 2000 ms label restore of `showButtonFeedback`
 * is a FIFO of pending restores that `FireFeedbackTimer` runs.
 *
 * The transitions are pure functions on `ViewState`; the class `SVGViewer` keeps
 * the same state in fields (its `state` object, the table rows, the page elements,
 * the svg container and what the browser holds for it) and its methods are proved
 * to perform them.
 */
module Viewer {
  import opened Wrappers
  import Text

  /** One entry of a response's `notifications` array. */
  datatype Notification = Notification(severity: string, message: string)

  /** A row of the notifications table body: severity cell text and class, message cell text. */
  datatype Row = Row(severityText: string, severityClass: string, message: string)

  /** What `atob(data.image)` yields: an exception, or markup that may hold an `<svg>` element. */
  datatype Image = Undecodable(reason: string) | Markup(text: string, hasSvg: bool)

  /** How the `/process` call settles. */
  datatype ProcessOutcome =
    | Success(notifications: Option<seq<Notification>>, image: Image)
      // 2xx: the body goes to handleSuccessResponse; `notifications` is None when absent or not an array
    | Rejected(message: Option<string>, errorNotifications: Option<seq<Notification>>)
      // non-2xx: the parsed JSON body is thrown into the error path
    | TransportError(reason: Option<string>)
      // fetch rejected, or the body was not JSON

  /** How the `/get-copy-text` call settles. */
  datatype CopyOutcome = CopyText(text: string) | CopyFailed

  datatype Request = NoRequest | ProcessRequest(content: string) | CopyTextRequest

  datatype PanZoomCall = Resize | Fit | Center

  /** The options handleSuccessResponse gives svgPanZoom. */
  datatype PanZoomConfig = PanZoomConfig(
    zoomEnabled: bool, fit: bool, center: bool,
    zoomScaleSensitivity: real, minZoom: real, maxZoom: real)

  const PanZoomOptions := PanZoomConfig(true, true, true, 0.5, 0.1, 7.0)

  /** A pan/zoom handle; `handle` tells handles of successive documents apart. */
  datatype PanZoom = PanZoom(handle: nat, config: PanZoomConfig)

  const FeedbackDelayMs := 2000
  const InitialCopyLabel := "Copy Plan"
  const PastePrompt := "Paste your spreadsheet content here"
  const CopiedLabel := "Copied!"
  const ErrorLabel := "Error"

  /** `this.state` of the controller. */
  datatype Controller = Controller(isProcessing: bool, panZoomInstance: Option<PanZoom>, hasPastedContent: bool)

  /** The paste area, the spinner, the notifications panel and the copy button. */
  datatype Page = Page(
    pasteAreaHidden: bool, pasteAreaText: string, spinnerShown: bool,
    panelShown: bool, copyButtonShown: bool, copyLabel: string)

  /** The svg container, and the calls made on pan/zoom handles so far. */
  datatype Diagram = Diagram(
    markup: string, hasSvg: bool, shown: bool, size: Option<(int, int)>,
    calls: seq<(nat, PanZoomCall)>, nextHandle: nat)

  /** What the browser holds: the pending fetch, pending timers, the clipboard, extra body nodes. */
  datatype Browser = Browser(
    inFlight: Request, pendingRestores: seq<string>, clipboard: Option<string>, bodyChildren: nat)

  datatype ViewState = ViewState(state: Controller, rows: seq<Row>, page: Page, diagram: Diagram, browser: Browser)

  /** The guard discipline: nothing is in flight and no spinner shows unless the guard is set. */
  ghost predicate Valid(s: ViewState) {
    && (!s.state.isProcessing ==> s.browser.inFlight == NoRequest && !s.page.spinnerShown)
    && (s.browser.inFlight.ProcessRequest? ==> s.page.spinnerShown && s.page.pasteAreaHidden)
    && (s.browser.inFlight.CopyTextRequest? ==> !s.page.spinnerShown)
    && (s.state.panZoomInstance.Some? ==> s.state.panZoomInstance.value.handle < s.diagram.nextHandle)
  }

  /** The guard is set but nothing will ever clear it. */
  ghost predicate Stuck(s: ViewState) {
    s.state.isProcessing && s.browser.inFlight == NoRequest
  }

  /** The page after the constructor and init() (the initial styles hide all but the paste area). */
  function Initial(): (s: ViewState)
    ensures Valid(s) && !Stuck(s)
  {
    ViewState(
      Controller(false, None, false),
      [],
      Page(false, PastePrompt, false, false, false, InitialCopyLabel),
      Diagram("", false, false, None, [], 0),
      Browser(NoRequest, [], None, 0))
  }

  // ---------------------------------------------------------------------------
  // Notification table

  /** The row addNotification inserts for `n`. */
  function RowFor(n: Notification): Row {
    Row(n.severity, "severity-cell severity-" + Text.Lower(n.severity), n.message)
  }

  function RowsFor(ns: seq<Notification>): (r: seq<Row>)
    ensures |r| == |ns| && forall i :: 0 <= i < |ns| ==> r[i] == RowFor(ns[i])
  {
    seq(|ns|, i requires 0 <= i < |ns| => RowFor(ns[i]))
  }

  /** The rows a response adds, if it has a notifications array. */
  function OptionalRows(ns: Option<seq<Notification>>): seq<Row> {
    if ns.Some? then RowsFor(ns.value) else []
  }

  function AddNotification(s: ViewState, n: Notification): (r: ViewState)
    ensures |r.rows| == |s.rows| + 1 && r.rows[..|s.rows|] == s.rows
    ensures r.rows[|s.rows|].severityClass == "severity-cell severity-" + Text.Lower(n.severity)
    ensures r.rows[|s.rows|].severityText == n.severity && r.rows[|s.rows|].message == n.message
    ensures r == s.(rows := r.rows)
  {
    s.(rows := s.rows + [RowFor(n)])
  }

  // ---------------------------------------------------------------------------
  // resizeHandler

  /** The calls resizeHandler makes on pan/zoom handle `h`, in order. */
  function ResizeCalls(h: nat): seq<(nat, PanZoomCall)> {
    [(h, Resize), (h, Fit), (h, Center)]
  }

  function Resized(s: ViewState, width: int, height: int): ViewState {
    if !s.diagram.hasSvg then s
    else if s.state.panZoomInstance.None? then s.(diagram := s.diagram.(size := Some((width, height))))
    else s.(diagram := s.diagram.(size := Some((width, height)),
              calls := s.diagram.calls + ResizeCalls(s.state.panZoomInstance.value.handle)))
  }

  // ---------------------------------------------------------------------------
  // handlePaste and its continuations

  /** handlePaste up to the fetch; the flag says the handler threw (in clearNotifications). */
  function PasteStarted(s: ViewState, text: string): (ViewState, bool) {
    if s.state.isProcessing then (s, false)
    // clearNotifications reads `this.elementss.tableBody` as soon as a row exists
    else if |s.rows| > 0 then
      (s.(state := s.state.(isProcessing := true), page := s.page.(spinnerShown := true)), true)
    else
      (s.(state := s.state.(isProcessing := true),
          page := s.page.(spinnerShown := true, pasteAreaHidden := true),
          browser := s.browser.(inFlight := ProcessRequest(text))), false)
  }

  function FailureText(message: Option<string>): string {
    "Failed to load the image: "
      + (if message.Some? && message.value != "" then message.value else "Unknown error")
  }

  /** handleErrorResponse for an error with `message` and, maybe, a notifications array. */
  function ErrorHandled(s: ViewState, message: Option<string>, ns: Option<seq<Notification>>): ViewState {
    s.(page := s.page.(pasteAreaHidden := false, pasteAreaText := FailureText(message),
                       panelShown := s.page.panelShown || ns.Some?, copyButtonShown := true),
       rows := s.rows + OptionalRows(ns))
  }

  /** handleSuccessResponse for an image that decodes to `markup`. */
  function MarkupShown(s: ViewState, ns: Option<seq<Notification>>, markup: string, hasSvg: bool,
                       width: int, height: int): ViewState
  {
    var page := s.page.(panelShown := true, copyButtonShown := true);
    var h := s.diagram.nextHandle;
    if hasSvg then
      s.(state := s.state.(panZoomInstance := Some(PanZoom(h, PanZoomOptions)), hasPastedContent := true),
         rows := s.rows + OptionalRows(ns),
         page := page,
         diagram := Diagram(markup, true, true, Some((width, height)), s.diagram.calls + ResizeCalls(h), h + 1))
    else
      s.(state := s.state.(hasPastedContent := true),
         rows := s.rows + OptionalRows(ns),
         page := page,
         diagram := s.diagram.(markup := markup, hasSvg := false, shown := true, size := None))
  }

  /**
   * handleSuccessResponse; the notifications go in first, then an undecodable image
   * throws into the catch, i.e. handleErrorResponse of an error without notifications.
   */
  function SuccessHandled(s: ViewState, ns: Option<seq<Notification>>, image: Image, width: int, height: int): ViewState {
    match image
    case Undecodable(reason) => ErrorHandled(s.(rows := s.rows + OptionalRows(ns)), Some(reason), None)
    case Markup(markup, hasSvg) => MarkupShown(s, ns, markup, hasSvg, width, height)
  }

  /** The `.then/.catch` part of handlePaste once the fetch settles. */
  function Handled(s: ViewState, outcome: ProcessOutcome, width: int, height: int): ViewState {
    match outcome
    case Success(ns, image) => SuccessHandled(s, ns, image, width, height)
    case Rejected(message, ns) => ErrorHandled(s, message, ns)
    case TransportError(reason) => ErrorHandled(s, reason, None)
  }

  /** The `.finally` of both handlers: the guard is released and nothing is in flight. */
  function Released(s: ViewState, hideSpinner: bool): ViewState {
    s.(state := s.state.(isProcessing := false),
       page := if hideSpinner then s.page.(spinnerShown := false) else s.page,
       browser := s.browser.(inFlight := NoRequest))
  }

  function PasteSettled(s: ViewState, outcome: ProcessOutcome, width: int, height: int): ViewState {
    if !s.browser.inFlight.ProcessRequest? then s
    else Released(Handled(s, outcome, width, height), true)
  }

  // ---------------------------------------------------------------------------
  // handleCopyClick and showButtonFeedback

  function CopyStarted(s: ViewState): ViewState {
    if s.state.isProcessing then s
    else s.(state := s.state.(isProcessing := true), browser := s.browser.(inFlight := CopyTextRequest))
  }

  /** showButtonFeedback: the label changes now; a timer will put back the current one. */
  function Feedback(s: ViewState, message: string): ViewState {
    s.(page := s.page.(copyLabel := message),
       browser := s.browser.(pendingRestores := s.browser.pendingRestores + [s.page.copyLabel]))
  }

  /**
   * The copy continuation. The availability test reads `navigator.clipbard`, which no
   * browser defines, so the textarea fallback always runs: one node is appended to the
   * body, its text copied, and the node removed again.
   */
  function CopySettled(s: ViewState, outcome: CopyOutcome): ViewState {
    if !s.browser.inFlight.CopyTextRequest? then s
    else match outcome
      case CopyText(text) => Released(Feedback(s.(browser := s.browser.(clipboard := Some(text))), CopiedLabel), false)
      case CopyFailed => Released(Feedback(s, ErrorLabel), false)
  }

  /** The oldest pending 2000 ms timer fires and restores the label it saved. */
  function TimerFired(s: ViewState): ViewState {
    if s.browser.pendingRestores == [] then s
    else s.(page := s.page.(copyLabel := s.browser.pendingRestores[0]),
            browser := s.browser.(pendingRestores := s.browser.pendingRestores[1..]))
  }

  // ---------------------------------------------------------------------------
  // Event runs

  datatype Event =
    | Paste(text: string)
    | ProcessSettles(outcome: ProcessOutcome, width: int, height: int)
    | CopyClick
    | CopySettles(copy: CopyOutcome)
    | TimerFires
    | WindowResize(width: int, height: int)

  function Step(s: ViewState, e: Event): ViewState {
    match e
    case Paste(text) => PasteStarted(s, text).0
    case ProcessSettles(outcome, w, h) => PasteSettled(s, outcome, w, h)
    case CopyClick => CopyStarted(s)
    case CopySettles(c) => CopySettled(s, c)
    case TimerFires => TimerFired(s)
    case WindowResize(w, h) => Resized(s, w, h)
  }

  function Run(s: ViewState, events: seq<Event>): ViewState
    decreases |events|
  {
    if events == [] then s else Run(Step(s, events[0]), events[1..])
  }

  // ---------------------------------------------------------------------------
  // Properties

  /** While the guard is set, paste and copy clicks change nothing. */
  lemma GuardMakesHandlersNoOps(s: ViewState, text: string)
    requires s.state.isProcessing
    ensures PasteStarted(s, text) == (s, false)
    ensures CopyStarted(s) == s
  {
  }

  /** An unguarded paste sets the guard and shows the spinner; it gets to the fetch iff the table is empty. */
  lemma PasteSetsGuardFirst(s: ViewState, text: string)
    requires !s.state.isProcessing
    ensures var (r, threw) := PasteStarted(s, text);
      && r.state.isProcessing && r.page.spinnerShown && r.rows == s.rows
      && (threw <==> |s.rows| > 0)
      && (!threw ==> r.browser.inFlight == ProcessRequest(text) && r.page.pasteAreaHidden)
      && (threw ==> r.browser == s.browser && r.page.pasteAreaHidden == s.page.pasteAreaHidden)
  {
  }

  /** The misspelt table reference: a paste over a non-empty table leaves the guard set for good. */
  lemma PasteOverRowsSticks(s: ViewState, text: string)
    requires Valid(s) && !s.state.isProcessing && |s.rows| > 0
    ensures Stuck(PasteStarted(s, text).0) && Valid(PasteStarted(s, text).0)
  {
  }

  /** Whatever the outcome, once the process call settles the guard is clear and the spinner hidden. */
  lemma SettleClearsGuard(s: ViewState, outcome: ProcessOutcome, w: int, h: int)
    requires Valid(s) && s.browser.inFlight.ProcessRequest?
    ensures var r := PasteSettled(s, outcome, w, h);
      !r.state.isProcessing && !r.page.spinnerShown && r.browser.inFlight == NoRequest && Valid(r)
  {
  }

  /** A 2xx body: its notifications are appended in array order, then panel and copy button show. */
  lemma SuccessShowsEverything(s: ViewState, ns: seq<Notification>, markup: string, hasSvg: bool, w: int, h: int)
    requires s.browser.inFlight.ProcessRequest?
    ensures var r := PasteSettled(s, Success(Some(ns), Markup(markup, hasSvg)), w, h);
      && r.rows == s.rows + RowsFor(ns)
      && r.page.panelShown && r.page.copyButtonShown && r.state.hasPastedContent && r.diagram.shown
      && r.diagram.markup == markup
      && r.page.pasteAreaHidden == s.page.pasteAreaHidden
      && (hasSvg ==> (r.state.panZoomInstance == Some(PanZoom(s.diagram.nextHandle, PanZoomOptions))
                      && r.diagram.size == Some((w, h))
                      && r.diagram.calls == s.diagram.calls + ResizeCalls(s.diagram.nextHandle)))
      && (!hasSvg ==> r.state.panZoomInstance == s.state.panZoomInstance && r.diagram.calls == s.diagram.calls)
  {
  }

  /** A non-2xx body: the paste area returns with its message; notifications only if it carries them. */
  lemma RejectionShowsPasteArea(s: ViewState, message: Option<string>, ns: Option<seq<Notification>>, w: int, h: int)
    requires s.browser.inFlight.ProcessRequest?
    ensures var r := PasteSettled(s, Rejected(message, ns), w, h);
      && !r.page.pasteAreaHidden && r.page.pasteAreaText == FailureText(message)
      && r.rows == s.rows + OptionalRows(ns)
      && r.page.panelShown == (ns.Some? || s.page.panelShown)
      && r.page.copyButtonShown
      && r.diagram == s.diagram && r.state.hasPastedContent == s.state.hasPastedContent
  {
  }

  /** A transport failure appends nothing and, without a message, says 'Unknown error'. */
  lemma TransportFailureMessage(s: ViewState, w: int, h: int)
    requires s.browser.inFlight.ProcessRequest?
    ensures var r := PasteSettled(s, TransportError(None), w, h);
      && r.rows == s.rows && r.page.pasteAreaText == "Failed to load the image: Unknown error"
      && r.page.panelShown == s.page.panelShown && r.page.copyButtonShown
  {
  }

  /**
   * A 2xx body whose image does not decode: its notifications are already in the
   * table, but the error path shows the panel only for an error carrying notifications,
   * so the panel keeps its previous visibility.
   */
  lemma UndecodableImageKeepsRows(s: ViewState, ns: seq<Notification>, reason: string, w: int, h: int)
    requires s.browser.inFlight.ProcessRequest?
    ensures var r := PasteSettled(s, Success(Some(ns), Undecodable(reason)), w, h);
      && r.rows == s.rows + RowsFor(ns)
      && r.page.panelShown == s.page.panelShown
      && !r.page.pasteAreaHidden && r.page.pasteAreaText == FailureText(Some(reason))
      && r.state.hasPastedContent == s.state.hasPastedContent
  {
  }

  /** Copy: the text reaches the clipboard through the fallback and the body is left as it was. */
  lemma CopyUsesFallback(s: ViewState, text: string)
    requires s.browser.inFlight.CopyTextRequest?
    ensures var r := CopySettled(s, CopyText(text));
      && r.browser.clipboard == Some(text) && r.browser.bodyChildren == s.browser.bodyChildren
      && r.page.copyLabel == CopiedLabel && r.browser.pendingRestores == s.browser.pendingRestores + [s.page.copyLabel]
      && !r.state.isProcessing && r.browser.inFlight == NoRequest
  {
  }

  /** Once its timer fires, a single feedback flash leaves the label as it was. */
  lemma FeedbackReverts(s: ViewState, message: string)
    requires s.browser.pendingRestores == []
    ensures TimerFired(Feedback(s, message)).page.copyLabel == s.page.copyLabel
    ensures TimerFired(Feedback(s, message)).browser.pendingRestores == []
  {
  }

  /** Two flashes within 2000 ms: the second saves the first's text, which then stays. */
  lemma OverlappingFeedbackKeepsFirstMessage(s: ViewState, first: string, second: string)
    requires s.browser.pendingRestores == []
    ensures TimerFired(TimerFired(Feedback(Feedback(s, first), second))).page.copyLabel == first
  {
  }

  /** resizeHandler: nothing without an svg; otherwise size, then resize, fit, center on the handle. */
  lemma ResizeOrder(s: ViewState, w: int, h: int)
    ensures !s.diagram.hasSvg ==> Resized(s, w, h) == s
    ensures s.diagram.hasSvg && s.state.panZoomInstance.Some? ==>
      Resized(s, w, h).diagram.calls == s.diagram.calls + ResizeCalls(s.state.panZoomInstance.value.handle)
    ensures s.diagram.hasSvg ==> Resized(s, w, h).diagram.size == Some((w, h))
    ensures Resized(s, w, h).state == s.state && Resized(s, w, h).page == s.page
  {
  }

  lemma StepPreservesValid(s: ViewState, e: Event)
    requires Valid(s)
    ensures Valid(Step(s, e))
  {
    match e
    case ProcessSettles(outcome, w, h) =>
      if s.browser.inFlight.ProcessRequest? {
        SettleClearsGuard(s, outcome, w, h);
      }
    case _ =>
  }

  lemma {:induction false} RunPreservesValid(s: ViewState, events: seq<Event>)
    requires Valid(s)
    ensures Valid(Run(s, events))
    decreases |events|
  {
    if events != [] {
      StepPreservesValid(s, events[0]);
      RunPreservesValid(Step(s, events[0]), events[1..]);
    }
  }

  /** Once stuck, no sequence of events ever issues a request or clears the guard or the table. */
  lemma {:induction false} StuckForever(s: ViewState, events: seq<Event>)
    requires Stuck(s)
    ensures Stuck(Run(s, events)) && Run(s, events).rows == s.rows
    decreases |events|
  {
    if events != [] {
      var next := Step(s, events[0]);
      assert Stuck(next) && next.rows == s.rows;
      StuckForever(next, events[1..]);
    }
  }

  predicate AllPastes(events: seq<Event>) {
    forall i :: 0 <= i < |events| ==> events[i].Paste?
  }

  lemma {:induction false} PastesIgnored(s: ViewState, events: seq<Event>)
    requires s.state.isProcessing && AllPastes(events)
    ensures Run(s, events) == s
    decreases |events|
  {
    if events != [] {
      assert Step(s, events[0]) == s;
      PastesIgnored(s, events[1..]);
    }
  }

  /** A burst of pastes while the first is in flight dispatches only the first. */
  lemma {:induction false} OnlyFirstPasteDispatched(s: ViewState, text: string, more: seq<Event>)
    requires !s.state.isProcessing && s.rows == [] && AllPastes(more)
    ensures Run(s, [Paste(text)] + more).browser.inFlight == ProcessRequest(text)
    ensures Run(s, [Paste(text)] + more) == PasteStarted(s, text).0
  {
    var started := PasteStarted(s, text).0;
    assert ([Paste(text)] + more)[1..] == more;
    PastesIgnored(started, more);
  }

  // ---------------------------------------------------------------------------
  // The controller object

  class SVGViewer {
    var state: Controller
    var tableRows: seq<Row>
    var page: Page
    var diagram: Diagram
    var browser: Browser

    ghost function State(): ViewState
      reads this
    {
      ViewState(state, tableRows, page, diagram, browser)
    }

    /** The constructor and init(): the svg container holds no svg yet, so resizing does nothing. */
    constructor ()
      ensures State() == Initial() && Valid(State())
    {
      state := Controller(false, None, false);
      tableRows := [];
      page := Page(false, PastePrompt, false, false, false, InitialCopyLabel);
      diagram := Diagram("", false, false, None, [], 0);
      browser := Browser(NoRequest, [], None, 0);
    }

    method ResizeHandler(width: int, height: int)
      modifies this
      ensures State() == Resized(old(State()), width, height)
    {
      if diagram.hasSvg {
        diagram := diagram.(size := Some((width, height)));
        if state.panZoomInstance.Some? {
          var h := state.panZoomInstance.value.handle;
          diagram := diagram.(calls := diagram.calls + [(h, Resize)]);
          diagram := diagram.(calls := diagram.calls + [(h, Fit)]);
          diagram := diagram.(calls := diagram.calls + [(h, Center)]);
        }
      }
    }

    /** addNotification: one row per call, appended to the table body. */
    method AppendNotification(n: Notification)
      modifies this
      ensures State() == AddNotification(old(State()), n)
    {
      var severityClass := "severity-cell severity-" + Text.Lower(n.severity);
      tableRows := tableRows + [Row(n.severity, severityClass, n.message)];
    }

    method AddAll(ns: seq<Notification>)
      modifies this
      ensures State() == old(State()).(rows := old(tableRows) + RowsFor(ns))
    {
      for i := 0 to |ns|
        invariant State() == old(State()).(rows := old(tableRows) + RowsFor(ns[..i]))
      {
        AppendNotification(ns[i]);
        assert RowsFor(ns[..i + 1]) == RowsFor(ns[..i]) + [RowFor(ns[i])];
      }
      assert ns[..|ns|] == ns;
    }

    /** clearNotifications: the loop body throws before it removes the first row. */
    method ClearNotifications() returns (threw: bool)
      ensures threw <==> |tableRows| > 0
    {
      threw := false;
      while |tableRows| > 0 && !threw
        invariant threw ==> |tableRows| > 0
        decreases if threw then 0 else 1
      {
        // `this.elementss` is undefined: reading its `tableBody` throws a TypeError
        threw := true;
      }
    }

    /** handlePaste; `threw` says the handler ended in an exception. */
    method HandlePaste(text: string) returns (threw: bool)
      modifies this
      ensures (State(), threw) == PasteStarted(old(State()), text)
    {
      threw := false;
      if state.isProcessing {
        return;
      }
      state := state.(isProcessing := true);
      page := page.(spinnerShown := true);
      threw := ClearNotifications();
      if threw {
        return;
      }
      page := page.(pasteAreaHidden := true);
      browser := browser.(inFlight := ProcessRequest(text));
    }

    method HandleErrorResponse(message: Option<string>, ns: Option<seq<Notification>>)
      modifies this
      ensures State() == ErrorHandled(old(State()), message, ns)
    {
      page := page.(pasteAreaHidden := false, pasteAreaText := FailureText(message));
      if ns.Some? {
        AddAll(ns.value);
        page := page.(panelShown := true);
      }
      page := page.(copyButtonShown := true);
    }

    /** handleSuccessResponse; returns the message of the exception `atob` throws, if any. */
    method HandleSuccessResponse(ns: Option<seq<Notification>>, image: Image, width: int, height: int)
      returns (thrown: Option<string>)
      modifies this
      ensures thrown == (if image.Undecodable? then Some(image.reason) else None)
      ensures image.Markup? ==> State() == MarkupShown(old(State()), ns, image.text, image.hasSvg, width, height)
      ensures image.Undecodable? ==> State() == old(State()).(rows := old(tableRows) + OptionalRows(ns))
    {
      if ns.Some? {
        AddAll(ns.value);
      }
      if image.Undecodable? {
        return Some(image.reason);
      }
      diagram := diagram.(markup := image.text, hasSvg := image.hasSvg, size := None);
      diagram := diagram.(shown := true);
      if diagram.hasSvg {
        state := state.(panZoomInstance := Some(PanZoom(diagram.nextHandle, PanZoomOptions)));
        diagram := diagram.(nextHandle := diagram.nextHandle + 1);
        ResizeHandler(width, height);
      }
      page := page.(panelShown := true);
      page := page.(copyButtonShown := true);
      state := state.(hasPastedContent := true);
      thrown := None;
    }

    /** The promise chain of handlePaste once the fetch settles with `outcome`. */
    method SettlePaste(outcome: ProcessOutcome, width: int, height: int)
      modifies this
      ensures State() == PasteSettled(old(State()), outcome, width, height)
    {
      if !browser.inFlight.ProcessRequest? {
        return;
      }
      match outcome {
        case Success(ns, image) =>
          var thrown := HandleSuccessResponse(ns, image, width, height);
          if thrown.Some? {
            HandleErrorResponse(thrown, None);
          }
        case Rejected(message, ns) =>
          HandleErrorResponse(message, ns);
        case TransportError(reason) =>
          HandleErrorResponse(reason, None);
      }
      // finally
      page := page.(spinnerShown := false);
      state := state.(isProcessing := false);
      browser := browser.(inFlight := NoRequest);
    }

    method HandleCopyClick()
      modifies this
      ensures State() == CopyStarted(old(State()))
    {
      if state.isProcessing {
        return;
      }
      state := state.(isProcessing := true);
      browser := browser.(inFlight := CopyTextRequest);
    }

    method ShowButtonFeedback(message: string)
      modifies this
      ensures State() == Feedback(old(State()), message)
    {
      var originalText := page.copyLabel;
      page := page.(copyLabel := message);
      browser := browser.(pendingRestores := browser.pendingRestores + [originalText]);
    }

    /** The promise chain of handleCopyClick once `/get-copy-text` settles. */
    method SettleCopy(outcome: CopyOutcome)
      modifies this
      ensures State() == CopySettled(old(State()), outcome)
    {
      if !browser.inFlight.CopyTextRequest? {
        return;
      }
      match outcome {
        case CopyText(text) =>
          var before := browser.bodyChildren;
          browser := browser.(bodyChildren := before + 1);   // document.body.appendChild(textarea)
          browser := browser.(clipboard := Some(text));      // select() and execCommand('copy')
          browser := browser.(bodyChildren := before);       // document.body.removeChild(textarea)
          ShowButtonFeedback(CopiedLabel);
        case CopyFailed =>
          ShowButtonFeedback(ErrorLabel);
      }
      // finally
      state := state.(isProcessing := false);
      browser := browser.(inFlight := NoRequest);
    }

    method FireFeedbackTimer()
      modifies this
      ensures State() == TimerFired(old(State()))
    {
      if browser.pendingRestores != [] {
        page := page.(copyLabel := browser.pendingRestores[0]);
        browser := browser.(pendingRestores := browser.pendingRestores[1..]);
      }
    }
  }

  /**
   * A first paste the server rejects with notifications brings the paste area back, but its
   * rows stay in the table: the second paste then throws, dispatches nothing and leaves the
   * guard set, so a following copy click is ignored too.
   */
  method SecondPasteScenario(first: string, second: string, message: string)
    returns (reshown: bool, dispatched: Request, stillGuarded: bool)
    ensures reshown && dispatched == NoRequest && stillGuarded
  {
    var v := new SVGViewer();
    var t := v.HandlePaste(first);
    v.SettlePaste(Rejected(Some(message), Some([Notification("Error", "Row 2 has no Task")])), 800, 600);
    reshown := !v.page.pasteAreaHidden;
    assert |v.tableRows| == 1;
    t := v.HandlePaste(second);
    v.HandleCopyClick();
    dispatched, stillGuarded := v.browser.inFlight, v.state.isProcessing;
  }
}
