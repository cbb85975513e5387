/**
 The detection page's controller: connection flag, the `isDetecting` flag,
 the capture timer, the start/stop buttons' disabled flags, the result
 history and the `detect_sign` frames sent. DOM text, the video element's
 content and the confidence formatting are left out; the presence of the
 video element is a fixed flag.
 */
module DetectionClient {
  import opened Wrappers

  /** Frames per second of the capture timer. */
  const Fps: nat := 2

  /** The timer period in milliseconds, `1000 / FPS`. */
  const PeriodMs: nat := 1000 / Fps

  /** Most entries the history list keeps. */
  const HistoryLimit: nat := 10

  datatype Buttons = Buttons(startDisabled: bool, stopDisabled: bool)

  /** One history line: the label and its confidence. */
  datatype Entry = Entry(sign: string, confidence: real)

  /** An installed `setInterval` timer. */
  datatype Timer = Timer(periodMs: nat)

  datatype Controller = Controller(
    connected: bool,
    videoPresent: bool,
    isDetecting: bool,
    timer: Option<Timer>,
    buttons: Buttons,
    history: seq<Entry>,
    sent: seq<string>)

  /** Page events the controller reacts to. */
  datatype Event =
    | Connect
    | Disconnect
    | ClickStart
    | ClickStop
    | TimerFires(videoWidth: nat, encoded: Option<string>)
    | ResultArrives(entry: Entry)

  /** After page load: not connected, not detecting, both buttons disabled. */
  function Initial(videoPresent: bool): Controller
  {
    Controller(false, videoPresent, false, None, Buttons(true, true), [], [])
  }

  /**
   `enableControls(enabled)`: start is usable only when enabled and idle,
   stop only when enabled and detecting, so at most one is usable.
   */
  function EnableControls(enabled: bool, isDetecting: bool): (b: Buttons)
    ensures b.startDisabled || b.stopDisabled
    ensures !b.startDisabled <==> enabled && !isDetecting
    ensures !b.stopDisabled <==> enabled && isDetecting
  {
    Buttons(!enabled || isDetecting, !enabled || !isDetecting)
  }

  /**
   `startDetection`: a no-op without a video element or when already
   detecting; otherwise detection is on, one timer with the fixed period is
   installed and the buttons are refreshed as enabled.
   */
  function StartDetection(c: Controller): (r: Controller)
    ensures !c.videoPresent || c.isDetecting ==> r == c
    ensures c.videoPresent && !c.isDetecting ==>
      && r.isDetecting
      && r.timer == Some(Timer(500))
      && r.buttons == Buttons(true, false)
      && r.connected == c.connected && r.videoPresent == c.videoPresent
      && r.history == c.history && r.sent == c.sent
  {
    if !c.videoPresent || c.isDetecting then c
    else
      var c1 := c.(isDetecting := true);
      c1.(buttons := EnableControls(true, c1.isDetecting), timer := Some(Timer(PeriodMs)))
  }

  /**
   `stopDetection`: detection off, any timer cleared, buttons refreshed as
   enabled; nothing else changes.
   */
  function StopDetection(c: Controller): (r: Controller)
    ensures !r.isDetecting && r.timer.None?
    ensures r.buttons == Buttons(false, true)
    ensures r.connected == c.connected && r.videoPresent == c.videoPresent
    ensures r.history == c.history && r.sent == c.sent
  {
    var c1 := c.(isDetecting := false);
    c1.(buttons := EnableControls(true, c1.isDetecting), timer := None)
  }

  /** The socket `connect` handler. */
  function OnConnect(c: Controller): (r: Controller)
    ensures r.connected && r.isDetecting == c.isDetecting && r.timer == c.timer
    ensures !r.buttons.startDisabled <==> !c.isDetecting
    ensures !r.buttons.stopDisabled <==> c.isDetecting
    ensures r.videoPresent == c.videoPresent && r.history == c.history && r.sent == c.sent
  {
    c.(connected := true, buttons := EnableControls(true, c.isDetecting))
  }

  /**
   The socket `disconnect` handler as written: it disables the controls
   and then calls `stopDetection`, whose own `enableControls(true)` turns
   the start button back on.
   */
  function OnDisconnect(c: Controller): (r: Controller)
    ensures !r.connected && !r.isDetecting && r.timer.None?
    ensures r.buttons == Buttons(false, true)
    ensures r.videoPresent == c.videoPresent && r.history == c.history && r.sent == c.sent
  {
    var c1 := c.(connected := false);
    var c2 := c1.(buttons := EnableControls(false, c1.isDetecting));
    StopDetection(c2)
  }

  /**
   The `disconnect` handler with the evidently intended effect: detection
   stopped and both buttons left disabled until the next `connect`.
   */
  function OnDisconnectIntended(c: Controller): (r: Controller)
    ensures !r.connected && !r.isDetecting && r.timer.None?
    ensures r.buttons == Buttons(true, true)
    ensures r.videoPresent == c.videoPresent && r.history == c.history && r.sent == c.sent
  {
    var c1 := StopDetection(c.(connected := false));
    c1.(buttons := EnableControls(false, c1.isDetecting))
  }

  /**
   `captureFrame`: null without a video element or while the video has no
   width; otherwise the encoded still, where `encoded` is None when
   drawing or encoding throws.
   */
  function CaptureFrame(videoPresent: bool, videoWidth: nat, encoded: Option<string>): (r: Option<string>)
    ensures !videoPresent || videoWidth == 0 ==> r.None?
    ensures videoPresent && videoWidth > 0 ==> r == encoded
  {
    if !videoPresent || videoWidth == 0 then None else encoded
  }

  /**
   One firing of the capture timer: a `detect_sign` frame is sent only
   while a timer is installed and only for a truthy (present, non-empty)
   capture.
   */
  function Tick(c: Controller, videoWidth: nat, encoded: Option<string>): (r: Controller)
    ensures r.sent == c.sent || (|r.sent| == |c.sent| + 1 && r.sent[..|c.sent|] == c.sent)
    ensures r.sent != c.sent <==>
      c.timer.Some? && CaptureFrame(c.videoPresent, videoWidth, encoded).Some? && CaptureFrame(c.videoPresent, videoWidth, encoded).value != ""
    ensures r.sent != c.sent ==> r.sent[|c.sent|] == encoded.value
    ensures r.(sent := c.sent) == c
  {
    if c.timer.None? then c
    else
      match CaptureFrame(c.videoPresent, videoWidth, encoded)
      case Some(frame) => if frame != "" then c.(sent := c.sent + [frame]) else c
      case None => c
  }

  /**
   `addToHistory`: the new entry first, the previous ones after it in
   order, and only the oldest dropped once the list passes the limit.
   */
  function AddToHistory(h: seq<Entry>, e: Entry): (r: seq<Entry>)
    ensures |r| == if |h| + 1 <= HistoryLimit then |h| + 1 else HistoryLimit
    ensures r[0] == e
    ensures r[1..] == h[..|r| - 1]
  {
    var grown := [e] + h;
    if |grown| <= HistoryLimit then grown else grown[..HistoryLimit]
  }

  /**
   The source's insert-then-trim loop: prepend, then remove the last child
   while more than ten remain. It yields `AddToHistory`.
   */
  method TrimHistory(h: seq<Entry>, e: Entry) returns (r: seq<Entry>)
    ensures r == AddToHistory(h, e)
  {
    r := [e] + h;
    while |r| > HistoryLimit
      invariant |r| >= HistoryLimit || |r| == |h| + 1
      invariant r == ([e] + h)[..|r|]
    {
      r := r[..|r| - 1];
    }
  }

  /** A click reaches its handler only while its button is enabled. */
  function Step(c: Controller, ev: Event): Controller
  {
    match ev
    case Connect => OnConnect(c)
    case Disconnect => OnDisconnectIntended(c)
    case ClickStart => if c.buttons.startDisabled then c else StartDetection(c)
    case ClickStop => if c.buttons.stopDisabled then c else StopDetection(c)
    case TimerFires(w, encoded) => Tick(c, w, encoded)
    case ResultArrives(e) => c.(history := AddToHistory(c.history, e))
  }

  function Run(c: Controller, evs: seq<Event>): Controller
    decreases |evs|
  {
    if |evs| == 0 then c else Run(Step(c, evs[0]), evs[1..])
  }

  /** The page as written: like `Step`, but `disconnect` runs `OnDisconnect`. */
  function StepAsWritten(c: Controller, ev: Event): Controller
  {
    if ev.Disconnect? then OnDisconnect(c) else Step(c, ev)
  }

  function RunAsWritten(c: Controller, evs: seq<Event>): Controller
    decreases |evs|
  {
    if |evs| == 0 then c else RunAsWritten(StepAsWritten(c, evs[0]), evs[1..])
  }

  /**
   What the page as written keeps: a timer is installed exactly while
   detecting, a usable button matches the detection state, and the history
   is within its limit.
   */
  ghost predicate Coherent(c: Controller)
  {
    && c.timer == (if c.isDetecting then Some(Timer(PeriodMs)) else None)
    && (!c.buttons.startDisabled ==> !c.isDetecting)
    && (!c.buttons.stopDisabled ==> c.isDetecting)
    && |c.history| <= HistoryLimit
  }

  /**
   The invariant with the corrected disconnect: coherent, and nothing is
   usable or detecting while disconnected.
   */
  ghost predicate Consistent(c: Controller)
  {
    && Coherent(c)
    && (!c.connected ==> !c.isDetecting && c.buttons.startDisabled && c.buttons.stopDisabled)
  }

  lemma StepConsistent(c: Controller, ev: Event)
    requires Consistent(c)
    ensures Consistent(Step(c, ev))
    ensures Step(c, ev).videoPresent == c.videoPresent
  {
  }

  /** Consistency survives any sequence of page events. */
  lemma {:induction false} RunConsistent(c: Controller, evs: seq<Event>)
    requires Consistent(c)
    ensures Consistent(Run(c, evs))
    decreases |evs|
  {
    if |evs| > 0 {
      StepConsistent(c, evs[0]);
      RunConsistent(Step(c, evs[0]), evs[1..]);
    }
  }

  /** Every controller reached from page load is consistent. */
  lemma PageLoadConsistent(videoPresent: bool, evs: seq<Event>)
    ensures Consistent(Run(Initial(videoPresent), evs))
  {
    RunConsistent(Initial(videoPresent), evs);
  }

  lemma StepAsWrittenCoherent(c: Controller, ev: Event)
    requires Coherent(c)
    ensures Coherent(StepAsWritten(c, ev))
  {
  }

  /** The page as written stays coherent under any sequence of page events. */
  lemma {:induction false} RunAsWrittenCoherent(c: Controller, evs: seq<Event>)
    requires Coherent(c)
    ensures Coherent(RunAsWritten(c, evs))
    decreases |evs|
  {
    if |evs| > 0 {
      StepAsWrittenCoherent(c, evs[0]);
      RunAsWrittenCoherent(StepAsWritten(c, evs[0]), evs[1..]);
    }
  }

  /** Every controller the page as written reaches from page load is coherent. */
  lemma PageLoadCoherentAsWritten(videoPresent: bool, evs: seq<Event>)
    ensures Coherent(RunAsWritten(Initial(videoPresent), evs))
  {
    RunAsWrittenCoherent(Initial(videoPresent), evs);
  }

  /**
   After a disconnect, detection stays off and no frame is sent until the
   next `connect`, whatever else happens.
   */
  lemma {:induction false} QuietUntilReconnect(c: Controller, evs: seq<Event>)
    requires Consistent(c)
    requires forall i :: 0 <= i < |evs| ==> !evs[i].Connect?
    ensures !Run(OnDisconnectIntended(c), evs).isDetecting
    ensures Run(OnDisconnectIntended(c), evs).sent == c.sent
  {
    QuietWhileDisconnected(OnDisconnectIntended(c), evs);
  }

  lemma {:induction false} QuietWhileDisconnected(c: Controller, evs: seq<Event>)
    requires Consistent(c) && !c.connected
    requires forall i :: 0 <= i < |evs| ==> !evs[i].Connect?
    ensures !Run(c, evs).isDetecting && Run(c, evs).sent == c.sent
    decreases |evs|
  {
    if |evs| > 0 {
      StepConsistent(c, evs[0]);
      QuietWhileDisconnected(Step(c, evs[0]), evs[1..]);
    }
  }

  /**
   With the handler as written, connect, disconnect, click start leaves
   the page detecting, with a capture timer running, while disconnected.
   */
  lemma DisconnectLeavesStartUsable()
    ensures var c := OnDisconnect(OnConnect(Initial(true)));
      && !c.buttons.startDisabled
      && var r := StartDetection(c);
         !r.connected && r.isDetecting && r.timer.Some?
  {
  }

  /** `stopDetection` twice is `stopDetection` once. */
  lemma StopIdempotent(c: Controller)
    ensures StopDetection(StopDetection(c)) == StopDetection(c)
  {
  }
}
