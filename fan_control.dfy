/**
 * The control state of the fan-control window and the steps that change
 * it: the handler for one line from the controller, the drain of the read
 * queue, the serial read loop, sending a command, connecting,
 * disconnecting and a click on the percentage bar. The widgets are plain
 * fields: the mode label, the highlighted mode button, the temperature
 * label, the progress bar's value and its percentage label, the click
 * binding of the bar, the log and the error pop-ups.
 */
module FanControl {
  import opened Strings
  import opened FanProtocol

  /** What the mode label shows. */
  datatype DisplayMode = NoConnection | StartingManual | Automatic | Manual

  /** Which of the two mode buttons has the active style. */
  datatype Highlight = NoButton | AutoButton | ManualButton

  /** The lines the window writes to its log panel (their wording is not modelled). */
  datatype LogEntry =
    | Connected(port: string)
    | Disconnected
    | Sent(command: string)
    | SendFailed
    | Received(message: string)
    | BadPercent(message: string)
    | BadAutoStatus
    | BadManualStatus

  /** The message boxes the window pops up. */
  datatype Alert = DeviceReported(message: string) | ConnectFailed | NoValidPort | NotConnected

  /** Everything the window shows, plus `pwm_value`. */
  datatype FanView = FanView(
    mode: DisplayMode,
    highlight: Highlight,
    tempText: string,       // the temperature label's value text
    barValue: int,          // the progress bar's value
    percentLabel: string,   // the value text of the percentage label
    pwmValue: int,          // `pwm_value`
    clicksEnabled: bool,    // whether a click on the bar is bound to the handler
    log: seq<LogEntry>,
    alerts: seq<Alert>)

  /** The temperature label's text before a status report arrives, and the percentage label's at 0 %. */
  const NoTemperature := "--"
  const ZeroPercent := "0"

  /** The entry the port list shows when no serial port was found. */
  const NoPortEntry := "Port Yok"

  const InitialView := FanView(NoConnection, NoButton, NoTemperature, 0, ZeroPercent, 0, false, [], [])

  /** The percentage label reads as the bar's value. */
  predicate DisplayConsistent(v: FanView) {
    ParseInt(v.percentLabel) == Some(v.barValue)
  }

  /** The display after `update_ui_on_connect(False)`; `pwm_value` is not reset. */
  function ResetDisplay(v: FanView): FanView {
    v.(mode := NoConnection, highlight := NoButton, tempText := NoTemperature,
       barValue := 0, percentLabel := ZeroPercent, clicksEnabled := false)
  }

  /** The reset display shows no connection, no temperature, 0 % and no clicks, and keeps `pwm_value`. */
  lemma {:induction false} ResetDisplayShows(v: FanView)
    ensures var w := ResetDisplay(v);
            w.mode == NoConnection && w.tempText == "--" && w.barValue == 0
            && !w.clicksEnabled && w.pwmValue == v.pwmValue && DisplayConsistent(w)
  {
    IntToStringRoundTrip(0);
  }

  /** The `OK: P=` branch: an integer percentage moves the bar, `pwm_value` and the label; otherwise a log line. */
  function PercentAckEffect(v: FanView, msg: string): FanView {
    match PercentValue(msg)
    case Some(n) => v.(barValue := n, pwmValue := n, percentLabel := IntToString(n))
    case None => v.(log := v.log + [BadPercent(msg)])
  }

  /**
   * The tail of both `STATUS:` branches: an integer percentage text moves
   * the bar and `pwm_value` to it, shows the text itself as the label and
   * sets the click binding and the highlighted button; any other text only
   * adds the branch's error line to the log.
   */
  function ReportedPercent(v: FanView, percent: string, clicks: bool, button: Highlight, error: LogEntry): FanView {
    match ParseInt(percent)
    case None => v.(log := v.log + [error])
    case Some(n) =>
      v.(barValue := n, pwmValue := n, percentLabel := percent,
         clicksEnabled := clicks, highlight := button)
  }

  /**
   * The `STATUS: AUTO` branch. The mode label and the temperature are set
   * before the percentage is parsed, so a percentage that is not an
   * integer leaves those already updated.
   */
  function AutoStatusEffect(v: FanView, msg: string): FanView {
    match AutoStatusFields(msg)
    case None => v.(log := v.log + [BadAutoStatus])
    case Some(f) =>
      ReportedPercent(v.(mode := Automatic, tempText := f.temp), f.percent, false, AutoButton, BadAutoStatus)
  }

  /** The `STATUS: MANUAL` branch; as above, the mode label is set before the percentage is parsed. */
  function ManualStatusEffect(v: FanView, msg: string): FanView {
    match ManualStatusField(msg)
    case None => v.(log := v.log + [BadManualStatus])
    case Some(p) => ReportedPercent(v.(mode := Manual), p, true, ManualButton, BadManualStatus)
  }

  /**
   * The effect of `process_incoming_message`: the first branch whose test
   * matches decides which fields change.
   */
  function Apply(v: FanView, msg: string): FanView {
    match Classify(msg)
    case AutoModeAck =>
      v.(mode := Automatic, clicksEnabled := false, highlight := AutoButton)
    case ManualModeAck =>
      v.(mode := Manual, clicksEnabled := true, highlight := ManualButton)
    case PercentAck => PercentAckEffect(v, msg)
    case AutoStatus => AutoStatusEffect(v, msg)
    case ManualStatus => ManualStatusEffect(v, msg)
    case DeviceError =>
      v.(alerts := v.alerts + [DeviceReported(msg)])
    case MotorDirection => v
    case Unmatched => v
  }

  /** Handling a line keeps the percentage label readable as the bar's value. */
  lemma {:induction false} ApplyKeepsDisplayConsistent(v: FanView, msg: string)
    requires DisplayConsistent(v)
    ensures DisplayConsistent(Apply(v, msg))
  {
    match Classify(msg)
    case PercentAck =>
      if PercentValue(msg).Some? {
        IntToStringRoundTrip(PercentValue(msg).value);
      }
    case AutoStatus =>
      if AutoStatusFields(msg).Some? {
        var f := AutoStatusFields(msg).value;
        ReportedPercentConsistent(v.(mode := Automatic, tempText := f.temp), f.percent, false, AutoButton, BadAutoStatus);
      }
    case ManualStatus =>
      if ManualStatusField(msg).Some? {
        ReportedPercentConsistent(v.(mode := Manual), ManualStatusField(msg).value, true, ManualButton, BadManualStatus);
      }
    case _ =>
  }

  /** The label a status report shows is the very text the bar's value was parsed from. */
  lemma {:induction false} ReportedPercentConsistent(v: FanView, percent: string, clicks: bool, button: Highlight, error: LogEntry)
    requires DisplayConsistent(v)
    ensures DisplayConsistent(ReportedPercent(v, percent, clicks, button, error))
  {
  }

  /**
   * Only the two acknowledgements and the two status reports move the mode
   * label, and only to Automatic or Manual; a bar value or `pwm_value` that
   * changes changes to the same number in both.
   */
  lemma {:induction false} ApplyModeTransitions(v: FanView, msg: string)
    ensures var w := Apply(v, msg);
            w.mode != v.mode ==>
              (Classify(msg) in {AutoModeAck, AutoStatus} && w.mode == Automatic)
              || (Classify(msg) in {ManualModeAck, ManualStatus} && w.mode == Manual)
    ensures var w := Apply(v, msg);
            (w.pwmValue != v.pwmValue || w.barValue != v.barValue) ==> w.pwmValue == w.barValue
  {
  }

  /**
   * An `ERROR` line only raises a pop-up; a motor-direction line and a line
   * no test matches change nothing.
   */
  lemma {:induction false} ApplyQuietKinds(v: FanView, msg: string)
    requires Classify(msg) in {DeviceError, MotorDirection, Unmatched}
    ensures Classify(msg) == DeviceError ==> Apply(v, msg) == v.(alerts := v.alerts + [DeviceReported(msg)])
    ensures Classify(msg) != DeviceError ==> Apply(v, msg) == v
  {
  }

  /**
   * `OK: P=`: when the text up to the comma is an integer, the bar and
   * `pwm_value` become exactly that integer, with no range check; otherwise
   * only a parse error is logged.
   */
  lemma {:induction false} ApplyPercentAck(v: FanView, msg: string)
    requires Classify(msg) == PercentAck
    ensures var w := Apply(v, msg);
            match PercentValue(msg)
            case Some(n) => w.pwmValue == n && w.barValue == n && w.mode == v.mode
                            && w.clicksEnabled == v.clicksEnabled && w.log == v.log
            case None => w == v.(log := v.log + [BadPercent(msg)])
  {
  }

  /**
   * The device's echo `OK: P=<n>` (optionally followed by a comma and more)
   * of a percentage sets the bar and `pwm_value` to `n` and leaves the mode alone.
   */
  lemma {:induction false} ApplyEcho(v: FanView, n: int, rest: string)
    requires rest == [] || rest[0] == ','
    requires !Contains(PercentTag + IntToString(n) + rest, AutoAckTag)
    requires !Contains(PercentTag + IntToString(n) + rest, ManualAckTag)
    ensures var w := Apply(v, PercentTag + IntToString(n) + rest);
            w.pwmValue == n && w.barValue == n && w.mode == v.mode && w.log == v.log
  {
    EchoPercentText(n, rest);
    ClassifyIs(PercentTag + IntToString(n) + rest, PercentAck);
  }

  /**
   * `STATUS: AUTO, TEMP=<t> C, P=<n>`: a missing part changes nothing but
   * the log; a good line sets Automatic, the temperature text, the
   * percentage and disables clicks; a non-integer percentage leaves the
   * mode and temperature set but the bar, `pwm_value` and the clicks as they were.
   */
  lemma {:induction false} ApplyAutoStatus(v: FanView, msg: string)
    requires Classify(msg) == AutoStatus
    ensures var w := Apply(v, msg);
            match AutoStatusFields(msg)
            case None => w == v.(log := v.log + [BadAutoStatus])
            case Some(f) =>
              w.mode == Automatic && w.tempText == f.temp
              && (match ParseInt(f.percent)
                  case Some(n) => w.pwmValue == n && w.barValue == n && !w.clicksEnabled && w.log == v.log
                  case None => w.pwmValue == v.pwmValue && w.barValue == v.barValue
                               && w.clicksEnabled == v.clicksEnabled && w.log == v.log + [BadAutoStatus])
  {
  }

  /**
   * `STATUS: MANUAL, P=<n>`: a missing part changes nothing but the log; a
   * good line sets Manual and the percentage and enables clicks; a
   * non-integer percentage leaves only the mode label changed.
   */
  lemma {:induction false} ApplyManualStatus(v: FanView, msg: string)
    requires Classify(msg) == ManualStatus
    ensures var w := Apply(v, msg);
            match ManualStatusField(msg)
            case None => w == v.(log := v.log + [BadManualStatus])
            case Some(p) =>
              match ParseInt(p)
              case Some(n) => w.mode == Manual && w.pwmValue == n && w.barValue == n && w.clicksEnabled
              case None => w == v.(mode := Manual, log := v.log + [BadManualStatus])
  {
  }

  /**
   * A well-formed `STATUS: AUTO, TEMP=<t> C, P=<n>` line shows Automatic,
   * the temperature text and `n` on the bar, its label and `pwm_value`,
   * highlights the auto button and unbinds clicks; nothing else changes.
   */
  lemma {:induction false} ApplyAutoStatusLine(v: FanView, temp: string, n: int)
    requires PlainTemperature(temp) && 'K' !in temp
    ensures Apply(v, AutoStatusLine(temp, n))
         == v.(mode := Automatic, tempText := temp, barValue := n, pwmValue := n,
               percentLabel := IntToString(n), clicksEnabled := false, highlight := AutoButton)
  {
    AutoStatusLineKind(temp, n);
    AutoStatusDecode(temp, n);
    IntToStringRoundTrip(n);
  }

  /**
   * A `STATUS: MANUAL, P=<n>` line shows Manual and `n` on the bar, its
   * label and `pwm_value`, highlights the manual button and binds clicks;
   * nothing else changes.
   */
  lemma {:induction false} ApplyManualStatusLine(v: FanView, n: int)
    ensures Apply(v, ManualStatusLine(n))
         == v.(mode := Manual, barValue := n, pwmValue := n,
               percentLabel := IntToString(n), clicksEnabled := true, highlight := ManualButton)
  {
    ManualStatusLineKind(n);
    ManualStatusDecode(n);
    IntToStringRoundTrip(n);
  }

  /** One step of the queue drain: log the line, then handle it. */
  function Step(v: FanView, msg: string): FanView {
    Apply(v.(log := v.log + [Received(msg)]), msg)
  }

  /** The drain of a queue: its lines handled one after another, oldest first. */
  function ApplyAll(v: FanView, msgs: seq<string>): FanView
    decreases |msgs|
  {
    if msgs == [] then v else ApplyAll(Step(v, msgs[0]), msgs[1..])
  }

  /** Draining two batches one after the other is draining their concatenation. */
  lemma {:induction false} ApplyAllAppend(v: FanView, a: seq<string>, b: seq<string>)
    ensures ApplyAll(v, a + b) == ApplyAll(ApplyAll(v, a), b)
    decreases |a|
  {
    if a == [] {
      assert a + b == b;
    } else {
      assert (a + b)[0] == a[0];
      assert (a + b)[1..] == a[1..] + b;
      ApplyAllAppend(Step(v, a[0]), a[1..], b);
    }
  }

  /** A drain keeps the percentage label readable as the bar's value. */
  lemma {:induction false} ApplyAllKeepsDisplayConsistent(v: FanView, msgs: seq<string>)
    requires DisplayConsistent(v)
    ensures DisplayConsistent(ApplyAll(v, msgs))
    decreases |msgs|
  {
    if msgs != [] {
      ApplyKeepsDisplayConsistent(v.(log := v.log + [Received(msgs[0])]), msgs[0]);
      ApplyAllKeepsDisplayConsistent(Step(v, msgs[0]), msgs[1..]);
    }
  }

  /** What one `readline()` on the port gives. */
  datatype ReadOutcome = LineRead(raw: string) | ReadTimeout | ReadFailed(error: string)

  predicate AnyFailed(outs: seq<ReadOutcome>) {
    exists k :: 0 <= k < |outs| && outs[k].ReadFailed?
  }

  /** The text queued when a read fails. */
  function ReadErrorText(error: string): string {
    "Hata (Seri Okuma): " + error
  }

  /** What one read contributes to the queue while the loop runs. */
  function Contribution(o: ReadOutcome): seq<string> {
    match o
    case LineRead(raw) => if Strip(raw) != [] then [Strip(raw)] else []
    case ReadTimeout => []
    case ReadFailed(e) => [ReadErrorText(e)]
  }

  /**
   * The queue entries produced by a run of reads: each line stripped and
   * kept when non-empty, up to and including the first failed read, which
   * adds its error text; nothing after it.
   */
  function Enqueued(outs: seq<ReadOutcome>): seq<string>
    decreases |outs|
  {
    if outs == [] then []
    else
      var prev := outs[..|outs| - 1];
      if AnyFailed(prev) then Enqueued(prev) else Enqueued(prev) + Contribution(outs[|outs| - 1])
  }

  /**
   * Every queued entry is non-empty, and as long as no read failed every
   * entry is a stripped line: stripping it again changes nothing.
   */
  lemma {:induction false} EnqueuedEntries(outs: seq<ReadOutcome>)
    ensures forall k :: 0 <= k < |Enqueued(outs)| ==> Enqueued(outs)[k] != []
    ensures !AnyFailed(outs) ==> forall k :: 0 <= k < |Enqueued(outs)| ==> Strip(Enqueued(outs)[k]) == Enqueued(outs)[k]
    decreases |outs|
  {
    if outs != [] {
      var prev := outs[..|outs| - 1];
      var last := outs[|outs| - 1];
      EnqueuedEntries(prev);
      if !AnyFailed(prev) {
        if last.LineRead? {
          StripIdempotent(last.raw);
        }
        if !AnyFailed(outs) {
          assert !last.ReadFailed? by {
            assert outs[|outs| - 1] == last;
          }
        }
        forall k | 0 <= k < |prev| ensures prev[k] == outs[k] { }
      }
    }
  }

  /** After the first failed read, further outcomes add nothing to the queue. */
  lemma {:induction false} EnqueuedStops(outs: seq<ReadOutcome>, k: nat)
    requires k <= |outs| && AnyFailed(outs[..k])
    ensures Enqueued(outs) == Enqueued(outs[..k])
    ensures AnyFailed(outs)
    decreases |outs| - k
  {
    if k < |outs| {
      var prev := outs[..|outs| - 1];
      assert outs[..k] == prev[..k];
      assert AnyFailed(prev) by {
        var j :| 0 <= j < k && outs[..k][j].ReadFailed?;
        assert prev[j] == outs[..k][j];
      }
      EnqueuedStops(prev, k);
    } else {
      assert outs[..k] == outs;
    }
  }

  /** One more read: it extends the queue by its contribution unless an earlier read failed. */
  lemma {:induction false} AnyFailedStep(outs: seq<ReadOutcome>, k: nat)
    requires k < |outs|
    ensures AnyFailed(outs[..k + 1]) <==> AnyFailed(outs[..k]) || outs[k].ReadFailed?
  {
    var p := outs[..k + 1];
    if AnyFailed(p) {
      var j :| 0 <= j < |p| && p[j].ReadFailed?;
      if j < k {
        assert outs[..k][j] == p[j];
      }
    }
    if AnyFailed(outs[..k]) {
      var j :| 0 <= j < k && outs[..k][j].ReadFailed?;
      assert p[j] == outs[..k][j];
    }
    if outs[k].ReadFailed? {
      assert p[k] == outs[k];
    }
  }

  lemma {:induction false} EnqueuedStep(outs: seq<ReadOutcome>, k: nat)
    requires k < |outs|
    ensures AnyFailed(outs[..k + 1]) <==> AnyFailed(outs[..k]) || outs[k].ReadFailed?
    ensures Enqueued(outs[..k + 1]) ==
              if AnyFailed(outs[..k]) then Enqueued(outs[..k]) else Enqueued(outs[..k]) + Contribution(outs[k])
  {
    AnyFailedStep(outs, k);
    var p := outs[..k + 1];
    assert p[..|p| - 1] == outs[..k];
    assert p[|p| - 1] == outs[k];
  }


  /** The bytes written for a run of commands, in order. */
  function EncodeAll(cs: seq<Command>): string
    decreases |cs|
  {
    if cs == [] then [] else Encode(cs[0]) + EncodeAll(cs[1..])
  }

  lemma {:induction false} EncodeAllAppend(cs: seq<Command>, c: Command)
    ensures EncodeAll(cs + [c]) == EncodeAll(cs) + Encode(c)
    decreases |cs|
  {
    if cs == [] {
      assert EncodeAll([c]) == Encode(c) + EncodeAll([]);
    } else {
      assert (cs + [c])[1..] == cs[1..] + [c];
      EncodeAllAppend(cs[1..], c);
    }
  }

  function Texts(cs: seq<Command>): (ts: seq<string>)
    ensures |ts| == |cs|
    ensures forall k :: 0 <= k < |cs| ==> ts[k] == CommandText(cs[k])
    decreases |cs|
  {
    if cs == [] then [] else [CommandText(cs[0])] + Texts(cs[1..])
  }

  lemma {:induction false} EncodeAllJoin(cs: seq<Command>)
    ensures EncodeAll(cs) == Join(Texts(cs) + [[]], "\n")
    decreases |cs|
  {
    if cs != [] {
      EncodeAllJoin(cs[1..]);
      assert (Texts(cs) + [[]])[1..] == Texts(cs[1..]) + [[]];
    }
  }

  /**
   * Framing of the written byte stream: split at line feeds it gives back
   * the command texts in the order they were sent, then an empty remainder.
   */
  lemma {:induction false} WireFraming(cs: seq<Command>)
    ensures Split(EncodeAll(cs), "\n") == Texts(cs) + [[]]
  {
    EncodeAllJoin(cs);
    var xs := Texts(cs) + [[]];
    forall k | 0 <= k < |xs| ensures '\n' !in xs[k] {
      if k < |cs| {
        EncodeLine(cs[k]);
      }
    }
    SplitJoin(xs, '\n');
  }

  /** The fan-control window, reduced to its control state and its serial session. */
  class FanController {
    var mode: DisplayMode
    var highlight: Highlight
    var tempText: string
    var barValue: int
    var percentLabel: string
    var pwmValue: int
    var clicksEnabled: bool
    var log: seq<LogEntry>
    var alerts: seq<Alert>
    var controlsEnabled: bool   // port box, connect/disconnect and mode buttons as `update_ui_on_connect` left them
    var portOpen: bool          // a serial port object exists and is open
    var running: bool           // `self.running`, the read loop's flag
    var pending: seq<string>    // `read_queue`, oldest first
    var wire: string            // everything written to the port

    function View(): FanView
      reads this
    {
      FanView(mode, highlight, tempText, barValue, percentLabel, pwmValue, clicksEnabled, log, alerts)
    }

    constructor ()
      ensures View() == InitialView
      ensures !controlsEnabled && !portOpen && !running && pending == [] && wire == []
    {
      mode, highlight, tempText := NoConnection, NoButton, NoTemperature;
      barValue, percentLabel, pwmValue, clicksEnabled := 0, ZeroPercent, 0, false;
      log, alerts := [], [];
      controlsEnabled, portOpen, running := false, false, false;
      pending, wire := [], [];
    }

    /** `process_incoming_message`: the fields change as `Apply` says; the session does not. */
    method ProcessIncomingMessage(msg: string)
      modifies this
      ensures View() == Apply(old(View()), msg)
      ensures controlsEnabled == old(controlsEnabled) && portOpen == old(portOpen) && running == old(running)
      ensures pending == old(pending) && wire == old(wire)
    {
      match Classify(msg)
      case AutoModeAck =>
        mode := Automatic;
        clicksEnabled := false;
        highlight := AutoButton;
      case ManualModeAck =>
        mode := Manual;
        clicksEnabled := true;
        highlight := ManualButton;
      case PercentAck => HandlePercentAck(msg);
      case AutoStatus => HandleAutoStatus(msg);
      case ManualStatus => HandleManualStatus(msg);
      case DeviceError =>
        alerts := alerts + [DeviceReported(msg)];
      case MotorDirection =>
      case Unmatched =>
    }

    /** The `OK: P=` branch: a percentage after the tag moves the bar, `pwm_value` and the label; otherwise it is logged. */
    method HandlePercentAck(msg: string)
      modifies this
      ensures View() == PercentAckEffect(old(View()), msg)
      ensures controlsEnabled == old(controlsEnabled) && portOpen == old(portOpen) && running == old(running)
      ensures pending == old(pending) && wire == old(wire)
    {
      var text := PercentText(msg);
      var parsed := if text.Some? then ParseInt(text.value) else None;
      if parsed.Some? {
        barValue := parsed.value;
        pwmValue := parsed.value;
        percentLabel := IntToString(parsed.value);
      } else {
        log := log + [BadPercent(msg)];
      }
    }

    /** The `STATUS: AUTO` branch: mode and temperature first, then the percentage, or the error log line. */
    method HandleAutoStatus(msg: string)
      modifies this
      ensures View() == AutoStatusEffect(old(View()), msg)
      ensures controlsEnabled == old(controlsEnabled) && portOpen == old(portOpen) && running == old(running)
      ensures pending == old(pending) && wire == old(wire)
    {
      var fields := AutoStatusFields(msg);
      if fields.Some? {
        mode := Automatic;
        tempText := fields.value.temp;
        ShowReportedPercent(fields.value.percent, false, AutoButton, BadAutoStatus);
      } else {
        log := log + [BadAutoStatus];
      }
    }

    /** The `STATUS: MANUAL` branch: the mode first, then the percentage, or the error log line. */
    method HandleManualStatus(msg: string)
      modifies this
      ensures View() == ManualStatusEffect(old(View()), msg)
      ensures controlsEnabled == old(controlsEnabled) && portOpen == old(portOpen) && running == old(running)
      ensures pending == old(pending) && wire == old(wire)
    {
      var field := ManualStatusField(msg);
      if field.Some? {
        mode := Manual;
        ShowReportedPercent(field.value, true, ManualButton, BadManualStatus);
      } else {
        log := log + [BadManualStatus];
      }
    }

    /** The shared tail of the two `STATUS:` branches. */
    method ShowReportedPercent(percent: string, clicks: bool, button: Highlight, error: LogEntry)
      modifies this
      ensures View() == ReportedPercent(old(View()), percent, clicks, button, error)
      ensures controlsEnabled == old(controlsEnabled) && portOpen == old(portOpen) && running == old(running)
      ensures pending == old(pending) && wire == old(wire)
    {
      var parsed := ParseInt(percent);
      if parsed.Some? {
        barValue := parsed.value;
        pwmValue := parsed.value;
        percentLabel := percent;
        clicksEnabled := clicks;
        highlight := button;
      } else {
        log := log + [error];
      }
    }

    /** `process_serial_queue`: the queue is drained oldest first, each line logged and handled. */
    method ProcessSerialQueue()
      modifies this
      ensures pending == []
      ensures View() == ApplyAll(old(View()), old(pending))
      ensures controlsEnabled == old(controlsEnabled) && portOpen == old(portOpen) && running == old(running)
      ensures wire == old(wire)
    {
      while pending != []
        invariant ApplyAll(View(), pending) == ApplyAll(old(View()), old(pending))
        invariant controlsEnabled == old(controlsEnabled) && portOpen == old(portOpen) && running == old(running)
        invariant wire == old(wire)
        decreases |pending|
      {
        var message := pending[0];
        pending := pending[1..];
        log := log + [Received(message)];
        ProcessIncomingMessage(message);
      }
    }

    /**
     * `read_from_serial` over a finite run of read outcomes: while the flag
     * is set and the port open, each non-empty stripped line is queued; a
     * failed read queues its error text, clears the flag and ends the loop.
     */
    method ReadFromSerial(outcomes: seq<ReadOutcome>)
      modifies this
      ensures old(running) && portOpen ==>
                pending == old(pending) + Enqueued(outcomes) && running == !AnyFailed(outcomes)
      ensures !(old(running) && old(portOpen)) ==> pending == old(pending) && running == old(running)
      ensures View() == old(View()) && portOpen == old(portOpen) && controlsEnabled == old(controlsEnabled)
      ensures wire == old(wire)
    {
      // No other thread is modelled, so the loop can work on local copies
      // of the queue and the flag and store them once it ends.
      var queue, run, k := pending, running, 0;
      while run && portOpen && k < |outcomes|
        invariant 0 <= k <= |outcomes|
        invariant old(running) && portOpen ==>
                    queue == old(pending) + Enqueued(outcomes[..k]) && run == !AnyFailed(outcomes[..k])
        invariant !(old(running) && portOpen) ==> queue == old(pending) && run == old(running)
        invariant run ==> old(running)
        modifies {}
        decreases |outcomes| - k
      {
        var outcome := outcomes[k];
        EnqueuedStep(outcomes, k);
        match outcome {
          case LineRead(raw) =>
            var line := Strip(raw);
            if line != [] {
              queue := queue + [line];
            }
          case ReadTimeout =>
          case ReadFailed(e) =>
            if run {
              queue := queue + [ReadErrorText(e)];
            }
            run := false;
        }
        k := k + 1;
        if !run { break; }
      }
      if k < |outcomes| && old(running) && portOpen {
        EnqueuedStops(outcomes, k);
      } else if k == |outcomes| {
        assert outcomes[..k] == outcomes;
      }
      pending, running := queue, run;
    }

    /** `update_ui_on_connect`: the controls follow `connected`; on false the display is reset. */
    method UpdateUiOnConnect(connected: bool)
      modifies this
      ensures controlsEnabled == connected
      ensures connected ==> View() == old(View())
      ensures !connected ==> View() == ResetDisplay(old(View()))
      ensures portOpen == old(portOpen) && running == old(running) && pending == old(pending)
      ensures wire == old(wire)
    {
      controlsEnabled := connected;
      if !connected {
        mode := NoConnection;
        tempText := NoTemperature;
        barValue := 0;
        clicksEnabled := false;
        percentLabel := ZeroPercent;
        highlight := NoButton;
      }
    }

    /** `disconnect_serial`: with an open port, stop the read loop, close the port and reset the display. */
    method Disconnect()
      modifies this
      ensures old(portOpen) ==>
                !portOpen && !running && !controlsEnabled
                && View() == ResetDisplay(old(View()).(log := old(log) + [Disconnected]))
      ensures !old(portOpen) ==>
                View() == old(View()) && portOpen == old(portOpen) && running == old(running)
                && controlsEnabled == old(controlsEnabled)
      ensures pending == old(pending) && wire == old(wire)
    {
      if portOpen {
        running := false;
        portOpen := false;
        log := log + [Disconnected];
        UpdateUiOnConnect(false);
      }
    }

    /**
     * `send_command_to_mcu`: with an open port the command is logged and its
     * line written; a failed write logs the failure and disconnects.
     * Without an open port only a pop-up appears.
     */
    method SendCommand(c: Command, writeOk: bool)
      modifies this
      ensures old(portOpen) && writeOk ==>
                wire == old(wire) + Encode(c)
                && View() == old(View()).(log := old(log) + [Sent(CommandText(c))])
                && portOpen && running == old(running) && controlsEnabled == old(controlsEnabled)
      ensures old(portOpen) && !writeOk ==>
                wire == old(wire)
                && !portOpen && !running && !controlsEnabled
                && View() == ResetDisplay(old(View()).(log := old(log) + [Sent(CommandText(c)), SendFailed, Disconnected]))
      ensures !old(portOpen) ==>
                wire == old(wire)
                && View() == old(View()).(alerts := old(alerts) + [NotConnected])
                && !portOpen && running == old(running) && controlsEnabled == old(controlsEnabled)
      ensures pending == old(pending)
    {
      if portOpen {
        log := log + [Sent(CommandText(c))];
        if writeOk {
          wire := wire + Encode(c);
        } else {
          log := log + [SendFailed];
          Disconnect();
        }
      } else {
        alerts := alerts + [NotConnected];
      }
    }

    /** `set_auto_mode`: sends `A`; the mode label waits for the controller's confirmation. */
    method SetAutoMode(writeOk: bool)
      modifies this
      ensures old(portOpen) && writeOk ==>
                wire == old(wire) + Encode(RequestAuto)
                && View() == old(View()).(log := old(log) + [Sent(CommandText(RequestAuto))])
                && portOpen && running == old(running) && controlsEnabled == old(controlsEnabled)
      ensures old(portOpen) && !writeOk ==>
                wire == old(wire)
                && !portOpen && !running && !controlsEnabled
                && View() == ResetDisplay(old(View()).(log := old(log) + [Sent(CommandText(RequestAuto)), SendFailed, Disconnected]))
      ensures !old(portOpen) ==>
                wire == old(wire)
                && View() == old(View()).(alerts := old(alerts) + [NotConnected])
                && !portOpen && running == old(running) && controlsEnabled == old(controlsEnabled)
      ensures pending == old(pending)
    {
      SendCommand(RequestAuto, writeOk);
    }

    /** `set_manual_mode`: sends `M`; the mode label waits for the controller's confirmation. */
    method SetManualMode(writeOk: bool)
      modifies this
      ensures old(portOpen) && writeOk ==>
                wire == old(wire) + Encode(RequestManual)
                && View() == old(View()).(log := old(log) + [Sent(CommandText(RequestManual))])
                && portOpen && running == old(running) && controlsEnabled == old(controlsEnabled)
      ensures old(portOpen) && !writeOk ==>
                wire == old(wire)
                && !portOpen && !running && !controlsEnabled
                && View() == ResetDisplay(old(View()).(log := old(log) + [Sent(CommandText(RequestManual)), SendFailed, Disconnected]))
      ensures !old(portOpen) ==>
                wire == old(wire)
                && View() == old(View()).(alerts := old(alerts) + [NotConnected])
                && !portOpen && running == old(running) && controlsEnabled == old(controlsEnabled)
      ensures pending == old(pending)
    {
      SendCommand(RequestManual, writeOk);
    }

    /**
     * `connect_serial`: for a real port name, opening it sets the pending
     * "starting manual" mode, starts the read loop and sends `M`; a failed
     * open pops up an error and resets the display.
     */
    method Connect(portName: string, openOk: bool, writeOk: bool)
      modifies this
      ensures portName != [] && portName != NoPortEntry && openOk && writeOk ==>
                View() == old(View()).(mode := StartingManual,
                                       log := old(log) + [Connected(portName), Sent(CommandText(RequestManual))])
                && portOpen && running && controlsEnabled
                && wire == old(wire) + Encode(RequestManual)
      ensures portName != [] && portName != NoPortEntry && openOk && !writeOk ==>
                View() == ResetDisplay(old(View()).(log := old(log) + [Connected(portName), Sent(CommandText(RequestManual)),
                                                                        SendFailed, Disconnected]))
                && !portOpen && !running && !controlsEnabled && wire == old(wire)
      ensures portName != [] && portName != NoPortEntry && !openOk ==>
                View() == ResetDisplay(old(View())).(alerts := old(alerts) + [ConnectFailed])
                && !controlsEnabled && portOpen == old(portOpen) && running == old(running) && wire == old(wire)
      ensures (portName == [] || portName == NoPortEntry) ==>
                View() == old(View()).(alerts := old(alerts) + [NoValidPort])
                && controlsEnabled == old(controlsEnabled) && portOpen == old(portOpen)
                && running == old(running) && wire == old(wire)
      ensures pending == old(pending)
    {
      if portName != [] && portName != NoPortEntry {
        if openOk {
          portOpen := true;
          log := log + [Connected(portName)];
          UpdateUiOnConnect(true);
          mode := StartingManual;
          running := true;
          SendCommand(RequestManual, writeOk);
        } else {
          alerts := alerts + [ConnectFailed];
          UpdateUiOnConnect(false);
        }
      } else {
        alerts := alerts + [NoValidPort];
      }
    }

    /**
     * `on_progressbar_click`, when the click is bound: the raw percentage is
     * clamped to 0..100, shown, stored in `pwm_value` and sent as `P=<p>`.
     */
    method Click(raw: int, writeOk: bool)
      modifies this
      ensures !old(clicksEnabled) ==>
                View() == old(View()) && wire == old(wire) && portOpen == old(portOpen)
                && running == old(running) && controlsEnabled == old(controlsEnabled)
      ensures old(clicksEnabled) ==> pwmValue == Clamp(raw) && 0 <= pwmValue <= 100
      ensures var p := Clamp(raw);
              var shown := old(View()).(barValue := p, pwmValue := p, percentLabel := IntToString(p));
              old(clicksEnabled) && old(portOpen) && writeOk ==>
                View() == shown.(log := old(log) + [Sent(CommandText(SetPercentage(p)))])
                && wire == old(wire) + Encode(SetPercentage(p))
                && portOpen && running == old(running) && controlsEnabled == old(controlsEnabled)
      ensures var p := Clamp(raw);
              var shown := old(View()).(barValue := p, pwmValue := p, percentLabel := IntToString(p));
              old(clicksEnabled) && old(portOpen) && !writeOk ==>
                View() == ResetDisplay(shown.(log := old(log) + [Sent(CommandText(SetPercentage(p))), SendFailed, Disconnected]))
                && wire == old(wire) && !portOpen && !running && !controlsEnabled
      ensures var p := Clamp(raw);
              var shown := old(View()).(barValue := p, pwmValue := p, percentLabel := IntToString(p));
              old(clicksEnabled) && !old(portOpen) ==>
                View() == shown.(alerts := old(alerts) + [NotConnected])
                && wire == old(wire) && !portOpen && running == old(running) && controlsEnabled == old(controlsEnabled)
      ensures pending == old(pending)
    {
      if clicksEnabled {
        var p := Clamp(raw);
        barValue := p;
        pwmValue := p;
        percentLabel := IntToString(p);
        SendCommand(SetPercentage(p), writeOk);
      }
    }
  }
}
