/**
 * The Modbus monitor window: one panel per configured device, keyed by the
 * device's address, and the poll cycle that visits every device in turn,
 * then schedules itself again after the polling interval while the window
 * is running. The client's answers are parameters (`DeviceIO`); the calls
 * the window makes on its clients are recorded in `trace`, and the delays
 * it hands to the window's timer in `timers`.
 */
module ModbusApp {
  import opened Strings
  import opened ModbusConfig
  import opened ModbusPoll

  /** The panels built for the first `n` addresses; a repeated address keeps the panel built last. */
  function Panels(ips: seq<string>, n: nat): (m: map<string, DeviceLabels>)
    requires n <= |ips|
    ensures forall k :: 0 <= k < n ==> ips[k] in m
    ensures forall x :: x in m ==> x in ips
    decreases n
  {
    if n == 0 then map[] else Panels(ips, n - 1)[ips[n - 1] := LabelsFor(n - 1)]
  }

  /** `__init__`'s loop over the addresses, building their panels in order. */
  method BuildPanels(ips: seq<string>) returns (panels: map<string, DeviceLabels>)
    ensures panels == Panels(ips, |ips|)
  {
    panels := map[];
    for i := 0 to |ips|
      invariant panels == Panels(ips, i)
    {
      panels := panels[ips[i] := LabelsFor(i)];
    }
  }

  /**
   * A device whose address is not repeated later gets the panel built for
   * its own position: humidity and temperature for the first, the DS18B20
   * temperature for the second, none for the others.
   */
  lemma {:induction false} PanelsDistinct(ips: seq<string>, n: nat, i: nat)
    requires n <= |ips| && i < n
    requires forall j :: i < j < n ==> ips[j] != ips[i]
    ensures Panels(ips, n)[ips[i]] == LabelsFor(i)
    decreases n
  {
    if i < n - 1 {
      assert ips[i] != ips[n - 1];
      PanelsDistinct(ips, n - 1, i);
    }
  }

  /** Every panel starts out waiting, with its data labels loading. */
  lemma {:induction false} PanelsWaiting(ips: seq<string>, n: nat, x: string)
    requires n <= |ips| && x in Panels(ips, n)
    ensures var l := Panels(ips, n)[x];
            l.status == Waiting
            && (l.humidity.Some? ==> l.humidity == Some(Loading))
            && (l.temperature.Some? ==> l.temperature == Some(Loading))
            && (l.ds18b20.Some? ==> l.ds18b20 == Some(Loading))
    decreases n
  {
    if n > 0 && x != ips[n - 1] {
      PanelsWaiting(ips, n - 1, x);
    }
  }

  /** The status left after `failed` unsuccessful connection attempts, starting from `s`. */
  function RetryStatus(s: StatusText, connect: nat -> Attempt, failed: nat): StatusText {
    if failed == 0 then s
    else match connect(failed - 1).result
      case ConnectRaised(e) => ConnectError(e)
      case _ => Connecting
  }

  /** The status shown while connecting never survives the turn: every outcome sets its own. */
  lemma {:induction false} PollIgnoresStatus(l: DeviceLabels, s: StatusText, index: nat, io: DeviceIO)
    ensures PollLabels(l.(status := s), index, io) == PollLabels(l, index, io)
  {
    if Connect(io.connect).connected && io.write.WriteOk? {
      assert l.(status := s).(status := Reading) == l.(status := Reading);
    }
  }

  /**
   * The device-specific read on one panel, label by label: a raise or a
   * missing register goes to the network-error path; a good answer fills
   * the labels in order, and a missing label on the way raises there too.
   */
  method ReadRegisters(index: nat, l: DeviceLabels, read: ReadOutcome) returns (r: DeviceLabels, ops: seq<ClientOp>)
    ensures r == ReadLabels(l, index, read)
    ensures ops == ReadOps(index)
    ensures SameShape(r, l)
  {
    r, ops := l, [];
    if index == 0 {
      ops := [ReadHolding(0, 2)];
      match read {
        case ReadRaised(e) =>
          r := NetworkFailure(l, ClientRaised(e));
        case ReadError =>
          r := r.(humidity := Mark(r.humidity, ReadFault));
          r := r.(temperature := Mark(r.temperature, ReadFault));
          r := r.(status := ReadFailed);
        case Registers(v) =>
          if |v| < 2 {
            r := NetworkFailure(l, RegisterMissing);
          } else if r.humidity.None? {
            r := NetworkFailure(r, LabelMissing);
          } else {
            r := r.(humidity := Some(Humidity(v[0])));
            if r.temperature.None? {
              r := NetworkFailure(r, LabelMissing);
            } else {
              r := r.(temperature := Some(Celsius(v[1])));
              r := r.(status := DataOk);
            }
          }
      }
    } else if index == 1 {
      ops := [ReadHolding(0, 1)];
      match read {
        case ReadRaised(e) =>
          r := NetworkFailure(l, ClientRaised(e));
        case ReadError =>
          r := r.(ds18b20 := Mark(r.ds18b20, ReadFault));
          r := r.(status := ReadFailed);
        case Registers(v) =>
          if |v| < 1 {
            r := NetworkFailure(l, RegisterMissing);
          } else if r.ds18b20.None? {
            r := NetworkFailure(r, LabelMissing);
          } else {
            r := r.(ds18b20 := Some(Celsius(v[0])));
            r := r.(status := DataOk);
          }
      }
    }
  }

  /** The monitor window with its settings, its panels and its poll schedule. */
  class ModbusMonitor {
    const ips: seq<string>
    const port: int
    const intervalMs: int
    const secretKey: int
    var labels: map<string, DeviceLabels>   // `data_labels`, one panel per address
    var isRunning: bool                      // `is_running`
    var windowOpen: bool                     // the window has not been destroyed
    var timers: seq<int>                     // the delays passed to `after`, oldest first
    var trace: seq<ClientOp>                 // every call made on a Modbus client, in order

    /** Every configured address has a panel. */
    predicate Valid()
      reads this
    {
      Covers(labels, ips)
    }

    /**
     * `__init__`: build one panel per address in order, start running, and
     * run the first poll cycle at once.
     */
    constructor (cfg: Config, io: seq<DeviceIO>)
      requires |io| == |cfg.ips|
      ensures ips == cfg.ips && port == cfg.port && intervalMs == cfg.intervalMs && secretKey == cfg.secretKey
      ensures labels == CycleLabels(Panels(cfg.ips, |cfg.ips|), cfg.ips, io, |cfg.ips|)
      ensures trace == CycleOps(cfg.ips, cfg.port, cfg.secretKey, io, |cfg.ips|)
      ensures isRunning && windowOpen && timers == [cfg.intervalMs]
      ensures Valid()
    {
      var panels := BuildPanels(cfg.ips);
      ips, port, intervalMs, secretKey := cfg.ips, cfg.port, cfg.intervalMs, cfg.secretKey;
      labels := panels;
      isRunning, windowOpen := true, true;
      timers, trace := [], [];
      new;
      UpdateData(io);
    }

    /**
     * The connection loop of one device: attempt after attempt while the
     * budget lasts, stopping at the first accepted one; each refused or
     * raising attempt shows its status and waits the back-off.
     */
    method RetryConnect(ip: string, connect: nat -> Attempt) returns (connected: bool, attempts: nat)
      requires ip in labels
      modifies this`labels, this`trace
      ensures RetryResult(connected, attempts) == Connect(connect)
      ensures connected ==> attempts >= 1
      ensures trace == old(trace) + ConnectCalls(attempts)
      ensures var failed := if connected then attempts - 1 else attempts;
              labels == old(labels)[ip := old(labels)[ip].(status := RetryStatus(old(labels)[ip].status, connect, failed))]
    {
      var elapsed: nat := 0;
      connected, attempts := false, 0;
      while elapsed < ConnectBudgetMs
        invariant Retry(connect, attempts, elapsed) == Connect(connect)
        invariant trace == old(trace) + ConnectCalls(attempts)
        invariant labels == old(labels)[ip := old(labels)[ip].(status := RetryStatus(old(labels)[ip].status, connect, attempts))]
        decreases ConnectBudgetMs - elapsed
      {
        var a := connect(attempts);
        trace := trace + [ConnectCall];
        if a.result.Accepted? {
          connected, attempts := true, attempts + 1;
          break;
        }
        labels := labels[ip := labels[ip].(status := RetryStatus(labels[ip].status, connect, attempts + 1))];
        attempts := attempts + 1;
        elapsed := elapsed + a.durationMs + RetryBackoffMs;
      }
    }

    /**
     * The `try` block after connecting and its `finally`: write the key;
     * an error response shows the key error and closes the client; a
     * raise, by the write or by that close, marks the panel as a network error; otherwise show "reading"
     * and read. The client is closed in every case.
     */
    method RunSession(i: nat, dio: DeviceIO)
      requires Valid() && i < |ips|
      modifies this`labels, this`trace
      ensures labels == old(labels)[ips[i] := SessionLabels(old(labels)[ips[i]], i, dio)]
      ensures trace == old(trace) + SessionOps(i, dio, secretKey)
    {
      var ip := ips[i];
      var l := labels[ip];
      trace := trace + [WriteRegister(AuthRegister, secretKey)];
      match dio.write {
        case WriteRaised(e) =>
          l := NetworkFailure(l, ClientRaised(e));
        case WriteError =>
          l := l.(status := AuthFailed);
          trace := trace + [Close];
          match dio.authClose {
            case Closed =>
            case CloseRaised(e) =>
              l := NetworkFailure(l, ClientRaised(e));
          }
        case WriteOk =>
          l := l.(status := Reading);
          var ops;
          l, ops := ReadRegisters(i, l, dio.read);
          trace := trace + ops;
      }
      trace := trace + [Close];
      labels := labels[ip := l];
    }

    /**
     * One device's turn of `update_data`: create the client, retry the
     * connection; on giving up show the outage and close the client;
     * otherwise run the session.
     */
    method PollDeviceAt(i: nat, dio: DeviceIO)
      requires Valid() && i < |ips|
      modifies this`labels, this`trace
      ensures labels == old(labels)[ips[i] := PollLabels(old(labels)[ips[i]], i, dio)]
      ensures trace == old(trace) + PollOps(i, ips[i], port, dio, secretKey)
    {
      var ip := ips[i];
      trace := trace + [NewClient(ip, port)];
      var connected, attempts := RetryConnect(ip, dio.connect);
      PollIgnoresStatus(old(labels)[ip], labels[ip].status, i, dio);
      if !connected {
        labels := labels[ip := MarkAll(labels[ip], Outage).(status := ConnectionLost)];
        trace := trace + [Close];
      } else {
        RunSession(i, dio);
      }
    }

    /**
     * `update_data`: when running, every device takes its turn in order,
     * on the panel as the previous turns left it, and the next cycle is
     * scheduled after the polling interval; when stopped, nothing happens.
     */
    method UpdateData(io: seq<DeviceIO>)
      requires Valid() && |io| == |ips|
      modifies this
      ensures Valid()
      ensures old(isRunning) ==>
                && labels == CycleLabels(old(labels), ips, io, |ips|)
                && trace == old(trace) + CycleOps(ips, port, secretKey, io, |ips|)
                && timers == old(timers) + [intervalMs]
      ensures !old(isRunning) ==> labels == old(labels) && trace == old(trace) && timers == old(timers)
      ensures isRunning == old(isRunning) && windowOpen == old(windowOpen)
    {
      if !isRunning {
        return;
      }
      PollAll(io);
      if isRunning {
        timers := timers + [intervalMs];
      }
    }

    /**
     * The loop of `update_data`: every device takes its turn, in order, on
     * the panels as the previous turns left them.
     */
    method PollAll(io: seq<DeviceIO>)
      requires Valid() && |io| == |ips|
      modifies this`labels, this`trace
      ensures labels == CycleLabels(old(labels), ips, io, |ips|)
      ensures trace == old(trace) + CycleOps(ips, port, secretKey, io, |ips|)
    {
      for i := 0 to |ips|
        invariant Valid()
        invariant LabelsFrom(labels, ips, io, i) == LabelsFrom(old(labels), ips, io, 0)
        invariant TraceFrom(trace, ips, port, secretKey, io, i) == TraceFrom(old(trace), ips, port, secretKey, io, 0)
      {
        PollDeviceAt(i, io[i]);
      }
      LabelsFromCycle(old(labels), ips, io, 0);
      assert old(trace) + CycleOps(ips, port, secretKey, io, 0) == old(trace);
      TraceFromCycle(old(trace), ips, port, secretKey, io, 0);
    }

    /** `clean_up`: stop the cycle and close the window; no later cycle does anything. */
    method CleanUp()
      modifies this
      ensures !isRunning && !windowOpen
      ensures labels == old(labels) && trace == old(trace) && timers == old(timers)
    {
      isRunning, windowOpen := false, false;
    }
  }
}
