/**
 * One device's turn in the Modbus monitor's poll cycle, as a function of
 * what the client reports: a connection retry bounded by a ten-second
 * budget, the key written to register 99, the device-specific read of
 * holding registers, and the labels and status the device's panel shows
 * afterwards. Time is counted in milliseconds from the start of the
 * device's retry loop.
 */
module ModbusPoll {
  import opened Strings

  /** The retry loop gives up once this much time has passed since it started. */
  const ConnectBudgetMs := 10000
  /** The pause after a refused or failed connection attempt. */
  const RetryBackoffMs := 200
  /** The holding register the secret key is written to before any read. */
  const AuthRegister := 99

  /** What `client.connect()` does: returns true, returns false or raises. */
  datatype ConnectResult = Accepted | Refused | ConnectRaised(error: string)

  /** One connection attempt and how long the call took. */
  datatype Attempt = Attempt(result: ConnectResult, durationMs: nat)

  /** What `write_register` does: succeeds, returns an error response or raises. */
  datatype WriteOutcome = WriteOk | WriteError | WriteRaised(error: string)

  /** What `read_holding_registers` does: returns registers, returns an error response or raises. */
  datatype ReadOutcome = Registers(values: seq<nat>) | ReadError | ReadRaised(error: string)

  /**
   * What the `client.close()` inside the `try` block, after a rejected key
   * write, does: it closes, or it raises into the `except` branch.
   */
  datatype CloseOutcome = Closed | CloseRaised(error: string)

  /**
   * Everything the client reports to one device's turn: the outcome of
   * each successive connection attempt, then of the key write, of the
   * close after a rejected write, and of the read.
   */
  datatype DeviceIO = DeviceIO(connect: nat -> Attempt, write: WriteOutcome, authClose: CloseOutcome, read: ReadOutcome)

  /** The text of a data label: its initial "loading", an error word, or a reading. */
  datatype DataText = Loading | Outage | ReadFault | NetworkFault | Humidity(percent: nat) | Celsius(degrees: nat)

  /** Why the session ended in the `except` branch. */
  datatype Cause = ClientRaised(error: string) | RegisterMissing | LabelMissing

  /** The text of a device's status label. */
  datatype StatusText =
    | Waiting
    | Connecting
    | ConnectError(error: string)
    | ConnectionLost
    | AuthFailed
    | Reading
    | DataOk
    | ReadFailed
    | NetworkError(cause: Cause)

  /**
   * The labels of one device panel: the three data labels, each absent
   * (`None` in the dictionary) or showing a text, and the status label.
   */
  datatype DeviceLabels = DeviceLabels(
    humidity: Option<DataText>,
    temperature: Option<DataText>,
    ds18b20: Option<DataText>,
    status: StatusText)

  /** The calls a device's turn makes on its Modbus client, in order. */
  datatype ClientOp =
    | NewClient(ip: string, port: int)
    | ConnectCall
    | WriteRegister(address: nat, value: int)
    | ReadHolding(address: nat, count: nat)
    | Close

  /** The panel built for the device at `index`: index 0 has humidity and temperature, index 1 the DS18B20 temperature. */
  function LabelsFor(index: nat): DeviceLabels {
    if index == 0 then DeviceLabels(Some(Loading), Some(Loading), None, Waiting)
    else if index == 1 then DeviceLabels(None, None, Some(Loading), Waiting)
    else DeviceLabels(None, None, None, Waiting)
  }

  // ---------------------------------------------------------------------
  // Connection retry
  // ---------------------------------------------------------------------

  /** How long after the loop started attempt `k` starts, if it is made. */
  function StartTime(connect: nat -> Attempt, k: nat): nat {
    if k == 0 then 0 else StartTime(connect, k - 1) + connect(k - 1).durationMs + RetryBackoffMs
  }

  datatype RetryResult = RetryResult(connected: bool, attempts: nat)

  /**
   * The retry loop from attempt `k`, started `elapsed` ms after the loop
   * began: give up once the budget is spent, stop at an accepted attempt,
   * otherwise wait and try again.
   */
  function Retry(connect: nat -> Attempt, k: nat, elapsed: nat): RetryResult
    decreases if elapsed < ConnectBudgetMs then ConnectBudgetMs - elapsed else 0
  {
    if elapsed >= ConnectBudgetMs then RetryResult(false, k)
    else if connect(k).result.Accepted? then RetryResult(true, k + 1)
    else Retry(connect, k + 1, elapsed + connect(k).durationMs + RetryBackoffMs)
  }

  /** The retry loop of a device. */
  function Connect(connect: nat -> Attempt): RetryResult {
    Retry(connect, 0, 0)
  }

  /** Each failed attempt costs at least the back-off, so at most 50 attempts fit in the budget. */
  lemma {:induction false} RetryBound(connect: nat -> Attempt, k: nat, elapsed: nat)
    requires k <= 50
    requires elapsed < ConnectBudgetMs ==> RetryBackoffMs * k <= elapsed
    ensures k <= Retry(connect, k, elapsed).attempts <= 50
    decreases if elapsed < ConnectBudgetMs then ConnectBudgetMs - elapsed else 0
  {
    if elapsed < ConnectBudgetMs && !connect(k).result.Accepted? {
      RetryBound(connect, k + 1, elapsed + connect(k).durationMs + RetryBackoffMs);
    }
  }

  /**
   * The loop from attempt `k` (reached at its start time, after `k` refused
   * attempts) stops at the first accepted attempt that starts within the
   * budget, or gives up at the first attempt that would start after it.
   */
  lemma {:induction false} RetryFirst(connect: nat -> Attempt, k: nat)
    requires forall j :: 0 <= j < k ==> !connect(j).result.Accepted?
    ensures var r := Retry(connect, k, StartTime(connect, k));
            && k <= r.attempts
            && (r.connected ==>
                  r.attempts >= 1 && connect(r.attempts - 1).result.Accepted?
                  && StartTime(connect, r.attempts - 1) < ConnectBudgetMs
                  && forall j :: 0 <= j < r.attempts - 1 ==> !connect(j).result.Accepted?)
            && (!r.connected ==>
                  StartTime(connect, r.attempts) >= ConnectBudgetMs
                  && forall j :: 0 <= j < r.attempts ==> !connect(j).result.Accepted?)
    decreases if StartTime(connect, k) < ConnectBudgetMs then ConnectBudgetMs - StartTime(connect, k) else 0
  {
    var e := StartTime(connect, k);
    if e < ConnectBudgetMs && !connect(k).result.Accepted? {
      assert StartTime(connect, k + 1) == e + connect(k).durationMs + RetryBackoffMs;
      RetryFirst(connect, k + 1);
    }
  }

  /** Start times never decrease. */
  lemma {:induction false} StartTimeMonotone(connect: nat -> Attempt, j: nat, k: nat)
    requires j <= k
    ensures StartTime(connect, j) <= StartTime(connect, k)
    decreases k - j
  {
    if j < k {
      StartTimeMonotone(connect, j, k - 1);
    }
  }

  /**
   * The retry loop, summed up: it connects exactly when some attempt that
   * starts within the ten-second budget is accepted, it makes between 1 and
   * 50 attempts, and all attempts before the last were refused or raised.
   */
  lemma {:induction false} ConnectSpec(connect: nat -> Attempt)
    ensures var r := Connect(connect);
            && 1 <= r.attempts <= 50
            && (r.connected <==> exists k: nat :: StartTime(connect, k) < ConnectBudgetMs && connect(k).result.Accepted?)
            && (forall j :: 0 <= j < r.attempts - 1 ==> !connect(j).result.Accepted?)
            && (r.connected ==> connect(r.attempts - 1).result.Accepted?)
  {
    var r := Connect(connect);
    RetryBound(connect, 0, 0);
    RetryFirst(connect, 0);
    assert StartTime(connect, 0) == 0;
    if !r.connected {
      forall k: nat | StartTime(connect, k) < ConnectBudgetMs ensures !connect(k).result.Accepted? {
        if k >= r.attempts {
          StartTimeMonotone(connect, r.attempts, k);
        }
      }
    }
  }

  // ---------------------------------------------------------------------
  // The session after connecting
  // ---------------------------------------------------------------------

  /** A present data label set to `d`; an absent one stays absent. */
  function Mark(t: Option<DataText>, d: DataText): (r: Option<DataText>)
    ensures r.Some? == t.Some?
  {
    if t.Some? then Some(d) else None
  }

  /** Every present data label set to `d`. */
  function MarkAll(l: DeviceLabels, d: DataText): DeviceLabels {
    l.(humidity := Mark(l.humidity, d), temperature := Mark(l.temperature, d), ds18b20 := Mark(l.ds18b20, d))
  }

  /** The `except` branch: every present data label reads "network error", and so does the status. */
  function NetworkFailure(l: DeviceLabels, cause: Cause): DeviceLabels {
    MarkAll(l, NetworkFault).(status := NetworkError(cause))
  }

  /**
   * The device-specific read's effect on the panel. Device 0 reads two
   * registers from address 0: humidity, then temperature. Device 1 reads
   * one: the DS18B20 temperature. Other devices are not read. A missing
   * register or a missing label raises, which lands in the `except`
   * branch; the labels a partial update touched are overwritten there.
   */
  function ReadLabels(l: DeviceLabels, index: nat, read: ReadOutcome): DeviceLabels {
    if index == 0 then
      match read
      case ReadRaised(e) => NetworkFailure(l, ClientRaised(e))
      case ReadError =>
        l.(humidity := Mark(l.humidity, ReadFault), temperature := Mark(l.temperature, ReadFault), status := ReadFailed)
      case Registers(v) =>
        if |v| < 2 then NetworkFailure(l, RegisterMissing)
        else if l.humidity.None? || l.temperature.None? then NetworkFailure(l, LabelMissing)
        else l.(humidity := Some(Humidity(v[0])), temperature := Some(Celsius(v[1])), status := DataOk)
    else if index == 1 then
      match read
      case ReadRaised(e) => NetworkFailure(l, ClientRaised(e))
      case ReadError => l.(ds18b20 := Mark(l.ds18b20, ReadFault), status := ReadFailed)
      case Registers(v) =>
        if |v| < 1 then NetworkFailure(l, RegisterMissing)
        else if l.ds18b20.None? then NetworkFailure(l, LabelMissing)
        else l.(ds18b20 := Some(Celsius(v[0])), status := DataOk)
    else l
  }

  /** The device-specific read's client call: two registers for device 0, one for device 1, none for the rest. */
  function ReadOps(index: nat): seq<ClientOp> {
    if index == 0 then [ReadHolding(0, 2)]
    else if index == 1 then [ReadHolding(0, 1)]
    else []
  }

  /**
   * The `try` block after connecting, on the panel: write the key to
   * register 99; an error response shows the key error and closes the
   * client, and a close that raises goes on to the `except` branch; a
   * raising write goes there too; otherwise the status shows "reading"
   * and the device is read.
   */
  function SessionLabels(l: DeviceLabels, index: nat, io: DeviceIO): DeviceLabels {
    match io.write
    case WriteRaised(e) => NetworkFailure(l, ClientRaised(e))
    case WriteError =>
      (match io.authClose
       case Closed => l.(status := AuthFailed)
       case CloseRaised(e) => NetworkFailure(l, ClientRaised(e)))
    case WriteOk => ReadLabels(l.(status := Reading), index, io.read)
  }

  /**
   * The client calls of the same block with its `finally`: the key write;
   * after an error response the client is closed, and `finally` closes it
   * again; after a good write, the read; in every case a final close.
   */
  function SessionOps(index: nat, io: DeviceIO, key: int): seq<ClientOp> {
    var write := WriteRegister(AuthRegister, key);
    match io.write
    case WriteRaised(_) => [write, Close]
    case WriteError => [write, Close, Close]
    case WriteOk => [write] + ReadOps(index) + [Close]
  }

  /** `n` calls to `client.connect()`. */
  function ConnectCalls(n: nat): (ops: seq<ClientOp>)
    ensures |ops| == n
  {
    if n == 0 then [] else ConnectCalls(n - 1) + [ConnectCall]
  }

  /** Those calls are all connection calls. */
  lemma {:induction false} ConnectCallsAll(n: nat)
    ensures forall k :: 0 <= k < n ==> ConnectCalls(n)[k] == ConnectCall
  {
    if n > 0 {
      ConnectCallsAll(n - 1);
      assert forall k :: 0 <= k < n - 1 ==> ConnectCalls(n)[k] == ConnectCalls(n - 1)[k];
    }
  }

  /**
   * A device's whole turn, on its panel: when the retry loop gives up,
   * every present data label and the status show the outage; otherwise the
   * session decides.
   */
  function PollLabels(l: DeviceLabels, index: nat, io: DeviceIO): DeviceLabels {
    if !Connect(io.connect).connected then MarkAll(l, Outage).(status := ConnectionLost)
    else SessionLabels(l, index, io)
  }

  /**
   * A device's whole turn, as client calls: create the client, the retry
   * loop's connection calls, then either a close (on giving up) or the
   * session.
   */
  function PollOps(index: nat, ip: string, port: int, io: DeviceIO, key: int): seq<ClientOp> {
    var r := Connect(io.connect);
    [NewClient(ip, port)] + ConnectCalls(r.attempts) + (if !r.connected then [Close] else SessionOps(index, io, key))
  }

  // ---------------------------------------------------------------------
  // Properties of one device's turn
  // ---------------------------------------------------------------------

  /** Which data labels a panel has. */
  predicate SameShape(a: DeviceLabels, b: DeviceLabels) {
    a.humidity.Some? == b.humidity.Some? && a.temperature.Some? == b.temperature.Some? && a.ds18b20.Some? == b.ds18b20.Some?
  }

  /** A turn never adds or removes a data label of the panel. */
  lemma {:induction false} PollKeepsShape(l: DeviceLabels, index: nat, io: DeviceIO)
    ensures SameShape(PollLabels(l, index, io), l)
  {
    if Connect(io.connect).connected && io.write.WriteOk? {
      var m := l.(status := Reading);
      assert SameShape(ReadLabels(m, index, io.read), m);
    }
  }

  /**
   * Every turn creates the client first and closes it last; the number of
   * connection calls is the retry loop's; and the key is written to
   * register 99 right before any read.
   */
  lemma {:induction false} PollDeviceFrame(index: nat, ip: string, port: int, io: DeviceIO, key: int)
    ensures var ops := PollOps(index, ip, port, io, key);
            && |ops| >= 2 && ops[0] == NewClient(ip, port) && ops[|ops| - 1] == Close
            && (forall k :: 1 <= k <= Connect(io.connect).attempts ==> ops[k] == ConnectCall)
            && (forall k :: 0 <= k < |ops| && ops[k].ReadHolding? ==>
                  k >= 1 && ops[k - 1] == WriteRegister(AuthRegister, key))
  {
    var ops := PollOps(index, ip, port, io, key);
    var r := Connect(io.connect);
    var opening := [NewClient(ip, port)] + ConnectCalls(r.attempts);
    ConnectCallsAll(r.attempts);
    if r.connected {
      var s := SessionOps(index, io, key);
      assert ops == opening + s;
      if io.write.WriteOk? {
        assert s == [WriteRegister(AuthRegister, key)] + ReadOps(index) + [Close];
        forall k | 0 <= k < |ops| && ops[k].ReadHolding?
          ensures k >= 1 && ops[k - 1] == WriteRegister(AuthRegister, key)
        {
          assert k == |opening| + 1;
        }
      }
    }
  }

  /** Only the first call of a turn creates a client. */
  lemma {:induction false} PollDeviceOneClient(index: nat, ip: string, port: int, io: DeviceIO, key: int)
    ensures var ops := PollOps(index, ip, port, io, key);
            forall k :: 0 < k < |ops| ==> !ops[k].NewClient?
  {
    var r := Connect(io.connect);
    var opening := [NewClient(ip, port)] + ConnectCalls(r.attempts);
    var rest := if !r.connected then [Close] else SessionOps(index, io, key);
    var ops := PollOps(index, ip, port, io, key);
    assert ops == opening + rest;
    ConnectCallsAll(r.attempts);
    forall k | 0 < k < |ops| ensures !ops[k].NewClient? {
      if k < |opening| {
        assert ops[k] == ConnectCalls(r.attempts)[k - 1];
      } else {
        assert ops[k] == rest[k - |opening|];
      }
    }
  }

  /** With no accepted attempt in the budget, every present data label and the status show the outage, and nothing is written or read. */
  lemma {:induction false} PollDeviceOutage(l: DeviceLabels, index: nat, ip: string, port: int, io: DeviceIO, key: int)
    requires !Connect(io.connect).connected
    ensures PollLabels(l, index, io) == MarkAll(l, Outage).(status := ConnectionLost)
    ensures var ops := PollOps(index, ip, port, io, key);
            && (forall k :: 0 <= k < |ops| ==> !ops[k].WriteRegister? && !ops[k].ReadHolding?)
            && ops[|ops| - 1] == Close
  {
    ConnectCallsAll(Connect(io.connect).attempts);
  }

  /**
   * The authentication gate: when the key write returns an error and the
   * client closes, only the status changes, no register is read, and the
   * client is closed twice.
   */
  lemma {:induction false} PollDeviceAuthError(l: DeviceLabels, index: nat, ip: string, port: int, io: DeviceIO, key: int)
    requires Connect(io.connect).connected && io.write.WriteError? && io.authClose.Closed?
    ensures PollLabels(l, index, io) == l.(status := AuthFailed)
    ensures var ops := PollOps(index, ip, port, io, key);
            && (forall k :: 0 <= k < |ops| ==> !ops[k].ReadHolding?)
            && ops[|ops| - 3..] == [WriteRegister(AuthRegister, key), Close, Close]
  {
    ConnectCallsAll(Connect(io.connect).attempts);
  }

  /**
   * Device 0: two registers from address 0; a good read shows humidity and
   * temperature raw and the status OK, an error response marks both labels
   * and the status as a read error.
   */
  lemma {:induction false} PollFirstDevice(l: DeviceLabels, ip: string, port: int, io: DeviceIO, key: int)
    requires Connect(io.connect).connected && io.write.WriteOk?
    ensures var ops := PollOps(0, ip, port, io, key);
            ops[|ops| - 3..] == [WriteRegister(AuthRegister, key), ReadHolding(0, 2), Close]
    ensures io.read.Registers? && |io.read.values| >= 2 && l.humidity.Some? && l.temperature.Some? ==>
              PollLabels(l, 0, io) == l.(humidity := Some(Humidity(io.read.values[0])),
                                         temperature := Some(Celsius(io.read.values[1])), status := DataOk)
    ensures io.read.ReadError? ==>
              PollLabels(l, 0, io) == l.(humidity := Mark(l.humidity, ReadFault),
                                         temperature := Mark(l.temperature, ReadFault), status := ReadFailed)
  {
  }

  /** Device 1: one register from address 0, shown as the DS18B20 temperature. */
  lemma {:induction false} PollSecondDevice(l: DeviceLabels, ip: string, port: int, io: DeviceIO, key: int)
    requires Connect(io.connect).connected && io.write.WriteOk?
    ensures var ops := PollOps(1, ip, port, io, key);
            ops[|ops| - 3..] == [WriteRegister(AuthRegister, key), ReadHolding(0, 1), Close]
    ensures io.read.Registers? && |io.read.values| >= 1 && l.ds18b20.Some? ==>
              PollLabels(l, 1, io) == l.(ds18b20 := Some(Celsius(io.read.values[0])), status := DataOk)
    ensures io.read.ReadError? ==> PollLabels(l, 1, io) == l.(ds18b20 := Mark(l.ds18b20, ReadFault), status := ReadFailed)
  {
  }

  /** Devices from index 2 on are not read: the status stays "reading" and the data labels keep their texts. */
  lemma {:induction false} PollOtherDevice(l: DeviceLabels, index: nat, ip: string, port: int, io: DeviceIO, key: int)
    requires index >= 2 && Connect(io.connect).connected && io.write.WriteOk?
    ensures PollLabels(l, index, io) == l.(status := Reading)
    ensures var ops := PollOps(index, ip, port, io, key);
            && ops[|ops| - 2..] == [WriteRegister(AuthRegister, key), Close]
            && forall k :: 0 <= k < |ops| ==> !ops[k].ReadHolding?
  {
    ConnectCallsAll(Connect(io.connect).attempts);
  }

  /**
   * A raise by the client after connecting (by the key write, by the close
   * after a rejected write, or by the read) marks every present data label
   * and the status as a network error.
   */
  lemma {:induction false} PollDeviceRaise(l: DeviceLabels, index: nat, io: DeviceIO)
    requires Connect(io.connect).connected
    requires || io.write.WriteRaised?
             || (io.write.WriteError? && io.authClose.CloseRaised?)
             || (io.write.WriteOk? && index <= 1 && io.read.ReadRaised?)
    ensures var m := PollLabels(l, index, io);
            && m.status.NetworkError?
            && m == MarkAll(l, NetworkFault).(status := m.status)
            && (io.write.WriteRaised? ==> m.status == NetworkError(ClientRaised(io.write.error)))
            && (io.write.WriteError? ==> m.status == NetworkError(ClientRaised(io.authClose.error)))
            && (io.write.WriteOk? ==> m.status == NetworkError(ClientRaised(io.read.error)))
  {
  }

  /**
   * A read that returns too few registers, or a device whose panel lacks
   * the label the reading goes to, raises after the read and ends like a
   * network error.
   */
  lemma {:induction false} PollDeviceMissing(l: DeviceLabels, index: nat, io: DeviceIO)
    requires Connect(io.connect).connected && io.write.WriteOk? && io.read.Registers?
    requires || (index == 0 && (|io.read.values| < 2 || l.humidity.None? || l.temperature.None?))
             || (index == 1 && (|io.read.values| < 1 || l.ds18b20.None?))
    ensures var m := PollLabels(l, index, io);
            && m.status.NetworkError? && !m.status.cause.ClientRaised?
            && m == NetworkFailure(l, m.status.cause)
  {
  }

  // ---------------------------------------------------------------------
  // The whole cycle
  // ---------------------------------------------------------------------

  /** Every configured address has a panel. */
  predicate Covers(labels: map<string, DeviceLabels>, ips: seq<string>) {
    forall i :: 0 <= i < |ips| ==> ips[i] in labels
  }

  /**
   * The panels (keyed by address) after the first `n` turns of a cycle, in
   * device order: each turn works on the panel registered under its
   * address, as the previous turns left it.
   */
  function CycleLabels(labels: map<string, DeviceLabels>, ips: seq<string>, io: seq<DeviceIO>, n: nat): (r: map<string, DeviceLabels>)
    requires n <= |ips| == |io| && Covers(labels, ips)
    ensures r.Keys == labels.Keys
    decreases n
  {
    if n == 0 then labels
    else
      var prev := CycleLabels(labels, ips, io, n - 1);
      prev[ips[n - 1] := PollLabels(prev[ips[n - 1]], n - 1, io[n - 1])]
  }

  /** The client calls of the first `n` turns of a cycle. */
  function CycleOps(ips: seq<string>, port: int, key: int, io: seq<DeviceIO>, n: nat): seq<ClientOp>
    requires n <= |ips| == |io|
    decreases n
  {
    if n == 0 then []
    else CycleOps(ips, port, key, io, n - 1) + PollOps(n - 1, ips[n - 1], port, io[n - 1], key)
  }

  /**
   * The cycle as the loop runs it: the turns from device `k` on, applied to
   * the panels `m` as the earlier turns left them.
   */
  function LabelsFrom(m: map<string, DeviceLabels>, ips: seq<string>, io: seq<DeviceIO>, k: nat): (r: map<string, DeviceLabels>)
    requires k <= |ips| == |io| && Covers(m, ips)
    ensures r.Keys == m.Keys
    decreases |ips| - k
  {
    if k == |ips| then m else LabelsFrom(m[ips[k] := PollLabels(m[ips[k]], k, io[k])], ips, io, k + 1)
  }

  /** The client calls as the loop records them: the calls of the turns from device `k` on, appended to `t`. */
  function TraceFrom(t: seq<ClientOp>, ips: seq<string>, port: int, key: int, io: seq<DeviceIO>, k: nat): seq<ClientOp>
    requires k <= |ips| == |io|
    decreases |ips| - k
  {
    if k == |ips| then t else TraceFrom(t + PollOps(k, ips[k], port, io[k], key), ips, port, key, io, k + 1)
  }

  /** Running the remaining turns on the panels the first `k` turns left completes the cycle. */
  lemma {:induction false} LabelsFromCycle(m: map<string, DeviceLabels>, ips: seq<string>, io: seq<DeviceIO>, k: nat)
    requires k <= |ips| == |io| && Covers(m, ips)
    ensures LabelsFrom(CycleLabels(m, ips, io, k), ips, io, k) == CycleLabels(m, ips, io, |ips|)
    decreases |ips| - k
  {
    if k < |ips| {
      var c := CycleLabels(m, ips, io, k);
      var next := c[ips[k] := PollLabels(c[ips[k]], k, io[k])];
      assert next == CycleLabels(m, ips, io, k + 1);
      assert LabelsFrom(c, ips, io, k) == LabelsFrom(next, ips, io, k + 1);
      LabelsFromCycle(m, ips, io, k + 1);
    }
  }

  /** Appending the remaining turns' calls to the first `k` turns' calls gives the whole cycle's calls. */
  lemma {:induction false} TraceFromCycle(t: seq<ClientOp>, ips: seq<string>, port: int, key: int, io: seq<DeviceIO>, k: nat)
    requires k <= |ips| == |io|
    ensures TraceFrom(t + CycleOps(ips, port, key, io, k), ips, port, key, io, k) == t + CycleOps(ips, port, key, io, |ips|)
    decreases |ips| - k
  {
    if k < |ips| {
      var p := PollOps(k, ips[k], port, io[k], key);
      assert t + CycleOps(ips, port, key, io, k) + p == t + CycleOps(ips, port, key, io, k + 1);
      TraceFromCycle(t, ips, port, key, io, k + 1);
    }
  }

  /** A panel whose address is not among the first `n` devices is untouched. */
  lemma {:induction false} CycleIsolation(labels: map<string, DeviceLabels>, ips: seq<string>, io: seq<DeviceIO>, n: nat, x: string)
    requires n <= |ips| == |io| && Covers(labels, ips)
    requires x in labels && x !in ips[..n]
    ensures CycleLabels(labels, ips, io, n)[x] == labels[x]
    decreases n
  {
    if n > 0 {
      assert ips[n - 1] == ips[..n][n - 1];
      assert ips[..n - 1] == ips[..n][..n - 1];
      CycleIsolation(labels, ips, io, n - 1, x);
    }
  }

  /**
   * Turns are independent: with distinct addresses, device `i`'s panel
   * ends up exactly as that device's own turn leaves it, whatever the
   * other devices did (a failure only moves on to the next device).
   */
  lemma {:induction false} CycleIndependent(labels: map<string, DeviceLabels>, ips: seq<string>, io: seq<DeviceIO>, n: nat, i: nat)
    requires n <= |ips| == |io| && Covers(labels, ips)
    requires forall a, b :: 0 <= a < b < |ips| ==> ips[a] != ips[b]
    requires i < n
    ensures CycleLabels(labels, ips, io, n)[ips[i]] == PollLabels(labels[ips[i]], i, io[i])
    decreases n
  {
    if i == n - 1 {
      assert ips[i] !in ips[..n - 1];
      CycleIsolation(labels, ips, io, n - 1, ips[i]);
    } else {
      assert ips[i] != ips[n - 1];
      CycleIndependent(labels, ips, io, n - 1, i);
    }
  }

  /** Every client in `ops` other than the first is created right after a close. */
  predicate ClosedBeforeNew(ops: seq<ClientOp>) {
    forall k :: 0 < k < |ops| && ops[k].NewClient? ==> ops[k - 1] == Close
  }

  /** Two call sequences that each close before creating a client still do when the first ends with a close. */
  lemma {:induction false} ClosedBeforeNewAppend(a: seq<ClientOp>, b: seq<ClientOp>)
    requires ClosedBeforeNew(a) && ClosedBeforeNew(b)
    requires a != [] ==> a[|a| - 1] == Close
    ensures ClosedBeforeNew(a + b)
  {
    var ops := a + b;
    forall k | 0 < k < |ops| && ops[k].NewClient? ensures ops[k - 1] == Close {
      if k > |a| {
        assert ops[k] == b[k - |a|] && ops[k - 1] == b[k - 1 - |a|];
      } else if k < |a| {
        assert ops[k] == a[k] && ops[k - 1] == a[k - 1];
      }
    }
  }

  /**
   * Always-close over a cycle: the calls start with the first device's
   * client, every new client is created only after the previous one was
   * closed, and the last call of a non-empty cycle is a close.
   */
  lemma {:induction false} CycleCloses(ips: seq<string>, port: int, key: int, io: seq<DeviceIO>, n: nat)
    requires n <= |ips| == |io|
    ensures var ops := CycleOps(ips, port, key, io, n);
            && (n == 0 <==> ops == [])
            && (n > 0 ==> ops[0] == NewClient(ips[0], port) && ops[|ops| - 1] == Close)
            && ClosedBeforeNew(ops)
    decreases n
  {
    if n > 0 {
      var prev := CycleOps(ips, port, key, io, n - 1);
      var o := PollOps(n - 1, ips[n - 1], port, io[n - 1], key);
      CycleCloses(ips, port, key, io, n - 1);
      PollDeviceFrame(n - 1, ips[n - 1], port, io[n - 1], key);
      PollDeviceOneClient(n - 1, ips[n - 1], port, io[n - 1], key);
      ClosedBeforeNewAppend(prev, o);
    }
  }
}
