/**
 * The text protocol between the fan-control window and the STM32 fan
 * controller: the command lines the window writes to the serial port, the
 * clamp applied to a percentage picked on the progress bar, the ordered
 * chain of tests that decides which kind of line arrived, and the fields
 * that are cut out of a line of each kind.
 */
module FanProtocol {
  import opened Strings

  /** The three commands the window sends. */
  datatype Command = RequestAuto | RequestManual | SetPercentage(value: int)

  /** The command text before the line terminator. */
  function CommandText(c: Command): string {
    match c
    case RequestAuto => "A"
    case RequestManual => "M"
    case SetPercentage(n) => "P=" + IntToString(n)
  }

  /** The bytes written for a command: its text and one line feed. */
  function Encode(c: Command): string {
    CommandText(c) + "\n"
  }

  /** A written line is the command text, which holds no line feed, and one terminating line feed. */
  lemma {:induction false} EncodeLine(c: Command)
    ensures var line := Encode(c);
            |line| >= 2 && line[|line| - 1] == '\n'
            && line[..|line| - 1] == CommandText(c) && '\n' !in CommandText(c)
  {
    IntToStringChars(if c.SetPercentage? then c.value else 0);
    var line := Encode(c);
    assert line[..|line| - 1] == CommandText(c);
  }

  /** Reads a command back from one written line; the inverse of `Encode`. */
  function ParseCommand(line: string): Option<Command> {
    if |line| == 0 || line[|line| - 1] != '\n' then None
    else
      var text := line[..|line| - 1];
      if text == "A" then Some(RequestAuto)
      else if text == "M" then Some(RequestManual)
      else if StartsWith(text, "P=") then
        match ParseInt(text[2..])
        case Some(n) => Some(SetPercentage(n))
        case None => None
      else None
  }

  /** Every written line identifies the command it was written for. */
  lemma {:induction false} EncodeRoundTrip(c: Command)
    ensures ParseCommand(Encode(c)) == Some(c)
  {
    var line := Encode(c);
    var text := line[..|line| - 1];
    EncodeLine(c);
    if c.SetPercentage? {
      assert text[2..] == IntToString(c.value);
      IntToStringRoundTrip(c.value);
    }
  }

  /**
   * The clamp of a progress-bar click: a value below 0 becomes 0 and one
   * above 100 becomes 100, so the result is always a valid percentage.
   */
  function Clamp(raw: int): (p: int)
    ensures 0 <= p <= 100
    ensures 0 <= raw <= 100 ==> p == raw
    ensures raw < 0 ==> p == 0
    ensures raw > 100 ==> p == 100
  {
    if raw < 0 then 0 else if raw > 100 then 100 else raw
  }

  /** A click sends `P=<p>` with `p` in 0..100, whatever the raw value. */
  lemma {:induction false} ClickCommandInRange(raw: int)
    ensures ParseCommand(Encode(SetPercentage(Clamp(raw)))).Some?
    ensures var c := ParseCommand(Encode(SetPercentage(Clamp(raw)))).value;
            c.SetPercentage? && 0 <= c.value <= 100
  {
    EncodeRoundTrip(SetPercentage(Clamp(raw)));
  }

  const AutoAckTag := "OK: AUTO MODE"
  const ManualAckTag := "OK: MANUAL MODE"
  const PercentTag := "OK: P="
  const AutoStatusTag := "STATUS: AUTO"
  const ManualStatusTag := "STATUS: MANUAL"
  const ErrorTag := "ERROR"
  const MotorTag := "OK: Motor Direction ->"

  /** The branch of the message handler that an incoming line takes. */
  datatype MessageKind =
    | AutoModeAck | ManualModeAck | PercentAck
    | AutoStatus | ManualStatus | DeviceError | MotorDirection
    | Unmatched

  /** The position of a kind's test in the handler's chain. */
  function Rank(k: MessageKind): nat {
    match k
    case AutoModeAck => 0
    case ManualModeAck => 1
    case PercentAck => 2
    case AutoStatus => 3
    case ManualStatus => 4
    case DeviceError => 5
    case MotorDirection => 6
    case Unmatched => 7
  }

  /** The test of one branch on its own, without regard to the others. */
  predicate Test(k: MessageKind, msg: string) {
    match k
    case AutoModeAck => Contains(msg, AutoAckTag)
    case ManualModeAck => Contains(msg, ManualAckTag)
    case PercentAck => Contains(msg, PercentTag)
    case AutoStatus => StartsWith(msg, AutoStatusTag)
    case ManualStatus => StartsWith(msg, ManualStatusTag)
    case DeviceError => Contains(msg, ErrorTag)
    case MotorDirection => Contains(msg, MotorTag)
    case Unmatched => true
  }

  /** The handler's chain of tests, in the order the handler tries them. */
  function KindAt(r: nat): (k: MessageKind)
    requires r < 8
    ensures Rank(k) == r
  {
    [AutoModeAck, ManualModeAck, PercentAck, AutoStatus, ManualStatus, DeviceError, MotorDirection, Unmatched][r]
  }

  /** The first kind from position `r` of the chain on whose test holds; the last test always holds. */
  function ClassifyFrom(msg: string, r: nat): MessageKind
    requires r < 8
    decreases 8 - r
  {
    if r == 7 || Test(KindAt(r), msg) then KindAt(r) else ClassifyFrom(msg, r + 1)
  }

  /** The kind of an incoming line: the first test of the handler's `if`/`elif` chain that holds. */
  function Classify(msg: string): MessageKind {
    ClassifyFrom(msg, 0)
  }

  lemma {:induction false} ClassifyFromSpec(msg: string, r: nat)
    requires r < 8
    ensures r <= Rank(ClassifyFrom(msg, r))
    ensures Test(ClassifyFrom(msg, r), msg)
    ensures forall j :: r <= Rank(j) < Rank(ClassifyFrom(msg, r)) ==> !Test(j, msg)
    decreases 8 - r
  {
    if r < 7 && !Test(KindAt(r), msg) {
      ClassifyFromSpec(msg, r + 1);
      forall j | Rank(j) == r ensures !Test(j, msg) {
        assert j == KindAt(r);
      }
    }
  }

  /**
   * First match wins: the chosen kind's test holds and the test of every
   * kind earlier in the chain fails.
   */
  lemma {:induction false} ClassifyFirstMatch(msg: string)
    ensures Test(Classify(msg), msg)
    ensures forall j :: Rank(j) < Rank(Classify(msg)) ==> !Test(j, msg)
  {
    ClassifyFromSpec(msg, 0);
  }

  /** Conversely, a kind whose test holds while every earlier test fails is the one chosen. */
  lemma {:induction false} ClassifyIs(msg: string, k: MessageKind)
    requires Test(k, msg)
    requires forall j :: Rank(j) < Rank(k) ==> !Test(j, msg)
    ensures Classify(msg) == k
  {
    ClassifyFirstMatch(msg);
    var c := Classify(msg);
    assert Rank(c) == Rank(k);
    assert c == KindAt(Rank(c)) && k == KindAt(Rank(k));
  }

  /**
   * `msg.split("OK: P=")[1].split(",")[0]`: the text between the first and
   * the second `OK: P=` (or the end), cut at its first comma. `None` stands
   * for the IndexError of a line with no `OK: P=`.
   */
  function PercentText(msg: string): Option<string> {
    var pieces := Split(msg, PercentTag);
    if |pieces| < 2 then None else Some(Split(pieces[1], ",")[0])
  }

  /** The value `int()` reads from the percentage text, if there is one and it is an integer. */
  function PercentValue(msg: string): Option<int> {
    match PercentText(msg)
    case None => None
    case Some(t) => ParseInt(t)
  }

  /** A line holding `OK: P=` always has a percentage text, and that text holds no comma. */
  lemma {:induction false} PercentTextSpec(msg: string)
    ensures PercentText(msg).Some? <==> Contains(msg, PercentTag)
    ensures PercentText(msg).Some? ==> ',' !in PercentText(msg).value
  {
    SplitSpec(msg, PercentTag);
    var pieces := Split(msg, PercentTag);
    if |pieces| >= 2 {
      SplitSpec(pieces[1], ",");
      NoCharNoOccurrence(Split(pieces[1], ",")[0], ',');
    }
  }

  /** The fields of `STATUS: AUTO, TEMP=<t> C, P=<n>`: temperature text and percentage text. */
  datatype AutoFields = AutoFields(temp: string, percent: string)

  /**
   * The field extraction of the `STATUS: AUTO` branch. `None` stands for the
   * IndexError raised when the line has fewer than three `", "`-separated
   * parts or the second or third part has no `=`. The temperature text is
   * what follows the first `=` of the second part, with every `" C"` removed.
   */
  function AutoStatusFields(msg: string): Option<AutoFields> {
    var parts := Split(msg, ", ");
    if |parts| < 2 then None
    else
      var tempPieces := Split(parts[1], "=");
      if |tempPieces| < 2 then None
      else
        var temp := RemoveAll(tempPieces[1], " C");
        if |parts| < 3 then None
        else
          var percentPieces := Split(parts[2], "=");
          if |percentPieces| < 2 then None
          else Some(AutoFields(temp, percentPieces[1]))
  }

  /**
   * The `STATUS: AUTO` fields exist exactly when the line has three
   * `", "`-separated parts and the second and third hold an `=`; the
   * percentage text then holds no `=`.
   */
  lemma {:induction false} AutoStatusFieldsSpec(msg: string)
    ensures AutoStatusFields(msg).None? <==>
              (|Split(msg, ", ")| < 3
               || !Contains(Split(msg, ", ")[1], "=")
               || !Contains(Split(msg, ", ")[2], "="))
    ensures AutoStatusFields(msg).Some? ==> '=' !in AutoStatusFields(msg).value.percent
  {
    var parts := Split(msg, ", ");
    if |parts| >= 2 {
      SplitSpec(parts[1], "=");
    }
    if |parts| >= 3 {
      SplitSpec(parts[2], "=");
      var pieces := Split(parts[2], "=");
      if |pieces| >= 2 {
        NoCharNoOccurrence(pieces[1], '=');
      }
    }
  }

  /**
   * The field extraction of the `STATUS: MANUAL` branch: the text after the
   * first `=` of the second `", "`-separated part, up to the next `=`.
   * `None` stands for the IndexError of a missing part or `=`.
   */
  function ManualStatusField(msg: string): Option<string> {
    var parts := Split(msg, ", ");
    if |parts| < 2 then None
    else
      var pieces := Split(parts[1], "=");
      if |pieces| < 2 then None
      else Some(pieces[1])
  }

  /**
   * The `STATUS: MANUAL` field exists exactly when the line has a second
   * `", "`-separated part holding an `=`; it then holds no `=`.
   */
  lemma {:induction false} ManualStatusFieldSpec(msg: string)
    ensures ManualStatusField(msg).None? <==>
              (|Split(msg, ", ")| < 2 || !Contains(Split(msg, ", ")[1], "="))
    ensures ManualStatusField(msg).Some? ==> '=' !in ManualStatusField(msg).value
  {
    var parts := Split(msg, ", ");
    if |parts| >= 2 {
      SplitSpec(parts[1], "=");
      var pieces := Split(parts[1], "=");
      if |pieces| >= 2 {
        NoCharNoOccurrence(pieces[1], '=');
      }
    }
  }

  /** The text of a number, followed by nothing or by a comma, holds no `OK: P=` before the comma. */
  lemma {:induction false} NoTagInNumber(n: int, rest: string)
    requires rest == [] || rest[0] == ','
    ensures forall k: nat :: k <= |IntToString(n)| ==> !OccursAt(IntToString(n) + rest, PercentTag, k)
  {
    var d := IntToString(n);
    var tail := d + rest;
    IntToStringChars(n);
    forall k: nat | k <= |d| ensures !OccursAt(tail, PercentTag, k) {
      if k < |tail| {
        assert tail[k] == if k < |d| then d[k] else rest[0];
      }
    }
  }

  /** Cutting at the first comma gives back a number followed by nothing or a comma. */
  lemma {:induction false} CommaPiece(piece: string, n: int)
    requires |IntToString(n)| <= |piece| && piece[..|IntToString(n)|] == IntToString(n)
    requires |piece| == |IntToString(n)| || piece[|IntToString(n)|] == ','
    ensures Split(piece, ",")[0] == IntToString(n)
  {
    var d := IntToString(n);
    IntToStringChars(n);
    forall k: nat | k < |d| ensures !OccursAt(piece, ",", k) {
      assert piece[k] == d[k];
    }
    if |piece| > |d| {
      assert piece[|d|..|d| + 1] == ",";
    }
    FirstPiece(piece, ",", d);
  }

  /** The piece after the first `OK: P=` of an echoed percentage begins with the number. */
  lemma {:induction false} TagPiece(n: int, rest: string)
    requires rest == [] || rest[0] == ','
    ensures var d := IntToString(n);
            var piece := Split(d + rest, PercentTag)[0];
            |d| <= |piece| && piece[..|d|] == d && (|piece| == |d| || piece[|d|] == ',')
  {
    var d := IntToString(n);
    var tail := d + rest;
    NoTagInNumber(n, rest);
    var piece := Split(tail, PercentTag)[0];
    IndexOfSpec(tail, PercentTag);
    match IndexOf(tail, PercentTag)
    case None =>
      assert piece == tail;
    case Some(i) =>
      assert |d| < i;
      assert piece == tail[..i];
  }

  /** A line that starts with `OK: P=` splits into an empty piece and the pieces of the rest. */
  lemma {:induction false} SplitAfterLeadingTag(tail: string)
    ensures Contains(PercentTag + tail, PercentTag)
    ensures Split(PercentTag + tail, PercentTag) == [[]] + Split(tail, PercentTag)
  {
    var msg := PercentTag + tail;
    assert OccursAt(msg, PercentTag, 0);
    assert IndexOf(msg, PercentTag) == Some(0);
    assert msg[|PercentTag|..] == tail;
  }

  /**
   * Echo round trip: the device's confirmation `OK: P=<n>` of a percentage,
   * with or without a comma-separated tail, yields `n` again.
   */
  lemma {:induction false} EchoPercentText(n: int, rest: string)
    requires rest == [] || rest[0] == ','
    ensures Contains(PercentTag + IntToString(n) + rest, PercentTag)
    ensures PercentText(PercentTag + IntToString(n) + rest) == Some(IntToString(n))
    ensures PercentValue(PercentTag + IntToString(n) + rest) == Some(n)
  {
    var d := IntToString(n);
    var tail := d + rest;
    var msg := PercentTag + tail;
    assert msg == PercentTag + d + rest;
    SplitAfterLeadingTag(tail);
    var piece := Split(tail, PercentTag)[0];
    assert Split(msg, PercentTag)[1] == piece;
    TagPiece(n, rest);
    CommaPiece(piece, n);
    assert PercentText(msg) == Some(Split(piece, ",")[0]);
    IntToStringRoundTrip(n);
  }

  /** The line the controller reports in automatic mode: `STATUS: AUTO, TEMP=<t> C, P=<n>`. */
  function AutoStatusLine(temp: string, n: int): string {
    AutoStatusTag + ", " + "TEMP=" + temp + " C" + ", " + "P=" + IntToString(n)
  }

  /** The line the controller reports in manual mode: `STATUS: MANUAL, P=<n>`. */
  function ManualStatusLine(n: int): string {
    ManualStatusTag + ", " + "P=" + IntToString(n)
  }

  /** A temperature text the status line can carry unambiguously: no comma, no `=` and no `" C"`. */
  predicate PlainTemperature(temp: string) {
    ',' !in temp && '=' !in temp && !Contains(temp, " C")
  }

  /** The text of a number holds neither a comma nor an `=` nor a `K`. */
  lemma {:induction false} NumberChars(n: int)
    ensures ',' !in IntToString(n) && '=' !in IntToString(n) && 'K' !in IntToString(n)
  {
    IntToStringChars(n);
  }

  /** `" C"` occurs in a plain temperature followed by `" C"` only at its end. */
  lemma {:induction false} UnitSuffixOnly(temp: string)
    requires !Contains(temp, " C")
    ensures forall k: nat :: k < |temp| ==> !OccursAt(temp + " C" + [], " C", k)
  {
    var s := temp + " C" + [];
    ContainsSpec(temp, " C");
    forall k: nat | k < |temp| ensures !OccursAt(s, " C", k) {
      if k + 2 <= |temp| {
        assert !OccursAt(temp, " C", k);
        assert s[k..k + 2] == temp[k..k + 2];
      } else {
        assert s[k..k + 2][1] == s[k + 1] == ' ' != " C"[1];
      }
    }
  }

  /** Removing the unit from a plain temperature followed by `" C"` gives the temperature back. */
  lemma {:induction false} RemoveUnit(temp: string)
    requires !Contains(temp, " C")
    ensures RemoveAll(temp + " C", " C") == temp
  {
    UnitSuffixOnly(temp);
    SplitFirst(temp, " C", []);
    SplitWhole([], " C");
    assert temp + " C" + [] == temp + " C";
    assert Split(temp + " C", " C") == [temp, []];
    assert Join([temp, []], []) == temp + [] + Join([[]], []);
  }

  /** `"P=" + str(n)` split at `=` is `P` and the number's text. */
  lemma {:induction false} PercentFieldSplit(n: int)
    ensures Split("P=" + IntToString(n), "=") == ["P", IntToString(n)]
  {
    var d := IntToString(n);
    NumberChars(n);
    assert "P=" + d == "P" + "=" + d;
    NoOccurrenceInPrefix("P", "=", d);
    SplitFirst("P", "=", d);
    SplitWhole(d, "=");
  }

  /** Two comma-free fields joined by `", "` split back into the two fields. */
  lemma {:induction false} TwoFieldsSplit(a: string, b: string)
    requires ',' !in a && ',' !in b
    ensures Split(a + ", " + b, ", ") == [a, b]
  {
    NoOccurrenceInPrefix(a, ", ", b);
    SplitFirst(a, ", ", b);
    SplitWhole(b, ", ");
  }

  /** Three comma-free fields joined by `", "` split back into the three fields. */
  lemma {:induction false} ThreeFieldsSplit(a: string, b: string, c: string)
    requires ',' !in a && ',' !in b && ',' !in c
    ensures Split(a + ", " + b + ", " + c, ", ") == [a, b, c]
  {
    assert a + ", " + b + ", " + c == a + ", " + (b + ", " + c);
    NoOccurrenceInPrefix(a, ", ", b + ", " + c);
    SplitFirst(a, ", ", b + ", " + c);
    TwoFieldsSplit(b, c);
  }

  /** The auto status line splits at `", "` into its tag, its temperature field and its percentage field. */
  lemma {:induction false} AutoStatusPieces(temp: string, n: int)
    requires PlainTemperature(temp)
    ensures Split(AutoStatusLine(temp, n), ", ")
         == [AutoStatusTag, "TEMP=" + temp + " C", "P=" + IntToString(n)]
  {
    NumberChars(n);
    var b := "TEMP=" + temp + " C";
    assert ',' !in b;
    assert AutoStatusLine(temp, n) == AutoStatusTag + ", " + b + ", " + ("P=" + IntToString(n));
    ThreeFieldsSplit(AutoStatusTag, b, "P=" + IntToString(n));
  }

  /** `"TEMP=" + t + " C"` split at `=` is `TEMP` and `t + " C"` when `t` holds no `=`. */
  lemma {:induction false} TemperatureFieldSplit(temp: string)
    requires '=' !in temp
    ensures Split("TEMP=" + temp + " C", "=") == ["TEMP", temp + " C"]
  {
    assert "TEMP=" + temp + " C" == "TEMP" + "=" + (temp + " C");
    NoOccurrenceInPrefix("TEMP", "=", temp + " C");
    SplitFirst("TEMP", "=", temp + " C");
    SplitWhole(temp + " C", "=");
  }

  /**
   * A well-formed `STATUS: AUTO` line decodes to its temperature text and
   * the text of its percentage: `STATUS: AUTO, TEMP=23.5 C, P=10` gives
   * `23.5` and `10`.
   */
  lemma {:induction false} AutoStatusDecode(temp: string, n: int)
    requires PlainTemperature(temp)
    ensures AutoStatusFields(AutoStatusLine(temp, n)) == Some(AutoFields(temp, IntToString(n)))
  {
    AutoStatusPieces(temp, n);
    TemperatureFieldSplit(temp);
    RemoveUnit(temp);
    PercentFieldSplit(n);
  }

  /** A `STATUS: MANUAL` line decodes to the text of its percentage: `STATUS: MANUAL, P=40` gives `40`. */
  lemma {:induction false} ManualStatusDecode(n: int)
    ensures ManualStatusField(ManualStatusLine(n)) == Some(IntToString(n))
  {
    NumberChars(n);
    assert ManualStatusLine(n) == ManualStatusTag + ", " + ("P=" + IntToString(n));
    TwoFieldsSplit(ManualStatusTag, "P=" + IntToString(n));
    PercentFieldSplit(n);
  }

  /** A line without a `K` holds none of the three `OK:` acknowledgements. */
  lemma {:induction false} NoAcknowledgement(msg: string)
    requires 'K' !in msg
    ensures !Test(AutoModeAck, msg) && !Test(ManualModeAck, msg) && !Test(PercentAck, msg)
  {
    NoCharNoPattern(msg, AutoAckTag, 'K');
    NoCharNoPattern(msg, ManualAckTag, 'K');
    NoCharNoPattern(msg, PercentTag, 'K');
  }

  /** A well-formed `STATUS: AUTO` line whose temperature holds no `K` takes the `STATUS: AUTO` branch. */
  lemma {:induction false} AutoStatusLineKind(temp: string, n: int)
    requires 'K' !in temp
    ensures Classify(AutoStatusLine(temp, n)) == AutoStatus
  {
    var msg := AutoStatusLine(temp, n);
    NumberChars(n);
    NoAcknowledgement(msg);
    assert msg[..|AutoStatusTag|] == AutoStatusTag;
    ClassifyIs(msg, AutoStatus);
  }

  /** A `STATUS: MANUAL` line takes the `STATUS: MANUAL` branch. */
  lemma {:induction false} ManualStatusLineKind(n: int)
    ensures Classify(ManualStatusLine(n)) == ManualStatus
  {
    var msg := ManualStatusLine(n);
    NumberChars(n);
    NoAcknowledgement(msg);
    assert msg[..|ManualStatusTag|] == ManualStatusTag;
    assert msg[..|AutoStatusTag|][8] == 'M';
    ClassifyIs(msg, ManualStatus);
  }
}
