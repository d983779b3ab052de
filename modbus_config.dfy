/**
 * The start-up settings of the Modbus monitor: the device addresses, the
 * TCP port, the polling interval and the key written to each device before
 * it is read. They come from the `[Modbus]` and `[Security]` sections of
 * `config.ini`; when a section or key is missing, a number does not read
 * as an integer or the file cannot be parsed, all four fall back together
 * to the built-in defaults.
 */
module ModbusConfig {
  import opened Strings

  /** The four settings the poll cycle uses. */
  datatype Config = Config(ips: seq<string>, port: int, intervalMs: int, secretKey: int)

  /** The one device address used when the file does not provide the settings. */
  const DefaultIp := "192.168.220.179"

  /** The settings used when the file does not provide all of them. */
  const DefaultConfig := Config([DefaultIp], 502, 2000, 12345)

  /** What the INI parser holds after reading the file: section name to key to value. */
  type Ini = map<string, map<string, string>>

  /** `config[section][key]`, or nothing where either lookup raises `KeyError`. */
  function Lookup(ini: Ini, section: string, key: string): Option<string> {
    if section in ini && key in ini[section] then Some(ini[section][key]) else None
  }

  /** `[ip.strip() for ip in raw.split(',')]` */
  function SplitIps(raw: string): (ips: seq<string>)
    ensures |ips| >= 1
  {
    var pieces := Split(raw, ",");
    seq(|pieces|, i requires 0 <= i < |pieces| => Strip(pieces[i]))
  }

  /**
   * The module-level settings. `parsed` is None when reading the file
   * itself raised; a missing file reads as an empty INI. The address list is
   * taken first, then the three numbers are converted in order; any failure
   * on the way discards what was already read and installs the defaults.
   */
  function LoadConfig(parsed: Option<Ini>): Config {
    if parsed.None? then DefaultConfig
    else
      var ini := parsed.value;
      var ips := Lookup(ini, "Modbus", "slave_ips");
      var port := Lookup(ini, "Modbus", "modbus_port");
      var interval := Lookup(ini, "Modbus", "polling_interval_ms");
      var key := Lookup(ini, "Security", "secret_key");
      if ips.None? || port.None? || interval.None? || key.None? then DefaultConfig
      else
        var p := ParseInt(port.value);
        var t := ParseInt(interval.value);
        var k := ParseInt(key.value);
        if p.None? || t.None? || k.None? then DefaultConfig
        else Config(SplitIps(ips.value), p.value, t.value, k.value)
  }

  /** A text without surrounding whitespace. */
  predicate Trimmed(s: string) {
    s == [] || (!IsSpace(s[0]) && !IsSpace(s[|s| - 1]))
  }

  /** Stripping only removes characters, so a character absent from `s` is absent from `strip(s)`. */
  lemma {:induction false} StripKeepsOut(s: string, c: char)
    requires c !in s
    ensures c !in Strip(s)
  {
    StripSpec(s);
    var r := Strip(s);
    var i: nat :| OccursAt(s, r, i);
    forall k | 0 <= k < |r| ensures r[k] != c {
      assert r[k] == s[i..i + |r|][k] == s[i + k];
    }
  }

  /** Every configured address is trimmed and holds no comma, and there is at least one. */
  lemma {:induction false} SplitIpsClean(raw: string)
    ensures |SplitIps(raw)| >= 1
    ensures forall k :: 0 <= k < |SplitIps(raw)| ==> Trimmed(SplitIps(raw)[k]) && ',' !in SplitIps(raw)[k]
  {
    var pieces := Split(raw, ",");
    SplitSpec(raw, ",");
    forall k | 0 <= k < |pieces|
      ensures Trimmed(SplitIps(raw)[k]) && ',' !in SplitIps(raw)[k]
    {
      StripSpec(pieces[k]);
      NoCharNoOccurrence(pieces[k], ',');
      StripKeepsOut(pieces[k], ',');
    }
  }

  /** Writing trimmed, comma-free addresses joined by commas reads them back unchanged. */
  lemma {:induction false} SplitIpsJoin(ips: seq<string>)
    requires |ips| >= 1
    requires forall k :: 0 <= k < |ips| ==> Trimmed(ips[k]) && ',' !in ips[k]
    ensures SplitIps(Join(ips, ",")) == ips
  {
    SplitJoin(ips, ',');
    forall k | 0 <= k < |ips| ensures Strip(ips[k]) == ips[k] {
      StripUnchanged(ips[k]);
    }
  }

  /**
   * All-or-nothing defaults: an unreadable file, a missing key or a number
   * that is not an integer yields exactly the default settings; otherwise
   * every setting comes from the file.
   */
  lemma {:induction false} LoadConfigCases(parsed: Option<Ini>)
    ensures var c := LoadConfig(parsed);
            (|| parsed.None?
             || Lookup(parsed.value, "Modbus", "slave_ips").None?
             || Lookup(parsed.value, "Modbus", "modbus_port").None?
             || Lookup(parsed.value, "Modbus", "polling_interval_ms").None?
             || Lookup(parsed.value, "Security", "secret_key").None?) ==> c == DefaultConfig
    ensures var c := LoadConfig(parsed);
            parsed.Some? ==>
              var ini := parsed.value;
              Lookup(ini, "Modbus", "slave_ips").Some?
              && Lookup(ini, "Modbus", "modbus_port").Some?
              && Lookup(ini, "Modbus", "polling_interval_ms").Some?
              && Lookup(ini, "Security", "secret_key").Some? ==>
                var p := ParseInt(Lookup(ini, "Modbus", "modbus_port").value);
                var t := ParseInt(Lookup(ini, "Modbus", "polling_interval_ms").value);
                var k := ParseInt(Lookup(ini, "Security", "secret_key").value);
                if p.Some? && t.Some? && k.Some? then
                  c == Config(SplitIps(Lookup(ini, "Modbus", "slave_ips").value), p.value, t.value, k.value)
                else c == DefaultConfig
  {
  }

  /** Every address the monitor will poll is trimmed and comma-free, and there is at least one. */
  lemma {:induction false} LoadConfigIps(parsed: Option<Ini>)
    ensures var ips := LoadConfig(parsed).ips;
            |ips| >= 1 && forall k :: 0 <= k < |ips| ==> Trimmed(ips[k]) && ',' !in ips[k]
  {
    var c := LoadConfig(parsed);
    LoadConfigCases(parsed);
    if c == DefaultConfig {
      assert Trimmed(DefaultIp) && ',' !in DefaultIp;
    } else {
      SplitIpsClean(Lookup(parsed.value, "Modbus", "slave_ips").value);
    }
  }

  /** A `config.ini` written from settings: the addresses joined by commas, the numbers in decimal. */
  function Render(c: Config): Ini {
    map["Modbus" := map["slave_ips" := Join(c.ips, ","),
                        "modbus_port" := IntToString(c.port),
                        "polling_interval_ms" := IntToString(c.intervalMs)],
        "Security" := map["secret_key" := IntToString(c.secretKey)]]
  }

  /** Reading back a rendered file gives the same settings, for any addresses the reader can represent. */
  lemma {:induction false} LoadRenderRoundTrip(c: Config)
    requires |c.ips| >= 1
    requires forall k :: 0 <= k < |c.ips| ==> Trimmed(c.ips[k]) && ',' !in c.ips[k]
    ensures LoadConfig(Some(Render(c))) == c
  {
    var ini := Render(c);
    assert Lookup(ini, "Modbus", "slave_ips") == Some(Join(c.ips, ","));
    assert Lookup(ini, "Modbus", "modbus_port") == Some(IntToString(c.port));
    assert Lookup(ini, "Modbus", "polling_interval_ms") == Some(IntToString(c.intervalMs));
    assert Lookup(ini, "Security", "secret_key") == Some(IntToString(c.secretKey));
    IntToStringRoundTrip(c.port);
    IntToStringRoundTrip(c.intervalMs);
    IntToStringRoundTrip(c.secretKey);
    SplitIpsJoin(c.ips);
  }
}
