/**
 * `esp32-firmware/variants/opt3001.cpp`, the always-on OPT3001 variant:
 * its moisture scale, the `millis()` polling check of the sensor task, the
 * WiFi join, the join with configured credentials, and the keys copied
 * from the configuration document.
 */
module Opt3001 {
  import opened Wrappers
  import opened JsonValue
  import opened MachineInt
  import DeepSleep

  // ---------------------------------------------------------------------
  // readMoisturePercent()

  /** `map(raw, 1200, 4000, 0, 100)` then `constrain(…, 0, 150)`. */
  function MoisturePercent(raw: Adc12): (p: int)
    ensures 0 <= p <= 150
  {
    Constrain(ArduinoMap(raw, 1200, 4000, 0, 100), 0, 150)
  }

  lemma MapDry(raw: int)
    requires raw <= 1200
    ensures ArduinoMap(raw, 1200, 4000, 0, 100) <= 0
  {
    ArduinoMapMonotone(raw, 1200, 1200, 4000, 0, 100);
    ArduinoMapEnds(1200, 4000, 0, 100);
  }

  lemma MapTop(raw: int)
    requires raw <= 4095
    ensures ArduinoMap(raw, 1200, 4000, 0, 100) <= 103
  {
    ArduinoMapMonotone(raw, 4095, 1200, 4000, 0, 100);
    assert ArduinoMap(4095, 1200, 4000, 0, 100) == 289500 / 2800;
  }

  lemma MapFull()
    ensures ArduinoMap(4000, 1200, 4000, 0, 100) == 100
  {
    ArduinoMapEnds(1200, 4000, 0, 100);
  }

  /** A probe at or below 1200 reads 0 %, and 4000 reads 100 %. */
  lemma MoistureEnds(raw: Adc12)
    ensures raw <= 1200 ==> MoisturePercent(raw) == 0
    ensures MoisturePercent(4000) == 100
  {
    if raw <= 1200 {
      MapDry(raw);
    }
    MapFull();
  }

  /** No 12-bit reading gets above 103 %, so the 150 % cap is never reached. */
  lemma MoistureCeiling(raw: Adc12)
    ensures MoisturePercent(raw) <= 103
    ensures MoisturePercent(4095) == 103
  {
    MapTop(raw);
    assert ArduinoMap(4095, 1200, 4000, 0, 100) == 289500 / 2800;
  }

  lemma MoistureMonotone(raw: Adc12, raw': Adc12)
    requires raw <= raw'
    ensures MoisturePercent(raw) <= MoisturePercent(raw')
  {
    ArduinoMapMonotone(raw, raw', 1200, 4000, 0, 100);
  }

  // ---------------------------------------------------------------------
  // connectWiFi() and connectConfig()

  /** `connectWiFi()`: no scan result gives false; otherwise the first join in priority order. */
  method ConnectWiFi(known: seq<string>, scan: seq<string>, joins: DeepSleep.Attempt -> bool) returns (connected: bool)
    ensures |scan| == 0 ==> !connected
    ensures connected <==> exists n, e :: (0 <= n < |known| && 0 <= e < |scan|
      && DeepSleep.Succeeds(known, scan, joins, DeepSleep.Attempt(n, e)))
  {
    if |scan| == 0 {
      return false;
    }
    connected := DeepSleep.ConnectWiFi(known, scan, joins);
  }

  /**
   * `connectConfig(ssid, password)`: `begun` says whether `WiFi.begin` was
   * called; a null pointer is `None`. `joinOk` is the radio's outcome.
   */
  method ConnectConfig(ssid: Option<string>, password: Option<string>, joinOk: bool)
    returns (connected: bool, begun: bool)
    ensures begun <==> ssid.Some? && password.Some? && ssid.value != "" && password.value != ""
    ensures connected <==> begun && joinOk
  {
    if ssid.None? || password.None? || |ssid.value| == 0 || |password.value| == 0 {
      return false, false;
    }
    begun := true;
    connected := joinOk;
  }

  // ---------------------------------------------------------------------
  // fetchConfig() and configTask()

  /** ArduinoJson's conversions of a variant to `unsigned long`, `int` and `String`, which are library code. */
  datatype Conversions = Conversions(toULong: Json -> uint32, toInt: Json -> int32, toStr: Json -> string)

  /** `doc.containsKey(k)`: the document is an object holding `k`. */
  predicate HasKey(doc: Json, k: string) {
    doc.JObject? && k in doc.fields
  }

  /** The settings `fetchConfig` may overwrite. */
  datatype Settings = Settings(pollingInterval: uint32, ssid: string, password: string, mqttBroker: string, mqttPort: int32)

  /** The globals' initial values. */
  const InitialSettings: Settings := Settings(10000, "", "", "", 1883)

  /** The key copying of a parsed document. */
  function Applied(s: Settings, doc: Json, conv: Conversions): (r: Settings)
    ensures HasKey(doc, "polling_rate") ==> r.pollingInterval == conv.toULong(doc.fields["polling_rate"])
    ensures !HasKey(doc, "polling_rate") ==> r.pollingInterval == s.pollingInterval
    ensures HasKey(doc, "ssid") && HasKey(doc, "password") ==>
      (r.ssid == conv.toStr(doc.fields["ssid"]) && r.password == conv.toStr(doc.fields["password"]))
    ensures !(HasKey(doc, "ssid") && HasKey(doc, "password")) ==> r.ssid == s.ssid && r.password == s.password
    ensures HasKey(doc, "mqtt_broker") ==> r.mqttBroker == conv.toStr(doc.fields["mqtt_broker"])
    ensures !HasKey(doc, "mqtt_broker") ==> r.mqttBroker == s.mqttBroker
    ensures HasKey(doc, "mqtt_port") ==> r.mqttPort == conv.toInt(doc.fields["mqtt_port"])
    ensures !HasKey(doc, "mqtt_port") ==> r.mqttPort == s.mqttPort
  {
    var s1 := if HasKey(doc, "polling_rate") then s.(pollingInterval := conv.toULong(doc.fields["polling_rate"])) else s;
    var s2 := if HasKey(doc, "ssid") && HasKey(doc, "password")
      then s1.(ssid := conv.toStr(doc.fields["ssid"]), password := conv.toStr(doc.fields["password"]))
      else s1;
    var s3 := if HasKey(doc, "mqtt_broker") then s2.(mqttBroker := conv.toStr(doc.fields["mqtt_broker"])) else s2;
    if HasKey(doc, "mqtt_port") then s3.(mqttPort := conv.toInt(doc.fields["mqtt_port"])) else s3
  }

  /** Copying the same document twice is copying it once. */
  lemma AppliedIdempotent(s: Settings, doc: Json, conv: Conversions)
    ensures Applied(Applied(s, doc, conv), doc, conv) == Applied(s, doc, conv)
  {
  }

  /** A lone `ssid` or a lone `password` is ignored: the credentials only ever change as a pair. */
  lemma CredentialsTogether(s: Settings, doc: Json, conv: Conversions)
    ensures Applied(s, doc, conv).ssid != s.ssid ==> HasKey(doc, "ssid") && HasKey(doc, "password")
    ensures Applied(s, doc, conv).password != s.password ==> HasKey(doc, "ssid") && HasKey(doc, "password")
  {
  }

  /** A document that is not an object copies nothing. */
  lemma NonObjectCopiesNothing(s: Settings, doc: Json, conv: Conversions)
    requires !doc.JObject?
    ensures Applied(s, doc, conv) == s
  {
  }

  /** The globals of the variant that the tasks share. */
  class Device {
    var pollingInterval: uint32
    var lastUpdate: uint32
    var configSsid: string
    var configPassword: string
    var mqttBroker: string
    var mqttPort: int32

    function Current(): Settings
      reads this
    {
      Settings(pollingInterval, configSsid, configPassword, mqttBroker, mqttPort)
    }

    /** The initialisers: `lastUpdate = -pollingInterval` is computed in 32-bit `unsigned long`. */
    constructor ()
      ensures Current() == InitialSettings
      ensures lastUpdate == Wrap32(-10000)
    {
      pollingInterval := 10000;
      lastUpdate := Wrap32(-10000);
      configSsid := "";
      configPassword := "";
      mqttBroker := "";
      mqttPort := 1883;
    }

    method Set(s: Settings)
      modifies this
      ensures Current() == s && lastUpdate == old(lastUpdate)
    {
      pollingInterval := s.pollingInterval;
      configSsid := s.ssid;
      configPassword := s.password;
      mqttBroker := s.mqttBroker;
      mqttPort := s.mqttPort;
    }

    /** `fetchConfig()`: true and the keys copied for a 200 whose body parses; false and nothing changed otherwise. */
    method FetchConfig(code: int, doc: Option<Json>, conv: Conversions) returns (ok: bool)
      modifies this
      ensures ok <==> code == 200 && doc.Some?
      ensures ok ==> Current() == Applied(old(Current()), doc.value, conv)
      ensures !ok ==> Current() == old(Current())
      ensures lastUpdate == old(lastUpdate)
    {
      if code != 200 {
        return false;
      }
      if doc.None? {
        return false;
      }
      var d := doc.value;
      if HasKey(d, "polling_rate") {
        pollingInterval := conv.toULong(d.fields["polling_rate"]);
      }
      if HasKey(d, "ssid") && HasKey(d, "password") {
        configSsid := conv.toStr(d.fields["ssid"]);
        configPassword := conv.toStr(d.fields["password"]);
      }
      if HasKey(d, "mqtt_broker") {
        mqttBroker := conv.toStr(d.fields["mqtt_broker"]);
      }
      if HasKey(d, "mqtt_port") {
        mqttPort := conv.toInt(d.fields["mqtt_port"]);
      }
      ok := true;
    }

    /** One round of `configTask`: only `polling_rate` is taken from the document. */
    method ConfigTaskRound(code: int, doc: Option<Json>, conv: Conversions)
      modifies this
      ensures (code == 200 && doc.Some? && HasKey(doc.value, "polling_rate")) ==>
        Current() == old(Current()).(pollingInterval := conv.toULong(doc.value.fields["polling_rate"]))
      ensures !(code == 200 && doc.Some? && HasKey(doc.value, "polling_rate")) ==> Current() == old(Current())
      ensures lastUpdate == old(lastUpdate)
    {
      if code == 200 && doc.Some? && HasKey(doc.value, "polling_rate") {
        pollingInterval := conv.toULong(doc.value.fields["polling_rate"]);
      }
    }

    /**
     * One round of `sensorTask` at `millis()` = `now`, joined to `ssid`:
     * `Idle` when no reading is due, `Skipped` when the SSID has no server,
     * otherwise the URL the reading is posted to.
     */
    method SensorTaskRound(now: uint32, ssid: string) returns (r: TaskRound)
      modifies this
      ensures r.Idle? <==> !Due(now, old(lastUpdate), old(pollingInterval))
      ensures r.Idle? ==> lastUpdate == old(lastUpdate)
      ensures !r.Idle? ==> lastUpdate == now
      ensures !r.Idle? ==> (r.Skipped? <==> ssid != Ssid1 && ssid != Ssid2)
      ensures r == Post(ServerUrl1) <==> !r.Idle? && ssid == Ssid1
      ensures r == Post(ServerUrl2) <==> !r.Idle? && ssid != Ssid1 && ssid == Ssid2
      ensures Current() == old(Current())
    {
      if !(Wrap32(now - lastUpdate) >= pollingInterval) {
        return Idle;
      }
      lastUpdate := now;
      if ssid == Ssid1 {
        r := Post(ServerUrl1);
      } else if ssid == Ssid2 {
        r := Post(ServerUrl2);
      } else {
        r := Skipped;
      }
    }
  }

  // ---------------------------------------------------------------------
  // sensorTask()

  const Ssid1: string := "<SSID1>"
  const Ssid2: string := "<SSID2>"
  const ServerUrl1: string := "http://<IP_ADDRESS1>:8000/api/sensor"
  const ServerUrl2: string := "http://<IP_ADDRESS2>:8000/api/sensor"

  datatype TaskRound = Idle | Skipped | Post(url: string)

  /** `now - lastUpdate` in `unsigned long`, the milliseconds since the last reading. */
  function Elapsed(now: uint32, last: uint32): (d: uint32)
    ensures last <= now ==> d == now - last
    ensures now < last ==> d == now - last + TWO_32
  {
    Wrap32(now - last)
  }

  predicate Due(now: uint32, last: uint32, interval: uint32) {
    Elapsed(now, last) >= interval
  }

  /** The elapsed time survives the `millis()` wrap after about 49.7 days. */
  lemma ElapsedAcrossWrap(last: uint32, d: uint32)
    ensures Elapsed(Wrap32(last + d), last) == d
  {
    if last + d < TWO_32 {
      assert Wrap32(last + d) == last + d;
    } else {
      assert Wrap32(last + d) == last + d - TWO_32;
    }
  }

  /** `lastUpdate = -pollingInterval` makes the first check fire at boot, before `millis()` first wraps. */
  lemma FirstCheckFires(interval: uint32, now: uint32)
    requires now + interval < TWO_32
    ensures Due(now, Wrap32(-(interval as int)), interval)
  {
    if interval > 0 {
      assert Wrap32(-(interval as int)) == TWO_32 - interval;
    }
  }

  /** A reading is due again exactly `interval` milliseconds after the last one. */
  lemma DueAfterInterval(last: uint32, interval: uint32, d: uint32)
    ensures Due(Wrap32(last + d), last, interval) <==> d >= interval
  {
    ElapsedAcrossWrap(last, d);
  }
}
