/**
 * The decision logic of `esp32-firmware/src/main.cpp`: the soil-moisture
 * scale, the choice of WiFi network, the handling of the configuration the
 * server returns and the choice of the server to post to.
 */
module FirmwareMain {
  import opened Wrappers
  import opened JsonValue
  import opened MachineInt
  import opened FirmwareConfig
  import opened RtcMemory

  /** `readMoisturePercent()`: `map(raw, 1200, 4000, 0, 150)` then `constrain(…, 0, 150)`. */
  function MoisturePercent(raw: Adc12): (p: int)
    ensures 0 <= p <= 150
  {
    Constrain(ArduinoMap(raw, 1200, 4000, 0, 150), 0, 150)
  }

  /** The raw end points of the scale: `map` sends 1200 and below to at most 0, 4000 and above to at least 150. */
  lemma MapDry(raw: int)
    requires raw <= 1200
    ensures ArduinoMap(raw, 1200, 4000, 0, 150) <= 0
  {
    ArduinoMapMonotone(raw, 1200, 1200, 4000, 0, 150);
    ArduinoMapEnds(1200, 4000, 0, 150);
  }

  lemma MapWet(raw: int)
    requires raw >= 4000
    ensures ArduinoMap(raw, 1200, 4000, 0, 150) >= 150
  {
    ArduinoMapMonotone(4000, raw, 1200, 4000, 0, 150);
    ArduinoMapEnds(1200, 4000, 0, 150);
  }

  /** A dry probe at or below 1200 reads 0 %, and 4000 or more reads the full 150 %. */
  lemma MoistureEnds(raw: Adc12)
    ensures raw <= 1200 ==> MoisturePercent(raw) == 0
    ensures raw >= 4000 ==> MoisturePercent(raw) == 150
  {
    if raw <= 1200 {
      MapDry(raw);
    }
    if raw >= 4000 {
      MapWet(raw);
    }
  }

  /** A wetter reading (a higher raw value here) never gives a lower percentage. */
  lemma MoistureMonotone(raw: Adc12, raw': Adc12)
    requires raw <= raw'
    ensures MoisturePercent(raw) <= MoisturePercent(raw')
  {
    ArduinoMapMonotone(raw, raw', 1200, 4000, 0, 150);
  }

  /** `INITIAL_RSSI` from `config.h`, below any RSSI a scan reports. */
  const InitialRssi: int := -999

  /** One scan result: `WiFi.SSID(j)` and `WiFi.RSSI(j)`. */
  datatype ScanEntry = ScanEntry(ssid: string, rssi: int8)

  predicate Matches(scan: seq<ScanEntry>, known: seq<string>, j: int, i: int)
    requires 0 <= j < |scan| && 0 <= i < |known|
  {
    scan[j].ssid == known[i]
  }

  /** The pair (j, i) comes before (j', i') in the order the nested loops visit them. */
  predicate Before(j: int, i: int, j': int, i': int) {
    j < j' || (j == j' && i < i')
  }

  /** No known network at any scan position visited before (j, i). */
  predicate NoneBefore(scan: seq<ScanEntry>, known: seq<string>, j: int, i: int) {
    forall j', i' :: 0 <= j' < |scan| && 0 <= i' < |known| && Before(j', i', j, i) ==> scan[j'].ssid != known[i']
  }

  /** Every match visited before (j, i) has an RSSI of at most `r`. */
  predicate AtMostBefore(scan: seq<ScanEntry>, known: seq<string>, j: int, i: int, r: int) {
    forall j', i' :: 0 <= j' < |scan| && 0 <= i' < |known| && Before(j', i', j, i) && scan[j'].ssid == known[i']
      ==> scan[j'].rssi <= r
  }

  /** Every match visited before (j, i) has an RSSI below `r`. */
  predicate BelowBefore(scan: seq<ScanEntry>, known: seq<string>, j: int, i: int, r: int) {
    forall j', i' :: 0 <= j' < |scan| && 0 <= i' < |known| && Before(j', i', j, i) && scan[j'].ssid == known[i']
      ==> scan[j'].rssi < r
  }

  predicate NoKnownNetwork(scan: seq<ScanEntry>, known: seq<string>) {
    NoneBefore(scan, known, |scan|, 0)
  }

  /**
   * Known network `i` is the selection: seen at scan entry `j` with an RSSI
   * no match exceeds, and strictly stronger than every match visited before.
   */
  predicate BestAt(scan: seq<ScanEntry>, known: seq<string>, j: int, i: int) {
    && 0 <= j < |scan| && 0 <= i < |known| && scan[j].ssid == known[i]
    && AtMostBefore(scan, known, |scan|, 0, scan[j].rssi)
    && BelowBefore(scan, known, j, i, scan[j].rssi)
  }

  predicate IsBestChoice(scan: seq<ScanEntry>, known: seq<string>, i: int) {
    exists j :: 0 <= j < |scan| && BestAt(scan, known, j, i)
  }

  /** The selection rule picks one network at most: ties go to the earliest match. */
  lemma BestChoiceUnique(scan: seq<ScanEntry>, known: seq<string>, i: int, i': int)
    requires IsBestChoice(scan, known, i) && IsBestChoice(scan, known, i')
    ensures i == i'
  {
    var j :| 0 <= j < |scan| && BestAt(scan, known, j, i);
    var j' :| 0 <= j' < |scan| && BestAt(scan, known, j', i');
    assert Before(j, i, |scan|, 0) && Before(j', i', |scan|, 0);
    var r, r' := scan[j].rssi, scan[j'].rssi;
    assert r' <= r && r <= r';
    assert Before(j, i, j', i') ==> r < r';
    assert Before(j', i', j, i) ==> r' < r;
  }

  /** The nested loops of `connectWiFi` over scan entries and known networks. */
  method SelectBest(scan: seq<ScanEntry>, known: seq<string>) returns (bestIndex: int, bestRssi: int)
    ensures bestIndex == -1 <==> NoKnownNetwork(scan, known)
    ensures bestIndex != -1 ==> 0 <= bestIndex < |known| && IsBestChoice(scan, known, bestIndex)
  {
    bestIndex := -1;
    bestRssi := InitialRssi;
    ghost var bestAt := 0;
    var j := 0;
    while j < |scan|
      invariant 0 <= j <= |scan|
      invariant bestIndex == -1 ==> bestRssi == InitialRssi && NoneBefore(scan, known, j, 0)
      invariant bestIndex != -1 ==> (0 <= bestAt < j && 0 <= bestIndex < |known|
        && scan[bestAt].ssid == known[bestIndex] && scan[bestAt].rssi == bestRssi)
      invariant bestIndex != -1 ==> AtMostBefore(scan, known, j, 0, bestRssi)
      invariant bestIndex != -1 ==> BelowBefore(scan, known, bestAt, bestIndex, bestRssi)
    {
      var i := 0;
      while i < |known|
        invariant 0 <= i <= |known|
        invariant bestIndex == -1 ==> bestRssi == InitialRssi && NoneBefore(scan, known, j, i)
        invariant bestIndex != -1 ==> (0 <= bestAt <= j && 0 <= bestIndex < |known| && Before(bestAt, bestIndex, j, i)
          && scan[bestAt].ssid == known[bestIndex] && scan[bestAt].rssi == bestRssi)
        invariant bestIndex != -1 ==> AtMostBefore(scan, known, j, i, bestRssi)
        invariant bestIndex != -1 ==> BelowBefore(scan, known, bestAt, bestIndex, bestRssi)
      {
        if scan[j].ssid == known[i] && scan[j].rssi > bestRssi {
          bestRssi := scan[j].rssi;
          bestIndex := i;
          bestAt := j;
        }
        i := i + 1;
      }
      j := j + 1;
    }
    if bestIndex != -1 {
      assert BestAt(scan, known, bestAt, bestIndex);
    }
  }

  /**
   * `connectWiFi()`. The radio is an input: whether the device is already
   * connected, whether it woke from deep sleep, the scan results, and the
   * outcome of each `try_connect` (`retryOk` for the remembered network,
   * `joinOk` for the network the scan selects).
   */
  method ConnectWiFi(rtc: Rtc, known: seq<string>, alreadyConnected: bool, wake: bool,
                     scan: seq<ScanEntry>, retryOk: bool, joinOk: bool) returns (connected: bool)
    requires |known| <= 256
    modifies rtc
    ensures rtc.bootCount == old(rtc.bootCount) && rtc.currentZone == old(rtc.currentZone)
    ensures rtc.confirmCount == old(rtc.confirmCount)
    ensures alreadyConnected ==> connected && rtc.scanned == old(rtc.scanned) && rtc.networkIndex == old(rtc.networkIndex)
    ensures (!alreadyConnected && wake && old(rtc.scanned) && old(rtc.networkIndex) < |known| && retryOk) ==>
      (connected && rtc.scanned && rtc.networkIndex == old(rtc.networkIndex))
    ensures (!alreadyConnected && !(wake && old(rtc.scanned) && old(rtc.networkIndex) < |known| && retryOk)) ==>
      (&& (NoKnownNetwork(scan, known) ==>
             (!connected && rtc.networkIndex == old(rtc.networkIndex)
              && rtc.scanned == (old(rtc.scanned) && !(wake && old(rtc.networkIndex) < |known|))))
       && (!NoKnownNetwork(scan, known) ==>
             (connected == joinOk && rtc.scanned && IsBestChoice(scan, known, rtc.networkIndex as int))))
  {
    if alreadyConnected {
      return true;
    }
    if wake && rtc.scanned && rtc.networkIndex as int < |known| {
      if retryOk {
        return true;
      }
      rtc.scanned := false;
    }
    if |scan| == 0 {
      return false;
    }
    var bestIndex, bestRssi := SelectBest(scan, known);
    if bestIndex == -1 {
      return false;
    }
    rtc.networkIndex := bestIndex;
    rtc.scanned := true;
    connected := joinOk;
  }

  /** An empty scan comes back with no known network in it. */
  lemma EmptyScanNoNetwork(known: seq<string>)
    ensures NoKnownNetwork([], known)
  {
  }

  /** The strongest match wins whatever the order of the known list; the known list decides only ties inside one scan entry. */
  lemma StrongerMatchWins(scan: seq<ScanEntry>, known: seq<string>, j: int, i: int, i': int)
    requires IsBestChoice(scan, known, i)
    requires 0 <= j < |scan| && 0 <= i' < |known| && scan[j].ssid == known[i']
    ensures exists j0 :: 0 <= j0 < |scan| && scan[j0].ssid == known[i] && scan[j0].rssi >= scan[j].rssi
  {
    var j0 :| 0 <= j0 < |scan| && BestAt(scan, known, j0, i);
    assert Before(j, i', |scan|, 0);
  }

  // ---------------------------------------------------------------------
  // fetchConfig()

  /** `v[k]` on an ArduinoJson variant: the member when `v` is an object holding `k`, null otherwise. */
  function Member(v: Json, k: string): (r: Json)
    ensures v.JObject? && k in v.fields ==> r == v.fields[k]
    ensures !(v.JObject? && k in v.fields) ==> r == JNull
  {
    if v.JObject? && k in v.fields then v.fields[k] else JNull
  }

  /** `v.as<JsonObject>()`: the members of an object; anything else converts to an empty, null object. */
  function AsObject(v: Json): map<string, Json> {
    if v.JObject? then v.fields else map[]
  }

  /** The payload: the `data` member when it is not null, the document itself otherwise. */
  function Payload(doc: Json): (p: map<string, Json>)
    ensures Member(doc, "data") == JNull ==> p == AsObject(doc)
    ensures Member(doc, "data").JObject? ==> p == Member(doc, "data").fields
    ensures Member(doc, "data") != JNull && !Member(doc, "data").JObject? ==> p == map[]
  {
    var d := Member(doc, "data");
    if d.JNull? then AsObject(doc) else AsObject(d)
  }

  /** `is<uint32_t>()`: an integer that fits in 32 unsigned bits. */
  predicate IsU32(v: Json) {
    v.JInt? && 0 <= v.i < TWO_32
  }

  function Field(p: map<string, Json>, k: string): Json {
    if k in p then p[k] else JNull
  }

  /** The seconds the payload asks for: `sleep`, else `polling_interval` (read as ms above 6000), else the current value. */
  function CandidateSec(p: map<string, Json>, current: uint32): (s: uint32)
    ensures IsU32(Field(p, "sleep")) ==> s == Field(p, "sleep").i
    ensures !IsU32(Field(p, "sleep")) && IsU32(Field(p, "polling_interval")) ==>
      (var v := Field(p, "polling_interval").i; s == if v > 6000 then v / 1000 else v)
    ensures !IsU32(Field(p, "sleep")) && !IsU32(Field(p, "polling_interval")) ==> s == current
  {
    if IsU32(Field(p, "sleep")) then Field(p, "sleep").i
    else if IsU32(Field(p, "polling_interval")) then
      var v: uint32 := Field(p, "polling_interval").i;
      if v > 6000 then v / 1000 else v
    else current
  }

  function CandidateVer(p: map<string, Json>, current: uint32): (v: uint32)
    ensures IsU32(Field(p, "config_version")) ==> v == Field(p, "config_version").i
    ensures !IsU32(Field(p, "config_version")) ==> v == current
  {
    if IsU32(Field(p, "config_version")) then Field(p, "config_version").i else current
  }

  /** What `fetchConfig` does with a response: give up (false), keep the running config (true), or apply and persist one (true). */
  datatype ConfigDecision = Rejected | Unchanged | Apply(sec: uint32, ver: uint32)

  /**
   * The decision for a response, given whether WiFi is up, the HTTP code
   * (negative for a transport error) and the document (`None` when it does
   * not deserialise), against the running `sleep_sec` and `cfg_version`.
   */
  function Decide(connected: bool, code: int, doc: Option<Json>, sec: uint32, ver: uint32): (d: ConfigDecision)
    ensures !connected || code != 200 || doc.None? ==> d == Rejected
    ensures d.Apply? ==> ValidSecs(d.sec)
    ensures d.Apply? ==> d.sec != sec || d.ver != ver
  {
    if !connected || code < 0 || code != 200 || doc.None? then Rejected
    else
      var p := Payload(doc.value);
      var newSec := CandidateSec(p, sec);
      var newVer := CandidateVer(p, ver);
      if !ValidSecs(newSec) then Rejected
      else if !(newSec != sec || newVer > ver) then Unchanged
      else Apply(newSec, if newVer != 0 then newVer else Wrap32(ver + 1))
  }

  /**
   * `fetchConfig()` over the config globals and their NVS namespace. What it
   * does with a parsed document is what `Decide` specifies.
   */
  method FetchConfig(store: ConfigStore, connected: bool, code: int, doc: Option<Json>) returns (ok: bool)
    modifies store
    ensures ok <==> !Decide(connected, code, doc, old(store.sleepSec), old(store.cfgVersion)).Rejected?
    ensures (var d := Decide(connected, code, doc, old(store.sleepSec), old(store.cfgVersion));
      && (d.Apply? ==>
            (store.nvs == old(store.nvs)[KeySleepSec := d.sec][KeyCfgVer := d.ver]
             && store.sleepSec == d.sec && store.sleepMs == SecToMs(d.sec) && store.cfgVersion == d.ver))
      && (!d.Apply? ==>
            (store.nvs == old(store.nvs) && store.sleepSec == old(store.sleepSec)
             && store.sleepMs == old(store.sleepMs) && store.cfgVersion == old(store.cfgVersion))))
  {
    if !connected {
      return false;
    }
    if code < 0 {
      return false;
    }
    if code != 200 {
      return false;
    }
    if doc.None? {
      return false;
    }
    var payload := Payload(doc.value);
    var newSec := store.sleepSec;
    if IsU32(Field(payload, "sleep")) {
      newSec := Field(payload, "sleep").i;
    } else if IsU32(Field(payload, "polling_interval")) {
      var v: uint32 := Field(payload, "polling_interval").i;
      if v > 6000 {
        v := v / 1000;
      }
      newSec := v;
    }
    if !(newSec >= 1 && newSec <= 6000) {
      return false;
    }
    var newVer := if IsU32(Field(payload, "config_version")) then Field(payload, "config_version").i else store.cfgVersion;
    var changed := newSec != store.sleepSec || newVer > store.cfgVersion;
    if !changed {
      return true;
    }
    var ver := if newVer != 0 then newVer else Wrap32(store.cfgVersion + 1);
    store.SaveToNVS(newSec, ver);
    ok := true;
  }

  /** Fetching the same response again after it was applied changes nothing. */
  lemma FetchIdempotent(code: int, doc: Option<Json>, sec: uint32, ver: uint32)
    requires Decide(true, code, doc, sec, ver).Apply?
    ensures (var d := Decide(true, code, doc, sec, ver); Decide(true, code, doc, d.sec, d.ver) == Unchanged)
  {
  }

  /** `sleep` takes precedence over `polling_interval` whenever it is a valid unsigned integer. */
  lemma SleepPrecedence(p: map<string, Json>, current: uint32, s: uint32, ms: uint32)
    ensures CandidateSec(p["sleep" := JInt(s)]["polling_interval" := JInt(ms)], current) == s
  {
    assert Field(p["sleep" := JInt(s)]["polling_interval" := JInt(ms)], "sleep") == JInt(s);
  }

  /** A legacy `polling_interval` in milliseconds is read as seconds: 300000 ms gives 300 s and 6000 stays 6000 s. */
  lemma PollingBackCompat(current: uint32)
    ensures CandidateSec(map["polling_interval" := JInt(300000)], current) == 300
    ensures CandidateSec(map["polling_interval" := JInt(6000)], current) == 6000
    ensures CandidateSec(map["polling_interval" := JInt(6001)], current) == 6
  {
    assert Field(map["polling_interval" := JInt(300000)], "sleep") == JNull;
    assert Field(map["polling_interval" := JInt(6000)], "sleep") == JNull;
    assert Field(map["polling_interval" := JInt(6001)], "sleep") == JNull;
  }

  /**
   * The version alone leads to an update only when it is newer; with an
   * unchanged sleep period, a lower version is ignored, but a new sleep
   * period is applied together with whatever version came with it.
   */
  lemma VersionRules(doc: Json, sec: uint32, ver: uint32)
    requires CandidateSec(Payload(doc), sec) == sec && ValidSecs(sec)
    ensures CandidateVer(Payload(doc), ver) <= ver ==> Decide(true, 200, Some(doc), sec, ver) == Unchanged
    ensures CandidateVer(Payload(doc), ver) > ver ==>
      Decide(true, 200, Some(doc), sec, ver) == Apply(sec, CandidateVer(Payload(doc), ver))
  {
  }

  /** A document with no usable key keeps the running configuration. */
  lemma EmptyPayloadUnchanged(sec: uint32, ver: uint32)
    requires ValidSecs(sec)
    ensures Decide(true, 200, Some(JObject(map[])), sec, ver) == Unchanged
  {
    assert Payload(JObject(map[])) == map[];
  }

  /** A zero `config_version` bumps the running version by one, modulo 2^32. */
  lemma ZeroVersionBumps(sec: uint32, ver: uint32, s: uint32)
    requires ValidSecs(s) && s != sec
    ensures Decide(true, 200, Some(JObject(map["sleep" := JInt(s), "config_version" := JInt(0)])), sec, ver)
      == Apply(s, Wrap32(ver + 1))
  {
    var p := map["sleep" := JInt(s), "config_version" := JInt(0)];
    assert Payload(JObject(p)) == p;
  }

  // ---------------------------------------------------------------------
  // sensorTask(): the server to post to

  const ServerUrl1: string := "http://<SERVER-IP>:8000/api/sensor"
  const ServerUrl2: string := "http://<SERVER-IP>:8000/api/sensor"

  /** The URL chosen by the joined SSID; `ssid1` and `ssid2` are `SSID1` and `SSID2` from the secrets header. */
  function ServerUrlFor(ssid: string, ssid1: string, ssid2: string): (url: Option<string>)
    ensures url.Some? <==> ssid == ssid1 || ssid == ssid2
    ensures ssid == ssid1 ==> url == Some(ServerUrl1)
    ensures ssid != ssid1 && ssid == ssid2 ==> url == Some(ServerUrl2)
  {
    if ssid == ssid1 then Some(ServerUrl1)
    else if ssid == ssid2 then Some(ServerUrl2)
    else None
  }

  /** The network `connectWiFi` selects always has a server to post to. */
  lemma SelectedNetworkHasServer(scan: seq<ScanEntry>, ssid1: string, ssid2: string, i: int)
    requires IsBestChoice(scan, [ssid1, ssid2], i)
    ensures ServerUrlFor([ssid1, ssid2][i], ssid1, ssid2).Some?
  {
  }
}
