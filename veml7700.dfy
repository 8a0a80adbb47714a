/**
 * `esp32-firmware/src/VEML7700_Enhanced.h`: a controller that moves the
 * VEML7700 light sensor between four gain/integration-time zones according
 * to the light level. The register codes are those of the Adafruit VEML7700
 * driver; the driver itself is not part of this model.
 */
module Veml7700 {
  import opened MachineInt
  import opened RtcMemory

  const ZoneVeryDim: uint8 := 0
  const ZoneDim: uint8 := 1
  const ZoneBright: uint8 := 2
  const ZoneVeryBright: uint8 := 3
  const ZoneCount: uint8 := 4

  /** Driver gain codes. */
  const Gain1: uint8 := 0x00
  const Gain2: uint8 := 0x01
  const Gain1_8: uint8 := 0x02
  const Gain1_4: uint8 := 0x03

  /** Driver integration-time codes. */
  const It100: uint8 := 0x00
  const It200: uint8 := 0x01
  const It400: uint8 := 0x02
  const It800: uint8 := 0x03
  const It50: uint8 := 0x08
  const It25: uint8 := 0x0C

  const ThVeryBright: real := 25000.0
  const ThBright: real := 5000.0
  const ThDim: real := 1500.0

  /** `pickZone_`: thresholds checked from the brightest down. */
  function PickZone(lux: real): (z: uint8)
    ensures z < ZoneCount
    ensures z == ZoneVeryBright <==> lux >= ThVeryBright
    ensures z == ZoneBright <==> ThBright <= lux < ThVeryBright
    ensures z == ZoneDim <==> ThDim <= lux < ThBright
    ensures z == ZoneVeryDim <==> lux < ThDim
  {
    if lux >= ThVeryBright then ZoneVeryBright
    else if lux >= ThBright then ZoneBright
    else if lux >= ThDim then ZoneDim
    else ZoneVeryDim
  }

  /** More light never selects a dimmer zone. */
  lemma PickZoneMonotone(lux: real, lux': real)
    requires lux <= lux'
    ensures PickZone(lux) <= PickZone(lux')
  {
  }

  /** `itToMs_`: the integration time in ms of a code, 100 for an unknown code. */
  function ItToMs(it: uint8): (ms: int)
    ensures it == It25 ==> ms == 25
    ensures it == It50 ==> ms == 50
    ensures it == It100 ==> ms == 100
    ensures it == It200 ==> ms == 200
    ensures it == It400 ==> ms == 400
    ensures it == It800 ==> ms == 800
    ensures it !in {It25, It50, It100, It200, It400, It800} ==> ms == 100
  {
    if it == It25 then 25
    else if it == It50 then 50
    else if it == It100 then 100
    else if it == It200 then 200
    else if it == It400 then 400
    else if it == It800 then 800
    else 100
  }

  datatype Settings = Settings(gain: uint8, it: uint8)

  /** The per-zone table of `applyZone_`. */
  function ZoneSettings(z: uint8): (s: Settings)
    ensures z == ZoneVeryBright ==> s == Settings(Gain1_8, It25)
    ensures z == ZoneBright ==> s == Settings(Gain1_4, It50)
    ensures z == ZoneDim ==> s == Settings(Gain1, It200)
    ensures z == ZoneVeryDim ==> s == Settings(Gain2, It400)
    ensures z >= ZoneCount ==> s == Settings(Gain1, It100)
  {
    if z == ZoneVeryBright then Settings(Gain1_8, It25)
    else if z == ZoneBright then Settings(Gain1_4, It50)
    else if z == ZoneDim then Settings(Gain1, It200)
    else if z == ZoneVeryDim then Settings(Gain2, It400)
    else Settings(Gain1, It100)
  }

  /** Brighter zones integrate for a shorter time: 400, 200, 50 and 25 ms from dimmest to brightest. */
  lemma ZoneTimes()
    ensures ItToMs(ZoneSettings(ZoneVeryDim).it) == 400 && ItToMs(ZoneSettings(ZoneDim).it) == 200
    ensures ItToMs(ZoneSettings(ZoneBright).it) == 50 && ItToMs(ZoneSettings(ZoneVeryBright).it) == 25
    ensures forall z: uint8 :: z >= ZoneCount ==> ItToMs(ZoneSettings(z).it) == 100
    ensures forall z: uint8, z': uint8 :: z < z' < ZoneCount ==> ItToMs(ZoneSettings(z').it) < ItToMs(ZoneSettings(z).it)
  {
  }

  /** The sensor as the controller sees it: its settings and the lux readings it will return, in order. */
  class LuxSensor {
    var settings: Settings
    const readings: nat -> real
    var next: nat

    constructor (settings: Settings, readings: nat -> real)
      ensures this.settings == settings && this.readings == readings && next == 0
    {
      this.settings := settings;
      this.readings := readings;
      next := 0;
    }

    /** `readLux()`: the next reading. */
    method ReadLux() returns (lux: real)
      modifies this
      ensures lux == readings(old(next)) && next == old(next) + 1 && settings == old(settings)
    {
      lux := readings(next);
      next := next + 1;
    }
  }

  /** The mean of three readings from `at` on, as `averageLux_` takes it. */
  function Average3(readings: nat -> real, at: nat): real {
    (readings(at) + readings(at + 1) + readings(at + 2)) / 3.0
  }

  class Veml7700Enhanced {
    const sensor: LuxSensor
    var currentZone: uint8
    var lastLux: real

    /** Construction starts in the brightest zone with no reading. */
    constructor (sensor: LuxSensor)
      ensures this.sensor == sensor && currentZone == ZoneVeryBright && lastLux == 0.0
    {
      this.sensor := sensor;
      currentZone := ZoneVeryBright;
      lastLux := 0.0;
    }

    method AverageLux() returns (avg: real)
      modifies sensor
      ensures avg == Average3(sensor.readings, old(sensor.next))
      ensures sensor.next == old(sensor.next) + 3 && sensor.settings == old(sensor.settings)
    {
      var s := 0.0;
      var a := sensor.ReadLux();
      var b := sensor.ReadLux();
      var c := sensor.ReadLux();
      s := a + b + c;
      avg := s / 3.0;
    }

    /**
     * `applyZone_(z, force)`: unless it is a no-op (not forced and already in
     * `z`), program the zone's settings and discard one reading.
     */
    method ApplyZone(z: uint8, force: bool)
      modifies sensor
      ensures !force && z == currentZone ==> sensor.settings == old(sensor.settings) && sensor.next == old(sensor.next)
      ensures force || z != currentZone ==> sensor.settings == ZoneSettings(z) && sensor.next == old(sensor.next) + 1
    {
      if !force && z == currentZone {
        return;
      }
      sensor.settings := ZoneSettings(z);
      var discarded := sensor.ReadLux();
    }

    /** `begin()`: always programs the zone the light calls for and resets the RTC zone state. */
    method Begin(rtc: Rtc) returns (ok: bool)
      modifies this, sensor, rtc
      ensures ok
      ensures currentZone == PickZone(Average3(sensor.readings, old(sensor.next)))
      ensures sensor.settings == ZoneSettings(currentZone)
      ensures rtc.currentZone == currentZone as int && rtc.confirmCount == 0
      ensures rtc.bootCount == old(rtc.bootCount) && rtc.scanned == old(rtc.scanned) && rtc.networkIndex == old(rtc.networkIndex)
      ensures lastLux == sensor.readings(old(sensor.next) + 4) && sensor.next == old(sensor.next) + 5
    {
      var lux := AverageLux();
      var target := PickZone(lux);
      ApplyZone(target, true);
      currentZone := target;
      rtc.currentZone := currentZone as int32;
      rtc.confirmCount := 0;
      lastLux := sensor.ReadLux();
      ok := true;
    }

    /**
     * `update()`: reports whether the zone changed; on a change the new zone
     * is programmed and recorded in RTC memory and a fresh reading is taken.
     */
    method Update(rtc: Rtc) returns (changed: bool)
      modifies this, sensor, rtc
      ensures var target := PickZone(Average3(sensor.readings, old(sensor.next)));
        && (changed <==> target != old(currentZone))
        && currentZone == target
      ensures changed ==> (sensor.settings == ZoneSettings(currentZone)
        && rtc.currentZone == currentZone as int && rtc.confirmCount == 0
        && lastLux == sensor.readings(old(sensor.next) + 4) && sensor.next == old(sensor.next) + 5)
      ensures !changed ==> (sensor.settings == old(sensor.settings)
        && rtc.currentZone == old(rtc.currentZone) && rtc.confirmCount == old(rtc.confirmCount)
        && lastLux == Average3(sensor.readings, old(sensor.next)) && sensor.next == old(sensor.next) + 3)
      ensures rtc.bootCount == old(rtc.bootCount) && rtc.scanned == old(rtc.scanned) && rtc.networkIndex == old(rtc.networkIndex)
    {
      var lux := AverageLux();
      var target := PickZone(lux);
      if target != currentZone {
        ApplyZone(target, false);
        currentZone := target;
        rtc.currentZone := currentZone as int32;
        rtc.confirmCount := 0;
        lux := sensor.ReadLux();
        lastLux := lux;
        return true;
      }
      lastLux := lux;
      return false;
    }

    /** `setZone(z)`: forces the zone's settings; the RTC copy is left alone. */
    method SetZone(z: uint8)
      modifies this, sensor
      ensures currentZone == z && lastLux == old(lastLux)
      ensures sensor.settings == ZoneSettings(z) && sensor.next == old(sensor.next) + 1
    {
      ApplyZone(z, true);
      currentZone := z;
    }
  }

  /** Under steady light, a second `update` right after one that settled the zone reports no change. */
  method SteadyLight(readings: nat -> real, rtc: Rtc) returns (first: bool, second: bool)
    requires forall n: nat :: readings(n) == 3000.0
    modifies rtc
    ensures !second
  {
    var sensor := new LuxSensor(ZoneSettings(ZoneVeryBright), readings);
    var ctrl := new Veml7700Enhanced(sensor);
    first := ctrl.Update(rtc);
    second := ctrl.Update(rtc);
  }
}
