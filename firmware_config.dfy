/**
 * `esp32-firmware/src/config.cpp`: the sleep period and config version the
 * firmware keeps in RAM, and their persistence in the NVS namespace `cfg`,
 * including the one-time migration of the legacy millisecond key.
 */
module FirmwareConfig {
  import opened MachineInt

  /** `DEFAULT_SLEEP_SEC` from `config.h`. */
  const DefaultSleepSec: uint32 := 300

  const KeySleepSec: string := "sleep_sec"
  const KeySleepMs: string := "sleep_ms"
  const KeyCfgVer: string := "cfg_ver"

  /** The valid range of sleep seconds on the device. */
  predicate ValidSecs(s: int) {
    1 <= s <= 6000
  }

  /** `sec * 1000UL` on the ESP32, where `unsigned long` is 32 bits wide. */
  function SecToMs(sec: uint32): (ms: uint32)
    ensures sec <= 4294967 ==> ms == sec * 1000
  {
    Wrap32(sec * 1000)
  }

  /**
   * The migrated value of a legacy `sleep_ms`: rounded to the nearest second
   * then clamped to 1..6000; `old_ms + 500` is computed modulo 2^32.
   */
  function MigratedSec(oldMs: uint32): (sec: uint32)
    ensures ValidSecs(sec)
    ensures oldMs + 500 < TWO_32 ==> sec == Constrain((oldMs + 500) / 1000, 1, 6000)
  {
    var s := Wrap32(oldMs + 500) / 1000;
    if s < 1 then 1 else if s > 6000 then 6000 else s
  }

  /** The seconds `loadFromNVS` yields: the stored key as-is, else the migrated legacy value, else the default. */
  function LoadedSec(nvs: map<string, uint32>): uint32 {
    if KeySleepSec in nvs then nvs[KeySleepSec]
    else if KeySleepMs in nvs then MigratedSec(nvs[KeySleepMs])
    else DefaultSleepSec
  }

  function LoadedVer(nvs: map<string, uint32>): uint32 {
    if KeyCfgVer in nvs then nvs[KeyCfgVer] else 0
  }

  /** The namespace after `loadFromNVS`: a migration stores `sleep_sec` and drops `sleep_ms`. */
  function NvsAfterLoad(nvs: map<string, uint32>): map<string, uint32> {
    if KeySleepSec in nvs then nvs
    else if KeySleepMs in nvs then nvs[KeySleepSec := MigratedSec(nvs[KeySleepMs])] - {KeySleepMs}
    else nvs
  }

  /** The config globals of `config.cpp` and the NVS namespace behind them. */
  class ConfigStore {
    var nvs: map<string, uint32>
    var sleepSec: uint32
    var sleepMs: uint32
    var cfgVersion: uint32

    /** The globals' initial values, over whatever the flash holds. */
    constructor (nvs: map<string, uint32>)
      ensures this.nvs == nvs
      ensures sleepSec == DefaultSleepSec && sleepMs == DefaultSleepSec * 1000 && cfgVersion == 0
    {
      this.nvs := nvs;
      sleepSec := DefaultSleepSec;
      sleepMs := DefaultSleepSec * 1000;
      cfgVersion := 0;
    }

    predicate Consistent()
      reads this
    {
      sleepMs == SecToMs(sleepSec)
    }

    /** `loadFromNVS(sec, ver)`; the out-parameters are the reference arguments. */
    method LoadFromNVS() returns (sec: uint32, ver: uint32)
      modifies this
      ensures sec == LoadedSec(old(nvs)) && ver == LoadedVer(old(nvs))
      ensures nvs == NvsAfterLoad(old(nvs))
      ensures sleepSec == sec && sleepMs == SecToMs(sec) && cfgVersion == ver
      ensures Consistent()
    {
      if KeySleepSec in nvs {
        sec := nvs[KeySleepSec];
      } else if KeySleepMs in nvs {
        var oldMs: int := nvs[KeySleepMs];
        var rounded := Wrap32(oldMs + 500);
        assert rounded / 1000 <= rounded;
        sec := rounded / 1000;
        if sec < 1 {
          sec := 1;
        }
        if sec > 6000 {
          sec := 6000;
        }
        nvs := nvs[KeySleepSec := sec];
        nvs := nvs - {KeySleepMs};
      } else {
        sec := DefaultSleepSec;
      }
      ver := if KeyCfgVer in nvs then nvs[KeyCfgVer] else 0;
      sleepSec := sec;
      sleepMs := SecToMs(sec);
      cfgVersion := ver;
    }

    /** `saveToNVS(sec, ver)`: exactly the two keys are written, and the globals follow. */
    method SaveToNVS(sec: uint32, ver: uint32)
      modifies this
      ensures nvs == old(nvs)[KeySleepSec := sec][KeyCfgVer := ver]
      ensures sleepSec == sec && sleepMs == SecToMs(sec) && cfgVersion == ver
      ensures Consistent()
    {
      nvs := nvs[KeySleepSec := sec];
      nvs := nvs[KeyCfgVer := ver];
      sleepSec := sec;
      sleepMs := SecToMs(sec);
      cfgVersion := ver;
    }
  }

  /** With neither sleep key stored, the default applies; with no version stored, version 0. */
  lemma EmptyDefaults(nvs: map<string, uint32>)
    ensures KeySleepSec !in nvs && KeySleepMs !in nvs ==> LoadedSec(nvs) == 300
    ensures KeyCfgVer !in nvs ==> LoadedVer(nvs) == 0
    ensures KeySleepSec in nvs ==> LoadedSec(nvs) == nvs[KeySleepSec]
  {
  }

  /**
   * Migration is one-shot: a second load finds `sleep_sec`, yields the same
   * seconds and version, and changes nothing more.
   */
  lemma MigrationOneShot(nvs: map<string, uint32>)
    ensures LoadedSec(NvsAfterLoad(nvs)) == LoadedSec(nvs)
    ensures LoadedVer(NvsAfterLoad(nvs)) == LoadedVer(nvs)
    ensures NvsAfterLoad(NvsAfterLoad(nvs)) == NvsAfterLoad(nvs)
    ensures KeySleepMs in nvs && KeySleepSec !in nvs ==>
      KeySleepMs !in NvsAfterLoad(nvs) && NvsAfterLoad(nvs)[KeySleepSec] == MigratedSec(nvs[KeySleepMs])
  {
  }

  /** What was saved is what the next boot loads. */
  lemma SaveThenLoad(nvs: map<string, uint32>, sec: uint32, ver: uint32)
    ensures LoadedSec(nvs[KeySleepSec := sec][KeyCfgVer := ver]) == sec
    ensures LoadedVer(nvs[KeySleepSec := sec][KeyCfgVer := ver]) == ver
    ensures NvsAfterLoad(nvs[KeySleepSec := sec][KeyCfgVer := ver]) == nvs[KeySleepSec := sec][KeyCfgVer := ver]
  {
  }

  /** Rounding to the nearest second: 1499 ms gives 1 s, 1500 ms gives 2 s, and 0 ms is lifted to 1 s. */
  lemma MigrationRounding()
    ensures MigratedSec(1499) == 1 && MigratedSec(1500) == 2 && MigratedSec(0) == 1
    ensures MigratedSec(300000) == 300 && MigratedSec(7000000) == 6000
  {
  }

  /** `old_ms + 500` wraps: the largest legacy value migrates to 1 s, not to the 6000 s cap. */
  lemma MigrationWraps()
    ensures MigratedSec(0xFFFF_FFFF) == 1
    ensures Constrain((0xFFFF_FFFF + 500) / 1000, 1, 6000) == 6000
  {
  }
}
