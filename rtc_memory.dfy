/**
 * The variables `esp32-firmware/src/main.cpp` keeps in RTC memory, which
 * survive deep sleep: the boot counter, the remembered network and the
 * light sensor's zone.
 */
module RtcMemory {
  import opened MachineInt

  /** `VEML_ZONE_BRIGHT`, the zone the RTC slot starts from. */
  const ZoneBrightDefault: int := 2

  class Rtc {
    var bootCount: int32
    var scanned: bool
    var networkIndex: uint8
    var currentZone: int32
    var confirmCount: int32

    /** The `RTC_DATA_ATTR` initialisers, in force after a cold boot. */
    constructor ()
      ensures bootCount == 0 && !scanned && networkIndex == 0
      ensures currentZone == ZoneBrightDefault && confirmCount == 0
    {
      bootCount := 0;
      scanned := false;
      networkIndex := 0;
      currentZone := ZoneBrightDefault;
      confirmCount := 0;
    }

    /** `++bootCount` in `setup()`; the counter is an `int`, so it wraps after 2^31 - 1 boots. */
    method CountBoot()
      modifies this
      ensures bootCount == WrapI32(old(bootCount) + 1)
      ensures old(bootCount) < 0x7FFF_FFFF ==> bootCount == old(bootCount) + 1
      ensures scanned == old(scanned) && networkIndex == old(networkIndex)
      ensures currentZone == old(currentZone) && confirmCount == old(confirmCount)
    {
      bootCount := WrapI32(bootCount + 1);
    }
  }
}
