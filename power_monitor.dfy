/**
 * The Android power-profile monitor
 * (wpeview/src/main/cpp/Runtime/WPEAndroidPowerProfileMonitor.cpp).
 *
 * WebKit asks the monitor whether power saving is on. The monitor combines
 * two signals: Android's battery-saver mode, pushed from Java, and the
 * thermal status reported by the NDK thermal manager, which counts as
 * throttling from "severe" on. The last monitor created is reachable
 * through a global, which the Java-side setters go through. A change
 * schedules a property notification on the main loop; the model counts the
 * notifications scheduled. Atomic loads and stores are modelled as plain
 * field accesses.
 */
module PowerMonitor {
  import opened Wrappers

  /** `AThermalStatus` values. */
  const ATHERMAL_STATUS_NONE := 0
  const ATHERMAL_STATUS_LIGHT := 1
  const ATHERMAL_STATUS_MODERATE := 2
  const ATHERMAL_STATUS_SEVERE := 3
  const ATHERMAL_STATUS_CRITICAL := 4
  const ATHERMAL_STATUS_EMERGENCY := 5
  const ATHERMAL_STATUS_SHUTDOWN := 6

  /** A thermal status means throttling from "severe" on. */
  function IsThrottling(status: int): (b: bool)
    ensures b <==> status >= ATHERMAL_STATUS_SEVERE
  {
    status >= ATHERMAL_STATUS_SEVERE
  }

  class WPEAndroidPowerMonitor {
    var thermalManager: Option<nat>
    var isBatterySaverActive: bool
    var isThermalThrottling: bool
    /** Whether `onThermalStatusChanged` is registered with the thermal manager. */
    var listening: bool
    /** `power-saver-enabled` notifications scheduled on the main loop. */
    var notificationsScheduled: nat

    /**
     * `init`: both flags start off. With the thermal API available
     * (`thermalApi`), a manager that could be acquired and a listener that
     * registered (result 0), the current thermal status sets the
     * throttling flag.
     */
    constructor (thermalApi: bool, acquired: Option<nat>, registerResult: int, currentStatus: int)
      ensures !isBatterySaverActive && notificationsScheduled == 0
      ensures thermalManager == (if thermalApi then acquired else None)
      ensures listening <==> thermalApi && acquired.Some? && registerResult == 0
      ensures isThermalThrottling <==> listening && IsThrottling(currentStatus)
    {
      thermalManager := None;
      isBatterySaverActive := false;
      isThermalThrottling := false;
      listening := false;
      notificationsScheduled := 0;
      if thermalApi {
        thermalManager := acquired;
        if acquired.Some? {
          if registerResult == 0 {
            listening := true;
            isThermalThrottling := currentStatus >= ATHERMAL_STATUS_SEVERE;
          }
        }
      }
    }

    /** `get_property` for `power-saver-enabled`. */
    function PowerSaverEnabled(): (enabled: bool)
      reads this
      ensures enabled <==> isBatterySaverActive || isThermalThrottling
    {
      isBatterySaverActive || isThermalThrottling
    }

    /** `onThermalStatusChanged`: a change of the throttling flag is stored and notified. */
    method OnThermalStatusChanged(status: int)
      modifies this`isThermalThrottling, this`notificationsScheduled
      ensures isThermalThrottling == IsThrottling(status)
      ensures notificationsScheduled == old(notificationsScheduled) + (if old(isThermalThrottling) != IsThrottling(status) then 1 else 0)
    {
      var throttling := status >= ATHERMAL_STATUS_SEVERE;
      if isThermalThrottling != throttling {
        isThermalThrottling := throttling;
        notificationsScheduled := notificationsScheduled + 1;
      }
    }

    /** Storing a battery-saver value, notifying only on change. */
    method StoreBatterySaver(value: bool)
      modifies this`isBatterySaverActive, this`notificationsScheduled
      ensures isBatterySaverActive == value
      ensures notificationsScheduled == old(notificationsScheduled) + (if old(isBatterySaverActive) != value then 1 else 0)
    {
      if isBatterySaverActive != value {
        isBatterySaverActive := value;
        notificationsScheduled := notificationsScheduled + 1;
      }
    }

    /** Storing a throttling value, notifying only on change. */
    method StoreThermalThrottling(value: bool)
      modifies this`isThermalThrottling, this`notificationsScheduled
      ensures isThermalThrottling == value
      ensures notificationsScheduled == old(notificationsScheduled) + (if old(isThermalThrottling) != value then 1 else 0)
    {
      if isThermalThrottling != value {
        isThermalThrottling := value;
        notificationsScheduled := notificationsScheduled + 1;
      }
    }
  }

  /** The global `s_singleton`: the monitor the Java-side setters reach. */
  class Registry {
    var singleton: WPEAndroidPowerMonitor?

    constructor ()
      ensures singleton == null
    {
      singleton := null;
    }

    /** Creating a monitor makes it the singleton. */
    method Create(thermalApi: bool, acquired: Option<nat>, registerResult: int, currentStatus: int)
      returns (m: WPEAndroidPowerMonitor)
      modifies this
      ensures fresh(m) && singleton == m
      ensures !m.isBatterySaverActive && m.notificationsScheduled == 0
      ensures m.thermalManager == (if thermalApi then acquired else None)
      ensures m.listening <==> thermalApi && acquired.Some? && registerResult == 0
      ensures m.isThermalThrottling <==> m.listening && IsThrottling(currentStatus)
      ensures m.PowerSaverEnabled() <==> m.isThermalThrottling
    {
      m := new WPEAndroidPowerMonitor(thermalApi, acquired, registerResult, currentStatus);
      singleton := m;
    }

    /** `set_battery_saver`: ignored without a singleton; otherwise stored, and notified on change. */
    method SetBatterySaver(isPowerSaveMode: bool)
      modifies singleton
      ensures singleton == old(singleton)
      ensures singleton != null ==>
        && singleton.isBatterySaverActive == isPowerSaveMode
        && singleton.isThermalThrottling == old(singleton.isThermalThrottling)
        && singleton.thermalManager == old(singleton.thermalManager)
        && singleton.listening == old(singleton.listening)
        && (singleton.PowerSaverEnabled() <==> isPowerSaveMode || singleton.isThermalThrottling)
        && singleton.notificationsScheduled ==
             old(singleton.notificationsScheduled) + (if old(singleton.isBatterySaverActive) != isPowerSaveMode then 1 else 0)
    {
      if singleton == null {
        return;
      }
      singleton.StoreBatterySaver(isPowerSaveMode);
    }

    /** `set_thermal_throttling`: ignored without a singleton; otherwise stored, and notified on change. */
    method SetThermalThrottling(isThermalThrottling: bool)
      modifies singleton
      ensures singleton == old(singleton)
      ensures singleton != null ==>
        && singleton.isThermalThrottling == isThermalThrottling
        && singleton.isBatterySaverActive == old(singleton.isBatterySaverActive)
        && singleton.thermalManager == old(singleton.thermalManager)
        && singleton.listening == old(singleton.listening)
        && (singleton.PowerSaverEnabled() <==> isThermalThrottling || singleton.isBatterySaverActive)
        && singleton.notificationsScheduled ==
             old(singleton.notificationsScheduled) + (if old(singleton.isThermalThrottling) != isThermalThrottling then 1 else 0)
    {
      if singleton == null {
        return;
      }
      singleton.StoreThermalThrottling(isThermalThrottling);
    }

    /**
     * `dispose`: the thermal listener is unregistered and the manager
     * released; the global is cleared only if it still names this monitor.
     */
    method Dispose(m: WPEAndroidPowerMonitor, thermalApi: bool)
      modifies this, m
      ensures old(singleton) == m ==> singleton == null
      ensures old(singleton) != m ==> singleton == old(singleton)
      ensures thermalApi && old(m.thermalManager).Some? ==> m.thermalManager.None? && !m.listening
      ensures !(thermalApi && old(m.thermalManager).Some?) ==>
        m.thermalManager == old(m.thermalManager) && m.listening == old(m.listening)
      ensures m.isBatterySaverActive == old(m.isBatterySaverActive)
      ensures m.isThermalThrottling == old(m.isThermalThrottling)
      ensures m.notificationsScheduled == old(m.notificationsScheduled)
    {
      if thermalApi && m.thermalManager.Some? {
        m.listening := false;
        m.thermalManager := None;
      }
      if singleton == m {
        singleton := null;
      }
    }
  }
}
