/**
 * The network state machine of the IOT object, earlier revision
 * (code/ESP32/src/IOT.cpp). Unlike the current revision, the WiFi events
 * only update the connection status and the MQTT timer, and Run itself
 * falls back to Ethernet (DHCP) on every call while no SSID is configured
 * and nothing is connected, before running the WiFi state chain.
 *
 * As in IotMain, each method of class Iot is proved against a function on
 * a snapshot of its fields; driver calls are recorded in `calls`, and
 * millis(), WiFi.status() and the DHCP outcome are inputs.
 */
module IotEarlier {
  import opened Common
  import opened SettingsStore
  import opened Announce

  const TAG := "ESP_PLC"
  const EEPROM_SIZE := 512
  const AP_TIMEOUT: u32 := 30000
  const WIFI_CONNECTION_TIMEOUT: u32 := 30000

  datatype NetworkState = Boot | ApMode | Connecting | OnLine | OffLine
  datatype NetworkStatus = NotConnected | APMode | WiFiMode | EthernetMode

  datatype RadioMode = RadioOff | RadioAp | RadioStation

  /** Driver calls whose effect lies outside this model. */
  datatype DriverCall =
    | WifiDisconnect
    | WifiMode(mode: RadioMode)
    | SoftAp(apSsid: string, apPassword: string)
    | SetHostname(name: string)
    | WifiBegin(ssid: string, password: string)
    | EthernetBegin
    | ModbusStart(port: i16)

  datatype NetworkEvent = ApStaDisconnected | ApStaIpAssigned | StaGotIp | StaDisconnected | OtherEvent

  datatype Machine = Machine(
    state: NetworkState, status: NetworkStatus, settings: Settings,
    apStamp: u32, wifiStart: u32, timerArmed: bool, modbusRunning: bool,
    calls: seq<DriverCall>)

  // ---------------------------------------------------------------------
  // Transitions

  /** setState: record the new state and do its entry actions. */
  function SetStateSpec(m: Machine, s: NetworkState, now: u32): (r: Machine)
    ensures r.state == s && r.status == m.status && r.settings == m.settings
    ensures |m.calls| <= |r.calls| && r.calls[..|m.calls|] == m.calls
  {
    var m1 := m.(state := s);
    match s
    case OffLine => m1.(calls := m.calls + [WifiDisconnect, WifiMode(RadioOff)])
    case ApMode =>
      var drop := if m.state == Connecting || m.state == OnLine then [WifiDisconnect] else [];
      m1.(calls := m.calls + drop + [WifiMode(RadioAp), SoftAp(m.settings.apSsid, m.settings.apPassword)],
          apStamp := now)
    case Connecting =>
      m1.(wifiStart := now,
          calls := m.calls + [SetHostname(m.settings.apSsid), WifiMode(RadioStation),
                              WifiBegin(m.settings.ssid, m.settings.wifiPassword)])
    case _ => m1
  }

  /**
   * The event switch: only the status, the MQTT timer and the Modbus server change.
   * `modbusRunning` stands for `_MBserver.isRunning()`, on the assumption that
   * the server's start always succeeds.
   */
  function EventSpec(m: Machine, e: NetworkEvent): (r: Machine)
    ensures r.state == m.state && r.settings == m.settings
    ensures |m.calls| <= |r.calls| && r.calls[..|m.calls|] == m.calls
    ensures e == ApStaDisconnected ==> r.status == NotConnected && r.timerArmed == m.timerArmed
    ensures e == StaDisconnected ==> r.status == NotConnected && !r.timerArmed
    ensures e == StaGotIp ==> r.status == WiFiMode && r.timerArmed && (m.settings.useModbus ==> r.modbusRunning)
  {
    match e
    case ApStaDisconnected => m.(status := NotConnected)
    case ApStaIpAssigned => m.(status := APMode)
    case StaGotIp =>
      var m1 := m.(status := WiFiMode, timerArmed := true);
      if m.settings.useModbus && !m.modbusRunning
      then m1.(modbusRunning := true, calls := m.calls + [ModbusStart(m.settings.modbusPort)])
      else m1
    case StaDisconnected => m.(status := NotConnected, timerArmed := false)
    case OtherEvent => m
  }

  /** The MQTT onDisconnect handler: re-arm the reconnect timer while WiFi is connected. */
  function MqttDisconnectSpec(m: Machine, wifiConnected: bool): (r: Machine)
    ensures r.state == m.state && r.status == m.status && r.settings == m.settings && r.calls == m.calls
    ensures r.timerArmed <==> m.timerArmed || wifiConnected
  {
    if wifiConnected then m.(timerArmed := true) else m
  }

  datatype RunOutcome = RunOutcome(machine: Machine, restart: bool)

  /** The Ethernet fallback: start DHCP; on failure open the access point, on success go online over Ethernet. */
  function EthernetFallback(m: Machine, now: u32, dhcpOk: bool): (r: Machine)
    ensures r.state == (if dhcpOk then OnLine else ApMode) && r.settings == m.settings
    ensures dhcpOk ==> r.status == EthernetMode
    ensures !dhcpOk ==> r.status == m.status && r.apStamp == now
    ensures |m.calls| < |r.calls| && r.calls[..|m.calls| + 1] == m.calls + [EthernetBegin]
  {
    var m1 := m.(calls := m.calls + [EthernetBegin]);
    if dhcpOk then SetStateSpec(m1, OnLine, now).(status := EthernetMode)
    else SetStateSpec(m1, ApMode, now)
  }

  /** The WiFi state chain that follows the fallback in the same Run call. */
  function Chain(m: Machine, now: u32, wifiConnected: bool): (r: Machine)
    ensures r.status == m.status && r.settings == m.settings
    ensures |m.calls| <= |r.calls| && r.calls[..|m.calls|] == m.calls
    ensures m.state == Boot ==> r.state == ApMode
    ensures m.state == OnLine || m.state == OffLine ==> r == m
  {
    if m.state == Boot then SetStateSpec(m, ApMode, now)
    else if m.state == ApMode then
      if m.status == NotConnected && |m.settings.ssid| > 0 && now > AddU32(m.apStamp, AP_TIMEOUT)
      then SetStateSpec(m, Connecting, now)
      else m
    else if m.state == Connecting then
      if !wifiConnected then
        if SubU32(now, m.wifiStart) > WIFI_CONNECTION_TIMEOUT
        then SetStateSpec(m.(calls := m.calls + [WifiDisconnect]), ApMode, now)
        else m
      else SetStateSpec(m, OnLine, now)
    else m
  }

  /** One call of Run. */
  function RunSpec(m: Machine, now: u32, serial: SerialInput, wifiConnected: bool, dhcpOk: bool): (o: RunOutcome)
    ensures o.restart ==> m.status == NotConnected && |m.settings.ssid| == 0 && o.machine.state == m.state
    ensures o.restart ==> o.machine.calls == m.calls
    ensures !o.restart ==> o.machine.settings == m.settings
    ensures |m.calls| <= |o.machine.calls| && o.machine.calls[..|m.calls|] == m.calls
    ensures m.state == Boot && !o.restart ==> o.machine.state != Boot
  {
    if m.status == NotConnected && |m.settings.ssid| == 0 then
      match Provisioning(serial)
      case Some(c) => RunOutcome(m.(settings := Provisioned(m.settings, c)), true)
      case None => RunOutcome(Chain(EthernetFallback(m, now, dhcpOk), now, wifiConnected), false)
    else RunOutcome(Chain(m, now, wifiConnected), false)
  }

  // ---------------------------------------------------------------------
  // Properties of the transitions

  /** Entering AP mode drops a WiFi link only from Connecting or OnLine, and always restarts the AP timeout. */
  lemma EnterApMode(m: Machine, now: u32)
    ensures var r := SetStateSpec(m, ApMode, now);
            && r.state == ApMode && r.apStamp == now
            && r.status == m.status && r.settings == m.settings && r.wifiStart == m.wifiStart
            && (WifiDisconnect in r.calls[|m.calls|..] <==> m.state == Connecting || m.state == OnLine)
  {
    var r := SetStateSpec(m, ApMode, now);
    var tail := r.calls[|m.calls|..];
    if m.state == Connecting || m.state == OnLine {
      assert tail[0] == WifiDisconnect;
    } else {
      assert tail == [WifiMode(RadioAp), SoftAp(m.settings.apSsid, m.settings.apPassword)];
    }
  }

  /**
   * With no SSID and nothing connected, Run restarts exactly when a
   * provisioning line arrives, and otherwise ends in OnLine over Ethernet
   * when DHCP succeeds or in AP mode when it fails, whatever the state was.
   */
  lemma UnprovisionedRun(m: Machine, now: u32, serial: SerialInput, wifiConnected: bool, dhcpOk: bool)
    requires m.status == NotConnected && m.settings.ssid == ""
    ensures var o := RunSpec(m, now, serial, wifiConnected, dhcpOk);
            && (o.restart <==> Provisioning(serial).Some?)
            && (o.restart ==> o.machine == m.(settings := Provisioned(m.settings, Provisioning(serial).value)))
            && (!o.restart ==>
                  && o.machine.state == (if dhcpOk then OnLine else ApMode)
                  && o.machine.status == (if dhcpOk then EthernetMode else NotConnected)
                  && o.machine.calls[|m.calls|] == EthernetBegin)
  {
  }

  /** While DHCP keeps failing and nobody joins the access point, every Run tries Ethernet again and reopens the AP. */
  lemma EthernetRetriedEveryRun(m: Machine, t1: u32, t2: u32, wifiConnected: bool)
    requires m.status == NotConnected && m.settings.ssid == ""
    ensures var r1 := RunSpec(m, t1, NoJson, wifiConnected, false).machine;
            var r2 := RunSpec(r1, t2, NoJson, wifiConnected, false).machine;
            && r1.state == ApMode && r2.state == ApMode && r2.apStamp == t2
            && r2.calls == r1.calls + [EthernetBegin, WifiMode(RadioAp), SoftAp(m.settings.apSsid, m.settings.apPassword)]
  {
    var r1 := EthernetFallback(m, t1, false);
    assert RunSpec(m, t1, NoJson, wifiConnected, false).machine == r1;
    var r2 := EthernetFallback(r1, t2, false);
    assert RunSpec(r1, t2, NoJson, wifiConnected, false).machine == r2;
  }

  /** Provisioned or already connected at boot: the first Run opens the access point. */
  lemma BootOpensAccessPoint(m: Machine, now: u32, serial: SerialInput, wifiConnected: bool, dhcpOk: bool)
    requires m.state == Boot && (m.settings.ssid != "" || m.status != NotConnected)
    ensures var o := RunSpec(m, now, serial, wifiConnected, dhcpOk);
            !o.restart && o.machine.state == ApMode && o.machine.apStamp == now
            && o.machine.calls == m.calls + [WifiMode(RadioAp), SoftAp(m.settings.apSsid, m.settings.apPassword)]
  {
  }

  /** In AP mode with an SSID set, Run moves to Connecting exactly when nobody is connected and the timeout has passed. */
  lemma RunInApMode(m: Machine, now: u32, serial: SerialInput, wifiConnected: bool, dhcpOk: bool)
    requires m.state == ApMode && m.settings.ssid != ""
    ensures var o := RunSpec(m, now, serial, wifiConnected, dhcpOk);
            var leave := m.status == NotConnected && now > AddU32(m.apStamp, AP_TIMEOUT);
            && !o.restart
            && (leave ==> o.machine.state == Connecting && o.machine.wifiStart == now)
            && (!leave ==> o.machine == m)
  {
  }

  /** Connecting ends OnLine when connected, in AP mode after the timeout, and otherwise waits. */
  lemma RunWhileConnecting(m: Machine, now: u32, serial: SerialInput, wifiConnected: bool, dhcpOk: bool)
    requires m.state == Connecting && m.settings.ssid != ""
    ensures var r := RunSpec(m, now, serial, wifiConnected, dhcpOk).machine;
            && (r.state == OnLine <==> wifiConnected)
            && (r.state == ApMode <==> !wifiConnected && SubU32(now, m.wifiStart) > WIFI_CONNECTION_TIMEOUT)
            && (r.state == Connecting <==> !wifiConnected && SubU32(now, m.wifiStart) <= WIFI_CONNECTION_TIMEOUT)
  {
  }

  /** Events never change the state; they set the status, and only the station events touch the MQTT timer. */
  lemma EventEffect(m: Machine, e: NetworkEvent)
    ensures var r := EventSpec(m, e);
            && r.state == m.state && r.settings == m.settings && r.apStamp == m.apStamp
            && (e == StaGotIp ==> r.status == WiFiMode && r.timerArmed
                                  && r.modbusRunning == (m.modbusRunning || m.settings.useModbus))
            && (e == StaDisconnected ==> r.status == NotConnected && !r.timerArmed)
            && (e == ApStaDisconnected ==> r == m.(status := NotConnected))
            && (e == ApStaIpAssigned ==> r == m.(status := APMode))
            && (e == OtherEvent ==> r == m)
  {
  }

  /** A repeated STA_GOT_IP does not start the Modbus server twice. */
  lemma ModbusStartedOnce(m: Machine)
    ensures var r := EventSpec(EventSpec(m, StaGotIp), StaGotIp);
            |r.calls| == |m.calls| + (if m.settings.useModbus && !m.modbusRunning then 1 else 0)
  {
  }

  /** After an MQTT disconnect the reconnect timer runs again exactly when WiFi is still connected. */
  lemma MqttDisconnectEffect(m: Machine, wifiConnected: bool)
    ensures var r := MqttDisconnectSpec(m, wifiConnected);
            r.timerArmed == (m.timerArmed || wifiConnected) && r.(timerArmed := m.timerArmed) == m
  {
  }

  /** As written: entered at 2^32 - 1000 ms, AP mode is left 1 ms later because the deadline wraps to 29000. */
  lemma ApTimeoutWrapCounterexample(m: Machine)
    requires m.state == ApMode && m.status == NotConnected && m.settings.ssid != ""
    requires m.apStamp == 0xFFFF_FC18
    ensures AddU32(m.apStamp, AP_TIMEOUT) == 29000
    ensures RunSpec(m, 0xFFFF_FC19, NoJson, false, false).machine.state == Connecting
  {
  }

  /** The chain with the AP timeout measured as elapsed time since entry. */
  function ChainFixed(m: Machine, now: u32, wifiConnected: bool): Machine
  {
    if m.state == ApMode then
      if m.status == NotConnected && |m.settings.ssid| > 0 && SubU32(now, m.apStamp) > AP_TIMEOUT
      then SetStateSpec(m, Connecting, now)
      else m
    else Chain(m, now, wifiConnected)
  }

  /** Corrected: AP mode is left exactly when more than AP_TIMEOUT ms have passed since entry, whatever the clock. */
  lemma ApTimeoutFromEntry(m: Machine, d: u32, wifiConnected: bool)
    requires m.state == ApMode && m.status == NotConnected && m.settings.ssid != ""
    ensures ChainFixed(m, AddU32(m.apStamp, d), wifiConnected).state == Connecting <==> d > AP_TIMEOUT
  {
    assert SubU32(AddU32(m.apStamp, d), m.apStamp) == d;
  }

  // ---------------------------------------------------------------------
  // The IOT object

  class Iot {
    var networkState: NetworkState
    var networkStatus: NetworkStatus
    var settings: Settings
    var waitInAPTimeStamp: u32
    var wifiConnectionStart: u32
    var mqttTimerArmed: bool
    var modbusRunning: bool
    var publishedOnline: bool
    var calls: seq<DriverCall>
    /** The EEPROM buffer holding the settings string. */
    const eeprom: array<byte>
    /** ArduinoJson's serialiser and parser. */
    const codec: JsonCodec
    /** CONFIG_VERSION, written into the settings document. */
    const version: string

    function Snapshot(): Machine
      reads this
    {
      Machine(networkState, networkStatus, settings, waitInAPTimeStamp, wifiConnectionStart,
              mqttTimerArmed, modbusRunning, calls)
    }

    predicate Valid()
      reads this
    {
      eeprom.Length == EEPROM_SIZE
    }

    /** The field initialisers; `now` is millis() at construction, `stored` the EEPROM contents. */
    constructor(codec: JsonCodec, version: string, now: u32, stored: seq<byte>)
      requires |stored| == EEPROM_SIZE
      ensures Valid() && fresh(eeprom) && eeprom[..] == stored
      ensures this.codec == codec && this.version == version
      ensures Snapshot() == Machine(Boot, NotConnected, Defaults(TAG), now, 0, false, false, [])
      ensures !publishedOnline
    {
      networkState := Boot;
      networkStatus := NotConnected;
      settings := Defaults(TAG);
      waitInAPTimeStamp := now;
      wifiConnectionStart := 0;
      mqttTimerArmed := false;
      modbusRunning := false;
      publishedOnline := false;
      calls := [];
      eeprom := new byte[EEPROM_SIZE](i requires 0 <= i < EEPROM_SIZE => stored[i]);
      this.codec := codec;
      this.version := version;
    }

    method SetState(newState: NetworkState, now: u32)
      modifies this
      ensures Snapshot() == SetStateSpec(old(Snapshot()), newState, now)
      ensures publishedOnline == old(publishedOnline)
    {
      var oldState := networkState;
      networkState := newState;
      match newState {
        case OffLine =>
          calls := calls + [WifiDisconnect, WifiMode(RadioOff)];
        case ApMode =>
          if oldState == Connecting || oldState == OnLine {
            calls := calls + [WifiDisconnect];
          }
          calls := calls + [WifiMode(RadioAp), SoftAp(settings.apSsid, settings.apPassword)];
          waitInAPTimeStamp := now;
        case Connecting =>
          wifiConnectionStart := now;
          calls := calls + [SetHostname(settings.apSsid), WifiMode(RadioStation), WifiBegin(settings.ssid, settings.wifiPassword)];
        case _ =>
      }
    }

    /** The WiFi event handler installed by Init. */
    method OnWifiEvent(e: NetworkEvent)
      modifies this
      ensures Snapshot() == EventSpec(old(Snapshot()), e)
      ensures publishedOnline == old(publishedOnline)
    {
      match e {
        case ApStaDisconnected =>
          networkStatus := NotConnected;
        case ApStaIpAssigned =>
          networkStatus := APMode;
        case StaGotIp =>
          networkStatus := WiFiMode;
          mqttTimerArmed := true;
          if settings.useModbus && !modbusRunning {
            calls := calls + [ModbusStart(settings.modbusPort)];
            modbusRunning := true;
          }
        case StaDisconnected =>
          networkStatus := NotConnected;
          mqttTimerArmed := false;
        case OtherEvent =>
      }
    }

    method OnMqttDisconnected(wifiConnected: bool)
      modifies this
      ensures Snapshot() == MqttDisconnectSpec(old(Snapshot()), wifiConnected)
      ensures publishedOnline == old(publishedOnline)
    {
      if wifiConnected {
        mqttTimerArmed := true;
      }
    }

    method Run(now: u32, serial: SerialInput, wifiConnected: bool, dhcpOk: bool) returns (restart: bool)
      requires Valid()
      modifies this, eeprom
      ensures Valid()
      ensures var o := RunSpec(old(Snapshot()), now, serial, wifiConnected, dhcpOk);
              Snapshot() == o.machine && restart == o.restart
      ensures restart ==> eeprom[..] == StoredImage(old(eeprom[..]), SavedBlob(settings, version, codec))
      ensures !restart ==> eeprom[..] == old(eeprom[..])
      ensures publishedOnline == old(publishedOnline)
    {
      restart := false;
      if networkStatus == NotConnected && |settings.ssid| == 0 {
        var credentials := Provisioning(serial);
        if credentials.Some? {
          settings := Provisioned(settings, credentials.value);
          SaveSettings();
          restart := true;
          return;
        }
        StartEthernet(now, dhcpOk);
      }
      StepWifi(now, wifiConnected);
    }

    /** The Ethernet fallback block of Run. */
    method StartEthernet(now: u32, dhcpOk: bool)
      modifies this
      ensures Snapshot() == EthernetFallback(old(Snapshot()), now, dhcpOk)
      ensures publishedOnline == old(publishedOnline)
    {
      calls := calls + [EthernetBegin];
      if !dhcpOk {
        SetState(ApMode, now);
      } else {
        SetState(OnLine, now);
        networkStatus := EthernetMode;
      }
    }

    /** The state switch at the end of Run. */
    method StepWifi(now: u32, wifiConnected: bool)
      modifies this
      ensures Snapshot() == Chain(old(Snapshot()), now, wifiConnected)
      ensures publishedOnline == old(publishedOnline)
    {
      if networkState == Boot {
        SetState(ApMode, now);
      } else if networkState == ApMode {
        if networkStatus == NotConnected && |settings.ssid| > 0 {
          if now > AddU32(waitInAPTimeStamp, AP_TIMEOUT) {
            SetState(Connecting, now);
          }
        }
      } else if networkState == Connecting {
        if !wifiConnected {
          if SubU32(now, wifiConnectionStart) > WIFI_CONNECTION_TIMEOUT {
            calls := calls + [WifiDisconnect];
            SetState(ApMode, now);
          }
        } else {
          SetState(OnLine, now);
        }
      }
    }

    /** saveSettings: serialise the settings document and store it with its terminator. */
    method SaveSettings()
      modifies eeprom
      ensures eeprom[..] == StoredImage(old(eeprom[..]), SavedBlob(settings, version, codec))
    {
      WriteBlob(eeprom, SavedBlob(settings, version, codec));
    }

    /** loadSettings: read the stored string; parse it, or save the current settings when it does not parse. */
    method LoadSettings()
      modifies this, eeprom
      ensures match LoadFromImage(old(eeprom[..]), codec, TAG)
              case Loaded(s) => settings == s && eeprom[..] == old(eeprom[..])
              case ParseFailed => settings == old(settings)
                                  && eeprom[..] == StoredImage(old(eeprom[..]), SavedBlob(settings, version, codec))
      ensures Snapshot() == old(Snapshot()).(settings := settings)
      ensures publishedOnline == old(publishedOnline)
    {
      var text := ReadBlob(eeprom);
      var doc := codec.read(text);
      if doc.None? {
        SaveSettings();
      } else {
        settings := FromDoc(doc.value, TAG);
      }
    }

    /** The settings part of Init: the factory-reset pin blanks the stored string, otherwise the settings are loaded. */
    method InitSettings(factoryResetPressed: bool)
      requires Valid()
      modifies this, eeprom
      ensures factoryResetPressed ==> eeprom[..] == old(eeprom[..])[0 := 0] && Snapshot() == old(Snapshot())
      ensures !factoryResetPressed ==>
                match LoadFromImage(old(eeprom[..]), codec, TAG)
                case Loaded(s) => settings == s
                case ParseFailed => settings == old(settings)
      ensures publishedOnline == old(publishedOnline)
    {
      if factoryResetPressed {
        EepromWrite(eeprom, 0, 0);
      } else {
        LoadSettings();
      }
    }

    /** Online: `result` is whether the broker accepted the publish, if one is made. */
    method Online(result: bool) returns (attempted: bool)
      modifies this
      ensures OnlineStep(old(publishedOnline), result) == Latch(attempted, publishedOnline)
      ensures Snapshot() == old(Snapshot())
    {
      attempted := !publishedOnline;
      if !publishedOnline {
        publishedOnline := result;
      }
    }
  }
}
