/**
 * The network state machine of the IOT object, current revision
 * (code/ESP32/main/IOT.cpp): Run, setState, GoOnline, GoOffline, the WiFi
 * event switch installed by Init, the MQTT-disconnect branch, the settings
 * load/save and the "Online" announcement.
 *
 * Each state-changing operation is a method of class Iot proved against a
 * function on a snapshot of its fields (Machine). Calls into the WiFi,
 * Ethernet and modem drivers are recorded, in order, in `calls`; millis()
 * and WiFi.status() are inputs.
 */
module IotMain {
  import opened Common
  import opened SettingsStore
  import opened Announce

  const TAG := "EdgeBox"
  const EEPROM_SIZE := 1024
  const AP_TIMEOUT: u32 := 30000
  const WIFI_CONNECTION_TIMEOUT: u32 := 30000

  datatype NetworkState = Boot | ApMode | ConnectingEthernet | ConnectingWifi | ConnectingModem | OnLine | OffLine
  datatype NetworkStatus = NotConnected | APMode | WiFiMode | EthernetMode | ModemMode

  datatype RadioMode = RadioOff | RadioAp | RadioStation

  /** Driver calls whose effect lies outside this model. */
  datatype DriverCall =
    | WifiDisconnect
    | WifiMode(mode: RadioMode)
    | SoftAp(apSsid: string, apPassword: string)
    | SetHostname(name: string)
    | WifiBegin(ssid: string, password: string)
    | ConnectEthernet
    | ConnectModem
    | ModbusStart(port: i16)

  /** The WiFi events the switch in Init handles, plus the Ethernet/PPP GOT_IP event that calls GoOnline. */
  datatype NetworkEvent = ApStaDisconnected | ApStaIpAssigned | StaGotIp | StaDisconnected | TransportGotIp | OtherEvent

  /** The fields Run, setState, GoOnline and GoOffline read and write. */
  datatype Machine = Machine(
    state: NetworkState, status: NetworkStatus, settings: Settings,
    apStamp: u32, wifiStart: u32, timerArmed: bool, modbusRunning: bool,
    calls: seq<DriverCall>)

  // ---------------------------------------------------------------------
  // Transitions

  /** setState: record the new state and do its entry actions. */
  function SetStateSpec(m: Machine, s: NetworkState, now: u32): (r: Machine)
    ensures r.state == s && r.status == m.status && r.settings == m.settings
    ensures |m.calls| <= |r.calls| && r.calls[..|m.calls|] == m.calls
  {
    var m1 := m.(state := s);
    match s
    case OffLine => m1.(calls := m.calls + [WifiDisconnect, WifiMode(RadioOff)])
    case ApMode =>
      var drop := if m.state == ConnectingWifi || m.state == OnLine then [WifiDisconnect] else [];
      m1.(calls := m.calls + drop + [WifiMode(RadioAp), SoftAp(m.settings.apSsid, m.settings.apPassword)],
          apStamp := now)
    case ConnectingWifi =>
      m1.(wifiStart := now,
          calls := m.calls + [SetHostname(m.settings.apSsid), WifiMode(RadioStation),
                              WifiBegin(m.settings.ssid, m.settings.wifiPassword)])
    case ConnectingEthernet => m1.(calls := m.calls + [ConnectEthernet])
    case ConnectingModem => m1.(calls := m.calls + [ConnectModem])
    case _ => m1
  }

  /**
   * GoOnline: outside AP mode, start Modbus if wanted, arm the MQTT timer and enter OnLine.
   * `modbusRunning` stands for `_MBserver.isRunning()`, on the assumption that
   * the server's start always succeeds.
   */
  function GoOnlineSpec(m: Machine, now: u32): (r: Machine)
    ensures m.status == APMode ==> r == m
    ensures m.status != APMode ==> r.state == OnLine && r.timerArmed && (m.settings.useModbus ==> r.modbusRunning)
    ensures r.status == m.status && r.settings == m.settings
    ensures |m.calls| <= |r.calls| && r.calls[..|m.calls|] == m.calls
  {
    if m.status != APMode then
      var m1 := if m.settings.useModbus && !m.modbusRunning
                then m.(modbusRunning := true, calls := m.calls + [ModbusStart(m.settings.modbusPort)])
                else m;
      SetStateSpec(m1.(timerArmed := true), OnLine, now)
    else m
  }

  /** GoOffline: stop the MQTT timer and enter OffLine. */
  function GoOfflineSpec(m: Machine, now: u32): (r: Machine)
    ensures r.state == OffLine && !r.timerArmed && r.status == m.status && r.settings == m.settings
    ensures r.modbusRunning == m.modbusRunning
    ensures |m.calls| <= |r.calls| && r.calls[..|m.calls|] == m.calls
    ensures r.calls[|m.calls|..] == [WifiDisconnect, WifiMode(RadioOff)]
  {
    SetStateSpec(m.(timerArmed := false), OffLine, now)
  }

  /** The event switch. */
  function EventSpec(m: Machine, e: NetworkEvent, now: u32): (r: Machine)
    ensures r.settings == m.settings
    ensures |m.calls| <= |r.calls| && r.calls[..|m.calls|] == m.calls
    ensures e == ApStaDisconnected || e == StaDisconnected ==> r.state == OffLine && r.status == NotConnected && !r.timerArmed
    ensures e == StaGotIp ==> r.state == OnLine && r.status == WiFiMode && r.timerArmed
    ensures e == ApStaIpAssigned || e == OtherEvent ==> r.state == m.state && r.calls == m.calls
  {
    match e
    case ApStaDisconnected => GoOfflineSpec(m.(status := NotConnected), now)
    case ApStaIpAssigned => GoOnlineSpec(m.(status := APMode), now)
    case StaGotIp => GoOnlineSpec(m.(status := WiFiMode), now)
    case StaDisconnected => GoOfflineSpec(m.(status := NotConnected), now)
    case TransportGotIp => GoOnlineSpec(m, now)
    case OtherEvent => m
  }

  /** The MQTT_EVENT_DISCONNECTED branch: re-arm the reconnect timer only while OnLine. */
  function MqttDisconnectSpec(m: Machine): (r: Machine)
    ensures r.state == m.state && r.status == m.status && r.settings == m.settings && r.calls == m.calls
    ensures r.timerArmed <==> m.timerArmed || m.state == OnLine
  {
    if m.state == OnLine then m.(timerArmed := true) else m
  }

  datatype RunOutcome = RunOutcome(machine: Machine, restart: bool)

  /**
   * One call of Run at time `now`. A provisioning line saves the new
   * credentials and restarts the device (`restart`), which ends the run.
   */
  function RunSpec(m: Machine, now: u32, serial: SerialInput, wifiConnected: bool): (o: RunOutcome)
    ensures o.restart ==> m.state == Boot && |m.settings.ssid| == 0 && o.machine.state == Boot && o.machine.calls == m.calls
    ensures !o.restart ==> o.machine.settings == m.settings
    ensures |m.calls| <= |o.machine.calls| && o.machine.calls[..|m.calls|] == m.calls
    ensures m.state == Boot && !o.restart ==> o.machine.state != Boot
    ensures m.state == OnLine || m.state == OffLine || m.state == ConnectingEthernet || m.state == ConnectingModem
            ==> o == RunOutcome(m, false)
  {
    if m.state == Boot && |m.settings.ssid| == 0 then
      match Provisioning(serial)
      case Some(c) => RunOutcome(m.(settings := Provisioned(m.settings, c)), true)
      case None => RunOutcome(SetStateSpec(m, ConnectingEthernet, now), false)
    else if m.state == Boot then
      RunOutcome(SetStateSpec(m, ApMode, now), false)
    else if m.state == ApMode then
      if m.status == NotConnected && |m.settings.ssid| > 0 && now > AddU32(m.apStamp, AP_TIMEOUT)
      then RunOutcome(SetStateSpec(m, ConnectingWifi, now), false)
      else RunOutcome(m, false)
    else if m.state == ConnectingWifi then
      if !wifiConnected then
        if SubU32(now, m.wifiStart) > WIFI_CONNECTION_TIMEOUT
        then RunOutcome(SetStateSpec(m.(calls := m.calls + [WifiDisconnect]), ApMode, now), false)
        else RunOutcome(m, false)
      else RunOutcome(SetStateSpec(m, OnLine, now), false)
    else RunOutcome(m, false)
  }

  // ---------------------------------------------------------------------
  // Properties of the transitions

  /** setState changes the state, stamps the timer of the state it enters, and leaves the rest alone. */
  lemma SetStateEntry(m: Machine, s: NetworkState, now: u32)
    ensures var r := SetStateSpec(m, s, now);
            && r.state == s
            && r.status == m.status && r.settings == m.settings
            && r.timerArmed == m.timerArmed && r.modbusRunning == m.modbusRunning
            && r.apStamp == (if s == ApMode then now else m.apStamp)
            && r.wifiStart == (if s == ConnectingWifi then now else m.wifiStart)
            && (s == ApMode ==> (WifiDisconnect in r.calls[|m.calls|..] <==> m.state == ConnectingWifi || m.state == OnLine))
  {
    var r := SetStateSpec(m, s, now);
    if s == ApMode {
      var tail := r.calls[|m.calls|..];
      if m.state == ConnectingWifi || m.state == OnLine {
        assert tail[0] == WifiDisconnect;
      } else {
        assert tail == [WifiMode(RadioAp), SoftAp(m.settings.apSsid, m.settings.apPassword)];
      }
    }
  }

  /** Unprovisioned at boot: a valid provisioning line restarts with the new credentials; anything else tries Ethernet. */
  lemma BootWithoutSsid(m: Machine, now: u32, serial: SerialInput, wifiConnected: bool)
    requires m.state == Boot && m.settings.ssid == ""
    ensures var o := RunSpec(m, now, serial, wifiConnected);
            && (o.restart <==> Provisioning(serial).Some?)
            && (o.restart ==> o.machine == m.(settings := Provisioned(m.settings, Provisioning(serial).value)))
            && (!o.restart ==> o.machine.state == ConnectingEthernet && o.machine.calls == m.calls + [ConnectEthernet])
  {
  }

  /** Provisioned at boot: the device opens its access point and starts the AP timeout. */
  lemma BootWithSsid(m: Machine, now: u32, serial: SerialInput, wifiConnected: bool)
    requires m.state == Boot && m.settings.ssid != ""
    ensures var o := RunSpec(m, now, serial, wifiConnected);
            !o.restart && o.machine.state == ApMode && o.machine.apStamp == now
  {
  }

  /** In AP mode Run moves to ConnectingWifi exactly when nobody is connected, an SSID is set and the timeout has passed. */
  lemma RunInApMode(m: Machine, now: u32, serial: SerialInput, wifiConnected: bool)
    requires m.state == ApMode
    ensures var o := RunSpec(m, now, serial, wifiConnected);
            var leave := m.status == NotConnected && m.settings.ssid != "" && now > AddU32(m.apStamp, AP_TIMEOUT);
            && !o.restart
            && (leave ==> o.machine.state == ConnectingWifi && o.machine.wifiStart == now
                          && o.machine.calls == m.calls + [SetHostname(m.settings.apSsid), WifiMode(RadioStation),
                                                           WifiBegin(m.settings.ssid, m.settings.wifiPassword)])
            && (!leave ==> o.machine == m)
  {
  }

  /** Connecting to WiFi ends OnLine when connected, in AP mode after the timeout, and otherwise waits. */
  lemma RunWhileConnectingWifi(m: Machine, now: u32, serial: SerialInput, wifiConnected: bool)
    requires m.state == ConnectingWifi
    ensures var o := RunSpec(m, now, serial, wifiConnected);
            var r := o.machine;
            && !o.restart
            && (r.state == OnLine <==> wifiConnected)
            && (r.state == ApMode <==> !wifiConnected && SubU32(now, m.wifiStart) > WIFI_CONNECTION_TIMEOUT)
            && (r.state == ConnectingWifi <==> !wifiConnected && SubU32(now, m.wifiStart) <= WIFI_CONNECTION_TIMEOUT)
            && (r.state == ApMode ==>
                  && r.apStamp == now
                  && r.calls == m.calls + [WifiDisconnect, WifiDisconnect, WifiMode(RadioAp),
                                           SoftAp(m.settings.apSsid, m.settings.apPassword)])
  {
  }

  /** The wait for a WiFi connection is measured from entry, so it is immune to millis() wrapping. */
  lemma WifiTimeoutFromEntry(m: Machine, entry: u32, d: u32)
    requires m.state == ApMode && m.status == NotConnected && m.settings.ssid != ""
    requires entry > AddU32(m.apStamp, AP_TIMEOUT)
    ensures var c := RunSpec(m, entry, NoJson, false).machine;
            && c.state == ConnectingWifi
            && (RunSpec(c, AddU32(entry, d), NoJson, false).machine.state == ApMode <==> d > WIFI_CONNECTION_TIMEOUT)
  {
    var c := RunSpec(m, entry, NoJson, false).machine;
    assert c.wifiStart == entry;
    assert SubU32(AddU32(entry, d), entry) == d;
  }

  /** Run does nothing in ConnectingEthernet, ConnectingModem, OnLine and OffLine: those states wait for events. */
  lemma RunIdleStates(m: Machine, now: u32, serial: SerialInput, wifiConnected: bool)
    requires m.state in {ConnectingEthernet, ConnectingModem, OnLine, OffLine}
    ensures RunSpec(m, now, serial, wifiConnected) == RunOutcome(m, false)
  {
  }

  /** GoOnline outside AP mode ends OnLine with the MQTT timer armed and Modbus started at most once. */
  lemma GoOnlineEffect(m: Machine, now: u32)
    ensures var r := GoOnlineSpec(m, now);
            && (m.status == APMode ==> r == m)
            && (m.status != APMode ==>
                  && r.state == OnLine && r.timerArmed
                  && r.modbusRunning == (m.modbusRunning || m.settings.useModbus)
                  && r.calls == m.calls + (if m.settings.useModbus && !m.modbusRunning
                                           then [ModbusStart(m.settings.modbusPort)] else []))
  {
  }

  /** A second GoOnline does not start the Modbus server again. */
  lemma GoOnlineStartsModbusOnce(m: Machine, now: u32)
    requires m.status != APMode
    ensures var r := GoOnlineSpec(GoOnlineSpec(m, now), now);
            && r.modbusRunning == (m.modbusRunning || m.settings.useModbus)
            && |r.calls| == |m.calls| + (if m.settings.useModbus && !m.modbusRunning then 1 else 0)
  {
    GoOnlineEffect(m, now);
    GoOnlineEffect(GoOnlineSpec(m, now), now);
  }

  /** GoOffline always ends OffLine with the MQTT timer stopped and the radio off. */
  lemma GoOfflineEffect(m: Machine, now: u32)
    ensures var r := GoOfflineSpec(m, now);
            && r.state == OffLine && !r.timerArmed
            && r.calls == m.calls + [WifiDisconnect, WifiMode(RadioOff)]
            && r.status == m.status && r.settings == m.settings
  {
  }

  /** The event switch: which status each event sets and whether it goes online or offline. */
  lemma EventEffect(m: Machine, e: NetworkEvent, now: u32)
    ensures var r := EventSpec(m, e, now);
            && (e == StaGotIp ==> r.status == WiFiMode && r.state == OnLine && r.timerArmed)
            && (e == ApStaIpAssigned ==> r == m.(status := APMode))
            && (e == StaDisconnected || e == ApStaDisconnected ==>
                  r.status == NotConnected && r.state == OffLine && !r.timerArmed)
            && (e == TransportGotIp ==> r.status == m.status && (m.status != APMode ==> r.state == OnLine))
            && (e == OtherEvent ==> r == m)
  {
  }

  /** After an MQTT disconnect the reconnect timer runs again only while OnLine. */
  lemma MqttDisconnectEffect(m: Machine)
    ensures var r := MqttDisconnectSpec(m);
            && r.timerArmed == (m.timerArmed || m.state == OnLine)
            && r.(timerArmed := m.timerArmed) == m
  {
  }

  /** After provisioning, the saved settings load back with the new credentials on the next boot. */
  lemma ProvisioningPersists(m: Machine, now: u32, serial: SerialInput, wifiConnected: bool,
                             before: seq<byte>, version: string, codec: JsonCodec)
    requires Faithful(codec) && Storable(m.settings)
    requires m.state == Boot && m.settings.ssid == "" && Provisioning(serial).Some?
    requires |SavedBlob(RunSpec(m, now, serial, wifiConnected).machine.settings, version, codec)| < |before|
    ensures var s := RunSpec(m, now, serial, wifiConnected).machine.settings;
            && s.ssid == Provisioning(serial).value.ssid
            && s.wifiPassword == Provisioning(serial).value.password
            && LoadFromImage(StoredImage(before, SavedBlob(s, version, codec)), codec, TAG) == Loaded(s)
  {
    var s := RunSpec(m, now, serial, wifiConnected).machine.settings;
    assert Storable(s);
    SaveThenLoad(before, s, version, TAG, codec);
  }

  // ---------------------------------------------------------------------
  // Findings

  /** The inputs of one Run call. */
  datatype Tick = Tick(now: u32, serial: SerialInput, wifiConnected: bool)

  /** The machine after a sequence of Run calls that do not restart the device. */
  function RunMany(m: Machine, ticks: seq<Tick>): Machine
    decreases |ticks|
  {
    if ticks == [] then m
    else
      var o := RunSpec(m, ticks[0].now, ticks[0].serial, ticks[0].wifiConnected);
      if o.restart then o.machine else RunMany(o.machine, ticks[1..])
  }

  /** As written: once a link loss has led to OffLine, no number of Run calls leaves it. */
  lemma {:induction false} OffLineNeverLeft(m: Machine, ticks: seq<Tick>)
    requires m.state == OffLine
    ensures RunMany(m, ticks) == m
    decreases |ticks|
  {
    if ticks != [] {
      RunIdleStates(m, ticks[0].now, ticks[0].serial, ticks[0].wifiConnected);
      OffLineNeverLeft(m, ticks[1..]);
    }
  }

  /** As written: an online station that loses WiFi stays OffLine for every later Run. */
  lemma LinkLossIsPermanent(m: Machine, now: u32, ticks: seq<Tick>)
    requires m.state == OnLine
    ensures RunMany(EventSpec(m, StaDisconnected, now), ticks).state == OffLine
  {
    OffLineNeverLeft(EventSpec(m, StaDisconnected, now), ticks);
  }

  /** As written: entered at 2^32 - 1000 ms, AP mode is left 1 ms later because the deadline wraps to 29000. */
  lemma ApTimeoutWrapCounterexample(m: Machine)
    requires m.state == ApMode && m.status == NotConnected && m.settings.ssid != ""
    requires m.apStamp == 0xFFFF_FC18
    ensures AddU32(m.apStamp, AP_TIMEOUT) == 29000
    ensures RunSpec(m, 0xFFFF_FC19, NoJson, false).machine.state == ConnectingWifi
  {
  }

  /** The AP timeout as elapsed time since entry, the form the WiFi timeout already uses. */
  predicate ApTimeoutElapsed(now: u32, stamp: u32)
  {
    SubU32(now, stamp) > AP_TIMEOUT
  }

  /**
   * Run with both corrections: the AP timeout measured as elapsed time,
   * and OffLine retrying the transport it can (WiFi when an SSID is set,
   * otherwise Ethernet).
   */
  function RunSpecFixed(m: Machine, now: u32, serial: SerialInput, wifiConnected: bool): RunOutcome
  {
    if m.state == ApMode then
      if m.status == NotConnected && |m.settings.ssid| > 0 && ApTimeoutElapsed(now, m.apStamp)
      then RunOutcome(SetStateSpec(m, ConnectingWifi, now), false)
      else RunOutcome(m, false)
    else if m.state == OffLine then
      RunOutcome(SetStateSpec(m, if |m.settings.ssid| > 0 then ConnectingWifi else ConnectingEthernet, now), false)
    else RunSpec(m, now, serial, wifiConnected)
  }

  /** Corrected: AP mode is left exactly when more than AP_TIMEOUT ms have passed since entry, whatever the clock. */
  lemma ApTimeoutFromEntry(m: Machine, d: u32)
    requires m.state == ApMode && m.status == NotConnected && m.settings.ssid != ""
    ensures RunSpecFixed(m, AddU32(m.apStamp, d), NoJson, false).machine.state == ConnectingWifi
            <==> d > AP_TIMEOUT
  {
    assert SubU32(AddU32(m.apStamp, d), m.apStamp) == d;
  }

  /** Corrected: after a link loss the next Run starts connecting again. */
  lemma LinkLossRetried(m: Machine, now: u32, later: Tick)
    requires m.state == OnLine
    ensures var off := EventSpec(m, StaDisconnected, now);
            var r := RunSpecFixed(off, later.now, later.serial, later.wifiConnected).machine;
            && off.state == OffLine
            && r.state == (if m.settings.ssid != "" then ConnectingWifi else ConnectingEthernet)
  {
  }

  // ---------------------------------------------------------------------
  // The IOT object

  class Iot {
    var networkState: NetworkState
    var networkStatus: NetworkStatus
    var settings: Settings
    var waitInAPTimeStamp: u32
    var wifiConnectionStart: u32
    var mqttTimerArmed: bool
    var modbusRunning: bool
    var publishedOnline: bool
    var calls: seq<DriverCall>
    /** The EEPROM buffer holding the settings string. */
    const eeprom: array<byte>
    /** ArduinoJson's serialiser and parser. */
    const codec: JsonCodec
    /** CONFIG_VERSION, written into the settings document. */
    const version: string

    function Snapshot(): Machine
      reads this
    {
      Machine(networkState, networkStatus, settings, waitInAPTimeStamp, wifiConnectionStart,
              mqttTimerArmed, modbusRunning, calls)
    }

    predicate Valid()
      reads this
    {
      eeprom.Length == EEPROM_SIZE
    }

    /** The field initialisers; `now` is millis() at construction, `stored` the EEPROM contents. */
    constructor(codec: JsonCodec, version: string, now: u32, stored: seq<byte>)
      requires |stored| == EEPROM_SIZE
      ensures Valid() && fresh(eeprom) && eeprom[..] == stored
      ensures this.codec == codec && this.version == version
      ensures Snapshot() == Machine(Boot, NotConnected, Defaults(TAG), now, 0, false, false, [])
      ensures !publishedOnline
    {
      networkState := Boot;
      networkStatus := NotConnected;
      settings := Defaults(TAG);
      waitInAPTimeStamp := now;
      wifiConnectionStart := 0;
      mqttTimerArmed := false;
      modbusRunning := false;
      publishedOnline := false;
      calls := [];
      eeprom := new byte[EEPROM_SIZE](i requires 0 <= i < EEPROM_SIZE => stored[i]);
      this.codec := codec;
      this.version := version;
    }

    method SetState(newState: NetworkState, now: u32)
      modifies this
      ensures Snapshot() == SetStateSpec(old(Snapshot()), newState, now)
      ensures publishedOnline == old(publishedOnline)
    {
      var oldState := networkState;
      networkState := newState;
      match newState {
        case OffLine =>
          calls := calls + [WifiDisconnect, WifiMode(RadioOff)];
        case ApMode =>
          if oldState == ConnectingWifi || oldState == OnLine {
            calls := calls + [WifiDisconnect];
          }
          calls := calls + [WifiMode(RadioAp), SoftAp(settings.apSsid, settings.apPassword)];
          waitInAPTimeStamp := now;
        case ConnectingWifi =>
          wifiConnectionStart := now;
          calls := calls + [SetHostname(settings.apSsid), WifiMode(RadioStation), WifiBegin(settings.ssid, settings.wifiPassword)];
        case ConnectingEthernet =>
          calls := calls + [ConnectEthernet];
        case ConnectingModem =>
          calls := calls + [ConnectModem];
        case _ =>
      }
    }

    method GoOnline(now: u32)
      modifies this
      ensures Snapshot() == GoOnlineSpec(old(Snapshot()), now)
      ensures publishedOnline == old(publishedOnline)
    {
      if networkStatus != APMode {
        if settings.useModbus && !modbusRunning {
          calls := calls + [ModbusStart(settings.modbusPort)];
          modbusRunning := true;
        }
        mqttTimerArmed := true;
        SetState(OnLine, now);
      }
    }

    method GoOffline(now: u32)
      modifies this
      ensures Snapshot() == GoOfflineSpec(old(Snapshot()), now)
      ensures publishedOnline == old(publishedOnline)
    {
      mqttTimerArmed := false;
      SetState(OffLine, now);
    }

    /** The WiFi event handler installed by Init, and the transport GOT_IP handler. */
    method OnNetworkEvent(e: NetworkEvent, now: u32)
      modifies this
      ensures Snapshot() == EventSpec(old(Snapshot()), e, now)
      ensures publishedOnline == old(publishedOnline)
    {
      match e {
        case ApStaDisconnected =>
          networkStatus := NotConnected;
          GoOffline(now);
        case ApStaIpAssigned =>
          networkStatus := APMode;
          GoOnline(now);
        case StaGotIp =>
          networkStatus := WiFiMode;
          GoOnline(now);
        case StaDisconnected =>
          networkStatus := NotConnected;
          GoOffline(now);
        case TransportGotIp =>
          GoOnline(now);
        case OtherEvent =>
      }
    }

    method OnMqttDisconnected()
      modifies this
      ensures Snapshot() == MqttDisconnectSpec(old(Snapshot()))
      ensures publishedOnline == old(publishedOnline)
    {
      if networkState == OnLine {
        mqttTimerArmed := true;
      }
    }

    method Run(now: u32, serial: SerialInput, wifiConnected: bool) returns (restart: bool)
      requires Valid()
      modifies this, eeprom
      ensures Valid()
      ensures var o := RunSpec(old(Snapshot()), now, serial, wifiConnected);
              Snapshot() == o.machine && restart == o.restart
      ensures restart ==> eeprom[..] == StoredImage(old(eeprom[..]), SavedBlob(settings, version, codec))
      ensures !restart ==> eeprom[..] == old(eeprom[..])
      ensures publishedOnline == old(publishedOnline)
    {
      restart := false;
      if networkState == Boot && |settings.ssid| == 0 {
        var credentials := Provisioning(serial);
        if credentials.Some? {
          settings := Provisioned(settings, credentials.value);
          SaveSettings();
          restart := true;
          return;
        }
        SetState(ConnectingEthernet, now);
      } else if networkState == Boot {
        SetState(ApMode, now);
      } else if networkState == ApMode {
        if networkStatus == NotConnected && |settings.ssid| > 0 {
          if now > AddU32(waitInAPTimeStamp, AP_TIMEOUT) {
            SetState(ConnectingWifi, now);
          }
        }
      } else if networkState == ConnectingWifi {
        if !wifiConnected {
          if SubU32(now, wifiConnectionStart) > WIFI_CONNECTION_TIMEOUT {
            calls := calls + [WifiDisconnect];
            SetState(ApMode, now);
          }
        } else {
          SetState(OnLine, now);
          return;
        }
      }
    }

    /** saveSettings: serialise the settings document and store it with its terminator. */
    method SaveSettings()
      modifies eeprom
      ensures eeprom[..] == StoredImage(old(eeprom[..]), SavedBlob(settings, version, codec))
    {
      WriteBlob(eeprom, SavedBlob(settings, version, codec));
    }

    /** loadSettings: read the stored string; parse it, or save the current settings when it does not parse. */
    method LoadSettings()
      modifies this, eeprom
      ensures match LoadFromImage(old(eeprom[..]), codec, TAG)
              case Loaded(s) => settings == s && eeprom[..] == old(eeprom[..])
              case ParseFailed => settings == old(settings)
                                  && eeprom[..] == StoredImage(old(eeprom[..]), SavedBlob(settings, version, codec))
      ensures Snapshot() == old(Snapshot()).(settings := settings)
      ensures publishedOnline == old(publishedOnline)
    {
      var text := ReadBlob(eeprom);
      var doc := codec.read(text);
      if doc.None? {
        SaveSettings();
      } else {
        settings := FromDoc(doc.value, TAG);
      }
    }

    /** The settings part of Init: the factory-reset pin blanks the stored string, otherwise the settings are loaded. */
    method InitSettings(factoryResetPressed: bool)
      requires Valid()
      modifies this, eeprom
      ensures factoryResetPressed ==> eeprom[..] == old(eeprom[..])[0 := 0] && Snapshot() == old(Snapshot())
      ensures !factoryResetPressed ==>
                match LoadFromImage(old(eeprom[..]), codec, TAG)
                case Loaded(s) => settings == s
                case ParseFailed => settings == old(settings)
      ensures publishedOnline == old(publishedOnline)
    {
      if factoryResetPressed {
        EepromWrite(eeprom, 0, 0);
      } else {
        LoadSettings();
      }
    }

    /** PublishOnline: `result` is whether the broker accepted the publish, if one is made. */
    method PublishOnline(result: bool) returns (attempted: bool)
      modifies this
      ensures OnlineStep(old(publishedOnline), result) == Latch(attempted, publishedOnline)
      ensures Snapshot() == old(Snapshot())
    {
      attempted := false;
      if !publishedOnline {
        attempted := true;
        if result {
          publishedOnline := true;
        }
      }
    }
  }
}
