# EdgeBox-PLC firmware core in Dafny

This project models the control core of the EdgeBox-PLC ESP32 firmware and proves properties of that model:

- **The PLC object** (`code/ESP32/main/PLC.cpp`):
  - its two Modbus bit banks (six coils that mirror the digital outputs, four discrete inputs);
  - the Modbus-TCP handlers it registers when the network comes up: Read Coils (0x01), Read Discrete Inputs (0x02), Read Input Registers (0x04), Write Single Coil (0x05) and Write Multiple Coils (0x0F);
  - the MQTT "Write Coil" command;
  - the publish-on-change filter of `Process`.
- **The analog input channel** (`code/ESP32/main/AnalogSensor.cpp`): its name and its smoothing filter.
- **The IOT object**: the network state machine, in the current revision (`code/ESP32/main/IOT.cpp`) and the earlier one (`code/ESP32/src/IOT.cpp`). This covers `Run`, `setState`, `GoOnline`/`GoOffline`, the WiFi event handler, the MQTT-disconnect handler, serial provisioning, the Ethernet fallback, the settings stored as JSON text in EEPROM, and the retained "Online" announcement.

Modules:

| file | module | models |
|---|---|---|
| `common.dfy` | `Common` | fixed-width integers and their wrap-around; big-endian words; Modbus bit packing; decimal text |
| `modbus.dfy` | `Modbus` | the handlers as pure functions from request and process image to response and new process image |
| `plc.dfy` | `Plc` | class `Plc` with the handler methods proved against `Modbus`; the MQTT command; the publish filter |
| `analog.dfy` | `Analog` | class `AnalogSensor` and the filter as a function `Step` |
| `settings.dfy` | `SettingsStore` | the settings record, its JSON document, the EEPROM byte loops, serial provisioning |
| `announce.dfy` | `Announce` | the "Online" latch shared by both revisions |
| `iot_main.dfy` | `IotMain` | class `Iot` of the current revision, proved against `RunSpec`, `SetStateSpec` and the other specification functions |
| `iot_earlier.dfy` | `IotEarlier` | class `Iot` of the earlier revision |

Each class keeps the fields the source updates in place:
- A state-changing method is specified by a function of the old state: `Snapshot() == RunSpec(old(Snapshot()), …)` or `State() == Step(old(State()), v)`.
- The properties are proved as lemmas about that function.
- Driver calls the model cannot see are recorded in order in a `calls` sequence. These are `WiFi.disconnect`, `WiFi.mode`, `WiFi.softAP`, `WiFi.setHostname`, `WiFi.begin`, the Ethernet and modem connects, and Modbus server start.
- `millis()`, `WiFi.status()`, the DHCP result, the serial console, the analog levels and the input pins are parameters.
- The Modbus server is not queried: its start is assumed to succeed (see the assumptions below).

Where the code and the written description of the system differ, the model follows the code:
- **Current revision, boot with no SSID.** The device goes to `ConnectingEthernet` after looking for a provisioning line. It does not stay in a provisioning state.
- **Current revision, `OffLine`.** `Run` never leaves `OffLine`: there is no retry (see Findings).
- **Earlier revision, boot with no SSID.** The device does not always open the access point. With no SSID and a successful DHCP, it goes straight to `OnLine` over Ethernet.
- **`AddReading`.** `code/ESP32/main/include/AnalogSensor.h` declares it as `void AddReading(uint32_t)` with an integer sum. `AnalogSensor.cpp` takes and returns `float`, and the model follows the `.cpp`.
- **Connection-status field.** `code/ESP32/main/include/IOT.h` declares the field as `_NetworkSelection`, while `IOT.cpp` uses `_NetworkStatus`. The model has one field, `networkStatus`.
- **Write Multiple Coils with a wrong byte count.** The description expects 03 (illegal data value) for a request whose byte count does not match its quantity, for example ten coils announced with one byte. `code/ESP32/main/PLC.cpp:321` tests the range before the byte count, so on the six coils that request is answered 02 (illegal data address); `Modbus.WriteCoilsShortByteCount` shows both orders of failure.
- **Current revision, failed Ethernet bring-up.** The description expects a fallback after a connection timeout on every transport. `setState(ConnectingEthernet)` only logs a failed `ConnectEthernet` (`code/ESP32/main/IOT.cpp:487-497`), and `Run` has no branch for `ConnectingEthernet` or `ConnectingModem` (`code/ESP32/main/IOT.cpp:355-452`). Without a got-IP event the device stays in that state; `IotMain.RunIdleStates` shows `Run` leaves it unchanged.
- **Connect callback name.** `GoOnline` calls `IOTCB()->onWiFiConnect()` (`code/ESP32/main/IOT.cpp:40`), and `code/ESP32/main/include/PLC.h:26` declares `onWiFiConnect`. The current interface declares `onNetworkConnect()` (`code/ESP32/main/include/IOTCallbackInterface.h:10`), and `code/ESP32/main/PLC.cpp:188` defines `onNetworkConnect`, which registers the Modbus handlers. The model takes the handlers as registered (module `Modbus`) and does not model the callback itself.
- **Network states of the current revision.** `code/ESP32/main/include/Enumerations.h:14-21` declares `NetworkState` as Boot, ApMode, Connecting, OnLine and OffLine. `code/ESP32/main/IOT.cpp` uses `ConnectingEthernet`, `ConnectingWifi` and `ConnectingModem` instead of `Connecting` (lines 391, 404, 487 and 499). `IotMain.NetworkState` follows the `.cpp`.

Stated assumptions about code that is not part of this model:
- **CoilData (Modbus library).** The model states the behaviour the handlers rely on:
  - `Modbus.SetCoil` and `Modbus.SetCoils` reject an index or range outside the bank, or too few packed bytes;
  - `Modbus.Slice` is empty for such a range.
  - A count of 0 counts as inside the bank at any start up to its end: `Modbus.Slice` of 0 coils is empty and `Modbus.SetCoils` of 0 coils succeeds and changes nothing. So Read Coils or Read Discrete Inputs with quantity 0 answers a byte count of 0, and Write Multiple Coils with quantity 0 (byte count 0) is echoed. CoilData is not part of this model, so its handling of a length of 0 is an assumption.
- **The Modbus TCP server (`ModbusServerTCPasync`).** `start` is taken to succeed, and `isRunning()` is taken to be true from then on. The model does not query the server. It keeps its own flag, `modbusRunning`, which is set whenever the start is recorded (`code/ESP32/main/IOT.cpp:41-43`, `code/ESP32/src/IOT.cpp:90-92`). `IotMain.GoOnlineStartsModbusOnce`, `IotEarlier.ModbusStartedOnce` and the "Modbus running when enabled" clauses of `IotMain.GoOnlineSpec` and `IotEarlier.EventSpec` rest on this assumption. A failed start, which would leave `isRunning()` false and make the next got-IP try again, is not modelled.
- **The Arduino EEPROM library.** A write past the end of the buffer is ignored (`SettingsStore.EepromWrite`).
- **The JSON library.**
  - Its serialiser and parser are a `JsonCodec` pair of functions.
  - The save/load round trip is proved for any codec that parses back what it wrote and writes no NUL byte (`SettingsStore.Faithful`).
  - A member of the wrong JSON type loads as if it were missing (see Left out).
  - `SettingsStore.FactoryResetKeepsCurrent` takes as a hypothesis that the parser rejects the empty text, as a JSON parser does; `SettingsStore.FactoryResetLoad` holds for any parser.
- **The earlier revision's class header.** It is not part of this model, so its field initialisers are taken to be the current revision's (`code/ESP32/main/include/IOT.h`), with its own `TAG` and `EEPROM_SIZE` (`code/ESP32/include/Defines.h`).

## Model

| member | source | states |
|---|---|---|
| Common.SubU16 | code/ESP32/main/PLC.cpp:199 | `addr -= base` on uint16_t: the plain difference when `addr >= base`, otherwise the difference plus 2^16 |
| Common.AddU32 | code/ESP32/main/IOT.cpp:401 | `stamp + AP_TIMEOUT` on unsigned long: the sum, or the sum minus 2^32 once it reaches 2^32 |
| Common.SubU32 | code/ESP32/main/IOT.cpp:412 | `millis() - start`: the elapsed time, also across a wrap of the clock |
| Common.DecodeEncodeWords | code/ESP32/main/PLC.cpp:207-211 | the big-endian words appended to a response decode back to exactly the values appended |
| Common.UnpackPack | code/ESP32/main/PLC.cpp:235-236 | packed coil bytes unpack to exactly the flags packed, first flag in bit 0 of byte 0 |
| Common.IntTextInjective | code/ESP32/main/AnalogSensor.cpp:25-27 | different channel numbers are written as different decimal texts |
| Modbus.SetCoil | code/ESP32/main/PLC.cpp:281 | the bank's single-coil set succeeds iff the index is inside the bank; on success that flag takes the value and no other changes |
| Modbus.SetCoils | code/ESP32/main/PLC.cpp:328-330 | the bank's range set succeeds iff the range fits and enough bytes came; flags outside the range do not change |
| Modbus.InputRegistersResponse | code/ESP32/main/PLC.cpp:191-214 | the FC04 reply starts with the server id and is either a 3-byte exception or 3 header bytes plus two bytes per requested register |
| Modbus.InputRegistersAddressCheck | code/ESP32/main/PLC.cpp:199-204 | FC04 answers exception 02 iff base-adjusted address plus count exceeds AI_PINS |
| Modbus.InputRegistersPayload | code/ESP32/main/PLC.cpp:205-211 | an accepted FC04 answers byte count 2·count and exactly the readings of channels addr .. addr+count-1, in order |
| Modbus.InputRegistersBelowBase | code/ESP32/main/PLC.cpp:199-204 | an address below the base wraps to a huge index and is refused with 02 |
| Modbus.InputRegistersDefaultBase | code/ESP32/main/PLC.cpp:199-211 | with base 1000: address 1000 count 4 returns all four channels, address 999 is refused |
| Modbus.ReadBitsResponse | code/ESP32/main/PLC.cpp:217-262 | the FC01/FC02 reply starts with the server id; in range it is 3 header bytes plus ceil(count/8) packed bytes, out of range it is 6 bytes (the exception frame, then an empty data frame) |
| Modbus.ReadBitsPayload | code/ESP32/main/PLC.cpp:231-236 | an in-range FC01/FC02 answers byte count ceil(count/8) and bytes that unpack to exactly the requested flags |
| Modbus.ReadBitsErrorThenData | code/ESP32/main/PLC.cpp:226-236 | as written, an out-of-range FC01/FC02 reply is the exception frame followed by an empty data frame |
| Modbus.ReadCoilsPastEndCounterexample | code/ESP32/main/PLC.cpp:225-236 | Read Coils at 2000 count 7 replies `01 81 02 01 01 00`, not the three exception bytes |
| Modbus.ReadBitsFixedIsException | code/ESP32/main/PLC.cpp:226-230 | the corrected handler answers an out-of-range read with the exception frame alone and is otherwise the same |
| Modbus.WriteCoilOutcome | code/ESP32/main/PLC.cpp:265-306 | FC05 either echoes the request or leaves bank and pins unchanged, and never changes a coil or pin other than the addressed one |
| Modbus.WriteCoilRejectChangesNothing | code/ESP32/main/PLC.cpp:287-303 | every FC05 reply that is not the echo leaves coil bank and pins unchanged |
| Modbus.WriteCoilDecision | code/ESP32/main/PLC.cpp:273-303 | FC05: 02 past index DO_PINS, 03 for a state other than 0x0000/0xFF00, 04 at index DO_PINS, otherwise echo with that one coil and pin set |
| Modbus.WriteCoilBadState | code/ESP32/main/PLC.cpp:278-297 | a bad state at an accepted index is answered 03 and changes nothing |
| Modbus.WriteCoilPastEndCounterexample | code/ESP32/main/PLC.cpp:274-290 | coil address 2006 (one past the last coil) is answered `01 85 04`, device failure, instead of 02 |
| Modbus.WriteCoilFixedAddressRule | code/ESP32/main/PLC.cpp:274-275 | with `start < DO_PINS`, 02 is answered exactly for indices outside the coils and 04 never |
| Modbus.ExpectedByteCount | code/ESP32/main/PLC.cpp:324 | `((numCoils - 1) >> 3) + 1` equals ceil(numCoils / 8), including 0 for numCoils 0 |
| Modbus.WriteCoilsOutcome | code/ESP32/main/PLC.cpp:309-357 | FC0F keeps the bank's size, never changes a coil outside the requested range, and either leaves bank and pins unchanged or leaves every pin equal to its bank flag |
| Modbus.WriteCoilsDecision | code/ESP32/main/PLC.cpp:321-355 | FC0F: 02 when the range does not fit, 03 on a wrong byte count, 04 when the bytes are missing; each exception changes nothing |
| Modbus.WriteCoilsShortByteCount | code/ESP32/main/PLC.cpp:321-324 | the range is tested before the byte count; a wrong byte count in range is answered 03 |
| Modbus.WriteCoilsAccepted | code/ESP32/main/PLC.cpp:319-337 | every FC0F request inside the range, with byte count (quantity+7)/8 and at least that many bytes, is accepted: the range takes the first `quantity` flags of the announced bytes (padding bits and extra bytes ignored), the rest of the bank is kept, every pin is driven to its bank flag, and the reply echoes start and count |
| Modbus.WriteCoilsAcceptedPacked | code/ESP32/main/PLC.cpp:319-337 | a request whose bytes are exactly the packed flags sets the range to exactly those flags |
| Modbus.WriteCoilsPaddingIgnored | code/ESP32/main/PLC.cpp:321-333 | one coil sent as 0xFF is accepted and switches only coil 0 on |
| Modbus.WriteCoilsEchoCounterexample | code/ESP32/main/PLC.cpp:319-337 | a write at coil address 2000 is echoed with start address 0 |
| Modbus.WriteCoilsFixedEchoesRequest | code/ESP32/main/PLC.cpp:319-337 | for every accepted request, the corrected reply is the request's own first six bytes, with the as-written process image (range = the announced flags, pins = bank) |
| Plc.LowerChar | code/ESP32/main/PLC.cpp:496 | lower-casing leaves no capital, keeps non-capitals and shifts capitals by 32 |
| Plc.ToLower | code/ESP32/main/PLC.cpp:496 | `toLowerCase` keeps the length and lower-cases each character |
| Plc.ToLowerIdempotent | code/ESP32/main/PLC.cpp:496 | lower-casing twice equals lower-casing once |
| Plc.CoilCommand | code/ESP32/main/PLC.cpp:487-511 | a message drives a pin iff it is "Write Coil", coil is 1..DO_PINS and the state is an on or off word; pin coil-1 goes high iff on |
| Plc.ApplyAction | code/ESP32/main/PLC.cpp:499-504 | driving sets exactly the addressed pin; no action changes nothing |
| Plc.CoilCommandIgnoresCase | code/ESP32/main/PLC.cpp:495-497 | two states equal up to case give the same action |
| Plc.CoilCommandExamples | code/ESP32/main/PLC.cpp:491-510 | "HIGH" on coil 1 drives pin 0 high, "Low" on coil 6 drives pin 5 low; coils 0 and 7 and state "toggle" do nothing |
| Plc.PublishFilter | code/ESP32/main/PLC.cpp:381-411 | a pass publishes only while online and only a text different from the last one, which it then remembers; without a publish the remembered text is unchanged; after an online pass it equals the current readings |
| Plc.PublishedNoRepeats | code/ESP32/main/PLC.cpp:404-410 | over any run of passes, no readings text is published twice in a row |
| Plc.SteadyReadingsSilent | code/ESP32/main/PLC.cpp:404-407 | readings equal to the last published text are never published again |
| Plc.SteadyReadingsPublishedOnce | code/ESP32/main/PLC.cpp:381-410 | unchanging readings are published at most once, whatever the network does |
| Plc.Plc.constructor | code/ESP32/main/include/PLC.h:42-50 | six coil flags and four discrete flags, all clear; nothing published yet |
| Plc.Plc.ReadInputRegisters | code/ESP32/main/PLC.cpp:191-214 | the loop's reply equals the FC04 specification on the given levels |
| Plc.Plc.ReadCoils | code/ESP32/main/PLC.cpp:217-238 | the coil bank is refreshed from the output pins and the reply is the FC01 specification on it |
| Plc.Plc.ReadDiscreteInputs | code/ESP32/main/PLC.cpp:241-262 | the discrete bank is refreshed from the input levels and the reply is the FC02 specification on it |
| Plc.Plc.WriteSingleCoil | code/ESP32/main/PLC.cpp:265-306 | reply, coil bank and pins are those of the FC05 specification on the old bank and pins |
| Plc.Plc.WriteMultipleCoils | code/ESP32/main/PLC.cpp:309-357 | reply, coil bank and pins are those of the FC0F specification; the pin loop drives every pin |
| Plc.Plc.OnMqttMessage | code/ESP32/main/PLC.cpp:484-514 | the pins become `ApplyAction(old pins, CoilCommand(msg))` |
| Plc.Plc.OnWebSocketConnect | code/ESP32/main/PLC.cpp:175-176 | a new web-socket client clears the last published text, so the next pass broadcasts |
| Plc.Plc.Process | code/ESP32/main/PLC.cpp:381-411 | publishes iff online and the text differs from the last one published, which then becomes the text |
| Analog.Step | code/ESP32/main/AnalogSensor.cpp:54-61 | the count grows by one up to SAMPLESIZE and then stays |
| Analog.StepValid | code/ESP32/main/AnalogSensor.cpp:54-61 | the count never exceeds SAMPLESIZE |
| Analog.FeedValid | code/ESP32/main/AnalogSensor.cpp:49-63 | every sequence of readings leaves a consistent filter |
| Analog.FeedCount | code/ESP32/main/AnalogSensor.cpp:54-57 | after n readings the count is min(n, SAMPLESIZE) |
| Analog.FirstReading | code/ESP32/main/AnalogSensor.cpp:49-63 | the first reading is returned unchanged |
| Analog.FillingIsMean | code/ESP32/main/AnalogSensor.cpp:54-63 | up to SAMPLESIZE readings, the filter holds their sum and count, so it returns their mean |
| Analog.FullStepMovesFifth | code/ESP32/main/AnalogSensor.cpp:58-63 | once full, each reading moves the average one fifth of the way to it |
| Analog.StepBounded | code/ESP32/main/AnalogSensor.cpp:49-63 | readings inside [lo, hi] keep the sum inside count·lo .. count·hi |
| Analog.FeedSumBounded | code/ESP32/main/AnalogSensor.cpp:49-63 | the same bound over any sequence of readings |
| Analog.FeedWithinBounds | code/ESP32/main/AnalogSensor.cpp:47-64 | the returned average always lies within the range of the readings so far |
| Analog.SteadyInput | code/ESP32/main/AnalogSensor.cpp:47-64 | a constant input reads back exactly |
| Analog.NotASlidingWindow | code/ESP32/main/AnalogSensor.cpp:58-62 | 10 followed by five 0s reads 1.6, not the 0 a five-sample window would give |
| Analog.AnalogSensor.constructor | code/ESP32/main/AnalogSensor.cpp:11-17 | a new sensor has its channel and an empty filter |
| Analog.AnalogSensor.Channel | code/ESP32/main/AnalogSensor.cpp:23-29 | the name is "AI" followed by the channel number: only decimal digits after "AI" for a channel >= 0, a '-' and then digits for a negative one (distinct channels give distinct names, see `Analog.ChannelNamesDistinct`) |
| Analog.ChannelNamesDistinct | code/ESP32/main/AnalogSensor.cpp:23-29 | sensors on different channels have different names |
| Analog.AnalogSensor.AddReading | code/ESP32/main/AnalogSensor.cpp:47-64 | the new filter is `Step(old filter, v)` and the result is its average |
| Announce.OnlineStep | code/ESP32/main/IOT.cpp:659-668 | a publish is attempted iff the latch is clear; the latch is set iff it was set or the publish succeeded |
| Announce.LatchedNeverPublishes | code/ESP32/main/IOT.cpp:661 | once the announcement has succeeded, no later call publishes |
| Announce.PublishesUntilFirstSuccess | code/ESP32/src/IOT.cpp:661-667 | calls publish up to and including the first success, and never after |
| SettingsStore.Defaults | code/ESP32/main/include/IOT.h:50-62 | AP SSID is TAG, AP password "12345678", ports 1883 and 502, id 1, MQTT and Modbus off, other strings empty |
| SettingsStore.U16AsI16Or | code/ESP32/main/IOT.cpp:547 | a missing number gives the default; 0..32767 loads as itself; a negative number loads as 0 |
| SettingsStore.ToDoc | code/ESP32/main/IOT.cpp:560-574 | the saved document is an object whose "iot" member is an object carrying the configuration version |
| SettingsStore.FromDoc | code/ESP32/main/IOT.cpp:539-552 | a document without an "iot" object loads exactly the defaults; within an "iot" object, each missing key gives its own default: AP_SSID the tag, AP_Pw "12345678", mqttPort 1883, modbusPort 502, modbusID 1, useMQTT and useModbus false, and the other strings empty |
| SettingsStore.FromToDoc | code/ESP32/main/IOT.cpp:540-574 | the document saveSettings builds loads back as the same settings (ports and id not negative) |
| SettingsStore.EmptyDocLoadsDefaults | code/ESP32/main/IOT.cpp:540-552 | a document without an "iot" object loads as the defaults |
| SettingsStore.NegativePortReloadsAsZero | code/ESP32/main/IOT.cpp:547-569 | a negative int16_t port is saved as negative and reloads as 0 |
| SettingsStore.Provisioning | code/ESP32/main/IOT.cpp:360-381 | credentials are taken iff a line parses to an object whose "ssid" and "password" are both strings |
| SettingsStore.Provisioned | code/ESP32/main/IOT.cpp:374-377 | provisioning changes the station SSID and password and nothing else |
| SettingsStore.NulIndex | code/ESP32/main/IOT.cpp:522-528 | the read loop stops at the first NUL, or at the end of the buffer |
| SettingsStore.ReadUntilNul | code/ESP32/main/IOT.cpp:522-528 | the string read is a NUL-free prefix of the buffer |
| SettingsStore.StoredImage | code/ESP32/main/IOT.cpp:580-584 | the buffer keeps its size after a save |
| SettingsStore.StoredStringReadsBack | code/ESP32/main/IOT.cpp:580-584 | a NUL-free string shorter than the buffer reads back unchanged |
| SettingsStore.OversizedStringTruncated | code/ESP32/main/IOT.cpp:580-584 | a string that does not fit loses its terminator and reads back cut at the buffer size |
| SettingsStore.FactoryResetBlank | code/ESP32/main/IOT.cpp:68-72 | after the factory reset writes NUL at address 0, the stored string is empty |
| SettingsStore.LoadFromImage | code/ESP32/main/IOT.cpp:518-556 | loading fails (and loadSettings saves instead) iff the text up to the first NUL does not parse; a buffer starting with NUL fails iff the empty text does not parse |
| SettingsStore.SavedBlob | code/ESP32/main/IOT.cpp:558-577 | with a faithful codec the saved bytes contain no NUL and parse back to the saved document |
| SettingsStore.SaveThenLoad | code/ESP32/main/IOT.cpp:518-587 | settings saved with a faithful codec into a large enough buffer load back unchanged |
| SettingsStore.FactoryResetLoad | code/ESP32/main/IOT.cpp:68-76 | after a factory reset, loading parses the empty text |
| SettingsStore.FactoryResetKeepsCurrent | code/ESP32/main/IOT.cpp:68-76 | with a parser that rejects empty text, loading after a factory reset fails, so the settings held are kept and saved |
| SettingsStore.EepromWrite | code/ESP32/main/IOT.cpp:582 | a byte written inside the buffer lands at its address; outside it nothing changes |
| SettingsStore.WriteBlob | code/ESP32/main/IOT.cpp:580-584 | the write loop leaves exactly `StoredImage(old buffer, text)` |
| SettingsStore.ReadBlob | code/ESP32/main/IOT.cpp:522-528 | the read loop returns exactly `ReadUntilNul(buffer)` |
| IotMain.SetStateSpec | code/ESP32/main/IOT.cpp:454-516 | setState enters the requested state, keeps status and settings, and only appends to the log of driver calls |
| IotMain.GoOnlineSpec | code/ESP32/main/IOT.cpp:28-48 | in AP mode nothing changes; otherwise the device is OnLine with the MQTT timer armed and Modbus running when enabled; status and settings are kept and driver calls only appended |
| IotMain.GoOfflineSpec | code/ESP32/main/IOT.cpp:50-57 | OffLine with the MQTT timer stopped, Modbus and settings untouched, and exactly a WiFi disconnect and a radio switch-off appended to the driver calls |
| IotMain.EventSpec | code/ESP32/main/IOT.cpp:81-117 | either disconnect event leaves the device OffLine, NotConnected, timer stopped; STA got-IP leaves it OnLine in WiFi mode with the timer armed; an AP client's IP and unhandled events change neither state nor driver calls; settings are never touched |
| IotMain.MqttDisconnectSpec | code/ESP32/main/IOT.cpp:273-279 | only the reconnect timer can change, and it ends armed iff it was armed or the device is OnLine |
| IotMain.RunSpec | code/ESP32/main/IOT.cpp:355-452 | a restart happens only at Boot with no SSID and issues no driver call; without one the settings are kept; Boot is always left; OnLine, OffLine and the two transport-connecting states are left unchanged; driver calls are only appended |
| IotMain.SetStateEntry | code/ESP32/main/IOT.cpp:454-516 | setState records the new state; the AP stamp resets iff ApMode is entered; the WiFi start resets iff ConnectingWifi is entered; AP entry disconnects iff coming from ConnectingWifi or OnLine |
| IotMain.BootWithoutSsid | code/ESP32/main/IOT.cpp:358-392 | unprovisioned at Boot: restart iff a valid provisioning line arrives (new credentials kept), otherwise ConnectingEthernet |
| IotMain.BootWithSsid | code/ESP32/main/IOT.cpp:393-396 | provisioned at Boot: ApMode, with the AP timeout starting now |
| IotMain.RunInApMode | code/ESP32/main/IOT.cpp:397-406 | ApMode goes to ConnectingWifi iff nobody is connected, an SSID is set and now > stamp + AP_TIMEOUT; otherwise nothing changes |
| IotMain.RunWhileConnectingWifi | code/ESP32/main/IOT.cpp:410-428 | OnLine iff WiFi is connected; ApMode iff not connected and more than WIFI_CONNECTION_TIMEOUT since the start; otherwise it waits |
| IotMain.WifiTimeoutFromEntry | code/ESP32/main/IOT.cpp:412-418 | the WiFi timeout counts from entry to ConnectingWifi, across a wrap of the clock |
| IotMain.RunIdleStates | code/ESP32/main/IOT.cpp:429-452 | Run changes nothing in ConnectingEthernet, ConnectingModem, OnLine and OffLine |
| IotMain.GoOnlineEffect | code/ESP32/main/IOT.cpp:28-48 | outside AP mode: OnLine, MQTT timer armed, Modbus started iff enabled and not running; in AP mode nothing changes |
| IotMain.GoOnlineStartsModbusOnce | code/ESP32/main/IOT.cpp:40-43 | a second GoOnline does not start the Modbus server again |
| IotMain.GoOfflineEffect | code/ESP32/main/IOT.cpp:50-57 | OffLine with the MQTT timer stopped, WiFi disconnected and off |
| IotMain.EventEffect | code/ESP32/main/IOT.cpp:85-115 | STA got-IP goes online in WiFi mode; an AP client's IP only sets AP mode; either disconnect goes offline with status NotConnected; Ethernet/PPP got-IP goes online |
| IotMain.MqttDisconnectEffect | code/ESP32/main/IOT.cpp:273-279 | an MQTT disconnect re-arms the reconnect timer iff the state is OnLine, and changes nothing else |
| IotMain.ProvisioningPersists | code/ESP32/main/IOT.cpp:372-379 | the provisioned credentials are saved so that the next load returns them |
| IotMain.OffLineNeverLeft | code/ESP32/main/IOT.cpp:355-452 | as written, no sequence of Run calls leaves OffLine |
| IotMain.LinkLossIsPermanent | code/ESP32/main/IOT.cpp:109-113 | as written, an online station that loses WiFi stays OffLine for every later Run |
| IotMain.ApTimeoutWrapCounterexample | code/ESP32/main/IOT.cpp:401 | AP mode entered at 2^32-1000 ms is left 1 ms later |
| IotMain.ApTimeoutFromEntry | code/ESP32/main/IOT.cpp:401 | corrected, AP mode is left iff more than AP_TIMEOUT ms have passed since entry, whatever the clock |
| IotMain.LinkLossRetried | code/ESP32/main/IOT.cpp:109-113 | corrected, the Run after a link loss reconnects over WiFi when an SSID is set, otherwise over Ethernet |
| IotMain.Iot.constructor | code/ESP32/main/include/IOT.h:47-70 | Boot, NotConnected, default settings, AP stamp at construction time, nothing published |
| IotMain.Iot.SetState | code/ESP32/main/IOT.cpp:454-516 | the new snapshot is `SetStateSpec(old, state, now)` |
| IotMain.Iot.GoOnline | code/ESP32/main/IOT.cpp:28-48 | the new snapshot is `GoOnlineSpec(old, now)` |
| IotMain.Iot.GoOffline | code/ESP32/main/IOT.cpp:50-57 | the new snapshot is `GoOfflineSpec(old, now)` |
| IotMain.Iot.OnNetworkEvent | code/ESP32/main/IOT.cpp:81-117 | the new snapshot is `EventSpec(old, event, now)` |
| IotMain.Iot.OnMqttDisconnected | code/ESP32/main/IOT.cpp:273-279 | the new snapshot is `MqttDisconnectSpec(old)` |
| IotMain.Iot.Run | code/ESP32/main/IOT.cpp:355-452 | snapshot and restart flag are `RunSpec`'s; on restart the EEPROM holds the saved settings, otherwise it is unchanged |
| IotMain.Iot.SaveSettings | code/ESP32/main/IOT.cpp:558-587 | the EEPROM becomes the old buffer overwritten with the serialised document and its terminator |
| IotMain.Iot.LoadSettings | code/ESP32/main/IOT.cpp:518-556 | parsed text gives the settings loaded from it; unparsable text keeps the settings and saves them |
| IotMain.Iot.InitSettings | code/ESP32/main/IOT.cpp:68-78 | the factory-reset pin blanks address 0 and loads nothing; otherwise the settings are loaded |
| IotMain.Iot.PublishOnline | code/ESP32/main/IOT.cpp:659-668 | attempt and latch follow `OnlineStep` |
| IotEarlier.SetStateSpec | code/ESP32/src/IOT.cpp:481-518 | setState enters the requested state, keeps status and settings, and only appends to the log of driver calls |
| IotEarlier.EventSpec | code/ESP32/src/IOT.cpp:51-108 | events never change state or settings; the disconnects set NotConnected (the STA one also stops the timer); STA got-IP sets WiFi mode, arms the timer and starts Modbus when enabled |
| IotEarlier.MqttDisconnectSpec | code/ESP32/src/IOT.cpp:121-126 | only the reconnect timer can change, and it ends armed iff it was armed or WiFi is connected |
| IotEarlier.EthernetFallback | code/ESP32/src/IOT.cpp:401-411 | DHCP is started first; success means OnLine in Ethernet mode, failure means ApMode with the AP timeout restarted; settings kept |
| IotEarlier.Chain | code/ESP32/src/IOT.cpp:420-455 | Boot always becomes ApMode; OnLine and OffLine are left unchanged; status and settings are kept and driver calls only appended |
| IotEarlier.RunSpec | code/ESP32/src/IOT.cpp:345-479 | a restart happens only when unconnected with no SSID, keeps the state and issues no driver call; without one the settings are kept and Boot is always left; driver calls are only appended |
| IotEarlier.EnterApMode | code/ESP32/src/IOT.cpp:491-506 | entering ApMode resets the AP stamp and disconnects iff coming from Connecting or OnLine |
| IotEarlier.UnprovisionedRun | code/ESP32/src/IOT.cpp:348-419 | no SSID and not connected: restart iff provisioning; otherwise DHCP success gives OnLine over Ethernet, failure gives ApMode, from any state |
| IotEarlier.EthernetRetriedEveryRun | code/ESP32/src/IOT.cpp:348-404 | while DHCP fails and nobody joins, every Run tries DHCP again and reopens the access point |
| IotEarlier.BootOpensAccessPoint | code/ESP32/src/IOT.cpp:420-423 | provisioned or connected at Boot: the access point opens, with the AP timeout starting now |
| IotEarlier.RunInApMode | code/ESP32/src/IOT.cpp:424-433 | ApMode goes to Connecting iff nobody is connected and now > stamp + AP_TIMEOUT |
| IotEarlier.RunWhileConnecting | code/ESP32/src/IOT.cpp:437-455 | OnLine iff connected; ApMode iff not connected past the WiFi timeout; otherwise it waits |
| IotEarlier.EventEffect | code/ESP32/src/IOT.cpp:56-106 | events never change the state; they set the status, and only the station events arm or stop the MQTT timer |
| IotEarlier.ModbusStartedOnce | code/ESP32/src/IOT.cpp:89-93 | a repeated STA got-IP does not start the Modbus server twice |
| IotEarlier.MqttDisconnectEffect | code/ESP32/src/IOT.cpp:121-126 | the reconnect timer is re-armed iff WiFi is still connected |
| IotEarlier.ApTimeoutWrapCounterexample | code/ESP32/src/IOT.cpp:428 | AP mode entered at 2^32-1000 ms is left 1 ms later |
| IotEarlier.ApTimeoutFromEntry | code/ESP32/src/IOT.cpp:428 | corrected, AP mode is left iff more than AP_TIMEOUT ms have passed since entry |
| IotEarlier.Iot.constructor | code/ESP32/main/include/IOT.h:47-70 | Boot, NotConnected, default settings with TAG "ESP_PLC", a 512-byte EEPROM |
| IotEarlier.Iot.SetState | code/ESP32/src/IOT.cpp:481-518 | the new snapshot is `SetStateSpec(old, state, now)` |
| IotEarlier.Iot.OnWifiEvent | code/ESP32/src/IOT.cpp:51-108 | the new snapshot is `EventSpec(old, event)` |
| IotEarlier.Iot.OnMqttDisconnected | code/ESP32/src/IOT.cpp:121-127 | the new snapshot is `MqttDisconnectSpec(old, connected)` |
| IotEarlier.Iot.Run | code/ESP32/src/IOT.cpp:345-479 | snapshot and restart flag are `RunSpec`'s (fallback, then the state chain); on restart the EEPROM holds the saved settings |
| IotEarlier.Iot.StartEthernet | code/ESP32/src/IOT.cpp:401-411 | the new snapshot is `EthernetFallback(old, now, dhcpOk)` |
| IotEarlier.Iot.StepWifi | code/ESP32/src/IOT.cpp:420-455 | the new snapshot is `Chain(old, now, wifiConnected)` |
| IotEarlier.Iot.SaveSettings | code/ESP32/src/IOT.cpp:560-589 | the EEPROM becomes the old buffer overwritten with the serialised document and its terminator |
| IotEarlier.Iot.LoadSettings | code/ESP32/src/IOT.cpp:520-558 | parsed text gives the settings loaded from it; unparsable text keeps the settings and saves them |
| IotEarlier.Iot.InitSettings | code/ESP32/src/IOT.cpp:37-47 | the factory-reset pin blanks address 0; otherwise the settings are loaded |
| IotEarlier.Iot.Online | code/ESP32/src/IOT.cpp:661-667 | attempt and latch follow `OnlineStep`: the latch takes the publish result |

## Left out

- Analog levels: the ADC read, the scaling to percent and `roundf` in `Level()` are not modelled. FC04 takes the channels' uint16_t levels as a parameter. The filter update that `Level()` performs on each FC04 read is not modelled.
- Analog arithmetic: `float` is modelled with exact reals, so rounding error is not captured.
- Readings text: the JSON text `Process` builds and its serialisation are a parameter of `Process`. `Publish`, `PublishOnline` and the web-socket broadcast that follow a change are reduced to the `published` result.
- Discovery and the web interface: the MQTT discovery messages, the web pages, the web log, OTA, mDNS, the DNS server and the LED blinking in `Run` are not modelled (user interface and diagnostics).
- The connect callback: the `IOTCB()->onWiFiConnect()` call in `GoOnline` (`code/ESP32/main/IOT.cpp:40`, `code/ESP32/src/IOT.cpp:89`) is not recorded in `calls`. Its effect, registering the Modbus handlers, is taken as done; the handlers are modelled in module `Modbus`.
- The "plc" settings section (`onSaveSetting`/`onLoadSetting` callbacks) is not modelled; only the "iot" object is.
- JSON typing: a member of the wrong JSON type loads as its default. The library's own conversions (for example a number given as a string) are not modelled.
- `SettingsStore.U16AsI16Or`: a number outside 0..65535 loads as 0. Whether the library rounds or rejects fractional numbers is not modelled, since the document has integers only.
- The JSON library: the text format is outside the model, so the codec is abstract.
- Driver calls: the WiFi, Ethernet, modem and Modbus-server drivers are recorded as calls. The network drivers' effects arrive as events or as `Run` inputs. The Modbus server's start is assumed to succeed, and `isRunning()` is replaced by the model's own `modbusRunning` flag (see the stated assumptions). `EdgeBoxNet.cpp` is not part of this model beyond its got-IP handler calling `GoOnline`.
- Clock: one clock value `now` per `Run` call (or per event), and every `millis()` read during that call is taken to return it. The source reads the clock again in several places:
  - the WiFi timeout test (`code/ESP32/main/IOT.cpp:414`, `code/ESP32/src/IOT.cpp:441`);
  - `setState`'s entry stamps `_waitInAPTimeStamp = millis()` (`code/ESP32/main/IOT.cpp:478`, `code/ESP32/src/IOT.cpp:505`);
  - `setState`'s `_wifiConnectionStart = millis()` (`code/ESP32/main/IOT.cpp:481`, `code/ESP32/src/IOT.cpp:508`).

  The model stamps all of these with `now`, so it leaves out the milliseconds that pass within one call.
- MQTT client: setup, subscription, message parsing beyond the "Write Coil" fields, and the reconnect timer's callback are not modelled. The timer is a flag.
- Restart: after `esp_restart()` nothing runs, so `Run` ends with `restart` true.
- Concurrency: the event handlers, timers and the main loop run on different tasks. The model runs them one after another.
- `IotEarlier.Iot.Run`: the MAC-address and IP printing on the serial console is not modelled (output only).

## Findings

| source | as written | input that shows it | evidently intended | confidence | as-written member | corrected member |
|---|---|---|---|---|---|---|
| code/ESP32/main/IOT.cpp:401 and code/ESP32/src/IOT.cpp:428 | `now > _waitInAPTimeStamp + AP_TIMEOUT` on 32-bit unsigned long wraps when the stamp is within 30 s of 2^32 | AP mode entered at 4294966296 ms; the deadline wraps to 29000, and one millisecond later `Run` already switches to WiFi | leave AP mode after more than AP_TIMEOUT ms since entry, as the WiFi timeout at line 412 measures it | not executed | IotMain.ApTimeoutWrapCounterexample, IotEarlier.ApTimeoutWrapCounterexample | IotMain.ApTimeoutFromEntry, IotEarlier.ApTimeoutFromEntry |
| code/ESP32/main/PLC.cpp:275 | `start <= DO_PINS` accepts index 6 of six coils, and the bank's set then fails | Write Single Coil at address 2006, state 0xFF00: reply `01 85 04` (device failure) | `start < DO_PINS`, answering 02 (illegal address) | not executed | Modbus.WriteCoilPastEndCounterexample | Modbus.WriteCoilFixedAddressRule |
| code/ESP32/main/PLC.cpp:319, 337 | the echo carries `start` after the base has been subtracted | Write Multiple Coils at 2000 with one coil: reply echoes start 0 | echo the starting address the client sent (section 6.11 of the Modbus Application Protocol Specification V1.1b3) | not executed | Modbus.WriteCoilsEchoCounterexample | Modbus.WriteCoilsFixedEchoesRequest |
| code/ESP32/main/PLC.cpp:226-236, 250-260 | after `setError` the handler goes on and appends a data frame | Read Coils at 2000 with count 7: reply `01 81 02 01 01 00` | return the exception frame alone | not executed | Modbus.ReadCoilsPastEndCounterexample | Modbus.ReadBitsFixedIsException |
| code/ESP32/main/IOT.cpp:429-452 | `Run` has no branch for OffLine, and no handler leaves it except a got-IP event | a station that is OnLine loses WiFi: `StaDisconnected` sets OffLine with the radio off, and every later `Run` leaves it there | an OffLine device retries its connection on the next `Run` | not executed | IotMain.LinkLossIsPermanent | IotMain.LinkLossRetried |
