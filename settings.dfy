/**
 * The persistent network settings of the IOT object (loadSettings and
 * saveSettings in code/ESP32/main/IOT.cpp and code/ESP32/src/IOT.cpp).
 *
 * The settings travel as a JSON document whose "iot" object holds one
 * member per setting. The document is serialised to text and stored in
 * the EEPROM byte buffer as a NUL-terminated string; loading reads up to
 * the first NUL or the end of the buffer, parses, and fills every missing
 * member with its default.
 *
 * The JSON text codec belongs to a library outside this model; it is a
 * pair of functions, and the round trip is proved for any codec that
 * parses back what it wrote and never writes a NUL byte.
 */
module SettingsStore {
  import opened Common

  // ---------------------------------------------------------------------
  // Documents and the text codec

  datatype Json = JStr(str: string) | JBool(flag: bool) | JNum(num: int) | JObj(members: map<string, Json>)

  datatype JsonCodec = JsonCodec(write: Json -> seq<byte>, read: seq<byte> -> Option<Json>)

  /** A codec that parses back exactly what it wrote, and writes no NUL byte. */
  ghost predicate Faithful(c: JsonCodec)
  {
    forall j: Json :: c.read(c.write(j)) == Some(j) && 0 !in c.write(j)
  }

  // ---------------------------------------------------------------------
  // The settings record

  const DEFAULT_AP_PASSWORD := "12345678"
  const DEFAULT_MQTT_PORT: i16 := 1883
  const DEFAULT_MODBUS_PORT: i16 := 502
  const DEFAULT_MODBUS_ID: i16 := 1

  /** The IOT fields that are persisted; the three numbers are int16_t fields. */
  datatype Settings = Settings(
    apSsid: string, apPassword: string, ssid: string, wifiPassword: string,
    useMqtt: bool, mqttServer: string, mqttPort: i16, mqttUser: string, mqttPassword: string,
    useModbus: bool, modbusPort: i16, modbusId: i16)

  /** The field initialisers of the IOT class; `tag` is the firmware's TAG. */
  function Defaults(tag: string): (s: Settings)
    ensures s.apSsid == tag && s.apPassword == DEFAULT_AP_PASSWORD
    ensures s.ssid == "" && s.wifiPassword == "" && s.mqttServer == ""
    ensures !s.useMqtt && !s.useModbus
    ensures s.mqttPort == 1883 && s.modbusPort == 502 && s.modbusId == 1
  {
    Settings(tag, DEFAULT_AP_PASSWORD, "", "", false, "", DEFAULT_MQTT_PORT, "", "", false, DEFAULT_MODBUS_PORT, DEFAULT_MODBUS_ID)
  }

  /** The "iot" object saveSettings builds. */
  function ToObject(s: Settings, version: string): map<string, Json>
  {
    map[
      "version" := JStr(version),
      "AP_SSID" := JStr(s.apSsid),
      "AP_Pw" := JStr(s.apPassword),
      "SSID" := JStr(s.ssid),
      "WiFi_Pw" := JStr(s.wifiPassword),
      "useMQTT" := JBool(s.useMqtt),
      "mqttServer" := JStr(s.mqttServer),
      "mqttPort" := JNum(s.mqttPort),
      "mqttUser" := JStr(s.mqttUser),
      "mqttPw" := JStr(s.mqttPassword),
      "useModbus" := JBool(s.useModbus),
      "modbusPort" := JNum(s.modbusPort),
      "modbusID" := JNum(s.modbusId)
    ]
  }

  /** The whole document: the "iot" object under the root. */
  function ToDoc(s: Settings, version: string): (d: Json)
    ensures d.JObj? && "iot" in d.members && d.members["iot"].JObj?
    ensures "version" in d.members["iot"].members && d.members["iot"].members["version"] == JStr(version)
  {
    JObj(map["iot" := JObj(ToObject(s, version))])
  }

  function StringOr(obj: map<string, Json>, key: string, dflt: string): string
  {
    if key in obj && obj[key].JStr? then obj[key].str else dflt
  }

  function BoolOr(obj: map<string, Json>, key: string, dflt: bool): bool
  {
    if key in obj && obj[key].JBool? then obj[key].flag else dflt
  }

  /**
   * `as<uint16_t>()` (a number outside 0 .. 65535 converts to 0) stored
   * into an int16_t field (values from 0x8000 up wrap to negative).
   */
  function U16AsI16Or(obj: map<string, Json>, key: string, dflt: i16): (v: i16)
    ensures key in obj && obj[key].JNum? && 0 <= obj[key].num < 0x8000 ==> v == obj[key].num
    ensures key in obj && obj[key].JNum? && obj[key].num < 0 ==> v == 0
    ensures !(key in obj && obj[key].JNum?) ==> v == dflt
  {
    if key in obj && obj[key].JNum? then
      var n := obj[key].num;
      var u := if 0 <= n < 0x1_0000 then n else 0;
      if u >= 0x8000 then u - 0x1_0000 else u
    else dflt
  }

  /** The members of the document's "iot" object, or none when it has no such object. */
  function IotMembers(doc: Json): map<string, Json>
  {
    if doc.JObj? && "iot" in doc.members && doc.members["iot"].JObj? then doc.members["iot"].members else map[]
  }

  /** What loadSettings assigns from a parsed document: each member, or its default when missing. */
  function FromDoc(doc: Json, tag: string): (s: Settings)
    ensures IotMembers(doc) == map[] ==> s == Defaults(tag)
    ensures "AP_SSID" !in IotMembers(doc) ==> s.apSsid == tag
    ensures "AP_Pw" !in IotMembers(doc) ==> s.apPassword == DEFAULT_AP_PASSWORD
    ensures "SSID" !in IotMembers(doc) ==> s.ssid == ""
    ensures "WiFi_Pw" !in IotMembers(doc) ==> s.wifiPassword == ""
    ensures "useMQTT" !in IotMembers(doc) ==> !s.useMqtt
    ensures "mqttServer" !in IotMembers(doc) ==> s.mqttServer == ""
    ensures "mqttPort" !in IotMembers(doc) ==> s.mqttPort == 1883
    ensures "mqttUser" !in IotMembers(doc) ==> s.mqttUser == ""
    ensures "mqttPw" !in IotMembers(doc) ==> s.mqttPassword == ""
    ensures "useModbus" !in IotMembers(doc) ==> !s.useModbus
    ensures "modbusPort" !in IotMembers(doc) ==> s.modbusPort == 502
    ensures "modbusID" !in IotMembers(doc) ==> s.modbusId == 1
  {
    var iot := IotMembers(doc);
    var d := Defaults(tag);
    Settings(
      StringOr(iot, "AP_SSID", d.apSsid),
      StringOr(iot, "AP_Pw", d.apPassword),
      StringOr(iot, "SSID", d.ssid),
      StringOr(iot, "WiFi_Pw", d.wifiPassword),
      BoolOr(iot, "useMQTT", d.useMqtt),
      StringOr(iot, "mqttServer", d.mqttServer),
      U16AsI16Or(iot, "mqttPort", d.mqttPort),
      StringOr(iot, "mqttUser", d.mqttUser),
      StringOr(iot, "mqttPw", d.mqttPassword),
      BoolOr(iot, "useModbus", d.useModbus),
      U16AsI16Or(iot, "modbusPort", d.modbusPort),
      U16AsI16Or(iot, "modbusID", d.modbusId))
  }

  /** The numbers survive a save and load only while they are not negative. */
  predicate Storable(s: Settings)
  {
    s.mqttPort >= 0 && s.modbusPort >= 0 && s.modbusId >= 0
  }

  /** Loading the document saveSettings builds gives back the settings it was built from. */
  lemma FromToDoc(s: Settings, version: string, tag: string)
    requires Storable(s)
    ensures FromDoc(ToDoc(s, version), tag) == s
  {
    var obj := ToObject(s, version);
    assert IotMembers(ToDoc(s, version)) == obj;
  }

  /** A document without an "iot" object loads as the defaults. */
  lemma EmptyDocLoadsDefaults(doc: Json, tag: string)
    requires !doc.JObj? || "iot" !in doc.members || !doc.members["iot"].JObj?
    ensures FromDoc(doc, tag) == Defaults(tag)
  {
  }

  /** A negative port saved from an int16_t field reloads as 0, not as the saved port. */
  lemma NegativePortReloadsAsZero(s: Settings, version: string, tag: string)
    requires s.mqttPort < 0
    ensures FromDoc(ToDoc(s, version), tag).mqttPort == 0
  {
    assert IotMembers(ToDoc(s, version)) == ToObject(s, version);
  }

  // ---------------------------------------------------------------------
  // Serial provisioning

  /**
   * What Run finds on the serial console while unprovisioned: no JSON
   * object (nothing, or a byte that is discarded), or a line starting with
   * '{' and the outcome of parsing it (None for a parse error).
   */
  datatype SerialInput = NoJson | JsonLine(parsed: Option<Json>)

  datatype Credentials = Credentials(ssid: string, password: string)

  /** The station credentials a provisioning line carries: both "ssid" and "password" must be strings. */
  function Provisioning(input: SerialInput): (c: Option<Credentials>)
    ensures c.Some? <==> input.JsonLine? && input.parsed.Some? && input.parsed.value.JObj?
                         && "ssid" in input.parsed.value.members && input.parsed.value.members["ssid"].JStr?
                         && "password" in input.parsed.value.members && input.parsed.value.members["password"].JStr?
    ensures c.Some? ==> c.value == Credentials(input.parsed.value.members["ssid"].str,
                                               input.parsed.value.members["password"].str)
  {
    if input.JsonLine? && input.parsed.Some? then
      var doc := input.parsed.value;
      if doc.JObj? && "ssid" in doc.members && doc.members["ssid"].JStr?
         && "password" in doc.members && doc.members["password"].JStr?
      then Some(Credentials(doc.members["ssid"].str, doc.members["password"].str))
      else None
    else None
  }

  /** The settings after provisioning: only the station SSID and password change. */
  function Provisioned(s: Settings, c: Credentials): (t: Settings)
    ensures t.ssid == c.ssid && t.wifiPassword == c.password
    ensures t.(ssid := s.ssid, wifiPassword := s.wifiPassword) == s
  {
    s.(ssid := c.ssid, wifiPassword := c.password)
  }

  // ---------------------------------------------------------------------
  // The EEPROM byte buffer

  /** Where the stored string ends: the first NUL, or the end of the buffer. */
  function NulIndex(img: seq<byte>): (n: nat)
    ensures n <= |img|
    ensures forall k :: 0 <= k < n ==> img[k] != 0
    ensures n < |img| ==> img[n] == 0
  {
    if img == [] || img[0] == 0 then 0 else 1 + NulIndex(img[1..])
  }

  /** The string loadSettings reads. */
  function ReadUntilNul(img: seq<byte>): (s: seq<byte>)
    ensures 0 !in s
    ensures |s| <= |img| && s == img[..|s|]
  {
    img[..NulIndex(img)]
  }

  /** The end of the stored string is determined by the three facts NulIndex promises. */
  lemma NulIndexUnique(img: seq<byte>, n: nat)
    requires n <= |img|
    requires forall k :: 0 <= k < n ==> img[k] != 0
    requires n < |img| ==> img[n] == 0
    ensures NulIndex(img) == n
  {
  }

  /**
   * The buffer after saveSettings wrote `blob` and its terminator, a write
   * past the end of the buffer being ignored.
   */
  function StoredImage(before: seq<byte>, blob: seq<byte>): (img: seq<byte>)
    ensures |img| == |before|
  {
    seq(|before|, i requires 0 <= i < |before| =>
      if i < |blob| then blob[i] else if i == |blob| then 0 else before[i])
  }

  /** A string shorter than the buffer and free of NULs reads back unchanged. */
  lemma StoredStringReadsBack(before: seq<byte>, blob: seq<byte>)
    requires |blob| < |before|
    requires 0 !in blob
    ensures ReadUntilNul(StoredImage(before, blob)) == blob
  {
    var img := StoredImage(before, blob);
    forall k | 0 <= k < |blob|
      ensures img[k] != 0
    {
      assert img[k] == blob[k];
    }
    NulIndexUnique(img, |blob|);
  }

  /** A string that does not fit loses its terminator and reads back cut at the buffer size. */
  lemma OversizedStringTruncated(before: seq<byte>, blob: seq<byte>)
    requires |blob| >= |before|
    requires 0 !in blob
    ensures ReadUntilNul(StoredImage(before, blob)) == blob[..|before|]
  {
    var img := StoredImage(before, blob);
    assert img == blob[..|before|];
    forall k | 0 <= k < |img|
      ensures img[k] != 0
    {
      assert img[k] == blob[k];
    }
    NulIndexUnique(img, |img|);
  }

  /** The factory reset writes NUL at address 0, after which the stored string is empty. */
  lemma FactoryResetBlank(img: seq<byte>)
    requires |img| > 0
    ensures ReadUntilNul(img[0 := 0]) == []
  {
    NulIndexUnique(img[0 := 0], 0);
  }

  // ---------------------------------------------------------------------
  // Save and load as a whole

  datatype LoadResult = Loaded(settings: Settings) | ParseFailed

  /** loadSettings' decision: the loaded settings, or a parse failure (which makes it save). */
  function LoadFromImage(img: seq<byte>, codec: JsonCodec, tag: string): (r: LoadResult)
    ensures r.ParseFailed? <==> codec.read(ReadUntilNul(img)).None?
    ensures img != [] && img[0] == 0 ==> (r.ParseFailed? <==> codec.read([]).None?)
  {
    match codec.read(ReadUntilNul(img))
    case None => ParseFailed
    case Some(doc) => Loaded(FromDoc(doc, tag))
  }

  /** The bytes saveSettings stores. */
  function SavedBlob(s: Settings, version: string, codec: JsonCodec): (b: seq<byte>)
    ensures Faithful(codec) ==> 0 !in b && codec.read(b) == Some(ToDoc(s, version))
  {
    codec.write(ToDoc(s, version))
  }

  /** Settings saved into a buffer large enough for their text load back unchanged. */
  lemma SaveThenLoad(before: seq<byte>, s: Settings, version: string, tag: string, codec: JsonCodec)
    requires Faithful(codec)
    requires Storable(s)
    requires |SavedBlob(s, version, codec)| < |before|
    ensures LoadFromImage(StoredImage(before, SavedBlob(s, version, codec)), codec, tag) == Loaded(s)
  {
    var blob := SavedBlob(s, version, codec);
    assert codec.read(codec.write(ToDoc(s, version))) == Some(ToDoc(s, version)) && 0 !in blob;
    StoredStringReadsBack(before, blob);
    FromToDoc(s, version, tag);
  }

  /** After a factory reset the stored string is empty, and loading it is whatever the codec makes of no text. */
  lemma FactoryResetLoad(img: seq<byte>, codec: JsonCodec, tag: string)
    requires |img| > 0
    ensures LoadFromImage(img[0 := 0], codec, tag)
            == (match codec.read([]) case None => ParseFailed case Some(doc) => Loaded(FromDoc(doc, tag)))
  {
    FactoryResetBlank(img);
  }

  /**
   * With a parser that rejects empty text (as a JSON parser does), loading
   * after a factory reset fails, so loadSettings keeps the settings it
   * already holds and saves them.
   */
  lemma FactoryResetKeepsCurrent(img: seq<byte>, codec: JsonCodec, tag: string)
    requires |img| > 0
    requires codec.read([]) == None
    ensures LoadFromImage(img[0 := 0], codec, tag) == ParseFailed
  {
    FactoryResetLoad(img, codec, tag);
  }

  // ---------------------------------------------------------------------
  // The byte loops

  /** EEPROM.write: a byte at an address inside the buffer; an address outside it is ignored. */
  method EepromWrite(eeprom: array<byte>, address: int, value: byte)
    modifies eeprom
    ensures 0 <= address < eeprom.Length ==> eeprom[..] == old(eeprom[..])[address := value]
    ensures !(0 <= address < eeprom.Length) ==> eeprom[..] == old(eeprom[..])
  {
    if 0 <= address < eeprom.Length {
      eeprom[address] := value;
    }
  }

  /** The write loop of saveSettings: the string's bytes, then the terminator. */
  method WriteBlob(eeprom: array<byte>, blob: seq<byte>)
    modifies eeprom
    ensures eeprom[..] == StoredImage(old(eeprom[..]), blob)
  {
    for i := 0 to |blob|
      invariant forall k :: 0 <= k < eeprom.Length ==> eeprom[k] == (if k < i then blob[k] else old(eeprom[k]))
    {
      EepromWrite(eeprom, i, blob[i]);
    }
    EepromWrite(eeprom, |blob|, 0);
  }

  /** The read loop of loadSettings: bytes up to the first NUL or the end of the buffer. */
  method ReadBlob(eeprom: array<byte>) returns (blob: seq<byte>)
    ensures blob == ReadUntilNul(eeprom[..])
  {
    blob := [];
    var i := 0;
    while i < eeprom.Length
      invariant 0 <= i <= eeprom.Length
      invariant blob == eeprom[..i]
      invariant forall k :: 0 <= k < i ==> eeprom[k] != 0
    {
      if eeprom[i] == 0 {
        break;
      }
      blob := blob + [eeprom[i]];
      i := i + 1;
    }
    NulIndexUnique(eeprom[..], i);
  }
}
