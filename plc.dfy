/**
 * The PLC object of the firmware (code/ESP32/main/PLC.cpp): its two Modbus
 * bit banks (the coil bank mirroring the six digital outputs, the discrete
 * bank mirroring the four digital inputs), the output pins themselves, the
 * Modbus handlers that read and update them, the MQTT "Write Coil" command
 * and the publish-on-change filter of Process.
 *
 * The handlers are proved against the specifications in module Modbus.
 */
module Plc {
  import opened Common
  import opened Modbus

  // ---------------------------------------------------------------------
  // MQTT "Write Coil"

  /** tolower on one character: ASCII capitals become small letters, everything else is kept. */
  function LowerChar(c: char): (d: char)
    ensures !('A' <= d <= 'Z')
    ensures !('A' <= c <= 'Z') ==> d == c
    ensures 'A' <= c <= 'Z' ==> d as int - c as int == 32
  {
    if 'A' <= c <= 'Z' then (c as int + 32) as char else c
  }

  /** String::toLowerCase. */
  function ToLower(s: string): (t: string)
    ensures |t| == |s|
    ensures forall i :: 0 <= i < |s| ==> t[i] == LowerChar(s[i])
  {
    seq(|s|, i requires 0 <= i < |s| => LowerChar(s[i]))
  }

  /** Lower-casing twice is lower-casing once. */
  lemma ToLowerIdempotent(s: string)
    ensures ToLower(ToLower(s)) == ToLower(s)
  {
    var t := ToLower(s);
    forall i | 0 <= i < |t|
      ensures ToLower(t)[i] == t[i]
    {
      assert !('A' <= t[i] <= 'Z');
    }
  }

  /**
   * The parts of an MQTT command document onMqttMessage reads: the
   * "command" member if present, "coil" converted to int (0 when absent)
   * and "state" converted to a String.
   */
  datatype MqttMessage = MqttMessage(command: Option<string>, coil: int, state: string)

  /** What a message asks of the outputs. */
  datatype CoilAction = NoAction | Drive(index: nat, level: bool)

  predicate IsOnWord(s: string) { s == "on" || s == "high" || s == "1" }
  predicate IsOffWord(s: string) { s == "off" || s == "low" || s == "0" }

  /**
   * The "Write Coil" command: `coil` counts from 1; a coil outside
   * 1 .. DO_PINS, another command or an unknown state does nothing.
   */
  function CoilCommand(msg: MqttMessage): (a: CoilAction)
    ensures a.Drive? <==> msg.command == Some("Write Coil") && 1 <= msg.coil <= DO_PINS
                          && (IsOnWord(ToLower(msg.state)) || IsOffWord(ToLower(msg.state)))
    ensures a.Drive? ==> a.index == msg.coil - 1 && a.level == IsOnWord(ToLower(msg.state))
  {
    if msg.command == Some("Write Coil") && 0 <= msg.coil - 1 < DO_PINS then
      var input := ToLower(msg.state);
      if IsOnWord(input) then Drive(msg.coil - 1, true)
      else if IsOffWord(input) then Drive(msg.coil - 1, false)
      else NoAction
    else NoAction
  }

  /** The pin levels after an action. */
  function ApplyAction(pins: seq<bool>, a: CoilAction): (r: seq<bool>)
    requires a.Drive? ==> a.index < |pins|
    ensures |r| == |pins|
    ensures forall i :: 0 <= i < |pins| && !(a.Drive? && i == a.index) ==> r[i] == pins[i]
    ensures a.Drive? ==> r[a.index] == a.level
  {
    if a.Drive? then pins[a.index := a.level] else pins
  }

  /** The state word is matched without regard to case: "ON", "On" and "on" act alike. */
  lemma CoilCommandIgnoresCase(msg: MqttMessage, state: string)
    requires ToLower(state) == ToLower(msg.state)
    ensures CoilCommand(msg.(state := state)) == CoilCommand(msg)
  {
  }

  /** "HIGH" on coil 1 drives output 0 high; "Low" on coil 6 drives output 5 low; coil 0 and coil 7 do nothing. */
  lemma CoilCommandExamples()
    ensures CoilCommand(MqttMessage(Some("Write Coil"), 1, "HIGH")) == Drive(0, true)
    ensures CoilCommand(MqttMessage(Some("Write Coil"), 6, "Low")) == Drive(5, false)
    ensures CoilCommand(MqttMessage(Some("Write Coil"), 0, "on")) == NoAction
    ensures CoilCommand(MqttMessage(Some("Write Coil"), 7, "on")) == NoAction
    ensures CoilCommand(MqttMessage(Some("Write Coil"), 3, "toggle")) == NoAction
  {
    assert ToLower("HIGH") == "high";
    assert ToLower("Low") == "low";
    assert ToLower("toggle") == "toggle";
  }

  // ---------------------------------------------------------------------
  // Publish on change

  /** One pass of Process: whether the network is up and the readings text it built. */
  datatype Tick = Tick(online: bool, readings: string)

  datatype Publication = Publication(publish: bool, last: string)

  /** The filter of Process: publish when online and the text differs from the last one published. */
  function PublishFilter(last: string, t: Tick): (p: Publication)
    ensures p.publish ==> t.online && p.last == t.readings && p.last != last
    ensures !p.publish ==> p.last == last
    ensures t.online ==> p.last == t.readings
  {
    if t.online && t.readings != last then Publication(true, t.readings)
    else Publication(false, last)
  }

  /** The texts published over a run of passes starting from `last`. */
  function Published(last: string, ticks: seq<Tick>): seq<string>
    decreases |ticks|
  {
    if ticks == [] then []
    else
      var p := PublishFilter(last, ticks[0]);
      (if p.publish then [ticks[0].readings] else []) + Published(p.last, ticks[1..])
  }

  /** No text is published twice in a row, and the first differs from the one published before the run. */
  lemma {:induction false} PublishedNoRepeats(last: string, ticks: seq<Tick>)
    ensures var out := Published(last, ticks);
            && (|out| > 0 ==> out[0] != last)
            && forall i :: 0 < i < |out| ==> out[i] != out[i - 1]
    decreases |ticks|
  {
    if ticks != [] {
      var p := PublishFilter(last, ticks[0]);
      var rest := Published(p.last, ticks[1..]);
      PublishedNoRepeats(p.last, ticks[1..]);
      if p.publish {
        var out := [ticks[0].readings] + rest;
        assert Published(last, ticks) == out;
        forall i | 0 < i < |out|
          ensures out[i] != out[i - 1]
        {
          if i == 1 {
            assert out[1] == rest[0];
          } else {
            assert out[i] == rest[i - 1] && out[i - 1] == rest[i - 2];
          }
        }
      }
    }
  }

  /** Once a text has been published, passes that build the same text publish nothing. */
  lemma {:induction false} SteadyReadingsSilent(s: string, ticks: seq<Tick>)
    requires forall i :: 0 <= i < |ticks| ==> ticks[i].readings == s
    ensures Published(s, ticks) == []
    decreases |ticks|
  {
    if ticks != [] {
      SteadyReadingsSilent(s, ticks[1..]);
    }
  }

  /** Readings that never change are published at most once, whatever the network does. */
  lemma {:induction false} SteadyReadingsPublishedOnce(last: string, s: string, ticks: seq<Tick>)
    requires forall i :: 0 <= i < |ticks| ==> ticks[i].readings == s
    ensures |Published(last, ticks)| <= 1
    decreases |ticks|
  {
    if ticks != [] {
      var p := PublishFilter(last, ticks[0]);
      if p.publish {
        SteadyReadingsSilent(s, ticks[1..]);
      } else {
        SteadyReadingsPublishedOnce(last, s, ticks[1..]);
      }
    }
  }

  // ---------------------------------------------------------------------
  // The PLC object

  class Plc {
    /** _digitalOutputCoils: the Modbus view of the outputs. */
    var coilBank: seq<bool>
    /** _digitalInputDiscretes: the Modbus view of the inputs. */
    var discreteBank: seq<bool>
    /** The levels of the six output pins (_Coils[i].Level()). */
    const coilPins: array<bool>
    /** _lastMessagePublished. */
    var lastMessagePublished: string
    /** The Modbus base addresses configured in the IOT settings. */
    const bases: BaseAddresses

    predicate Valid()
      reads this
    {
      |coilBank| == DO_PINS && |discreteBank| == DI_PINS && coilPins.Length == DO_PINS
    }

    /** Banks start all clear, outputs low, nothing published yet. */
    constructor(bases: BaseAddresses)
      ensures Valid()
      ensures this.bases == bases
      ensures coilBank == seq(DO_PINS, _ => false) && discreteBank == seq(DI_PINS, _ => false)
      ensures coilPins[..] == seq(DO_PINS, _ => false)
      ensures lastMessagePublished == ""
      ensures fresh(coilPins)
    {
      this.bases := bases;
      coilBank := seq(DO_PINS, _ => false);
      discreteBank := seq(DI_PINS, _ => false);
      coilPins := new bool[DO_PINS](_ => false);
      lastMessagePublished := "";
    }

    /**
     * FC04: `levels[i]` is the uint16_t conversion of channel i's Level();
     * each in-range register is appended as one big-endian word.
     */
    method ReadInputRegisters(req: Request, levels: seq<u16>) returns (r: seq<byte>)
      requires |levels| == AI_PINS
      ensures r == InputRegistersResponse(req, bases.inputRegister, levels)
    {
      var addr := SubU16(req.address, bases.inputRegister);
      if addr + req.quantity > AI_PINS {
        r := ErrorFrame(req.serverId, req.functionCode, IllegalDataAddress);
      } else {
        var head := [req.serverId, req.functionCode, (2 * req.quantity) % 0x100];
        var words := levels[addr .. addr + req.quantity];
        var body := [];
        for k := 0 to |words|
          invariant body == EncodeWords(words[..k])
        {
          EncodeWordsAppend(words[..k], words[k]);
          assert words[..k + 1] == words[..k] + [words[k]];
          body := body + Be16(words[k]);
        }
        assert words[..|words|] == words;
        r := head + body;
      }
    }

    /** FC01: refresh the coil bank from the output pins, then answer from it. */
    method ReadCoils(req: Request) returns (r: seq<byte>)
      requires Valid()
      modifies this
      ensures Valid()
      ensures coilBank == coilPins[..]
      ensures r == ReadBitsResponse(req, bases.coil, coilBank)
      ensures discreteBank == old(discreteBank) && lastMessagePublished == old(lastMessagePublished)
    {
      for i := 0 to DO_PINS
        invariant |coilBank| == DO_PINS
        invariant forall j :: 0 <= j < i ==> coilBank[j] == coilPins[j]
        invariant discreteBank == old(discreteBank) && lastMessagePublished == old(lastMessagePublished)
      {
        coilBank := coilBank[i := coilPins[i]];
      }
      r := ReadBitsResponse(req, bases.coil, coilBank);
    }

    /** FC02: refresh the discrete bank from the input levels, then answer from it. */
    method ReadDiscreteInputs(req: Request, inputs: seq<bool>) returns (r: seq<byte>)
      requires Valid() && |inputs| == DI_PINS
      modifies this
      ensures Valid()
      ensures discreteBank == inputs
      ensures r == ReadBitsResponse(req, bases.discrete, discreteBank)
      ensures coilBank == old(coilBank) && lastMessagePublished == old(lastMessagePublished)
    {
      for i := 0 to DI_PINS
        invariant |discreteBank| == DI_PINS
        invariant forall j :: 0 <= j < i ==> discreteBank[j] == inputs[j]
        invariant coilBank == old(coilBank) && lastMessagePublished == old(lastMessagePublished)
      {
        discreteBank := discreteBank[i := inputs[i]];
      }
      r := ReadBitsResponse(req, bases.discrete, discreteBank);
    }

    /** FC05, with the range test as written (`start <= DO_PINS`). */
    method WriteSingleCoil(req: Request) returns (r: seq<byte>)
      requires Valid()
      modifies this, coilPins
      ensures Valid()
      ensures var o := WriteCoilOutcome(req, bases.coil, old(coilBank), old(coilPins[..]));
              r == o.response && coilBank == o.bank && coilPins[..] == o.pins
      ensures discreteBank == old(discreteBank) && lastMessagePublished == old(lastMessagePublished)
    {
      var start := SubU16(req.address, bases.coil);
      if start <= DO_PINS {
        if req.quantity == COIL_OFF || req.quantity == COIL_ON {
          var written := SetCoil(coilBank, start, req.quantity != COIL_OFF);
          if written.Some? {
            coilBank := written.value;
            coilPins[start] := req.quantity == COIL_ON;
            r := RequestFrame(req);
          } else {
            r := ErrorFrame(req.serverId, req.functionCode, ServerDeviceFailure);
          }
        } else {
          r := ErrorFrame(req.serverId, req.functionCode, IllegalDataValue);
        }
      } else {
        r := ErrorFrame(req.serverId, req.functionCode, IllegalDataAddress);
      }
    }

    /** FC0F: set the bank's range, then drive every output pin to its bank flag. */
    method WriteMultipleCoils(req: Request) returns (r: seq<byte>)
      requires Valid()
      modifies this, coilPins
      ensures Valid()
      ensures var o := WriteCoilsOutcome(req, bases.coil, old(coilBank), old(coilPins[..]));
              r == o.response && coilBank == o.bank && coilPins[..] == o.pins
      ensures discreteBank == old(discreteBank) && lastMessagePublished == old(lastMessagePublished)
    {
      var start := SubU16(req.address, bases.coil);
      if start + req.quantity <= DO_PINS {
        if req.byteCount == ExpectedByteCount(req.quantity) {
          var coilset := if req.byteCount <= |req.values| then req.values[..req.byteCount] else req.values;
          var written := SetCoils(coilBank, start, req.quantity, coilset);
          if written.Some? {
            coilBank := written.value;
            for i := 0 to DO_PINS
              invariant coilBank == written.value
              invariant discreteBank == old(discreteBank) && lastMessagePublished == old(lastMessagePublished)
              invariant forall j :: 0 <= j < i ==> coilPins[j] == coilBank[j]
            {
              coilPins[i] := coilBank[i];
            }
            r := [req.serverId, req.functionCode] + Be16(start) + Be16(req.quantity);
          } else {
            r := ErrorFrame(req.serverId, req.functionCode, ServerDeviceFailure);
          }
        } else {
          r := ErrorFrame(req.serverId, req.functionCode, IllegalDataValue);
        }
      } else {
        r := ErrorFrame(req.serverId, req.functionCode, IllegalDataAddress);
      }
    }

    /** onMqttMessage: a "Write Coil" command drives one output pin; the coil bank is not touched. */
    method OnMqttMessage(msg: MqttMessage)
      requires Valid()
      modifies coilPins
      ensures coilPins[..] == ApplyAction(old(coilPins[..]), CoilCommand(msg))
    {
      if msg.command == Some("Write Coil") {
        var coil := msg.coil - 1;
        if coil >= 0 && coil < DO_PINS {
          var input := ToLower(msg.state);
          if IsOnWord(input) {
            coilPins[coil] := true;
          } else if IsOffWord(input) {
            coilPins[coil] := false;
          }
        }
      }
    }

    /** A new web-socket client clears the last text so the next pass broadcasts. */
    method OnWebSocketConnect()
      modifies this
      ensures lastMessagePublished == ""
      ensures coilBank == old(coilBank) && discreteBank == old(discreteBank)
    {
      lastMessagePublished := "";
    }

    /**
     * The publishing half of Process, after the network has been serviced:
     * `published` says whether the readings went to MQTT and the web socket.
     */
    method Process(t: Tick) returns (published: bool)
      modifies this
      ensures published == PublishFilter(old(lastMessagePublished), t).publish
      ensures lastMessagePublished == PublishFilter(old(lastMessagePublished), t).last
      ensures coilBank == old(coilBank) && discreteBank == old(discreteBank)
    {
      published := false;
      if t.online {
        if lastMessagePublished == t.readings {
          return;
        }
        published := true;
        lastMessagePublished := t.readings;
      }
    }
  }
}
