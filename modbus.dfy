/**
 * The Modbus-TCP function-code handlers the PLC registers when the network
 * comes up (code/ESP32/main/PLC.cpp, PLC::onNetworkConnect), stated as
 * functions from a request and the process image to the response frame and
 * the new process image.
 *
 * The handlers follow the Modbus Application Protocol Specification V1.1b3:
 * Read Coils (section 6.1), Read Discrete Inputs (section 6.2), Read Input
 * Registers (section 6.4), Write Single Coil (section 6.5), Write Multiple
 * Coils (section 6.11) and exception responses (section 7).
 *
 * A response frame is the byte sequence the handler builds in its
 * ModbusMessage: server id, function code, then the payload.
 */
module Modbus {
  import opened Common

  const DI_PINS := 4
  const DO_PINS := 6
  const AI_PINS := 4

  const INPUT_REGISTER_BASE_ADDRESS: u16 := 1000
  const COIL_BASE_ADDRESS: u16 := 2000
  const DISCRETE_BASE_ADDRESS: u16 := 3000

  const READ_COIL: byte := 0x01
  const READ_DISCR_INPUT: byte := 0x02
  const READ_INPUT_REGISTER: byte := 0x04
  const WRITE_COIL: byte := 0x05
  const WRITE_MULT_COILS: byte := 0x0F

  /** The two coil states Write Single Coil accepts. */
  const COIL_OFF: u16 := 0x0000
  const COIL_ON: u16 := 0xFF00

  datatype ExceptionCode = IllegalDataAddress | IllegalDataValue | ServerDeviceFailure

  function ExceptionByte(e: ExceptionCode): byte
  {
    match e
    case IllegalDataAddress => 0x02
    case IllegalDataValue => 0x03
    case ServerDeviceFailure => 0x04
  }

  /**
   * The request fields the handlers read: the words at PDU offsets 2 and 4
   * (`address`, and `quantity`, which is the requested state for Write
   * Single Coil), and for Write Multiple Coils the byte count at offset 6
   * and the packed coil bytes that follow it.
   */
  datatype Request = Request(serverId: byte, functionCode: byte, address: u16, quantity: u16,
                             byteCount: byte, values: seq<byte>)

  /** The protocol address of local index 0, per address class. */
  datatype BaseAddresses = BaseAddresses(inputRegister: u16, coil: u16, discrete: u16)

  const DEFAULT_BASES := BaseAddresses(INPUT_REGISTER_BASE_ADDRESS, COIL_BASE_ADDRESS, DISCRETE_BASE_ADDRESS)

  /** ModbusMessage::setError: server id, function code with bit 0x80 set, exception code. */
  function ErrorFrame(serverId: byte, fc: byte, e: ExceptionCode): seq<byte>
  {
    [serverId, if fc < 0x80 then fc + 0x80 else fc, ExceptionByte(e)]
  }

  /** The request itself as it arrived, which ECHO_RESPONSE sends back. */
  function RequestFrame(req: Request): seq<byte>
  {
    [req.serverId, req.functionCode] + Be16(req.address) + Be16(req.quantity)
  }

  // ---------------------------------------------------------------------
  // The CoilData bank of the Modbus library. Its source is not part of this
  // model; these three functions are the behaviour the handlers rely on.

  /** CoilData::set(index, value): rejected (None) when the index is outside the bank. */
  function SetCoil(bank: seq<bool>, index: int, value: bool): (r: Option<seq<bool>>)
    ensures r.Some? <==> 0 <= index < |bank|
    ensures r.Some? ==> |r.value| == |bank| && r.value[index] == value
    ensures r.Some? ==> forall i :: 0 <= i < |bank| && i != index ==> r.value[i] == bank[i]
  {
    if 0 <= index < |bank| then Some(bank[index := value]) else None
  }

  /**
   * CoilData::set(start, count, packed bytes): rejected when the range does
   * not fit the bank or the bytes carry fewer than `count` flags; otherwise
   * the range takes the unpacked flags and nothing else changes.
   */
  function SetCoils(bank: seq<bool>, start: int, count: nat, packed: seq<byte>): (r: Option<seq<bool>>)
    ensures r.Some? <==> 0 <= start && start + count <= |bank| && count <= 8 * |packed|
    ensures r.Some? ==> |r.value| == |bank|
    ensures r.Some? ==> forall i :: 0 <= i < |bank| && !(start <= i < start + count) ==> r.value[i] == bank[i]
  {
    if 0 <= start && start + count <= |bank| && count <= 8 * |packed|
    then Some(bank[..start] + Unpack(packed, count) + bank[start + count..])
    else None
  }

  /** CoilData::slice(start, count): the packed flags of the range, or nothing when it does not fit. */
  function Slice(bank: seq<bool>, start: int, count: nat): seq<byte>
  {
    if 0 <= start && start + count <= |bank| then Pack(bank[start .. start + count]) else []
  }

  /** What a handler that changes the process image produces. */
  datatype Outcome = Outcome(response: seq<byte>, bank: seq<bool>, pins: seq<bool>)

  // ---------------------------------------------------------------------
  // 0x04 Read Input Registers

  /**
   * The response to Read Input Registers. `levels` are the analog channels'
   * readings already converted to uint16_t. The range test adds the two
   * uint16_t values as int, so only the subtraction wraps.
   */
  function InputRegistersResponse(req: Request, base: u16, levels: seq<u16>): (r: seq<byte>)
    requires |levels| == AI_PINS
    ensures |r| == 3 || |r| == 3 + 2 * req.quantity
    ensures r[0] == req.serverId
  {
    var addr := SubU16(req.address, base);
    if addr + req.quantity > AI_PINS then
      ErrorFrame(req.serverId, req.functionCode, IllegalDataAddress)
    else
      [req.serverId, req.functionCode, (2 * req.quantity) % 0x100]
        + EncodeWords(levels[addr .. addr + req.quantity])
  }

  /** A range past the last channel is answered with exception 02 and nothing else. */
  lemma InputRegistersAddressCheck(req: Request, base: u16, levels: seq<u16>)
    requires |levels| == AI_PINS
    requires req.functionCode == READ_INPUT_REGISTER
    ensures var r := InputRegistersResponse(req, base, levels);
            SubU16(req.address, base) + req.quantity > AI_PINS
            <==> r == ErrorFrame(req.serverId, req.functionCode, IllegalDataAddress)
  {
    var r := InputRegistersResponse(req, base, levels);
    if SubU16(req.address, base) + req.quantity <= AI_PINS {
      assert r[1] == READ_INPUT_REGISTER;
    }
  }

  /**
   * An accepted request is answered with byte count 2 * count followed by
   * exactly `count` words, the readings of channels addr .. addr+count-1 in order.
   */
  lemma InputRegistersPayload(req: Request, base: u16, levels: seq<u16>)
    requires |levels| == AI_PINS
    requires SubU16(req.address, base) + req.quantity <= AI_PINS
    ensures var r := InputRegistersResponse(req, base, levels);
            var addr := SubU16(req.address, base);
            && |r| == 3 + 2 * req.quantity
            && r[..2] == [req.serverId, req.functionCode]
            && r[2] == 2 * req.quantity
            && DecodeWords(r[3..]) == levels[addr .. addr + req.quantity]
  {
    var addr := SubU16(req.address, base);
    var r := InputRegistersResponse(req, base, levels);
    assert r[3..] == EncodeWords(levels[addr .. addr + req.quantity]);
    DecodeEncodeWords(levels[addr .. addr + req.quantity]);
  }

  /** A protocol address below the base wraps to a large local index and is rejected. */
  lemma InputRegistersBelowBase(req: Request, base: u16, levels: seq<u16>)
    requires |levels| == AI_PINS
    requires req.address < base <= 0xFFFF - AI_PINS
    ensures InputRegistersResponse(req, base, levels)
            == ErrorFrame(req.serverId, req.functionCode, IllegalDataAddress)
  {
  }

  /** With the default base 1000 and four channels: address 1000 count 4 is served, address 999 is not. */
  lemma InputRegistersDefaultBase(levels: seq<u16>, id: byte)
    requires |levels| == AI_PINS
    ensures InputRegistersResponse(Request(id, READ_INPUT_REGISTER, 1000, 4, 0, []), 1000, levels)
            == [id, READ_INPUT_REGISTER, 8] + EncodeWords(levels)
    ensures InputRegistersResponse(Request(id, READ_INPUT_REGISTER, 999, 1, 0, []), 1000, levels)
            == ErrorFrame(id, READ_INPUT_REGISTER, IllegalDataAddress)
  {
    assert levels[0 .. 4] == levels;
  }

  // ---------------------------------------------------------------------
  // 0x01 Read Coils and 0x02 Read Discrete Inputs

  /**
   * The response to Read Coils / Read Discrete Inputs, given the bank after
   * it has been refreshed from the pins. An out-of-range request sets the
   * exception but the handler goes on: the slice (empty, since the range
   * does not fit) is appended after the exception frame.
   */
  function ReadBitsResponse(req: Request, base: u16, bank: seq<bool>): (r: seq<byte>)
    ensures SubU16(req.address, base) + req.quantity <= |bank| ==> |r| == 3 + (req.quantity + 7) / 8
    ensures SubU16(req.address, base) + req.quantity > |bank| ==> |r| == 6
    ensures r[0] == req.serverId
  {
    var start := SubU16(req.address, base);
    var coilset := Slice(bank, start, req.quantity);
    (if start + req.quantity > |bank| then ErrorFrame(req.serverId, req.functionCode, IllegalDataAddress) else [])
      + [req.serverId, req.functionCode, |coilset| % 0x100] + coilset
  }

  /**
   * An in-range read returns byte count ceil(count / 8) and the packed flags,
   * which unpack to exactly the bank's flags start .. start+count-1.
   */
  lemma ReadBitsPayload(req: Request, base: u16, bank: seq<bool>)
    requires |bank| <= 8
    requires SubU16(req.address, base) + req.quantity <= |bank|
    ensures var r := ReadBitsResponse(req, base, bank);
            var start := SubU16(req.address, base);
            && r[..3] == [req.serverId, req.functionCode, (req.quantity + 7) / 8]
            && |r| == 3 + (req.quantity + 7) / 8
            && req.quantity <= 8 * |r[3..]|
            && Unpack(r[3..], req.quantity) == bank[start .. start + req.quantity]
  {
    var start := SubU16(req.address, base);
    var r := ReadBitsResponse(req, base, bank);
    assert r[3..] == Pack(bank[start .. start + req.quantity]);
    UnpackPack(bank[start .. start + req.quantity]);
  }

  /** As written: an out-of-range read is the exception frame followed by an empty data frame. */
  lemma ReadBitsErrorThenData(req: Request, base: u16, bank: seq<bool>)
    requires SubU16(req.address, base) + req.quantity > |bank|
    ensures ReadBitsResponse(req, base, bank)
            == ErrorFrame(req.serverId, req.functionCode, IllegalDataAddress) + [req.serverId, req.functionCode, 0]
  {
  }

  /** Read Coils at the coil base with count 7 on the six coils: the exception frame is not the whole reply. */
  lemma ReadCoilsPastEndCounterexample(bank: seq<bool>)
    requires |bank| == DO_PINS
    ensures ReadBitsResponse(Request(1, READ_COIL, 2000, 7, 0, []), COIL_BASE_ADDRESS, bank)
            == [1, 0x81, 0x02, 1, READ_COIL, 0]
  {
  }

  /** Read Coils / Read Discrete Inputs returning as soon as the exception is set. */
  function ReadBitsResponseFixed(req: Request, base: u16, bank: seq<bool>): (r: seq<byte>)
  {
    var start := SubU16(req.address, base);
    if start + req.quantity > |bank| then ErrorFrame(req.serverId, req.functionCode, IllegalDataAddress)
    else
      var coilset := Slice(bank, start, req.quantity);
      [req.serverId, req.functionCode, |coilset| % 0x100] + coilset
  }

  /** The fixed handler answers an out-of-range read with the exception frame alone and is otherwise unchanged. */
  lemma ReadBitsFixedIsException(req: Request, base: u16, bank: seq<bool>)
    ensures var start := SubU16(req.address, base);
            var r := ReadBitsResponseFixed(req, base, bank);
            && (start + req.quantity > |bank| ==> r == ErrorFrame(req.serverId, req.functionCode, IllegalDataAddress))
            && (start + req.quantity <= |bank| ==> r == ReadBitsResponse(req, base, bank))
  {
  }

  // ---------------------------------------------------------------------
  // 0x05 Write Single Coil

  /**
   * Write Single Coil as written: the local index is accepted when
   * `start <= DO_PINS`; the state must be 0x0000 or 0xFF00; the bank's set
   * decides success; on success the addressed pin follows the state and the
   * request is echoed.
   */
  function WriteCoilOutcome(req: Request, base: u16, bank: seq<bool>, pins: seq<bool>): (o: Outcome)
    requires |bank| == DO_PINS && |pins| == DO_PINS
    ensures |o.bank| == DO_PINS && |o.pins| == DO_PINS
    ensures o.response == RequestFrame(req) || (o.bank == bank && o.pins == pins)
    ensures forall i :: 0 <= i < DO_PINS && i != SubU16(req.address, base) ==> o.bank[i] == bank[i] && o.pins[i] == pins[i]
  {
    var start := SubU16(req.address, base);
    if start <= DO_PINS then
      if req.quantity == COIL_OFF || req.quantity == COIL_ON then
        match SetCoil(bank, start, req.quantity == COIL_ON)
        case Some(b) => Outcome(RequestFrame(req), b, pins[start := req.quantity == COIL_ON])
        case None => Outcome(ErrorFrame(req.serverId, req.functionCode, ServerDeviceFailure), bank, pins)
      else Outcome(ErrorFrame(req.serverId, req.functionCode, IllegalDataValue), bank, pins)
    else Outcome(ErrorFrame(req.serverId, req.functionCode, IllegalDataAddress), bank, pins)
  }

  /** Every rejected write leaves the coil bank and the pins as they were. */
  lemma WriteCoilRejectChangesNothing(req: Request, base: u16, bank: seq<bool>, pins: seq<bool>)
    requires |bank| == DO_PINS && |pins| == DO_PINS
    requires req.functionCode == WRITE_COIL
    ensures var o := WriteCoilOutcome(req, base, bank, pins);
            o.response != RequestFrame(req) ==> o.bank == bank && o.pins == pins
  {
  }

  /** Which exception Write Single Coil answers, and when it succeeds. */
  lemma WriteCoilDecision(req: Request, base: u16, bank: seq<bool>, pins: seq<bool>)
    requires |bank| == DO_PINS && |pins| == DO_PINS
    ensures var o := WriteCoilOutcome(req, base, bank, pins);
            var start := SubU16(req.address, base);
            var valid := req.quantity == COIL_OFF || req.quantity == COIL_ON;
            && (start > DO_PINS ==> o.response == ErrorFrame(req.serverId, req.functionCode, IllegalDataAddress))
            && (start <= DO_PINS && !valid ==> o.response == ErrorFrame(req.serverId, req.functionCode, IllegalDataValue))
            && (start == DO_PINS && valid ==> o.response == ErrorFrame(req.serverId, req.functionCode, ServerDeviceFailure))
            && (start < DO_PINS && valid ==>
                  && o.response == RequestFrame(req)
                  && o.bank == bank[start := req.quantity == COIL_ON]
                  && o.pins == pins[start := req.quantity == COIL_ON])
  {
  }

  /** A state other than 0x0000 / 0xFF00 at an accepted address: exception 03, nothing changes. */
  lemma WriteCoilBadState(req: Request, base: u16, bank: seq<bool>, pins: seq<bool>)
    requires |bank| == DO_PINS && |pins| == DO_PINS
    requires SubU16(req.address, base) <= DO_PINS
    requires req.quantity != COIL_OFF && req.quantity != COIL_ON
    ensures WriteCoilOutcome(req, base, bank, pins)
            == Outcome(ErrorFrame(req.serverId, req.functionCode, IllegalDataValue), bank, pins)
  {
  }

  /** As written: coil address base + DO_PINS, one past the last coil, is answered with 04, not 02. */
  lemma WriteCoilPastEndCounterexample(bank: seq<bool>, pins: seq<bool>)
    requires |bank| == DO_PINS && |pins| == DO_PINS
    ensures WriteCoilOutcome(Request(1, WRITE_COIL, 2006, COIL_ON, 0, []), COIL_BASE_ADDRESS, bank, pins).response
            == [1, 0x85, 0x04]
  {
  }

  /** Write Single Coil with the range test the comment describes: `start < DO_PINS`. */
  function WriteCoilOutcomeFixed(req: Request, base: u16, bank: seq<bool>, pins: seq<bool>): Outcome
    requires |bank| == DO_PINS && |pins| == DO_PINS
  {
    var start := SubU16(req.address, base);
    if start < DO_PINS then
      if req.quantity == COIL_OFF || req.quantity == COIL_ON then
        match SetCoil(bank, start, req.quantity == COIL_ON)
        case Some(b) => Outcome(RequestFrame(req), b, pins[start := req.quantity == COIL_ON])
        case None => Outcome(ErrorFrame(req.serverId, req.functionCode, ServerDeviceFailure), bank, pins)
      else Outcome(ErrorFrame(req.serverId, req.functionCode, IllegalDataValue), bank, pins)
    else Outcome(ErrorFrame(req.serverId, req.functionCode, IllegalDataAddress), bank, pins)
  }

  /**
   * The fixed handler answers 02 exactly for the addresses outside the coils
   * and never reports a device failure.
   */
  lemma WriteCoilFixedAddressRule(req: Request, base: u16, bank: seq<bool>, pins: seq<bool>)
    requires |bank| == DO_PINS && |pins| == DO_PINS
    requires req.functionCode == WRITE_COIL
    ensures var o := WriteCoilOutcomeFixed(req, base, bank, pins);
            && (o.response == ErrorFrame(req.serverId, req.functionCode, IllegalDataAddress)
                <==> SubU16(req.address, base) >= DO_PINS)
            && o.response != ErrorFrame(req.serverId, req.functionCode, ServerDeviceFailure)
  {
    var o := WriteCoilOutcomeFixed(req, base, bank, pins);
    if SubU16(req.address, base) < DO_PINS {
      assert o.response[1] == WRITE_COIL || o.response[2] == 0x03;
    }
  }

  // ---------------------------------------------------------------------
  // 0x0F Write Multiple Coils

  /**
   * `((numCoils - 1) >> 3) + 1` with numCoils promoted to int. The shift of
   * a negative int is arithmetic, i.e. floor division by 8, which is what
   * Dafny's `/` computes for a positive divisor.
   */
  function ExpectedByteCount(numCoils: u16): (n: int)
    ensures n == (numCoils + 7) / 8
  {
    (numCoils - 1) / 8 + 1
  }

  /**
   * Write Multiple Coils as written: range test, byte-count test, the
   * bank's set, then every pin is driven to its bank flag and the reply
   * echoes the (already base-adjusted) start and the count.
   */
  function WriteCoilsOutcome(req: Request, base: u16, bank: seq<bool>, pins: seq<bool>): (o: Outcome)
    requires |bank| == DO_PINS && |pins| == DO_PINS
    ensures |o.bank| == DO_PINS && |o.pins| == DO_PINS
    ensures o.pins == o.bank || (o.bank == bank && o.pins == pins)
    ensures var start := SubU16(req.address, base);
            forall i :: 0 <= i < DO_PINS && !(start <= i < start + req.quantity) ==> o.bank[i] == bank[i]
  {
    var start := SubU16(req.address, base);
    if start + req.quantity <= DO_PINS then
      if req.byteCount == ExpectedByteCount(req.quantity) then
        var coilset := if req.byteCount <= |req.values| then req.values[..req.byteCount] else req.values;
        match SetCoils(bank, start, req.quantity, coilset)
        case Some(b) => Outcome([req.serverId, req.functionCode] + Be16(start) + Be16(req.quantity), b, b)
        case None => Outcome(ErrorFrame(req.serverId, req.functionCode, ServerDeviceFailure), bank, pins)
      else Outcome(ErrorFrame(req.serverId, req.functionCode, IllegalDataValue), bank, pins)
    else Outcome(ErrorFrame(req.serverId, req.functionCode, IllegalDataAddress), bank, pins)
  }

  /** Which exception Write Multiple Coils answers; every exception leaves bank and pins unchanged. */
  lemma WriteCoilsDecision(req: Request, base: u16, bank: seq<bool>, pins: seq<bool>)
    requires |bank| == DO_PINS && |pins| == DO_PINS
    ensures var o := WriteCoilsOutcome(req, base, bank, pins);
            var start := SubU16(req.address, base);
            && (start + req.quantity > DO_PINS ==>
                  o == Outcome(ErrorFrame(req.serverId, req.functionCode, IllegalDataAddress), bank, pins))
            && (start + req.quantity <= DO_PINS && req.byteCount != (req.quantity + 7) / 8 ==>
                  o == Outcome(ErrorFrame(req.serverId, req.functionCode, IllegalDataValue), bank, pins))
            && (start + req.quantity <= DO_PINS && req.byteCount == (req.quantity + 7) / 8
                && |req.values| < req.byteCount ==>
                  o == Outcome(ErrorFrame(req.serverId, req.functionCode, ServerDeviceFailure), bank, pins))
  {
    var start := SubU16(req.address, base);
    if start + req.quantity <= DO_PINS && req.byteCount == (req.quantity + 7) / 8 && |req.values| < req.byteCount {
      assert 8 * |req.values| < req.quantity;
    }
  }

  /**
   * The range is tested before the byte count: ten coils are refused with 02
   * whatever their byte count; four coils announced with two bytes (one is
   * needed) are refused with 03.
   */
  lemma WriteCoilsShortByteCount(bank: seq<bool>, pins: seq<bool>, values: seq<byte>)
    requires |bank| == DO_PINS && |pins| == DO_PINS
    ensures WriteCoilsOutcome(Request(1, WRITE_MULT_COILS, 0, 10, 1, values), 0, bank, pins).response
            == ErrorFrame(1, WRITE_MULT_COILS, IllegalDataAddress)
    ensures WriteCoilsOutcome(Request(1, WRITE_MULT_COILS, 0, 4, 2, values), 0, bank, pins).response
            == ErrorFrame(1, WRITE_MULT_COILS, IllegalDataValue)
  {
  }

  /**
   * Every request that passes the range and byte-count tests and carries at
   * least the announced bytes is accepted: the bank's range takes the first
   * `quantity` flags of the announced bytes (padding bits and bytes past the
   * announced count are ignored), the rest of the bank is unchanged, and
   * every pin ends equal to its bank flag.
   */
  lemma WriteCoilsAccepted(req: Request, base: u16, bank: seq<bool>, pins: seq<bool>)
    requires |bank| == DO_PINS && |pins| == DO_PINS
    requires SubU16(req.address, base) + req.quantity <= DO_PINS
    requires req.byteCount == (req.quantity + 7) / 8 <= |req.values|
    ensures var o := WriteCoilsOutcome(req, base, bank, pins);
            var start := SubU16(req.address, base);
            && o.response == [req.serverId, req.functionCode] + Be16(start) + Be16(req.quantity)
            && |o.bank| == DO_PINS
            && o.bank[start .. start + req.quantity] == Unpack(req.values[..req.byteCount], req.quantity)
            && o.bank[..start] == bank[..start]
            && o.bank[start + req.quantity ..] == bank[start + req.quantity ..]
            && o.pins == o.bank
  {
    var start := SubU16(req.address, base);
    var u := Unpack(req.values[..req.byteCount], req.quantity);
    var b := bank[..start] + u + bank[start + req.quantity..];
    assert b[start .. start + req.quantity] == u;
  }

  /** The same for a request whose bytes are exactly the packed flags `bits`: the range takes `bits`. */
  lemma WriteCoilsAcceptedPacked(req: Request, base: u16, bank: seq<bool>, pins: seq<bool>, bits: seq<bool>)
    requires |bank| == DO_PINS && |pins| == DO_PINS
    requires |bits| == req.quantity
    requires req.values == Pack(bits) && req.byteCount == |Pack(bits)|
    requires SubU16(req.address, base) + req.quantity <= DO_PINS
    ensures var o := WriteCoilsOutcome(req, base, bank, pins);
            var start := SubU16(req.address, base);
            && o.response == [req.serverId, req.functionCode] + Be16(start) + Be16(req.quantity)
            && o.bank[start .. start + req.quantity] == bits
            && o.pins == o.bank
  {
    WriteCoilsAccepted(req, base, bank, pins);
    UnpackPack(bits);
    assert req.values[..req.byteCount] == req.values;
  }

  /** One coil sent as 0xFF: the seven padding bits are ignored and the coil is switched on. */
  lemma WriteCoilsPaddingIgnored(bank: seq<bool>, pins: seq<bool>)
    requires |bank| == DO_PINS && |pins| == DO_PINS
    ensures var o := WriteCoilsOutcome(Request(1, WRITE_MULT_COILS, 0, 1, 1, [0xFF]), 0, bank, pins);
            && o.response == [1, WRITE_MULT_COILS, 0, 0, 0, 1]
            && o.bank == bank[0 := true]
            && o.pins == o.bank
  {
    var req := Request(1, WRITE_MULT_COILS, 0, 1, 1, [0xFF]);
    WriteCoilsAccepted(req, 0, bank, pins);
    assert Unpack([0xFF], 1) == [true];
    var o := WriteCoilsOutcome(req, 0, bank, pins);
    assert o.bank == o.bank[..0] + o.bank[0 .. 1] + o.bank[1..];
  }

  /** As written: a write at coil address 2000 is echoed with start address 0, not 2000. */
  lemma WriteCoilsEchoCounterexample(bank: seq<bool>, pins: seq<bool>)
    requires |bank| == DO_PINS && |pins| == DO_PINS
    ensures WriteCoilsOutcome(Request(1, WRITE_MULT_COILS, 2000, 1, 1, [1]), COIL_BASE_ADDRESS, bank, pins).response
            == [1, WRITE_MULT_COILS, 0, 0, 0, 1]
    ensures Be16(2000) == [0x07, 0xD0]
  {
    WriteCoilsAccepted(Request(1, WRITE_MULT_COILS, 2000, 1, 1, [1]), COIL_BASE_ADDRESS, bank, pins);
  }

  /** Write Multiple Coils echoing the starting address as the client sent it, as section 6.11 of
   * the Modbus Application Protocol Specification V1.1b3 describes the response. */
  function WriteCoilsOutcomeFixed(req: Request, base: u16, bank: seq<bool>, pins: seq<bool>): Outcome
    requires |bank| == DO_PINS && |pins| == DO_PINS
  {
    var start := SubU16(req.address, base);
    if start + req.quantity <= DO_PINS then
      if req.byteCount == ExpectedByteCount(req.quantity) then
        var coilset := if req.byteCount <= |req.values| then req.values[..req.byteCount] else req.values;
        match SetCoils(bank, start, req.quantity, coilset)
        case Some(b) => Outcome([req.serverId, req.functionCode] + Be16(req.address) + Be16(req.quantity), b, b)
        case None => Outcome(ErrorFrame(req.serverId, req.functionCode, ServerDeviceFailure), bank, pins)
      else Outcome(ErrorFrame(req.serverId, req.functionCode, IllegalDataValue), bank, pins)
    else Outcome(ErrorFrame(req.serverId, req.functionCode, IllegalDataAddress), bank, pins)
  }

  /**
   * The fixed reply is the first six bytes of the request, and the process
   * image is the as-written one: the range takes the announced flags.
   */
  lemma WriteCoilsFixedEchoesRequest(req: Request, base: u16, bank: seq<bool>, pins: seq<bool>)
    requires |bank| == DO_PINS && |pins| == DO_PINS
    requires SubU16(req.address, base) + req.quantity <= DO_PINS
    requires req.byteCount == (req.quantity + 7) / 8 <= |req.values|
    ensures var o := WriteCoilsOutcomeFixed(req, base, bank, pins);
            var start := SubU16(req.address, base);
            && o.response == RequestFrame(req)
            && o.bank == WriteCoilsOutcome(req, base, bank, pins).bank
            && o.bank[start .. start + req.quantity] == Unpack(req.values[..req.byteCount], req.quantity)
            && o.pins == o.bank
  {
    WriteCoilsAccepted(req, base, bank, pins);
  }
}
