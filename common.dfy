/**
 * Machine integers, optional values and the byte-level encodings shared by
 * the Modbus adapter and the settings store: big-endian 16-bit words,
 * Modbus bit packing (first bit in the least significant bit of the first
 * byte) and decimal rendering of numbers.
 */
module Common {

  type byte = x: int | 0 <= x < 0x100
  type u16 = x: int | 0 <= x < 0x1_0000
  type u32 = x: int | 0 <= x < 0x1_0000_0000
  type i16 = x: int | -0x8000 <= x < 0x8000

  datatype Option<+T> = None | Some(value: T)

  /** `a -= b` on two uint16_t values: the difference taken modulo 2^16. */
  function SubU16(a: u16, b: u16): (r: u16)
    ensures a >= b ==> r == a - b
    ensures a < b ==> r == a - b + 0x1_0000
  {
    (a - b) % 0x1_0000
  }

  /** `a + b` on two 32-bit unsigned long values (millis() arithmetic). */
  function AddU32(a: u32, b: u32): (r: u32)
    ensures a + b < 0x1_0000_0000 ==> r == a + b
    ensures a + b >= 0x1_0000_0000 ==> r == a + b - 0x1_0000_0000
  {
    (a + b) % 0x1_0000_0000
  }

  /** `a - b` on two 32-bit unsigned long values: the elapsed time from b to a. */
  function SubU32(a: u32, b: u32): (r: u32)
    ensures a >= b ==> r == a - b
    ensures a < b ==> r == a - b + 0x1_0000_0000
  {
    (a - b) % 0x1_0000_0000
  }

  // ---------------------------------------------------------------------
  // Big-endian 16-bit words, as ModbusMessage::add(uint16_t) writes them

  function Be16(v: u16): seq<byte>
  {
    [(v as int) / 0x100, (v as int) % 0x100]
  }

  function EncodeWords(vs: seq<u16>): (r: seq<byte>)
    ensures |r| == 2 * |vs|
  {
    if vs == [] then [] else Be16(vs[0]) + EncodeWords(vs[1..])
  }

  function DecodeWords(bs: seq<byte>): (r: seq<u16>)
    ensures |r| == |bs| / 2
  {
    if |bs| < 2 then [] else [(bs[0] as int) * 0x100 + bs[1] as int] + DecodeWords(bs[2..])
  }

  lemma {:induction false} EncodeWordsAppend(vs: seq<u16>, v: u16)
    ensures EncodeWords(vs + [v]) == EncodeWords(vs) + Be16(v)
  {
    if vs != [] {
      assert (vs + [v])[1..] == vs[1..] + [v];
      EncodeWordsAppend(vs[1..], v);
    } else {
      assert vs + [v] == [v];
    }
  }

  lemma {:induction false} DecodeEncodeWords(vs: seq<u16>)
    ensures DecodeWords(EncodeWords(vs)) == vs
  {
    if vs != [] {
      var bs := EncodeWords(vs);
      assert bs[2..] == EncodeWords(vs[1..]);
      DecodeEncodeWords(vs[1..]);
    }
  }

  // ---------------------------------------------------------------------
  // Modbus bit packing: coil k of a slice is bit k % 8 of byte k / 8

  function Pow2(n: nat): (r: nat)
    ensures r >= 1
  {
    if n == 0 then 1 else 2 * Pow2(n - 1)
  }

  lemma {:induction false} Pow2Monotone(i: nat, j: nat)
    requires i <= j
    ensures Pow2(i) <= Pow2(j)
  {
    if i < j {
      Pow2Monotone(i, j - 1);
    }
  }

  /** Bit j (0 = least significant) of b. */
  function BitOf(b: nat, j: nat): bool
  {
    if j == 0 then b % 2 == 1 else BitOf(b / 2, j - 1)
  }

  /** Up to eight flags packed into one number, the first in the lowest bit. */
  function PackByte(bits: seq<bool>): (r: nat)
    ensures r < Pow2(|bits|)
  {
    if bits == [] then 0 else (if bits[0] then 1 else 0) + 2 * PackByte(bits[1..])
  }

  lemma {:induction false} PackByteBit(bits: seq<bool>, j: nat)
    requires j < |bits|
    ensures BitOf(PackByte(bits), j) == bits[j]
  {
    var x := if bits[0] then 1 else 0;
    var y := PackByte(bits[1..]);
    assert PackByte(bits) == x + 2 * y;
    assert (x + 2 * y) % 2 == x && (x + 2 * y) / 2 == y;
    if j > 0 {
      PackByteBit(bits[1..], j - 1);
    }
  }

  function PackChunk(bits: seq<bool>): (r: byte)
    requires |bits| <= 8
  {
    Pow2Monotone(|bits|, 8);
    assert Pow2(8) == 0x100;
    PackByte(bits)
  }

  /** The packed coil bytes of a bit slice (what CoilData::slice returns). */
  function Pack(bits: seq<bool>): (r: seq<byte>)
    ensures |r| == (|bits| + 7) / 8
  {
    if bits == [] then []
    else if |bits| <= 8 then [PackChunk(bits)]
    else [PackChunk(bits[..8])] + Pack(bits[8..])
  }

  /** The first n flags carried by a sequence of packed coil bytes. */
  function Unpack(bytes: seq<byte>, n: nat): (r: seq<bool>)
    requires n <= 8 * |bytes|
    ensures |r| == n
  {
    seq(n, i requires 0 <= i < n => BitOf(bytes[i / 8], i % 8))
  }

  lemma {:induction false} PackAt(bits: seq<bool>, k: nat)
    requires k < |Pack(bits)|
    ensures 8 * k < |bits|
    ensures Pack(bits)[k] == PackByte(bits[8 * k .. if 8 * k + 8 <= |bits| then 8 * k + 8 else |bits|])
  {
    if k == 0 {
      if |bits| <= 8 {
        assert bits[0 .. |bits|] == bits;
      } else {
        assert bits[0 .. 8] == bits[..8];
      }
    } else {
      PackAt(bits[8..], k - 1);
      var hi := if 8 * k + 8 <= |bits| then 8 * k + 8 else |bits|;
      assert bits[8..][8 * (k - 1) .. hi - 8] == bits[8 * k .. hi];
    }
  }

  /** Unpacking the packed bytes of a slice gives the slice back. */
  lemma UnpackPack(bits: seq<bool>)
    ensures |bits| <= 8 * |Pack(bits)|
    ensures Unpack(Pack(bits), |bits|) == bits
  {
    var p := Pack(bits);
    forall i | 0 <= i < |bits|
      ensures Unpack(p, |bits|)[i] == bits[i]
    {
      var k := i / 8;
      PackAt(bits, k);
      var hi := if 8 * k + 8 <= |bits| then 8 * k + 8 else |bits|;
      PackByteBit(bits[8 * k .. hi], i % 8);
    }
  }

  // ---------------------------------------------------------------------
  // Decimal rendering (std::stringstream << int)

  function DigitChar(d: nat): (c: char)
    requires d < 10
    ensures '0' <= c <= '9'
  {
    (48 + d) as char
  }

  function Decimal(n: nat): (s: string)
    ensures |s| >= 1
    ensures forall i :: 0 <= i < |s| ==> '0' <= s[i] <= '9'
  {
    if n < 10 then [DigitChar(n)] else Decimal(n / 10) + [DigitChar(n % 10)]
  }

  /** The value of a string of decimal digits. */
  function DigitsValue(s: string): nat
    requires forall i :: 0 <= i < |s| ==> '0' <= s[i] <= '9'
  {
    if s == [] then 0 else 10 * DigitsValue(s[..|s| - 1]) + (s[|s| - 1] as int - 48)
  }

  lemma {:induction false} DecimalValue(n: nat)
    ensures DigitsValue(Decimal(n)) == n
  {
    if n >= 10 {
      DecimalValue(n / 10);
      var s := Decimal(n);
      assert s[..|s| - 1] == Decimal(n / 10);
    }
  }

  /** Signed decimal text: an optional '-' followed by the digits. */
  function IntText(n: int): (s: string)
  {
    if n < 0 then "-" + Decimal(-n) else Decimal(n)
  }

  lemma IntTextInjective(a: int, b: int)
    requires IntText(a) == IntText(b)
    ensures a == b
  {
    assert (IntText(a)[0] == '-') == (a < 0);
    assert (IntText(b)[0] == '-') == (b < 0);
    if a < 0 {
      assert Decimal(-a) == IntText(a)[1..];
      DecimalValue(-a); DecimalValue(-b);
    } else {
      DecimalValue(a); DecimalValue(b);
    }
  }
}
