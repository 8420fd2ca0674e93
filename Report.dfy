/**
 * The RailDriver input report and the decoded device state.
 *
 * A report is a byte buffer: byte 0 is the report id, bytes 1..7 are the seven
 * analog levers, bytes 8..11 a little-endian 32-bit button word and bytes
 * 12..13 a little-endian 16-bit button word placed above it.
 */
module Report {
  import opened Bits

  /** One decoded report (`PIEState`): seven raw lever bytes and the `ButtonMask` word. */
  datatype PIEState = PIEState(
    reverser: byte,
    throttle: byte,
    autoBrake: byte,
    indBrake: byte,
    bailOff: byte,
    wiper: byte,
    lights: byte,
    buttons: nat)

  /** The seven analog levers, in report order. */
  datatype Lever =
    | ReverserLever | ThrottleLever | AutoBrakeLever | IndBrakeLever
    | BailOffLever | WiperLever | LightsLever

  /**
   * The raw byte of a lever in a decoded state (the `RawReverser` …
   * `RawLights` getters): the byte at the lever's position in the report.
   */
  function Raw(s: PIEState, l: Lever): (r: byte)
    ensures s.buttons < 0x1_0000_0000_0000 ==> r == Encode(s)[1 + LeverIndex(l)]
  {
    match l
    case ReverserLever => s.reverser
    case ThrottleLever => s.throttle
    case AutoBrakeLever => s.autoBrake
    case IndBrakeLever => s.indBrake
    case BailOffLever => s.bailOff
    case WiperLever => s.wiper
    case LightsLever => s.lights
  }

  /** Position of a lever among the analog bytes: byte `1 + LeverIndex(l)` of a report. */
  function LeverIndex(l: Lever): (i: nat)
    ensures i < 7
  {
    match l
    case ReverserLever => 0
    case ThrottleLever => 1
    case AutoBrakeLever => 2
    case IndBrakeLever => 3
    case BailOffLever => 4
    case WiperLever => 5
    case LightsLever => 6
  }

  /** The state before any report arrived (a zeroed struct). */
  const InitialState := PIEState(0, 0, 0, 0, 0, 0, 0, 0)

  /** Least report length the decoder reads. */
  const ReportLength: nat := 14

  /** Least report length that holds all seven lever bytes. */
  const LeverReportLength: nat := 8

  // The `ButtonMask` flags.  `Buttons` covers the numbered buttons; `NumButtonBits`
  // is a plain count that shares the enum, not a flag.
  const Buttons: nat := 0x0000_0FFF_FFFF
  const NumButtonBits: nat := 28
  const Up: nat := 0x0000_1000_0000
  const Down: nat := 0x0000_2000_0000
  const DPadUp: nat := 0x0000_4000_0000
  const DPadRight: nat := 0x0000_8000_0000
  const DPadDown: nat := 0x0001_0000_0000
  const DPadLeft: nat := 0x0002_0000_0000
  const RangeUp: nat := 0x0004_0000_0000
  const RangeDown: nat := 0x0008_0000_0000
  const EStopUp: nat := 0x0010_0000_0000
  const EStopDown: nat := 0x0020_0000_0000
  const Alert: nat := 0x0040_0000_0000
  const Sand: nat := 0x0080_0000_0000
  const Pantograph: nat := 0x0100_0000_0000
  const Bell: nat := 0x0200_0000_0000
  const WhistleUp: nat := 0x0400_0000_0000
  const WhistleDown: nat := 0x0800_0000_0000

  /** The named buttons in declaration order, Up first, WhistleDown last. */
  const NamedButtons: seq<nat> := [
    Up, Down, DPadUp, DPadRight, DPadDown, DPadLeft, RangeUp, RangeDown,
    EStopUp, EStopDown, Alert, Sand, Pantograph, Bell, WhistleUp, WhistleDown]

  /** `BitConverter.ToUInt32(data, at)`. */
  function ReadU32(data: seq<byte>, at: nat): (r: nat)
    requires at + 4 <= |data|
    ensures r < 0x1_0000_0000
  {
    Pow2Values();
    LeValue(data[at..at + 4])
  }

  /** `BitConverter.ToUInt16(data, at)`. */
  function ReadU16(data: seq<byte>, at: nat): (r: nat)
    requires at + 2 <= |data|
    ensures r < 0x1_0000
  {
    Pow2Values();
    LeValue(data[at..at + 2])
  }

  /**
   * The state `HandlePIEHidData` builds from the lever bytes of a report,
   * before the button words are read: the levers are bytes 1..7 and no
   * button is set.
   */
  function DecodeLevers(data: seq<byte>): (s: PIEState)
    requires |data| >= LeverReportLength
    ensures forall l :: Raw(s, l) == data[1 + LeverIndex(l)]
    ensures s.buttons == 0
  {
    PIEState(data[1], data[2], data[3], data[4], data[5], data[6], data[7], 0)
  }

  /**
   * The state `HandlePIEHidData` builds from a report.  The button word is the
   * 16-bit word shifted above the 32-bit word, so it always fits in 48 bits and
   * its low and high parts are exactly the two words read from the report.
   */
  function Decode(data: seq<byte>): (s: PIEState)
    requires |data| >= ReportLength
    ensures forall l :: Raw(s, l) == data[1 + LeverIndex(l)]
    ensures s.reverser == data[1] && s.throttle == data[2] && s.autoBrake == data[3]
    ensures s.indBrake == data[4] && s.bailOff == data[5] && s.wiper == data[6] && s.lights == data[7]
    ensures s.buttons < 0x1_0000_0000_0000
    ensures s.buttons % 0x1_0000_0000 == ReadU32(data, 8)
    ensures s.buttons / 0x1_0000_0000 == ReadU16(data, 12)
  {
    var buttons0 := ReadU32(data, 8);
    var buttons1 := ReadU16(data, 12);
    ButtonWord(buttons0, buttons1);
    var buttons := Or(ShiftLeft64(buttons1, 32), buttons0);
    DecodeLevers(data).(buttons := buttons)
  }

  /**
   * `((ulong)hi << 32) | (ulong)lo` for a 32-bit `lo` and a 16-bit `hi`: the
   * two words side by side, below 2^48, with `lo` and `hi` as the low and
   * high parts.
   */
  lemma ButtonWord(lo: nat, hi: nat)
    requires lo < 0x1_0000_0000 && hi < 0x1_0000
    ensures Or(ShiftLeft64(hi, 32), lo) == hi * 0x1_0000_0000 + lo
    ensures Or(ShiftLeft64(hi, 32), lo) < 0x1_0000_0000_0000
    ensures Or(ShiftLeft64(hi, 32), lo) % 0x1_0000_0000 == lo
    ensures Or(ShiftLeft64(hi, 32), lo) / 0x1_0000_0000 == hi
  {
    ShiftedWord(hi);
    Pow2Values();
    OrDisjoint(hi, 32, lo);
    DivUnique(hi * 0x1_0000_0000 + lo, 0x1_0000_0000, hi, lo);
  }

  /** A 14-byte report carrying `s`, with report id 0; the inverse of `Decode`. */
  function Encode(s: PIEState): (data: seq<byte>)
    requires s.buttons < 0x1_0000_0000_0000
    ensures |data| == ReportLength
  {
    [0, s.reverser, s.throttle, s.autoBrake, s.indBrake, s.bailOff, s.wiper, s.lights]
      + LeBytes(s.buttons % 0x1_0000_0000, 4) + LeBytes(s.buttons / 0x1_0000_0000, 2)
  }

  /** Shifting the 16-bit word left by 32 in a `ulong` loses nothing. */
  lemma ShiftedWord(w: nat)
    requires w < 0x1_0000
    ensures ShiftLeft64(w, 32) == w * Pow2(32) == w * 0x1_0000_0000
  {
    Pow2Values();
  }

  /** Every state whose buttons fit the report survives a trip through a report. */
  lemma DecodeEncode(s: PIEState)
    requires s.buttons < 0x1_0000_0000_0000
    ensures Decode(Encode(s)) == s
  {
    var lo, hi := s.buttons % 0x1_0000_0000, s.buttons / 0x1_0000_0000;
    EncodedWords(s);
    ButtonWord(lo, hi);
  }

  /** The two button words of an encoded report read back as the low and high parts of the button bits. */
  lemma EncodedWords(s: PIEState)
    requires s.buttons < 0x1_0000_0000_0000
    ensures ReadU32(Encode(s), 8) == s.buttons % 0x1_0000_0000
    ensures ReadU16(Encode(s), 12) == s.buttons / 0x1_0000_0000
  {
    var data := Encode(s);
    var lo, hi := s.buttons % 0x1_0000_0000, s.buttons / 0x1_0000_0000;
    Pow2Values();
    assert data[8..12] == LeBytes(lo, 4);
    assert data[12..14] == LeBytes(hi, 2);
    LeValueOfBytes(lo, 4);
    LeValueOfBytes(hi, 2);
  }

  /** Re-encoding a decoded report reproduces bytes 1..13; only the report id is lost. */
  lemma EncodeDecode(data: seq<byte>)
    requires |data| >= ReportLength
    ensures Encode(Decode(data))[1..] == data[1..ReportLength]
  {
    var s := Decode(data);
    var e := Encode(s);
    LeBytesOfValue(data[8..12]);
    LeBytesOfValue(data[12..14]);
    assert e[8..12] == data[8..12];
    assert e[12..14] == data[12..14];
    forall i | 1 <= i < ReportLength
      ensures e[i] == data[i]
    {
      if 8 <= i < 12 {
        assert e[i] == e[8..12][i - 8];
      } else if 12 <= i {
        assert e[i] == e[12..14][i - 12];
      }
    }
  }

  /** The report id (byte 0) and anything past byte 13 never influence the decoded state. */
  lemma DecodeIgnoresIdAndTail(data: seq<byte>, other: seq<byte>)
    requires |data| >= ReportLength && |other| >= ReportLength
    requires data[1..ReportLength] == other[1..ReportLength]
    ensures Decode(data) == Decode(other)
  {
    forall i | 1 <= i < ReportLength
      ensures data[i] == other[i]
    {
      assert data[i] == data[1..ReportLength][i - 1];
    }
    assert data[8..12] == other[8..12];
    assert data[12..14] == other[12..14];
  }

  /**
   * Button bit `j` below 32 comes from the 32-bit word, bit `32 + j` from the
   * 16-bit word, and no bit at 48 or above is ever set.
   */
  lemma DecodedButtonBits(data: seq<byte>, j: nat)
    requires |data| >= ReportLength
    ensures j < 32 ==> (Bit(Decode(data).buttons, j) <==> Bit(ReadU32(data, 8), j))
    ensures j < 16 ==> (Bit(Decode(data).buttons, 32 + j) <==> Bit(ReadU16(data, 12), j))
    ensures j >= 48 ==> !Bit(Decode(data).buttons, j)
  {
    ButtonWordBits(ReadU32(data, 8), ReadU16(data, 12), j);
  }

  /** The bits of the button word, in terms of its two words. */
  lemma ButtonWordBits(lo: nat, hi: nat, j: nat)
    requires lo < 0x1_0000_0000 && hi < 0x1_0000
    ensures j < 32 ==> (Bit(Or(ShiftLeft64(hi, 32), lo), j) <==> Bit(lo, j))
    ensures j < 16 ==> (Bit(Or(ShiftLeft64(hi, 32), lo), 32 + j) <==> Bit(hi, j))
    ensures j >= 48 ==> !Bit(Or(ShiftLeft64(hi, 32), lo), j)
  {
    var b := Or(ShiftLeft64(hi, 32), lo);
    Pow2Values();
    ShiftedWord(hi);
    ButtonWord(lo, hi);
    OrBit(hi * Pow2(32), lo, j);
    OrBit(hi * Pow2(32), lo, 32 + j);
    BitShifted(hi, 32, j);
    BitAboveWidth(lo, 32, 32 + j);
    if j >= 48 {
      BitAboveWidth(b, 48, j);
    }
  }

  /** `BitConverter` reads the words least significant byte first. */
  lemma ReadWords(data: seq<byte>)
    requires |data| >= ReportLength
    ensures ReadU32(data, 8) == data[8] as nat + 0x100 * data[9] as nat + 0x1_0000 * data[10] as nat + 0x100_0000 * data[11] as nat
    ensures ReadU16(data, 12) == data[12] as nat + 0x100 * data[13] as nat
  {
    var w := data[8..12];
    assert LeValue(w[3..]) == data[11] as nat;
    assert LeValue(w[2..]) == data[10] as nat + 0x100 * LeValue(w[3..]) by { assert w[2..][1..] == w[3..]; }
    assert LeValue(w[1..]) == data[9] as nat + 0x100 * LeValue(w[2..]) by { assert w[1..][1..] == w[2..]; }
    var h := data[12..14];
    assert LeValue(h[1..]) == data[13] as nat;
  }

  /**
   * The top four bits of the 16-bit word are not masked off: a report whose
   * byte 13 is 0xF0 (and whose other button bytes are clear) sets bits 44..47.
   */
  lemma UnmaskedHighNibble(data: seq<byte>)
    requires |data| >= ReportLength
    requires data[8] == data[9] == data[10] == data[11] == data[12] == 0 && data[13] == 0xF0
    ensures Decode(data).buttons == 0xF000_0000_0000
    ensures forall j :: 44 <= j < 48 ==> Bit(Decode(data).buttons, j)
  {
    ReadWords(data);
    var b := Decode(data).buttons;
    assert b == 0x1_0000_0000 * (b / 0x1_0000_0000) + b % 0x1_0000_0000;
    forall j | 44 <= j < 48
      ensures Bit(b, j)
    {
      DecodedButtonBits(data, j - 32);
      HighNibble(j - 32);
    }
  }

  lemma HighNibble(j: nat)
    requires 12 <= j < 16
    ensures Bit(0xF000, j)
  {
    Pow2SmallValues(j);
    if j == 12 {
      assert 0xF000 / Pow2(j) == 0xF;
    } else if j == 13 {
      assert 0xF000 / Pow2(j) == 0x7;
    } else if j == 14 {
      assert 0xF000 / Pow2(j) == 0x3;
    } else {
      assert 0xF000 / Pow2(j) == 0x1;
    }
  }

  /** The worked example: button bytes 01 00 00 00 00 00 give button bit 0 alone. */
  lemma ButtonZeroOnly(data: seq<byte>)
    requires |data| >= ReportLength
    requires data[8] == 1 && data[9] == data[10] == data[11] == data[12] == data[13] == 0
    ensures Decode(data).buttons == 1
  {
    ReadWords(data);
  }

  /**
   * The named flags are the single bits 28..43 in declaration order, right
   * above the `Buttons` field of `NumButtonBits` low bits.
   */
  lemma NamedButtonLayout()
    ensures Buttons == Pow2(NumButtonBits) - 1
    ensures |NamedButtons| == 16
    ensures forall i :: 0 <= i < 16 ==> NamedButtons[i] == Pow2(NumButtonBits + i)
  {
    Pow2Above28();
    forall i | 0 <= i < 16
      ensures NamedButtons[i] == Pow2(NumButtonBits + i)
    {
      Pow2Add(NumButtonBits, i);
      NamedButtonValue(i);
    }
  }

  lemma Pow2Above28()
    ensures Pow2(28) == 0x1000_0000
  {
    Pow2Values();
    Pow2Add(16, 12);
  }

  lemma NamedButtonValue(i: nat)
    requires i < 16
    ensures NamedButtons[i] == 0x1000_0000 * Pow2(i)
  {
    Pow2SmallValues(i);
    if i < 8 {
      assert NamedButtons[i] == [Up, Down, DPadUp, DPadRight, DPadDown, DPadLeft, RangeUp, RangeDown][i];
    } else {
      assert NamedButtons[i] == [EStopUp, EStopDown, Alert, Sand, Pantograph, Bell, WhistleUp, WhistleDown][i - 8];
    }
  }
}
