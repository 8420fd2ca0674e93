/**
 * The speed display: characters of the formatted speed become seven-segment
 * codes, at most three of them, a decimal point is folded into the code of
 * the character before it, and the codes are framed for the output report.
 */
module Display {
  import opened Bits

  datatype Option<T> = None | Some(value: T)

  /** Bit 0x80 of a segment code lights the decimal point. */
  const DecimalPoint: byte := 0x80

  /** First byte of the output report payload: the display command. */
  const DisplayCommand: byte := 134

  /** The display has three character slots. */
  const SlotCount: nat := 3

  /**
   * Segment code of a character: bit 0 is the top bar, then clockwise, bit 6
   * the middle bar.  Digits light at least one segment; every other character
   * (space, '-', '.') lights none, and no code uses the decimal-point bit.
   */
  function SevenSegment(c: char): (r: byte)
    ensures r < DecimalPoint
    ensures r != 0 <==> '0' <= c <= '9'
  {
    match c
    case '0' => 0x3F
    case '1' => 0x06
    case '2' => 0x5B
    case '3' => 0x4F
    case '4' => 0x66
    case '5' => 0x6D
    case '6' => 0x7D
    case '7' => 0x07
    case '8' => 0x7F
    case '9' => 0x6F
    case _ => 0
  }

  /** The digit a code shows, if it is one of the ten digit codes. */
  function DigitOf(code: byte): Option<char> {
    match code
    case 0x3F => Some('0')
    case 0x06 => Some('1')
    case 0x5B => Some('2')
    case 0x4F => Some('3')
    case 0x66 => Some('4')
    case 0x6D => Some('5')
    case 0x7D => Some('6')
    case 0x07 => Some('7')
    case 0x7F => Some('8')
    case 0x6F => Some('9')
    case _ => None
  }

  /** Every digit can be read back from its code, so no two digits share a code. */
  lemma SevenSegmentReadsBack(c: char)
    ensures '0' <= c <= '9' ==> DigitOf(SevenSegment(c)) == Some(c)
    ensures !('0' <= c <= '9') ==> DigitOf(SevenSegment(c)) == None
  {
  }

  /** `code | 0x80` for a code that does not use the decimal-point bit yet. */
  function WithPoint(code: byte): (r: byte)
    requires code < DecimalPoint
    ensures r == code + DecimalPoint
  {
    Pow2SmallValues(7);
    OrCommutes(code as nat, 0x80);
    OrDisjoint(1, 7, code as nat);
    Or(code as nat, 0x80) as byte
  }

  /**
   * The slot codes the encoding loop produces from character `i` onwards when
   * `n` slots are already filled: one code per character, a character
   * followed by '.' taking the point into its code (and the '.' with it)
   * except in the last slot, and never more than three slots.
   */
  function EncodeSlots(v: string, i: nat, n: nat): (slots: seq<byte>)
    requires n <= SlotCount
    ensures |slots| <= SlotCount - n
    ensures forall k :: 0 <= k < |slots| && slots[k] >= DecimalPoint ==> n + k < SlotCount - 1
    decreases |v| - i
  {
    if n >= SlotCount || i >= |v| then []
    else
      var code := SevenSegment(v[i]);
      if n != SlotCount - 1 && i + 1 < |v| && v[i + 1] == '.' then
        [WithPoint(code)] + EncodeSlots(v, i + 2, n + 1)
      else
        [code] + EncodeSlots(v, i + 1, n + 1)
  }

  /** The first slot of a non-empty remainder, and where the rest of the text resumes. */
  lemma EncodeSlotsFirst(v: string, i: nat, n: nat)
    requires n < SlotCount && i < |v|
    ensures var point := n != SlotCount - 1 && i + 1 < |v| && v[i + 1] == '.';
      EncodeSlots(v, i, n) ==
        [if point then WithPoint(SevenSegment(v[i])) else SevenSegment(v[i])]
        + EncodeSlots(v, if point then i + 2 else i + 1, n + 1)
  {
  }

  /** The slot codes of a whole formatted speed. */
  function Slots(v: string): (slots: seq<byte>)
    ensures |slots| <= SlotCount
  {
    EncodeSlots(v, 0, 0)
  }

  /** Without any '.', the slots are the codes of the first characters, up to three. */
  lemma {:induction false} SlotsWithoutPoint(v: string, i: nat, n: nat)
    requires n <= SlotCount && i <= |v|
    requires forall j :: i <= j < |v| ==> v[j] != '.'
    ensures |EncodeSlots(v, i, n)| == if SlotCount - n < |v| - i then SlotCount - n else |v| - i
    ensures forall k :: 0 <= k < |EncodeSlots(v, i, n)| ==> EncodeSlots(v, i, n)[k] == SevenSegment(v[i + k])
    decreases |v| - i
  {
    if n < SlotCount && i < |v| {
      SlotsWithoutPoint(v, i + 1, n + 1);
    }
  }

  /**
   * The decimal-point bit in a slot comes from a '.' right after the
   * character that filled it: a slot code with the point is a digit code
   * plus 0x80, and the string holds such a "c." pair.
   */
  lemma {:induction false} PointNeedsDot(v: string, i: nat, n: nat, k: nat)
    requires n <= SlotCount && k < |EncodeSlots(v, i, n)|
    requires EncodeSlots(v, i, n)[k] >= DecimalPoint
    ensures exists j :: i <= j < |v| - 1 && v[j + 1] == '.' && EncodeSlots(v, i, n)[k] == SevenSegment(v[j]) + DecimalPoint
    decreases |v| - i
  {
    var code := SevenSegment(v[i]);
    if n != SlotCount - 1 && i + 1 < |v| && v[i + 1] == '.' {
      if k > 0 {
        PointNeedsDot(v, i + 2, n + 1, k - 1);
      }
    } else {
      if k > 0 {
        PointNeedsDot(v, i + 1, n + 1, k - 1);
      }
    }
  }

  function Reverse(s: seq<byte>): (r: seq<byte>)
    ensures |r| == |s|
    ensures forall k :: 0 <= k < |s| ==> r[k] == s[|s| - 1 - k]
  {
    if s == [] then [] else Reverse(s[1..]) + [s[0]]
  }

  /**
   * The output report for a formatted speed, `len` bytes long: byte 0 zero,
   * byte 1 the display command, then the slot codes last slot first, and
   * zeros after them.
   */
  function Frame(v: string, len: nat): (f: seq<byte>)
    requires len >= 2 + |Slots(v)|
    ensures |f| == len && f[0] == 0 && f[1] == DisplayCommand
    ensures var s := Slots(v); forall j :: 2 <= j < 2 + |s| ==> f[j] == s[|s| + 1 - j]
    ensures forall j :: 2 + |Slots(v)| <= j < len ==> f[j] == 0
  {
    [0, DisplayCommand] + Reverse(Slots(v)) + seq(len - 2 - |Slots(v)|, _ => 0)
  }

  /** A report laid out byte by byte as `Frame` promises is the frame. */
  lemma FrameFromParts(v: string, f: seq<byte>)
    requires |f| >= 2 + |Slots(v)|
    requires f[0] == 0 && f[1] == DisplayCommand
    requires forall j :: 2 <= j < 2 + |Slots(v)| ==> f[j] == Slots(v)[|Slots(v)| + 1 - j]
    requires forall j :: 2 + |Slots(v)| <= j < |f| ==> f[j] == 0
    ensures f == Frame(v, |f|)
  {
  }

  /**
   * A formatted speed is its whole part (one or more digits), a '.' and one
   * more character.  With one digit before the point, the point joins that
   * digit's slot and two slots fill; with two digits, it joins the middle
   * slot; with three or more, the first three digits fill the display and
   * the point is not shown.
   */
  lemma FormattedSpeedSlots(whole: string, tenth: char)
    requires |whole| >= 1
    requires forall j :: 0 <= j < |whole| ==> '0' <= whole[j] <= '9'
    ensures |whole| == 1 ==>
      Slots(whole + ['.', tenth]) == [WithPoint(SevenSegment(whole[0])), SevenSegment(tenth)]
    ensures |whole| == 2 ==>
      Slots(whole + ['.', tenth]) == [SevenSegment(whole[0]), WithPoint(SevenSegment(whole[1])), SevenSegment(tenth)]
    ensures |whole| >= 3 ==>
      Slots(whole + ['.', tenth]) == [SevenSegment(whole[0]), SevenSegment(whole[1]), SevenSegment(whole[2])]
  {
    var v := whole + ['.', tenth];
    EncodeSlotsFirst(v, 0, 0);
    if |whole| == 1 {
      assert v[1] == '.';
      EncodeSlotsFirst(v, 2, 1);
      assert EncodeSlots(v, 3, 2) == [];
    } else if |whole| == 2 {
      assert v[1] == whole[1] && v[2] == '.';
      EncodeSlotsFirst(v, 1, 1);
      EncodeSlotsFirst(v, 3, 2);
      assert EncodeSlots(v, 4, 3) == [];
    } else {
      assert v[1] == whole[1] && v[2] == whole[2];
      EncodeSlotsFirst(v, 1, 1);
      EncodeSlotsFirst(v, 2, 2);
      assert EncodeSlots(v, 3, 3) == [];
    }
  }

  /** 60 mph, formatted "60.0": the point joins the middle slot and the codes go out reversed. */
  lemma SixtyMph()
    ensures Slots("60.0") == [0x7D, 0xBF, 0x3F]
    ensures Frame("60.0", 5) == [0, 134, 0x3F, 0xBF, 0x7D]
  {
    assert "60.0"[1 + 1] == '.';
    assert WithPoint(0x3F) == 0xBF;
  }

  /** A speed below 10 mph, such as "0.0", fills only two slots: the point swallows a character. */
  lemma BelowTenMph()
    ensures Slots("0.0") == [0xBF, 0x3F]
  {
    assert "0.0"[0 + 1] == '.';
    assert WithPoint(0x3F) == 0xBF;
  }

  /** At 100 mph and above ("100.0") the point would follow the last slot and is dropped. */
  lemma HundredMph()
    ensures Slots("100.0") == [0x06, 0x3F, 0x3F]
  {
  }
}
