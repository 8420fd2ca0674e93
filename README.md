# RailroaderRD device core in Dafny

RailroaderRD connects a RailDriver desk console (a USB HID device with seven
analog levers and 44 buttons) to a locomotive in the host game. This project
models the driver's core and proves properties of it:

- **Report decoding** (`Report`). An input report is a byte buffer. Bytes 1..7
  are the raw lever bytes, in the order reverser, throttle, automatic brake,
  independent brake, bail-off, wiper, lights. Byte 0, the report id, is never
  read. The `ButtonMask` word is the little-endian 32-bit word at byte 8, ORed
  with the little-endian 16-bit word at byte 12 shifted left by 32.
- **Bit arithmetic** (`Bits`). C# promotes bytes to `int` before any
  arithmetic, so a `byte` is a bounded integer type. The `ulong` `<<` and `|`
  are defined bit by bit on naturals, with the 64-bit truncation and the
  modulo-64 shift count written out.
- **Axis normalisation** (`Normalize`). There are three piecewise-linear
  shapes:
  - bipolar, for the reverser and the throttle;
  - unipolar, for the independent brake, bail-off and wipers, and also for
    the automatic brake, measured from its emergency threshold;
  - split-half, for the lights.

  Each shape has guards that return 0 for a calibration that would divide by
  zero. The `float` quotients are exact `real`s.
- **Calibration record** (`Calibration`). Eighteen byte fields, with the
  factory defaults, held in one shared object.
- **Speed display** (`Display`, and `UpdateVelocityDisplay` in `Interface`).
  The display shows the already formatted speed text in three slots:
  - each character gets its seven-segment code;
  - a following `.` sets bit 0x80 of the code, except in the last slot;
  - the output report is zeroed, then gets the display command 134 at byte 1
    and the codes in reverse slot order.
- **Device session** (`Interface.RaildriverInterface`). Its operations:
  - `Connect` chooses a device from an enumeration and allocates the output
    report;
  - `Disconnect` closes the device;
  - the data callback replaces the decoded state, but only when the report
    comes from the open device;
  - the normalised getters read the shared calibration.
- **Plugin** (`Plugin`). `Update` is the per-tick control mapping:
  - the reverser is negated and the throttle passed through;
  - each brake becomes 1 minus its normalised value;
  - a bail-off is requested when the bail-off lever is strictly above 0.7.

  Each calibration button copies the current raw reading of its lever into
  one calibration field.

Some behaviour of the code is worth stating up front, since the model
reproduces it as written:

- **Short reports.** The decoder does not check the report length. From the
  open device, a report under 8 bytes throws at the first missing lever byte
  before anything is stored. A report of 8 to 13 bytes first stores the new
  lever bytes with an empty button mask, then throws when a button word is
  read (`Interface.RaildriverInterface.HandlePIEHidData`).
- **Top bits of the 16-bit word.** The top four bits of the 16-bit button
  word are not masked, so they show up as mask bits 44..47
  (`Report.UnmaskedHighNibble`).
- **No button handling in the tick.** The per-tick update reads no button:
  there is no button edge detector, and no headlight level, bell toggle or
  horn mapping. Only the camera patches read the mask, polling the D-pad bits
  directly; they are not part of this model.
- **Fallback device.** When some devices are found but none is on usage
  page 0xC, the first enumerated device is opened anyway, because the
  candidate table starts out zeroed (`Interface.SelectedDevice`).
- **No clamping.** None of the lever shapes clamps: past the calibrated end
  points a bipolar lever goes below -1 or above 1, and a unipolar lever below
  0 or above 1.
- **Automatic brake buttons.** The labels do not line up with the fields
  (`Plugin.AutoBrakeButtonMapping`):
  - "Emg" writes `AutoBrakeMin`, which no getter reads;
  - "Full" writes the emergency threshold `AutoBrakeEmg`;
  - "Release" writes `AutoBrakeMax`.

## Model

| member | source | states |
|---|---|---|
| Bits.OrDisjoint | src/RaildriverInterface.cs:436 | OR of a word shifted left by k with a value below 2^k equals their sum, so the two button words lie side by side and nothing is lost |
| Bits.OrBit | src/RaildriverInterface.cs:436 | bit k of the OR of a and b is set iff bit k is set in a or in b |
| Bits.LeValueOfBytes | src/RaildriverInterface.cs:433-434 | reading back the little-endian bytes of a value that fits in n bytes gives the value |
| Bits.LeBytesOfValue | src/RaildriverInterface.cs:433-434 | the little-endian bytes of the value read from a byte string are that byte string |
| Report.ReadU32 | src/RaildriverInterface.cs:433 | the 32-bit word read at an offset is below 2^32 |
| Report.ReadU16 | src/RaildriverInterface.cs:434 | the 16-bit word read at an offset is below 2^16 |
| Report.Decode | src/RaildriverInterface.cs:419-436 | lever l is report byte 1 + its index, each field named; buttons below 2^48; buttons mod 2^32 is the u32 at byte 8 and buttons div 2^32 the u16 at byte 12 |
| Report.DecodeEncode | src/RaildriverInterface.cs:423-436 | every state whose buttons fit in 48 bits is decoded back from its encoding |
| Report.EncodedWords | src/RaildriverInterface.cs:433-434 | in the encoding of a state, the u32 at byte 8 is the low 32 button bits and the u16 at byte 12 the bits above them |
| Report.EncodeDecode | src/RaildriverInterface.cs:423-436 | encoding a decoded report reproduces report bytes 1..13 |
| Report.DecodeIgnoresIdAndTail | src/RaildriverInterface.cs:423-434 | two reports that agree on bytes 1..13 decode to the same state; byte 0 and bytes past 13 are never read |
| Report.DecodedButtonBits | src/RaildriverInterface.cs:433-436 | mask bit j < 32 is bit j of the u32 word, bit 32 + j is bit j of the u16 word, and no bit at 48 or above is set |
| Report.ButtonWord | src/RaildriverInterface.cs:433-436 | for a 32-bit low word and a 16-bit high word, the shifted OR equals high * 2^32 + low, stays below 2^48, and splits back into the low word (mod 2^32) and the high word (div 2^32) |
| Report.ButtonWordBits | src/RaildriverInterface.cs:436 | bit j < 32 of the shifted OR is bit j of the low word, bit 32 + j is bit j of the high word, and no bit at 48 or above is set |
| Report.ReadWords | src/RaildriverInterface.cs:433-434 | the two words are read least significant byte first |
| Report.UnmaskedHighNibble | src/RaildriverInterface.cs:434-436 | byte 13 = 0xF0 with the other button bytes clear gives mask 0xF000_0000_0000, bits 44..47 set |
| Report.ButtonZeroOnly | src/RaildriverInterface.cs:433-436 | button bytes 01 00 00 00 00 00 decode to mask 1, bit 0 only |
| Report.NamedButtonLayout | src/RaildriverInterface.cs:95-112 | `Buttons` is the low 28 bits (2^28 - 1), and Up .. WhistleDown are the single bits 28..43 in declaration order |
| Report.Raw | src/RaildriverInterface.cs:167-256 | the raw byte of a lever (RawReverser .. RawLights) is the byte at position 1 + the lever's index in the report that encodes the state |
| Report.DecodeLevers | src/RaildriverInterface.cs:423-431 | the state stored from the lever bytes alone: lever l is report byte 1 + its index, and no button is set |
| Normalize.Ratio | src/RaildriverInterface.cs:177-181 | the quotient is 0 for a zero numerator and 1 for numerator = denominator; with a positive denominator it is negative iff the numerator is, and below 1 iff the numerator is below the denominator |
| Normalize.Bipolar | src/RaildriverInterface.cs:168-203 | 0 when min = center or center = max, for every raw; 0 at the centre; with min < center < max: in [-1, 0) from min up to the centre, in [0, 1] from the centre to max, below -1 under min and above 1 over max (no clamping) |
| Normalize.BipolarSign | src/RaildriverInterface.cs:175-181 | with min < center < max the value is negative exactly below the centre, for every raw byte, inside the range or past it |
| Normalize.BipolarEnds | src/RaildriverInterface.cs:175-181 | the calibrated min maps to -1 and max to 1 |
| Normalize.BipolarMonotone | src/RaildriverInterface.cs:168-203 | with min < center < max, moving the lever up never lowers the value, for every pair of raw bytes |
| Normalize.RatioMonotone | src/RaildriverInterface.cs:177-181 | with a positive denominator, the quotient is monotone in the numerator |
| Normalize.Unipolar | src/RaildriverInterface.cs:207-254 | 0 when min = max; 0 at min and 1 at max; negative below min, in [0, 1] inside, above 1 beyond max (no clamping) |
| Normalize.Emergency | src/RaildriverInterface.cs:218 | strictly below the threshold: never at the threshold itself, never with threshold 0, and always for a lever at 0 when the threshold is above 0 |
| Normalize.UnipolarMonotone | src/RaildriverInterface.cs:221-254 | with min < max, moving the lever up never lowers the value, inside or outside the range |
| Normalize.EmergencyIsNegativeBrake | src/RaildriverInterface.cs:207-218 | with Emg < Max, the emergency predicate holds iff the automatic brake value is negative; it is false at raw = Emg |
| Normalize.Split | src/RaildriverInterface.cs:257-273 | 0 for degenerate calibration; exactly 0.5 at the centre; with min < center < max: [0, 0.5) from min to the centre, [0.5, 1] from the centre to max, negative under min and above 1 over max (no clamping) |
| Normalize.SplitIsHalvedBipolar | src/RaildriverInterface.cs:257-273 | the lights value is the bipolar value moved from [-1, 1] to [0, 1] |
| Calibration.CalibrationData.constructor | src/RaildriverInterface.cs:115-145 | every field starts at its factory default (0x00/0x7F/0xFF, auto brake 0x00/0x10/0xFF, unipolar 0x00/0xFF) and no axis is degenerate |
| Calibration.CalibrationData.Set | src/RailroaderRD.cs:80-112 | assigning one field sets it and leaves the other seventeen unchanged |
| Display.SevenSegment | src/RaildriverInterface.cs:348-370 | no code uses bit 0x80; a code is non-zero iff the character is a digit |
| Display.SevenSegmentReadsBack | src/RaildriverInterface.cs:356-369 | each digit is recovered from its code and no other character has a digit code, so the table is injective on digits |
| Display.WithPoint | src/RaildriverInterface.cs:395 | OR with 0x80 of a code without the point bit adds 0x80 |
| Display.EncodeSlots | src/RaildriverInterface.cs:386-399 | at most 3 - n further slots, and a slot carries the point bit only when it is slot 0 or 1 |
| Display.Slots | src/RaildriverInterface.cs:386-399 | a formatted speed fills at most three slots |
| Display.SlotsWithoutPoint | src/RaildriverInterface.cs:386-399 | without any '.', the slots are the codes of the first min(3, length) characters |
| Display.PointNeedsDot | src/RaildriverInterface.cs:392-396 | a slot with the point bit is a character's code plus 0x80, and that character is followed by '.' in the text |
| Display.FormattedSpeedSlots | src/RaildriverInterface.cs:386-399 | for any formatted speed (digits, a '.', one more character): one digit before the point gives two slots, the digit's code with the point and the next code; two digits put the point on the middle slot; three or more show the first three digits and no point |
| Display.Reverse | src/RaildriverInterface.cs:404-407 | element k of the result is element len - 1 - k of the input |
| Display.Frame | src/RaildriverInterface.cs:381-407 | the report has its full length, byte 0 is 0, byte 1 is 134, bytes 2.. hold the slot codes last slot first, and every later byte is 0 |
| Display.SixtyMph | src/RaildriverInterface.cs:374-407 | "60.0" gives slots 7D BF 3F and the report 00 86 3F BF 7D |
| Display.BelowTenMph | src/RaildriverInterface.cs:386-399 | "0.0" fills two slots, BF 3F |
| Display.HundredMph | src/RaildriverInterface.cs:386-399 | "100.0" fills three slots 06 3F 3F, and the point that falls in the last slot is dropped |
| Interface.CandidatesSound | src/RaildriverInterface.cs:297-322 | every entry of the candidate list is the index of an enumerated device on usage page 0xC |
| Interface.CandidatesComplete | src/RaildriverInterface.cs:297-322 | every enumerated device on usage page 0xC has its index in the candidate list |
| Interface.CandidatesSorted | src/RaildriverInterface.cs:297-322 | the candidate list is strictly increasing, in enumeration order |
| Interface.SelectedDevice | src/RaildriverInterface.cs:305-326 | the opened device is the first one on usage page 0xC if there is one, and otherwise the first device enumerated |
| Interface.CandidateTable | src/RaildriverInterface.cs:286-322 | the 128-entry table throws iff more than 128 devices match; otherwise it holds the candidates in order, followed by zeros |
| Interface.RaildriverInterface.constructor | src/RaildriverInterface.cs:278-282 | a new interface is disconnected, with a zeroed state and a three-byte slot buffer |
| Interface.RaildriverInterface.Connect | src/RaildriverInterface.cs:284-332 | with no devices nothing changes; more than 128 candidates throw before anything opens; otherwise the interface is connected to the selected device and the output report is fresh, zeroed and of its write length |
| Interface.RaildriverInterface.Disconnect | src/RaildriverInterface.cs:341-345 | afterwards the interface is not connected and the state and report are kept; disconnecting an already disconnected interface changes nothing |
| Interface.RaildriverInterface.Connected | src/RaildriverInterface.cs:152 | true exactly while a device is open |
| Interface.RaildriverInterface.Pid | src/RaildriverInterface.cs:153 | the open device's product id, 0 when disconnected |
| Interface.RaildriverInterface.GetDeviceState | src/RaildriverInterface.cs:473-476 | the state whose lever bytes and mask the Raw getters and Buttons return |
| Interface.RaildriverInterface.RawLever | src/RaildriverInterface.cs:167-256 | the raw byte of a lever (RawReverser .. RawLights) is the byte at the lever's position in the report that encodes the current state |
| Interface.RaildriverInterface.Reverser | src/RaildriverInterface.cs:167-184 | the bipolar shape over ReverserMin/Center/Max: 0 when degenerate and at the centre; once calibrated, negative exactly below the centre and within [-1, 1] between min and max |
| Interface.RaildriverInterface.Throttle | src/RaildriverInterface.cs:186-203 | the bipolar shape over ThrottleMin/Center/Max, with the same promises as the reverser |
| Interface.RaildriverInterface.AutoBrake | src/RaildriverInterface.cs:205-216 | the unipolar shape from AutoBrakeEmg to AutoBrakeMax (AutoBrakeMin unread): 0 when they coincide, 0 at Emg and 1 at Max |
| Interface.RaildriverInterface.EmergencyBrake | src/RaildriverInterface.cs:218 | with AutoBrakeEmg < AutoBrakeMax, true exactly when AutoBrake is negative; never true with threshold 0 |
| Interface.RaildriverInterface.IndBrake | src/RaildriverInterface.cs:220-230 | the unipolar shape from IndBrakeMin to IndBrakeMax: 0 when they coincide, 0 at min and 1 at max |
| Interface.RaildriverInterface.BailOff | src/RaildriverInterface.cs:232-242 | the unipolar shape from BailOffMin to BailOffMax: 0 when they coincide, 0 at min and 1 at max |
| Interface.RaildriverInterface.Wipers | src/RaildriverInterface.cs:244-254 | the unipolar shape from WiperMin to WiperMax: 0 when they coincide, 0 at min and 1 at max |
| Interface.RaildriverInterface.Lights | src/RaildriverInterface.cs:256-273 | the split-half shape over LightsMin/Center/Max: 0 when degenerate, 0.5 at the centre, and once calibrated below 0.5 exactly below the centre |
| Interface.RaildriverInterface.Buttons | src/RaildriverInterface.cs:275 | the mask of the current state, below 2^48 in a valid interface |
| Interface.RaildriverInterface.HandlePIEHidData | src/RaildriverInterface.cs:419-436 | a report from any other source changes nothing and does not throw; from the open device, under 8 bytes throws and changes nothing, 8 to 13 bytes throws after storing the lever bytes with an empty mask, and 14 or more replaces the state with its full decoding; the button mask stays below 2^48 |
| Interface.RaildriverInterface.UpdateVelocityDisplay | src/RaildriverInterface.cs:374-407 | the interface stays valid; when disconnected neither the report nor the slot buffer changes; otherwise the output report is exactly the frame of the text |
| Interface.RaildriverInterface.ClearReport | src/RaildriverInterface.cs:381-384 | every byte of the output report is 0 |
| Interface.RaildriverInterface.CollectSlots | src/RaildriverInterface.cs:386-399 | the loop fills nBuf = the number of slots, and buf[0..nBuf) holds exactly the slot codes of the text |
| Interface.RaildriverInterface.NextSlot | src/RaildriverInterface.cs:390-396 | one pass of the loop consumes at least one character and at most the remaining text, and its byte is the first slot of the remaining text, with the slots after it starting where it stopped |
| Interface.RaildriverInterface.WriteSlots | src/RaildriverInterface.cs:401-407 | from a cleared report, writing 134 and copying the buffer backwards yields the frame of the text |
| Plugin.ControlHelper.BailOff | src/RailroaderRD.cs:64-65 | one more bail-off is requested and the levers are untouched |
| Plugin.RailroaderRD.Update | src/RailroaderRD.cs:51-69 | with an interface and a selected locomotive: reverser = -Reverser, throttle = Throttle, locomotive brake = 1 - AutoBrake, train brake = 1 - IndBrake, and one bail-off iff BailOff > 0.7; without an interface nothing changes |
| Plugin.DefaultBailOffThreshold | src/RailroaderRD.cs:64 | with the factory bail-off calibration, a bail-off is requested exactly for raw readings of 179 and above |
| Plugin.LocomotiveBrakeRange | src/RailroaderRD.cs:61 | with Full < Release captured, the locomotive brake the tick writes is 1 at Full, 0 at Release, in [0, 1] between them and above 1 in the emergency zone |
| Plugin.ButtonFieldsOneToOne | src/RailroaderRD.cs:80-112 | no two buttons write the same field, and every calibration field outside the wipers and lights has a button |
| Plugin.Target | src/RailroaderRD.cs:80-112 | the field a button writes belongs to the lever whose raw reading it captures, and is never a wiper or lights field |
| Plugin.LeverOf | src/RailroaderRD.cs:80-112 | the lever a button reads is never the wipers or the lights |
| Plugin.BailOffRequested | src/RailroaderRD.cs:64 | a bail-off lever at 1 or beyond requests a bail-off; one at 0.7 or below does not |
| Plugin.AutoBrakeButtonMapping | src/RailroaderRD.cs:96-98 | "Emg" writes AutoBrakeMin, "Full" writes AutoBrakeEmg and "Release" writes AutoBrakeMax |
| Plugin.RailroaderRD.Capture | src/RailroaderRD.cs:80-112 | the button's field gets its lever's current raw reading and no other field changes; without an interface it throws; after "N" the reverser reads 0; "Emg" changes neither the automatic brake nor the emergency predicate |

## Left out

- Device I/O through the PIEHid64Net library is not modelled: `EnumeratePIE`, `SetupInterface`, `CloseInterface`, callback registration and `WriteData`. The enumeration result is a parameter of `Connect`. The write that follows the frame, with its retry loop while the result is 404, is not modelled; the model ends with the frame in `wData`.
- Interface.RaildriverInterface.Connect: the `Pid` switch is not modelled, because both of its branches store the index in the same way.
- Speed conversion and formatting (`velocity * 2.23694f`, `ToString("0.0")`, `PadLeft(3)`) are float and culture-dependent work. `UpdateVelocityDisplay` starts from the formatted text.
- Interface.RaildriverInterface.UpdateVelocityDisplay: requires the output report to hold 2 + the number of slots. The code would throw an index error on a shorter report; the model does not represent that exception.
- The Unity Input System is not modelled: layout registration, `QueueStateEvent` and the `InputControl` attributes.
- Threading is not modelled. The data callback runs on the HID library's thread; the model treats each callback as a sequential replacement of the state.
- Float rounding is not modelled. Every ratio is exact, so the strict 0.7 threshold is compared exactly.
- `RDConfig`, the singleton that holds the calibration, is not modelled; the interface holds a reference to the shared `CalibrationData` instead. Loading and saving the configuration is not part of this model.
- The plugin lifecycle is not modelled (`OnEnable`, `OnDisable`, the static instance). Neither are the mod tab's labels and sliders, the console command (src/EchoCommand.cs) or the camera patches.
- Plugin.RailroaderRD.Update: the train controller, the selection and the `BaseLocomotive` type test are not modelled. They are folded into the `loco` argument, which is null when any of them fails.
- Plugin.RailroaderRD.Capture: a missing interface is modelled as a `thrown` result; the code throws a `NullReferenceException` at the same point.
- Interface.RaildriverInterface.HandlePIEHidData: the exceptions of the indexer and of `BitConverter` are a `thrown` result; which exception type is raised is not modelled. The `error` argument and the queueing of the state into the Unity input system are not modelled.
- Plugin.ControlHelper.BailOff: the host's locomotive controls are modelled as plain fields. The model assumes that the four setters store their value unchanged, with no clamping, and that the host's `BailOff()` touches none of the four levers. The host's code is not part of this model, so `Plugin.RailroaderRD.Update`'s promises about the written values rest on that assumption.
