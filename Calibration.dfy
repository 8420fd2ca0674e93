/**
 * The per-axis calibration points.  One `CalibrationData` object is shared by
 * the device interface (which reads it on every normalised getter) and the
 * calibration buttons (which overwrite one field at a time).
 */
module Calibration {
  import opened Bits
  import opened Report

  /** The eighteen calibration points, one constructor per field. */
  datatype CalField =
    | ReverserMin | ReverserCenter | ReverserMax
    | ThrottleMin | ThrottleCenter | ThrottleMax
    | AutoBrakeMin | AutoBrakeEmg | AutoBrakeMax
    | IndBrakeMin | IndBrakeMax
    | BailOffMin | BailOffMax
    | WiperMin | WiperMax
    | LightsMin | LightsCenter | LightsMax

  /** The lever whose raw readings a field records. */
  function FieldLever(f: CalField): Lever {
    match f
    case ReverserMin | ReverserCenter | ReverserMax => ReverserLever
    case ThrottleMin | ThrottleCenter | ThrottleMax => ThrottleLever
    case AutoBrakeMin | AutoBrakeEmg | AutoBrakeMax => AutoBrakeLever
    case IndBrakeMin | IndBrakeMax => IndBrakeLever
    case BailOffMin | BailOffMax => BailOffLever
    case WiperMin | WiperMax => WiperLever
    case LightsMin | LightsCenter | LightsMax => LightsLever
  }

  /** The factory value of each field. */
  function Default(f: CalField): byte {
    match f
    case ReverserMin => 0x00
    case ReverserCenter => 0x7f
    case ReverserMax => 0xff
    case ThrottleMin => 0x00
    case ThrottleCenter => 0x7f
    case ThrottleMax => 0xff
    case AutoBrakeMin => 0x00
    case AutoBrakeEmg => 0x10
    case AutoBrakeMax => 0xff
    case IndBrakeMin => 0x00
    case IndBrakeMax => 0xff
    case BailOffMin => 0x00
    case BailOffMax => 0xff
    case WiperMin => 0x00
    case WiperMax => 0xff
    case LightsMin => 0x00
    case LightsCenter => 0x7f
    case LightsMax => 0xff
  }

  class CalibrationData {
    var reverserMin: byte
    var reverserCenter: byte
    var reverserMax: byte
    var throttleMin: byte
    var throttleCenter: byte
    var throttleMax: byte
    var autoBrakeMin: byte
    var autoBrakeEmg: byte
    var autoBrakeMax: byte
    var indBrakeMin: byte
    var indBrakeMax: byte
    var bailOffMin: byte
    var bailOffMax: byte
    var wiperMin: byte
    var wiperMax: byte
    var lightsMin: byte
    var lightsCenter: byte
    var lightsMax: byte

    /** The current value of field `f`. */
    function Get(f: CalField): byte
      reads this
    {
      match f
      case ReverserMin => reverserMin
      case ReverserCenter => reverserCenter
      case ReverserMax => reverserMax
      case ThrottleMin => throttleMin
      case ThrottleCenter => throttleCenter
      case ThrottleMax => throttleMax
      case AutoBrakeMin => autoBrakeMin
      case AutoBrakeEmg => autoBrakeEmg
      case AutoBrakeMax => autoBrakeMax
      case IndBrakeMin => indBrakeMin
      case IndBrakeMax => indBrakeMax
      case BailOffMin => bailOffMin
      case BailOffMax => bailOffMax
      case WiperMin => wiperMin
      case WiperMax => wiperMax
      case LightsMin => lightsMin
      case LightsCenter => lightsCenter
      case LightsMax => lightsMax
    }

    /** No axis divides by zero: every centre differs from its ends and every range is non-empty. */
    predicate NonDegenerate()
      reads this
    {
      && reverserMin != reverserCenter && reverserCenter != reverserMax
      && throttleMin != throttleCenter && throttleCenter != throttleMax
      && autoBrakeEmg != autoBrakeMax
      && indBrakeMin != indBrakeMax
      && bailOffMin != bailOffMax
      && wiperMin != wiperMax
      && lightsMin != lightsCenter && lightsCenter != lightsMax
    }

    /** The factory calibration; none of its axes is degenerate. */
    constructor ()
      ensures forall f :: Get(f) == Default(f)
      ensures NonDegenerate()
    {
      reverserMin, reverserCenter, reverserMax := 0x00, 0x7f, 0xff;
      throttleMin, throttleCenter, throttleMax := 0x00, 0x7f, 0xff;
      autoBrakeMin, autoBrakeEmg, autoBrakeMax := 0x00, 0x10, 0xff;
      indBrakeMin, indBrakeMax := 0x00, 0xff;
      bailOffMin, bailOffMax := 0x00, 0xff;
      wiperMin, wiperMax := 0x00, 0xff;
      lightsMin, lightsCenter, lightsMax := 0x00, 0x7f, 0xff;
    }

    /** Assign field `f` (the `CalibrationData.X = v` of a calibration button); every other field keeps its value. */
    method Set(f: CalField, v: byte)
      modifies this
      ensures Get(f) == v
      ensures forall g :: g != f ==> Get(g) == old(Get(g))
    {
      match f
      case ReverserMin => reverserMin := v;
      case ReverserCenter => reverserCenter := v;
      case ReverserMax => reverserMax := v;
      case ThrottleMin => throttleMin := v;
      case ThrottleCenter => throttleCenter := v;
      case ThrottleMax => throttleMax := v;
      case AutoBrakeMin => autoBrakeMin := v;
      case AutoBrakeEmg => autoBrakeEmg := v;
      case AutoBrakeMax => autoBrakeMax := v;
      case IndBrakeMin => indBrakeMin := v;
      case IndBrakeMax => indBrakeMax := v;
      case BailOffMin => bailOffMin := v;
      case BailOffMax => bailOffMax := v;
      case WiperMin => wiperMin := v;
      case WiperMax => wiperMax := v;
      case LightsMin => lightsMin := v;
      case LightsCenter => lightsCenter := v;
      case LightsMax => lightsMax := v;
    }
  }
}
