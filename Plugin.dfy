/**
 * The plugin side: every host tick maps the normalised levers onto the
 * selected locomotive's controls, and the calibration buttons of the mod tab
 * capture the current raw reading of a lever into one calibration field.
 */
module Plugin {
  import opened Bits
  import opened Report
  import opened Normalize
  import opened Calibration
  import opened Interface

  /**
   * The controls of a locomotive the plugin writes.  `BailOff()` is an action of
   * the host; the model counts how often it was requested.
   */
  class ControlHelper {
    var reverser: real
    var throttle: real
    var locomotiveBrake: real
    var trainBrake: real
    var bailOffs: nat

    constructor ()
      ensures reverser == 0.0 && throttle == 0.0 && locomotiveBrake == 0.0 && trainBrake == 0.0
      ensures bailOffs == 0
    {
      reverser, throttle, locomotiveBrake, trainBrake := 0.0, 0.0, 0.0, 0.0;
      bailOffs := 0;
    }

    /** Request one bail-off of the independent brake; the levers are untouched. */
    method BailOff()
      modifies this
      ensures bailOffs == old(bailOffs) + 1
      ensures reverser == old(reverser) && throttle == old(throttle)
      ensures locomotiveBrake == old(locomotiveBrake) && trainBrake == old(trainBrake)
    {
      bailOffs := bailOffs + 1;
    }
  }

  /** The bail-off lever must be strictly past this ratio to request a bail-off. */
  const BailOffThreshold: real := 0.7

  /**
   * The bail-off rule of the host tick: strictly above the threshold, so a
   * lever at its calibrated "1" requests one and a lever at exactly 0.7 does not.
   */
  function BailOffRequested(bailOff: real): (requested: bool)
    ensures bailOff >= 1.0 ==> requested
    ensures bailOff <= BailOffThreshold ==> !requested
  {
    bailOff > BailOffThreshold
  }

  /** The calibration buttons of the mod tab, by lever and label. */
  datatype CalButton =
    | ReverserF | ReverserN | ReverserR
    | ThrottleBrk | ThrottleZero | ThrottleFull
    | AutoEmg | AutoFull | AutoRelease
    | IndFull | IndRelease
    | BailOffZero | BailOffOne

  /** The calibration field a button overwrites: a field of the lever it reads, never a wiper or lights field. */
  function Target(b: CalButton): (f: CalField)
    ensures FieldLever(f) == LeverOf(b)
    ensures FieldLever(f) != WiperLever && FieldLever(f) != LightsLever
  {
    match b
    case ReverserF => ReverserMin
    case ReverserN => ReverserCenter
    case ReverserR => ReverserMax
    case ThrottleBrk => ThrottleMin
    case ThrottleZero => ThrottleCenter
    case ThrottleFull => ThrottleMax
    case AutoEmg => AutoBrakeMin
    case AutoFull => AutoBrakeEmg
    case AutoRelease => AutoBrakeMax
    case IndFull => IndBrakeMin
    case IndRelease => IndBrakeMax
    case BailOffZero => BailOffMin
    case BailOffOne => BailOffMax
  }

  /** The lever whose raw reading a button captures; the wipers and lights have no buttons. */
  function LeverOf(b: CalButton): (l: Lever)
    ensures l != WiperLever && l != LightsLever
  {
    match b
    case ReverserF | ReverserN | ReverserR => ReverserLever
    case ThrottleBrk | ThrottleZero | ThrottleFull => ThrottleLever
    case AutoEmg | AutoFull | AutoRelease => AutoBrakeLever
    case IndFull | IndRelease => IndBrakeLever
    case BailOffZero | BailOffOne => BailOffLever
  }

  /**
   * The buttons and the calibration fields of the five calibrated levers
   * correspond one to one: no two buttons share a field, and every field
   * outside the wipers and lights has a button.
   */
  lemma ButtonFieldsOneToOne()
    ensures forall b, c :: b != c ==> Target(b) != Target(c)
    ensures forall f :: FieldLever(f) != WiperLever && FieldLever(f) != LightsLever ==>
      exists b :: Target(b) == f
  {
    forall f | FieldLever(f) != WiperLever && FieldLever(f) != LightsLever
      ensures exists b :: Target(b) == f
    {
      var b := match f
        case ReverserMin => ReverserF
        case ReverserCenter => ReverserN
        case ReverserMax => ReverserR
        case ThrottleMin => ThrottleBrk
        case ThrottleCenter => ThrottleZero
        case ThrottleMax => ThrottleFull
        case AutoBrakeMin => AutoEmg
        case AutoBrakeEmg => AutoFull
        case AutoBrakeMax => AutoRelease
        case IndBrakeMin => IndFull
        case IndBrakeMax => IndRelease
        case BailOffMin => BailOffZero
        case _ => BailOffOne;
      assert Target(b) == f;
    }
  }

  /**
   * The automatic brake labels are shifted against the field names: "Emg" sets
   * the unread `AutoBrakeMin`, "Full" sets the emergency threshold and
   * "Release" the upper end.
   */
  lemma AutoBrakeButtonMapping()
    ensures Target(AutoEmg) == AutoBrakeMin
    ensures Target(AutoFull) == AutoBrakeEmg
    ensures Target(AutoRelease) == AutoBrakeMax
  {
  }

  /**
   * With the factory bail-off calibration (0 to 255), a bail-off is requested
   * exactly from raw reading 179 up.
   */
  lemma DefaultBailOffThreshold(raw: byte)
    ensures BailOffRequested(Unipolar(raw, Default(BailOffMin), Default(BailOffMax))) <==> raw >= 179
  {
    var r := Unipolar(raw, 0, 255);
    assert r * 255.0 == raw as real;
    if raw >= 179 {
      assert r * 255.0 >= 179.0;
    } else {
      assert r * 255.0 <= 178.0;
    }
  }

  /**
   * With the automatic brake captured at distinct "Full" and "Release"
   * positions, the locomotive brake the tick applies is 1 at "Full", 0 at
   * "Release", within [0, 1] between them, and more than 1 in the emergency
   * zone below "Full".
   */
  lemma LocomotiveBrakeRange(raw: byte, full: byte, release: byte)
    requires full < release
    ensures 1.0 - Unipolar(full, full, release) == 1.0
    ensures 1.0 - Unipolar(release, full, release) == 0.0
    ensures full <= raw <= release ==> 0.0 <= 1.0 - Unipolar(raw, full, release) <= 1.0
    ensures Emergency(raw, full) ==> 1.0 - Unipolar(raw, full, release) > 1.0
  {
  }

  /** The plugin object: its device interface, null while the plugin is disabled. */
  class RailroaderRD {
    var raildriver: RaildriverInterface?

    constructor (raildriver: RaildriverInterface?)
      ensures this.raildriver == raildriver
    {
      this.raildriver := raildriver;
    }

    /**
     * One host tick.  `loco` is the control helper of the selected locomotive,
     * or null when there is no train controller, nothing is selected or the
     * selection is not a locomotive.  The reverser is inverted, the throttle
     * passed through, both brakes inverted, and a bail-off requested when the
     * bail-off lever is strictly past the threshold.
     */
    method Update(loco: ControlHelper?)
      modifies loco
      ensures raildriver == null && loco != null ==> unchanged(loco)
      ensures raildriver != null && loco != null ==>
        && loco.reverser == -raildriver.Reverser()
        && loco.throttle == raildriver.Throttle()
        && loco.locomotiveBrake == 1.0 - raildriver.AutoBrake()
        && loco.trainBrake == 1.0 - raildriver.IndBrake()
        && loco.bailOffs == old(loco.bailOffs) + (if BailOffRequested(raildriver.BailOff()) then 1 else 0)
    {
      if raildriver != null {
        if loco != null {
          loco.reverser := -raildriver.Reverser();
          loco.throttle := raildriver.Throttle();
          loco.locomotiveBrake := 1.0 - raildriver.AutoBrake();
          loco.trainBrake := 1.0 - raildriver.IndBrake();
          if raildriver.BailOff() > BailOffThreshold {
            loco.BailOff();
          }
        }
      }
    }

    /**
     * A calibration button: the current raw reading of the button's lever
     * becomes the value of the button's field, and no other field changes.
     * Without a device interface the button throws (`thrown`) and nothing
     * changes.  Right after "N", the reverser reads 0, whatever the other
     * reverser points are; "Emg" changes neither the automatic brake nor the
     * emergency predicate, since both ignore `AutoBrakeMin`.
     */
    method Capture(b: CalButton) returns (thrown: bool)
      modifies if raildriver != null then {raildriver.calibration} else {}
      ensures thrown <==> raildriver == null
      ensures raildriver != null ==>
        && raildriver.calibration.Get(Target(b)) == raildriver.RawLever(LeverOf(b))
        && (forall g :: g != Target(b) ==> raildriver.calibration.Get(g) == old(raildriver.calibration.Get(g)))
      ensures raildriver != null && b == ReverserN ==> raildriver.Reverser() == 0.0
      ensures raildriver != null && b == AutoEmg ==>
        raildriver.AutoBrake() == old(raildriver.AutoBrake()) &&
        raildriver.EmergencyBrake() == old(raildriver.EmergencyBrake())
    {
      if raildriver == null {
        return true;
      }
      thrown := false;
      var raw := raildriver.RawLever(LeverOf(b));
      raildriver.calibration.Set(Target(b), raw);
      if b == AutoEmg {
        assert raildriver.calibration.Get(AutoBrakeEmg) == old(raildriver.calibration.Get(AutoBrakeEmg));
        assert raildriver.calibration.Get(AutoBrakeMax) == old(raildriver.calibration.Get(AutoBrakeMax));
      }
    }
  }
}
