/**
 * The device interface: the connected HID device, the latest decoded state,
 * the normalised lever getters over the shared calibration, and the output
 * report that drives the speed display.
 */
module Interface {
  import opened Bits
  import opened Report
  import opened Normalize
  import opened Calibration
  import opened Display

  /**
   * A handle of the HID library.  Only what the driver reads of it is kept;
   * opening, closing and writing are the library's own work.
   */
  class PIEDevice {
    const pid: int
    const hidUsagePage: int
    const writeLength: nat

    constructor (pid: int, hidUsagePage: int, writeLength: nat)
      ensures this.pid == pid && this.hidUsagePage == hidUsagePage && this.writeLength == writeLength
    {
      this.pid := pid;
      this.hidUsagePage := hidUsagePage;
      this.writeLength := writeLength;
    }
  }

  /** The HID usage page of a RailDriver (consumer controls). */
  const RailDriverUsagePage: int := 0xC

  /** Capacity of the candidate table `Connect` fills. */
  const CandidateCapacity: nat := 128

  /** Indices of the enumerated devices on the RailDriver usage page, in enumeration order. */
  function Candidates(devices: seq<PIEDevice>): seq<nat>
  {
    if devices == [] then []
    else
      var last := |devices| - 1;
      Candidates(devices[..last]) + (if devices[last].hidUsagePage == RailDriverUsagePage then [last] else [])
  }

  /** Every candidate is the index of a device on the RailDriver usage page. */
  lemma {:induction false} CandidatesSound(devices: seq<PIEDevice>)
    ensures forall k :: 0 <= k < |Candidates(devices)| ==>
      Candidates(devices)[k] < |devices| && devices[Candidates(devices)[k]].hidUsagePage == RailDriverUsagePage
  {
    if devices != [] {
      var last := |devices| - 1;
      var prefix := devices[..last];
      CandidatesSound(prefix);
      var r, rp := Candidates(devices), Candidates(prefix);
      var tail: seq<nat> := if devices[last].hidUsagePage == RailDriverUsagePage then [last] else [];
      assert r == rp + tail;
      forall k | 0 <= k < |r|
        ensures r[k] < |devices| && devices[r[k]].hidUsagePage == RailDriverUsagePage
      {
        if k < |rp| {
          assert r[k] == rp[k] && devices[rp[k]] == prefix[rp[k]];
        }
      }
    }
  }

  /** Every device on the RailDriver usage page is a candidate. */
  lemma {:induction false} CandidatesComplete(devices: seq<PIEDevice>)
    ensures forall i :: 0 <= i < |devices| && devices[i].hidUsagePage == RailDriverUsagePage ==> i in Candidates(devices)
  {
    if devices != [] {
      var last := |devices| - 1;
      var prefix := devices[..last];
      CandidatesComplete(prefix);
      var r, rp := Candidates(devices), Candidates(prefix);
      var tail: seq<nat> := if devices[last].hidUsagePage == RailDriverUsagePage then [last] else [];
      assert r == rp + tail;
      forall i | 0 <= i < last && devices[i].hidUsagePage == RailDriverUsagePage
        ensures i in r
      {
        assert prefix[i] == devices[i];
        assert i in rp;
      }
    }
  }

  /** The candidates are in strictly increasing order, so none is listed twice. */
  lemma {:induction false} CandidatesSorted(devices: seq<PIEDevice>)
    ensures forall k, l :: 0 <= k < l < |Candidates(devices)| ==> Candidates(devices)[k] < Candidates(devices)[l]
  {
    if devices != [] {
      var last := |devices| - 1;
      var prefix := devices[..last];
      CandidatesSorted(prefix);
      CandidatesSound(prefix);
      var r, rp := Candidates(devices), Candidates(prefix);
      var tail: seq<nat> := if devices[last].hidUsagePage == RailDriverUsagePage then [last] else [];
      assert r == rp + tail;
      forall k, l | 0 <= k < l < |r|
        ensures r[k] < r[l]
      {
        assert r[k] == rp[k];
        if l < |rp| {
          assert r[l] == rp[l];
        }
      }
    }
  }

  /** The candidates of a prefix are a prefix of the candidates. */
  lemma {:induction false} CandidatesOfPrefix(devices: seq<PIEDevice>, i: nat)
    requires i <= |devices|
    ensures Candidates(devices[..i]) <= Candidates(devices)
    decreases |devices| - i
  {
    if i < |devices| {
      CandidatesOfPrefix(devices, i + 1);
      assert devices[..i + 1][..i] == devices[..i];
    } else {
      assert devices[..i] == devices;
    }
  }

  /** Enumerating one more device appends its index when it is on the RailDriver usage page. */
  lemma CandidatesStep(devices: seq<PIEDevice>, i: nat)
    requires i < |devices|
    ensures Candidates(devices[..i + 1]) ==
      Candidates(devices[..i]) + (if devices[i].hidUsagePage == RailDriverUsagePage then [i] else [])
  {
    assert devices[..i + 1][..i] == devices[..i];
  }

  /**
   * The device `Connect` opens: the first candidate, or the first enumerated
   * device when there is none (the candidate table starts out zeroed).
   */
  function Selected(devices: seq<PIEDevice>): (i: nat)
    ensures |devices| > 0 ==> i < |devices|
  {
    CandidatesSound(devices);
    var c := Candidates(devices);
    if |c| > 0 then c[0] else 0
  }

  /**
   * When some device is on the RailDriver usage page, the selected one is the
   * first such device; otherwise it is simply the first device enumerated.
   */
  lemma SelectedDevice(devices: seq<PIEDevice>)
    requires |devices| > 0
    ensures Selected(devices) < |devices|
    ensures (exists i :: 0 <= i < |devices| && devices[i].hidUsagePage == RailDriverUsagePage) ==>
      devices[Selected(devices)].hidUsagePage == RailDriverUsagePage &&
      forall j :: 0 <= j < Selected(devices) ==> devices[j].hidUsagePage != RailDriverUsagePage
    ensures (forall i :: 0 <= i < |devices| ==> devices[i].hidUsagePage != RailDriverUsagePage) ==>
      Selected(devices) == 0
  {
    CandidatesSound(devices);
    CandidatesComplete(devices);
    CandidatesSorted(devices);
    var c := Candidates(devices);
    if |c| > 0 {
      forall i | 0 <= i < |devices| && devices[i].hidUsagePage == RailDriverUsagePage
        ensures c[0] <= i
      {
        var m :| 0 <= m < |c| && c[m] == i;
        if m > 0 {
          assert c[0] < c[m];
        }
      }
    }
  }

  /**
   * The candidate table of `Connect`: 128 entries, zeroed, then filled with the
   * indices of the devices on the RailDriver usage page in enumeration order.
   * Storing a 129th index overruns the table (`thrown`).
   */
  method CandidateTable(devices: seq<PIEDevice>) returns (cbotodevice: array<int>, thrown: bool)
    ensures fresh(cbotodevice) && cbotodevice.Length == CandidateCapacity
    ensures thrown <==> |Candidates(devices)| > CandidateCapacity
    ensures !thrown ==> forall k :: 0 <= k < CandidateCapacity ==>
      cbotodevice[k] == if k < |Candidates(devices)| then Candidates(devices)[k] else 0
    ensures !thrown && |devices| > 0 ==> cbotodevice[0] == Selected(devices)
  {
    cbotodevice := new int[CandidateCapacity](_ => 0);
    thrown := false;
    var cbocount := 0;
    var i := 0;
    while i < |devices|
      invariant 0 <= i <= |devices|
      invariant cbocount == |Candidates(devices[..i])| <= CandidateCapacity
      invariant forall k :: 0 <= k < cbocount ==> cbotodevice[k] == Candidates(devices[..i])[k]
      invariant forall k :: cbocount <= k < CandidateCapacity ==> cbotodevice[k] == 0
    {
      CandidatesStep(devices, i);
      if devices[i].hidUsagePage == RailDriverUsagePage {
        if cbocount == CandidateCapacity {
          CandidatesOfPrefix(devices, i + 1);
          thrown := true;
          return;
        }
        cbotodevice[cbocount] := i;
        cbocount := cbocount + 1;
      }
      i := i + 1;
    }
    assert devices[..i] == devices;
  }

  class RaildriverInterface {
    /** The open device, or null when disconnected. */
    var device: PIEDevice?
    /** The state of the latest report from the open device. */
    var deviceState: PIEState
    /** The shared calibration record. */
    const calibration: CalibrationData
    /** The output report, sized by `Connect` to the device's write length. */
    var wData: array<byte>
    /** Scratch space for the display's slot codes. */
    const buf: array<byte>

    ghost predicate Valid()
      reads this
    {
      && buf.Length == SlotCount
      && buf != wData
      && (device != null ==> wData.Length == device.writeLength)
      && deviceState.buttons < 0x1_0000_0000_0000
    }

    constructor (calibration: CalibrationData)
      ensures Valid()
      ensures device == null && deviceState == InitialState && this.calibration == calibration
      ensures fresh(wData) && fresh(buf)
    {
      device := null;
      deviceState := InitialState;
      this.calibration := calibration;
      wData := new byte[0];
      buf := new byte[SlotCount];
    }

    /** Whether a device is open. */
    function Connected(): (open: bool)
      reads this
      ensures open <==> device != null
    {
      device != null
    }

    /** The product id of the open device, 0 when disconnected. */
    function Pid(): (pid: int)
      reads this
      ensures !Connected() ==> pid == 0
      ensures Connected() ==> pid == device.pid
    {
      if device == null then 0 else device.pid
    }

    /** The latest decoded state, as the lever and button getters see it. */
    function GetDeviceState(): (s: PIEState)
      reads this
      ensures forall l :: Raw(s, l) == RawLever(l)
      ensures s.buttons == Buttons()
    {
      deviceState
    }

    /**
     * The latest raw byte of a lever (`RawReverser` … `RawLights`): the byte at
     * the lever's position in the last report that was decoded in full.
     */
    function RawLever(l: Lever): (r: byte)
      reads this
      ensures deviceState.buttons < 0x1_0000_0000_0000 ==> r == Encode(deviceState)[1 + LeverIndex(l)]
    {
      Raw(deviceState, l)
    }

    /**
     * The bipolar shape over `reverserMin`, `reverserCenter` and `reverserMax`:
     * 0 when degenerate and at the centre, and, once calibrated, negative
     * exactly below the centre and within [-1, 1] between the end points.
     */
    function Reverser(): (r: real)
      reads this, calibration
      ensures calibration.reverserMin == calibration.reverserCenter || calibration.reverserCenter == calibration.reverserMax ==> r == 0.0
      ensures deviceState.reverser == calibration.reverserCenter ==> r == 0.0
      ensures calibration.reverserMin < calibration.reverserCenter < calibration.reverserMax ==>
        (r < 0.0 <==> deviceState.reverser < calibration.reverserCenter)
      ensures (calibration.reverserMin < calibration.reverserCenter < calibration.reverserMax &&
               calibration.reverserMin <= deviceState.reverser <= calibration.reverserMax) ==> -1.0 <= r <= 1.0
    {
      if calibration.reverserMin < calibration.reverserCenter < calibration.reverserMax then
        BipolarSign(deviceState.reverser, calibration.reverserMin, calibration.reverserCenter, calibration.reverserMax);
        Bipolar(deviceState.reverser, calibration.reverserMin, calibration.reverserCenter, calibration.reverserMax)
      else
        Bipolar(deviceState.reverser, calibration.reverserMin, calibration.reverserCenter, calibration.reverserMax)
    }

    /** The bipolar shape over `throttleMin`, `throttleCenter` and `throttleMax`, as for the reverser. */
    function Throttle(): (r: real)
      reads this, calibration
      ensures calibration.throttleMin == calibration.throttleCenter || calibration.throttleCenter == calibration.throttleMax ==> r == 0.0
      ensures deviceState.throttle == calibration.throttleCenter ==> r == 0.0
      ensures calibration.throttleMin < calibration.throttleCenter < calibration.throttleMax ==>
        (r < 0.0 <==> deviceState.throttle < calibration.throttleCenter)
      ensures (calibration.throttleMin < calibration.throttleCenter < calibration.throttleMax &&
               calibration.throttleMin <= deviceState.throttle <= calibration.throttleMax) ==> -1.0 <= r <= 1.0
    {
      if calibration.throttleMin < calibration.throttleCenter < calibration.throttleMax then
        BipolarSign(deviceState.throttle, calibration.throttleMin, calibration.throttleCenter, calibration.throttleMax);
        Bipolar(deviceState.throttle, calibration.throttleMin, calibration.throttleCenter, calibration.throttleMax)
      else
        Bipolar(deviceState.throttle, calibration.throttleMin, calibration.throttleCenter, calibration.throttleMax)
    }

    /**
     * The unipolar shape from the emergency threshold `autoBrakeEmg` to
     * `autoBrakeMax`; `autoBrakeMin` is never read.  0 at the threshold, 1 at
     * the upper end, 0 when the two coincide.
     */
    function AutoBrake(): (r: real)
      reads this, calibration
      ensures calibration.autoBrakeEmg == calibration.autoBrakeMax ==> r == 0.0
      ensures calibration.autoBrakeEmg != calibration.autoBrakeMax && deviceState.autoBrake == calibration.autoBrakeEmg ==> r == 0.0
      ensures calibration.autoBrakeEmg != calibration.autoBrakeMax && deviceState.autoBrake == calibration.autoBrakeMax ==> r == 1.0
    {
      Unipolar(deviceState.autoBrake, calibration.autoBrakeEmg, calibration.autoBrakeMax)
    }

    /**
     * The automatic brake strictly below its emergency threshold; with a
     * calibrated brake, exactly when the brake ratio is negative.
     */
    function EmergencyBrake(): (e: bool)
      reads this, calibration
      ensures calibration.autoBrakeEmg < calibration.autoBrakeMax ==> (e <==> AutoBrake() < 0.0)
      ensures calibration.autoBrakeEmg == 0 ==> !e
    {
      if calibration.autoBrakeEmg < calibration.autoBrakeMax then
        EmergencyIsNegativeBrake(deviceState.autoBrake, calibration.autoBrakeEmg, calibration.autoBrakeMax);
        Emergency(deviceState.autoBrake, calibration.autoBrakeEmg)
      else
        Emergency(deviceState.autoBrake, calibration.autoBrakeEmg)
    }

    /** The unipolar shape from `indBrakeMin` ("Full") to `indBrakeMax` ("Release"). */
    function IndBrake(): (r: real)
      reads this, calibration
      ensures calibration.indBrakeMin == calibration.indBrakeMax ==> r == 0.0
      ensures calibration.indBrakeMin != calibration.indBrakeMax && deviceState.indBrake == calibration.indBrakeMin ==> r == 0.0
      ensures calibration.indBrakeMin != calibration.indBrakeMax && deviceState.indBrake == calibration.indBrakeMax ==> r == 1.0
    {
      Unipolar(deviceState.indBrake, calibration.indBrakeMin, calibration.indBrakeMax)
    }

    /** The unipolar shape from `bailOffMin` ("0") to `bailOffMax` ("1"). */
    function BailOff(): (r: real)
      reads this, calibration
      ensures calibration.bailOffMin == calibration.bailOffMax ==> r == 0.0
      ensures calibration.bailOffMin != calibration.bailOffMax && deviceState.bailOff == calibration.bailOffMin ==> r == 0.0
      ensures calibration.bailOffMin != calibration.bailOffMax && deviceState.bailOff == calibration.bailOffMax ==> r == 1.0
    {
      Unipolar(deviceState.bailOff, calibration.bailOffMin, calibration.bailOffMax)
    }

    /** The unipolar shape from `wiperMin` to `wiperMax`. */
    function Wipers(): (r: real)
      reads this, calibration
      ensures calibration.wiperMin == calibration.wiperMax ==> r == 0.0
      ensures calibration.wiperMin != calibration.wiperMax && deviceState.wiper == calibration.wiperMin ==> r == 0.0
      ensures calibration.wiperMin != calibration.wiperMax && deviceState.wiper == calibration.wiperMax ==> r == 1.0
    {
      Unipolar(deviceState.wiper, calibration.wiperMin, calibration.wiperMax)
    }

    /**
     * The split-half shape over `lightsMin`, `lightsCenter` and `lightsMax`:
     * 0 when degenerate, 0.5 at the centre, and, once calibrated, below 0.5
     * exactly below the centre.
     */
    function Lights(): (r: real)
      reads this, calibration
      ensures calibration.lightsMin == calibration.lightsCenter || calibration.lightsCenter == calibration.lightsMax ==> r == 0.0
      ensures (calibration.lightsMin != calibration.lightsCenter && calibration.lightsCenter != calibration.lightsMax &&
               deviceState.lights == calibration.lightsCenter) ==> r == 0.5
      ensures calibration.lightsMin < calibration.lightsCenter < calibration.lightsMax ==>
        (r < 0.5 <==> deviceState.lights < calibration.lightsCenter)
    {
      Split(deviceState.lights, calibration.lightsMin, calibration.lightsCenter, calibration.lightsMax)
    }

    /** The `ButtonMask` of the latest state; in a valid interface no bit at 48 or above is set. */
    function Buttons(): (mask: nat)
      reads this
      ensures Valid() ==> mask < 0x1_0000_0000_0000
    {
      deviceState.buttons
    }

    /**
     * Open a device from the enumeration result `devices`.  Nothing happens when
     * none was found.  Otherwise the devices on the RailDriver usage page are
     * listed in a 128-entry table; a 129th such device overruns the table
     * (`thrown`, the IndexOutOfRangeException) before anything is opened.
     * Then the selected device is opened and the output report allocated.
     */
    method Connect(devices: seq<PIEDevice>) returns (thrown: bool)
      requires Valid()
      modifies this`device, this`wData
      ensures Valid()
      ensures thrown <==> |Candidates(devices)| > CandidateCapacity
      ensures thrown || |devices| == 0 ==> device == old(device) && wData == old(wData)
      ensures !thrown && |devices| > 0 ==>
        Connected() && device == devices[Selected(devices)] && fresh(wData) && wData[..] == seq(device.writeLength, _ => 0)
    {
      thrown := false;
      if |devices| == 0 {
        return;
      }
      var cbotodevice;
      cbotodevice, thrown := CandidateTable(devices);
      if thrown {
        return;
      }
      device := devices[cbotodevice[0]];
      wData := new byte[device.writeLength](_ => 0);
    }

    /** Close the device, if any; disconnecting twice is the same as once. */
    method Disconnect()
      requires Valid()
      modifies this`device
      ensures Valid() && !Connected()
      ensures deviceState == old(deviceState) && wData == old(wData)
      ensures old(device) == null ==> unchanged(this)
    {
      device := null;
    }

    /**
     * The data callback.  A report from any other source is ignored.  For a
     * report from the open device, bytes 1..7 become the new lever bytes with
     * no button set, then the two button words are read into the mask.  A
     * report too short for the lever bytes throws (`thrown`) before anything
     * changes; one too short for the button words throws after the lever
     * bytes were stored, leaving the mask at 0.
     */
    method HandlePIEHidData(data: seq<byte>, sourceDevice: PIEDevice?, error: int) returns (thrown: bool)
      requires Valid()
      modifies this`deviceState
      ensures Valid()
      ensures thrown <==> sourceDevice == device && |data| < ReportLength
      ensures sourceDevice != device || |data| < LeverReportLength ==> deviceState == old(deviceState)
      ensures sourceDevice == device && LeverReportLength <= |data| < ReportLength ==> deviceState == DecodeLevers(data)
      ensures sourceDevice == device && |data| >= ReportLength ==> deviceState == Decode(data)
    {
      thrown := false;
      if sourceDevice == device {
        if |data| < LeverReportLength {
          return true;
        }
        deviceState := DecodeLevers(data);
        if |data| < ReportLength {
          return true;
        }
        var buttons0 := ReadU32(data, 8);
        var buttons1 := ReadU16(data, 12);
        ButtonWord(buttons0, buttons1);
        deviceState := deviceState.(buttons := Or(ShiftLeft64(buttons1, 32), buttons0));
      }
    }

    /**
     * Show a speed, given as its formatted text `v`: clear the output report,
     * collect the slot codes in `buf`, then write the display command and the
     * codes last slot first.  Disconnected, nothing is touched.
     */
    method UpdateVelocityDisplay(v: string)
      requires Valid()
      requires device != null ==> wData.Length >= 2 + |Slots(v)|
      modifies wData, buf
      ensures Valid()
      ensures device == null ==> unchanged(wData) && unchanged(buf)
      ensures device != null ==> wData[..] == Frame(v, wData.Length)
    {
      if device == null {
        return;
      }
      ClearReport();
      var nBuf := CollectSlots(v);
      WriteSlots(v, nBuf);
    }

    /** Zero the output report. */
    method ClearReport()
      modifies wData
      ensures forall k :: 0 <= k < wData.Length ==> wData[k] == 0
    {
      var j := 0;
      while j < wData.Length
        invariant 0 <= j <= wData.Length
        invariant forall k :: 0 <= k < j ==> wData[k] == 0
      {
        wData[j] := 0;
        j := j + 1;
      }
    }

    /** Walk the text, one slot per character, a '.' joining the character before it; stop after three slots. */
    method CollectSlots(v: string) returns (nBuf: nat)
      requires buf.Length == SlotCount
      modifies buf
      ensures nBuf == |Slots(v)| && buf[..nBuf] == Slots(v)
    {
      var iStr := 0;
      nBuf := 0;
      ghost var slots := Slots(v);
      while nBuf < SlotCount && iStr < |v|
        invariant 0 <= nBuf <= |slots| && 0 <= iStr <= |v|
        invariant EncodeSlots(v, iStr, nBuf) == slots[nBuf..]
        invariant buf[..nBuf] == slots[..nBuf]
        decreases |v| - iStr
      {
        var data;
        data, iStr := NextSlot(v, iStr, nBuf);
        buf[nBuf] := data;
        assert buf[..nBuf + 1] == slots[..nBuf + 1];
        nBuf := nBuf + 1;
      }
      assert EncodeSlots(v, iStr, nBuf) == [];
    }

    /**
     * One step of the encoding loop: the code of character `iStr`, with the
     * decimal point when a '.' follows and the slot is not the last, and the
     * index of the next unread character.
     */
    static method NextSlot(v: string, iStr: nat, nBuf: nat) returns (data: byte, next: nat)
      requires nBuf < SlotCount && iStr < |v|
      ensures iStr < next <= |v|
      ensures EncodeSlots(v, iStr, nBuf) == [data] + EncodeSlots(v, next, nBuf + 1)
    {
      EncodeSlotsFirst(v, iStr, nBuf);
      var c := v[iStr];
      next := iStr + 1;
      data := SevenSegment(c);
      if nBuf != SlotCount - 1 && next < |v| && v[next] == '.' {
        next := next + 1;
        data := WithPoint(data);
      }
    }

    /** Into a cleared report, write the display command and then the slot codes, last slot first. */
    method WriteSlots(v: string, nBuf: nat)
      requires buf != wData && nBuf <= buf.Length
      requires nBuf == |Slots(v)| && buf[..nBuf] == Slots(v)
      requires wData.Length >= 2 + nBuf
      requires forall k :: 0 <= k < wData.Length ==> wData[k] == 0
      modifies wData
      ensures wData[..] == Frame(v, wData.Length)
    {
      ghost var done := Slots(v);
      var o := 1;
      wData[o] := DisplayCommand;
      o := o + 1;
      var k := nBuf - 1;
      while k >= 0
        invariant -1 <= k < nBuf
        invariant o == nBuf + 1 - k
        invariant wData[0] == 0 && wData[1] == DisplayCommand
        invariant forall m :: 2 <= m < o ==> wData[m] == done[nBuf + 1 - m]
        invariant forall m :: o <= m < wData.Length ==> wData[m] == 0
      {
        assert buf[k] == buf[..nBuf][k];
        wData[o] := buf[k];
        o := o + 1;
        k := k - 1;
      }
      FrameFromParts(v, wData[..]);
    }
  }
}
