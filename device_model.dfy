/**
 * The Device document (models/DeviceModel.js): its fields and defaults, the
 * `required` constraints the store checks when a new document is saved, and
 * the `firmwareStatus` virtual that is serialised with every device.
 */
module DeviceModel {
  import opened Common

  /**
   * A stored device. `firmwareName`, `signalStrength`, `pendingUpdate` and
   * `lastUpdated` are schema fields with defaults; `targetFirmwareName` and
   * `currentFirmware` are the two fields the update controllers write.
   * `vendor` is the row's vendor text, not a checked reference.
   */
  datatype Device = Device(
    deviceId: string,
    vendor: string,
    district: string,
    block: string,
    panchayat: string,
    firmwareName: Option<string>,
    signalStrength: Option<int>,
    pendingUpdate: bool,
    lastUpdated: Option<int>,
    targetFirmwareName: Option<string>,
    currentFirmware: Option<string>)

  /** JavaScript truthiness of a nullable string: neither null nor "". */
  predicate Truthy(s: Option<string>) {
    s.Some? && s.value != ""
  }

  /** `${s}` in a template literal: null prints as "null". */
  function Interpolate(s: Option<string>): (t: string) {
    match s
    case None => "null"
    case Some(t) => t
  }

  /**
   * The schema's `required: true` paths. A required string path also
   * rejects the empty string.
   */
  predicate RequiredPresent(d: Device) {
    d.deviceId != "" && d.vendor != "" && d.district != "" && d.block != "" && d.panchayat != ""
  }

  /** A device that is pending always knows which firmware it waits for. */
  predicate PendingHasTarget(d: Device) {
    d.pendingUpdate ==> Truthy(d.targetFirmwareName)
  }

  /** The `firmwareStatus` virtual. */
  function FirmwareStatus(d: Device): (s: string)
    ensures |s| > 0
    ensures s[0] == 'P' <==> d.pendingUpdate
    ensures s[0] == 'C' <==> !d.pendingUpdate && Truthy(d.firmwareName)
    ensures s == "Null" <==> !d.pendingUpdate && !Truthy(d.firmwareName)
  {
    if d.pendingUpdate then "Pending (" + Interpolate(d.firmwareName) + ")"
    else if Truthy(d.firmwareName) then "Completed (" + d.firmwareName.value + ")"
    else "Null"
  }

  /** `new Device({...})`: the five given fields, every other field at its default. */
  function NewDevice(deviceId: string, vendor: string, district: string, block: string, panchayat: string): (d: Device)
    ensures d.deviceId == deviceId && d.vendor == vendor && d.district == district
    ensures d.block == block && d.panchayat == panchayat
    ensures d.firmwareName == None && d.signalStrength == None && !d.pendingUpdate && d.lastUpdated == None
    ensures d.targetFirmwareName == None && d.currentFirmware == None
    ensures RequiredPresent(d) <==> deviceId != "" && vendor != "" && district != "" && block != "" && panchayat != ""
    ensures FirmwareStatus(d) == "Null" && PendingHasTarget(d)
  {
    Device(deviceId, vendor, district, block, panchayat, None, None, false, None, None, None)
  }

  /** A device serialised with its virtuals (`toJSON: { virtuals: true }`). */
  datatype DeviceView = DeviceView(device: Device, firmwareStatus: string)

  function ToJson(d: Device): (v: DeviceView)
    ensures v.device == d && v.firmwareStatus == FirmwareStatus(d)
  {
    DeviceView(d, FirmwareStatus(d))
  }

  /** The three shapes of the status string. */
  lemma FirmwareStatusCases(d: Device)
    ensures d.pendingUpdate ==> FirmwareStatus(d) == "Pending (" + Interpolate(d.firmwareName) + ")"
    ensures !d.pendingUpdate && Truthy(d.firmwareName) ==> FirmwareStatus(d) == "Completed (" + d.firmwareName.value + ")"
    ensures !d.pendingUpdate && !Truthy(d.firmwareName) ==> FirmwareStatus(d) == "Null"
  {
  }

  /** The status is a function of `pendingUpdate` and `firmwareName` alone. */
  lemma FirmwareStatusDependsOnlyOnState(d1: Device, d2: Device)
    requires d1.pendingUpdate == d2.pendingUpdate && d1.firmwareName == d2.firmwareName
    ensures FirmwareStatus(d1) == FirmwareStatus(d2)
  {
  }

  /** Two strings `prefix + x + ")"` agree only when their middles agree. */
  lemma UnwrapParenthesised(prefix: string, a: string, b: string)
    requires prefix + a + ")" == prefix + b + ")"
    ensures a == b
  {
    var s := prefix + a + ")";
    assert s[|prefix|..|s| - 1] == a;
    var t := prefix + b + ")";
    assert t[|prefix|..|t| - 1] == b;
  }

  /**
   * The status string tells the three states apart and shows the firmware
   * name it mentions: equal strings mean the same pending flag, the same
   * truthiness of the name when not pending, and the same printed name
   * wherever the string prints one.
   */
  lemma FirmwareStatusDetermines(d1: Device, d2: Device)
    requires FirmwareStatus(d1) == FirmwareStatus(d2)
    ensures d1.pendingUpdate == d2.pendingUpdate
    ensures !d1.pendingUpdate ==> (Truthy(d1.firmwareName) <==> Truthy(d2.firmwareName))
    ensures d1.pendingUpdate || Truthy(d1.firmwareName) ==> Interpolate(d1.firmwareName) == Interpolate(d2.firmwareName)
  {
    var s := FirmwareStatus(d1);
    assert FirmwareStatus(d2) == s;
    assert d1.pendingUpdate ==> s[0] == 'P';
    assert d2.pendingUpdate ==> s[0] == 'P';
    assert !d1.pendingUpdate && Truthy(d1.firmwareName) ==> s[0] == 'C';
    assert !d2.pendingUpdate && Truthy(d2.firmwareName) ==> s[0] == 'C';
    assert !d1.pendingUpdate && !Truthy(d1.firmwareName) ==> s[0] == 'N';
    assert !d2.pendingUpdate && !Truthy(d2.firmwareName) ==> s[0] == 'N';
    if d1.pendingUpdate {
      UnwrapParenthesised("Pending (", Interpolate(d1.firmwareName), Interpolate(d2.firmwareName));
    } else if Truthy(d1.firmwareName) {
      UnwrapParenthesised("Completed (", d1.firmwareName.value, d2.firmwareName.value);
    }
  }
}
