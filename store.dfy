/**
 * The registry store: the four Mongoose collections the controllers use,
 * reduced to the calls they make (find one, insert with validation, save,
 * delete all) and to `populate`, which resolves a list of vendor references.
 * Every call is one atomic step; a call that may fail takes the failure as
 * an argument.
 */
module Store {
  import opened Common
  import opened DeviceModel
  import opened FirmwareModel
  import opened ProjectModel
  import opened VendorModel

  /** Opaque messages the store gives when it refuses a new device document. */
  const DeviceValidationFailed: string := "Device validation failed"
  const DuplicateDeviceKey: string := "E11000 duplicate key error"

  /**
   * Saving a new device: the document is stored exactly when its required
   * paths are present, its `deviceId` is not taken (the unique index) and
   * the store itself does not fail.
   */
  function SaveNewDevice(devices: map<string, Device>, d: Device, fault: Option<string>): (r: Result<map<string, Device>, string>)
    ensures r.Ok? <==> RequiredPresent(d) && d.deviceId !in devices && fault.None?
    ensures r.Ok? ==> r.value == devices[d.deviceId := d]
    ensures r.Err? && RequiredPresent(d) && d.deviceId !in devices ==> r.error == fault.value
  {
    if !RequiredPresent(d) then Err(DeviceValidationFailed)
    else if d.deviceId in devices then Err(DuplicateDeviceKey)
    else if fault.Some? then Err(fault.value)
    else Ok(devices[d.deviceId := d])
  }

  /** Every device is stored under its own `deviceId` and satisfies the schema. */
  ghost predicate WellKeyed(devices: map<string, Device>) {
    forall k :: k in devices ==> devices[k].deviceId == k && RequiredPresent(devices[k])
  }

  /** Every stored device is pending only with a firmware to wait for. */
  ghost predicate AllPendingHaveTargets(devices: map<string, Device>) {
    forall k :: k in devices ==> PendingHasTarget(devices[k])
  }

  /** The `$set` of `initiateUpdate`, applied to one device. */
  function WithTarget(d: Device, firmwareName: string): (r: Device)
    ensures r.pendingUpdate && r.targetFirmwareName == Some(firmwareName)
    ensures r.(pendingUpdate := d.pendingUpdate, targetFirmwareName := d.targetFirmwareName) == d
  {
    d.(pendingUpdate := true, targetFirmwareName := Some(firmwareName))
  }

  /**
   * `updateMany` over the devices whose id is in `ids`: those get the
   * `$set`, overwriting any earlier target; ids with no device are ignored
   * and every other device is left as it was.
   */
  function MarkPending(devices: map<string, Device>, ids: set<string>, firmwareName: string): (r: map<string, Device>)
    ensures r.Keys == devices.Keys
    ensures forall k :: k in devices && k in ids ==> r[k] == WithTarget(devices[k], firmwareName)
    ensures forall k :: k in devices && k !in ids ==> r[k] == devices[k]
  {
    map k | k in devices :: if k in ids then WithTarget(devices[k], firmwareName) else devices[k]
  }

  /** Marking devices pending on a named firmware keeps the keying and the pending invariant. */
  lemma MarkPendingKeepsInvariants(devices: map<string, Device>, ids: set<string>, firmwareName: string)
    requires firmwareName != ""
    requires AllPendingHaveTargets(devices) && WellKeyed(devices)
    ensures AllPendingHaveTargets(MarkPending(devices, ids, firmwareName))
    ensures WellKeyed(MarkPending(devices, ids, firmwareName))
  {
  }

  /** The device collection, keyed by the unique `deviceId`. */
  class DeviceCollection {
    var devices: map<string, Device>

    ghost predicate Valid()
      reads this
    {
      WellKeyed(devices) && AllPendingHaveTargets(devices)
    }

    constructor ()
      ensures Valid() && devices == map[]
    {
      devices := map[];
    }

    /** `Device.findOne({ deviceId })`. */
    function FindOne(deviceId: string): (r: Option<Device>)
      reads this
      ensures r.Some? <==> deviceId in devices
      ensures r.Some? ==> r.value == devices[deviceId]
    {
      if deviceId in devices then Some(devices[deviceId]) else None
    }

    /** `new Device(...).save()`: validated insert; on failure nothing is stored. */
    method Insert(d: Device, fault: Option<string>) returns (failure: Option<string>)
      requires Valid() && PendingHasTarget(d)
      modifies this
      ensures Valid()
      ensures SaveNewDevice(old(devices), d, fault).Ok? ==>
                devices == SaveNewDevice(old(devices), d, fault).value && failure == None
      ensures SaveNewDevice(old(devices), d, fault).Err? ==>
                devices == old(devices) && failure == Some(SaveNewDevice(old(devices), d, fault).error)
    {
      match SaveNewDevice(devices, d, fault)
      case Ok(m) =>
        devices := m;
        failure := None;
      case Err(e) =>
        failure := Some(e);
    }

    /** `device.save()` on a document that is already stored. */
    method Save(d: Device)
      requires Valid() && d.deviceId in devices && RequiredPresent(d) && PendingHasTarget(d)
      modifies this
      ensures Valid()
      ensures devices == old(devices)[d.deviceId := d]
    {
      devices := devices[d.deviceId := d];
    }

    /** `Device.updateMany({ deviceId: { $in: ids } }, { $set: ... })`. */
    method UpdateMany(ids: set<string>, firmwareName: string)
      requires Valid() && firmwareName != ""
      modifies this
      ensures Valid()
      ensures devices == MarkPending(old(devices), ids, firmwareName)
    {
      MarkPendingKeepsInvariants(devices, ids, firmwareName);
      devices := MarkPending(devices, ids, firmwareName);
    }
  }

  /** `Firmware.findOne({ name })`: some stored firmware with that name, if any. */
  function FindFirmware(firmwares: seq<Firmware>, name: string): (r: Option<Firmware>)
    ensures r.Some? <==> exists i :: 0 <= i < |firmwares| && firmwares[i].name == name
    ensures r.Some? ==> r.value in firmwares && r.value.name == name
  {
    if firmwares == [] then None
    else if firmwares[0].name == name then Some(firmwares[0])
    else FindFirmware(firmwares[1..], name)
  }

  /** The firmware collection, in insertion order; every stored id was handed out before `nextId`. */
  class FirmwareCollection {
    var firmwares: seq<Firmware>
    var nextId: ObjectId

    ghost predicate Valid()
      reads this
    {
      forall i :: 0 <= i < |firmwares| ==> firmwares[i].id < nextId
    }

    constructor ()
      ensures Valid() && firmwares == []
    {
      firmwares := [];
      nextId := 0;
    }

    /** `Firmware.deleteMany({})`. */
    method DeleteMany()
      requires Valid()
      modifies this
      ensures Valid()
      ensures firmwares == [] && nextId == old(nextId)
    {
      firmwares := [];
    }

    /** `new Firmware({ name, file }).save()`, returning the new document's id, which no stored firmware has. */
    method Insert(name: string, file: seq<byte>) returns (id: ObjectId)
      requires Valid()
      modifies this
      ensures Valid()
      ensures id == old(nextId) && nextId == id + 1
      ensures forall i :: 0 <= i < |old(firmwares)| ==> old(firmwares)[i].id != id
      ensures firmwares == old(firmwares) + [Firmware(id, name, file)]
    {
      id := nextId;
      firmwares := firmwares + [Firmware(id, name, file)];
      nextId := nextId + 1;
    }
  }

  /** The project collection: ids are fresh and every stored name passed `required`. */
  class ProjectCollection {
    var projects: map<ObjectId, Project>
    var nextId: ObjectId

    ghost predicate Valid()
      reads this
    {
      forall id :: id in projects ==> id < nextId && projects[id].name != ""
    }

    constructor ()
      ensures Valid() && projects == map[]
    {
      projects := map[];
      nextId := 0;
    }

    /** `new Project({ name }).save()`: fails on an empty name or a store failure. */
    method Insert(p: Project, fails: bool) returns (id: Option<ObjectId>)
      requires Valid()
      modifies this
      ensures Valid()
      ensures id.Some? <==> p.name != "" && !fails
      ensures id.Some? ==> id.value == old(nextId) && id.value !in old(projects) && projects == old(projects)[id.value := p]
      ensures id.None? ==> projects == old(projects)
      ensures nextId == old(nextId) + (if id.Some? then 1 else 0)
    {
      if p.name == "" || fails {
        id := None;
      } else {
        id := Some(nextId);
        projects := projects[nextId := p];
        nextId := nextId + 1;
      }
    }

    /** `project.save()` on a stored project. */
    method Save(id: ObjectId, p: Project, fails: bool) returns (ok: bool)
      requires Valid() && id in projects
      modifies this
      ensures Valid()
      ensures ok <==> p.name != "" && !fails
      ensures ok ==> projects == old(projects)[id := p]
      ensures !ok ==> projects == old(projects)
      ensures nextId == old(nextId)
    {
      ok := p.name != "" && !fails;
      if ok {
        projects := projects[id := p];
      }
    }
  }

  /** The vendor collection: ids are fresh and every stored name passed `required`. */
  class VendorCollection {
    var vendors: map<ObjectId, Vendor>
    var nextId: ObjectId

    ghost predicate Valid()
      reads this
    {
      forall id :: id in vendors ==> id < nextId && vendors[id].name != ""
    }

    constructor ()
      ensures Valid() && vendors == map[]
    {
      vendors := map[];
      nextId := 0;
    }

    /** `new Vendor({ name }).save()`: fails on an empty name or a store failure. */
    method Insert(v: Vendor, fails: bool) returns (id: Option<ObjectId>)
      requires Valid()
      modifies this
      ensures Valid()
      ensures id.Some? <==> v.name != "" && !fails
      ensures id.Some? ==> id.value == old(nextId) && id.value !in old(vendors) && vendors == old(vendors)[id.value := v]
      ensures id.None? ==> vendors == old(vendors)
      ensures nextId == old(nextId) + (if id.Some? then 1 else 0)
    {
      if v.name == "" || fails {
        id := None;
      } else {
        id := Some(nextId);
        vendors := vendors[nextId := v];
        nextId := nextId + 1;
      }
    }
  }

  /** A vendor document as `populate` returns it: its id with its fields. */
  datatype VendorDoc = VendorDoc(id: ObjectId, vendor: Vendor)

  /** The ids of a list of vendor documents, in list order. */
  function DocIds(docs: seq<VendorDoc>): (r: seq<ObjectId>)
    ensures |r| == |docs| && forall k :: 0 <= k < |docs| ==> r[k] == docs[k].id
  {
    seq(|docs|, k requires 0 <= k < |docs| => docs[k].id)
  }

  /**
   * `populate("vendors")`: each reference replaced by the vendor it names,
   * in list order; a reference to no stored vendor is dropped and every
   * other one is kept.
   */
  function Populate(ids: seq<ObjectId>, vendors: map<ObjectId, Vendor>): (r: seq<VendorDoc>)
    ensures forall k :: 0 <= k < |r| ==> r[k].id in vendors && vendors[r[k].id] == r[k].vendor
    ensures IsSubsequence(DocIds(r), ids)
    ensures forall i :: 0 <= i < |ids| && ids[i] in vendors ==> VendorDoc(ids[i], vendors[ids[i]]) in r
    ensures (forall i :: 0 <= i < |ids| ==> ids[i] in vendors) ==>
              |r| == |ids| && forall i :: 0 <= i < |ids| ==> r[i] == VendorDoc(ids[i], vendors[ids[i]])
    decreases |ids|
  {
    if ids == [] then []
    else
      var init, last := ids[..|ids| - 1], ids[|ids| - 1];
      var rest := Populate(init, vendors);
      var r := if last in vendors then rest + [VendorDoc(last, vendors[last])] else rest;
      PopulateStepIds(init, last, ids, vendors, rest, r);
      PopulateStepKept(init, last, ids, vendors, rest, r);
      PopulateStepPointwise(init, last, ids, vendors, rest, r);
      r
  }

  /** The last reference keeps the entries' ids a subsequence of the references. */
  lemma PopulateStepIds(init: seq<ObjectId>, last: ObjectId, ids: seq<ObjectId>, vendors: map<ObjectId, Vendor>,
                        rest: seq<VendorDoc>, r: seq<VendorDoc>)
    requires ids == init + [last]
    requires IsSubsequence(DocIds(rest), init)
    requires r == if last in vendors then rest + [VendorDoc(last, vendors[last])] else rest
    ensures IsSubsequence(DocIds(r), ids)
  {
    if last in vendors {
      assert DocIds(r) == DocIds(rest) + [last];
      SubsequenceExtendBoth(DocIds(rest), init, last);
    } else {
      SubsequenceExtendRight(DocIds(rest), init, last);
    }
  }

  /** The last reference keeps the entries stored and keeps every stored reference resolved. */
  lemma PopulateStepKept(init: seq<ObjectId>, last: ObjectId, ids: seq<ObjectId>, vendors: map<ObjectId, Vendor>,
                         rest: seq<VendorDoc>, r: seq<VendorDoc>)
    requires ids == init + [last]
    requires forall k :: 0 <= k < |rest| ==> rest[k].id in vendors && vendors[rest[k].id] == rest[k].vendor
    requires forall i :: 0 <= i < |init| && init[i] in vendors ==> VendorDoc(init[i], vendors[init[i]]) in rest
    requires r == if last in vendors then rest + [VendorDoc(last, vendors[last])] else rest
    ensures forall k :: 0 <= k < |r| ==> r[k].id in vendors && vendors[r[k].id] == r[k].vendor
    ensures forall i :: 0 <= i < |ids| && ids[i] in vendors ==> VendorDoc(ids[i], vendors[ids[i]]) in r
  {
    forall i | 0 <= i < |ids| && ids[i] in vendors
      ensures VendorDoc(ids[i], vendors[ids[i]]) in r
    {
      if i < |init| {
        assert ids[i] == init[i];
      }
    }
  }

  /** When every reference is stored, the last one is resolved right after the others. */
  lemma PopulateStepPointwise(init: seq<ObjectId>, last: ObjectId, ids: seq<ObjectId>, vendors: map<ObjectId, Vendor>,
                              rest: seq<VendorDoc>, r: seq<VendorDoc>)
    requires ids == init + [last]
    requires (forall i :: 0 <= i < |init| ==> init[i] in vendors) ==>
               |rest| == |init| && forall i :: 0 <= i < |init| ==> rest[i] == VendorDoc(init[i], vendors[init[i]])
    requires r == if last in vendors then rest + [VendorDoc(last, vendors[last])] else rest
    ensures (forall i :: 0 <= i < |ids| ==> ids[i] in vendors) ==>
              |r| == |ids| && forall i :: 0 <= i < |ids| ==> r[i] == VendorDoc(ids[i], vendors[ids[i]])
  {
    if forall i :: 0 <= i < |ids| ==> ids[i] in vendors {
      forall i | 0 <= i < |init|
        ensures init[i] in vendors
      {
        assert ids[i] == init[i];
      }
      assert ids[|init|] == last;
    }
  }

  /** A reference appended to the list comes back last once it names a stored vendor. */
  lemma PopulateAppend(ids: seq<ObjectId>, vendors: map<ObjectId, Vendor>, id: ObjectId)
    requires id in vendors
    ensures Populate(ids + [id], vendors) == Populate(ids, vendors) + [VendorDoc(id, vendors[id])]
  {
    assert (ids + [id])[..|ids|] == ids;
  }

  /** Adding a vendor no listed reference names leaves the populated list as it was. */
  lemma {:induction false} PopulateUnaffected(ids: seq<ObjectId>, vendors: map<ObjectId, Vendor>, id: ObjectId, v: Vendor)
    requires id !in ids
    ensures Populate(ids, vendors[id := v]) == Populate(ids, vendors)
    decreases |ids|
  {
    if ids != [] {
      PopulateUnaffected(ids[..|ids| - 1], vendors, id, v);
    }
  }
}
