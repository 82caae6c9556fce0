/**
 * The device endpoints (controllers/deviceController.js): bulk import of
 * already parsed spreadsheet rows, the device list, and the three steps of
 * a device's firmware update (initiate, poll, complete).
 */
module DeviceController {
  import opened Common
  import opened DeviceModel
  import opened Store
  import opened Http

  // ---------------------------------------------------------------------
  // Bulk import
  // ---------------------------------------------------------------------

  /**
   * A parsed spreadsheet row, reduced to the five columns the import reads;
   * a column that is missing or empty in the sheet holds "" (falsy).
   */
  datatype Row = Row(DeviceId: string, Vendor: string, District: string, Block: string, Panchayat: string)

  /** The request's file: absent, not readable as a spreadsheet, or parsed into rows. */
  datatype Upload = NoFile | Unparseable | Parsed(rows: seq<Row>)

  const FileRequired: string := "File is required"
  const ParseFailed: string := "Failed to parse the file. Please upload a valid Excel or CSV file."

  function RowId(row: Row): (id: string) {
    row.DeviceId
  }

  /** All five columns the import needs are truthy. */
  predicate RowComplete(row: Row) {
    row.DeviceId != "" && row.Vendor != "" && row.District != "" && row.Block != "" && row.Panchayat != ""
  }

  /** The document an accepted row becomes. */
  function RowDevice(row: Row): (d: Device) {
    NewDevice(row.DeviceId, row.Vendor, row.District, row.Block, row.Panchayat)
  }

  /** The `DeviceId` cell of every row, in row order. */
  function RowIds(rows: seq<Row>): (ids: seq<string>)
    ensures |ids| == |rows| && forall i :: 0 <= i < |rows| ==> ids[i] == RowId(rows[i])
  {
    seq(|rows|, i requires 0 <= i < |rows| => RowId(rows[i]))
  }

  function MissingFieldsError(deviceId: string): (e: string) {
    "Missing required fields for device " + (if deviceId != "" then deviceId else "unknown")
  }

  function AlreadyExistsError(deviceId: string): (e: string) {
    "Device " + deviceId + " already exists"
  }

  function SaveFailedError(deviceId: string, message: string): (e: string) {
    "Failed to add device " + deviceId + ": " + message
  }

  /** The device collection together with the two lists the import loop builds. */
  datatype ImportState = ImportState(devices: map<string, Device>, addedDevices: seq<string>, errors: seq<string>)

  /** A row is accepted when it is complete, its id is not stored yet and its save does not fail. */
  predicate Accepted(devices: map<string, Device>, row: Row, fault: Option<string>) {
    RowComplete(row) && RowId(row) !in devices && fault.None?
  }

  /** Why a row that is not accepted is rejected, in the order the loop checks. */
  function RejectionMessage(devices: map<string, Device>, row: Row, fault: Option<string>): (e: string)
    requires !Accepted(devices, row, fault)
  {
    if !RowComplete(row) then MissingFieldsError(row.DeviceId)
    else if row.DeviceId in devices then AlreadyExistsError(row.DeviceId)
    else SaveFailedError(row.DeviceId, fault.value)
  }

  /**
   * One pass of the import loop. `fault` is what the store does with this
   * row's save: `None` stores it, `Some(message)` fails with that message.
   */
  function ImportRow(st: ImportState, row: Row, fault: Option<string>): (r: ImportState)
    ensures |r.addedDevices| + |r.errors| == |st.addedDevices| + |st.errors| + 1
    ensures st.addedDevices <= r.addedDevices && st.errors <= r.errors
  {
    if Accepted(st.devices, row, fault) then
      ImportState(st.devices[row.DeviceId := RowDevice(row)], st.addedDevices + [row.DeviceId], st.errors)
    else
      st.(errors := st.errors + [RejectionMessage(st.devices, row, fault)])
  }

  /** What one row does, case by case: stored and listed as added, or rejected with its message. */
  lemma ImportRowOutcomes(st: ImportState, row: Row, fault: Option<string>)
    ensures Accepted(st.devices, row, fault) ==>
              ImportRow(st, row, fault) ==
                ImportState(st.devices[RowId(row) := RowDevice(row)], st.addedDevices + [RowId(row)], st.errors)
    ensures !RowComplete(row) ==>
              ImportRow(st, row, fault) == st.(errors := st.errors + [MissingFieldsError(RowId(row))])
    ensures RowComplete(row) && RowId(row) in st.devices ==>
              ImportRow(st, row, fault) == st.(errors := st.errors + [AlreadyExistsError(RowId(row))])
    ensures RowComplete(row) && RowId(row) !in st.devices && fault.Some? ==>
              ImportRow(st, row, fault) == st.(errors := st.errors + [SaveFailedError(RowId(row), fault.value)])
  {
  }

  /** The save outcome of the row at index `i`; rows past the end of `faults` save normally. */
  function FaultAt(faults: seq<Option<string>>, i: nat): (fault: Option<string>) {
    if i < |faults| then faults[i] else None
  }

  /** The state after the first `n` rows: each row has added one entry to exactly one list. */
  function ImportPrefix(devices0: map<string, Device>, rows: seq<Row>, faults: seq<Option<string>>, n: nat): (st: ImportState)
    requires n <= |rows|
    ensures |st.addedDevices| + |st.errors| == n
    decreases n
  {
    if n == 0 then ImportState(devices0, [], [])
    else ImportRow(ImportPrefix(devices0, rows, faults, n - 1), rows[n - 1], FaultAt(faults, n - 1))
  }

  /** The state after the whole batch. */
  function Import(devices0: map<string, Device>, rows: seq<Row>, faults: seq<Option<string>>): (st: ImportState) {
    ImportPrefix(devices0, rows, faults, |rows|)
  }

  /**
   * How the state of an import relates to the collection it started from:
   * the collection holds exactly the old devices and the accepted ids, each
   * accepted id is new and accepted once, and the old devices are unchanged.
   */
  ghost predicate GrownBy(devices0: map<string, Device>, st: ImportState) {
    && (forall id :: id in st.devices <==> id in devices0 || id in st.addedDevices)
    && (forall id :: id in devices0 ==> st.devices[id] == devices0[id])
    && (forall id :: id in st.addedDevices ==> id !in devices0)
    && Distinct(st.addedDevices)
    && |st.devices| == |devices0| + |st.addedDevices|
  }

  /** One row keeps the relation; `r` is the state after the row. */
  lemma ImportRowGrows(devices0: map<string, Device>, st: ImportState, row: Row, fault: Option<string>, r: ImportState)
    requires r == ImportRow(st, row, fault)
    requires GrownBy(devices0, st)
    ensures GrownBy(devices0, r)
  {
  }

  /** The collection grows by exactly the accepted rows and no stored device changes. */
  lemma {:induction false} ImportGrowth(devices0: map<string, Device>, rows: seq<Row>, faults: seq<Option<string>>, n: nat)
    requires n <= |rows|
    ensures GrownBy(devices0, ImportPrefix(devices0, rows, faults, n))
  {
    if n > 0 {
      ImportGrowth(devices0, rows, faults, n - 1);
      ImportRowGrows(devices0, ImportPrefix(devices0, rows, faults, n - 1), rows[n - 1], FaultAt(faults, n - 1),
                     ImportPrefix(devices0, rows, faults, n));
    }
  }

  /** One row keeps the accepted ids a subsequence of the row ids seen so far. */
  lemma ImportRowKeepsOrder(st: ImportState, row: Row, fault: Option<string>, ids: seq<string>)
    requires IsSubsequence(st.addedDevices, ids)
    ensures IsSubsequence(ImportRow(st, row, fault).addedDevices, ids + [RowId(row)])
  {
    if Accepted(st.devices, row, fault) {
      SubsequenceExtendBoth(st.addedDevices, ids, RowId(row));
    } else {
      SubsequenceExtendRight(st.addedDevices, ids, RowId(row));
    }
  }

  /** Accepted ids appear in the order of their rows. */
  lemma {:induction false} AcceptedInInputOrder(devices0: map<string, Device>, rows: seq<Row>, faults: seq<Option<string>>, n: nat)
    requires n <= |rows|
    ensures IsSubsequence(ImportPrefix(devices0, rows, faults, n).addedDevices, RowIds(rows)[..n])
  {
    if n > 0 {
      AcceptedInInputOrder(devices0, rows, faults, n - 1);
      var ids := RowIds(rows);
      assert ids[..n] == ids[..n - 1] + [RowId(rows[n - 1])];
      ImportRowKeepsOrder(ImportPrefix(devices0, rows, faults, n - 1), rows[n - 1], FaultAt(faults, n - 1), ids[..n - 1]);
    }
  }

  /**
   * Every accepted id is stored as the fresh document of a complete row
   * carrying that id, among the rows processed so far; `i` is that row.
   */
  lemma {:induction false} AcceptedRecord(devices0: map<string, Device>, rows: seq<Row>, faults: seq<Option<string>>, n: nat, id: string)
    returns (i: nat)
    requires n <= |rows|
    requires id in ImportPrefix(devices0, rows, faults, n).addedDevices
    ensures i < n && RowComplete(rows[i]) && RowId(rows[i]) == id
    ensures id in ImportPrefix(devices0, rows, faults, n).devices
    ensures ImportPrefix(devices0, rows, faults, n).devices[id] == RowDevice(rows[i])
  {
    assert n > 0;
    var prev := ImportPrefix(devices0, rows, faults, n - 1);
    var st := ImportPrefix(devices0, rows, faults, n);
    assert st == ImportRow(prev, rows[n - 1], FaultAt(faults, n - 1));
    if id in prev.addedDevices {
      i := AcceptedRecord(devices0, rows, faults, n - 1, id);
    } else {
      assert Accepted(prev.devices, rows[n - 1], FaultAt(faults, n - 1));
      i := n - 1;
    }
  }

  /** Every accepted id is the id of one of the rows processed so far. */
  lemma AddedFromEarlierRows(devices0: map<string, Device>, rows: seq<Row>, faults: seq<Option<string>>, n: nat)
    requires n <= |rows|
    ensures forall id :: id in ImportPrefix(devices0, rows, faults, n).addedDevices ==> id in RowIds(rows)[..n]
  {
    AcceptedInInputOrder(devices0, rows, faults, n);
    forall id | id in ImportPrefix(devices0, rows, faults, n).addedDevices
      ensures id in RowIds(rows)[..n]
    {
      SubsequenceElements(ImportPrefix(devices0, rows, faults, n).addedDevices, RowIds(rows)[..n], id);
    }
  }

  /** A device stored after `m` rows is still stored, unchanged, after any later row. */
  lemma {:induction false} StoredStays(devices0: map<string, Device>, rows: seq<Row>, faults: seq<Option<string>>, m: nat, n: nat, id: string)
    requires m <= n <= |rows|
    requires id in ImportPrefix(devices0, rows, faults, m).devices
    ensures id in ImportPrefix(devices0, rows, faults, n).devices
    ensures ImportPrefix(devices0, rows, faults, n).devices[id] == ImportPrefix(devices0, rows, faults, m).devices[id]
    decreases n - m
  {
    if m < n {
      StoredStays(devices0, rows, faults, m, n - 1, id);
    }
  }

  /**
   * A good row (complete, with an id neither stored before the batch nor on
   * an earlier row, and a save that does not fail) is added at its turn and
   * its document is what the collection holds for that id after the batch.
   */
  lemma GoodRowAccepted(devices0: map<string, Device>, rows: seq<Row>, faults: seq<Option<string>>, i: nat)
    requires i < |rows| && RowComplete(rows[i]) && FaultAt(faults, i).None?
    requires RowId(rows[i]) !in devices0 && RowId(rows[i]) !in RowIds(rows)[..i]
    ensures ImportPrefix(devices0, rows, faults, i + 1).addedDevices ==
              ImportPrefix(devices0, rows, faults, i).addedDevices + [RowId(rows[i])]
    ensures RowId(rows[i]) in Import(devices0, rows, faults).addedDevices
    ensures RowId(rows[i]) in Import(devices0, rows, faults).devices
    ensures Import(devices0, rows, faults).devices[RowId(rows[i])] == RowDevice(rows[i])
  {
    var prev := ImportPrefix(devices0, rows, faults, i);
    ImportGrowth(devices0, rows, faults, i);
    AddedFromEarlierRows(devices0, rows, faults, i);
    assert Accepted(prev.devices, rows[i], FaultAt(faults, i));
    StoredStays(devices0, rows, faults, i + 1, |rows|, RowId(rows[i]));
    ImportGrowth(devices0, rows, faults, |rows|);
  }

  /** Imported devices start idle, so the import keeps the pending invariant and the keying. */
  lemma {:induction false} ImportKeepsInvariants(devices0: map<string, Device>, rows: seq<Row>, faults: seq<Option<string>>, n: nat)
    requires n <= |rows|
    requires AllPendingHaveTargets(devices0) && WellKeyed(devices0)
    ensures AllPendingHaveTargets(ImportPrefix(devices0, rows, faults, n).devices)
    ensures WellKeyed(ImportPrefix(devices0, rows, faults, n).devices)
  {
    if n > 0 {
      ImportKeepsInvariants(devices0, rows, faults, n - 1);
    }
  }

  /**
   * Response of an import that got as far as the rows: 201 exactly when no
   * row was rejected, otherwise 207 with "Partial success" or "Failed to
   * add devices" depending on whether any row was accepted.
   */
  function ImportResponse(addedDevices: seq<string>, errors: seq<string>): (r: Response)
    ensures r.status == 201 <==> errors == []
    ensures r.status == 207 <==> errors != []
    ensures r.body.ImportBody? && r.body.addedDevices == addedDevices && r.body.errors == errors
    ensures r.body.message == "All devices added successfully" <==> errors == []
    ensures r.body.message == "Partial success" <==> errors != [] && addedDevices != []
    ensures r.body.message == "Failed to add devices" <==> errors != [] && addedDevices == []
  {
    var message :=
      if |errors| > 0 then
        if |addedDevices| > 0 then "Partial success" else "Failed to add devices"
      else "All devices added successfully";
    Response(if |errors| > 0 then 207 else 201, ImportBody(addedDevices, errors, message))
  }

  /** A batch is a full success exactly when every row was accepted. */
  lemma ImportStatus(devices0: map<string, Device>, rows: seq<Row>, faults: seq<Option<string>>)
    ensures var st := Import(devices0, rows, faults);
            ImportResponse(st.addedDevices, st.errors).status == 201 <==> |st.addedDevices| == |rows|
  {
  }

  /**
   * A `DeviceId` repeated within one batch: the first occurrence is stored,
   * the second is rejected as already existing, because each row is checked
   * against the collection as it is when that row is processed.
   */
  lemma DuplicateWithinBatch(devices0: map<string, Device>, row: Row)
    requires RowComplete(row) && RowId(row) !in devices0
    ensures var st := Import(devices0, [row, row], []);
            && st.addedDevices == [RowId(row)]
            && st.errors == [AlreadyExistsError(RowId(row))]
            && st.devices == devices0[RowId(row) := RowDevice(row)]
  {
    var first := ImportPrefix(devices0, [row, row], [], 1);
    assert first.devices == devices0[RowId(row) := RowDevice(row)];
  }

  /**
   * `addDevices`, from the uploaded file on. `saveFaults[i]` is the outcome
   * of the store's save for row `i`.
   */
  method AddDevices(store: DeviceCollection, file: Upload, saveFaults: seq<Option<string>>) returns (resp: Response)
    requires store.Valid()
    modifies store
    ensures store.Valid()
    ensures file.NoFile? ==> resp == Response(400, ErrorBody(FileRequired)) && store.devices == old(store.devices)
    ensures file.Unparseable? ==> resp == Response(400, ErrorBody(ParseFailed)) && store.devices == old(store.devices)
    ensures file.Parsed? ==>
              var st := Import(old(store.devices), file.rows, saveFaults);
              store.devices == st.devices && resp == ImportResponse(st.addedDevices, st.errors)
  {
    if file.NoFile? {
      return Response(400, ErrorBody(FileRequired));
    }
    if file.Unparseable? {
      return Response(400, ErrorBody(ParseFailed));
    }
    var rows := file.rows;
    var errors: seq<string> := [];
    var addedDevices: seq<string> := [];
    for i := 0 to |rows|
      invariant store.Valid()
      invariant ImportState(store.devices, addedDevices, errors) == ImportPrefix(old(store.devices), rows, saveFaults, i)
    {
      var row := rows[i];
      var deviceId, vendor, district, block, panchayat :=
        row.DeviceId, row.Vendor, row.District, row.Block, row.Panchayat;
      if deviceId == "" || vendor == "" || district == "" || block == "" || panchayat == "" {
        errors := errors + [MissingFieldsError(deviceId)];
        continue;
      }
      var existing := store.FindOne(deviceId);
      if existing.Some? {
        errors := errors + [AlreadyExistsError(deviceId)];
        continue;
      }
      var newDevice := NewDevice(deviceId, vendor, district, block, panchayat);
      var failure := store.Insert(newDevice, FaultAt(saveFaults, i));
      if failure.None? {
        addedDevices := addedDevices + [deviceId];
      } else {
        errors := errors + [SaveFailedError(deviceId, failure.value)];
      }
    }
    resp := ImportResponse(addedDevices, errors);
  }

  // ---------------------------------------------------------------------
  // Device list
  // ---------------------------------------------------------------------

  const RetrieveFailed: string := "Failed to retrieve devices"

  /** `getAllDevices`: every stored device with its `firmwareStatus`, or 500 when the read fails. */
  function GetAllDevices(devices: map<string, Device>, readFails: bool): (r: Response)
    ensures readFails ==> r == Response(500, ErrorBody(RetrieveFailed))
    ensures !readFails ==> r.status == 200 && r.body.DevicesBody? && r.body.allDevices.Keys == devices.Keys
    ensures !readFails ==> forall id :: id in devices ==>
              r.body.allDevices[id].device == devices[id] && r.body.allDevices[id].firmwareStatus == FirmwareStatus(devices[id])
  {
    if readFails then Response(500, ErrorBody(RetrieveFailed))
    else Response(200, DevicesBody(map id | id in devices :: ToJson(devices[id])))
  }

  // ---------------------------------------------------------------------
  // Update lifecycle
  // ---------------------------------------------------------------------

  const IdsAndNameRequired: string := "Device IDs and firmware name are required"
  const FirmwareNotFound: string := "Firmware not found"
  const UpdateInitiated: string := "Update initiated for selected devices"
  const DeviceNotFound: string := "Device not found"
  const UpdateCompleted: string := "Update completed successfully"

  /**
   * `initiateUpdate`: 400 when the ids or the name are missing, 404 when no
   * stored firmware has that name (both without touching a device), else the
   * named devices become pending on that firmware.
   */
  method InitiateUpdate(store: DeviceCollection, firmwares: FirmwareCollection, deviceIds: Option<seq<string>>, firmwareName: string)
    returns (resp: Response)
    requires store.Valid()
    modifies store
    ensures store.Valid()
    ensures deviceIds.None? || firmwareName == "" ==>
              resp == Response(400, ErrorBody(IdsAndNameRequired)) && store.devices == old(store.devices)
    ensures deviceIds.Some? && firmwareName != "" && FindFirmware(firmwares.firmwares, firmwareName).None? ==>
              resp == Response(404, ErrorBody(FirmwareNotFound)) && store.devices == old(store.devices)
    ensures deviceIds.Some? && firmwareName != "" && FindFirmware(firmwares.firmwares, firmwareName).Some? ==>
              && store.devices == MarkPending(old(store.devices), (set id | id in deviceIds.value), firmwareName)
              && resp == Response(200, MessageBody(UpdateInitiated))
  {
    if deviceIds.None? || firmwareName == "" {
      return Response(400, ErrorBody(IdsAndNameRequired));
    }
    var firmware := FindFirmware(firmwares.firmwares, firmwareName);
    if firmware.None? {
      return Response(404, ErrorBody(FirmwareNotFound));
    }
    store.UpdateMany((set id | id in deviceIds.value), firmwareName);
    resp := Response(200, MessageBody(UpdateInitiated));
  }

  /** Of two initiations naming the same stored device, the later one's firmware is its target. */
  lemma LastInitiateWins(devices: map<string, Device>, ids1: set<string>, first: string, ids2: set<string>, second: string, id: string)
    requires id in devices && id in ids2
    ensures var after := MarkPending(MarkPending(devices, ids1, first), ids2, second);
            after[id].pendingUpdate && after[id].targetFirmwareName == Some(second)
  {
  }

  /** `checkForUpdate`: 404 for an unknown device, else whether it is pending. */
  function CheckForUpdate(devices: map<string, Device>, deviceId: string): (r: Response)
    ensures deviceId !in devices ==> r == Response(404, ErrorBody(DeviceNotFound))
    ensures deviceId in devices ==> r == Response(200, UpdateStatusBody(devices[deviceId].pendingUpdate))
  {
    if deviceId !in devices then Response(404, ErrorBody(DeviceNotFound))
    else Response(200, UpdateStatusBody(devices[deviceId].pendingUpdate))
  }

  /** After an initiation every named stored device reports an update; the others report what they did before. */
  lemma CheckAfterInitiate(devices: map<string, Device>, ids: set<string>, firmwareName: string, deviceId: string)
    ensures deviceId in devices && deviceId in ids ==>
              CheckForUpdate(MarkPending(devices, ids, firmwareName), deviceId) == Response(200, UpdateStatusBody(true))
    ensures deviceId !in ids ==>
              CheckForUpdate(MarkPending(devices, ids, firmwareName), deviceId) == CheckForUpdate(devices, deviceId)
  {
  }

  /**
   * What `markUpdateCompleted` does to a device: the target firmware becomes
   * the current one (null if there was none), and the pending state is
   * cleared; no other field changes.
   */
  function Completed(d: Device): (r: Device)
    ensures r.currentFirmware == d.targetFirmwareName && !r.pendingUpdate && r.targetFirmwareName == None
    ensures r.(currentFirmware := d.currentFirmware, pendingUpdate := d.pendingUpdate, targetFirmwareName := d.targetFirmwareName) == d
  {
    d.(currentFirmware := d.targetFirmwareName, pendingUpdate := false, targetFirmwareName := None)
  }

  /** `markUpdateCompleted`: 404 for an unknown device, else the device is completed and saved. */
  method MarkUpdateCompleted(store: DeviceCollection, deviceId: string) returns (resp: Response)
    requires store.Valid()
    modifies store
    ensures store.Valid()
    ensures deviceId !in old(store.devices) ==>
              resp == Response(404, ErrorBody(DeviceNotFound)) && store.devices == old(store.devices)
    ensures deviceId in old(store.devices) ==>
              && store.devices == old(store.devices)[deviceId := Completed(old(store.devices)[deviceId])]
              && resp == Response(200, MessageBody(UpdateCompleted))
  {
    var device := store.FindOne(deviceId);
    if device.None? {
      return Response(404, ErrorBody(DeviceNotFound));
    }
    store.Save(Completed(device.value));
    resp := Response(200, MessageBody(UpdateCompleted));
  }

  /** Initiate then complete: the device runs the firmware it was sent and is idle again. */
  lemma InitiateThenComplete(d: Device, firmwareName: string)
    ensures Completed(WithTarget(d, firmwareName)).currentFirmware == Some(firmwareName)
    ensures !Completed(WithTarget(d, firmwareName)).pendingUpdate
    ensures Completed(WithTarget(d, firmwareName)).targetFirmwareName == None
  {
  }

  /** Completion does not check for a pending update: a second one sets the current firmware to null. */
  lemma CompleteTwice(d: Device)
    ensures Completed(Completed(d)).currentFirmware == None
    ensures Completed(Completed(d)) == Completed(d).(currentFirmware := None)
  {
  }

  /** Completing keeps the keying and the pending invariant, and the device then polls "no update". */
  lemma CompletedKeepsInvariants(devices: map<string, Device>, deviceId: string)
    requires deviceId in devices
    requires AllPendingHaveTargets(devices) && WellKeyed(devices)
    ensures var after := devices[deviceId := Completed(devices[deviceId])];
            && AllPendingHaveTargets(after) && WellKeyed(after)
            && CheckForUpdate(after, deviceId) == Response(200, UpdateStatusBody(false))
  {
  }

  /**
   * The status string reads `firmwareName`, which none of these endpoints
   * writes: an initiated device shows "Pending (" and its old `firmwareName`,
   * never the target, and a freshly imported one shows "Pending (null)".
   */
  lemma StatusIgnoresTarget(d: Device, firmwareName: string, row: Row)
    ensures FirmwareStatus(WithTarget(d, firmwareName)) == "Pending (" + Interpolate(d.firmwareName) + ")"
    ensures FirmwareStatus(WithTarget(RowDevice(row), firmwareName)) == "Pending (null)"
    ensures FirmwareStatus(Completed(d)) == FirmwareStatus(d.(pendingUpdate := false))
  {
  }
}
