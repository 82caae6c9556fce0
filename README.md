# fota-backend registry, modelled in Dafny

This project models the core of the fota-backend service. The service is a
firmware-over-the-air backend: operators register IoT devices, upload a
firmware image and mark devices as pending an update. Devices poll for an
update and report when they have finished. Projects group vendors.

The model covers:

- **Device documents** (`device_model.dfy`): the fields, the defaults, the
  `required`/`unique` paths the store enforces, and the `firmwareStatus`
  virtual.
- **The store** (`store.dfy`): the four Mongoose collections, reduced to the
  calls the controllers make. Devices are a map keyed by `deviceId`. Projects
  and vendors are maps keyed by `ObjectId`. Firmwares are a sequence in
  insertion order. `populate` is a function that resolves vendor references.
  Each collection a controller writes to is a class whose methods change its
  fields.
- **Responses** (`http.dfy`): a status code and the JSON body. There is one
  body constructor per response shape.
- **Device controller** (`device_controller.dfy`):
  - `addDevices` from the parsed rows on. Its row loop is a `for` loop proved
    equal to a left fold (`ImportPrefix`).
  - `getAllDevices` and `checkForUpdate`.
  - `initiateUpdate` and `markUpdateCompleted`.
- **Firmware controller** (`firmware_controller.dfy`): the replace-all upload,
  the list and the download.
- **Project and vendor controllers** (`project_controller.dfy`,
  `vendor_controller.dfy`): name-unique project creation, vendor creation
  linked to its project, and the two listings.

Some store calls that can fail in the source take their outcome as an
argument:

- the import's per-row save outcomes (`saveFaults`);
- `readFails` flags on the list and download reads;
- fault enumerations for the upload, the project create and the vendor
  create.

The store calls of the device update handlers, and the import's existence
check, are modelled as always succeeding; "## Left out" lists them.

JavaScript falsiness is modelled explicitly:

- a missing or empty spreadsheet cell, and a missing or empty text field of
  a request body (`firmwareName`, a project's or a vendor's `name`), is `""`;
- a missing `deviceIds` array and a missing upload file are `None`, as is a
  document field that holds `null`.

Some behaviour of the code that a reader might not expect:

- **An empty `deviceIds` array is accepted.** `[]` is truthy, so
  `initiateUpdate` with an empty array passes the argument check. When a
  firmware with the given name is stored, it is answered 200 and changes no
  device; otherwise it is answered 404 like any other request naming an
  unknown firmware. Only a missing `deviceIds` is rejected with 400.
- **`markUpdateCompleted` does not check for a pending update.** A second
  completion sets `currentFirmware` to null (`CompleteTwice`); it is not a
  no-op.
- **`firmwareStatus` reads the schema's `firmwareName` path.** The
  controllers write `targetFirmwareName` and `currentFirmware` instead. An
  initiated device therefore shows the firmware name it had before. A
  freshly imported device shows "Null", and once initiated it shows
  "Pending (null)" (`StatusIgnoresTarget`).
- **The import's `vendor` field is the row's text.** It is not a checked
  vendor reference.

## Model

| member | source | states |
|---|---|---|
| DeviceModel.FirmwareStatus | models/DeviceModel.js:52-58 | the status is never empty; it starts with 'P' exactly when the device is pending, with 'C' exactly when it is not pending and has a truthy `firmwareName`, and it is "Null" exactly when neither holds |
| DeviceModel.NewDevice | models/DeviceModel.js:3-49 | a new device carries the five given fields; `firmwareName`, `signalStrength` and `lastUpdated` are null and `pendingUpdate` is false; the required paths hold exactly when all five strings are non-empty; its status is "Null" |
| DeviceModel.ToJson | models/DeviceModel.js:60-62 | a serialised device carries the document and its `firmwareStatus` virtual |
| DeviceModel.FirmwareStatusCases | models/DeviceModel.js:52-58 | status is "Pending (<firmwareName>)" when pending (null prints as "null"), "Completed (<firmwareName>)" when not pending with a truthy name, "Null" otherwise |
| DeviceModel.FirmwareStatusDependsOnlyOnState | models/DeviceModel.js:52-58 | two devices with the same `pendingUpdate` and `firmwareName` have the same status |
| DeviceModel.FirmwareStatusDetermines | models/DeviceModel.js:52-58 | equal status strings mean the same pending flag, the same truthiness of the name when not pending, and the same printed name wherever one is printed |
| Store.SaveNewDevice | models/DeviceModel.js:5-38 | saving a new device succeeds exactly when its required paths are non-empty, its `deviceId` is not stored yet and the store does not fail; success adds exactly that document; the store's own failure message is passed through |
| Store.WithTarget | controllers/deviceController.js:100-103 | the `$set` makes a device pending on the named firmware and changes no other field |
| Store.MarkPending | controllers/deviceController.js:100-103 | named stored devices become pending on the firmware, overwriting any earlier target; unknown ids are ignored; other devices are unchanged; no device is added or removed |
| Store.MarkPendingKeepsInvariants | controllers/deviceController.js:89-103 | initiating with a non-empty name keeps every pending device with a target, and keeps the keying |
| Store.DeviceCollection.FindOne | controllers/deviceController.js:42-43 | `findOne({deviceId})` finds a document exactly when one is stored under that id, and returns it |
| Store.DeviceCollection.Insert | controllers/deviceController.js:56-61 | the insert keeps every device keyed by its id, valid and pending only with a target; the collection changes exactly as `SaveNewDevice` says, and on failure nothing is stored and the message is returned |
| Store.DeviceCollection.Save | controllers/deviceController.js:125 | re-saving a stored document replaces only that document and keeps the collection's invariants |
| Store.DeviceCollection.UpdateMany | controllers/deviceController.js:100-103 | the collection becomes `MarkPending` of the given ids, and stays keyed and pending only with a target |
| Store.FindFirmware | controllers/deviceController.js:95-98 | `findOne({name})` finds a firmware exactly when some stored firmware has that name, and returns a stored one with that name |
| Store.FirmwareCollection.DeleteMany | controllers/firmwareController.js:12 | `deleteMany({})` empties the collection and keeps the id counter |
| Store.FirmwareCollection.Insert | controllers/firmwareController.js:13-14 | the saved firmware gets an id no stored firmware has, the counter moves past it, and it is appended with the given name and bytes |
| Store.ProjectCollection.Insert | controllers/projectController.js:20-21 | a project is saved under a fresh id exactly when its required name is non-empty and the store does not fail, and the id counter then moves on by one; otherwise nothing changes |
| Store.ProjectCollection.Save | controllers/vendorControllers.js:13-14 | re-saving a stored project replaces only that project, unless the save fails; no id is issued |
| Store.VendorCollection.Insert | controllers/vendorControllers.js:11-12 | a vendor is saved under a fresh id exactly when its required name is non-empty and the store does not fail, and the id counter then moves on by one; otherwise nothing changes |
| Store.Populate | controllers/vendorControllers.js:24 | each populated entry is a stored vendor under its own id; every reference to a stored vendor is resolved to an entry; the entries' ids are a subsequence of the references, so none is invented and the order is kept; when every reference is stored, the result is the referenced vendors pointwise in list order |
| Store.PopulateAppend | controllers/vendorControllers.js:13-29 | appending a reference to a stored vendor appends that vendor to the populated list |
| Store.PopulateUnaffected | controllers/vendorControllers.js:11-29 | storing a vendor that no reference in the list names leaves the populated list as it was |
| DeviceController.ImportRow | controllers/deviceController.js:32-62 | one row adds exactly one entry to `addedDevices` or `errors`, and both lists only grow |
| DeviceController.ImportRowOutcomes | controllers/deviceController.js:33-61 | a complete row with a new id and a save that does not fail stores its fresh document under its id and is appended to `addedDevices`, with `errors` unchanged; a row with a falsy field is rejected with "Missing required fields for device <id or unknown>", a stored id with "Device <id> already exists", a failed save with "Failed to add device <id>: <message>"; in each rejection the collection and `addedDevices` are unchanged |
| DeviceController.ImportPrefix | controllers/deviceController.js:29-62 | after n rows, \|addedDevices\| + \|errors\| = n |
| DeviceController.ImportRowGrows | controllers/deviceController.js:42-61 | one more row keeps the growth relation: keys are exactly the old and accepted ids, stored devices are unchanged, accepted ids are new and distinct, and the size grows by the accepted count |
| DeviceController.ImportGrowth | controllers/deviceController.js:29-62 | after any prefix of the batch, the collection holds exactly the old devices plus one new record per accepted id; no stored device changes; accepted ids are fresh and pairwise distinct |
| DeviceController.ImportRowKeepsOrder | controllers/deviceController.js:32-62 | one row keeps the accepted ids a subsequence of the row ids seen so far |
| DeviceController.AcceptedInInputOrder | controllers/deviceController.js:32-62 | accepted ids are a subsequence of the rows' `DeviceId`s, in row order |
| DeviceController.AcceptedRecord | controllers/deviceController.js:48-58 | each accepted id comes from a complete row with that id, and is stored as that row's fresh document |
| DeviceController.AddedFromEarlierRows | controllers/deviceController.js:32-58 | every id in `addedDevices` is the `DeviceId` of a row processed so far |
| DeviceController.StoredStays | controllers/deviceController.js:42-47 | a device stored at some point of the batch is still stored, unchanged, after every later row |
| DeviceController.GoodRowAccepted | controllers/deviceController.js:32-61 | a complete row whose id is neither stored before the batch nor on an earlier row, and whose save does not fail, is appended to `addedDevices` at its turn, and after the batch the collection holds that row's fresh document under its id |
| DeviceController.ImportKeepsInvariants | controllers/deviceController.js:48-61 | the import keeps every device keyed by its id and valid, and pending only with a target |
| DeviceController.ImportResponse | controllers/deviceController.js:64-73 | 201 exactly when there are no errors, 207 exactly when there are some; the message is "All devices added successfully", "Partial success" or "Failed to add devices" in exactly the stated cases; both lists are returned |
| DeviceController.ImportStatus | controllers/deviceController.js:29-73 | a batch is answered 201 exactly when every row was accepted |
| DeviceController.DuplicateWithinBatch | controllers/deviceController.js:42-58 | a `DeviceId` repeated in one batch is stored once, and its second row is rejected as already existing |
| DeviceController.AddDevices | controllers/deviceController.js:4-74 | no file or an unparseable file gives 400 and changes nothing; otherwise the collection and the response are those of the row fold; the store stays valid |
| DeviceController.GetAllDevices | controllers/deviceController.js:76-84 | every stored device, and only those, is returned with its `firmwareStatus`; a failing read gives 500 "Failed to retrieve devices" |
| DeviceController.InitiateUpdate | controllers/deviceController.js:86-106 | missing ids or name gives 400 and an unknown firmware gives 404, both changing no device; otherwise the collection is `MarkPending` of the named ids and the response is 200 "Update initiated for selected devices" |
| DeviceController.LastInitiateWins | controllers/deviceController.js:100-103 | after two initiations naming the same device, its target is the second firmware |
| DeviceController.CheckForUpdate | controllers/deviceController.js:108-114 | an unknown id gives 404 "Device not found"; otherwise 200 with `updateAvailable` equal to the device's `pendingUpdate` |
| DeviceController.CheckAfterInitiate | controllers/deviceController.js:100-114 | after an initiation every named stored device polls `true`; every other id polls as before |
| DeviceController.Completed | controllers/deviceController.js:122-124 | the current firmware becomes the old target (null if none); pending is cleared and the target is null; no other field changes |
| DeviceController.MarkUpdateCompleted | controllers/deviceController.js:116-128 | an unknown id gives 404 and changes nothing; otherwise only that device is replaced by its completed form, with 200 "Update completed successfully" |
| DeviceController.InitiateThenComplete | controllers/deviceController.js:100-124 | a device that is initiated and then completed runs the firmware it was sent, and is idle |
| DeviceController.CompleteTwice | controllers/deviceController.js:122-124 | a second completion sets the current firmware to null |
| DeviceController.CompletedKeepsInvariants | controllers/deviceController.js:116-125 | completing keeps the invariants, and the device then polls `false` |
| DeviceController.StatusIgnoresTarget | models/DeviceModel.js:52-58 | the status of an initiated device prints its old `firmwareName`, never the target; a freshly imported device that is initiated shows "Pending (null)" |
| FirmwareController.UploadFirmware | controllers/firmwareController.js:3-24 | a missing file or name gives 400 and changes nothing; a failing delete gives 500 and changes nothing; a failing save gives 500 and leaves the store empty; success leaves exactly the new firmware and answers with its id and name; exactly a successful upload issues an id |
| FirmwareController.Summaries | controllers/firmwareController.js:28 | the list holds the name and id of every stored firmware, pointwise in store order |
| FirmwareController.GetAllFirmwares | controllers/firmwareController.js:26-34 | 200 with every firmware's name and id, never the bytes, or 500 "Failed to retrieve firmware list" |
| FirmwareController.DownloadFirmware | controllers/firmwareController.js:36-55 | an empty store gives 404; otherwise the stored bytes are sent as an `application/octet-stream` attachment named after the firmware; a failing read gives 500 |
| FirmwareController.ListAfterUpload | controllers/firmwareController.js:12-29 | after a successful upload the list holds exactly that firmware's name and id |
| FirmwareController.DownloadAfterUpload | controllers/firmwareController.js:12-50 | after a successful upload the download returns that upload's bytes under its name |
| FirmwareController.LookupAfterUpload | controllers/firmwareController.js:12-14 | after an upload a lookup by name finds the new firmware, and only under its name |
| FirmwareController.NothingAfterFailedSave | controllers/firmwareController.js:12-14 | after a failing save there is nothing to download, list or dispatch |
| ProjectController.NameTaken | controllers/projectController.js:14-15 | the lookup by name finds a project exactly when the name is among the stored projects' names |
| ProjectController.Create | controllers/projectController.js:11-26 | a failing lookup gives 404 "Error creating project", whether or not the name is taken; a taken name gives 404 "Project with this name already exists"; an empty name or a failing save gives 404 "Error creating project"; all of these change nothing; otherwise a new project with no vendors is added under the next id and answered 201 |
| ProjectController.CreateProject | controllers/projectController.js:11-26 | the collection and the response are exactly those of `Create`, the store stays valid, and an id is issued exactly when the answer is 201 |
| ProjectController.CreateKeepsNamesDistinct | controllers/projectController.js:14-21 | one create never gives two projects the same name |
| ProjectController.CreateStatus | controllers/projectController.js:14-22 | a create is answered 201 exactly when the collection grows by one |
| ProjectController.CreateAll | controllers/projectController.js:11-26 | over a run of creates, no stored project is removed or changed |
| ProjectController.CreateAllNames | controllers/projectController.js:11-26 | after any run of creates, project names stay pairwise distinct, and every non-empty name whose lookup and save succeeded is taken |
| ProjectController.GetProjects | controllers/projectController.js:2-10 | every stored project, and only those, is returned with its vendors populated; a failing read gives 404 "Error Fetching Projects" |
| VendorController.AddVendor | controllers/vendorControllers.js:3-19 | an unknown project gives 404 "Project Not Found"; a failing lookup, an empty name or a failing vendor save gives 404 "Error while creating the vendor"; these change nothing; a failing project save leaves the vendor stored but unlinked; success appends the new id to that project only and answers 201 with the vendor, which has no devices |
| VendorController.CreateVendor | controllers/vendorControllers.js:3-19 | both collections and the response are exactly those of `AddVendor`, both stores stay valid, a vendor id is issued exactly when the vendor is stored, and no project id is issued |
| VendorController.GetVendorsForAProject | controllers/vendorControllers.js:21-35 | a failing read gives 500 with the store's message; an unknown project gives 404; otherwise the project's vendors in list order |
| VendorController.AddVendorKeepsRefs | controllers/vendorControllers.js:3-19 | every vendor reference in a project is an id already issued, and every create keeps this against the counter as it then is, moved on by one exactly when the vendor was saved |
| VendorController.NextIdUnreferenced | controllers/vendorControllers.js:11-13 | no project references the next vendor id before it is issued |
| VendorController.ListingAfterCreate | controllers/vendorControllers.js:11-29 | after a successful create the project lists its old vendors, then the new vendor last; other projects list what they did before |
| VendorController.OrphanAfterProjectSaveFails | controllers/vendorControllers.js:11-18 | when the project save fails, the vendor is stored but no project's listing changes |

## Left out

Mechanisms the model does not cover:

- Spreadsheet parsing (controllers/deviceController.js:10-27). The rows
  arrive already parsed: only the five columns the loop reads, each as text,
  with "" for an empty or missing cell. A parse failure is the `Unparseable`
  input. Numeric cells and the csv/xlsx distinction are not modelled.
- Authentication, routing and process bootstrap. The auth controller, the
  token check, `routes/*.js`, `index.js` and the database connection are not
  part of this model. The routes name `addDevicesForAVendor` and
  `getDevicesByVendor`, which are not in the controllers modelled here. There
  is no vendor-scoped import, and nothing writes `Vendor.devices`.
- Mongoose casting and strict mode:
  - `vendor` is typed as an ObjectId in the schema but receives the row's
    text.
  - `targetFirmwareName` and `currentFirmware` are not declared in the
    schema. The model stores the fields the controllers write.
  - Ids that are not valid ObjectIds (`findById` cast errors) are covered
    only as the failure arguments of the calls that make them.
- Clocks: the `uploadedOn` default, `timestamps: true`, and the `createdAt`
  sort in `downloadFirmware`. The firmware schema has no timestamps, so the
  model serves the first stored firmware. Replace-all leaves at most one
  anyway.
- Async execution and concurrency. Every operation is one atomic sequential
  step, and concurrent imports racing past the existence check are not
  modelled. A duplicate that reaches the store is still refused by
  `SaveNewDevice`'s unique check.
- The order of find-all results. `getAllDevices` and `getProjects` return
  maps keyed by id.
- The `Firmware` lookup in `initiateUpdate` without an import
  (controllers/deviceController.js:95) is modelled as the intended lookup by
  name in the firmware collection. The runtime ReferenceError it would raise
  is not modelled.
- The signal-strength/last-updated heartbeat. `checkForUpdate` does not
  write these fields.
- The filter `{ name: undefined }` that `createProject` sends when the body
  has no name. The model treats a missing name like "", which matches no
  stored project and fails the `required` check.

Contracts deliberately weaker than the source:

- DeviceController.AddDevices: a failing `findOne` inside the loop is not
  modelled; in the source it escapes the loop and the request gets no
  response.
- DeviceController.InitiateUpdate: a failing `Firmware.findOne` or
  `updateMany` is not modelled, and neither is a `deviceIds` value that is
  not an array (for example a string). In the source a failing call leaves
  the request without a response.
- DeviceController.CheckForUpdate: a failing `findOne`
  (controllers/deviceController.js:110) is not modelled; the handler has no
  `catch`, so in the source the request then gets no response.
- DeviceController.MarkUpdateCompleted: a failing `findOne` or `save` is not
  modelled; in the source the request then gets no response.
