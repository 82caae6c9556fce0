/**
 * What a controller sends back: a status code and the JSON object (or, for
 * a firmware download, the file with its two headers). Each constructor of
 * `Body` is one response shape the controllers build; its field names are
 * the JSON keys.
 */
module Http {
  import opened Common
  import opened DeviceModel
  import opened FirmwareModel
  import opened ProjectModel
  import opened VendorModel
  import opened Store

  /** A project as `getProjects` returns it, with its vendor references populated. */
  datatype ProjectDoc = ProjectDoc(name: string, vendors: seq<VendorDoc>)

  datatype Body =
    | ErrorBody(error: string)
    | MessageBody(message: string)
    | FailureBody(message: string, error: string)
    | ImportBody(addedDevices: seq<string>, errors: seq<string>, message: string)
    | DevicesBody(allDevices: map<string, DeviceView>)
    | UpdateStatusBody(updateAvailable: bool)
    | UploadBody(message: string, firmwareId: ObjectId, name: string)
    | FirmwareListBody(allFirmwares: seq<FirmwareSummary>)
    | FileBody(contentDisposition: string, contentType: string, file: seq<byte>)
    | NewVendorBody(vendorId: ObjectId, newVendor: Vendor)
    | VendorsBody(vendors: seq<VendorDoc>)
    | NewProjectBody(projectId: ObjectId, newProject: Project)
    | ProjectsBody(projects: map<ObjectId, ProjectDoc>)

  /** `res.status(status).json(body)`; `res.json(body)` alone is status 200. */
  datatype Response = Response(status: nat, body: Body)
}
