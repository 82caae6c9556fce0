/**
 * The firmware endpoints (controllers/firmwareController.js): upload, which
 * replaces every stored firmware by the new one, the firmware list, and the
 * download of the stored image.
 */
module FirmwareController {
  import opened Common
  import opened FirmwareModel
  import opened Store
  import opened Http

  const FileAndNameRequired: string := "Firmware file and name are required"
  const UploadFailed: string := "Failed to upload firmware"
  const UploadSucceeded: string := "Firmware uploaded successfully"
  const ListFailed: string := "Failed to retrieve firmware list"
  const NoFirmware: string := "No firmware available for download"
  const DownloadFailed: string := "Failed to download firmware"
  const OctetStream: string := "application/octet-stream"

  /** Which store call of an upload fails, if any. */
  datatype UploadFault = NoFault | DeleteFails | SaveFails

  /**
   * `uploadFirmware`. `file` is the uploaded buffer (`None` when no file was
   * sent); `name` is "" when missing. The old firmwares are deleted before
   * the new one is saved, so a failing save leaves the collection empty.
   */
  method UploadFirmware(store: FirmwareCollection, name: string, file: Option<seq<byte>>, fault: UploadFault)
    returns (resp: Response)
    requires store.Valid()
    modifies store
    ensures store.Valid()
    ensures store.nextId == old(store.nextId) + (if file.Some? && name != "" && fault == NoFault then 1 else 0)
    ensures file.None? || name == "" ==>
              resp == Response(400, ErrorBody(FileAndNameRequired)) && store.firmwares == old(store.firmwares)
    ensures file.Some? && name != "" && fault == DeleteFails ==>
              resp == Response(500, ErrorBody(UploadFailed)) && store.firmwares == old(store.firmwares)
    ensures file.Some? && name != "" && fault == SaveFails ==>
              resp == Response(500, ErrorBody(UploadFailed)) && store.firmwares == []
    ensures file.Some? && name != "" && fault == NoFault ==>
              && store.firmwares == [Firmware(old(store.nextId), name, file.value)]
              && resp == Response(200, UploadBody(UploadSucceeded, old(store.nextId), name))
  {
    if file.None? || name == "" {
      return Response(400, ErrorBody(FileAndNameRequired));
    }
    if fault == DeleteFails {
      return Response(500, ErrorBody(UploadFailed));
    }
    store.DeleteMany();
    if fault == SaveFails {
      return Response(500, ErrorBody(UploadFailed));
    }
    var id := store.Insert(name, file.value);
    resp := Response(200, UploadBody(UploadSucceeded, id, name));
  }

  /** The `"name _id"` projection of every stored firmware, in store order. */
  function Summaries(firmwares: seq<Firmware>): (r: seq<FirmwareSummary>)
    ensures |r| == |firmwares|
    ensures forall i :: 0 <= i < |firmwares| ==> r[i] == FirmwareSummary(firmwares[i].name, firmwares[i].id)
  {
    seq(|firmwares|, i requires 0 <= i < |firmwares| => FirmwareSummary(firmwares[i].name, firmwares[i].id))
  }

  /** `getAllFirmwares`: names and ids of the stored firmwares, or 500 when the read fails. */
  function GetAllFirmwares(firmwares: seq<Firmware>, readFails: bool): (r: Response)
    ensures readFails ==> r == Response(500, ErrorBody(ListFailed))
    ensures !readFails ==> r.status == 200 && r.body.FirmwareListBody? && r.body.allFirmwares == Summaries(firmwares)
  {
    if readFails then Response(500, ErrorBody(ListFailed))
    else Response(200, FirmwareListBody(Summaries(firmwares)))
  }

  /**
   * `downloadFirmware`: the image of the first stored firmware as an
   * attachment named after it; 404 when none is stored, 500 when the read
   * fails.
   */
  function DownloadFirmware(firmwares: seq<Firmware>, readFails: bool): (r: Response)
    ensures readFails ==> r == Response(500, ErrorBody(DownloadFailed))
    ensures !readFails && firmwares == [] ==> r == Response(404, ErrorBody(NoFirmware))
    ensures !readFails && firmwares != [] ==>
              && r.status == 200 && r.body.FileBody?
              && r.body.contentDisposition == "attachment; filename=" + firmwares[0].name
              && r.body.contentType == OctetStream
              && r.body.file == firmwares[0].file
  {
    if readFails then Response(500, ErrorBody(DownloadFailed))
    else if firmwares == [] then Response(404, ErrorBody(NoFirmware))
    else Response(200, FileBody("attachment; filename=" + firmwares[0].name, OctetStream, firmwares[0].file))
  }

  /** After a successful upload the list holds exactly the new firmware's name and id. */
  lemma ListAfterUpload(id: ObjectId, name: string, file: seq<byte>)
    ensures GetAllFirmwares([Firmware(id, name, file)], false) == Response(200, FirmwareListBody([FirmwareSummary(name, id)]))
  {
  }

  /** After a successful upload the download serves that upload's bytes under its name. */
  lemma DownloadAfterUpload(id: ObjectId, name: string, file: seq<byte>)
    ensures DownloadFirmware([Firmware(id, name, file)], false) ==
              Response(200, FileBody("attachment; filename=" + name, OctetStream, file))
  {
  }

  /**
   * Upload is replace-all: afterwards a firmware lookup by name, as
   * `initiateUpdate` makes, succeeds for the uploaded name only.
   */
  lemma LookupAfterUpload(id: ObjectId, name: string, file: seq<byte>, other: string)
    ensures FindFirmware([Firmware(id, name, file)], name) == Some(Firmware(id, name, file))
    ensures other != name ==> FindFirmware([Firmware(id, name, file)], other) == None
  {
  }

  /** An upload with a failing save leaves nothing to download and nothing to dispatch. */
  lemma NothingAfterFailedSave(name: string)
    ensures DownloadFirmware([], false) == Response(404, ErrorBody(NoFirmware))
    ensures GetAllFirmwares([], false) == Response(200, FirmwareListBody([]))
    ensures FindFirmware([], name) == None
  {
  }
}
