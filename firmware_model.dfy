/** The Firmware document (models/FirmwareModel.js): a name and the binary image. */
module FirmwareModel {
  import opened Common

  datatype Firmware = Firmware(id: ObjectId, name: string, file: seq<byte>)

  /** What the firmware list projects a document to (`"name _id"`): never the bytes. */
  datatype FirmwareSummary = FirmwareSummary(name: string, id: ObjectId)
}
