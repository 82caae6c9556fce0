/**
 * The Vendor document (models/VendorModel.js): a required name and a list of
 * device references, which none of the modelled controllers writes.
 */
module VendorModel {
  import opened Common

  datatype Vendor = Vendor(name: string, devices: seq<ObjectId>)
}
