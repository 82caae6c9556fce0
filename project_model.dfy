/** The Project document (models/ProjectModel.js): a required name and its vendor references. */
module ProjectModel {
  import opened Common

  datatype Project = Project(name: string, vendors: seq<ObjectId>)
}
