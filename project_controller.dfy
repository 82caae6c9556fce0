/**
 * The project endpoints (controllers/projectController.js): create a
 * project under a name no stored project has, and list every project with
 * its vendors populated.
 */
module ProjectController {
  import opened Common
  import opened ProjectModel
  import opened VendorModel
  import opened Store
  import opened Http

  const NameExists: string := "Project with this name already exists"
  const CreateFailed: string := "Error creating project"
  const FetchFailed: string := "Error Fetching Projects"

  /** `Project.findOne({ name })` finds a document: the name is one of the stored names. */
  predicate NameTaken(projects: map<ObjectId, Project>, name: string)
    ensures NameTaken(projects, name) <==> name in (set id | id in projects :: projects[id].name)
  {
    exists id :: id in projects && projects[id].name == name
  }

  /** No two stored projects share a name. */
  ghost predicate NamesDistinct(projects: map<ObjectId, Project>) {
    forall id1, id2 :: id1 in projects && id2 in projects && projects[id1].name == projects[id2].name ==> id1 == id2
  }

  /** Which store call of a create request fails, if any: the name lookup or the save. */
  datatype ProjectFault = NoFault | FindFails | SaveFails

  /** The collection after a `createProject` request, with the response. */
  datatype Creation = Creation(projects: map<ObjectId, Project>, response: Response)

  /**
   * `createProject` on a collection whose next fresh id is `nextId`. A
   * failing lookup and a failing save are both caught by the handler's one
   * `catch` (404 "Error creating project"); a taken name is 404 too; the
   * save fails on an empty name (`required`); otherwise 201 with the new
   * project, which has no vendors.
   */
  function Create(projects: map<ObjectId, Project>, nextId: ObjectId, name: string, fault: ProjectFault): (c: Creation)
    ensures fault == FindFails ==> c == Creation(projects, Response(404, MessageBody(CreateFailed)))
    ensures fault != FindFails && NameTaken(projects, name) ==> c == Creation(projects, Response(404, MessageBody(NameExists)))
    ensures fault != FindFails && !NameTaken(projects, name) && (name == "" || fault == SaveFails) ==>
              c == Creation(projects, Response(404, MessageBody(CreateFailed)))
    ensures fault == NoFault && !NameTaken(projects, name) && name != "" ==>
              && c.projects == projects[nextId := Project(name, [])]
              && c.response == Response(201, NewProjectBody(nextId, Project(name, [])))
  {
    if fault == FindFails then Creation(projects, Response(404, MessageBody(CreateFailed)))
    else if NameTaken(projects, name) then Creation(projects, Response(404, MessageBody(NameExists)))
    else if name == "" || fault == SaveFails then Creation(projects, Response(404, MessageBody(CreateFailed)))
    else Creation(projects[nextId := Project(name, [])], Response(201, NewProjectBody(nextId, Project(name, []))))
  }

  /** `createProject`: the lookup, then the store's insert. */
  method CreateProject(store: ProjectCollection, name: string, fault: ProjectFault) returns (resp: Response)
    requires store.Valid()
    modifies store
    ensures store.Valid()
    ensures store.projects == Create(old(store.projects), old(store.nextId), name, fault).projects
    ensures resp == Create(old(store.projects), old(store.nextId), name, fault).response
    ensures store.nextId == old(store.nextId) + (if resp.status == 201 then 1 else 0)
  {
    if fault == FindFails {
      return Response(404, MessageBody(CreateFailed));
    }
    if NameTaken(store.projects, name) {
      return Response(404, MessageBody(NameExists));
    }
    var newProject := Project(name, []);
    var id := store.Insert(newProject, fault == SaveFails);
    if id.None? {
      return Response(404, MessageBody(CreateFailed));
    }
    resp := Response(201, NewProjectBody(id.value, newProject));
  }

  /** Creating a project never introduces a second project with the same name. */
  lemma CreateKeepsNamesDistinct(projects: map<ObjectId, Project>, nextId: ObjectId, name: string, fault: ProjectFault)
    requires nextId !in projects
    requires NamesDistinct(projects)
    ensures NamesDistinct(Create(projects, nextId, name, fault).projects)
  {
  }

  /** A create request is answered 201 exactly when it stores a project. */
  lemma CreateStatus(projects: map<ObjectId, Project>, nextId: ObjectId, name: string, fault: ProjectFault)
    requires nextId !in projects
    ensures var c := Create(projects, nextId, name, fault);
            c.response.status == 201 <==> |c.projects| == |projects| + 1
  {
  }

  /**
   * A sequence of create requests, the i-th with store outcome `faults[i]`,
   * issued one after the other; the store hands out ids from `nextId` on.
   */
  function CreateAll(projects: map<ObjectId, Project>, nextId: ObjectId, names: seq<string>, faults: seq<ProjectFault>): (r: map<ObjectId, Project>)
    requires |faults| == |names|
    requires forall id :: id in projects ==> id < nextId
    ensures projects.Keys <= r.Keys
    ensures forall id :: id in projects ==> r[id] == projects[id]
    decreases |names|
  {
    if names == [] then projects
    else
      var c := Create(projects, nextId, names[0], faults[0]);
      var next := if c.response.status == 201 then nextId + 1 else nextId;
      CreateAll(c.projects, next, names[1..], faults[1..])
  }

  /**
   * Whatever names are requested and whichever store calls fail, a run of
   * creates starting from distinct names ends with distinct names, and
   * every name whose lookup and save succeeded is then taken.
   */
  lemma {:induction false} CreateAllNames(projects: map<ObjectId, Project>, nextId: ObjectId, names: seq<string>, faults: seq<ProjectFault>)
    requires |faults| == |names|
    requires forall id :: id in projects ==> id < nextId
    requires NamesDistinct(projects)
    ensures NamesDistinct(CreateAll(projects, nextId, names, faults))
    ensures forall i :: 0 <= i < |names| && names[i] != "" && faults[i] == NoFault ==> NameTaken(CreateAll(projects, nextId, names, faults), names[i])
    decreases |names|
  {
    if names != [] {
      var c := Create(projects, nextId, names[0], faults[0]);
      var next := if c.response.status == 201 then nextId + 1 else nextId;
      CreateKeepsNamesDistinct(projects, nextId, names[0], faults[0]);
      assert forall id :: id in c.projects ==> id < next;
      CreateAllNames(c.projects, next, names[1..], faults[1..]);
      var r := CreateAll(projects, nextId, names, faults);
      assert r == CreateAll(c.projects, next, names[1..], faults[1..]);
      if names[0] != "" && faults[0] == NoFault {
        var id: ObjectId := nextId;
        if NameTaken(projects, names[0]) {
          id :| id in projects && projects[id].name == names[0];
        }
        assert id in c.projects && c.projects[id].name == names[0];
        assert r[id].name == names[0];
      }
      forall i | 0 <= i < |names| && names[i] != "" && faults[i] == NoFault
        ensures NameTaken(r, names[i])
      {
        if i > 0 {
          assert names[1..][i - 1] == names[i] && faults[1..][i - 1] == faults[i];
        }
      }
    }
  }

  /**
   * `getProjects`: every stored project with its vendor references
   * populated, or 404 when the read fails.
   */
  function GetProjects(projects: map<ObjectId, Project>, vendors: map<ObjectId, Vendor>, readFails: bool): (r: Response)
    ensures readFails ==> r == Response(404, MessageBody(FetchFailed))
    ensures !readFails ==> r.status == 200 && r.body.ProjectsBody? && r.body.projects.Keys == projects.Keys
    ensures !readFails ==> forall id :: id in projects ==>
              r.body.projects[id] == ProjectDoc(projects[id].name, Populate(projects[id].vendors, vendors))
  {
    if readFails then Response(404, MessageBody(FetchFailed))
    else Response(200, ProjectsBody(map id | id in projects :: ProjectDoc(projects[id].name, Populate(projects[id].vendors, vendors))))
  }
}
