/**
 * The vendor endpoints (controllers/vendorControllers.js): create a vendor
 * and link it to its project, and list a project's vendors.
 */
module VendorController {
  import opened Common
  import opened ProjectModel
  import opened VendorModel
  import opened Store
  import opened Http

  const ProjectNotFound: string := "Project Not Found"
  const VendorCreateFailed: string := "Error while creating the vendor"
  const VendorFetchFailed: string := "Error while fetching vendors"

  /**
   * Which store call of `createVendor` throws, if any: the project lookup,
   * the vendor's save or the project's save.
   */
  datatype VendorFault = NoFault | FindFails | VendorSaveFails | ProjectSaveFails

  /** Both collections after a `createVendor` request, with the response. */
  datatype VendorCreation = VendorCreation(projects: map<ObjectId, Project>, vendors: map<ObjectId, Vendor>, response: Response)

  /**
   * `createVendor`, with `nextVendorId` the id the next saved vendor gets.
   * The vendor is saved before the project is updated, so a failing project
   * save leaves the new vendor stored but linked to no project. Every
   * failure is answered 404.
   */
  function AddVendor(projects: map<ObjectId, Project>, vendors: map<ObjectId, Vendor>, nextVendorId: ObjectId,
                     projectId: ObjectId, vendorName: string, fault: VendorFault): (c: VendorCreation)
    ensures fault == FindFails ==>
              c == VendorCreation(projects, vendors, Response(404, MessageBody(VendorCreateFailed)))
    ensures fault != FindFails && projectId !in projects ==>
              c == VendorCreation(projects, vendors, Response(404, MessageBody(ProjectNotFound)))
    ensures fault != FindFails && projectId in projects && (vendorName == "" || fault == VendorSaveFails) ==>
              c == VendorCreation(projects, vendors, Response(404, MessageBody(VendorCreateFailed)))
    ensures fault == ProjectSaveFails && projectId in projects && vendorName != "" ==>
              c == VendorCreation(projects, vendors[nextVendorId := Vendor(vendorName, [])], Response(404, MessageBody(VendorCreateFailed)))
    ensures fault == NoFault && projectId in projects && vendorName != "" ==>
              && c.vendors == vendors[nextVendorId := Vendor(vendorName, [])]
              && c.projects == projects[projectId := projects[projectId].(vendors := projects[projectId].vendors + [nextVendorId])]
              && c.response == Response(201, NewVendorBody(nextVendorId, Vendor(vendorName, [])))
  {
    if fault == FindFails then VendorCreation(projects, vendors, Response(404, MessageBody(VendorCreateFailed)))
    else if projectId !in projects then VendorCreation(projects, vendors, Response(404, MessageBody(ProjectNotFound)))
    else if vendorName == "" || fault == VendorSaveFails then
      VendorCreation(projects, vendors, Response(404, MessageBody(VendorCreateFailed)))
    else
      var newVendor := Vendor(vendorName, []);
      var vendors' := vendors[nextVendorId := newVendor];
      if fault == ProjectSaveFails then VendorCreation(projects, vendors', Response(404, MessageBody(VendorCreateFailed)))
      else
        var project := projects[projectId];
        VendorCreation(projects[projectId := project.(vendors := project.vendors + [nextVendorId])], vendors',
                       Response(201, NewVendorBody(nextVendorId, newVendor)))
  }

  /** `createVendor`: look the project up, save the vendor, then push its id and save the project. */
  method CreateVendor(projectStore: ProjectCollection, vendorStore: VendorCollection, projectId: ObjectId,
                      vendorName: string, fault: VendorFault) returns (resp: Response)
    requires projectStore.Valid() && vendorStore.Valid()
    modifies projectStore, vendorStore
    ensures projectStore.Valid() && vendorStore.Valid()
    ensures var c := AddVendor(old(projectStore.projects), old(vendorStore.vendors), old(vendorStore.nextId), projectId, vendorName, fault);
            projectStore.projects == c.projects && vendorStore.vendors == c.vendors && resp == c.response
    ensures vendorStore.nextId == old(vendorStore.nextId) + (if vendorStore.vendors != old(vendorStore.vendors) then 1 else 0)
    ensures projectStore.nextId == old(projectStore.nextId)
  {
    if fault == FindFails {
      return Response(404, MessageBody(VendorCreateFailed));
    }
    if projectId !in projectStore.projects {
      return Response(404, MessageBody(ProjectNotFound));
    }
    var project := projectStore.projects[projectId];
    var newVendor := Vendor(vendorName, []);
    var vendorId := vendorStore.Insert(newVendor, fault == VendorSaveFails);
    if vendorId.None? {
      return Response(404, MessageBody(VendorCreateFailed));
    }
    var ok := projectStore.Save(projectId, project.(vendors := project.vendors + [vendorId.value]), fault == ProjectSaveFails);
    if !ok {
      return Response(404, MessageBody(VendorCreateFailed));
    }
    resp := Response(201, NewVendorBody(vendorId.value, newVendor));
  }

  /**
   * `getVendorsForAProject`: the project's vendor references populated in
   * list order; 404 for an unknown project, 500 with the store's message
   * when the read fails.
   */
  function GetVendorsForAProject(projects: map<ObjectId, Project>, vendors: map<ObjectId, Vendor>, projectId: ObjectId,
                                 readFault: Option<string>): (r: Response)
    ensures readFault.Some? ==> r == Response(500, FailureBody(VendorFetchFailed, readFault.value))
    ensures readFault.None? && projectId !in projects ==> r == Response(404, MessageBody(ProjectNotFound))
    ensures readFault.None? && projectId in projects ==>
              r == Response(200, VendorsBody(Populate(projects[projectId].vendors, vendors)))
  {
    if readFault.Some? then Response(500, FailureBody(VendorFetchFailed, readFault.value))
    else if projectId !in projects then Response(404, MessageBody(ProjectNotFound))
    else Response(200, VendorsBody(Populate(projects[projectId].vendors, vendors)))
  }

  /** Every vendor reference held by a project is an id the vendor store has already handed out. */
  ghost predicate RefsIssued(projects: map<ObjectId, Project>, nextVendorId: ObjectId) {
    forall p, k :: p in projects && 0 <= k < |projects[p].vendors| ==> projects[p].vendors[k] < nextVendorId
  }

  /**
   * Creating a vendor keeps the references issued, whatever happens to the
   * request, against the counter as it is afterwards: moved on by one
   * exactly when the vendor was saved.
   */
  lemma AddVendorKeepsRefs(projects: map<ObjectId, Project>, vendors: map<ObjectId, Vendor>, nextVendorId: ObjectId,
                           projectId: ObjectId, vendorName: string, fault: VendorFault)
    requires RefsIssued(projects, nextVendorId)
    ensures var issued := fault != FindFails && projectId in projects && vendorName != "" && fault != VendorSaveFails;
            RefsIssued(AddVendor(projects, vendors, nextVendorId, projectId, vendorName, fault).projects,
                       if issued then nextVendorId + 1 else nextVendorId)
  {
  }

  /** The references issued so far do not name the next vendor id. */
  lemma NextIdUnreferenced(projects: map<ObjectId, Project>, nextVendorId: ObjectId, p: ObjectId)
    requires RefsIssued(projects, nextVendorId) && p in projects
    ensures nextVendorId !in projects[p].vendors
  {
  }

  /**
   * After a successful create, the project's listing is its old listing
   * with the new vendor last, and every other project's listing is as it
   * was.
   */
  lemma ListingAfterCreate(projects: map<ObjectId, Project>, vendors: map<ObjectId, Vendor>, nextVendorId: ObjectId,
                           projectId: ObjectId, vendorName: string, other: ObjectId)
    requires RefsIssued(projects, nextVendorId)
    requires projectId in projects && vendorName != ""
    ensures var c := AddVendor(projects, vendors, nextVendorId, projectId, vendorName, NoFault);
            GetVendorsForAProject(c.projects, c.vendors, projectId, None) ==
              Response(200, VendorsBody(Populate(projects[projectId].vendors, vendors) + [VendorDoc(nextVendorId, Vendor(vendorName, []))]))
    ensures var c := AddVendor(projects, vendors, nextVendorId, projectId, vendorName, NoFault);
            other != projectId ==>
              GetVendorsForAProject(c.projects, c.vendors, other, None) == GetVendorsForAProject(projects, vendors, other, None)
  {
    var v := Vendor(vendorName, []);
    var vendors' := vendors[nextVendorId := v];
    var ids := projects[projectId].vendors;
    NextIdUnreferenced(projects, nextVendorId, projectId);
    PopulateUnaffected(ids, vendors, nextVendorId, v);
    PopulateAppend(ids, vendors', nextVendorId);
    if other != projectId && other in projects {
      NextIdUnreferenced(projects, nextVendorId, other);
      PopulateUnaffected(projects[other].vendors, vendors, nextVendorId, v);
    }
  }

  /**
   * When the project's save fails the new vendor is stored but no project
   * lists it: every listing is as it was.
   */
  lemma OrphanAfterProjectSaveFails(projects: map<ObjectId, Project>, vendors: map<ObjectId, Vendor>, nextVendorId: ObjectId,
                                    projectId: ObjectId, vendorName: string, other: ObjectId)
    requires RefsIssued(projects, nextVendorId)
    requires projectId in projects && vendorName != ""
    ensures var c := AddVendor(projects, vendors, nextVendorId, projectId, vendorName, ProjectSaveFails);
            && nextVendorId in c.vendors
            && GetVendorsForAProject(c.projects, c.vendors, other, None) == GetVendorsForAProject(projects, vendors, other, None)
  {
    if other in projects {
      NextIdUnreferenced(projects, nextVendorId, other);
      PopulateUnaffected(projects[other].vendors, vendors, nextVendorId, Vendor(vendorName, []));
    }
  }
}
