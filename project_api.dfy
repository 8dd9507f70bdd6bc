/** The project handlers of the backend API: delete/disconnect, get by id, list
    by organization and create-and-attach, over an abstract store holding the
    organizations, the project rows and the project-to-organization links. */
module ProjectApi {
  import opened Common
  import opened UrlNameTable
  import ProjectEntity

  type OrgId = string
  type ProjectId = string

  /** What the (unmodelled) auth helpers report about the caller:
      `isGlobalWriteAdmin`, `isGlobalViewAdmin` and `getOrgMemberships`. */
  datatype Caller = Caller(globalWrite: bool, globalView: bool, memberships: set<OrgId>)

  /** Who may delete from, or create in, an organization. */
  predicate MayWrite(caller: Caller, orgId: OrgId) {
    caller.globalWrite || orgId in caller.memberships
  }

  /** Who may list an organization's projects. */
  predicate MayView(caller: Caller, orgId: OrgId) {
    caller.globalView || caller.globalWrite || orgId in caller.memberships
  }

  /** Who may read a project linked to the organizations `projectOrgs`. */
  predicate MayReadProject(caller: Caller, projectOrgs: set<OrgId>) {
    caller.globalView || caller.globalWrite || caller.memberships * projectOrgs != {}
  }

  /** The access tiers: global writers may do everything, global viewers may only
      read and list, members act on their own organizations, nobody else on any. */
  lemma AuthorizationMatrix(caller: Caller, orgId: OrgId)
    ensures caller.globalWrite ==> MayWrite(caller, orgId) && MayView(caller, orgId) && MayReadProject(caller, {orgId})
    ensures MayWrite(caller, orgId) ==> MayView(caller, orgId)
    ensures caller.globalView && !caller.globalWrite && orgId !in caller.memberships ==>
              !MayWrite(caller, orgId) && MayView(caller, orgId)
    ensures !caller.globalWrite && !caller.globalView && orgId !in caller.memberships ==>
              !MayWrite(caller, orgId) && !MayView(caller, orgId) && !MayReadProject(caller, {orgId})
  {
  }

  /** Reading a linked project is viewing one of its organizations. */
  lemma ReadProjectMeansViewSomeOrg(caller: Caller, projectOrgs: set<OrgId>)
    requires projectOrgs != {}
    ensures MayReadProject(caller, projectOrgs) <==> exists o :: o in projectOrgs && MayView(caller, o)
  {
    if MayReadProject(caller, projectOrgs) {
      var o :| o in projectOrgs;
      if !caller.globalView && !caller.globalWrite {
        o :| o in caller.memberships * projectOrgs;
      }
      assert MayView(caller, o);
    }
    forall o | o in projectOrgs && MayView(caller, o) ensures MayReadProject(caller, projectOrgs) {
      if o in caller.memberships {
        assert o in caller.memberships * projectOrgs;
      }
    }
  }

  /** The store: the organization ids, the project rows, and each project's
      organizations (the join table, so a set). */
  datatype Db = Db(orgs: set<OrgId>, projects: map<ProjectId, Row>, links: map<ProjectId, set<OrgId>>)

  /** Every project has a (possibly empty) link set, links name existing
      organizations, and the `(url, name)` unique index holds. */
  ghost predicate Consistent(db: Db) {
    && db.links.Keys == db.projects.Keys
    && (forall p :: p in db.links ==> db.links[p] <= db.orgs)
    && UrlNameUnique(db.projects)
  }

  /** Projects that belong to no organization. */
  function Orphans(db: Db): set<ProjectId> {
    set p | p in db.links && db.links[p] == {}
  }

  /** No project that had an organization is left without one. */
  ghost predicate NoNewOrphans(before: Db, after: Db) {
    forall p :: p in after.links && p in before.links && before.links[p] != {} ==> after.links[p] != {}
  }

  /** A link set holding `o` has more than one element exactly when it holds another. */
  lemma MoreThanOne(s: set<OrgId>, o: OrgId)
    requires o in s
    ensures |s| > 1 <==> s - {o} != {}
    ensures |s| <= 1 ==> s == {o}
  {
    var rest := s - {o};
    assert s == rest + {o} && o !in rest;
    assert |s| == |rest| + 1;
  }

  /** A project as a response body shows it (the relation aside). */
  datatype ProjectView = ProjectView(id: ProjectId, url: string, name: string, hipcheckResults: Json)

  function View(db: Db, p: ProjectId): ProjectView
    requires p in db.projects
  {
    ProjectView(p, db.projects[p].url, db.projects[p].name, db.projects[p].hipcheckResults)
  }

  /** The handlers' responses. */
  datatype Response =
    | Disconnected                                              // 200, 'Project disconnected successfully'
    | Deleted                                                   // 200, 'Project deleted successfully'
    | Found(project: ProjectView, organizations: set<OrgId>)    // 200, the project with its organizations
    | Listed(projects: set<ProjectView>)                        // 200, an organization's projects
    | Created(project: ProjectView, organizations: set<OrgId>)  // 201, the project with its organizations
    | BadRequest(error: string)                                 // 400
    | Unauthorized                                              // 403
    | NotFound                                                  // 404
    | Failed                                                    // an error thrown out of the handler

  datatype Outcome = Outcome(response: Response, db: Db)

  // ---------------------------------------------------------------- del

  /** Both path ids are present and are UUIDs. */
  predicate IdsValid(orgId: Option<OrgId>, projectId: Option<ProjectId>, isUuid: string -> bool) {
    Truthy(orgId) && isUuid(orgId.value) && Truthy(projectId) && isUuid(projectId.value)
  }

  /** Disconnect a project from an organization, deleting it when that was its
      only organization. */
  function DeleteOutcome(db: Db, orgId: Option<OrgId>, projectId: Option<ProjectId>, caller: Caller,
                         isUuid: string -> bool): (out: Outcome)
    requires Consistent(db)
    ensures Consistent(out.db)
    ensures out.response in {NotFound, Unauthorized, Disconnected, Deleted}
    ensures out.response != Disconnected && out.response != Deleted ==> out.db == db
    ensures out.db.orgs == db.orgs && out.db.projects.Keys <= db.projects.Keys
    ensures NoNewOrphans(db, out.db)
  {
    if !IdsValid(orgId, projectId, isUuid) then Outcome(NotFound, db)
    else
      var o, p := orgId.value, projectId.value;
      if !MayWrite(caller, o) then Outcome(Unauthorized, db)
      else if o !in db.orgs then Outcome(NotFound, db)
      else if p !in db.links || o !in db.links[p] then Outcome(NotFound, db)
      else if |db.links[p]| > 1 then
        MoreThanOne(db.links[p], o);
        Outcome(Disconnected, db.(links := db.links[p := db.links[p] - {o}]))
      else Outcome(Deleted, db.(projects := db.projects - {p}, links := db.links - {p}))
  }

  /** Which response `del` gives: ids are checked before permissions, and
      permissions before the store is consulted. */
  lemma DeleteResponses(db: Db, orgId: Option<OrgId>, projectId: Option<ProjectId>, caller: Caller,
                        isUuid: string -> bool)
    requires Consistent(db)
    ensures var r := DeleteOutcome(db, orgId, projectId, caller, isUuid).response;
      && (!IdsValid(orgId, projectId, isUuid) ==> r == NotFound)
      && (r == Unauthorized <==> IdsValid(orgId, projectId, isUuid) && !MayWrite(caller, orgId.value))
      && (r == Disconnected <==>
            (&& IdsValid(orgId, projectId, isUuid) && MayWrite(caller, orgId.value)
             && projectId.value in db.links && orgId.value in db.links[projectId.value]
             && |db.links[projectId.value]| > 1))
      && (r == Deleted <==>
            (&& IdsValid(orgId, projectId, isUuid) && MayWrite(caller, orgId.value)
             && projectId.value in db.links && db.links[projectId.value] == {orgId.value}))
  {
    if IdsValid(orgId, projectId, isUuid) && projectId.value in db.links {
      var o, p := orgId.value, projectId.value;
      if o in db.links[p] {
        MoreThanOne(db.links[p], o);
      }
      if db.links[p] == {o} {
        assert o in db.orgs;
      }
    }
  }

  /** With other organizations left, only the one link goes; the project row and
      its other links stay. */
  lemma DisconnectKeepsProject(db: Db, orgId: Option<OrgId>, projectId: Option<ProjectId>, caller: Caller,
                               isUuid: string -> bool)
    requires Consistent(db)
    requires DeleteOutcome(db, orgId, projectId, caller, isUuid).response == Disconnected
    ensures var after := DeleteOutcome(db, orgId, projectId, caller, isUuid).db;
      && after.projects == db.projects
      && after.links[projectId.value] == db.links[projectId.value] - {orgId.value} != {}
      && forall q :: q in db.links && q != projectId.value ==> after.links[q] == db.links[q]
  {
    var p, o := projectId.value, orgId.value;
    MoreThanOne(db.links[p], o);
  }

  /** With no other organization, the project row and its links are gone, and a
      later `getById` of it answers 404. */
  lemma DeleteRemovesProject(db: Db, orgId: Option<OrgId>, projectId: Option<ProjectId>, caller: Caller,
                             isUuid: string -> bool, reader: Caller)
    requires Consistent(db)
    requires DeleteOutcome(db, orgId, projectId, caller, isUuid).response == Deleted
    ensures var after := DeleteOutcome(db, orgId, projectId, caller, isUuid).db;
      && projectId.value !in after.projects
      && after.projects == db.projects - {projectId.value}
      && after.links == db.links - {projectId.value}
      && GetById(after, projectId, reader) == NotFound
  {
  }

  // ---------------------------------------------------------------- getById

  /** Look a project up by id; the id check and the lookup come before permissions. */
  function GetById(db: Db, projectId: Option<ProjectId>, caller: Caller): (r: Response)
    requires Consistent(db)
    ensures r == BadRequest("Project ID is required") <==> !Truthy(projectId)
    ensures Truthy(projectId) ==> (r == NotFound <==> projectId.value !in db.projects)
    ensures r.Found? <==> Truthy(projectId) && projectId.value in db.projects
                          && MayReadProject(caller, db.links[projectId.value])
    ensures r.Found? ==> r.project == View(db, projectId.value) && r.organizations == db.links[projectId.value]
    ensures r in {BadRequest("Project ID is required"), NotFound, Unauthorized} || r.Found?
  {
    if !Truthy(projectId) then BadRequest("Project ID is required")
    else
      var p := projectId.value;
      if p !in db.projects then NotFound
      else if !MayReadProject(caller, db.links[p]) then Unauthorized
      else Found(View(db, p), db.links[p])
  }

  // ---------------------------------------------------------------- listByOrg

  /** List an organization's projects; a missing id is answered like a denial. */
  function ListByOrg(db: Db, orgId: Option<OrgId>, caller: Caller): (r: Response)
    requires Consistent(db)
    ensures r == Unauthorized <==> !Truthy(orgId) || !MayView(caller, orgId.value)
    ensures r == NotFound <==> Truthy(orgId) && MayView(caller, orgId.value) && orgId.value !in db.orgs
    ensures r.Listed? || r == Unauthorized || r == NotFound
    ensures r.Listed? ==> forall p :: p in db.projects ==> (View(db, p) in r.projects <==> orgId.value in db.links[p])
    ensures r.Listed? ==> forall v :: v in r.projects ==> v.id in db.projects && v == View(db, v.id)
  {
    if !Truthy(orgId) || !MayView(caller, orgId.value) then Unauthorized
    else if orgId.value !in db.orgs then NotFound
    else Listed(set p | p in db.links && orgId.value in db.links[p] :: View(db, p))
  }

  // ---------------------------------------------------------------- create_proj

  /** The parsed request body; either field may be absent. */
  datatype CreateBody = CreateBody(url: Option<string>, hipcheckResults: Option<Json>)

  /** `Organization.findOneOrFail(orgId)`, then push the organization onto the
      project's organizations unless it is already there, and save. */
  function Attach(db: Db, p: ProjectId, o: OrgId): (out: Outcome)
    requires Consistent(db) && p in db.projects
    ensures Consistent(out.db)
    ensures o !in db.orgs ==> out == Outcome(Failed, db)
    ensures o in db.orgs ==>
      && out.db == db.(links := db.links[p := db.links[p] + {o}])
      && out.response == Created(View(db, p), db.links[p] + {o})
  {
    if o !in db.orgs then Outcome(Failed, db)
    else
      var orgs := if o in db.links[p] then db.links[p] else db.links[p] + {o};
      assert orgs == db.links[p] + {o};
      var after := db.(links := db.links[p := orgs]);
      Outcome(Created(View(after, p), orgs), after)
  }

  /** Attaching is idempotent: a second attach of the same organization changes nothing. */
  lemma AttachIdempotent(db: Db, p: ProjectId, o: OrgId)
    requires Consistent(db) && p in db.projects && o in db.orgs
    ensures var once := Attach(db, p, o);
      Attach(once.db, p, o) == once && o in once.db.links[p]
  {
    var once := Attach(db, p, o);
    assert once.db.links[p := once.db.links[p] + {o}] == once.db.links;
  }

  /** Create and save a new entity with the body's url and results; its name is
      set by the insert hook, and the insert can fail. */
  function InsertProject(db: Db, newId: ProjectId, body: CreateBody): (r: Option<Db>)
    requires Consistent(db) && newId !in db.projects
    ensures var name := ProjectEntity.NameOnInsert(body.url, None);
      r.Some? <==> body.url.Some? && name.Some? && body.hipcheckResults != Some(JNull)
                   && !KeyTaken(db.projects, body.url.value, name.value)
    ensures r.Some? ==>
      && r.value.projects.Keys == db.projects.Keys + {newId}
      && r.value.projects[newId] == Row(body.url.value, ProjectEntity.NameOnInsert(body.url, None).value,
                                        ColumnDefault(body.hipcheckResults))
      && r.value.links == db.links[newId := {}]
    ensures r.Some? ==> Consistent(r.value) && r.value.orgs == db.orgs
    ensures r.Some? ==> newId in r.value.projects && r.value.links[newId] == {}
    ensures r.Some? ==> forall q :: q in db.projects ==> q in r.value.projects && r.value.projects[q] == db.projects[q]
                                                         && r.value.links[q] == db.links[q]
  {
    var name := ProjectEntity.NameOnInsert(body.url, None);
    var rows := Insert(db.projects, newId, body.url, name, body.hipcheckResults);
    if rows.None? then None
    else
      InsertedStoreConsistent(db, newId, rows.value);
      Some(db.(projects := rows.value, links := db.links[newId := {}]))
  }

  /** A store that gains one new, unlinked row that keeps the unique index stays consistent. */
  lemma InsertedStoreConsistent(db: Db, newId: ProjectId, rows: map<ProjectId, Row>)
    requires Consistent(db) && newId !in db.projects
    requires rows.Keys == db.projects.Keys + {newId} && UrlNameUnique(rows)
    ensures Consistent(db.(projects := rows, links := db.links[newId := {}]))
  {
  }

  function InsertThenAttach(db: Db, newId: ProjectId, body: CreateBody, o: OrgId): Outcome
    requires Consistent(db) && newId !in db.projects
  {
    match InsertProject(db, newId, body)
    case None => Outcome(Failed, db)
    case Some(inserted) => Attach(inserted, newId, o)
  }

  /** The steps of `create_proj`: permissions, then reuse of some project with
      no organization (the query has no order, so any one of them), else a new
      project under `newId`; then the organization is attached. */
  ghost predicate CreateStep(db: Db, orgId: Option<OrgId>, body: CreateBody, caller: Caller, newId: ProjectId,
                             out: Outcome)
    requires Consistent(db) && newId !in db.projects
  {
    if !Truthy(orgId) || !MayWrite(caller, orgId.value) then out == Outcome(Unauthorized, db)
    else if Orphans(db) != {} then exists p :: p in Orphans(db) && out == Attach(db, p, orgId.value)
    else out == InsertThenAttach(db, newId, body, orgId.value)
  }

  /** What any run of `create_proj` guarantees: the store stays consistent, a
      denied call or a failed insert changes nothing, no project loses an
      organization, and on success the target organization is among the
      returned project's organizations. */
  lemma {:induction false} CreateGuarantees(db: Db, orgId: Option<OrgId>, body: CreateBody, caller: Caller,
                                            newId: ProjectId, out: Outcome)
    requires Consistent(db) && newId !in db.projects
    requires CreateStep(db, orgId, body, caller, newId, out)
    ensures Consistent(out.db)
    ensures out.response == Unauthorized <==> !Truthy(orgId) || !MayWrite(caller, orgId.value)
    ensures out.response.Created? || out.response == Unauthorized || out.response == Failed
    ensures out.response == Unauthorized ==> out.db == db
    ensures Truthy(orgId) && MayWrite(caller, orgId.value) && Orphans(db) == {} && InsertProject(db, newId, body).None? ==>
              out == Outcome(Failed, db)
    ensures out.response.Created? ==>
      && out.response.project.id in out.db.projects
      && out.response.organizations == out.db.links[out.response.project.id]
      && orgId.value in out.response.organizations
      && out.db.orgs == db.orgs
    ensures forall q :: q in db.links ==> q in out.db.links && db.links[q] <= out.db.links[q]
    ensures NoNewOrphans(db, out.db)
  {
    if Truthy(orgId) && MayWrite(caller, orgId.value) {
      var o := orgId.value;
      if Orphans(db) != {} {
        var p :| p in Orphans(db) && out == Attach(db, p, o);
        AttachGuarantees(db, p, o);
      } else {
        InsertThenAttachGuarantees(db, newId, body, o);
      }
    }
  }

  /** Attaching either fails without change or links the organization to the
      returned project, taking no organization from any project. */
  lemma AttachGuarantees(db: Db, p: ProjectId, o: OrgId)
    requires Consistent(db) && p in db.projects
    ensures var out := Attach(db, p, o);
      && (out.response.Created? || out == Outcome(Failed, db))
      && (out.response.Created? ==>
            && out.response.project.id == p && p in out.db.projects
            && out.response.organizations == out.db.links[p]
            && o in out.response.organizations
            && out.db.orgs == db.orgs)
      && (forall q :: q in db.links ==> q in out.db.links && db.links[q] <= out.db.links[q])
      && NoNewOrphans(db, out.db)
  {
  }

  /** Inserting and then attaching gives the same guarantees; the new project
      had no organization to lose. */
  lemma InsertThenAttachGuarantees(db: Db, newId: ProjectId, body: CreateBody, o: OrgId)
    requires Consistent(db) && newId !in db.projects
    ensures var out := InsertThenAttach(db, newId, body, o);
      && Consistent(out.db)
      && (out.response.Created? || out.response == Failed)
      && (out.response.Created? ==>
            && out.response.project.id in out.db.projects
            && out.response.organizations == out.db.links[out.response.project.id]
            && o in out.response.organizations
            && out.db.orgs == db.orgs)
      && (forall q :: q in db.links ==> q in out.db.links && db.links[q] <= out.db.links[q])
      && NoNewOrphans(db, out.db)
  {
    match InsertProject(db, newId, body)
    case None =>
    case Some(inserted) =>
      AttachGuarantees(inserted, newId, o);
  }

  /** With a project that has no organization, that project is reused: no row is
      added, and the body's url and results are not looked at. */
  lemma CreateReusesOrphan(db: Db, orgId: Option<OrgId>, body: CreateBody, caller: Caller, newId: ProjectId,
                           out: Outcome)
    requires Consistent(db) && newId !in db.projects
    requires CreateStep(db, orgId, body, caller, newId, out)
    requires Truthy(orgId) && MayWrite(caller, orgId.value) && orgId.value in db.orgs
    requires Orphans(db) != {}
    ensures out.response.Created?
    ensures out.response.project.id in Orphans(db)
    ensures out.response.project == View(db, out.response.project.id)
    ensures out.db.projects == db.projects
    ensures out.response.organizations == {orgId.value}
  {
    var p :| p in Orphans(db) && out == Attach(db, p, orgId.value);
  }

  /** With no such project, a new row is inserted under `newId` with the body's
      url, the hook's name and the results (or `{}`), linked to the organization. */
  lemma CreateInsertsProject(db: Db, orgId: Option<OrgId>, body: CreateBody, caller: Caller, newId: ProjectId,
                             out: Outcome)
    requires Consistent(db) && newId !in db.projects
    requires CreateStep(db, orgId, body, caller, newId, out)
    requires Truthy(orgId) && MayWrite(caller, orgId.value) && orgId.value in db.orgs
    requires Orphans(db) == {}
    requires Truthy(body.url) && ProjectEntity.GithubCaptureAsWritten(body.url.value).Some?
    requires !KeyTaken(db.projects, body.url.value, ProjectEntity.GithubCaptureAsWritten(body.url.value).value)
    requires body.hipcheckResults != Some(JNull)
    ensures out.response == Created(ProjectView(newId, body.url.value, ProjectEntity.GithubCaptureAsWritten(body.url.value).value,
                                                ColumnDefault(body.hipcheckResults)), {orgId.value})
    ensures out.db.projects.Keys == db.projects.Keys + {newId}
    ensures out.db.links == db.links[newId := {orgId.value}]
  {
    assert out == InsertThenAttach(db, newId, body, orgId.value);
    InsertNamedThenAttach(db, newId, body, orgId.value);
  }

  lemma InsertNamedThenAttach(db: Db, newId: ProjectId, body: CreateBody, o: OrgId)
    requires Consistent(db) && newId !in db.projects && o in db.orgs
    requires Truthy(body.url) && ProjectEntity.GithubCaptureAsWritten(body.url.value).Some?
    requires !KeyTaken(db.projects, body.url.value, ProjectEntity.GithubCaptureAsWritten(body.url.value).value)
    requires body.hipcheckResults != Some(JNull)
    ensures var out := InsertThenAttach(db, newId, body, o);
      && out.response == Created(ProjectView(newId, body.url.value, ProjectEntity.GithubCaptureAsWritten(body.url.value).value,
                                             ColumnDefault(body.hipcheckResults)), {o})
      && out.db.projects.Keys == db.projects.Keys + {newId}
      && out.db.links == db.links[newId := {o}]
  {
    InsertOfNamedUrl(db, newId, body);
    var inserted := InsertProject(db, newId, body).value;
    AttachUnlinked(inserted, newId, o);
  }

  /** Attaching a known organization to a project that has none links it to that one only. */
  lemma AttachUnlinked(db: Db, p: ProjectId, o: OrgId)
    requires Consistent(db) && p in db.projects && db.links[p] == {} && o in db.orgs
    ensures Attach(db, p, o) == Outcome(Created(View(db, p), {o}), db.(links := db.links[p := {o}]))
  {
    assert db.links[p] + {o} == {o};
  }

  /** A url the hook names, with a free `(url, name)` pair and non-null results, is inserted. */
  lemma InsertOfNamedUrl(db: Db, newId: ProjectId, body: CreateBody)
    requires Consistent(db) && newId !in db.projects
    requires Truthy(body.url) && ProjectEntity.GithubCaptureAsWritten(body.url.value).Some?
    requires !KeyTaken(db.projects, body.url.value, ProjectEntity.GithubCaptureAsWritten(body.url.value).value)
    requires body.hipcheckResults != Some(JNull)
    ensures InsertProject(db, newId, body).Some?
    ensures InsertProject(db, newId, body).value.projects[newId].name
              == ProjectEntity.GithubCaptureAsWritten(body.url.value).value
  {
    var name := ProjectEntity.NameOnInsert(body.url, None);
    assert name == ProjectEntity.GithubCaptureAsWritten(body.url.value);
  }

  /** An explicit `null` for `hipcheckResults` reaches the NOT NULL column as SQL
      NULL: with no project free of organizations, the call fails and nothing is
      stored. */
  lemma NullResultsRejected(db: Db, orgId: Option<OrgId>, body: CreateBody, caller: Caller, newId: ProjectId,
                            out: Outcome)
    requires Consistent(db) && newId !in db.projects
    requires CreateStep(db, orgId, body, caller, newId, out)
    requires Truthy(orgId) && MayWrite(caller, orgId.value)
    requires Orphans(db) == {}
    requires body.hipcheckResults == Some(JNull)
    ensures out == Outcome(Failed, db)
  {
    assert InsertProject(db, newId, body).None?;
  }

  /** The new row is saved before the organization is looked up, so an unknown
      organization fails the call but leaves a project with no organization. */
  lemma CreateWithUnknownOrgLeavesOrphan(db: Db, orgId: Option<OrgId>, body: CreateBody, caller: Caller,
                                         newId: ProjectId, out: Outcome)
    requires Consistent(db) && newId !in db.projects
    requires CreateStep(db, orgId, body, caller, newId, out)
    requires Truthy(orgId) && MayWrite(caller, orgId.value) && orgId.value !in db.orgs
    requires Orphans(db) == {}
    requires InsertProject(db, newId, body).Some?
    ensures out.response == Failed
    ensures Orphans(out.db) == {newId}
  {
    var after := InsertProject(db, newId, body).value;
    assert out.db == after;
    assert newId in Orphans(after);
  }

  /** Repeating a successful create for the same url does not attach again: with
      no project free of organizations, the second insert repeats the
      `(url, name)` pair, the unique index rejects it, and nothing changes. */
  lemma {:induction false} RepeatedCreateFails(db: Db, orgId: Option<OrgId>, body: CreateBody, caller: Caller,
                                               newId: ProjectId, first: Outcome, nextId: ProjectId, second: Outcome)
    requires Consistent(db) && newId !in db.projects
    requires Orphans(db) == {}
    requires CreateStep(db, orgId, body, caller, newId, first)
    requires first.response.Created?
    requires nextId !in first.db.projects
    requires CreateStep(first.db, orgId, body, caller, nextId, second)
    ensures second == Outcome(Failed, first.db)
  {
    CreateGuarantees(db, orgId, body, caller, newId, first);
    var o := orgId.value;
    var inserted := InsertProject(db, newId, body).value;
    assert first == Attach(inserted, newId, o);
    assert Orphans(first.db) == {} by {
      forall q | q in first.db.links ensures first.db.links[q] != {} {
        if q != newId {
          assert q in db.links && q !in Orphans(db);
        }
      }
    }
    var name := ProjectEntity.NameOnInsert(body.url, None);
    assert KeyTaken(first.db.projects, body.url.value, name.value) by {
      assert first.db.projects[newId].url == body.url.value;
      assert first.db.projects[newId].name == name.value;
    }
  }

  /** A created project is then listed for its organization. */
  lemma CreatedIsListed(db: Db, orgId: Option<OrgId>, body: CreateBody, caller: Caller, newId: ProjectId,
                        out: Outcome)
    requires Consistent(db) && newId !in db.projects
    requires CreateStep(db, orgId, body, caller, newId, out)
    requires out.response.Created?
    ensures ListByOrg(out.db, orgId, caller) == Listed(ListByOrg(out.db, orgId, caller).projects)
    ensures View(out.db, out.response.project.id) in ListByOrg(out.db, orgId, caller).projects
  {
    CreateGuarantees(db, orgId, body, caller, newId, out);
    AuthorizationMatrix(caller, orgId.value);
    assert orgId.value in out.db.orgs;
  }

  // ---------------------------------------------------------------- the store

  /** The database as the handlers see it. */
  class Store {
    var orgs: set<OrgId>
    var projects: map<ProjectId, Row>
    var links: map<ProjectId, set<OrgId>>

    function State(): Db
      reads this
    {
      Db(orgs, projects, links)
    }

    constructor (orgs: set<OrgId>)
      ensures State() == Db(orgs, map[], map[]) && Consistent(State())
    {
      this.orgs := orgs;
      projects := map[];
      links := map[];
    }

    /** `del`: disconnect the project from the organization, or delete it when
        the organization was its only one. */
    method Del(orgId: Option<OrgId>, projectId: Option<ProjectId>, caller: Caller, isUuid: string -> bool)
      returns (r: Response)
      requires Consistent(State())
      modifies this
      ensures Outcome(r, State()) == DeleteOutcome(old(State()), orgId, projectId, caller, isUuid)
    {
      if !Truthy(orgId) || !isUuid(orgId.value) || !Truthy(projectId) || !isUuid(projectId.value) {
        return NotFound;
      }
      var id, p := orgId.value, projectId.value;
      if !MayWrite(caller, id) {
        return Unauthorized;
      }
      if id !in orgs {
        return NotFound;
      }
      if p !in links || id !in links[p] {
        return NotFound;
      }
      if |links[p]| > 1 {
        links := links[p := links[p] - {id}];
        return Disconnected;
      }
      projects := projects - {p};
      links := links - {p};
      return Deleted;
    }

    /** `OpenSourceProject.create({url, hipcheckResults})` then `save()`: the
        insert hook names the entity and the row is inserted under `newId`,
        unless the insert fails, which leaves the store unchanged. */
    method Save(newId: ProjectId, body: CreateBody) returns (saved: bool)
      requires Consistent(State()) && newId !in projects
      modifies this
      ensures saved <==> InsertProject(old(State()), newId, body).Some?
      ensures saved ==> State() == InsertProject(old(State()), newId, body).value
      ensures !saved ==> State() == old(State())
    {
      var entity := new ProjectEntity.OpenSourceProject(body.url, body.hipcheckResults);
      entity.SetNameFromUrl();
      var rows := Insert(projects, newId, entity.url, entity.name, entity.hipcheckResults);
      if rows.None? {
        return false;
      }
      projects := rows.value;
      links := links[newId := {}];
      return true;
    }

    /** `create_proj`: reuse a project without organizations or insert a new
        one under `newId`, then attach the organization. */
    method CreateProj(orgId: Option<OrgId>, body: CreateBody, caller: Caller, newId: ProjectId)
      returns (r: Response)
      requires Consistent(State()) && newId !in projects
      modifies this
      ensures CreateStep(old(State()), orgId, body, caller, newId, Outcome(r, State()))
    {
      if !Truthy(orgId) || !MayWrite(caller, orgId.value) {
        return Unauthorized;
      }
      ghost var before := State();
      var id := orgId.value;
      var existing := set q | q in links && links[q] == {};
      assert existing == Orphans(before);
      var p: ProjectId;
      if existing != {} {
        p :| p in existing;
      } else {
        var saved := Save(newId, body);
        if !saved {
          return Failed;
        }
        p := newId;
      }
      ghost var mid := State();
      assert Consistent(mid) && p in mid.projects;
      if id !in orgs {
        assert Attach(mid, p, id) == Outcome(Failed, mid);
        return Failed;
      }
      if id !in links[p] {
        links := links[p := links[p] + {id}];
      }
      r := Created(View(State(), p), links[p]);
      assert Outcome(r, State()) == Attach(mid, p, id);
      if existing != {} {
        assert mid == before && p in Orphans(before);
      }
    }
  }
}
