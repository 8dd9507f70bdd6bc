/** The Projects page: merging the per-organization project lists into one list,
    filtering it by the current organization, and resolving the organization
    names typed into the creation dialog. */
module ProjectsPage {
  import opened Common
  import ProjectCreateForm

  datatype Org = Org(id: string, name: string)

  /** A project as the per-organization fetch returns it; its `organizations`
      may be absent. */
  datatype FetchedProject = FetchedProject(id: string, url: string, name: string, organizations: Option<seq<Org>>)

  /** A project in the merged list. */
  datatype ProjectRow = ProjectRow(id: string, url: string, name: string, organizations: seq<Org>)

  /** The organization for which the filter shows every project. */
  const AllProjectsOrgId: string := "9d33744f-50fd-4d14-a961-4b3edfb8f2a2"

  /** What `fetchProjectsByOrg(orgId)` resolved to, given as data: a missing key
      or None is a failed fetch (`undefined`), which contributes no project. */
  function FetchOf(fetched: map<string, Option<seq<FetchedProject>>>, orgId: string): seq<FetchedProject> {
    if orgId in fetched && fetched[orgId].Some? then fetched[orgId].value else []
  }

  /** `orgProject.organizations || []`. */
  function OrgsOr(organizations: Option<seq<Org>>): seq<Org> {
    if organizations.Some? then organizations.value else []
  }

  /** `allProjects.findIndex((p) => p.id === id)`. */
  function FindIndex(rows: seq<ProjectRow>, id: string): (k: int)
    ensures -1 <= k < |rows|
    ensures k == -1 <==> forall j :: 0 <= j < |rows| ==> rows[j].id != id
    ensures k >= 0 ==> rows[k].id == id && forall j :: 0 <= j < k ==> rows[j].id != id
  {
    if rows == [] then -1
    else if rows[0].id == id then 0
    else
      var k := FindIndex(rows[1..], id);
      if k == -1 then -1 else k + 1
  }

  // ---------------------------------------------------------------- merging

  /** One project returned by one organization's fetch. */
  datatype Occurrence = Occurrence(org: Org, project: FetchedProject)

  function Pairs(org: Org, projects: seq<FetchedProject>): seq<Occurrence> {
    seq(|projects|, k requires 0 <= k < |projects| => Occurrence(org, projects[k]))
  }

  /** Every fetched project, in the order the two loops visit them. */
  function Occurrences(orgs: seq<Org>, fetched: map<string, Option<seq<FetchedProject>>>): seq<Occurrence> {
    if orgs == [] then []
    else
      var last := orgs[|orgs| - 1];
      Occurrences(orgs[..|orgs| - 1], fetched) + Pairs(last, FetchOf(fetched, last.id))
  }

  /** One iteration of the inner loop: an already listed project gets the
      organization appended, a new one is appended with it. */
  function Step(rows: seq<ProjectRow>, occ: Occurrence): seq<ProjectRow> {
    var p := occ.project;
    var k := FindIndex(rows, p.id);
    if k != -1 then rows[k := rows[k].(organizations := rows[k].organizations + [occ.org])]
    else rows + [ProjectRow(p.id, p.url, p.name, OrgsOr(p.organizations) + [occ.org])]
  }

  function MergeAll(occs: seq<Occurrence>): seq<ProjectRow> {
    if occs == [] then [] else Step(MergeAll(occs[..|occs| - 1]), occs[|occs| - 1])
  }

  /** The list `loadProjects` builds. */
  function Merge(orgs: seq<Org>, fetched: map<string, Option<seq<FetchedProject>>>): seq<ProjectRow> {
    MergeAll(Occurrences(orgs, fetched))
  }

  // ---------------------------------------------------------------- what the merge means

  function Ids(rows: seq<ProjectRow>): seq<string> {
    seq(|rows|, k requires 0 <= k < |rows| => rows[k].id)
  }

  function FetchedIds(occs: seq<Occurrence>): seq<string> {
    if occs == [] then [] else FetchedIds(occs[..|occs| - 1]) + [occs[|occs| - 1].project.id]
  }

  /** The ids in order of first appearance, each once. */
  function Dedup(ids: seq<string>): seq<string> {
    if ids == [] then []
    else
      var seen := Dedup(ids[..|ids| - 1]);
      if ids[|ids| - 1] in seen then seen else seen + [ids[|ids| - 1]]
  }

  predicate Distinct(ids: seq<string>) {
    forall i, j :: 0 <= i < j < |ids| ==> ids[i] != ids[j]
  }

  /** The organizations whose fetch returned project `id`, one per return, in visiting order. */
  function OrgsFor(occs: seq<Occurrence>, id: string): seq<Org> {
    if occs == [] then []
    else
      var last := occs[|occs| - 1];
      OrgsFor(occs[..|occs| - 1], id) + (if last.project.id == id then [last.org] else [])
  }

  /** The first fetched copy of project `id`. */
  function FirstWith(occs: seq<Occurrence>, id: string): (p: FetchedProject)
    requires id in FetchedIds(occs)
    ensures p.id == id
  {
    var init := occs[..|occs| - 1];
    if id in FetchedIds(init) then FirstWith(init, id) else occs[|occs| - 1].project
  }

  /** The merged row for project `id`: its first fetched copy, whose organizations
      are followed by every organization that returned it. */
  function Expected(occs: seq<Occurrence>, id: string): ProjectRow
    requires id in FetchedIds(occs)
  {
    var p := FirstWith(occs, id);
    ProjectRow(p.id, p.url, p.name, OrgsOr(p.organizations) + OrgsFor(occs, id))
  }

  lemma {:induction false} DedupFacts(ids: seq<string>)
    ensures Distinct(Dedup(ids))
    ensures forall x :: x in Dedup(ids) <==> x in ids
  {
    if ids != [] {
      var init := ids[..|ids| - 1];
      DedupFacts(init);
      assert ids == init + [ids[|ids| - 1]];
    }
  }

  lemma {:induction false} OrgsForAbsent(occs: seq<Occurrence>, id: string)
    requires id !in FetchedIds(occs)
    ensures OrgsFor(occs, id) == []
  {
    if occs != [] {
      OrgsForAbsent(occs[..|occs| - 1], id);
    }
  }

  /** A later occurrence of another project leaves the row expected for `id` as it was. */
  lemma ExpectedUnchanged(occs: seq<Occurrence>, occ: Occurrence, id: string)
    requires id in FetchedIds(occs) && occ.project.id != id
    ensures id in FetchedIds(occs + [occ])
    ensures Expected(occs + [occ], id) == Expected(occs, id)
  {
    var all := occs + [occ];
    assert all[..|all| - 1] == occs;
  }

  /** A later occurrence of the same project appends its organization to the expected row. */
  lemma ExpectedExtended(occs: seq<Occurrence>, occ: Occurrence)
    requires occ.project.id in FetchedIds(occs)
    ensures occ.project.id in FetchedIds(occs + [occ])
    ensures var e := Expected(occs, occ.project.id);
      Expected(occs + [occ], occ.project.id) == e.(organizations := e.organizations + [occ.org])
  {
    var all := occs + [occ];
    assert all[..|all| - 1] == occs;
    var p := FirstWith(occs, occ.project.id);
    assert (OrgsOr(p.organizations) + OrgsFor(occs, occ.project.id)) + [occ.org]
        == OrgsOr(p.organizations) + (OrgsFor(occs, occ.project.id) + [occ.org]);
  }

  /** The first occurrence of a project yields the row built from that copy. */
  lemma ExpectedNew(occs: seq<Occurrence>, occ: Occurrence)
    requires occ.project.id !in FetchedIds(occs)
    ensures occ.project.id in FetchedIds(occs + [occ])
    ensures var p := occ.project;
      Expected(occs + [occ], p.id) == ProjectRow(p.id, p.url, p.name, OrgsOr(p.organizations) + [occ.org])
  {
    var all := occs + [occ];
    assert all[..|all| - 1] == occs;
    OrgsForAbsent(occs, occ.project.id);
  }

  lemma IdsMembership(rows: seq<ProjectRow>, id: string)
    ensures id in Ids(rows) <==> exists k :: 0 <= k < |rows| && rows[k].id == id
  {
    if id in Ids(rows) {
      var k :| 0 <= k < |rows| && Ids(rows)[k] == id;
    }
    if exists k :: 0 <= k < |rows| && rows[k].id == id {
      var k :| 0 <= k < |rows| && rows[k].id == id;
      assert Ids(rows)[k] == id;
    }
  }

  /** One step lists a project id once: it is appended when new. */
  lemma StepIds(rows: seq<ProjectRow>, occ: Occurrence)
    ensures Ids(Step(rows, occ)) ==
      if occ.project.id in Ids(rows) then Ids(rows) else Ids(rows) + [occ.project.id]
  {
    var id := occ.project.id;
    IdsMembership(rows, id);
    var k := FindIndex(rows, id);
    if k == -1 {
      assert Ids(Step(rows, occ)) == Ids(rows) + [id];
    } else {
      assert Ids(Step(rows, occ)) == Ids(rows);
    }
  }

  lemma FetchedIdsLast(occs: seq<Occurrence>, occ: Occurrence)
    ensures FetchedIds(occs + [occ]) == FetchedIds(occs) + [occ.project.id]
  {
    var all := occs + [occ];
    assert all[..|all| - 1] == occs;
  }

  /** The merged list holds each fetched project once, in order of first appearance. */
  lemma {:induction false} MergeAllIds(occs: seq<Occurrence>)
    ensures Ids(MergeAll(occs)) == Dedup(FetchedIds(occs))
  {
    if occs != [] {
      var init := occs[..|occs| - 1];
      var occ := occs[|occs| - 1];
      assert occs == init + [occ];
      MergeAllIds(init);
      StepIds(MergeAll(init), occ);
      FetchedIdsLast(init, occ);
      var ids := FetchedIds(occs);
      assert ids[..|ids| - 1] == FetchedIds(init);
    }
  }

  /** Each merged row is the expected row for its id. */
  lemma {:induction false} MergeAllRows(occs: seq<Occurrence>)
    ensures forall k :: 0 <= k < |MergeAll(occs)| ==>
              MergeAll(occs)[k].id in FetchedIds(occs) && MergeAll(occs)[k] == Expected(occs, MergeAll(occs)[k].id)
  {
    if occs != [] {
      var init := occs[..|occs| - 1];
      var occ := occs[|occs| - 1];
      var id := occ.project.id;
      assert occs == init + [occ];
      MergeAllRows(init);
      var acc := MergeAll(init);
      MergeAllIds(init);
      DedupFacts(FetchedIds(init));
      IdsMembership(acc, id);
      FetchedIdsLast(init, occ);
      var rows := Step(acc, occ);
      var k := FindIndex(acc, id);
      if k == -1 {
        ExpectedNew(init, occ);
        forall j | 0 <= j < |rows|
          ensures rows[j].id in FetchedIds(occs) && rows[j] == Expected(occs, rows[j].id)
        {
          if j < |acc| {
            ExpectedUnchanged(init, occ, acc[j].id);
          }
        }
      } else {
        ExpectedExtended(init, occ);
        forall j | 0 <= j < |rows|
          ensures rows[j].id in FetchedIds(occs) && rows[j] == Expected(occs, rows[j].id)
        {
          if j != k {
            assert Ids(acc)[j] == acc[j].id && Ids(acc)[k] == acc[k].id;
            ExpectedUnchanged(init, occ, acc[j].id);
          }
        }
      }
    }
  }

  /** What `loadProjects` promises about the list it builds: distinct ids,
      exactly the fetched projects, first-appearance order, and per project its
      fetched organizations followed by the organizations that returned it. */
  lemma MergeProperties(orgs: seq<Org>, fetched: map<string, Option<seq<FetchedProject>>>)
    ensures var rows := Merge(orgs, fetched); var occs := Occurrences(orgs, fetched);
      && Distinct(Ids(rows))
      && (forall id :: id in Ids(rows) <==> id in FetchedIds(occs))
      && Ids(rows) == Dedup(FetchedIds(occs))
      && forall k :: 0 <= k < |rows| ==> rows[k].id in FetchedIds(occs) && rows[k] == Expected(occs, rows[k].id)
  {
    var occs := Occurrences(orgs, fetched);
    MergeAllIds(occs);
    MergeAllRows(occs);
    DedupFacts(FetchedIds(occs));
  }

  /** An organization whose fetch returned nothing adds nothing to the list. */
  lemma SilentOrgAddsNothing(orgs: seq<Org>, org: Org, fetched: map<string, Option<seq<FetchedProject>>>)
    requires FetchOf(fetched, org.id) == []
    ensures Merge(orgs + [org], fetched) == Merge(orgs, fetched)
  {
    var all := orgs + [org];
    assert all[..|all| - 1] == orgs;
    assert Pairs(org, FetchOf(fetched, org.id)) == [];
    assert Occurrences(all, fetched) == Occurrences(orgs, fetched);
  }

  lemma MergeAllSnoc(occs: seq<Occurrence>, occ: Occurrence)
    ensures MergeAll(occs + [occ]) == Step(MergeAll(occs), occ)
  {
    var all := occs + [occ];
    assert all[..|all| - 1] == occs;
  }

  lemma PairsSnoc(org: Org, ps: seq<FetchedProject>, j: nat)
    requires j < |ps|
    ensures Pairs(org, ps[..j + 1]) == Pairs(org, ps[..j]) + [Occurrence(org, ps[j])]
  {
  }

  lemma OccurrencesSnoc(orgs: seq<Org>, i: nat, fetched: map<string, Option<seq<FetchedProject>>>)
    requires i < |orgs|
    ensures Occurrences(orgs[..i + 1], fetched) == Occurrences(orgs[..i], fetched) + Pairs(orgs[i], FetchOf(fetched, orgs[i].id))
  {
    var upto := orgs[..i + 1];
    assert upto[..|upto| - 1] == orgs[..i];
  }

  // ---------------------------------------------------------------- filtering

  /** `project.organizations.some((org) => org.id === orgId)`. */
  predicate HasOrg(row: ProjectRow, orgId: string) {
    exists k :: 0 <= k < |row.organizations| && row.organizations[k].id == orgId
  }

  /** `rows.filter((project) => HasOrg(project, orgId))`. */
  function LinkedTo(rows: seq<ProjectRow>, orgId: string): seq<ProjectRow> {
    if rows == [] then []
    else (if HasOrg(rows[0], orgId) then [rows[0]] else []) + LinkedTo(rows[1..], orgId)
  }

  /** `a` is `b` with some elements left out, the rest in their order. */
  predicate Subsequence(a: seq<ProjectRow>, b: seq<ProjectRow>)
    decreases |b|
  {
    if a == [] then true
    else if b == [] then false
    else (a[0] == b[0] && Subsequence(a[1..], b[1..])) || Subsequence(a, b[1..])
  }

  lemma {:induction false} LinkedToIsSubsequence(rows: seq<ProjectRow>, orgId: string)
    ensures Subsequence(LinkedTo(rows, orgId), rows)
  {
    if rows != [] {
      LinkedToIsSubsequence(rows[1..], orgId);
      var rest := LinkedTo(rows[1..], orgId);
      if HasOrg(rows[0], orgId) {
        assert LinkedTo(rows, orgId) == [rows[0]] + rest;
        assert LinkedTo(rows, orgId)[1..] == rest;
      } else {
        assert LinkedTo(rows, orgId) == rest;
      }
    }
  }

  lemma {:induction false} LinkedToCounts(rows: seq<ProjectRow>, orgId: string, r: ProjectRow)
    ensures multiset(LinkedTo(rows, orgId))[r] == if HasOrg(r, orgId) then multiset(rows)[r] else 0
  {
    if rows != [] {
      LinkedToCounts(rows[1..], orgId, r);
      assert rows == [rows[0]] + rows[1..];
      assert multiset(rows) == multiset([rows[0]]) + multiset(rows[1..]);
    }
  }

  /** The filter keeps, in order and with their multiplicity, exactly the projects
      linked to the organization. */
  lemma LinkedToKeepsLinked(rows: seq<ProjectRow>, orgId: string)
    ensures Subsequence(LinkedTo(rows, orgId), rows)
    ensures forall r :: r in LinkedTo(rows, orgId) ==> HasOrg(r, orgId)
    ensures forall r :: HasOrg(r, orgId) ==> multiset(LinkedTo(rows, orgId))[r] == multiset(rows)[r]
  {
    LinkedToIsSubsequence(rows, orgId);
    forall r ensures multiset(LinkedTo(rows, orgId))[r] == if HasOrg(r, orgId) then multiset(rows)[r] else 0 {
      LinkedToCounts(rows, orgId, r);
    }
  }

  /** `filter`: with a current organization other than the one that stands for
      all projects, the projects linked to it; otherwise every project. */
  function FilterProjects(current: Option<Org>, rows: seq<ProjectRow>): (shown: seq<ProjectRow>)
    ensures current.None? || current.value.id == AllProjectsOrgId ==> shown == rows
    ensures current.Some? && current.value.id != AllProjectsOrgId ==>
      && Subsequence(shown, rows)
      && (forall r :: r in shown ==> HasOrg(r, current.value.id))
      && (forall r :: HasOrg(r, current.value.id) ==> multiset(shown)[r] == multiset(rows)[r])
  {
    if current.Some? && current.value.id != AllProjectsOrgId then
      LinkedToKeepsLinked(rows, current.value.id);
      LinkedTo(rows, current.value.id)
    else rows
  }

  // ---------------------------------------------------------------- resolving names

  /** `organizations.find((org) => org.name === name)`. */
  function FindByName(orgs: seq<Org>, name: string): (r: Option<Org>)
    ensures r.None? <==> forall k :: 0 <= k < |orgs| ==> orgs[k].name != name
    ensures r.Some? ==> exists k :: 0 <= k < |orgs| && orgs[k] == r.value && forall j :: 0 <= j < k ==> orgs[j].name != name
    ensures r.Some? ==> r.value.name == name
  {
    if orgs == [] then None
    else if orgs[0].name == name then Some(orgs[0])
    else
      var r := FindByName(orgs[1..], name);
      if r.Some? then
        var k :| 0 <= k < |orgs[1..]| && orgs[1..][k] == r.value && forall j :: 0 <= j < k ==> orgs[1..][j].name != name;
        assert orgs[k + 1] == r.value;
        r
      else r
  }

  /** The organizations named, in order, each the first with its name; None when
      some name matches no organization. */
  function ResolveNames(orgs: seq<Org>, names: seq<string>): (r: Option<seq<Org>>)
    ensures r.Some? ==> |r.value| == |names| && forall k :: 0 <= k < |names| ==> FindByName(orgs, names[k]) == Some(r.value[k])
    ensures r.None? <==> exists k :: 0 <= k < |names| && FindByName(orgs, names[k]).None?
  {
    if names == [] then Some([])
    else
      var init := names[..|names| - 1];
      match ResolveNames(orgs, init)
      case None =>
        var k :| 0 <= k < |init| && FindByName(orgs, init[k]).None?;
        assert names[k] == init[k];
        None
      case Some(found) =>
        match FindByName(orgs, names[|names| - 1])
        case None => None
        case Some(org) => Some(found + [org])
  }

  /** The request `createProject(url, orgs)` makes. */
  datatype CreateRequest = CreateRequest(url: string, orgs: seq<Org>)

  // ---------------------------------------------------------------- the page

  /** The component's state. */
  class ProjectsPage {
    var organizations: seq<Org>
    var currentOrganization: Option<Org>
    var initialProjects: seq<ProjectRow>
    var projects: seq<ProjectRow>
    var totalResults: nat
    var errorMessage: Option<string>
    var modalOpen: bool
    var projectsLoaded: bool

    /** The initial state, once the organizations have been fetched. */
    constructor (organizations: seq<Org>, currentOrganization: Option<Org>)
      ensures this.organizations == organizations && this.currentOrganization == currentOrganization
      ensures initialProjects == [] && projects == [] && totalResults == 0
      ensures errorMessage == None && !modalOpen && !projectsLoaded
    {
      this.organizations := organizations;
      this.currentOrganization := currentOrganization;
      initialProjects, projects, totalResults := [], [], 0;
      errorMessage, modalOpen, projectsLoaded := None, false, false;
    }

    /** `loadProjects`, with each organization's fetch result given in `fetched`. */
    method LoadProjects(fetched: map<string, Option<seq<FetchedProject>>>)
      modifies this`initialProjects, this`totalResults, this`errorMessage, this`projectsLoaded
      ensures organizations == [] ==>
        && errorMessage == Some("No organizations available")
        && initialProjects == old(initialProjects) && totalResults == old(totalResults)
        && projectsLoaded == old(projectsLoaded)
      ensures organizations != [] ==>
        && initialProjects == Merge(organizations, fetched)
        && totalResults == |initialProjects|
        && errorMessage == None && projectsLoaded
    {
      errorMessage := None;
      var allProjects: seq<ProjectRow> := [];
      if |organizations| == 0 {
        errorMessage := Some("No organizations available");
        return;
      }
      var i := 0;
      while i < |organizations|
        invariant 0 <= i <= |organizations|
        invariant allProjects == Merge(organizations[..i], fetched)
      {
        var org := organizations[i];
        ghost var done := Occurrences(organizations[..i], fetched);
        var orgProjects := if org.id in fetched then fetched[org.id] else None;
        var ps := if orgProjects.Some? then orgProjects.value else [];
        assert ps == FetchOf(fetched, org.id);
        var j := 0;
        assert done + Pairs(org, ps[..j]) == done;
        while j < |ps|
          invariant 0 <= j <= |ps|
          invariant allProjects == MergeAll(done + Pairs(org, ps[..j]))
        {
          var orgProject := ps[j];
          var existingProjectIndex := FindIndex(allProjects, orgProject.id);
          if existingProjectIndex != -1 {
            var existing := allProjects[existingProjectIndex];
            allProjects := allProjects[existingProjectIndex := existing.(organizations := existing.organizations + [org])];
          } else {
            allProjects := allProjects + [ProjectRow(orgProject.id, orgProject.url, orgProject.name,
                                                     OrgsOr(orgProject.organizations) + [org])];
          }
          PairsSnoc(org, ps, j);
          MergeAllSnoc(done + Pairs(org, ps[..j]), Occurrence(org, orgProject));
          assert done + Pairs(org, ps[..j + 1]) == (done + Pairs(org, ps[..j])) + [Occurrence(org, orgProject)];
          j := j + 1;
        }
        assert ps[..|ps|] == ps;
        OccurrencesSnoc(organizations, i, fetched);
        i := i + 1;
      }
      assert organizations[..i] == organizations;
      initialProjects := allProjects;
      totalResults := |allProjects|;
      errorMessage := None;
      projectsLoaded := true;
    }

    /** `filter`. */
    method Filter()
      modifies this`projects
      ensures projects == FilterProjects(currentOrganization, initialProjects)
    {
      if currentOrganization.Some? && currentOrganization.value.id != AllProjectsOrgId {
        projects := LinkedTo(initialProjects, currentOrganization.value.id);
      } else {
        projects := initialProjects;
      }
    }

    /** `handleFormSubmit`: resolve the typed names, then ask for the creation
        only when all of them matched and the url is not empty. */
    method HandleFormSubmit(data: ProjectCreateForm.FormData) returns (request: Option<CreateRequest>)
      modifies this`errorMessage, this`modalOpen
      ensures !modalOpen
      ensures ResolveNames(organizations, data.orgNames).None? ==>
        request == None && errorMessage == Some("Entered invalid organization name.")
      ensures ResolveNames(organizations, data.orgNames).Some? && data.url == "" ==>
        request == None && errorMessage == Some("Please enter a valid URL.")
      ensures ResolveNames(organizations, data.orgNames).Some? && data.url != "" ==>
        && request == Some(CreateRequest(data.url, ResolveNames(organizations, data.orgNames).value))
        && errorMessage == old(errorMessage)
    {
      var orgs: seq<Org> := [];
      var i := 0;
      while i < |data.orgNames|
        invariant 0 <= i <= |data.orgNames|
        invariant ResolveNames(organizations, data.orgNames[..i]) == Some(orgs)
      {
        var name := data.orgNames[i];
        var matchedOrg := FindByName(organizations, name);
        if matchedOrg.None? {
          errorMessage := Some("Entered invalid organization name.");
          modalOpen := false;
          return None;
        }
        assert data.orgNames[..i + 1][..i] == data.orgNames[..i];
        orgs := orgs + [matchedOrg.value];
        i := i + 1;
      }
      assert data.orgNames[..i] == data.orgNames;
      if data.url != "" {
        request := Some(CreateRequest(data.url, orgs));
        modalOpen := false;
      } else {
        errorMessage := Some("Please enter a valid URL.");
        modalOpen := false;
        request := None;
      }
    }
  }
}
