# Open source projects: organization links, name derivation and the Projects page

This project models the open source project feature of the application in Dafny. The model has five parts:

- **The project handlers of the backend API.** The store holds organizations, projects and a project-to-organization link relation. The handlers are:
  - `del`: disconnect a project from an organization, or delete it when that organization was its only one;
  - `getById`;
  - `listByOrg`;
  - `create_proj`: reuse a project that has no organization, or insert a new one, then attach the organization.

  Each handler checks the caller's permissions, which come from what the auth helpers report: global write, global view, and organization memberships.
- **The two entities.** `OpenSourceProject` and `OpenSourceSoftware` share one table shape:
  - NOT NULL `url`, `name` and `hipcheckResults` columns;
  - `hipcheckResults` is `jsonb`, and its default `{}` applies only when the value is unset: an explicit `null` is written as SQL NULL and rejected;
  - a unique index on `(url, name)`.

  Each entity has a `@BeforeInsert` hook that derives `name` from `url`. For projects the hook takes the text after the first match of the pattern as written, in which the unescaped dot of `github.com` stands for any character but a line terminator. For software it takes the last `/`-segment.
- **The Projects page.** It merges the per-organization project lists into one list deduplicated by id. It filters that list by the current organization. It resolves the organization names typed into the creation dialog before asking for the creation.
- **The creation dialog.** Its form state is a url and a list of organization names, edited by index.

The Dafny modules follow the source files:

| module | file | models |
|---|---|---|
| `Common` | `common.dfy` | optional values, JSON, JavaScript truthiness |
| `UrlNameTable` | `url_name_table.dfy` | the table shape shared by both entities |
| `ProjectEntity` | `project_entity.dfy` | `backend/src/models/open_source_project.ts` |
| `SoftwareEntity` | `software_entity.dfy` | `backend/src/models/openSourceSoftware.ts` |
| `ProjectApi` | `project_api.dfy` | `backend/src/api/open_source_project.ts` |
| `ProjectCreateForm` | `project_create_form.dfy` | `frontend/src/pages/ProjectCreate/ProjectCreate.tsx` |
| `ProjectsPage` | `projects_page.dfy` | `frontend/src/pages/Projects/Projects.tsx` |

## How the source is modelled

Handlers that change state are methods on classes, and each method is proved against a specification function.

- **`del`.** `ProjectApi.Store.Del` is an imperative method. It mirrors the handler's checks and writes, and its postcondition ties the response and the new store to `ProjectApi.DeleteOutcome`. The lemmas are proved about `DeleteOutcome`.
- **`create_proj`.** `ProjectApi.Store.CreateProj` works the same way against the relation `ProjectApi.CreateStep`. The query for projects without organizations has no `ORDER BY`, so "the first found" project can be any of them. `CreateStep` therefore allows any orphan to be picked.
- **Entity hooks.** Each hook is a method that assigns the entity's `name` field. Its postcondition refers to a pure function (`NameOnInsert`, `LastSegment`).
- **Frontend.** `loadProjects` and `handleFormSubmit` are methods with the source's loops; their invariants tie them to `ProjectsPage.Merge` and `ProjectsPage.ResolveNames`. `filter` and the dialog's handlers build new values, so they are functions.

Inputs the model cannot see become parameters:

- the caller's roles become `Caller`;
- `isUUID` is a predicate parameter;
- the id a new row receives is `newId`;
- each organization's fetch result is a map from organization id to an optional list (`None` stands for a failed fetch, which yields `undefined`).

Where the code and its documented intent differ, the model follows the code, with one exception: for `del` it models the intended outcome, and "## Left out" says what the code as written does instead. The rule includes the name pattern: the hook is modelled with the pattern as written, whose unescaped dot accepts hosts other than `github.com` (see "## Findings"). The other differences are:

- **`create_proj` does not upsert by url.** It reuses any project that has no organization, whatever its url and results. Otherwise it inserts a new row. A second identical create with no orphan project therefore repeats the `(url, name)` pair. The unique index rejects it and the call fails (`RepeatedCreateFails`).
- **A url the pattern does not match** leaves `name` unset. The NOT NULL column then makes the insert fail (`UrlNameTable.Insert`).
- **An explicit `null` for `hipcheckResults`** is not replaced by the default `{}`. It reaches the NOT NULL column, and the insert fails (`NullResultsRejected`).
- **`create_proj` saves the new project before `findOneOrFail`.** A call with an unknown organization therefore fails but leaves a project with no organization behind (`CreateWithUnknownOrgLeavesOrphan`).
- **`del` is refused to a global view caller**, because only global write or membership lets it through.
- **`listByOrg` answers a missing organization id with Unauthorized**, not with a 400.
- **The check at backend/src/api/open_source_project.ts:241 always passes.** The project at hand there is either one with no organizations or a new one, so the organization is always pushed. The attach step in the model keeps the check anyway.

## Model

| member | source | states |
|---|---|---|
| UrlNameTable.ColumnDefault | backend/src/models/open_source_project.ts:34-38 | an insert without `hipcheckResults` stores `{}`; a given value is stored as is |
| UrlNameTable.Insert | backend/src/models/open_source_project.ts:15-38 | an insert succeeds iff `url` and `name` are set, `hipcheckResults` is not `null`, and no row holds the same `(url, name)`; it adds exactly the new row with the given results (or `{}` when unset), keeps every other row, and preserves the uniqueness of `(url, name)` |
| ProjectEntity.FirstMatch | backend/src/models/open_source_project.ts:49 | the search finds the leftmost position where the pattern matches, and none exactly when no position matches |
| ProjectEntity.Line | backend/src/models/open_source_project.ts:49 | the greedy `(.+)` takes the longest head of the rest free of line terminators |
| ProjectEntity.Capture | backend/src/models/open_source_project.ts:49-50 | there is a capture iff the pattern matches somewhere; a capture is non-empty and holds no line terminator |
| ProjectEntity.NameOnInsert | backend/src/models/open_source_project.ts:47-53 | an empty or absent url, or a url the pattern as written does not match, leaves `name` as it was; otherwise `name` becomes the capture of the pattern as written |
| ProjectEntity.CaptureIsSuffix | backend/src/models/open_source_project.ts:49-51 | under either reading of the dot, for a one-line url the derived name is a non-empty suffix of the url whose preceding 19 characters match the prefix, with no earlier match |
| ProjectEntity.IntendedCaptureFollowsGithub | backend/src/models/open_source_project.ts:49-51 | with the dot read literally, the name of a one-line url follows `https://github.com/` itself |
| ProjectEntity.LineOfOneLine | backend/src/models/open_source_project.ts:49 | on text without line terminators `(.+)` takes all of it |
| ProjectEntity.GithubCaptureExample | backend/test/open_source_project.test.ts:48 | `https://github.com/user/repo2` gives the name `user/repo2` |
| ProjectEntity.UnescapedDotAcceptsOtherHost | backend/src/models/open_source_project.ts:49 | the pattern as written takes `https://githubXcom/evil` for a GitHub url and names it `evil`; with the dot read literally there is no match |
| ProjectEntity.AsWrittenAcceptsIntended | backend/src/models/open_source_project.ts:49 | every url the literal pattern matches is matched by the pattern as written too |
| ProjectEntity.GithubCaptureAsWritten | backend/src/models/open_source_project.ts:49-50 | the pattern exactly as written, its dot in `github.com` matching any character but a line terminator: a capture exists iff some position matches, and it is non-empty |
| ProjectEntity.GithubCapture | backend/src/models/open_source_project.ts:49-50 | the pattern with the dot read literally: a capture exists iff `https://github.com/` occurs followed by a character of its line, and it is non-empty |
| ProjectEntity.OpenSourceProject.constructor | backend/src/api/open_source_project.ts:227-231 | `create` sets only `url` and `hipcheckResults`; `name` is unset |
| ProjectEntity.OpenSourceProject.SetNameFromUrl | backend/src/models/open_source_project.ts:46-54 | the hook sets `name` as `NameOnInsert` says, with the pattern as written, and changes neither `url` nor `hipcheckResults` |
| SoftwareEntity.Split | backend/src/models/openSourceSoftware.ts:46 | `split('/')` yields at least one piece and no piece holds a slash |
| SoftwareEntity.JoinSplit | backend/src/models/openSourceSoftware.ts:46 | joining the pieces with `/` gives the url back |
| SoftwareEntity.LastSegment | backend/src/models/openSourceSoftware.ts:46-47 | the last piece of `split('/')`, which holds no slash |
| SoftwareEntity.LastSegmentIsAfterLastSlash | backend/src/models/openSourceSoftware.ts:46-47 | the derived name holds no slash, is a suffix of the url, and is preceded by a slash unless it is the whole url |
| SoftwareEntity.LastSegmentCases | backend/src/models/openSourceSoftware.ts:46-47 | a url without a slash is its own name; a url ending in `/` gets the empty name |
| SoftwareEntity.OpenSourceSoftware.constructor | backend/src/models/openSourceSoftware.ts:18-41 | a new entity holds the given url and results and no name |
| SoftwareEntity.OpenSourceSoftware.SetNameFromUrl | backend/src/models/openSourceSoftware.ts:43-49 | for a non-empty url `name` becomes its last segment; for an empty or absent url `name` is unchanged; nothing else changes |
| ProjectApi.AuthorizationMatrix | backend/src/api/open_source_project.ts:64 | global writers may write, view and read; writing implies viewing; a global viewer who is not a member may view but not write; anybody else may do nothing for that organization |
| ProjectApi.MayWrite | backend/src/api/open_source_project.ts:64 | the test of `del` and of `create_proj` (line 209): a global writer or a member of the organization |
| ProjectApi.MayView | backend/src/api/open_source_project.ts:176 | the test of `listByOrg`: a global viewer, a global writer or a member |
| ProjectApi.MayReadProject | backend/src/api/open_source_project.ts:149 | the test of `getById`: a global viewer, a global writer, or a member of one of the project's organizations |
| ProjectApi.ReadProjectMeansViewSomeOrg | backend/src/api/open_source_project.ts:146-149 | for a linked project, the caller may read it iff the caller may view one of its organizations |
| ProjectApi.MoreThanOne | backend/src/api/open_source_project.ts:78-80 | a project linked to the organization has more than one organization iff it has another one |
| ProjectApi.DeleteOutcome | backend/src/api/open_source_project.ts:56-105 | `del` keeps the store consistent, answers only NotFound, Unauthorized, disconnected or deleted, changes nothing on an error, never adds projects or organizations, and leaves no surviving project without an organization |
| ProjectApi.DeleteResponses | backend/src/api/open_source_project.ts:60-96 | bad ids give NotFound before any check; Unauthorized iff the ids are valid and the caller is neither a global writer nor a member; disconnected iff the project is linked to the organization and to another; deleted iff the organization is its only one |
| ProjectApi.DisconnectKeepsProject | backend/src/api/open_source_project.ts:80-88 | disconnecting removes only the one link: every project row stays, the project keeps its other organizations, and other projects' links are untouched |
| ProjectApi.DeleteRemovesProject | backend/src/api/open_source_project.ts:89-96 | deleting removes exactly that project row and its links, leaves every other project's links as they were, and a later lookup of it answers NotFound |
| ProjectApi.GetById | backend/src/api/open_source_project.ts:123-156 | a missing id gives 400 'Project ID is required'; an unknown id gives NotFound; a known project is returned with its organizations iff the caller may read it, and Unauthorized otherwise |
| ProjectApi.ListByOrg | backend/src/api/open_source_project.ts:173-190 | Unauthorized iff the id is missing or the caller may not view the organization; NotFound iff the organization is unknown; otherwise exactly the projects linked to it |
| ProjectApi.Attach | backend/src/api/open_source_project.ts:235-248 | an unknown organization fails and changes nothing; otherwise the organization is added to the project's organizations once and the project is returned with them |
| ProjectApi.AttachIdempotent | backend/src/api/open_source_project.ts:241-244 | attaching the same organization again changes nothing and gives the same answer |
| ProjectApi.AttachGuarantees | backend/src/api/open_source_project.ts:240-244 | attaching either fails and changes nothing, or returns the project linked to the organization, its organizations as stored, and every project keeps all the organizations it had |
| ProjectApi.InsertProject | backend/src/api/open_source_project.ts:227-232 | the insert succeeds iff the url is present, the hook derived a name, the results are not `null` and no row holds that `(url, name)`; it then adds exactly the row with the body's url, the derived name and the results (or `{}`), unlinked, keeping every other row, all links and the store's consistency |
| ProjectApi.InsertedStoreConsistent | backend/src/models/open_source_project.ts:15 | a store that gains one new, unlinked row keeping the `(url, name)` index unique stays consistent |
| ProjectApi.InsertThenAttachGuarantees | backend/src/api/open_source_project.ts:225-244 | inserting then attaching keeps the store consistent and either fails or returns the stored new project linked to the organization, every project keeping all the organizations it had |
| ProjectApi.CreateStep | backend/src/api/open_source_project.ts:203-250 | the outcomes `create_proj` allows: Unauthorized without change; else attaching some project with no organization; else inserting a new project and attaching it |
| ProjectApi.CreateGuarantees | backend/src/api/open_source_project.ts:203-250 | `create_proj` keeps the store consistent; Unauthorized iff the id is missing or the caller is neither a global writer nor a member, changing nothing; a failed insert changes nothing; no project loses an organization; a created project is stored, returned with its organizations, and linked to the target organization |
| ProjectApi.CreateReusesOrphan | backend/src/api/open_source_project.ts:217-224 | with a project that has no organization, that project is reused unchanged, no row is added, and it ends up linked to the target organization only |
| ProjectApi.CreateInsertsProject | backend/src/api/open_source_project.ts:225-244 | without such a project, and when the pattern as written matches the url, the pair is free and the results are not `null`, a new row with the body's url, that capture as name and the results (or `{}`) is inserted and linked to the target organization only |
| ProjectApi.CreateWithUnknownOrgLeavesOrphan | backend/src/api/open_source_project.ts:232-240 | an unknown organization fails the call after the insert, leaving the new project without an organization |
| ProjectApi.RepeatedCreateFails | backend/src/api/open_source_project.ts:217-233 | with no orphan project, repeating a successful create for the same url fails on the unique index and changes nothing |
| ProjectApi.CreatedIsListed | backend/src/api/open_source_project.ts:176-189 | a created project appears in the listing of its organization |
| ProjectApi.Store.Del | backend/src/api/open_source_project.ts:56-97 | the handler's response and new store are those `DeleteOutcome` gives |
| ProjectApi.NullResultsRejected | backend/src/api/open_source_project.ts:225-232 | with no project free of organizations, a body whose `hipcheckResults` is `null` makes the call fail and leaves the store unchanged, because the NOT NULL column rejects the insert |
| ProjectApi.Store.Save | backend/src/api/open_source_project.ts:227-232 | `create` then `save`: the store becomes `InsertProject` of the old store when that succeeds, and is unchanged when it fails |
| ProjectApi.Store.CreateProj | backend/src/api/open_source_project.ts:203-250 | the handler's response and new store are one of the outcomes `CreateStep` allows |
| ProjectCreateForm.HandleChange | frontend/src/pages/ProjectCreate/ProjectCreate.tsx:40-57 | an organization row edits only its own slot and not the url; the url input edits only the url; any other input changes nothing |
| ProjectCreateForm.HandleAddOrgName | frontend/src/pages/ProjectCreate/ProjectCreate.tsx:60-65 | exactly one empty name is appended; earlier names and the url are unchanged |
| ProjectCreateForm.WithoutIndexDropsOne | frontend/src/pages/ProjectCreate/ProjectCreate.tsx:71 | filtering by position drops exactly the entry at the index and keeps the rest in order; an index out of range drops nothing |
| ProjectCreateForm.HandleRemoveOrgName | frontend/src/pages/ProjectCreate/ProjectCreate.tsx:68-73 | an index in range removes exactly that row, shortening the list by one; otherwise nothing changes; the url is untouched |
| ProjectCreateForm.RunKeepsARow | frontend/src/pages/ProjectCreate/ProjectCreate.tsx:101-122 | since removal is offered only with at least two rows, no sequence of actions empties the list of names |
| ProjectCreateForm.SubmittedFormNamesAnOrg | frontend/src/pages/ProjectCreate/ProjectCreate.tsx:33-36 | starting from url `''` and one empty name, `handleSubmit` passes the current form unchanged, and it always holds at least one name |
| ProjectCreateForm.HandleSubmit | frontend/src/pages/ProjectCreate/ProjectCreate.tsx:75-78 | the submitted data is the current url and organization names, unchanged |
| ProjectCreateForm.InitialForm | frontend/src/pages/ProjectCreate/ProjectCreate.tsx:33-36 | the dialog starts with url `''` and one empty organization name |
| ProjectsPage.FindIndex | frontend/src/pages/Projects/Projects.tsx:102-104 | `findIndex` gives the first position with the id, or -1 iff there is none |
| ProjectsPage.Step | frontend/src/pages/Projects/Projects.tsx:102-114 | one inner iteration: an already listed project gets the organization appended, a new one is appended with its own organizations followed by that organization |
| ProjectsPage.Merge | frontend/src/pages/Projects/Projects.tsx:98-114 | the list `loadProjects` builds: every step over the organizations in order and each one's fetched projects in order |
| ProjectsPage.FirstWith | frontend/src/pages/Projects/Projects.tsx:110-113 | the first fetched copy of a project carries its id |
| ProjectsPage.DedupFacts | frontend/src/pages/Projects/Projects.tsx:102-114 | the first-appearance list of ids holds each id once and exactly the ids given |
| ProjectsPage.OrgsForAbsent | frontend/src/pages/Projects/Projects.tsx:107 | a project that was never fetched is credited to no organization |
| ProjectsPage.ExpectedUnchanged | frontend/src/pages/Projects/Projects.tsx:102-114 | a later copy of another project leaves a project's merged row as it was |
| ProjectsPage.ExpectedExtended | frontend/src/pages/Projects/Projects.tsx:105-107 | a later copy of the same project appends that organization to its merged row |
| ProjectsPage.ExpectedNew | frontend/src/pages/Projects/Projects.tsx:108-113 | a first copy yields the fetched project with its own organizations followed by the fetching organization |
| ProjectsPage.IdsMembership | frontend/src/pages/Projects/Projects.tsx:102-104 | an id is listed iff some row has it |
| ProjectsPage.StepIds | frontend/src/pages/Projects/Projects.tsx:102-114 | one step appends a project's id when it is new and keeps the ids otherwise |
| ProjectsPage.FetchedIdsLast | frontend/src/pages/Projects/Projects.tsx:101 | the fetched ids grow by the id of each visited project |
| ProjectsPage.MergeAllIds | frontend/src/pages/Projects/Projects.tsx:98-114 | the merged list holds each fetched project once, in order of first appearance |
| ProjectsPage.MergeAllRows | frontend/src/pages/Projects/Projects.tsx:98-114 | each merged row is the first fetched copy, with its fetched organizations followed by every organization whose fetch returned it, in visiting order |
| ProjectsPage.MergeProperties | frontend/src/pages/Projects/Projects.tsx:98-114 | the merged list has distinct ids, holds exactly the fetched projects, in order of first appearance, each with the organizations above |
| ProjectsPage.SilentOrgAddsNothing | frontend/src/pages/Projects/Projects.tsx:99-100 | an organization whose fetch returned nothing or failed adds nothing to the list |
| ProjectsPage.MergeAllSnoc | frontend/src/pages/Projects/Projects.tsx:101-115 | merging one more project is one more step of the inner loop |
| ProjectsPage.PairsSnoc | frontend/src/pages/Projects/Projects.tsx:101 | the inner loop visits an organization's projects in order |
| ProjectsPage.OccurrencesSnoc | frontend/src/pages/Projects/Projects.tsx:98-99 | the outer loop visits the organizations in order, each with its fetched list |
| ProjectsPage.LinkedToIsSubsequence | frontend/src/pages/Projects/Projects.tsx:137-139 | the filtered list is the original list with some projects left out, the rest in their order |
| ProjectsPage.LinkedToCounts | frontend/src/pages/Projects/Projects.tsx:137-139 | a linked project occurs in the filtered list as often as in the original list, and an unlinked one not at all |
| ProjectsPage.LinkedTo | frontend/src/pages/Projects/Projects.tsx:137-139 | `filter` with `some`: the projects having the organization among theirs, in order |
| ProjectsPage.LinkedToKeepsLinked | frontend/src/pages/Projects/Projects.tsx:137-139 | filtering keeps an order-preserving sublist, only of projects linked to the organization, and every linked project as often as it occurs |
| ProjectsPage.FilterProjects | frontend/src/pages/Projects/Projects.tsx:131-144 | with a current organization other than `9d33744f-50fd-4d14-a961-4b3edfb8f2a2` the shown list is the projects linked to it, in order; otherwise it is every project |
| ProjectsPage.FindByName | frontend/src/pages/Projects/Projects.tsx:49 | `find` gives the first organization with the name, and nothing iff no organization has it |
| ProjectsPage.ResolveNames | frontend/src/pages/Projects/Projects.tsx:47-57 | the names resolve, in order, each to the first organization with that name; there is no result iff some name matches none |
| ProjectsPage.ProjectsPage.constructor | frontend/src/pages/Projects/Projects.tsx:27-38 | the page starts with no projects, no error, the dialog closed and nothing loaded |
| ProjectsPage.ProjectsPage.LoadProjects | frontend/src/pages/Projects/Projects.tsx:90-129 | without organizations the error is 'No organizations available' and the project state is untouched; otherwise the merged list is stored, the count is its length, the error is cleared and the page is loaded |
| ProjectsPage.ProjectsPage.Filter | frontend/src/pages/Projects/Projects.tsx:131-144 | the shown projects become the filtered list |
| ProjectsPage.ProjectsPage.HandleFormSubmit | frontend/src/pages/Projects/Projects.tsx:44-68 | the names are checked first: an unmatched name sets 'Entered invalid organization name.' with no request; then an empty url sets 'Please enter a valid URL.' with no request; otherwise the request carries the url and the resolved organizations; the dialog is closed in every case |

## Left out

- ProjectApi.DeleteOutcome: models the evidently intended disconnect and delete outcomes, not what `del` does as written. Line 69 of backend/src/api/open_source_project.ts loads only the organization's `openSourceProjects` relation. The `organizations` relation of OpenSourceProject is not eager (backend/src/models/open_source_project.ts:40-44), so `openSourceProject.organizations` is undefined at line 78. There `.map` throws, and the catch at lines 99-104 answers 404. As written, every request that gets past line 76 therefore answers 404, and the disconnect and delete branches are never reached. The model instead reads each project's organization set from the store.
- ProjectApi.Store.Del: the catch-all 404 of backend/src/api/open_source_project.ts:99-104 is not modelled. It is the response the code as written gives after line 76 (see the line above). The model's store reads and writes cannot fail, so `Del` never reaches it.
- The exception `findOneOrFail` throws and a failing insert in `create_proj` both become the response `Failed`. The status code `wrapHandler` gives them is not modelled.
- Response bodies are not modelled. Error messages other than getById's 400 message, the JSON serialisation of entities, and the relation arrays in them are left out.
- Ids that are not UUIDs are treated as unknown ids. `getById`, `listByOrg` and `create_proj` hand such ids straight to the database. A database that rejects them with an error rather than finding no row is not modelled.
- `JSON.parse` of a malformed request body, the unused `organizations` field of the body, and JSON numbers other than integers are left out.
- The auth helpers and `isUUID` are not part of this model. They are given as `Caller` and as a predicate.
- `backend/src/tasks/hipcheck.ts` is not part of this model. It runs an external binary.
- `createdAt` and `updatedAt`, transactions and concurrent requests are left out.
- ProjectCreateForm.HandleChange: requires an organization row's index to be in range. The dialog only passes the index of a rendered row. JavaScript's extension of an array by an out-of-range write is not modelled.
- `fetchOrganizations`, the effects that call `loadProjects` and `filter`, the rendering, the menus and the date arithmetic of the Projects page are left out. So are the hooks in `useProjectApi.ts`.
- ProjectsPage.ProjectsPage.LoadProjects: an exception thrown by a fetch is not modelled, and neither is its 'An error occurred while loading projects' message. A failed fetch is modelled as an absent result.
- ProjectsPage.ProjectsPage.HandleFormSubmit: returns the create request instead of performing it. The `catch` path, which shows the hook's error when `createProject` throws, is not modelled.
- `FetchedProject` and `ProjectRow` keep only the id, url, name and organizations of a project. The other fields are copied unchanged by the spread at frontend/src/pages/Projects/Projects.tsx:111.
- JavaScript strings are UTF-16 sequences; the model uses Dafny's `char` sequences.

## Findings

| source | as written | input that shows it | evidently intended | confidence | as-written member | corrected member |
|---|---|---|---|---|---|---|
| backend/src/models/open_source_project.ts:49 | `/https:\/\/github.com\/(.+)/` leaves the dot in `github.com` unescaped, so it matches any character there | `https://githubXcom/evil` is taken for a GitHub url and the project is named `evil` (ProjectEntity.UnescapedDotAcceptsOtherHost) | only urls on the host `github.com` match | not executed | ProjectEntity.GithubCaptureAsWritten | ProjectEntity.GithubCapture |
