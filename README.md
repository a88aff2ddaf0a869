# scrum_flow access control and backlog placement, in Dafny

This project models the core of scrum_flow, a Django Scrum application, over an in-memory store.
Users own projects or join them through ProjectMember rows. Every HTML view first checks who may
act: the owner, a member, a user in the "editor" group, or a superuser. The two REST endpoints
check no one. User stories live in exactly one backlog at a time: either their project's product
backlog or a sprint's backlog. Both kinds of backlog are created lazily by `get_or_create`.

The model has these modules:

- `Models` (models.dfy) holds the records:
  - the store as a value `Db`;
  - the mutable `Store` class whose table fields the operations reassign;
  - the abstract ownership and membership predicates;
  - the backlog `get_or_create`;
  - the invariant `Consistent`, which every operation keeps.
- `ProjectService`, `ProjectMemberService` and `UserStoryService` are the three service classes.
  - Each operation is a pure `After…` function on `Db`, which carries the promised properties.
  - Each also has a module-level method that takes the `Store` and is proved to leave it in exactly
    that function's new state.
- `ProjectViews`, `ProjectMemberViews` and `UserStoryViews` are the HTML views.
  - Each read-only page is a function from the store to a `Result`.
  - Each handler that can change state is a method with three possible outcomes:
    - a refusal, `Err(NotFound)` or `Err(Denied)` (or `Err(Broken)` for a story whose backlog
      reference cannot be followed), with the store unchanged;
    - `Ok(Shown)`, a page shown with the store unchanged, or changed only by a backlog `get_or_create`;
    - `Ok(Done)`, with exactly one service transition applied.
  - The two backlog pages, `ProductBacklogView` and `SprintBacklogView`, are methods too, because
    they may create a backlog. They return the backlog's key and its stories instead of an
    `Outcome`.
- `ApiViews` holds the two REST endpoints.

Several things become parameters:

- The requesting user is a `UserId`.
- The HTTP method is `isPost`.
- Form validation and `full_clean` are booleans: `formValid` and `clean`.
- The clock is `now`.
- The cleaned form data is an attribute map.

Where the behaviour the application documents and the code differ, the model follows the code:

- `get_user_projects` returns owned projects only, so the project list leaves out projects joined
  through a member row. See "## Findings".
- `can_manage` and the editor gate have no superuser clause. The editor gate also does not test
  membership; only the member gate in front of it does.
- Adding a member is reachable only by the project's owner. Everyone else, editors included, gets a
  404. The service adds no duplicate check of its own.
- Removing a member is also owner-only.
- `check_project_access` ORs `is_member` with `is_owner`. Because the owner is a member, the second
  test never changes the answer.
- The project list and the API return projects in no stated order, and the model returns them as
  sets.

## Model

| member | source | states |
|---|---|---|
| Models.HasPerm | scrum_app/views/project.py:35 | the permission_required test: a superuser holds every permission, anyone else exactly the ones granted |
| Models.InEditorGroup | scrum_app/views/project.py:29 | the user is in the group named "editor" |
| Models.IsOwner | scrum_app/views/project.py:27 | the user is the project's owner |
| Models.HasMemberRow | scrum_app/api_views.py:30 | some ProjectMember row links the project to the user |
| Models.IsMember | scrum_app/views/project.py:14-17 | the owner of an existing project is a member of it; a member's project exists |
| Models.Placed | scrum_app/services/user_story_service.py:138-140 | exactly one of the story's two backlog references is set, and it names an existing backlog row |
| Models.Consistent | scrum_app/services/user_story_service.py:21-29 | the store invariant: keys below the counter, each project's owner exists, member rows have distinct keys and existing users, at most one backlog per project and per sprint, each sprint backlog's sprint exists, and every story is placed |
| Models.BacklogOf | scrum_app/services/user_story_service.py:21 | the backlog found for a parent is a row of the table with that parent; none is found exactly when no row has that parent |
| Models.BacklogById | scrum_app/services/user_story_service.py:138-140 | following a backlog reference finds a row with that key, and finds one exactly when the key is in the table |
| Models.BacklogOfById | scrum_app/services/user_story_service.py:138-140 | with one backlog per parent, "the backlog of x is b" and "the row keyed b has parent x" are the same fact |
| Models.AfterGetOrCreate | scrum_app/views/user_story.py:22 | get_or_create keeps the table well-formed; afterwards the parent has a backlog; the table is unchanged if it had one, and otherwise gains one row under a fresh key; no row is lost |
| Models.AfterGetOrCreateProductBacklog | scrum_app/services/user_story_service.py:21 | the project has a product backlog afterwards; the store is unchanged if it already had one, and otherwise only the backlog table and key counter change |
| Models.AfterGetOrCreateSprintBacklog | scrum_app/services/user_story_service.py:45 | as above, for a sprint's backlog |
| Models.GrowKeepsConsistent | scrum_app/views/user_story.py:48 | adding backlog rows and raising the key counter keeps the store consistent |
| Models.GetOrCreateProductBacklogKeepsConsistent | scrum_app/views/user_story.py:22 | get_or_create of a product backlog keeps the store consistent |
| Models.GetOrCreateSprintBacklogKeepsConsistent | scrum_app/views/user_story.py:48 | get_or_create of a sprint backlog keeps the store consistent |
| Models.GetOrCreateProductBacklogIdempotent | scrum_app/views/user_story.py:74 | a second get_or_create for the same project changes nothing: one product backlog per project |
| Models.GetOrCreateSprintBacklogIdempotent | scrum_app/views/user_story.py:108 | a second get_or_create for the same sprint changes nothing |
| Models.Store.ProductBacklogGetOrCreate | scrum_app/views/user_story.py:22 | the store's new state is the get_or_create function's; the returned key is the project's backlog |
| Models.Store.SprintBacklogGetOrCreate | scrum_app/views/user_story.py:48 | the store's new state is the get_or_create function's; the returned key is the sprint's backlog |
| ProjectService.GetUserProjects | scrum_app/services/project_service.py:22 | a project is listed exactly when it exists and the user owns it |
| ProjectService.MemberOnlyProjectNotListed | scrum_app/services/project_service.py:12-22 | a member who is not the owner is a member but is not given the project |
| ProjectService.GetProjectById | scrum_app/services/project_service.py:39 | Ok exactly when the project exists and is owned by the given user, with that project; otherwise DoesNotExist |
| ProjectService.GetProjectByIdAgreesWithListing | scrum_app/services/project_service.py:22-39 | the owner-scoped lookup succeeds exactly for the listed projects |
| ProjectService.CheckProjectAccess | scrum_app/services/project_service.py:101 | access is granted exactly to members, and always to the owner |
| ProjectService.AfterCreateProject | scrum_app/services/project_service.py:54-57 | the new project, under the next key, has the form's name and description, the creation time and the given owner; other projects are kept; the owner finds it and is a member; nothing else changes |
| ProjectService.CreatedProjectHasOnlyItsOwner | scrum_app/services/project_service.py:54-57 | in a consistent store the new key is fresh, and the owner is the new project's only member |
| ProjectService.AfterUpdateProject | scrum_app/services/project_service.py:71 | the name and description are replaced; owner, creation time, the other projects and the rest of the store stay |
| ProjectService.UpdateProjectKeepsMembership | scrum_app/services/project_service.py:71 | an update changes nobody's membership or ownership |
| ProjectService.AfterDeleteProject | scrum_app/services/project_service.py:85-87 | the project is gone and its name is returned; every other project stays |
| ProjectService.DeletedProjectIsGone | scrum_app/services/project_service.py:85-87 | after the delete nobody is a member, the owner's lookup fails and the project is not listed |
| ProjectService.CreateProjectKeepsConsistent | scrum_app/services/project_service.py:54-57 | creating a project keeps the store consistent |
| ProjectService.UpdateProjectKeepsConsistent | scrum_app/services/project_service.py:71 | updating a project keeps the store consistent |
| ProjectService.DeleteProjectKeepsConsistent | scrum_app/services/project_service.py:85-87 | deleting a project keeps the store consistent |
| ProjectService.CreateProject | scrum_app/services/project_service.py:43-57 | the store's new state and the returned key are those of AfterCreateProject |
| ProjectService.UpdateProject | scrum_app/services/project_service.py:61-71 | the store's new state is that of AfterUpdateProject |
| ProjectService.DeleteProject | scrum_app/services/project_service.py:75-87 | the store's new state and the returned name are those of AfterDeleteProject |
| ProjectMemberService.MembersOf | scrum_app/services/project_member_service.py:25 | the project's member rows are exactly the table's rows for that project |
| ProjectMemberService.MembersOfAppend | scrum_app/services/project_member_service.py:25 | a row appended to the table is appended to its own project's list only |
| ProjectMemberService.NumPages | scrum_app/services/project_member_service.py:26 | at least one page; enough pages for every item; no page beyond the first is empty |
| ProjectMemberService.ServedPage | scrum_app/services/project_member_service.py:27 | a missing or non-integer page number serves page 1; an integer out of range serves the last page; any other is served as asked |
| ProjectMemberService.PageItems | scrum_app/services/project_member_service.py:27 | a page holds at most per_page items; they are the consecutive items from the page's start; it is full unless it reaches the end |
| ProjectMemberService.GetPage | scrum_app/services/project_member_service.py:26-27 | the page carries the page count, the served number and that page's items |
| ProjectMemberService.GetProjectMembersPage | scrum_app/services/project_member_service.py:13-27 | a page holds at most per_page rows, all belonging to the project |
| ProjectMemberService.ItemOnItsPage | scrum_app/services/project_member_service.py:26-27 | item i is on page i / per_page + 1 at position i mod per_page |
| ProjectMemberService.MemberOnSomePage | scrum_app/services/project_member_service.py:13-27 | every member row of the project appears on the page its position puts it on, with the default page size |
| ProjectMemberService.MemberById | scrum_app/services/project_member_service.py:59 | the row found has that key; none is found exactly when no row has it |
| ProjectMemberService.GetProjectMember | scrum_app/services/project_member_service.py:59 | a row found is in the table with that key and that project; failure is DoesNotExist |
| ProjectMemberService.GetProjectMemberScoped | scrum_app/services/project_member_service.py:45-59 | with distinct keys, the lookup succeeds exactly when a row with that key belongs to the project |
| ProjectMemberService.RemoveById | scrum_app/services/project_member_service.py:74 | the rows left are exactly those whose key differs |
| ProjectMemberService.RemoveByIdAbsent | scrum_app/services/project_member_service.py:74 | removing a key no row has leaves the table unchanged |
| ProjectMemberService.RemoveByIdAppend | scrum_app/services/project_member_service.py:74 | removing the key of a just-appended row returns the table before the append |
| ProjectMemberService.RemoveByIdOne | scrum_app/services/project_member_service.py:74 | with distinct keys, removing an existing key removes exactly one row |
| ProjectMemberService.RemoveByIdKeepsDistinct | scrum_app/services/project_member_service.py:74 | removal keeps the keys distinct |
| ProjectMemberService.AfterAddMember | scrum_app/services/project_member_service.py:42 | a new row for the project and the user, joined now, under the next key, at the end of the project's list; no row is lost; the user becomes a member of an existing project; only the member table and key counter change |
| ProjectMemberService.AddMemberLeavesOtherProjects | scrum_app/services/project_member_service.py:42 | the other projects' member lists do not change |
| ProjectMemberService.AfterRemoveMember | scrum_app/services/project_member_service.py:73-75 | the username is returned; exactly the rows with another key remain; nothing else changes. The remaining rows keep their order: see MembersOfRemoveById and RemoveMemberLeavesOtherProjects |
| ProjectMemberService.MembersOfRemoveById | scrum_app/services/project_member_service.py:74 | removing a key and then taking a project's member list gives that list with the key removed, with the remaining rows in their order |
| ProjectMemberService.RemoveMemberLeavesOtherProjects | scrum_app/services/project_member_service.py:73-75 | removing a member row leaves every other project's member list exactly as it was, in its order |
| ProjectMemberService.RemoveMemberRemovesOne | scrum_app/services/project_member_service.py:74 | removing an existing row shortens the table by one |
| ProjectMemberService.RemoveMemberRevokesMembership | scrum_app/services/project_member_service.py:73-75 | removing a non-owner's only row for a project ends their membership |
| ProjectMemberService.AddThenRemoveRestoresMembers | scrum_app/services/project_member_service.py:42-75 | removing the row just added restores the member table |
| ProjectMemberService.AddMemberKeepsConsistent | scrum_app/services/project_member_service.py:42 | adding a member keeps the store consistent |
| ProjectMemberService.RemoveMemberKeepsConsistent | scrum_app/services/project_member_service.py:73-74 | removing a member keeps the store consistent |
| ProjectMemberService.AddMemberToProject | scrum_app/services/project_member_service.py:31-42 | the store's new state and the returned row are those of AfterAddMember |
| ProjectMemberService.RemoveMemberFromProject | scrum_app/services/project_member_service.py:63-75 | the store's new state and the returned username are those of AfterRemoveMember |
| UserStoryService.GetProjectFromUserStory | scrum_app/services/user_story_service.py:128-140 | a placed story in a consistent store resolves to a project; a story with neither backlog reference, or with a reference to a missing backlog or sprint row, is `Broken`, the only failure; the project row the result names is not looked up |
| UserStoryService.ResolveInProductBacklog | scrum_app/services/user_story_service.py:138-139 | a story in project P's product backlog resolves to P |
| UserStoryService.ResolveInSprintBacklog | scrum_app/services/user_story_service.py:138-140 | a story in sprint S's backlog and in no product backlog resolves to S's project |
| UserStoryService.AfterCreateForProductBacklog | scrum_app/services/user_story_service.py:10-31 | the backlog table afterwards is exactly the one the project's get_or_create leaves, so an existing backlog is reused and otherwise one row is added; success exactly when full_clean passes; on success the new story has the caller's fields minus the two backlog keys (`BacklogKeys`, lines 24-25), sits in that backlog only and is the only story added; on failure no story is added; only backlogs, stories and the key counter change |
| UserStoryService.AfterCreateForSprintBacklog | scrum_app/services/user_story_service.py:34-55 | as above, with the sprint's get_or_create table, into the sprint's backlog and no product backlog |
| UserStoryService.AfterUpdateUserStory | scrum_app/services/user_story_service.py:58-75 | success exactly when full_clean passes; each named field takes its new value, the other fields and both backlog references stay, and only that story changes; on failure nothing changes |
| UserStoryService.AfterMoveToSprint | scrum_app/services/user_story_service.py:78-95 | the sprint backlog table and key counter afterwards are exactly those of the sprint's get_or_create, so an existing backlog of the sprint is reused; on success the story's product reference is cleared and its sprint reference names that backlog, and only that story changes; on failure no story changes |
| UserStoryService.AfterMoveToProductBacklog | scrum_app/services/user_story_service.py:98-115 | the mirror image, into the project's product backlog, with the project's get_or_create table and key counter and its existing backlog reused |
| UserStoryService.AfterDeleteUserStory | scrum_app/services/user_story_service.py:118-125 | the story is gone; every other story and the rest of the store stay |
| UserStoryService.SaveKeepsConsistent | scrum_app/services/user_story_service.py:29 | saving a placed story, new or existing, keeps the store consistent |
| UserStoryService.CreateForProductBacklogKeepsConsistent | scrum_app/services/user_story_service.py:10-31 | creation keeps the store consistent and the new key was not a story |
| UserStoryService.CreateForSprintBacklogKeepsConsistent | scrum_app/services/user_story_service.py:34-55 | creation keeps the store consistent and the new key was not a story |
| UserStoryService.UpdateKeepsConsistent | scrum_app/services/user_story_service.py:58-75 | an update keeps the store consistent |
| UserStoryService.MoveToSprintKeepsConsistent | scrum_app/services/user_story_service.py:78-95 | moving to a sprint keeps the store consistent |
| UserStoryService.MoveToProductBacklogKeepsConsistent | scrum_app/services/user_story_service.py:98-115 | moving to the product backlog keeps the store consistent |
| UserStoryService.DeleteKeepsConsistent | scrum_app/services/user_story_service.py:118-125 | a delete keeps the store consistent |
| UserStoryService.CreatedForProductBacklogIsPlaced | scrum_app/services/user_story_service.py:21-31 | a story created for P sits in P's product backlog and no sprint backlog, carries no backlog key, and resolves to P |
| UserStoryService.CreatedForSprintBacklogIsPlaced | scrum_app/services/user_story_service.py:45-55 | a story created for sprint S sits in S's backlog and no product backlog, carries no backlog key, and resolves to S's project |
| UserStoryService.SecondCreateReusesProductBacklog | scrum_app/services/user_story_service.py:21 | a second creation for the same project leaves the backlog table as the first left it |
| UserStoryService.MoveToSprintResolves | scrum_app/services/user_story_service.py:89-93 | after the move the story resolves to the sprint's project |
| UserStoryService.MoveRoundTrip | scrum_app/services/user_story_service.py:78-115 | moving to a sprint and back to P puts the story in P's product backlog and no sprint backlog, keeps its fields, and resolves to P |
| UserStoryService.MoveRoundTripRestores | scrum_app/services/user_story_service.py:78-115 | a story that started in P's product backlog, moved to a sprint and back, leaves the story table and the product backlog table exactly as they began |
| UserStoryService.SetAttributes | scrum_app/services/user_story_service.py:69-70 | the keys are the old keys plus the named ones; named fields take the new values and the others keep theirs |
| UserStoryService.SaveNewStory | scrum_app/services/user_story_service.py:29 | the story is stored under the next key and the key counter advances; nothing else changes |
| UserStoryService.CreateUserStoryForProductBacklog | scrum_app/services/user_story_service.py:10-31 | the store's new state and the result are those of AfterCreateForProductBacklog |
| UserStoryService.CreateUserStoryForSprintBacklog | scrum_app/services/user_story_service.py:34-55 | the store's new state and the result are those of AfterCreateForSprintBacklog |
| UserStoryService.UpdateUserStory | scrum_app/services/user_story_service.py:58-75 | the store's new state and the result are those of AfterUpdateUserStory |
| UserStoryService.MoveToSprint | scrum_app/services/user_story_service.py:78-95 | the store's new state and the result are those of AfterMoveToSprint |
| UserStoryService.MoveToProductBacklog | scrum_app/services/user_story_service.py:98-115 | the store's new state and the result are those of AfterMoveToProductBacklog |
| UserStoryService.DeleteUserStory | scrum_app/services/user_story_service.py:118-125 | the store's new state is that of AfterDeleteUserStory |
| ProjectViews.RequireProjectMember | scrum_app/views/project.py:14-17 | passes exactly the project's members; otherwise PermissionDenied |
| ProjectViews.RequireProjectEditor | scrum_app/views/project.py:20-31 | passes exactly the owner and users in the "editor" group; otherwise PermissionDenied |
| ProjectViews.EditorGateIgnoresSuperuserAndMembership | scrum_app/views/project.py:20-31 | a superuser who is neither owner nor editor is refused; an editor passes whether or not they are a member |
| ProjectViews.ProjectListView | scrum_app/views/project.py:34-44 | denied exactly without view_project; otherwise exactly the requester's owned projects |
| ProjectViews.ProjectListOmitsMemberProjects | scrum_app/views/project.py:37-38 | a member of another user's project who holds view_project is given an empty list |
| ProjectViews.ProjectListViewIntended | scrum_app/views/project.py:37 | denied exactly without view_project; otherwise exactly the projects the requester belongs to |
| ProjectViews.ProjectDetailView | scrum_app/views/project.py:47-62 | denied without view_project, then 404 for a missing project, then denied for a non-member; shown exactly to members holding view_project; can_manage exactly for the owner or an editor |
| ProjectViews.UpdateRefusal | scrum_app/views/project.py:85-91 | no refusal exactly for a member holding change_project who is the owner or an editor; 404 for a missing project once the permission is held; any other refusal is PermissionDenied |
| ProjectViews.NonMemberEditorCannotUpdate | scrum_app/views/project.py:89-91 | an editor who does not belong to the project is refused |
| ProjectViews.DeleteRefusal | scrum_app/views/project.py:117-120 | no refusal exactly for an existing project's owner or a superuser; 404 for a missing project; otherwise PermissionDenied |
| ProjectViews.SuperuserMayDeleteButNotEdit | scrum_app/views/project.py:85-120 | a superuser member who is neither owner nor editor may delete the project but not edit it |
| ProjectViews.ProjectCreateView | scrum_app/views/project.py:65-82 | denied without add_project; a valid POST creates the project with the requester as owner; anything else changes nothing |
| ProjectViews.ProjectUpdateView | scrum_app/views/project.py:85-111 | refused with the store unchanged; after the gates only a valid POST writes the new name and description |
| ProjectViews.ProjectDeleteView | scrum_app/views/project.py:114-127 | refused with the store unchanged; after the gates only a POST deletes the project |
| ProjectMemberViews.ProjectMembersView | scrum_app/views/project_member.py:12-36 | 404 for a missing project, refused for a non-member; for a member, the requested page of members and whether they own the project |
| ProjectMemberViews.AddMemberRefusal | scrum_app/views/project_member.py:42 | no refusal exactly for an existing project's owner; everyone else gets a 404 |
| ProjectMemberViews.RemoveMemberLookup | scrum_app/views/project_member.py:67-68 | succeeds only for the owner, with a row of that project under that key; every failure is a 404 |
| ProjectMemberViews.RemoveMemberLookupScoped | scrum_app/views/project_member.py:67-68 | for the owner, the lookup succeeds exactly when a row with that key belongs to the project |
| ProjectMemberViews.ProjectAddMemberView | scrum_app/views/project_member.py:39-61 | a 404 with the store unchanged; after it, a valid POST adds the member row and anything else changes nothing |
| ProjectMemberViews.ProjectRemoveMemberView | scrum_app/views/project_member.py:64-82 | a 404 with the store unchanged; after the lookups, only a POST removes the row found |
| UserStoryViews.ProductBacklogStories | scrum_app/views/user_story.py:25 | exactly the stories whose product backlog reference names that backlog |
| UserStoryViews.SprintBacklogStories | scrum_app/views/user_story.py:51 | exactly the stories whose sprint backlog reference names that backlog |
| UserStoryViews.StoryGate | scrum_app/views/user_story.py:243-254 | 404 for a missing story; a story whose project cannot be resolved gets that resolution's error; a non-member of the resolved project is refused with Denied (the source's redirect); it passes exactly when the project resolves and the requester is a member, giving that existing project |
| UserStoryViews.StoryGateInProductBacklog | scrum_app/views/user_story.py:134-147 | for a story in P's product backlog, the gate passes exactly P's members |
| UserStoryViews.StoryGateInSprintBacklog | scrum_app/views/user_story.py:134-147 | for a story in S's backlog, the gate passes exactly the members of S's project |
| UserStoryViews.UserStoryDetailView | scrum_app/views/user_story.py:214-237 | shown exactly when the gate passes, with the story and its project; otherwise the gate's refusal |
| UserStoryViews.InitialMoveTo | scrum_app/views/user_story.py:278 | the initial target is "sprint" exactly for a story in a product backlog, else "product" |
| UserStoryViews.InitialMoveToIsOpposite | scrum_app/views/user_story.py:278 | for a placed story the initial target is the kind of backlog it is not in |
| UserStoryViews.ProductBacklogView | scrum_app/views/user_story.py:11-33 | 404 or refused with the store unchanged; for a member, the store is the get_or_create result, and the page lists that backlog's stories |
| UserStoryViews.SprintBacklogView | scrum_app/views/user_story.py:36-60 | the same for a sprint, gated on the sprint's project |
| UserStoryViews.CreateForProductBacklogView | scrum_app/views/user_story.py:63-93 | 404 or refused with the store unchanged; for a member, the backlog is got or created on every request, and a valid POST also creates the form's story in it |
| UserStoryViews.CreateForSprintBacklogView | scrum_app/views/user_story.py:96-128 | the same for a sprint's backlog, gated on the sprint's project |
| UserStoryViews.UserStoryUpdateView | scrum_app/views/user_story.py:131-173 | refused with the store unchanged; after the gate only a valid POST writes the form's fields into the story |
| UserStoryViews.UserStoryDeleteView | scrum_app/views/user_story.py:176-211 | refused with the store unchanged; after the gate only a POST deletes the story |
| UserStoryViews.UserStoryMoveView | scrum_app/views/user_story.py:240-287 | refused with the store unchanged; a valid POST with target "product" moves the story to its project's product backlog; any other target gives a 404 for a missing sprint, else moves the story to that sprint |
| ApiViews.UserProjectsQuery | scrum_app/api_views.py:22-33 | exactly the owned projects together with the existing projects the user has a member row for, without duplicates |
| ApiViews.UserProjectsAreMemberships | scrum_app/api_views.py:13-33 | the query returns exactly the projects the user is a member of |
| ApiViews.UserProjectsList | scrum_app/api_views.py:35-46 | 404 exactly for a user id that does not exist; otherwise exactly the user's projects |
| ApiViews.UserData | scrum_app/api_views.py:70-81 | the entry has the user's id and username and the given role and joined_at |
| ApiViews.MemberUsersExist | scrum_app/api_views.py:75-79 | every member row of the project names an existing user |
| ApiViews.ProjectUsersList | scrum_app/api_views.py:58-89 | 404 for a missing project; otherwise the project's id and name, the owner first with the project's creation time, then one "member" entry per member row in query order with its joined_at |

## Left out

- The models module (models.py) is not part of this model. `Project.is_owner`,
  `Project.is_member`, `full_clean` and the model-level `UserStory.move_to_sprint` and
  `move_to_product_backlog` get the meaning their callers document. `full_clean` is a boolean
  parameter.
- Deleting a project: models.py's cascade is not visible. The model deletes only the project row.
  Membership requires the project to exist, so leftover rows grant nothing.
- UserStoryViews.UserStoryMoveView: the model-level move methods the view calls are given the
  effect of the service moves with a validation that passes.
- MoveUserStoryForm, ProjectForm, UserStoryForm and AddMemberForm are not part of this model, and
  their checks are the `formValid` parameter. The move form's limit to the project's own sprints
  is therefore not modelled: any existing sprint is accepted.
- ProjectMemberViews.ProjectAddMemberView: the user the form returns is required to exist.
  Whatever duplicate or owner check AddMemberForm makes is not modelled, so the one-row-per-pair
  rule is not an invariant of the store.
- UserStoryViews.CreateForProductBacklogView and UserStoryViews.CreateForSprintBacklogView: the
  cleaned form data is required to hold no backlog keys. This is an assumption about
  UserStoryForm: its field list (scrum_app/forms/user_story_forms.py) is not part of this model.
- UserStoryViews.UserStoryUpdateView: rests on the same assumption about UserStoryForm. The
  cleaned data is merged into the story's attributes (`story.attrs + form`), while the two backlog
  references are separate fields of the story, so a form that did carry backlog keys would not
  move the story in this model.
- ProjectService.AfterCreateProject and ProjectService.AfterUpdateProject: the cleaned ProjectForm
  is taken to set exactly a project's name and description. ProjectForm's field list is not part
  of this model.
- The store hands out every primary key from one shared counter `nextId`. Each Django table has
  its own key sequence. Keys are only compared for equality, so only their values differ.
- ProjectMemberService.AfterAddMember: a new member row goes to the end of its project's member
  list. This takes ProjectMember's query order to be insertion order. Its `Meta.ordering` is in
  models.py, which is not part of this model.
- UserStoryService.AfterUpdateUserStory: keyword arguments named `product_backlog` or
  `sprint_backlog` are treated as plain fields. The story's backlog references are not changed
  through them.
- ProjectMemberService.GetPage: the page size must be positive. Paginator behaviour is the
  documented behaviour of Django's `get_page` with no orphans and an empty first page allowed.
  The project list view's pagination of owned projects is not modelled, and the list is a set.
- Request plumbing is left out:
  - `login_required` and sessions; the requester is an existing user;
  - `is_active`;
  - flash messages, template rendering, redirect targets and the text of error responses.
  - A refusal by the member-list view and the user-story views redirects with a message; the model
    gives `Err(Denied)`.
- Database transactions (`transaction.atomic`) and concurrent requests are left out, including
  what two `get_or_create` calls racing each other would do. Each operation is one atomic step.
- The `print` at scrum_app/services/user_story_service.py:22 is output only.
- Not modelled:
  - scrum_app/views/auth.py and scrum_app/services/user_service.py;
  - scrum_app/forms/user_forms.py;
  - the package `__init__` files.
- UserSerializer is modelled as the five fields it lists (`UserEntry`). ProjectSerializer's output
  is represented by the project keys.
- Timestamps (`created_at`, `joined_at`) are integers passed in as `now`.

## Findings

| source | as written | input that shows it | evidently intended | confidence | as-written member | corrected member |
|---|---|---|---|---|---|---|
| scrum_app/views/project.py:37-38 | the list shows `get_user_projects`, which at scrum_app/services/project_service.py:22 filters on owner only | user 1 holds view_project and has a member row for project 2, which user 0 owns; the list is empty | the view's own description: projects where the user is owner or member, as the user-projects API returns them | not executed | ProjectViews.ProjectListOmitsMemberProjects | ProjectViews.ProjectListViewIntended |
