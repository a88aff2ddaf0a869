/** The project views: the two permission gates, the list and detail pages, and the create,
    update and delete handlers. The requester is a logged-in user `u`; `isPost` says whether the
    request is a POST and `formValid` whether ProjectForm validated the submitted data. */
module ProjectViews {
  import opened Wrappers
  import opened Models
  import opened ProjectService
  import opened ApiViews

  const ViewProject := "scrum_app.view_project"
  const AddProject := "scrum_app.add_project"
  const ChangeProject := "scrum_app.change_project"

  // ----- The gates -----

  /** _require_project_member: PermissionDenied unless the user belongs to the project. */
  function RequireProjectMember(db: Db, p: ProjectId, u: UserId): (r: Option<Error>)
    requires p in db.projects
    ensures r.None? <==> IsMember(db, p, u)
    ensures r.Some? ==> r.value == Denied
  {
    if IsMember(db, p, u) then None else Some(Denied)
  }

  /** _require_project_editor: the owner passes, and so does anyone in the "editor" group. */
  function RequireProjectEditor(db: Db, p: ProjectId, u: UserId): (r: Option<Error>)
    requires p in db.projects && u in db.users
    ensures r.None? <==> IsOwner(db.projects[p], u) || InEditorGroup(db.users[u])
    ensures r.Some? ==> r.value == Denied
  {
    if IsOwner(db.projects[p], u) then None
    else if InEditorGroup(db.users[u]) then None
    else Some(Denied)
  }

  /** The editor gate has no superuser clause and does not look at membership: a superuser who
      neither owns the project nor is an editor is refused, and an editor passes whether or not
      they belong to the project. */
  lemma EditorGateIgnoresSuperuserAndMembership(db: Db, p: ProjectId, u: UserId)
    requires p in db.projects && u in db.users
    ensures db.users[u].isSuperuser && !IsOwner(db.projects[p], u) && !InEditorGroup(db.users[u]) ==>
      RequireProjectEditor(db, p, u) == Some(Denied)
    ensures InEditorGroup(db.users[u]) ==> RequireProjectEditor(db, p, u).None?
  {
  }

  // ----- Pages that change nothing -----

  /** project_list_view: the view_project permission, then the requester's owned projects. */
  function ProjectListView(db: Db, u: UserId): (r: Result<set<ProjectId>>)
    requires u in db.users
    ensures r.Err? <==> !HasPerm(db.users[u], ViewProject)
    ensures r.Err? ==> r.error == Denied
    ensures r.Ok? ==> forall p :: p in r.value <==> p in db.projects && IsOwner(db.projects[p], u)
  {
    if !HasPerm(db.users[u], ViewProject) then Err(Denied) else Ok(GetUserProjects(db, u))
  }

  /** As written, the list leaves out a project its user belongs to only through a member row:
      user 1 is a member of user 0's project 2 and holds view_project, and the list is empty. */
  lemma ProjectListOmitsMemberProjects()
    ensures var u0 := User("owner", "", "", "", false, {}, {});
      var u1 := User("member", "", "", "", false, {}, {ViewProject});
      var db := Db(map[0 := u0, 1 := u1], map[2 := Project("P", "", 0, 0)], [ProjectMember(3, 2, 1, 0)],
                   [], map[], [], map[], 4);
      IsMember(db, 2, 1) && ProjectListView(db, 1) == Ok({})
  {
    var u0 := User("owner", "", "", "", false, {}, {});
    var u1 := User("member", "", "", "", false, {}, {ViewProject});
    var db := Db(map[0 := u0, 1 := u1], map[2 := Project("P", "", 0, 0)], [ProjectMember(3, 2, 1, 0)],
                 [], map[], [], map[], 4);
    assert db.members[0].project == 2 && db.members[0].user == 1;
    assert GetUserProjects(db, 1) == {};
  }

  /** The list the view's own description promises: the projects the user owns or is a member
      of, as the user-projects endpoint returns them. */
  function ProjectListViewIntended(db: Db, u: UserId): (r: Result<set<ProjectId>>)
    requires u in db.users
    ensures r.Err? <==> !HasPerm(db.users[u], ViewProject)
    ensures r.Err? ==> r.error == Denied
    ensures r.Ok? ==> forall p :: p in r.value <==> IsMember(db, p, u)
  {
    if !HasPerm(db.users[u], ViewProject) then Err(Denied) else Ok(UserProjectsQuery(db, u))
  }

  /** project_detail_view: the view_project permission, then 404, then the member gate; the page's
      `can_manage` flag is owner-or-editor. */
  function ProjectDetailView(db: Db, pk: ProjectId, u: UserId): (r: Result<bool>)
    requires u in db.users
    ensures !HasPerm(db.users[u], ViewProject) ==> r == Err(Denied)
    ensures HasPerm(db.users[u], ViewProject) && pk !in db.projects ==> r == Err(NotFound)
    ensures HasPerm(db.users[u], ViewProject) && pk in db.projects && !IsMember(db, pk, u) ==> r == Err(Denied)
    ensures r.Ok? <==> HasPerm(db.users[u], ViewProject) && IsMember(db, pk, u)
    ensures r.Ok? ==> (r.value <==> IsOwner(db.projects[pk], u) || InEditorGroup(db.users[u]))
  {
    if !HasPerm(db.users[u], ViewProject) then Err(Denied)
    else if pk !in db.projects then Err(NotFound)
    else match RequireProjectMember(db, pk, u)
      case Some(e) => Err(e)
      case None => Ok(IsOwner(db.projects[pk], u) || InEditorGroup(db.users[u]))
  }

  // ----- Refusals of the handlers that change state -----

  /** project_update_view's refusals, in order: the change_project permission, 404, the member
      gate, then the editor gate. */
  function UpdateRefusal(db: Db, pk: ProjectId, u: UserId): (r: Option<Error>)
    requires u in db.users
    ensures r.None? <==>
      HasPerm(db.users[u], ChangeProject) && IsMember(db, pk, u)
      && (IsOwner(db.projects[pk], u) || InEditorGroup(db.users[u]))
    ensures HasPerm(db.users[u], ChangeProject) && pk !in db.projects ==> r == Some(NotFound)
    ensures r.Some? && r.value != NotFound ==> r.value == Denied
  {
    if !HasPerm(db.users[u], ChangeProject) then Some(Denied)
    else if pk !in db.projects then Some(NotFound)
    else if RequireProjectMember(db, pk, u).Some? then RequireProjectMember(db, pk, u)
    else RequireProjectEditor(db, pk, u)
  }

  /** The member gate runs first: an editor who does not belong to the project is refused. */
  lemma NonMemberEditorCannotUpdate(db: Db, pk: ProjectId, u: UserId)
    requires u in db.users && pk in db.projects && HasPerm(db.users[u], ChangeProject)
    requires InEditorGroup(db.users[u]) && !IsMember(db, pk, u)
    ensures UpdateRefusal(db, pk, u) == Some(Denied)
  {
  }

  /** project_delete_view's refusals: 404, then owner-or-superuser. No model permission is
      asked for. */
  function DeleteRefusal(db: Db, pk: ProjectId, u: UserId): (r: Option<Error>)
    requires u in db.users
    ensures r.None? <==> pk in db.projects && (IsOwner(db.projects[pk], u) || db.users[u].isSuperuser)
    ensures pk !in db.projects ==> r == Some(NotFound)
    ensures pk in db.projects && r.Some? ==> r == Some(Denied)
  {
    if pk !in db.projects then Some(NotFound)
    else if !(IsOwner(db.projects[pk], u) || db.users[u].isSuperuser) then Some(Denied)
    else None
  }

  /** The two rules differ for a superuser: one who belongs to a project but neither owns it nor is
      an editor may delete it but not edit it. */
  lemma SuperuserMayDeleteButNotEdit(db: Db, pk: ProjectId, u: UserId)
    requires u in db.users && pk in db.projects && db.users[u].isSuperuser
    requires !IsOwner(db.projects[pk], u) && !InEditorGroup(db.users[u])
    ensures DeleteRefusal(db, pk, u).None?
    ensures UpdateRefusal(db, pk, u) == Some(Denied)
  {
  }

  // ----- The handlers that change state -----

  /** project_create_view: the add_project permission; on a valid POST the project is created with
      the requester as its owner. */
  method ProjectCreateView(store: Store, u: UserId, isPost: bool, formValid: bool,
                           name: string, description: string, now: int) returns (r: Result<Outcome>)
    requires store.Valid() && u in store.users
    modifies store
    ensures store.Valid()
    ensures !HasPerm(old(store.users[u]), AddProject) ==> r == Err(Denied) && store.State() == old(store.State())
    ensures HasPerm(old(store.users[u]), AddProject) && !(isPost && formValid) ==>
      r == Ok(Shown) && store.State() == old(store.State())
    ensures HasPerm(old(store.users[u]), AddProject) && isPost && formValid ==>
      r == Ok(Done) && store.State() == AfterCreateProject(old(store.State()), name, description, u, now).0
  {
    if !HasPerm(store.users[u], AddProject) {
      return Err(Denied);
    }
    if isPost && formValid {
      var _ := CreateProject(store, name, description, u, now);
      return Ok(Done);
    }
    return Ok(Shown);
  }

  /** project_update_view: after the refusals, a valid POST writes the name and description. */
  method ProjectUpdateView(store: Store, pk: ProjectId, u: UserId, isPost: bool, formValid: bool,
                           name: string, description: string) returns (r: Result<Outcome>)
    requires store.Valid() && u in store.users
    modifies store
    ensures store.Valid()
    ensures UpdateRefusal(old(store.State()), pk, u).Some? ==>
      r == Err(UpdateRefusal(old(store.State()), pk, u).value) && store.State() == old(store.State())
    ensures UpdateRefusal(old(store.State()), pk, u).None? && !(isPost && formValid) ==>
      r == Ok(Shown) && store.State() == old(store.State())
    ensures UpdateRefusal(old(store.State()), pk, u).None? && isPost && formValid ==>
      r == Ok(Done) && store.State() == AfterUpdateProject(old(store.State()), pk, name, description)
  {
    var refusal := UpdateRefusal(store.State(), pk, u);
    if refusal.Some? {
      return Err(refusal.value);
    }
    if isPost && formValid {
      UpdateProject(store, pk, name, description);
      return Ok(Done);
    }
    return Ok(Shown);
  }

  /** project_delete_view: after the refusals, a POST deletes the project. */
  method ProjectDeleteView(store: Store, pk: ProjectId, u: UserId, isPost: bool) returns (r: Result<Outcome>)
    requires store.Valid() && u in store.users
    modifies store
    ensures store.Valid()
    ensures DeleteRefusal(old(store.State()), pk, u).Some? ==>
      r == Err(DeleteRefusal(old(store.State()), pk, u).value) && store.State() == old(store.State())
    ensures DeleteRefusal(old(store.State()), pk, u).None? && !isPost ==>
      r == Ok(Shown) && store.State() == old(store.State())
    ensures DeleteRefusal(old(store.State()), pk, u).None? && isPost ==>
      r == Ok(Done) && store.State() == AfterDeleteProject(old(store.State()), pk).0
  {
    var refusal := DeleteRefusal(store.State(), pk, u);
    if refusal.Some? {
      return Err(refusal.value);
    }
    if isPost {
      var _ := DeleteProject(store, pk);
      return Ok(Done);
    }
    return Ok(Shown);
  }
}
