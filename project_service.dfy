/** ProjectService: a user's owned projects, the owner-scoped lookup, creating, updating and
    deleting a project, and the access check for a project's member list. */
module ProjectService {
  import opened Wrappers
  import opened Models

  // ----- Queries -----

  /** get_user_projects: `Project.objects.filter(owner=user)`, the projects the user owns. */
  function GetUserProjects(db: Db, u: UserId): (r: set<ProjectId>)
    ensures forall p :: p in r <==> p in db.projects && IsOwner(db.projects[p], u)
  {
    set p | p in db.projects && db.projects[p].owner == u
  }

  /** A project the user belongs to only through a member row is not among their projects. */
  lemma MemberOnlyProjectNotListed(db: Db, u: UserId, p: ProjectId)
    requires p in db.projects && HasMemberRow(db.members, p, u) && !IsOwner(db.projects[p], u)
    ensures IsMember(db, p, u) && p !in GetUserProjects(db, u)
  {
  }

  /** get_project_by_id: `Project.objects.get(pk=id, owner=owner)`; NotFound stands for
      DoesNotExist. */
  function GetProjectById(db: Db, id: ProjectId, owner: UserId): (r: Result<Project>)
    ensures r.Ok? <==> id in db.projects && IsOwner(db.projects[id], owner)
    ensures r.Ok? ==> r.value == db.projects[id]
    ensures r.Err? ==> r.error == NotFound
  {
    if id in db.projects && db.projects[id].owner == owner then Ok(db.projects[id]) else Err(NotFound)
  }

  /** The scoped lookup finds exactly the projects the owner-only listing lists. */
  lemma GetProjectByIdAgreesWithListing(db: Db, id: ProjectId, u: UserId)
    ensures GetProjectById(db, id, u).Ok? <==> id in GetUserProjects(db, u)
  {
  }

  /** check_project_access: `project.is_member(user) or project.is_owner(user)`. Since the owner
      is a member, the second test never changes the answer. */
  function CheckProjectAccess(db: Db, p: ProjectId, u: UserId): (r: bool)
    requires p in db.projects
    ensures r <==> IsMember(db, p, u)
    ensures IsOwner(db.projects[p], u) ==> r
  {
    IsMember(db, p, u) || IsOwner(db.projects[p], u)
  }

  // ----- Updates -----

  /** create_project: the form's project gets `owner` as its owner and is saved under the next
      key, created now. */
  function AfterCreateProject(db: Db, name: string, description: string, owner: UserId, now: int): (r: (Db, ProjectId))
    ensures r.1 == db.nextId && r.1 in r.0.projects
    ensures r.0.projects[r.1] == Project(name, description, now, owner)
    ensures forall p :: p in db.projects && p != r.1 ==> p in r.0.projects && r.0.projects[p] == db.projects[p]
    ensures r.0.projects.Keys == db.projects.Keys + {r.1}
    ensures GetProjectById(r.0, r.1, owner) == Ok(Project(name, description, now, owner))
    ensures IsMember(r.0, r.1, owner)
    ensures r.0.(projects := db.projects, nextId := db.nextId) == db
  {
    var id := db.nextId;
    (db.(projects := db.projects[id := Project(name, description, now, owner)], nextId := id + 1), id)
  }

  /** In a consistent store a new project is under a fresh key, and its owner is its only member. */
  lemma CreatedProjectHasOnlyItsOwner(db: Db, name: string, description: string, owner: UserId, now: int, v: UserId)
    requires Consistent(db)
    ensures var (db', id) := AfterCreateProject(db, name, description, owner, now);
      id !in db.projects && (IsMember(db', id, v) <==> v == owner)
  {
  }

  /** update_project: the form writes the project's name and description; its owner and creation
      time stay, and so does every other project. */
  function AfterUpdateProject(db: Db, id: ProjectId, name: string, description: string): (r: Db)
    requires id in db.projects
    ensures r.projects.Keys == db.projects.Keys
    ensures r.projects[id].name == name && r.projects[id].description == description
    ensures r.projects[id].owner == db.projects[id].owner && r.projects[id].createdAt == db.projects[id].createdAt
    ensures forall p :: p in db.projects && p != id ==> r.projects[p] == db.projects[p]
    ensures r.(projects := db.projects) == db
  {
    db.(projects := db.projects[id := db.projects[id].(name := name, description := description)])
  }

  /** Updating a project changes nobody's membership or ownership. */
  lemma UpdateProjectKeepsMembership(db: Db, id: ProjectId, name: string, description: string, p: ProjectId, u: UserId)
    requires id in db.projects
    ensures IsMember(AfterUpdateProject(db, id, name, description), p, u) <==> IsMember(db, p, u)
    ensures GetProjectById(AfterUpdateProject(db, id, name, description), p, u).Ok? <==> GetProjectById(db, p, u).Ok?
  {
  }

  /** delete_project: the project row is deleted and its name returned. */
  function AfterDeleteProject(db: Db, id: ProjectId): (r: (Db, string))
    requires id in db.projects
    ensures r.1 == db.projects[id].name
    ensures id !in r.0.projects
    ensures forall p :: p in db.projects && p != id ==> p in r.0.projects && r.0.projects[p] == db.projects[p]
    ensures r.0.projects.Keys == db.projects.Keys - {id}
    ensures r.0.(projects := db.projects) == db
  {
    (db.(projects := db.projects - {id}), db.projects[id].name)
  }

  /** After the delete nobody, the former owner included, reaches the project. */
  lemma DeletedProjectIsGone(db: Db, id: ProjectId, u: UserId)
    requires id in db.projects
    ensures var db' := AfterDeleteProject(db, id).0;
      !IsMember(db', id, u) && GetProjectById(db', id, u) == Err(NotFound) && id !in GetUserProjects(db', u)
  {
  }

  lemma CreateProjectKeepsConsistent(db: Db, name: string, description: string, owner: UserId, now: int)
    requires Consistent(db) && owner in db.users
    ensures Consistent(AfterCreateProject(db, name, description, owner, now).0)
  {
    var db' := AfterCreateProject(db, name, description, owner, now).0;
    forall s | s in db'.stories ensures Placed(db', db'.stories[s]) {
      assert Placed(db, db.stories[s]);
    }
  }

  lemma UpdateProjectKeepsConsistent(db: Db, id: ProjectId, name: string, description: string)
    requires Consistent(db) && id in db.projects
    ensures Consistent(AfterUpdateProject(db, id, name, description))
  {
    var db' := AfterUpdateProject(db, id, name, description);
    forall s | s in db'.stories ensures Placed(db', db'.stories[s]) {
      assert Placed(db, db.stories[s]);
    }
  }

  lemma DeleteProjectKeepsConsistent(db: Db, id: ProjectId)
    requires Consistent(db) && id in db.projects
    ensures Consistent(AfterDeleteProject(db, id).0)
  {
    var db' := AfterDeleteProject(db, id).0;
    forall s | s in db'.stories ensures Placed(db', db'.stories[s]) {
      assert Placed(db, db.stories[s]);
    }
  }

  // ----- The service, on the store object -----

  method CreateProject(store: Store, name: string, description: string, owner: UserId, now: int) returns (id: ProjectId)
    requires store.Valid() && owner in store.users
    modifies store
    ensures store.Valid()
    ensures store.State() == AfterCreateProject(old(store.State()), name, description, owner, now).0
    ensures id == AfterCreateProject(old(store.State()), name, description, owner, now).1
  {
    ghost var db0 := store.State();
    CreateProjectKeepsConsistent(db0, name, description, owner, now);
    id := store.nextId;
    var project := Project(name, description, now, owner);
    store.projects := store.projects[id := project];
    store.nextId := id + 1;
    assert store.State() == AfterCreateProject(db0, name, description, owner, now).0;
  }

  method UpdateProject(store: Store, id: ProjectId, name: string, description: string)
    requires store.Valid() && id in store.projects
    modifies store
    ensures store.Valid()
    ensures store.State() == AfterUpdateProject(old(store.State()), id, name, description)
  {
    ghost var db0 := store.State();
    UpdateProjectKeepsConsistent(db0, id, name, description);
    var project := store.projects[id].(name := name, description := description);
    store.projects := store.projects[id := project];
    assert store.State() == AfterUpdateProject(db0, id, name, description);
  }

  method DeleteProject(store: Store, id: ProjectId) returns (name: string)
    requires store.Valid() && id in store.projects
    modifies store
    ensures store.Valid()
    ensures store.State() == AfterDeleteProject(old(store.State()), id).0
    ensures name == AfterDeleteProject(old(store.State()), id).1
  {
    ghost var db0 := store.State();
    DeleteProjectKeepsConsistent(db0, id);
    name := store.projects[id].name;
    store.projects := store.projects - {id};
    assert store.State() == AfterDeleteProject(db0, id).0;
  }
}
