/** The two REST endpoints: a user's projects, and a project's users. */
module ApiViews {
  import opened Wrappers
  import opened Models
  import opened ProjectService
  import opened ProjectMemberService

  // ----- /api/users/<user_id>/projects/ -----

  /** UserProjectsListView.get_queryset: the projects the user owns or'ed with the projects joined
      to one of the user's member rows, without duplicates. */
  function UserProjectsQuery(db: Db, uid: UserId): (r: set<ProjectId>)
    ensures forall p :: p in r <==> p in GetUserProjects(db, uid) || (p in db.projects && HasMemberRow(db.members, p, uid))
  {
    var owned := set p | p in db.projects && db.projects[p].owner == uid;
    var joined := set m | m in db.members && m.user == uid && m.project in db.projects :: m.project;
    assert forall p :: p in joined <==> p in db.projects && HasMemberRow(db.members, p, uid) by {
      forall p | p in db.projects && HasMemberRow(db.members, p, uid) ensures p in joined {
        var i :| 0 <= i < |db.members| && db.members[i].project == p && db.members[i].user == uid;
        assert db.members[i] in db.members;
      }
    }
    owned + joined
  }

  /** The union is exactly the projects the user belongs to. */
  lemma UserProjectsAreMemberships(db: Db, uid: UserId, p: ProjectId)
    ensures p in UserProjectsQuery(db, uid) <==> IsMember(db, p, uid)
  {
  }

  /** UserProjectsListView.list: 404 for a user id that does not exist, else the query's projects. */
  function UserProjectsList(db: Db, uid: UserId): (r: Result<set<ProjectId>>)
    ensures r.Err? <==> uid !in db.users
    ensures r.Err? ==> r.error == NotFound
    ensures r.Ok? ==> forall p :: p in r.value <==> IsMember(db, p, uid)
  {
    if uid !in db.users then Err(NotFound) else Ok(UserProjectsQuery(db, uid))
  }

  // ----- /api/projects/<project_id>/users/ -----

  datatype Role = Owner | Member

  /** A user as UserSerializer writes it, with the role and joined_at keys the view adds. */
  datatype UserEntry = UserEntry(
    id: UserId, username: string, email: string, firstName: string, lastName: string,
    role: Role, joinedAt: int)

  datatype ProjectUsers = ProjectUsers(projectId: ProjectId, projectName: string, users: seq<UserEntry>)

  function UserData(db: Db, uid: UserId, role: Role, joinedAt: int): (r: UserEntry)
    requires uid in db.users
    ensures r.id == uid && r.username == db.users[uid].username && r.role == role && r.joinedAt == joinedAt
  {
    var u := db.users[uid];
    UserEntry(uid, u.username, u.email, u.firstName, u.lastName, role, joinedAt)
  }

  /** Every row of a project's member list names a user of the store. */
  lemma MemberUsersExist(db: Db, p: ProjectId)
    requires MembersOk(db)
    ensures forall i :: 0 <= i < |MembersOf(db.members, p)| ==> MembersOf(db.members, p)[i].user in db.users
  {
    forall i | 0 <= i < |MembersOf(db.members, p)| ensures MembersOf(db.members, p)[i].user in db.users {
      var m := MembersOf(db.members, p)[i];
      assert m in MembersOf(db.members, p);
      var j :| 0 <= j < |db.members| && db.members[j] == m;
    }
  }

  /** ProjectUsersListView.get: 404 for a project that does not exist; otherwise the owner first,
      tagged "owner" and joined when the project was created, then one entry per member row in
      query order, tagged "member" with the row's joined_at. */
  method ProjectUsersList(store: Store, pid: ProjectId) returns (r: Result<ProjectUsers>)
    requires store.Valid()
    ensures pid !in store.projects ==> r == Err(NotFound)
    ensures pid in store.projects ==>
      && r.Ok? && r.value.projectId == pid && r.value.projectName == store.projects[pid].name
      && |r.value.users| == 1 + |MembersOf(store.members, pid)|
      && r.value.users[0] == UserData(store.State(), store.projects[pid].owner, Owner, store.projects[pid].createdAt)
    ensures pid in store.projects ==>
      forall i :: 0 <= i < |MembersOf(store.members, pid)| ==>
        MembersOf(store.members, pid)[i].user in store.users &&
        r.value.users[i + 1] ==
          UserData(store.State(), MembersOf(store.members, pid)[i].user, Member, MembersOf(store.members, pid)[i].joinedAt)
  {
    if pid !in store.projects {
      return Err(NotFound);
    }
    var db := store.State();
    var project := store.projects[pid];
    var ownerData := UserData(db, project.owner, Owner, project.createdAt);
    var members := MembersOf(store.members, pid);
    MemberUsersExist(db, pid);
    var membersData: seq<UserEntry> := [];
    var i := 0;
    while i < |members|
      invariant 0 <= i <= |members|
      invariant |membersData| == i
      invariant forall k :: 0 <= k < i ==> membersData[k] == UserData(db, members[k].user, Member, members[k].joinedAt)
    {
      var member := members[i];
      membersData := membersData + [UserData(db, member.user, Member, member.joinedAt)];
      i := i + 1;
    }
    r := Ok(ProjectUsers(pid, project.name, [ownerData] + membersData));
  }
}
