/** The member-management views: the member list, and the owner-only add and remove handlers. */
module ProjectMemberViews {
  import opened Wrappers
  import opened Models
  import opened ProjectService
  import opened ProjectMemberService

  /** project_members_view: 404, then the access check (a refusal redirects with an error
      message); the page of members and whether the requester owns the project. */
  function ProjectMembersView(db: Db, pk: ProjectId, u: UserId, number: Option<int>): (r: Result<(Page<ProjectMember>, bool)>)
    ensures pk !in db.projects ==> r == Err(NotFound)
    ensures pk in db.projects && !IsMember(db, pk, u) ==> r == Err(Denied)
    ensures r.Ok? <==> IsMember(db, pk, u)
    ensures r.Ok? ==> r.value.0 == GetProjectMembersPage(db, pk, number, DefaultPerPage)
    ensures r.Ok? ==> (r.value.1 <==> IsOwner(db.projects[pk], u))
  {
    if pk !in db.projects then Err(NotFound)
    else if !CheckProjectAccess(db, pk, u) then Err(Denied)
    else Ok((GetProjectMembersPage(db, pk, number, DefaultPerPage), IsOwner(db.projects[pk], u)))
  }

  /** project_add_member_view's refusal: `get_object_or_404(Project, pk=pk, owner=user)`, so
      anyone but the owner gets a 404, as for a project that does not exist. */
  function AddMemberRefusal(db: Db, pk: ProjectId, u: UserId): (r: Option<Error>)
    ensures r.None? <==> pk in db.projects && IsOwner(db.projects[pk], u)
    ensures r.Some? ==> r.value == NotFound
  {
    match GetProjectById(db, pk, u)
    case Ok(_) => None
    case Err(e) => Some(e)
  }

  /** project_remove_member_view's lookups: the owner-scoped project, then the member row scoped to
      that project; either failing is a 404. */
  function RemoveMemberLookup(db: Db, pk: ProjectId, memberId: MemberId, u: UserId): (r: Result<ProjectMember>)
    ensures r.Ok? ==> pk in db.projects && IsOwner(db.projects[pk], u)
    ensures r.Ok? ==> r.value in db.members && r.value.id == memberId && r.value.project == pk
    ensures !(pk in db.projects && IsOwner(db.projects[pk], u)) ==> r == Err(NotFound)
    ensures r.Err? ==> r.error == NotFound
  {
    match GetProjectById(db, pk, u)
    case Err(e) => Err(e)
    case Ok(_) => GetProjectMember(db, memberId, pk)
  }

  /** The owner finds every row of their project, and a member key of another project is not
      found even by the owner. */
  lemma RemoveMemberLookupScoped(db: Db, pk: ProjectId, memberId: MemberId, u: UserId)
    requires MembersOk(db) && pk in db.projects && IsOwner(db.projects[pk], u)
    ensures RemoveMemberLookup(db, pk, memberId, u).Ok? <==>
      exists i :: 0 <= i < |db.members| && db.members[i].id == memberId && db.members[i].project == pk
  {
    GetProjectMemberScoped(db, memberId, pk);
  }

  /** project_add_member_view: on a valid POST the form's user gets a member row. The form is
      built for this project; what it checks is not part of this model. */
  method ProjectAddMemberView(store: Store, pk: ProjectId, u: UserId, isPost: bool, formValid: bool,
                              newMember: UserId, now: int) returns (r: Result<Outcome>)
    requires store.Valid()
    requires isPost && formValid ==> newMember in store.users
    modifies store
    ensures store.Valid()
    ensures AddMemberRefusal(old(store.State()), pk, u).Some? ==>
      r == Err(NotFound) && store.State() == old(store.State())
    ensures AddMemberRefusal(old(store.State()), pk, u).None? && !(isPost && formValid) ==>
      r == Ok(Shown) && store.State() == old(store.State())
    ensures AddMemberRefusal(old(store.State()), pk, u).None? && isPost && formValid ==>
      r == Ok(Done) && store.State() == AfterAddMember(old(store.State()), pk, newMember, now).0
  {
    var refusal := AddMemberRefusal(store.State(), pk, u);
    if refusal.Some? {
      return Err(refusal.value);
    }
    if isPost && formValid {
      var _ := AddMemberToProject(store, pk, newMember, now);
      return Ok(Done);
    }
    return Ok(Shown);
  }

  /** project_remove_member_view: after the two scoped lookups, a POST deletes the member row. */
  method ProjectRemoveMemberView(store: Store, pk: ProjectId, memberId: MemberId, u: UserId, isPost: bool)
    returns (r: Result<Outcome>)
    requires store.Valid()
    modifies store
    ensures store.Valid()
    ensures RemoveMemberLookup(old(store.State()), pk, memberId, u).Err? ==>
      r == Err(NotFound) && store.State() == old(store.State())
    ensures RemoveMemberLookup(old(store.State()), pk, memberId, u).Ok? && !isPost ==>
      r == Ok(Shown) && store.State() == old(store.State())
    ensures RemoveMemberLookup(old(store.State()), pk, memberId, u).Ok? && isPost ==>
      r == Ok(Done) &&
      store.State() == AfterRemoveMember(old(store.State()), RemoveMemberLookup(old(store.State()), pk, memberId, u).value).0
  {
    var found := RemoveMemberLookup(store.State(), pk, memberId, u);
    if found.Err? {
      return Err(found.error);
    }
    if isPost {
      var m := found.value;
      assert m.user in store.users by {
        var i :| 0 <= i < |store.members| && store.members[i] == m;
      }
      var _ := RemoveMemberFromProject(store, m);
      return Ok(Done);
    }
    return Ok(Shown);
  }
}
