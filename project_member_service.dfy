/** ProjectMemberService: the member table's two queries (a page of a project's members, one member
    looked up within its project) and its two updates (add a row, remove a row). */
module ProjectMemberService {
  import opened Wrappers
  import opened Models

  /** get_project_members_page's default page size. */
  const DefaultPerPage: nat := 10

  // ----- Queries -----

  /** `project.members.all()`: the project's member rows, in query order. */
  function MembersOf(rows: seq<ProjectMember>, p: ProjectId): (r: seq<ProjectMember>)
    ensures |r| <= |rows|
    ensures forall m :: m in r <==> m in rows && m.project == p
    decreases |rows|
  {
    if rows == [] then []
    else if rows[0].project == p then [rows[0]] + MembersOf(rows[1..], p)
    else MembersOf(rows[1..], p)
  }

  lemma {:induction false} MembersOfAppend(rows: seq<ProjectMember>, m: ProjectMember, p: ProjectId)
    ensures MembersOf(rows + [m], p) == MembersOf(rows, p) + (if m.project == p then [m] else [])
    decreases |rows|
  {
    if rows == [] {
      assert [m][1..] == [];
    } else {
      assert (rows + [m])[1..] == rows[1..] + [m];
      MembersOfAppend(rows[1..], m, p);
    }
  }

  /** One page of a list as Django's Paginator.get_page serves it: the page number, the number of
      pages and the page's items. */
  datatype Page<T> = Page(number: nat, numPages: nat, items: seq<T>)

  /** Paginator.num_pages with no orphans and an allowed empty first page. */
  function NumPages(count: nat, perPage: nat): (r: nat)
    requires perPage > 0
    ensures r >= 1
    ensures count <= r * perPage
    ensures r == 1 || (r - 1) * perPage < count
  {
    if count == 0 then 1
    else
      var r := (count + perPage - 1) / perPage;
      DivBounds(count + perPage - 1, perPage);
      r
  }

  /** `q = n / d` satisfies `q * d <= n < q * d + d`. */
  lemma DivBounds(n: nat, d: nat)
    requires d > 0
    ensures (n / d) * d <= n < (n / d) * d + d
    ensures (n / d - 1) * d == (n / d) * d - d
  {
  }

  lemma MulMonotone(a: nat, b: nat, c: nat)
    requires a <= b
    ensures a * c <= b * c
  {
  }

  /** The page Paginator.get_page serves for a requested number: `None` stands for a page parameter
      that is missing or not an integer, which is served page 1; an integer out of range is served
      the last page. */
  function ServedPage(number: Option<int>, numPages: nat): (r: nat)
    requires numPages >= 1
    ensures 1 <= r <= numPages
    ensures number.None? ==> r == 1
    ensures number.Some? && 1 <= number.value <= numPages ==> r == number.value
    ensures number.Some? && !(1 <= number.value <= numPages) ==> r == numPages
  {
    if number.None? then 1 else if 1 <= number.value <= numPages then number.value else numPages
  }

  /** The index of the first item on page `number`. */
  function PageStart(number: nat, perPage: nat): nat
    requires number >= 1
  {
    (number - 1) * perPage
  }

  /** The items on page `number`: the next `perPage` items from the page's start, or as many as
      are left. */
  function PageItems<T>(all: seq<T>, number: nat, perPage: nat): (r: seq<T>)
    requires perPage > 0 && 1 <= number <= NumPages(|all|, perPage)
    ensures |r| <= perPage
    ensures PageStart(number, perPage) + |r| <= |all|
    ensures forall k :: 0 <= k < |r| ==> r[k] == all[PageStart(number, perPage) + k]
    ensures |r| == perPage || PageStart(number, perPage) + |r| == |all|
  {
    var bottom := PageStart(number, perPage);
    assert bottom <= |all| by {
      MulMonotone(number - 1, NumPages(|all|, perPage) - 1, perPage);
    }
    var top := if bottom + perPage <= |all| then bottom + perPage else |all|;
    all[bottom..top]
  }

  /** Paginator(all, perPage).get_page(number). */
  function GetPage<T>(all: seq<T>, number: Option<int>, perPage: nat): (r: Page<T>)
    requires perPage > 0
    ensures r.numPages == NumPages(|all|, perPage)
    ensures r.number == ServedPage(number, r.numPages)
    ensures r.items == PageItems(all, r.number, perPage)
  {
    var n := NumPages(|all|, perPage);
    var served := ServedPage(number, n);
    Page(served, n, PageItems(all, served, perPage))
  }

  /** get_project_members_page: one page of the project's members. */
  function GetProjectMembersPage(db: Db, p: ProjectId, number: Option<int>, perPage: nat): (r: Page<ProjectMember>)
    requires perPage > 0
    ensures |r.items| <= perPage
    ensures forall m :: m in r.items ==> m in db.members && m.project == p
  {
    GetPage(MembersOf(db.members, p), number, perPage)
  }

  /** Each item of a list is on page `i / perPage + 1`, at position `i % perPage`. */
  lemma ItemOnItsPage<T>(all: seq<T>, perPage: nat, i: nat)
    requires perPage > 0 && i < |all|
    ensures var pg := GetPage(all, Some(i / perPage + 1), perPage);
      pg.number == i / perPage + 1 && i % perPage < |pg.items| && pg.items[i % perPage] == all[i]
  {
    var n := NumPages(|all|, perPage);
    var q := i / perPage;
    DivBounds(i, perPage);
    if q + 1 > n {
      MulMonotone(n, q, perPage);
      assert false;
    }
    assert PageStart(q + 1, perPage) + i % perPage == i;
  }

  /** Every member of a project shows up on some page of its member list, at the place its row
      has in query order. */
  lemma MemberOnSomePage(db: Db, p: ProjectId, i: nat)
    requires i < |MembersOf(db.members, p)|
    ensures var pg := GetProjectMembersPage(db, p, Some(i / DefaultPerPage + 1), DefaultPerPage);
      i % DefaultPerPage < |pg.items| && pg.items[i % DefaultPerPage] == MembersOf(db.members, p)[i]
  {
    ItemOnItsPage(MembersOf(db.members, p), DefaultPerPage, i);
  }

  /** The first row with primary key `id`. */
  function MemberById(rows: seq<ProjectMember>, id: MemberId): (r: Option<ProjectMember>)
    ensures r.Some? ==> r.value in rows && r.value.id == id
    ensures r.None? <==> forall i :: 0 <= i < |rows| ==> rows[i].id != id
    decreases |rows|
  {
    if rows == [] then None
    else if rows[0].id == id then Some(rows[0])
    else MemberById(rows[1..], id)
  }

  /** get_project_member: `ProjectMember.objects.get(pk=id, project=p)`; NotFound stands for
      DoesNotExist. */
  function GetProjectMember(db: Db, id: MemberId, p: ProjectId): (r: Result<ProjectMember>)
    ensures r.Ok? ==> r.value in db.members && r.value.id == id && r.value.project == p
    ensures r.Err? ==> r.error == NotFound
  {
    match MemberById(db.members, id)
    case None => Err(NotFound)
    case Some(m) => if m.project == p then Ok(m) else Err(NotFound)
  }

  /** With distinct keys the lookup succeeds exactly when the row with that key belongs to `p`: a
      key that exists in another project is not found. */
  lemma GetProjectMemberScoped(db: Db, id: MemberId, p: ProjectId)
    requires MembersOk(db)
    ensures GetProjectMember(db, id, p).Ok? <==>
      exists i :: 0 <= i < |db.members| && db.members[i].id == id && db.members[i].project == p
  {
    var r := GetProjectMember(db, id, p);
    if i :| 0 <= i < |db.members| && db.members[i].id == id && db.members[i].project == p {
      var m := MemberById(db.members, id).value;
      var j :| 0 <= j < |db.members| && db.members[j] == m;
      assert i == j by {
        if i < j {} else if j < i {}
      }
    }
  }

  // ----- Updates -----

  /** The rows whose primary key is not `id`, in their order. */
  function RemoveById(rows: seq<ProjectMember>, id: MemberId): (r: seq<ProjectMember>)
    ensures |r| <= |rows|
    ensures forall x :: x in r <==> x in rows && x.id != id
    decreases |rows|
  {
    if rows == [] then []
    else if rows[0].id == id then RemoveById(rows[1..], id)
    else [rows[0]] + RemoveById(rows[1..], id)
  }

  lemma {:induction false} RemoveByIdAbsent(rows: seq<ProjectMember>, id: MemberId)
    requires forall i :: 0 <= i < |rows| ==> rows[i].id != id
    ensures RemoveById(rows, id) == rows
    decreases |rows|
  {
    if rows != [] {
      RemoveByIdAbsent(rows[1..], id);
    }
  }

  lemma {:induction false} RemoveByIdAppend(rows: seq<ProjectMember>, m: ProjectMember)
    requires forall i :: 0 <= i < |rows| ==> rows[i].id != m.id
    ensures RemoveById(rows + [m], m.id) == rows
    decreases |rows|
  {
    if rows == [] {
      assert [m][1..] == [];
    } else {
      assert (rows + [m])[1..] == rows[1..] + [m];
      RemoveByIdAppend(rows[1..], m);
    }
  }

  /** With distinct keys, removing an existing key removes exactly one row. */
  lemma {:induction false} RemoveByIdOne(rows: seq<ProjectMember>, k: nat)
    requires k < |rows|
    requires forall i, j :: 0 <= i < j < |rows| ==> rows[i].id != rows[j].id
    ensures |RemoveById(rows, rows[k].id)| == |rows| - 1
    decreases |rows|
  {
    if k == 0 {
      RemoveByIdAbsent(rows[1..], rows[0].id);
    } else {
      RemoveByIdOne(rows[1..], k - 1);
    }
  }

  /** add_member_to_project: `ProjectMember.objects.create(project=p, user=u)`. A new row under the
      next key, joined now, goes to the end of the table; there is no check for an existing row
      linking the same user to the same project. */
  function AfterAddMember(db: Db, p: ProjectId, u: UserId, now: int): (r: (Db, ProjectMember))
    ensures r.1.project == p && r.1.user == u && r.1.joinedAt == now && r.1.id == db.nextId
    ensures MembersOf(r.0.members, p) == MembersOf(db.members, p) + [r.1]
    ensures |MembersOf(r.0.members, p)| == |MembersOf(db.members, p)| + 1
    ensures forall x :: x in db.members ==> x in r.0.members
    ensures p in db.projects ==> IsMember(r.0, p, u)
    ensures r.0.(members := db.members, nextId := db.nextId) == db
  {
    var m := ProjectMember(db.nextId, p, u, now);
    MembersOfAppend(db.members, m, p);
    (db.(members := db.members + [m], nextId := db.nextId + 1), m)
  }

  /** The other projects' member lists do not change when a member is added to `p`. */
  lemma AddMemberLeavesOtherProjects(db: Db, p: ProjectId, u: UserId, now: int, q: ProjectId)
    requires q != p
    ensures MembersOf(AfterAddMember(db, p, u, now).0.members, q) == MembersOf(db.members, q)
  {
    MembersOfAppend(db.members, AfterAddMember(db, p, u, now).1, q);
  }

  /** remove_member_from_project: the row with m's key is deleted and the username of m's user is
      returned; every other row stays, in its order. */
  function AfterRemoveMember(db: Db, m: ProjectMember): (r: (Db, string))
    requires m.user in db.users
    ensures r.1 == db.users[m.user].username
    ensures forall x :: x in r.0.members <==> x in db.members && x.id != m.id
    ensures r.0.(members := db.members) == db
  {
    (db.(members := RemoveById(db.members, m.id)), db.users[m.user].username)
  }

  /** Removing by key commutes with taking a project's member list, so every project's list
      keeps its remaining rows in their order. */
  lemma {:induction false} MembersOfRemoveById(rows: seq<ProjectMember>, id: MemberId, q: ProjectId)
    ensures MembersOf(RemoveById(rows, id), q) == RemoveById(MembersOf(rows, q), id)
    decreases |rows|
  {
    if rows != [] {
      var t := rows[1..];
      MembersOfRemoveById(t, id, q);
      if rows[0].project == q {
        assert MembersOf(rows, q) == [rows[0]] + MembersOf(t, q);
        assert ([rows[0]] + MembersOf(t, q))[1..] == MembersOf(t, q);
      }
      if rows[0].id != id {
        assert RemoveById(rows, id) == [rows[0]] + RemoveById(t, id);
        assert ([rows[0]] + RemoveById(t, id))[1..] == RemoveById(t, id);
      }
    }
  }

  /** Removing a member row leaves every other project's member list as it was, in its order. */
  lemma RemoveMemberLeavesOtherProjects(db: Db, m: ProjectMember, q: ProjectId)
    requires MembersOk(db) && m in db.members && m.user in db.users && q != m.project
    ensures MembersOf(AfterRemoveMember(db, m).0.members, q) == MembersOf(db.members, q)
  {
    MembersOfRemoveById(db.members, m.id, q);
    var k :| 0 <= k < |db.members| && db.members[k] == m;
    var list := MembersOf(db.members, q);
    forall i | 0 <= i < |list| ensures list[i].id != m.id {
      assert list[i] in list;
      var j :| 0 <= j < |db.members| && db.members[j] == list[i];
      assert j != k;
    }
    RemoveByIdAbsent(list, m.id);
  }

  /** Removing a row that is in the table shortens the table by exactly one row. */
  lemma RemoveMemberRemovesOne(db: Db, m: ProjectMember)
    requires MembersOk(db) && m in db.members && m.user in db.users
    ensures |AfterRemoveMember(db, m).0.members| == |db.members| - 1
  {
    var k :| 0 <= k < |db.members| && db.members[k] == m;
    RemoveByIdOne(db.members, k);
  }

  /** Removing a user's only row for a project they do not own takes away their membership. */
  lemma RemoveMemberRevokesMembership(db: Db, m: ProjectMember)
    requires m.user in db.users && m.project in db.projects && !IsOwner(db.projects[m.project], m.user)
    requires forall x :: x in db.members && x.project == m.project && x.user == m.user ==> x.id == m.id
    ensures !IsMember(AfterRemoveMember(db, m).0, m.project, m.user)
  {
  }

  /** Removing the row just added gives the member table back as it was. */
  lemma AddThenRemoveRestoresMembers(db: Db, p: ProjectId, u: UserId, now: int)
    requires MembersOk(db) && u in db.users
    ensures var (db1, m) := AfterAddMember(db, p, u, now);
      AfterRemoveMember(db1, m).0.members == db.members
  {
    var (db1, m) := AfterAddMember(db, p, u, now);
    RemoveByIdAppend(db.members, m);
  }

  lemma AddMemberKeepsConsistent(db: Db, p: ProjectId, u: UserId, now: int)
    requires Consistent(db) && p in db.projects && u in db.users
    ensures Consistent(AfterAddMember(db, p, u, now).0)
  {
    var db' := AfterAddMember(db, p, u, now).0;
    forall s | s in db'.stories ensures Placed(db', db'.stories[s]) {
      assert Placed(db, db.stories[s]);
    }
  }

  lemma RemoveMemberKeepsConsistent(db: Db, m: ProjectMember)
    requires Consistent(db) && m.user in db.users
    ensures Consistent(AfterRemoveMember(db, m).0)
  {
    var db' := AfterRemoveMember(db, m).0;
    forall i | 0 <= i < |db'.members|
      ensures db'.members[i].id < db'.nextId && db'.members[i].project < db'.nextId && db'.members[i].user in db'.users
    {
      assert db'.members[i] in db.members;
    }
    RemoveByIdKeepsDistinct(db.members, m.id);
    forall s | s in db'.stories ensures Placed(db', db'.stories[s]) {
      assert Placed(db, db.stories[s]);
    }
  }

  lemma {:induction false} RemoveByIdKeepsDistinct(rows: seq<ProjectMember>, id: MemberId)
    requires DistinctMemberIds(rows)
    ensures DistinctMemberIds(RemoveById(rows, id))
    decreases |rows|
  {
    if rows != [] {
      var tail := RemoveById(rows[1..], id);
      RemoveByIdKeepsDistinct(rows[1..], id);
      if rows[0].id != id {
        var r := [rows[0]] + tail;
        forall i, j | 0 <= i < j < |r| ensures r[i].id != r[j].id {
          if i == 0 {
            assert r[j] == tail[j - 1] && tail[j - 1] in rows[1..];
          } else {
            assert r[i] == tail[i - 1] && r[j] == tail[j - 1];
          }
        }
      }
    }
  }

  // ----- The service, on the store object -----

  method AddMemberToProject(store: Store, p: ProjectId, u: UserId, now: int) returns (m: ProjectMember)
    requires store.Valid() && p in store.projects && u in store.users
    modifies store
    ensures store.Valid()
    ensures store.State() == AfterAddMember(old(store.State()), p, u, now).0
    ensures m == AfterAddMember(old(store.State()), p, u, now).1
  {
    ghost var db0 := store.State();
    AddMemberKeepsConsistent(db0, p, u, now);
    m := ProjectMember(store.nextId, p, u, now);
    store.members := store.members + [m];
    store.nextId := store.nextId + 1;
    assert store.State() == AfterAddMember(db0, p, u, now).0;
  }

  method RemoveMemberFromProject(store: Store, m: ProjectMember) returns (username: string)
    requires store.Valid() && m.user in store.users
    modifies store
    ensures store.Valid()
    ensures store.State() == AfterRemoveMember(old(store.State()), m).0
    ensures username == AfterRemoveMember(old(store.State()), m).1
  {
    RemoveMemberKeepsConsistent(store.State(), m);
    username := store.users[m.user].username;
    store.members := RemoveById(store.members, m.id);
  }
}
