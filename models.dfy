/** The records the services read and write, kept as in-memory tables instead of ORM models.

    The model classes themselves (models.py) are not part of this model: their field lists, their
    `Meta` options and the bodies of `Project.is_owner`, `Project.is_member`,
    `UserStory.move_to_sprint`, `UserStory.move_to_product_backlog` and `full_clean` are not
    visible. Ownership and membership are given the meaning the callers document for them;
    `full_clean` and form validation are outcomes passed in by the caller. */
module Models {
  import opened Wrappers

  type UserId = nat
  type ProjectId = nat
  type MemberId = nat
  type SprintId = nat
  type BacklogId = nat
  type StoryId = nat

  /** A user story's own fields (title, description, ...), by name. */
  type Attrs = map<string, string>

  /** A user: the profile fields the API serializes, the superuser flag, the names of the groups
      the user is in, and the model permissions granted to the user or to one of those groups. */
  datatype User = User(
    username: string, email: string, firstName: string, lastName: string,
    isSuperuser: bool, groups: set<string>, permissions: set<string>)

  /** A project has exactly one owner, fixed when it is created. */
  datatype Project = Project(name: string, description: string, createdAt: int, owner: UserId)

  /** A row of the ProjectMember table. The owner is a member without such a row. */
  datatype ProjectMember = ProjectMember(id: MemberId, project: ProjectId, user: UserId, joinedAt: int)

  datatype Sprint = Sprint(name: string, project: ProjectId)

  /** A row of the ProductBacklog table (`parent` is its project) or of the SprintBacklog table
      (`parent` is its sprint). Both tables are one-to-one with their parent. */
  datatype Backlog = Backlog(id: BacklogId, parent: nat)

  /** A user story and its two backlog references; exactly one of them is set in a consistent store. */
  datatype UserStory = UserStory(attrs: Attrs, productBacklog: Option<BacklogId>, sprintBacklog: Option<BacklogId>)

  /** The whole store. Member rows are kept in the order the member queries return them;
      `nextId` is the next primary key the database hands out. */
  datatype Db = Db(
    users: map<UserId, User>,
    projects: map<ProjectId, Project>,
    members: seq<ProjectMember>,
    productBacklogs: seq<Backlog>,
    sprints: map<SprintId, Sprint>,
    sprintBacklogs: seq<Backlog>,
    stories: map<StoryId, UserStory>,
    nextId: nat)

  // ----- Permissions and the abstract Project.is_owner / Project.is_member -----

  /** User.has_perm for an active user: a superuser holds every permission, anyone else the ones
      granted to them or to their groups. */
  predicate HasPerm(u: User, perm: string) {
    u.isSuperuser || perm in u.permissions
  }

  /** `user.groups.filter(name="editor").exists()` */
  predicate InEditorGroup(u: User) {
    "editor" in u.groups
  }

  /** Project.is_owner (body not visible): the user is the project's owner. */
  predicate IsOwner(p: Project, u: UserId) {
    p.owner == u
  }

  /** Some ProjectMember row links project `p` to user `u`. */
  predicate HasMemberRow(rows: seq<ProjectMember>, p: ProjectId, u: UserId) {
    exists i :: 0 <= i < |rows| && rows[i].project == p && rows[i].user == u
  }

  /** Project.is_member (body not visible), with the meaning its callers document: the owner,
      or a user with a ProjectMember row for the project. A project that no longer exists has
      no members. */
  predicate IsMember(db: Db, p: ProjectId, u: UserId): (r: bool)
    ensures p in db.projects && IsOwner(db.projects[p], u) ==> r
    ensures r ==> p in db.projects
  {
    p in db.projects && (IsOwner(db.projects[p], u) || HasMemberRow(db.members, p, u))
  }

  // ----- Lookups -----

  predicate HasBacklog(rows: seq<Backlog>, b: BacklogId) {
    exists i :: 0 <= i < |rows| && rows[i].id == b
  }

  /** The backlog row of parent `x`, as `objects.get(project=x)` / `objects.get(sprint=x)` finds it. */
  function BacklogOf(rows: seq<Backlog>, x: nat): (r: Option<BacklogId>)
    ensures r.Some? ==> exists i :: 0 <= i < |rows| && rows[i] == Backlog(r.value, x)
    ensures r.Some? ==> HasBacklog(rows, r.value)
    ensures r.None? <==> forall i :: 0 <= i < |rows| ==> rows[i].parent != x
    decreases |rows|
  {
    if rows == [] then None
    else if rows[0].parent == x then Some(rows[0].id)
    else BacklogOf(rows[1..], x)
  }

  /** The backlog row with primary key `b`: what following a story's backlog reference reaches. */
  function BacklogById(rows: seq<Backlog>, b: BacklogId): (r: Option<Backlog>)
    ensures r.Some? ==> r.value.id == b && r.value in rows
    ensures r.Some? <==> HasBacklog(rows, b)
    decreases |rows|
  {
    if rows == [] then None
    else if rows[0].id == b then Some(rows[0])
    else BacklogById(rows[1..], b)
  }

  // ----- The store's invariant -----

  /** Every key is below `nextId`, keys are distinct and no parent has two backlogs. */
  predicate BacklogTableOk(rows: seq<Backlog>, nextId: nat) {
    && (forall i :: 0 <= i < |rows| ==> rows[i].id < nextId)
    && (forall i, j :: 0 <= i < j < |rows| ==> rows[i].id != rows[j].id && rows[i].parent != rows[j].parent)
  }

  /** Exactly one backlog reference is set, and it names an existing backlog row. */
  predicate Placed(db: Db, st: UserStory) {
    || (st.productBacklog.Some? && st.sprintBacklog.None? && HasBacklog(db.productBacklogs, st.productBacklog.value))
    || (st.productBacklog.None? && st.sprintBacklog.Some? && HasBacklog(db.sprintBacklogs, st.sprintBacklog.value))
  }

  /** Member keys are distinct and below `nextId`; each row names a user that exists and a project
      key that has been handed out. */
  predicate MembersOk(db: Db) {
    && (forall i :: 0 <= i < |db.members| ==>
          db.members[i].id < db.nextId && db.members[i].project < db.nextId && db.members[i].user in db.users)
    && DistinctMemberIds(db.members)
  }

  predicate DistinctMemberIds(rows: seq<ProjectMember>) {
    forall i, j :: 0 <= i < j < |rows| ==> rows[i].id != rows[j].id
  }

  /** What every operation keeps true of the store. Rows that point at a project are not required
      to find it: what deleting a project does to them is decided in models.py. */
  predicate Consistent(db: Db) {
    && (forall p :: p in db.projects ==> p < db.nextId && db.projects[p].owner in db.users)
    && MembersOk(db)
    && BacklogTableOk(db.productBacklogs, db.nextId)
    && BacklogTableOk(db.sprintBacklogs, db.nextId)
    && (forall i :: 0 <= i < |db.sprintBacklogs| ==> db.sprintBacklogs[i].parent in db.sprints)
    && (forall s :: s in db.stories ==> s < db.nextId && Placed(db, db.stories[s]))
  }

  // ----- get_or_create on the two backlog tables -----

  lemma {:induction false} BacklogOfAppend(rows: seq<Backlog>, row: Backlog, x: nat)
    ensures BacklogOf(rows + [row], x) ==
      if BacklogOf(rows, x).Some? then BacklogOf(rows, x)
      else if row.parent == x then Some(row.id) else None
    decreases |rows|
  {
    if rows != [] {
      assert (rows + [row])[1..] == rows[1..] + [row];
      BacklogOfAppend(rows[1..], row, x);
    }
  }

  /** In a table where no parent has two rows, the row found for parent `x` and the parent of the
      row found by key are the same link, read in either direction. */
  lemma BacklogOfById(rows: seq<Backlog>, nextId: nat, x: nat, b: BacklogId)
    requires BacklogTableOk(rows, nextId)
    ensures BacklogOf(rows, x) == Some(b) <==> (BacklogById(rows, b).Some? && BacklogById(rows, b).value.parent == x)
  {
    if BacklogOf(rows, x) == Some(b) {
      var i :| 0 <= i < |rows| && rows[i] == Backlog(b, x);
      var row := BacklogById(rows, b).value;
      var j :| 0 <= j < |rows| && rows[j] == row;
      assert i == j by {
        if i < j {} else if j < i {}
      }
    }
    if BacklogById(rows, b).Some? && BacklogById(rows, b).value.parent == x {
      var j :| 0 <= j < |rows| && rows[j] == BacklogById(rows, b).value;
      var found := BacklogOf(rows, x);
      assert found.Some?;
      var i :| 0 <= i < |rows| && rows[i] == Backlog(found.value, x);
      assert i == j by {
        if i < j {} else if j < i {}
      }
    }
  }

  /** The backlog table and key counter after `get_or_create(parent=x)`: unchanged when x has a
      row, otherwise one row with a fresh key appended. */
  function AfterGetOrCreate(rows: seq<Backlog>, nextId: nat, x: nat): (r: (seq<Backlog>, nat))
    requires BacklogTableOk(rows, nextId)
    ensures BacklogTableOk(r.0, r.1) && nextId <= r.1
    ensures BacklogOf(r.0, x).Some?
    ensures BacklogOf(rows, x).Some? ==> r == (rows, nextId)
    ensures BacklogOf(rows, x).None? ==> r == (rows + [Backlog(nextId, x)], nextId + 1) && BacklogOf(r.0, x) == Some(nextId)
    ensures forall b :: HasBacklog(rows, b) ==> HasBacklog(r.0, b)
  {
    if BacklogOf(rows, x).Some? then (rows, nextId)
    else
      var rows' := rows + [Backlog(nextId, x)];
      BacklogOfAppend(rows, Backlog(nextId, x), x);
      assert forall b :: HasBacklog(rows, b) ==> HasBacklog(rows', b) by {
        forall b | HasBacklog(rows, b) ensures HasBacklog(rows', b) {
          var i :| 0 <= i < |rows| && rows[i].id == b;
          assert rows'[i] == rows[i];
        }
      }
      (rows', nextId + 1)
  }

  /** `ProductBacklog.objects.get_or_create(project=p)` */
  function AfterGetOrCreateProductBacklog(db: Db, p: ProjectId): (r: Db)
    requires BacklogTableOk(db.productBacklogs, db.nextId)
    ensures BacklogTableOk(r.productBacklogs, r.nextId) && db.nextId <= r.nextId
    ensures BacklogOf(r.productBacklogs, p).Some?
    ensures BacklogOf(db.productBacklogs, p).Some? ==> r == db
    ensures BacklogOf(db.productBacklogs, p).None? ==> BacklogOf(r.productBacklogs, p) == Some(db.nextId)
    ensures forall b :: HasBacklog(db.productBacklogs, b) ==> HasBacklog(r.productBacklogs, b)
    ensures r.(productBacklogs := db.productBacklogs, nextId := db.nextId) == db
  {
    var (rows, next) := AfterGetOrCreate(db.productBacklogs, db.nextId, p);
    db.(productBacklogs := rows, nextId := next)
  }

  /** `SprintBacklog.objects.get_or_create(sprint=s)` */
  function AfterGetOrCreateSprintBacklog(db: Db, s: SprintId): (r: Db)
    requires BacklogTableOk(db.sprintBacklogs, db.nextId)
    ensures BacklogTableOk(r.sprintBacklogs, r.nextId) && db.nextId <= r.nextId
    ensures BacklogOf(r.sprintBacklogs, s).Some?
    ensures BacklogOf(db.sprintBacklogs, s).Some? ==> r == db
    ensures BacklogOf(db.sprintBacklogs, s).None? ==> BacklogOf(r.sprintBacklogs, s) == Some(db.nextId)
    ensures forall b :: HasBacklog(db.sprintBacklogs, b) ==> HasBacklog(r.sprintBacklogs, b)
    ensures r.(sprintBacklogs := db.sprintBacklogs, nextId := db.nextId) == db
  {
    var (rows, next) := AfterGetOrCreate(db.sprintBacklogs, db.nextId, s);
    db.(sprintBacklogs := rows, nextId := next)
  }

  /** Raising the key counter and adding backlog rows keeps every invariant that the other tables
      satisfied. */
  lemma GrowKeepsConsistent(db: Db, db': Db)
    requires Consistent(db)
    requires db'.users == db.users && db'.projects == db.projects && db'.members == db.members
    requires db'.sprints == db.sprints && db'.stories == db.stories && db.nextId <= db'.nextId
    requires BacklogTableOk(db'.productBacklogs, db'.nextId) && BacklogTableOk(db'.sprintBacklogs, db'.nextId)
    requires forall i :: 0 <= i < |db'.sprintBacklogs| ==> db'.sprintBacklogs[i].parent in db'.sprints
    requires forall b :: HasBacklog(db.productBacklogs, b) ==> HasBacklog(db'.productBacklogs, b)
    requires forall b :: HasBacklog(db.sprintBacklogs, b) ==> HasBacklog(db'.sprintBacklogs, b)
    ensures Consistent(db')
  {
    forall s | s in db'.stories ensures Placed(db', db'.stories[s]) {
      assert Placed(db, db.stories[s]);
    }
  }

  lemma GetOrCreateProductBacklogKeepsConsistent(db: Db, p: ProjectId)
    requires Consistent(db)
    ensures Consistent(AfterGetOrCreateProductBacklog(db, p))
  {
    GrowKeepsConsistent(db, AfterGetOrCreateProductBacklog(db, p));
  }

  lemma GetOrCreateSprintBacklogKeepsConsistent(db: Db, s: SprintId)
    requires Consistent(db) && s in db.sprints
    ensures Consistent(AfterGetOrCreateSprintBacklog(db, s))
  {
    var db' := AfterGetOrCreateSprintBacklog(db, s);
    assert forall i :: 0 <= i < |db'.sprintBacklogs| ==> db'.sprintBacklogs[i].parent in db'.sprints by {
      if BacklogOf(db.sprintBacklogs, s).None? {
        assert db'.sprintBacklogs == db.sprintBacklogs + [Backlog(db.nextId, s)];
      }
    }
    GrowKeepsConsistent(db, db');
  }

  /** A second get_or_create for the same parent finds the row the first one made or found. */
  lemma GetOrCreateProductBacklogIdempotent(db: Db, p: ProjectId)
    requires BacklogTableOk(db.productBacklogs, db.nextId)
    ensures AfterGetOrCreateProductBacklog(AfterGetOrCreateProductBacklog(db, p), p) == AfterGetOrCreateProductBacklog(db, p)
  {
  }

  lemma GetOrCreateSprintBacklogIdempotent(db: Db, s: SprintId)
    requires BacklogTableOk(db.sprintBacklogs, db.nextId)
    ensures AfterGetOrCreateSprintBacklog(AfterGetOrCreateSprintBacklog(db, s), s) == AfterGetOrCreateSprintBacklog(db, s)
  {
  }

  /** The database the services run against: one object whose tables the operations reassign. */
  class Store {
    var users: map<UserId, User>
    var projects: map<ProjectId, Project>
    var members: seq<ProjectMember>
    var productBacklogs: seq<Backlog>
    var sprints: map<SprintId, Sprint>
    var sprintBacklogs: seq<Backlog>
    var stories: map<StoryId, UserStory>
    var nextId: nat

    function State(): Db
      reads this
    {
      Db(users, projects, members, productBacklogs, sprints, sprintBacklogs, stories, nextId)
    }

    predicate Valid()
      reads this
    {
      Consistent(State())
    }

    /** A store with the given users and sprints and nothing else. */
    constructor (users: map<UserId, User>, sprints: map<SprintId, Sprint>)
      ensures Valid()
      ensures State() == Db(users, map[], [], [], sprints, [], map[], 0)
    {
      this.users := users;
      this.projects := map[];
      this.members := [];
      this.productBacklogs := [];
      this.sprints := sprints;
      this.sprintBacklogs := [];
      this.stories := map[];
      this.nextId := 0;
    }

    /** `ProductBacklog.objects.get_or_create(project=p)`, returning the backlog's key. */
    method ProductBacklogGetOrCreate(p: ProjectId) returns (b: BacklogId)
      requires Valid()
      modifies this
      ensures Valid()
      ensures State() == AfterGetOrCreateProductBacklog(old(State()), p)
      ensures BacklogOf(productBacklogs, p) == Some(b)
    {
      var found := BacklogOf(productBacklogs, p);
      if found.Some? {
        b := found.value;
      } else {
        b := nextId;
        BacklogOfAppend(productBacklogs, Backlog(b, p), p);
        productBacklogs := productBacklogs + [Backlog(b, p)];
        nextId := nextId + 1;
      }
      assert State() == AfterGetOrCreateProductBacklog(old(State()), p);
      GetOrCreateProductBacklogKeepsConsistent(old(State()), p);
    }

    /** `SprintBacklog.objects.get_or_create(sprint=s)`, returning the backlog's key. */
    method SprintBacklogGetOrCreate(s: SprintId) returns (b: BacklogId)
      requires Valid() && s in sprints
      modifies this
      ensures Valid()
      ensures State() == AfterGetOrCreateSprintBacklog(old(State()), s)
      ensures BacklogOf(sprintBacklogs, s) == Some(b)
    {
      var found := BacklogOf(sprintBacklogs, s);
      if found.Some? {
        b := found.value;
      } else {
        b := nextId;
        BacklogOfAppend(sprintBacklogs, Backlog(b, s), s);
        sprintBacklogs := sprintBacklogs + [Backlog(b, s)];
        nextId := nextId + 1;
      }
      assert State() == AfterGetOrCreateSprintBacklog(old(State()), s);
      GetOrCreateSprintBacklogKeepsConsistent(old(State()), s);
    }
  }
}
