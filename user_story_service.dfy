/** UserStoryService (scrum_app/services/user_story_service.py): a user story lives in exactly one of
    two places, its project's product backlog or a sprint's backlog; creating and moving always
    place it through the lazily created backlog, never through a caller-supplied one. */
module UserStoryService {
  import opened Wrappers
  import opened Models

  /** The keyword arguments the create operations pop before building the story. */
  const BacklogKeys: set<string> := {"product_backlog", "sprint_backlog"}

  // ----- Resolving a story's project -----

  /** get_project_from_user_story: the product backlog's project when that reference is set,
      otherwise the project of the sprint that owns the sprint backlog. A story with neither
      reference makes the source dereference None, and a reference to a row that is missing
      raises RelatedObjectDoesNotExist; both are `Broken`, and a consistent store has neither.
      Whether the project row itself still exists is not checked here: the result is the key the
      backlog or sprint points at. */
  function GetProjectFromUserStory(db: Db, st: UserStory): (r: Result<ProjectId>)
    ensures Consistent(db) && Placed(db, st) ==> r.Ok?
    ensures st.productBacklog.None? && st.sprintBacklog.None? ==> r == Err(Broken)
    ensures r.Err? ==> r.error == Broken
  {
    match st.productBacklog
    case Some(b) =>
      (match BacklogById(db.productBacklogs, b)
       case Some(row) => Ok(row.parent)
       case None => Err(Broken))
    case None =>
      match st.sprintBacklog
      case None => Err(Broken)
      case Some(b) =>
        match BacklogById(db.sprintBacklogs, b)
        case Some(row) => if row.parent in db.sprints then Ok(db.sprints[row.parent].project) else Err(Broken)
        case None => Err(Broken)
  }

  /** A story that references project p's product backlog resolves to p. */
  lemma ResolveInProductBacklog(db: Db, st: UserStory, p: ProjectId)
    requires Consistent(db)
    requires BacklogOf(db.productBacklogs, p).Some? && st.productBacklog == BacklogOf(db.productBacklogs, p)
    ensures GetProjectFromUserStory(db, st) == Ok(p)
  {
    BacklogOfById(db.productBacklogs, db.nextId, p, st.productBacklog.value);
  }

  /** A story in sprint s's backlog and in no product backlog resolves to s's project. */
  lemma ResolveInSprintBacklog(db: Db, st: UserStory, s: SprintId)
    requires Consistent(db) && s in db.sprints
    requires st.productBacklog.None?
    requires BacklogOf(db.sprintBacklogs, s).Some? && st.sprintBacklog == BacklogOf(db.sprintBacklogs, s)
    ensures GetProjectFromUserStory(db, st) == Ok(db.sprints[s].project)
  {
    BacklogOfById(db.sprintBacklogs, db.nextId, s, st.sprintBacklog.value);
  }

  // ----- The transitions, as functions of the store -----

  /** create_user_story_for_product_backlog: get or create the project's product backlog, drop
      any caller-supplied backlog keys, validate, and save the story into that backlog. The
      backlog is created even when validation then fails. */
  function AfterCreateForProductBacklog(db: Db, p: ProjectId, kwargs: Attrs, clean: bool): (r: (Db, Result<StoryId>))
    requires BacklogTableOk(db.productBacklogs, db.nextId)
    ensures BacklogOf(r.0.productBacklogs, p).Some?
    ensures BacklogOf(db.productBacklogs, p).Some? ==> r.0.productBacklogs == db.productBacklogs
    ensures r.0.productBacklogs == AfterGetOrCreateProductBacklog(db, p).productBacklogs
    ensures r.1.Ok? <==> clean
    ensures r.1.Err? ==> r.1 == Err(ValidationError) && r.0.stories == db.stories
    ensures r.1.Ok? ==>
      r.0.stories == db.stories[r.1.value := UserStory(kwargs - BacklogKeys, BacklogOf(r.0.productBacklogs, p), None)]
    ensures r.0.(productBacklogs := db.productBacklogs, stories := db.stories, nextId := db.nextId) == db
  {
    var db1 := AfterGetOrCreateProductBacklog(db, p);
    if !clean then (db1, Err(ValidationError))
    else
      var id := db1.nextId;
      var st := UserStory(kwargs - BacklogKeys, BacklogOf(db1.productBacklogs, p), None);
      (db1.(stories := db1.stories[id := st], nextId := id + 1), Ok(id))
  }

  /** create_user_story_for_sprint_backlog: the same, into the sprint's lazily created backlog. */
  function AfterCreateForSprintBacklog(db: Db, s: SprintId, kwargs: Attrs, clean: bool): (r: (Db, Result<StoryId>))
    requires BacklogTableOk(db.sprintBacklogs, db.nextId)
    ensures BacklogOf(r.0.sprintBacklogs, s).Some?
    ensures BacklogOf(db.sprintBacklogs, s).Some? ==> r.0.sprintBacklogs == db.sprintBacklogs
    ensures r.0.sprintBacklogs == AfterGetOrCreateSprintBacklog(db, s).sprintBacklogs
    ensures r.1.Ok? <==> clean
    ensures r.1.Err? ==> r.1 == Err(ValidationError) && r.0.stories == db.stories
    ensures r.1.Ok? ==>
      r.0.stories == db.stories[r.1.value := UserStory(kwargs - BacklogKeys, None, BacklogOf(r.0.sprintBacklogs, s))]
    ensures r.0.(sprintBacklogs := db.sprintBacklogs, stories := db.stories, nextId := db.nextId) == db
  {
    var db1 := AfterGetOrCreateSprintBacklog(db, s);
    if !clean then (db1, Err(ValidationError))
    else
      var id := db1.nextId;
      var st := UserStory(kwargs - BacklogKeys, None, BacklogOf(db1.sprintBacklogs, s));
      (db1.(stories := db1.stories[id := st], nextId := id + 1), Ok(id))
  }

  /** update_user_story: every named field takes its new value; everything else about the story
      (its backlog references included) and every other row stays as it was. */
  function AfterUpdateUserStory(db: Db, sid: StoryId, kwargs: Attrs, clean: bool): (r: (Db, Result<UserStory>))
    requires sid in db.stories
    ensures r.1.Ok? <==> clean
    ensures !clean ==> r == (db, Err(ValidationError))
    ensures clean ==> r.0 == db.(stories := db.stories[sid := r.1.value])
    ensures clean ==> var st := r.1.value;
      && st.productBacklog == db.stories[sid].productBacklog
      && st.sprintBacklog == db.stories[sid].sprintBacklog
      && st.attrs.Keys == db.stories[sid].attrs.Keys + kwargs.Keys
      && (forall k :: k in kwargs ==> st.attrs[k] == kwargs[k])
      && (forall k :: k in db.stories[sid].attrs && k !in kwargs ==> st.attrs[k] == db.stories[sid].attrs[k])
  {
    var before := db.stories[sid];
    var st := before.(attrs := before.attrs + kwargs);
    if clean then (db.(stories := db.stories[sid := st]), Ok(st)) else (db, Err(ValidationError))
  }

  /** move_to_sprint: get or create the sprint's backlog, clear the product backlog reference and
      point the sprint backlog reference at it. Only the story changes, apart from the backlog
      row that may have been created. */
  function AfterMoveToSprint(db: Db, sid: StoryId, s: SprintId, clean: bool): (r: (Db, Result<UserStory>))
    requires BacklogTableOk(db.sprintBacklogs, db.nextId) && sid in db.stories
    ensures BacklogOf(r.0.sprintBacklogs, s).Some?
    ensures r.0.sprintBacklogs == AfterGetOrCreateSprintBacklog(db, s).sprintBacklogs
    ensures r.0.nextId == AfterGetOrCreateSprintBacklog(db, s).nextId
    ensures BacklogOf(db.sprintBacklogs, s).Some? ==> BacklogOf(r.0.sprintBacklogs, s) == BacklogOf(db.sprintBacklogs, s)
    ensures r.1.Ok? <==> clean
    ensures !clean ==> r.1 == Err(ValidationError) && r.0.stories == db.stories
    ensures clean ==> r.0.stories == db.stories[sid := r.1.value]
    ensures clean ==> r.1.value == db.stories[sid].(productBacklog := None, sprintBacklog := BacklogOf(r.0.sprintBacklogs, s))
    ensures r.0.(sprintBacklogs := db.sprintBacklogs, stories := db.stories, nextId := db.nextId) == db
  {
    var db1 := AfterGetOrCreateSprintBacklog(db, s);
    var st := db.stories[sid].(productBacklog := None, sprintBacklog := BacklogOf(db1.sprintBacklogs, s));
    if clean then (db1.(stories := db1.stories[sid := st]), Ok(st)) else (db1, Err(ValidationError))
  }

  /** move_to_product_backlog: the mirror image, into the project's product backlog. */
  function AfterMoveToProductBacklog(db: Db, sid: StoryId, p: ProjectId, clean: bool): (r: (Db, Result<UserStory>))
    requires BacklogTableOk(db.productBacklogs, db.nextId) && sid in db.stories
    ensures BacklogOf(r.0.productBacklogs, p).Some?
    ensures r.0.productBacklogs == AfterGetOrCreateProductBacklog(db, p).productBacklogs
    ensures r.0.nextId == AfterGetOrCreateProductBacklog(db, p).nextId
    ensures BacklogOf(db.productBacklogs, p).Some? ==> BacklogOf(r.0.productBacklogs, p) == BacklogOf(db.productBacklogs, p)
    ensures r.1.Ok? <==> clean
    ensures !clean ==> r.1 == Err(ValidationError) && r.0.stories == db.stories
    ensures clean ==> r.0.stories == db.stories[sid := r.1.value]
    ensures clean ==> r.1.value == db.stories[sid].(sprintBacklog := None, productBacklog := BacklogOf(r.0.productBacklogs, p))
    ensures r.0.(productBacklogs := db.productBacklogs, stories := db.stories, nextId := db.nextId) == db
  {
    var db1 := AfterGetOrCreateProductBacklog(db, p);
    var st := db.stories[sid].(sprintBacklog := None, productBacklog := BacklogOf(db1.productBacklogs, p));
    if clean then (db1.(stories := db1.stories[sid := st]), Ok(st)) else (db1, Err(ValidationError))
  }

  /** delete_user_story: that story is gone; every other story and every backlog stays. */
  function AfterDeleteUserStory(db: Db, sid: StoryId): (r: Db)
    ensures sid !in r.stories
    ensures forall t :: t in db.stories && t != sid ==> t in r.stories && r.stories[t] == db.stories[t]
    ensures r.stories.Keys == db.stories.Keys - {sid}
    ensures r.(stories := db.stories) == db
  {
    db.(stories := db.stories - {sid})
  }

  // ----- Every transition keeps the store consistent -----

  /** Saving a placed story, new under the next key or over an existing one, keeps the store
      consistent. */
  lemma SaveKeepsConsistent(db: Db, sid: StoryId, st: UserStory)
    requires Consistent(db) && Placed(db, st) && (sid in db.stories || sid == db.nextId)
    ensures Consistent(db.(stories := db.stories[sid := st], nextId := if sid in db.stories then db.nextId else db.nextId + 1))
  {
    var db' := db.(stories := db.stories[sid := st], nextId := if sid in db.stories then db.nextId else db.nextId + 1);
    forall t | t in db'.stories ensures Placed(db', db'.stories[t]) {
      assert Placed(db, db'.stories[t]);
    }
  }

  lemma CreateForProductBacklogKeepsConsistent(db: Db, p: ProjectId, kwargs: Attrs, clean: bool)
    requires Consistent(db)
    ensures var r := AfterCreateForProductBacklog(db, p, kwargs, clean);
      Consistent(r.0) && (r.1.Ok? ==> r.1.value !in db.stories)
  {
    var r := AfterCreateForProductBacklog(db, p, kwargs, clean);
    var db1 := AfterGetOrCreateProductBacklog(db, p);
    GetOrCreateProductBacklogKeepsConsistent(db, p);
    if clean {
      var st := UserStory(kwargs - BacklogKeys, BacklogOf(db1.productBacklogs, p), None);
      assert Placed(db1, st);
      SaveKeepsConsistent(db1, db1.nextId, st);
      assert r.0 == db1.(stories := db1.stories[db1.nextId := st], nextId := db1.nextId + 1);
    } else {
      assert r.0 == db1;
    }
  }

  lemma CreateForSprintBacklogKeepsConsistent(db: Db, s: SprintId, kwargs: Attrs, clean: bool)
    requires Consistent(db) && s in db.sprints
    ensures var r := AfterCreateForSprintBacklog(db, s, kwargs, clean);
      Consistent(r.0) && (r.1.Ok? ==> r.1.value !in db.stories)
  {
    var r := AfterCreateForSprintBacklog(db, s, kwargs, clean);
    var db1 := AfterGetOrCreateSprintBacklog(db, s);
    GetOrCreateSprintBacklogKeepsConsistent(db, s);
    if clean {
      var st := UserStory(kwargs - BacklogKeys, None, BacklogOf(db1.sprintBacklogs, s));
      assert Placed(db1, st);
      SaveKeepsConsistent(db1, db1.nextId, st);
      assert r.0 == db1.(stories := db1.stories[db1.nextId := st], nextId := db1.nextId + 1);
    } else {
      assert r.0 == db1;
    }
  }

  lemma UpdateKeepsConsistent(db: Db, sid: StoryId, kwargs: Attrs, clean: bool)
    requires Consistent(db) && sid in db.stories
    ensures Consistent(AfterUpdateUserStory(db, sid, kwargs, clean).0)
  {
    if clean {
      var before := db.stories[sid];
      assert Placed(db, before);
      SaveKeepsConsistent(db, sid, before.(attrs := before.attrs + kwargs));
    }
  }

  lemma MoveToSprintKeepsConsistent(db: Db, sid: StoryId, s: SprintId, clean: bool)
    requires Consistent(db) && sid in db.stories && s in db.sprints
    ensures Consistent(AfterMoveToSprint(db, sid, s, clean).0)
  {
    var db1 := AfterGetOrCreateSprintBacklog(db, s);
    GetOrCreateSprintBacklogKeepsConsistent(db, s);
    if clean {
      var st := db.stories[sid].(productBacklog := None, sprintBacklog := BacklogOf(db1.sprintBacklogs, s));
      SaveKeepsConsistent(db1, sid, st);
    }
  }

  lemma MoveToProductBacklogKeepsConsistent(db: Db, sid: StoryId, p: ProjectId, clean: bool)
    requires Consistent(db) && sid in db.stories
    ensures Consistent(AfterMoveToProductBacklog(db, sid, p, clean).0)
  {
    var db1 := AfterGetOrCreateProductBacklog(db, p);
    GetOrCreateProductBacklogKeepsConsistent(db, p);
    if clean {
      var st := db.stories[sid].(sprintBacklog := None, productBacklog := BacklogOf(db1.productBacklogs, p));
      SaveKeepsConsistent(db1, sid, st);
    }
  }

  lemma DeleteKeepsConsistent(db: Db, sid: StoryId)
    requires Consistent(db)
    ensures Consistent(AfterDeleteUserStory(db, sid))
  {
  }

  // ----- Properties relating several calls -----

  /** A story created for P's product backlog sits in P's one product backlog and in no sprint
      backlog, carries none of the caller's backlog keys, and resolves to P. */
  lemma CreatedForProductBacklogIsPlaced(db: Db, p: ProjectId, kwargs: Attrs)
    requires Consistent(db)
    ensures var (db', r) := AfterCreateForProductBacklog(db, p, kwargs, true);
      && r.Ok? && r.value in db'.stories
      && db'.stories[r.value].productBacklog == BacklogOf(db'.productBacklogs, p)
      && db'.stories[r.value].sprintBacklog.None?
      && db'.stories[r.value].attrs.Keys !! BacklogKeys
      && GetProjectFromUserStory(db', db'.stories[r.value]) == Ok(p)
  {
    var (db', r) := AfterCreateForProductBacklog(db, p, kwargs, true);
    CreateForProductBacklogKeepsConsistent(db, p, kwargs, true);
    ResolveInProductBacklog(db', db'.stories[r.value], p);
  }

  /** A story created for a sprint's backlog sits in that sprint's one backlog and in no product
      backlog, carries none of the caller's backlog keys, and resolves to the sprint's project. */
  lemma CreatedForSprintBacklogIsPlaced(db: Db, s: SprintId, kwargs: Attrs)
    requires Consistent(db) && s in db.sprints
    ensures var (db', r) := AfterCreateForSprintBacklog(db, s, kwargs, true);
      && r.Ok? && r.value in db'.stories
      && db'.stories[r.value].sprintBacklog == BacklogOf(db'.sprintBacklogs, s)
      && db'.stories[r.value].productBacklog.None?
      && db'.stories[r.value].attrs.Keys !! BacklogKeys
      && GetProjectFromUserStory(db', db'.stories[r.value]) == Ok(db.sprints[s].project)
  {
    var (db', r) := AfterCreateForSprintBacklog(db, s, kwargs, true);
    CreateForSprintBacklogKeepsConsistent(db, s, kwargs, true);
    ResolveInSprintBacklog(db', db'.stories[r.value], s);
  }

  /** Creating twice for the same project makes at most one product backlog: the second
      creation leaves the backlog table as the first one left it. */
  lemma SecondCreateReusesProductBacklog(db: Db, p: ProjectId, kwargs1: Attrs, kwargs2: Attrs, clean1: bool, clean2: bool)
    requires BacklogTableOk(db.productBacklogs, db.nextId)
    ensures var db1 := AfterCreateForProductBacklog(db, p, kwargs1, clean1).0;
      BacklogTableOk(db1.productBacklogs, db1.nextId) &&
      AfterCreateForProductBacklog(db1, p, kwargs2, clean2).0.productBacklogs == db1.productBacklogs
  {
  }

  /** After move_to_sprint the story resolves to the sprint's project. */
  lemma MoveToSprintResolves(db: Db, sid: StoryId, s: SprintId)
    requires Consistent(db) && sid in db.stories && s in db.sprints
    ensures var (db', r) := AfterMoveToSprint(db, sid, s, true);
      r.Ok? && GetProjectFromUserStory(db', db'.stories[sid]) == Ok(db.sprints[s].project)
  {
    var (db', r) := AfterMoveToSprint(db, sid, s, true);
    MoveToSprintKeepsConsistent(db, sid, s, true);
    ResolveInSprintBacklog(db', db'.stories[sid], s);
  }

  /** Moving a story to a sprint and back to project P's product backlog leaves it in P's product
      backlog and in no sprint backlog, with its fields as they were, resolving to P. */
  lemma MoveRoundTrip(db: Db, sid: StoryId, s: SprintId, p: ProjectId)
    requires Consistent(db) && sid in db.stories && s in db.sprints
    ensures var db1 := AfterMoveToSprint(db, sid, s, true).0;
      var db2 := AfterMoveToProductBacklog(db1, sid, p, true).0;
      && sid in db2.stories
      && db2.stories[sid].productBacklog == BacklogOf(db2.productBacklogs, p)
      && db2.stories[sid].productBacklog.Some?
      && db2.stories[sid].sprintBacklog.None?
      && db2.stories[sid].attrs == db.stories[sid].attrs
      && GetProjectFromUserStory(db2, db2.stories[sid]) == Ok(p)
  {
    var db1 := AfterMoveToSprint(db, sid, s, true).0;
    MoveToSprintKeepsConsistent(db, sid, s, true);
    var db2 := AfterMoveToProductBacklog(db1, sid, p, true).0;
    MoveToProductBacklogKeepsConsistent(db1, sid, p, true);
    ResolveInProductBacklog(db2, db2.stories[sid], p);
  }

  /** A story that starts in P's product backlog and is moved to a sprint and back comes home: the
      story table and the product backlog table end as they began. */
  lemma MoveRoundTripRestores(db: Db, sid: StoryId, s: SprintId, p: ProjectId)
    requires Consistent(db) && sid in db.stories && s in db.sprints
    requires BacklogOf(db.productBacklogs, p).Some? && db.stories[sid].productBacklog == BacklogOf(db.productBacklogs, p)
    ensures var db1 := AfterMoveToSprint(db, sid, s, true).0;
      var db2 := AfterMoveToProductBacklog(db1, sid, p, true).0;
      db2.stories == db.stories && db2.productBacklogs == db.productBacklogs
  {
    assert Placed(db, db.stories[sid]);
  }

  // ----- The service, on the store object -----

  /** The `setattr` loop over the keyword arguments. */
  method SetAttributes(attrs: Attrs, kwargs: Attrs) returns (r: Attrs)
    ensures r.Keys == attrs.Keys + kwargs.Keys
    ensures forall k :: k in kwargs ==> r[k] == kwargs[k]
    ensures forall k :: k in attrs && k !in kwargs ==> r[k] == attrs[k]
  {
    r := attrs;
    var todo := kwargs.Keys;
    while todo != {}
      invariant todo <= kwargs.Keys
      invariant r.Keys == attrs.Keys + (kwargs.Keys - todo)
      invariant forall k :: k in kwargs.Keys - todo ==> r[k] == kwargs[k]
      invariant forall k :: k in attrs && k !in kwargs.Keys - todo ==> r[k] == attrs[k]
      decreases todo
    {
      var k :| k in todo;
      r := r[k := kwargs[k]];
      todo := todo - {k};
    }
  }

  /** `story.save()` for a new story: it is stored under the next key. */
  method SaveNewStory(store: Store, story: UserStory) returns (id: StoryId)
    requires store.Valid() && Placed(store.State(), story)
    modifies store
    ensures store.Valid()
    ensures id == old(store.nextId)
    ensures store.State() == old(store.State()).(stories := old(store.stories)[id := story], nextId := id + 1)
  {
    ghost var db0 := store.State();
    SaveKeepsConsistent(db0, db0.nextId, story);
    id := store.nextId;
    store.stories := store.stories[id := story];
    store.nextId := id + 1;
    assert store.State() == db0.(stories := db0.stories[id := story], nextId := id + 1);
  }

  method CreateUserStoryForProductBacklog(store: Store, p: ProjectId, kwargs: Attrs, clean: bool) returns (r: Result<StoryId>)
    requires store.Valid() && p in store.projects
    modifies store
    ensures store.Valid()
    ensures store.State() == AfterCreateForProductBacklog(old(store.State()), p, kwargs, clean).0
    ensures r == AfterCreateForProductBacklog(old(store.State()), p, kwargs, clean).1
  {
    ghost var db0 := store.State();
    ghost var want := AfterCreateForProductBacklog(db0, p, kwargs, clean);
    var b := store.ProductBacklogGetOrCreate(p);
    ghost var db1 := store.State();
    assert db1 == AfterGetOrCreateProductBacklog(db0, p);
    var attrs := kwargs - BacklogKeys;
    var story := UserStory(attrs, Some(b), None);
    if !clean {
      return Err(ValidationError);
    }
    var id := SaveNewStory(store, story);
    r := Ok(id);
    assert store.State() == db1.(stories := db1.stories[id := story], nextId := id + 1) == want.0;
  }

  method CreateUserStoryForSprintBacklog(store: Store, s: SprintId, kwargs: Attrs, clean: bool) returns (r: Result<StoryId>)
    requires store.Valid() && s in store.sprints
    modifies store
    ensures store.Valid()
    ensures store.State() == AfterCreateForSprintBacklog(old(store.State()), s, kwargs, clean).0
    ensures r == AfterCreateForSprintBacklog(old(store.State()), s, kwargs, clean).1
  {
    ghost var db0 := store.State();
    ghost var want := AfterCreateForSprintBacklog(db0, s, kwargs, clean);
    var b := store.SprintBacklogGetOrCreate(s);
    ghost var db1 := store.State();
    assert db1 == AfterGetOrCreateSprintBacklog(db0, s);
    var attrs := kwargs - BacklogKeys;
    var story := UserStory(attrs, None, Some(b));
    if !clean {
      return Err(ValidationError);
    }
    var id := SaveNewStory(store, story);
    r := Ok(id);
    assert store.State() == db1.(stories := db1.stories[id := story], nextId := id + 1) == want.0;
  }

  method UpdateUserStory(store: Store, sid: StoryId, kwargs: Attrs, clean: bool) returns (r: Result<UserStory>)
    requires store.Valid() && sid in store.stories
    modifies store
    ensures store.Valid()
    ensures store.State() == AfterUpdateUserStory(old(store.State()), sid, kwargs, clean).0
    ensures r == AfterUpdateUserStory(old(store.State()), sid, kwargs, clean).1
  {
    ghost var db0 := store.State();
    ghost var want := AfterUpdateUserStory(db0, sid, kwargs, clean);
    UpdateKeepsConsistent(db0, sid, kwargs, clean);
    var story := store.stories[sid];
    var attrs := SetAttributes(story.attrs, kwargs);
    assert attrs == story.attrs + kwargs;
    story := story.(attrs := attrs);
    if !clean {
      return Err(ValidationError);
    }
    store.stories := store.stories[sid := story];
    r := Ok(story);
    assert store.State() == want.0;
  }

  method MoveToSprint(store: Store, sid: StoryId, s: SprintId, clean: bool) returns (r: Result<UserStory>)
    requires store.Valid() && sid in store.stories && s in store.sprints
    modifies store
    ensures store.Valid()
    ensures store.State() == AfterMoveToSprint(old(store.State()), sid, s, clean).0
    ensures r == AfterMoveToSprint(old(store.State()), sid, s, clean).1
  {
    ghost var db0 := store.State();
    ghost var want := AfterMoveToSprint(db0, sid, s, clean);
    MoveToSprintKeepsConsistent(db0, sid, s, clean);
    var b := store.SprintBacklogGetOrCreate(s);
    ghost var db1 := store.State();
    assert db1 == AfterGetOrCreateSprintBacklog(db0, s);
    var story := store.stories[sid];
    story := story.(productBacklog := None);
    story := story.(sprintBacklog := Some(b));
    if !clean {
      return Err(ValidationError);
    }
    store.stories := store.stories[sid := story];
    r := Ok(story);
    assert store.State() == want.0;
  }

  method MoveToProductBacklog(store: Store, sid: StoryId, p: ProjectId, clean: bool) returns (r: Result<UserStory>)
    requires store.Valid() && sid in store.stories && p in store.projects
    modifies store
    ensures store.Valid()
    ensures store.State() == AfterMoveToProductBacklog(old(store.State()), sid, p, clean).0
    ensures r == AfterMoveToProductBacklog(old(store.State()), sid, p, clean).1
  {
    ghost var db0 := store.State();
    ghost var want := AfterMoveToProductBacklog(db0, sid, p, clean);
    MoveToProductBacklogKeepsConsistent(db0, sid, p, clean);
    var b := store.ProductBacklogGetOrCreate(p);
    ghost var db1 := store.State();
    assert db1 == AfterGetOrCreateProductBacklog(db0, p);
    var story := store.stories[sid];
    story := story.(sprintBacklog := None);
    story := story.(productBacklog := Some(b));
    if !clean {
      return Err(ValidationError);
    }
    store.stories := store.stories[sid := story];
    r := Ok(story);
    assert store.State() == want.0;
  }

  method DeleteUserStory(store: Store, sid: StoryId)
    requires store.Valid()
    modifies store
    ensures store.Valid()
    ensures store.State() == AfterDeleteUserStory(old(store.State()), sid)
  {
    DeleteKeepsConsistent(store.State(), sid);
    store.stories := store.stories - {sid};
  }
}
