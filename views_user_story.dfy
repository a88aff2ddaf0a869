/** The user-story views: every handler resolves the story's project (or takes the project or
    sprint from the URL), refuses anyone who does not belong to that project before doing
    anything, and then shows a page or performs one change. `form` stands for the story fields
    UserStoryForm cleaned. UserStoryForm is not part of this model; the create handlers assume
    its fields do not include the two backlog references, which the handlers set themselves. */
module UserStoryViews {
  import opened Wrappers
  import opened Models
  import opened UserStoryService

  /** The stories a backlog's `user_stories` relation returns. */
  function ProductBacklogStories(db: Db, b: BacklogId): (r: set<StoryId>)
    ensures forall s :: s in r <==> s in db.stories && db.stories[s].productBacklog == Some(b)
  {
    set s | s in db.stories && db.stories[s].productBacklog == Some(b)
  }

  function SprintBacklogStories(db: Db, b: BacklogId): (r: set<StoryId>)
    ensures forall s :: s in r <==> s in db.stories && db.stories[s].sprintBacklog == Some(b)
  {
    set s | s in db.stories && db.stories[s].sprintBacklog == Some(b)
  }

  // ----- The gate of the handlers that start from a story -----

  /** `get_object_or_404(UserStory, pk=pk)`, the project resolved from the story's backlog
      reference, then the member gate (a refusal redirects with an error message). The result is
      the story's project. */
  function StoryGate(db: Db, sid: StoryId, u: UserId): (r: Result<ProjectId>)
    ensures sid !in db.stories ==> r == Err(NotFound)
    ensures r.Ok? <==> sid in db.stories && GetProjectFromUserStory(db, db.stories[sid]).Ok?
                       && IsMember(db, GetProjectFromUserStory(db, db.stories[sid]).value, u)
    ensures r.Ok? ==> r == GetProjectFromUserStory(db, db.stories[sid]) && r.value in db.projects
    ensures sid in db.stories && GetProjectFromUserStory(db, db.stories[sid]).Err? ==>
      r == GetProjectFromUserStory(db, db.stories[sid])
    ensures sid in db.stories && GetProjectFromUserStory(db, db.stories[sid]).Ok?
            && !IsMember(db, GetProjectFromUserStory(db, db.stories[sid]).value, u)
            ==> r == Err(Denied)
  {
    if sid !in db.stories then Err(NotFound)
    else match GetProjectFromUserStory(db, db.stories[sid])
      case Err(e) => Err(e)
      case Ok(p) => if IsMember(db, p, u) then Ok(p) else Err(Denied)
  }

  /** In a consistent store the gate passes exactly the members of the project the story's
      backlog belongs to. */
  lemma StoryGateInProductBacklog(db: Db, sid: StoryId, p: ProjectId, u: UserId)
    requires Consistent(db) && sid in db.stories
    requires BacklogOf(db.productBacklogs, p).Some? && db.stories[sid].productBacklog == BacklogOf(db.productBacklogs, p)
    ensures StoryGate(db, sid, u).Ok? <==> IsMember(db, p, u)
  {
    ResolveInProductBacklog(db, db.stories[sid], p);
  }

  lemma StoryGateInSprintBacklog(db: Db, sid: StoryId, s: SprintId, u: UserId)
    requires Consistent(db) && sid in db.stories && s in db.sprints
    requires db.stories[sid].productBacklog.None?
    requires BacklogOf(db.sprintBacklogs, s).Some? && db.stories[sid].sprintBacklog == BacklogOf(db.sprintBacklogs, s)
    ensures StoryGate(db, sid, u).Ok? <==> IsMember(db, db.sprints[s].project, u)
  {
    ResolveInSprintBacklog(db, db.stories[sid], s);
  }

  /** user_story_detail_view: the story and its project, for members of that project. */
  function UserStoryDetailView(db: Db, sid: StoryId, u: UserId): (r: Result<(UserStory, ProjectId)>)
    ensures r.Ok? <==> StoryGate(db, sid, u).Ok?
    ensures r.Err? ==> r.error == StoryGate(db, sid, u).error
    ensures r.Ok? ==> r.value == (db.stories[sid], StoryGate(db, sid, u).value)
  {
    match StoryGate(db, sid, u)
    case Err(e) => Err(e)
    case Ok(p) => Ok((db.stories[sid], p))
  }

  /** The move form's initial target: "sprint" for a story in a product backlog, else "product". */
  function InitialMoveTo(st: UserStory): (r: string)
    ensures r == "sprint" || r == "product"
    ensures r == "sprint" <==> st.productBacklog.Some?
  {
    if st.productBacklog.Some? then "sprint" else "product"
  }

  /** For a placed story the initial target is the kind of backlog it is not in. */
  lemma InitialMoveToIsOpposite(db: Db, st: UserStory)
    requires Placed(db, st)
    ensures InitialMoveTo(st) == "product" <==> st.sprintBacklog.Some?
    ensures InitialMoveTo(st) == "sprint" <==> st.sprintBacklog.None?
  {
  }

  // ----- Handlers that start from a project or a sprint -----

  /** product_backlog_view: 404, the member gate, then get_or_create of the project's product
      backlog, which may add a backlog row even though the page only shows it. */
  method ProductBacklogView(store: Store, pk: ProjectId, u: UserId) returns (r: Result<(BacklogId, set<StoryId>)>)
    requires store.Valid()
    modifies store
    ensures store.Valid()
    ensures pk !in old(store.projects) ==> r == Err(NotFound) && store.State() == old(store.State())
    ensures pk in old(store.projects) && !IsMember(old(store.State()), pk, u) ==>
      r == Err(Denied) && store.State() == old(store.State())
    ensures IsMember(old(store.State()), pk, u) ==>
      && store.State() == AfterGetOrCreateProductBacklog(old(store.State()), pk)
      && r.Ok? && BacklogOf(store.productBacklogs, pk) == Some(r.value.0)
      && r.value.1 == ProductBacklogStories(store.State(), r.value.0)
  {
    if pk !in store.projects {
      return Err(NotFound);
    }
    if !IsMember(store.State(), pk, u) {
      return Err(Denied);
    }
    var b := store.ProductBacklogGetOrCreate(pk);
    r := Ok((b, ProductBacklogStories(store.State(), b)));
  }

  /** sprint_backlog_view: the same for a sprint, gated on the sprint's project. */
  method SprintBacklogView(store: Store, spk: SprintId, u: UserId) returns (r: Result<(BacklogId, set<StoryId>)>)
    requires store.Valid()
    modifies store
    ensures store.Valid()
    ensures spk !in old(store.sprints) ==> r == Err(NotFound) && store.State() == old(store.State())
    ensures spk in old(store.sprints) && !IsMember(old(store.State()), old(store.sprints[spk].project), u) ==>
      r == Err(Denied) && store.State() == old(store.State())
    ensures spk in old(store.sprints) && IsMember(old(store.State()), old(store.sprints[spk].project), u) ==>
      && store.State() == AfterGetOrCreateSprintBacklog(old(store.State()), spk)
      && r.Ok? && BacklogOf(store.sprintBacklogs, spk) == Some(r.value.0)
      && r.value.1 == SprintBacklogStories(store.State(), r.value.0)
  {
    if spk !in store.sprints {
      return Err(NotFound);
    }
    if !IsMember(store.State(), store.sprints[spk].project, u) {
      return Err(Denied);
    }
    var b := store.SprintBacklogGetOrCreate(spk);
    r := Ok((b, SprintBacklogStories(store.State(), b)));
  }

  /** user_story_create_for_product_backlog: 404, the member gate, get_or_create of the product
      backlog (on every request that passes the gate), and on a valid POST the form's story saved
      into that backlog. */
  method CreateForProductBacklogView(store: Store, pk: ProjectId, u: UserId, isPost: bool, formValid: bool, form: Attrs)
    returns (r: Result<Outcome>)
    requires store.Valid() && form.Keys !! BacklogKeys
    modifies store
    ensures store.Valid()
    ensures pk !in old(store.projects) ==> r == Err(NotFound) && store.State() == old(store.State())
    ensures pk in old(store.projects) && !IsMember(old(store.State()), pk, u) ==>
      r == Err(Denied) && store.State() == old(store.State())
    ensures IsMember(old(store.State()), pk, u) && !(isPost && formValid) ==>
      r == Ok(Shown) && store.State() == AfterGetOrCreateProductBacklog(old(store.State()), pk)
    ensures IsMember(old(store.State()), pk, u) && isPost && formValid ==>
      r == Ok(Done) && store.State() == AfterCreateForProductBacklog(old(store.State()), pk, form, true).0
  {
    if pk !in store.projects {
      return Err(NotFound);
    }
    if !IsMember(store.State(), pk, u) {
      return Err(Denied);
    }
    ghost var db0 := store.State();
    ghost var want := AfterCreateForProductBacklog(db0, pk, form, true).0;
    var b := store.ProductBacklogGetOrCreate(pk);
    ghost var db1 := store.State();
    assert db1 == AfterGetOrCreateProductBacklog(db0, pk);
    if !(isPost && formValid) {
      return Ok(Shown);
    }
    var story := UserStory(form, Some(b), None);
    var id := SaveNewStory(store, story);
    assert form - BacklogKeys == form;
    assert store.State() == db1.(stories := db1.stories[id := story], nextId := id + 1) == want;
    r := Ok(Done);
  }

  /** user_story_create_for_sprint_backlog: the same for a sprint's backlog. */
  method CreateForSprintBacklogView(store: Store, spk: SprintId, u: UserId, isPost: bool, formValid: bool, form: Attrs)
    returns (r: Result<Outcome>)
    requires store.Valid() && form.Keys !! BacklogKeys
    modifies store
    ensures store.Valid()
    ensures spk !in old(store.sprints) ==> r == Err(NotFound) && store.State() == old(store.State())
    ensures spk in old(store.sprints) && !IsMember(old(store.State()), old(store.sprints[spk].project), u) ==>
      r == Err(Denied) && store.State() == old(store.State())
    ensures spk in old(store.sprints) && IsMember(old(store.State()), old(store.sprints[spk].project), u) && !(isPost && formValid) ==>
      r == Ok(Shown) && store.State() == AfterGetOrCreateSprintBacklog(old(store.State()), spk)
    ensures spk in old(store.sprints) && IsMember(old(store.State()), old(store.sprints[spk].project), u) && isPost && formValid ==>
      r == Ok(Done) && store.State() == AfterCreateForSprintBacklog(old(store.State()), spk, form, true).0
  {
    if spk !in store.sprints {
      return Err(NotFound);
    }
    if !IsMember(store.State(), store.sprints[spk].project, u) {
      return Err(Denied);
    }
    ghost var db0 := store.State();
    ghost var want := AfterCreateForSprintBacklog(db0, spk, form, true).0;
    var b := store.SprintBacklogGetOrCreate(spk);
    ghost var db1 := store.State();
    assert db1 == AfterGetOrCreateSprintBacklog(db0, spk);
    if !(isPost && formValid) {
      return Ok(Shown);
    }
    var story := UserStory(form, None, Some(b));
    var id := SaveNewStory(store, story);
    assert form - BacklogKeys == form;
    assert store.State() == db1.(stories := db1.stories[id := story], nextId := id + 1) == want;
    r := Ok(Done);
  }

  // ----- Handlers that start from a story -----

  /** user_story_update_view: after the gate, a valid POST writes the form's fields into the story
      and saves it. */
  method UserStoryUpdateView(store: Store, sid: StoryId, u: UserId, isPost: bool, formValid: bool, form: Attrs)
    returns (r: Result<Outcome>)
    requires store.Valid()
    modifies store
    ensures store.Valid()
    ensures StoryGate(old(store.State()), sid, u).Err? ==>
      r == Err(StoryGate(old(store.State()), sid, u).error) && store.State() == old(store.State())
    ensures StoryGate(old(store.State()), sid, u).Ok? && !(isPost && formValid) ==>
      r == Ok(Shown) && store.State() == old(store.State())
    ensures StoryGate(old(store.State()), sid, u).Ok? && isPost && formValid ==>
      r == Ok(Done) && store.State() == AfterUpdateUserStory(old(store.State()), sid, form, true).0
  {
    var gate := StoryGate(store.State(), sid, u);
    if gate.Err? {
      return Err(gate.error);
    }
    if !(isPost && formValid) {
      return Ok(Shown);
    }
    ghost var db0 := store.State();
    UpdateKeepsConsistent(db0, sid, form, true);
    var story := store.stories[sid];
    store.stories := store.stories[sid := story.(attrs := story.attrs + form)];
    assert store.State() == AfterUpdateUserStory(db0, sid, form, true).0;
    r := Ok(Done);
  }

  /** user_story_delete_view: after the gate, only a POST deletes the story. */
  method UserStoryDeleteView(store: Store, sid: StoryId, u: UserId, isPost: bool) returns (r: Result<Outcome>)
    requires store.Valid()
    modifies store
    ensures store.Valid()
    ensures StoryGate(old(store.State()), sid, u).Err? ==>
      r == Err(StoryGate(old(store.State()), sid, u).error) && store.State() == old(store.State())
    ensures StoryGate(old(store.State()), sid, u).Ok? && !isPost ==>
      r == Ok(Shown) && store.State() == old(store.State())
    ensures StoryGate(old(store.State()), sid, u).Ok? && isPost ==>
      r == Ok(Done) && store.State() == AfterDeleteUserStory(old(store.State()), sid)
  {
    var gate := StoryGate(store.State(), sid, u);
    if gate.Err? {
      return Err(gate.error);
    }
    if !isPost {
      return Ok(Shown);
    }
    DeleteUserStory(store, sid);
    r := Ok(Done);
  }

  /** user_story_move_view: after the gate, a valid POST with target "product" moves the story to
      its project's product backlog; any other target looks the chosen sprint up (404 if it does
      not exist) and moves the story to that sprint's backlog. The model-level
      `UserStory.move_to_product_backlog` and `move_to_sprint` the view calls are not visible; they
      are given the effect of the service operations of the same name with a validation that
      passes. */
  method UserStoryMoveView(store: Store, sid: StoryId, u: UserId, isPost: bool, formValid: bool,
                           moveTo: string, sprint: SprintId) returns (r: Result<Outcome>)
    requires store.Valid()
    modifies store
    ensures store.Valid()
    ensures StoryGate(old(store.State()), sid, u).Err? ==>
      r == Err(StoryGate(old(store.State()), sid, u).error) && store.State() == old(store.State())
    ensures StoryGate(old(store.State()), sid, u).Ok? && !(isPost && formValid) ==>
      r == Ok(Shown) && store.State() == old(store.State())
    ensures StoryGate(old(store.State()), sid, u).Ok? && isPost && formValid && moveTo == "product" ==>
      r == Ok(Done) &&
      store.State() == AfterMoveToProductBacklog(old(store.State()), sid, StoryGate(old(store.State()), sid, u).value, true).0
    ensures StoryGate(old(store.State()), sid, u).Ok? && isPost && formValid && moveTo != "product" && sprint !in old(store.sprints) ==>
      r == Err(NotFound) && store.State() == old(store.State())
    ensures StoryGate(old(store.State()), sid, u).Ok? && isPost && formValid && moveTo != "product" && sprint in old(store.sprints) ==>
      r == Ok(Done) && store.State() == AfterMoveToSprint(old(store.State()), sid, sprint, true).0
  {
    var gate := StoryGate(store.State(), sid, u);
    if gate.Err? {
      return Err(gate.error);
    }
    if !(isPost && formValid) {
      return Ok(Shown);
    }
    if moveTo == "product" {
      var _ := MoveToProductBacklog(store, sid, gate.value, true);
      return Ok(Done);
    }
    if sprint !in store.sprints {
      return Err(NotFound);
    }
    var _ := MoveToSprint(store, sid, sprint, true);
    r := Ok(Done);
  }
}
