/** The store and the mutation resolvers: the three tables the running system
    loads once and then changes in place with `push`, index assignment and
    `splice(i, 1)`, and the facts that tie the tables after a mutation to the
    lookups of the accessors. */
module Store {
  import opened Wrappers
  import opened JsArray
  import opened Records
  import opened Accessors

  /** `app(id)` resolves by id exactly as `find((el) => el.id === id)` does. */
  lemma LookupAppById(apps: seq<App>, id: Id)
    ensures LookupApp(apps, Some(id), None) == Find(apps, AppWithId(id))
    ensures id in AppIds(apps) <==> Find(apps, AppWithId(id)).Some?
  {
  }

  /** `stage(id)` resolves by id exactly as `find((el) => el.id === id)` does. */
  lemma LookupStageById(stages: seq<Stage>, id: Id)
    ensures LookupStage(stages, Some(id), None) == Find(stages, StageWithId(id))
    ensures id in StageIds(stages) <==> Find(stages, StageWithId(id)).Some?
  {
  }

  /** `event(id)` resolves by id exactly as `find((el) => el.id === id)` does. */
  lemma LookupEventById(events: seq<Event>, id: Id)
    ensures LookupEvent(events, Some(id), None) == Find(events, EventWithId(id))
    ensures id in EventIds(events) <==> Find(events, EventWithId(id)).Some?
  {
  }

  /** Re-resolving an app of a table with distinct ids by its own id, as
      `allApps` and the traversals do with `new App(el.id)`, gives back that app. */
  lemma AppReResolves(apps: seq<App>, i: int)
    requires DistinctBy(apps, AppKey)
    requires 0 <= i < |apps|
    ensures LookupApp(apps, Some(apps[i].id), None) == Some(apps[i])
  {
  }

  /** Re-resolving a stage by its own id gives back that stage when ids are distinct. */
  lemma StageReResolves(stages: seq<Stage>, i: int)
    requires DistinctBy(stages, StageKey)
    requires 0 <= i < |stages|
    ensures LookupStage(stages, Some(stages[i].id), None) == Some(stages[i])
  {
  }

  /** Re-resolving an event by its own id gives back that event when ids are distinct. */
  lemma EventReResolves(events: seq<Event>, i: int)
    requires DistinctBy(events, EventKey)
    requires 0 <= i < |events|
    ensures LookupEvent(events, Some(events[i].id), None) == Some(events[i])
  {
  }

  /** After `createApp` with a fresh id, `app(id)` resolves to the new record. */
  lemma CreatedAppResolves(apps: seq<App>, id: Id, name: string)
    requires id !in AppIds(apps)
    ensures LookupApp(apps + [App(id, name)], Some(id), None) == Some(App(id, name))
  {
    LookupAppById(apps, id);
    LookupAppById(apps + [App(id, name)], id);
    FindAfterPush(apps, App(id, name), AppWithId(id));
  }

  /** After `createStage` with a fresh id, `stage(id)` resolves to the new record. */
  lemma CreatedStageResolves(stages: seq<Stage>, id: Id, name: string)
    requires id !in StageIds(stages)
    ensures LookupStage(stages + [Stage(id, name)], Some(id), None) == Some(Stage(id, name))
  {
    LookupStageById(stages, id);
    LookupStageById(stages + [Stage(id, name)], id);
    FindAfterPush(stages, Stage(id, name), StageWithId(id));
  }

  /** After `createEvent` with a fresh id, `event(id)` resolves to `{ id, ...input }`. */
  lemma CreatedEventResolves(events: seq<Event>, id: Id, input: EventInput)
    requires id !in EventIds(events)
    ensures LookupEvent(events + [WithId(id, input)], Some(id), None) == Some(WithId(id, input))
  {
    LookupEventById(events, id);
    LookupEventById(events + [WithId(id, input)], id);
    FindAfterPush(events, WithId(id, input), EventWithId(id));
  }

  /** After `updateApp`, `app(id)` resolves to the same id with the new name. */
  lemma UpdatedAppResolves(apps: seq<App>, id: Id, name: string)
    requires id in AppIds(apps)
    ensures FindIndex(apps, AppWithId(id)) != -1
    ensures LookupApp(apps[FindIndex(apps, AppWithId(id)) := App(id, name)], Some(id), None)
      == Some(App(id, name))
  {
  }

  /** After `updateStage`, `stage(id)` resolves to the same id with the new name. */
  lemma UpdatedStageResolves(stages: seq<Stage>, id: Id, name: string)
    requires id in StageIds(stages)
    ensures FindIndex(stages, StageWithId(id)) != -1
    ensures LookupStage(stages[FindIndex(stages, StageWithId(id)) := Stage(id, name)], Some(id), None)
      == Some(Stage(id, name))
  {
  }

  /** After `updateEvent`, `event(id)` resolves to exactly the input's fields
      paired with the original id: a full overwrite, not a merge. */
  lemma UpdatedEventResolves(events: seq<Event>, id: Id, input: EventInput)
    requires id in EventIds(events)
    ensures FindIndex(events, EventWithId(id)) != -1
    ensures LookupEvent(events[FindIndex(events, EventWithId(id)) := WithId(id, input)], Some(id), None)
      == Some(WithId(id, input))
  {
  }

  /** After `deleteApp` on a table with distinct ids, `app(id)` finds nothing. */
  lemma DeletedAppIsGone(apps: seq<App>, id: Id)
    requires DistinctBy(apps, AppKey)
    requires id in AppIds(apps)
    ensures FindIndex(apps, AppWithId(id)) != -1
    ensures LookupApp(Splice(apps, FindIndex(apps, AppWithId(id))), Some(id), None).None?
  {
  }

  /** After `deleteStage` on a table with distinct ids, `stage(id)` finds nothing. */
  lemma DeletedStageIsGone(stages: seq<Stage>, id: Id)
    requires DistinctBy(stages, StageKey)
    requires id in StageIds(stages)
    ensures FindIndex(stages, StageWithId(id)) != -1
    ensures LookupStage(Splice(stages, FindIndex(stages, StageWithId(id))), Some(id), None).None?
  {
  }

  /** After `deleteEvent` on a table with distinct ids, `event(id)` finds nothing. */
  lemma DeletedEventIsGone(events: seq<Event>, id: Id)
    requires DistinctBy(events, EventKey)
    requires id in EventIds(events)
    ensures FindIndex(events, EventWithId(id)) != -1
    ensures LookupEvent(Splice(events, FindIndex(events, EventWithId(id))), Some(id), None).None?
  {
  }

  /** No cascade: `deleteStage` leaves the events alone, so every event held on
      the deleted stage now has a `stage` that fails to resolve. */
  lemma DeletedStageLeavesEventsDangling(stages: seq<Stage>, events: seq<Event>, id: Id)
    requires DistinctBy(stages, StageKey)
    requires id in StageIds(stages)
    ensures FindIndex(stages, StageWithId(id)) != -1
    ensures forall e :: e in events && e.stageId == id ==>
      EventStage(Splice(stages, FindIndex(stages, StageWithId(id))), e).None?
  {
  }

  /** After `createEvent`, `getEventsBetween` gives its old result followed by the
      new event when the event lies in the window. */
  lemma EventsBetweenAfterCreate(events: seq<Event>, e: Event, start: int, end: int)
    ensures EventsBetween(events + [e], start, end)
      == EventsBetween(events, start, end) + (if start <= e.startsAt && e.endsAt <= end then [e] else [])
  {
    FilterAppend(events, [e], InWindow(start, end));
    assert [e][1..] == [];
  }

  /** After `createEvent`, `Stage.events()` gives its old result followed by the
      new event when the event is held on that stage. */
  lemma StageEventsAfterCreate(events: seq<Event>, e: Event, stage: Stage)
    ensures StageEvents(events + [e], stage)
      == StageEvents(events, stage) + (if e.stageId == stage.id then [e] else [])
  {
    FilterAppend(events, [e], AtStage(stage.id));
    assert [e][1..] == [];
  }

  /** The in-memory store: the `apps`, `stages` and `events` arrays of the loaded
      document, in table order. */
  class Store {
    var apps: seq<App>
    var stages: seq<Stage>
    var events: seq<Event>

    /** Each table holds at most one record per id, as ids drawn from `uuid.v4()`
        do. The initial document is not checked for it; every mutation keeps it. */
    ghost predicate IdsDistinct()
      reads this
    {
      DistinctBy(apps, AppKey) && DistinctBy(stages, StageKey) && DistinctBy(events, EventKey)
    }

    /** The store as loaded from the initial document. */
    constructor (apps0: seq<App>, stages0: seq<Stage>, events0: seq<Event>)
      ensures apps == apps0 && stages == stages0 && events == events0
    {
      apps, stages, events := apps0, stages0, events0;
    }

    /*---------------- create ----------------*/

    /** `createApp`: throws without an input; refuses a name already in use;
        otherwise appends one record with the fresh id (the `uuid.v4()` of the
        source) and returns it. */
    method CreateApp(input: Option<AppStageInput>, id: Id) returns (r: Outcome<App>)
      requires id !in AppIds(apps)
      modifies this
      ensures stages == old(stages) && events == old(events)
      ensures input.None? ==> r == Fail(MissingInput) && apps == old(apps)
      ensures input.Some? && input.value.name in AppNames(old(apps)) ==>
        r == Fail(AlreadyExists(input.value.name)) && apps == old(apps)
      ensures input.Some? && input.value.name !in AppNames(old(apps)) ==>
        r == Ok(App(id, input.value.name)) && apps == old(apps) + [App(id, input.value.name)]
      ensures old(IdsDistinct()) ==> IdsDistinct()
    {
      if input.None? {
        return Fail(MissingInput);
      }
      var name := input.value.name;
      var appNames := AppNames(apps);
      if name in appNames {
        return Fail(AlreadyExists(name));
      }
      CreatedAppResolves(apps, id, name);
      MapIncludes(apps, AppKey, id);
      if DistinctBy(apps, AppKey) {
        PushKeepsDistinct(apps, App(id, name), AppKey);
      }
      apps := apps + [App(id, name)];
      var created := LookupApp(apps, Some(id), None);
      r := Ok(created.value);
    }

    /** `createStage`: throws without an input; refuses a name already in use;
        otherwise appends one record with the fresh id and returns it. */
    method CreateStage(input: Option<AppStageInput>, id: Id) returns (r: Outcome<Stage>)
      requires id !in StageIds(stages)
      modifies this
      ensures apps == old(apps) && events == old(events)
      ensures input.None? ==> r == Fail(MissingInput) && stages == old(stages)
      ensures input.Some? && input.value.name in StageNames(old(stages)) ==>
        r == Fail(AlreadyExists(input.value.name)) && stages == old(stages)
      ensures input.Some? && input.value.name !in StageNames(old(stages)) ==>
        r == Ok(Stage(id, input.value.name)) && stages == old(stages) + [Stage(id, input.value.name)]
      ensures old(IdsDistinct()) ==> IdsDistinct()
    {
      if input.None? {
        return Fail(MissingInput);
      }
      var name := input.value.name;
      var stageNames := StageNames(stages);
      if name in stageNames {
        return Fail(AlreadyExists(name));
      }
      CreatedStageResolves(stages, id, name);
      MapIncludes(stages, StageKey, id);
      if DistinctBy(stages, StageKey) {
        PushKeepsDistinct(stages, Stage(id, name), StageKey);
      }
      stages := stages + [Stage(id, name)];
      var created := LookupStage(stages, Some(id), None);
      r := Ok(created.value);
    }

    /** `createEvent`: throws without an input; refuses a name already in use
        among events; otherwise appends `{ id, ...input }`. The input's `appId`
        and `stageId` are not checked against the other tables. */
    method CreateEvent(given: Option<EventInput>, id: Id) returns (r: Outcome<Event>)
      requires id !in EventIds(events)
      modifies this
      ensures apps == old(apps) && stages == old(stages)
      ensures given.None? ==> r == Fail(MissingInput) && events == old(events)
      ensures given.Some? && given.value.name in EventNames(old(events)) ==>
        r == Fail(AlreadyExists(given.value.name)) && events == old(events)
      ensures given.Some? && given.value.name !in EventNames(old(events)) ==>
        r == Ok(WithId(id, given.value)) && events == old(events) + [WithId(id, given.value)]
      ensures old(IdsDistinct()) ==> IdsDistinct()
    {
      if given.None? {
        return Fail(MissingInput);
      }
      var input := given.value;
      var eventNames := EventNames(events);
      if input.name in eventNames {
        return Fail(AlreadyExists(input.name));
      }
      CreatedEventResolves(events, id, input);
      MapIncludes(events, EventKey, id);
      if DistinctBy(events, EventKey) {
        PushKeepsDistinct(events, WithId(id, input), EventKey);
      }
      events := events + [WithId(id, input)];
      var created := LookupEvent(events, Some(id), None);
      r := Ok(created.value);
    }

    /*---------------- update ----------------*/

    /** `updateApp`: throws without an input (`const { name } = input` comes
        before the id check); refuses an absent id; otherwise renames the first
        app with that id, keeping its id, its position and every other record.
        The new name is not checked for uniqueness. */
    method UpdateApp(id: Id, input: Option<AppStageInput>) returns (r: Outcome<App>)
      modifies this
      ensures stages == old(stages) && events == old(events)
      ensures input.None? ==> r == Fail(MissingInput) && apps == old(apps)
      ensures input.Some? && id !in AppIds(old(apps)) ==> r == Fail(NotFound(id)) && apps == old(apps)
      ensures input.Some? && id in AppIds(old(apps)) ==>
        var i := FindIndex(old(apps), AppWithId(id));
        0 <= i && apps == old(apps)[i := App(id, input.value.name)] && r == Ok(App(id, input.value.name))
      ensures old(IdsDistinct()) ==> IdsDistinct()
    {
      if input.None? {
        return Fail(MissingInput);
      }
      var name := input.value.name;
      var appIds := AppIds(apps);
      if id !in appIds {
        return Fail(NotFound(id));
      }
      UpdatedAppResolves(apps, id, name);
      LookupAppById(apps, id);
      IndexOfFind(apps, AppWithId(id));
      var oldRecord := Find(apps, AppWithId(id));
      var recordIndex := IndexOf(apps, oldRecord.value);
      if DistinctBy(apps, AppKey) {
        OverwriteKeepsDistinct(apps, recordIndex, App(id, name), AppKey);
      }
      apps := apps[recordIndex := apps[recordIndex].(name := name)];
      var updated := LookupApp(apps, Some(id), None);
      r := Ok(updated.value);
    }

    /** `updateStage`: throws without an input; refuses an absent id; otherwise
        renames the first stage with that id, keeping its id, its position and
        every other record. */
    method UpdateStage(id: Id, input: Option<AppStageInput>) returns (r: Outcome<Stage>)
      modifies this
      ensures apps == old(apps) && events == old(events)
      ensures input.None? ==> r == Fail(MissingInput) && stages == old(stages)
      ensures input.Some? && id !in StageIds(old(stages)) ==> r == Fail(NotFound(id)) && stages == old(stages)
      ensures input.Some? && id in StageIds(old(stages)) ==>
        var i := FindIndex(old(stages), StageWithId(id));
        0 <= i && stages == old(stages)[i := Stage(id, input.value.name)] && r == Ok(Stage(id, input.value.name))
      ensures old(IdsDistinct()) ==> IdsDistinct()
    {
      if input.None? {
        return Fail(MissingInput);
      }
      var name := input.value.name;
      var stageIds := StageIds(stages);
      if id !in stageIds {
        return Fail(NotFound(id));
      }
      UpdatedStageResolves(stages, id, name);
      LookupStageById(stages, id);
      IndexOfFind(stages, StageWithId(id));
      var oldRecord := Find(stages, StageWithId(id));
      var recordIndex := IndexOf(stages, oldRecord.value);
      if DistinctBy(stages, StageKey) {
        OverwriteKeepsDistinct(stages, recordIndex, Stage(id, name), StageKey);
      }
      stages := stages[recordIndex := stages[recordIndex].(name := name)];
      var updated := LookupStage(stages, Some(id), None);
      r := Ok(updated.value);
    }

    /** `updateEvent`: refuses an absent id; otherwise replaces the first event
        with that id by `{ id, ...input }`, every field but the id overwritten. */
    method UpdateEvent(id: Id, input: EventInput) returns (r: Outcome<Event>)
      modifies this
      ensures apps == old(apps) && stages == old(stages)
      ensures id !in EventIds(old(events)) ==> r == Fail(NotFound(id)) && events == old(events)
      ensures id in EventIds(old(events)) ==>
        var i := FindIndex(old(events), EventWithId(id));
        0 <= i && events == old(events)[i := WithId(id, input)] && r == Ok(WithId(id, input))
      ensures old(IdsDistinct()) ==> IdsDistinct()
    {
      var eventIds := EventIds(events);
      if id !in eventIds {
        return Fail(NotFound(id));
      }
      UpdatedEventResolves(events, id, input);
      LookupEventById(events, id);
      IndexOfFind(events, EventWithId(id));
      var oldRecord := Find(events, EventWithId(id));
      var recordIndex := IndexOf(events, oldRecord.value);
      if DistinctBy(events, EventKey) {
        OverwriteKeepsDistinct(events, recordIndex, WithId(id, input), EventKey);
      }
      events := events[recordIndex := WithId(id, input)];
      var updated := LookupEvent(events, Some(id), None);
      r := Ok(updated.value);
    }

    /*---------------- delete ----------------*/

    /** `deleteApp`: refuses an absent id; otherwise splices out the first app with
        that id and confirms. Events of the app are kept (no cascade). */
    method DeleteApp(id: Id) returns (r: Outcome<string>)
      modifies this
      ensures stages == old(stages) && events == old(events)
      ensures id !in AppIds(old(apps)) ==> r == Fail(NotFound(id)) && apps == old(apps)
      ensures id in AppIds(old(apps)) ==>
        var i := FindIndex(old(apps), AppWithId(id));
        0 <= i && apps == Splice(old(apps), i)
        && r == Ok("Removed app with id " + id + " from database")
      ensures old(IdsDistinct()) ==> IdsDistinct()
    {
      var appIds := AppIds(apps);
      if id !in appIds {
        return Fail(NotFound(id));
      }
      LookupAppById(apps, id);
      IndexOfFind(apps, AppWithId(id));
      var oldRecord := Find(apps, AppWithId(id));
      var recordIndex := IndexOf(apps, oldRecord.value);
      if DistinctBy(apps, AppKey) {
        SpliceRemovesKey(apps, recordIndex, AppKey);
      }
      apps := Splice(apps, recordIndex);
      r := Ok("Removed app with id " + id + " from database");
    }

    /** `deleteStage`: refuses an absent id; otherwise splices out the first stage
        with that id and confirms. Events held on it are kept (no cascade). */
    method DeleteStage(id: Id) returns (r: Outcome<string>)
      modifies this
      ensures apps == old(apps) && events == old(events)
      ensures id !in StageIds(old(stages)) ==> r == Fail(NotFound(id)) && stages == old(stages)
      ensures id in StageIds(old(stages)) ==>
        var i := FindIndex(old(stages), StageWithId(id));
        0 <= i && stages == Splice(old(stages), i)
        && r == Ok("Removed stage with id " + id + " from database")
      ensures old(IdsDistinct()) ==> IdsDistinct()
    {
      var stageIds := StageIds(stages);
      if id !in stageIds {
        return Fail(NotFound(id));
      }
      LookupStageById(stages, id);
      IndexOfFind(stages, StageWithId(id));
      var oldRecord := Find(stages, StageWithId(id));
      var recordIndex := IndexOf(stages, oldRecord.value);
      if DistinctBy(stages, StageKey) {
        SpliceRemovesKey(stages, recordIndex, StageKey);
      }
      stages := Splice(stages, recordIndex);
      r := Ok("Removed stage with id " + id + " from database");
    }

    /** `deleteEvent`: refuses an absent id; otherwise splices out the first event
        with that id and confirms. */
    method DeleteEvent(id: Id) returns (r: Outcome<string>)
      modifies this
      ensures apps == old(apps) && stages == old(stages)
      ensures id !in EventIds(old(events)) ==> r == Fail(NotFound(id)) && events == old(events)
      ensures id in EventIds(old(events)) ==>
        var i := FindIndex(old(events), EventWithId(id));
        0 <= i && events == Splice(old(events), i)
        && r == Ok("Removed event with id " + id + " from database")
      ensures old(IdsDistinct()) ==> IdsDistinct()
    {
      var eventIds := EventIds(events);
      if id !in eventIds {
        return Fail(NotFound(id));
      }
      LookupEventById(events, id);
      IndexOfFind(events, EventWithId(id));
      var oldRecord := Find(events, EventWithId(id));
      var recordIndex := IndexOf(events, oldRecord.value);
      if DistinctBy(events, EventKey) {
        SpliceRemovesKey(events, recordIndex, EventKey);
      }
      events := Splice(events, recordIndex);
      r := Ok("Removed event with id " + id + " from database");
    }
  }

  /** A client of the contracts alone: an app is created, and a second app with
      the same name is refused without changing the table. */
  method DuplicateNameRefused()
  {
    var store := new Store([], [], []);
    var app := store.CreateApp(Some(AppStageInput("Fest")), "a1");
    assert app == Ok(App("a1", "Fest"));
    assert AppIds(store.apps) == ["a1"];
    assert AppNames(store.apps)[0] == "Fest";
    var dup := store.CreateApp(Some(AppStageInput("Fest")), "a2");
    assert dup == Fail(AlreadyExists("Fest"));
    assert store.apps == [App("a1", "Fest")];
  }

  /** A client of the contracts alone: an event is created on a stage, the stage
      is deleted, and the event is kept with a stage that no longer resolves. */
  method DeletedStageDangles()
  {
    var store := new Store([], [Stage("s1", "Main")], []);
    var input := EventInput("a1", "s1", "Opening", "", "", 10, 20);
    var event := store.CreateEvent(Some(input), "e1");
    assert store.events == [WithId("e1", input)];
    assert EventStage(store.stages, WithId("e1", input)) == Some(Stage("s1", "Main"));

    assert StageIds(store.stages)[0] == "s1";
    var gone := store.DeleteStage("s1");
    assert gone == Ok("Removed stage with id " + "s1" + " from database");
    assert store.stages == [];
    assert store.events == [WithId("e1", input)];
    assert EventStage(store.stages, WithId("e1", input)) == None;
  }
}
