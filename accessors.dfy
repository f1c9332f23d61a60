/** The `Event`, `Stage` and `App` accessor classes: lookup of one record by id or
    name, and the relationship traversals event -> stage, stage -> events,
    app -> events and app -> stages. Each reads the tables it is given. */
module Accessors {
  import opened Wrappers
  import opened JsArray
  import opened Records

  /** `el.id === id || el.name === name`. An argument that was not supplied is
      `undefined` in the source, and `undefined` equals no stored string. */
  predicate IdOrName(recordId: Id, recordName: string, id: Option<Id>, name: Option<string>)
  {
    (id.Some? && recordId == id.value) || (name.Some? && recordName == name.value)
  }

  /** `new App(id, name)`: the first app in table order whose id is `id` or whose
      name is `name`; `None` when there is none. */
  function LookupApp(apps: seq<App>, id: Option<Id>, name: Option<string>): (r: Option<App>)
    ensures r.None? <==> forall i :: 0 <= i < |apps| ==> !IdOrName(apps[i].id, apps[i].name, id, name)
    ensures r.Some? ==> exists i :: (0 <= i < |apps| && apps[i] == r.value
      && IdOrName(apps[i].id, apps[i].name, id, name)
      && forall j :: 0 <= j < i ==> !IdOrName(apps[j].id, apps[j].name, id, name))
  {
    Find(apps, (a: App) => IdOrName(a.id, a.name, id, name))
  }

  /** `new Stage(id, name)`: the first stage whose id is `id` or whose name is
      `name`; `None` when there is none. */
  function LookupStage(stages: seq<Stage>, id: Option<Id>, name: Option<string>): (r: Option<Stage>)
    ensures r.None? <==> forall i :: 0 <= i < |stages| ==> !IdOrName(stages[i].id, stages[i].name, id, name)
    ensures r.Some? ==> exists i :: (0 <= i < |stages| && stages[i] == r.value
      && IdOrName(stages[i].id, stages[i].name, id, name)
      && forall j :: 0 <= j < i ==> !IdOrName(stages[j].id, stages[j].name, id, name))
  {
    Find(stages, (s: Stage) => IdOrName(s.id, s.name, id, name))
  }

  /** `new Event(id, name)`: the first event whose id is `id` or whose name is
      `name`; `None` when there is none. */
  function LookupEvent(events: seq<Event>, id: Option<Id>, name: Option<string>): (r: Option<Event>)
    ensures r.None? <==> forall i :: 0 <= i < |events| ==> !IdOrName(events[i].id, events[i].name, id, name)
    ensures r.Some? ==> exists i :: (0 <= i < |events| && events[i] == r.value
      && IdOrName(events[i].id, events[i].name, id, name)
      && forall j :: 0 <= j < i ==> !IdOrName(events[j].id, events[j].name, id, name))
  {
    Find(events, (e: Event) => IdOrName(e.id, e.name, id, name))
  }

  /** `Event.stage()`: the stage `find` returns for the event's `stageId`, looked up
      again by its id. When no stage has that id the source dereferences
      `undefined` and throws; that failure is `None`. */
  function EventStage(stages: seq<Stage>, e: Event): (r: Option<Stage>)
    ensures r.None? <==> forall i :: 0 <= i < |stages| ==> stages[i].id != e.stageId
    ensures r.Some? ==> exists i :: (0 <= i < |stages| && stages[i] == r.value
      && r.value.id == e.stageId
      && forall j :: 0 <= j < i ==> stages[j].id != e.stageId)
  {
    match Find(stages, StageWithId(e.stageId))
    case None => None
    case Some(found) => LookupStage(stages, Some(found.id), None)
  }

  /** `(el) => el.stageId === this.stage.id`. */
  function AtStage(stageId: Id): Event -> bool { (e: Event) => e.stageId == stageId }

  /** `(el) => el.startsAt >= start && el.endsAt <= end`. */
  function InWindow(start: int, end: int): Event -> bool
  {
    (e: Event) => e.startsAt >= start && e.endsAt <= end
  }

  /** `Stage.events()`: the events held at the stage, as a filter on `stageId`. */
  function StageEvents(events: seq<Event>, stage: Stage): (r: seq<Event>)
    ensures forall e :: e in r <==> e in events && e.stageId == stage.id
    ensures forall e :: multiset(r)[e] == if e.stageId == stage.id then multiset(events)[e] else 0
    ensures IsSubsequence(r, events)
  {
    var atStage := AtStage(stage.id);
    FilterCounts(events, atStage);
    FilterIsSubsequence(events, atStage);
    Filter(events, atStage)
  }

  /** `App.events()`: the events whose `appId` is the id the accessor was built
      with (`this.appId`), not the id of the app it resolved to. Built from a name
      alone, that id is `undefined` and no event matches. */
  function AppEvents(events: seq<Event>, appId: Option<Id>): (r: seq<Event>)
    ensures forall e :: e in r <==> e in events && appId == Some(e.appId)
    ensures forall e :: multiset(r)[e] == if appId == Some(e.appId) then multiset(events)[e] else 0
    ensures IsSubsequence(r, events)
  {
    var inApp := (e: Event) => appId.Some? && e.appId == appId.value;
    FilterCounts(events, inApp);
    FilterIsSubsequence(events, inApp);
    Filter(events, inApp)
  }

  /** Some event of app `appId` is held on stage `stageId`. */
  predicate UsedByApp(events: seq<Event>, appId: Id, stageId: Id)
  {
    exists e :: e in events && e.appId == appId && e.stageId == stageId
  }

  /** The first step of `App.stages()`: each event mapped to its `stageId` when it
      belongs to the app, and to `undefined` otherwise. */
  function StageIdsInApp(events: seq<Event>, appId: Id): (r: seq<Option<Id>>)
    ensures |r| == |events|
    ensures forall i :: 0 <= i < |events| ==> (r[i].Some? <==> events[i].appId == appId)
    ensures forall i :: 0 <= i < |events| && r[i].Some? ==> r[i].value == events[i].stageId
  {
    Map(events, (e: Event) => if e.appId == appId then Some(e.stageId) else None)
  }

  /** `App.stages()`: the stages, in stage-table order, that some event of the app
      is held on. A stage's multiplicity is its multiplicity in the stage table,
      however many events use it; with distinct stage ids, each appears once. */
  function AppStages(events: seq<Event>, stages: seq<Stage>, app: App): (r: seq<Stage>)
    ensures forall s :: s in r <==> s in stages && UsedByApp(events, app.id, s.id)
    ensures forall s :: multiset(r)[s] == if UsedByApp(events, app.id, s.id) then multiset(stages)[s] else 0
    ensures IsSubsequence(r, stages)
    ensures DistinctBy(stages, StageKey) ==> DistinctBy(r, StageKey)
  {
    var ids := StageIdsInApp(events, app.id);
    var used := (s: Stage) => Some(s.id) in ids;
    StageIdsInAppIncludes(events, app.id);
    FilterCounts(stages, used);
    FilterIsSubsequence(stages, used);
    FilterKeepsDistinct(stages, used, StageKey);
    Filter(stages, used)
  }

  /** `stageIdsInApp.includes(id)` holds exactly when some event of the app is held
      on the stage with that id. */
  lemma StageIdsInAppIncludes(events: seq<Event>, appId: Id)
    ensures forall stageId :: Some(stageId) in StageIdsInApp(events, appId) <==> UsedByApp(events, appId, stageId)
  {
  }

  /** `getEventsBetween(start, end)`: the events contained in the window, those
      with `startsAt >= start && endsAt <= end`, in table order. An event that only
      overlaps the window is not returned. */
  function EventsBetween(events: seq<Event>, start: int, end: int): (r: seq<Event>)
    ensures forall e :: e in r <==> e in events && start <= e.startsAt && e.endsAt <= end
    ensures forall e :: (multiset(r)[e] ==
      if start <= e.startsAt && e.endsAt <= end then multiset(events)[e] else 0)
    ensures IsSubsequence(r, events)
  {
    var inWindow := InWindow(start, end);
    FilterCounts(events, inWindow);
    FilterIsSubsequence(events, inWindow);
    Filter(events, inWindow)
  }
}
