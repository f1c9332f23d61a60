/** The three record shapes of the festival-schedule store (an app, a stage, an
    event), the input an event is created or updated from, and the failures the
    mutations report. */
module Records {
  import opened JsArray

  /** Identifiers are opaque strings (random UUIDs in the running system). */
  type Id = string

  datatype App = App(id: Id, name: string)

  datatype Stage = Stage(id: Id, name: string)

  /** `startsAt` and `endsAt` are GraphQL `Int` timestamps; nothing relates them. */
  datatype Event = Event(
    id: Id,
    appId: Id,
    stageId: Id,
    name: string,
    description: string,
    image: string,
    startsAt: int,
    endsAt: int)

  /** `AppStageInput`: the argument of the app and stage creates and renames. */
  datatype AppStageInput = AppStageInput(name: string)

  /** `EventInput`: every field of an event except its id. The `appId` and `stageId`
      are never checked against the other tables. */
  datatype EventInput = EventInput(
    appId: Id,
    stageId: Id,
    name: string,
    description: string,
    image: string,
    startsAt: int,
    endsAt: int)

  /** The fields of an event other than its id. */
  function InputOf(e: Event): EventInput
  {
    EventInput(e.appId, e.stageId, e.name, e.description, e.image, e.startsAt, e.endsAt)
  }

  /** `{ id: id, ...input }`: the event record built from an id and an input. It
      carries that id and gives back exactly that input. */
  function WithId(id: Id, input: EventInput): (e: Event)
    ensures e.id == id && InputOf(e) == input
  {
    Event(id, input.appId, input.stageId, input.name, input.description,
          input.image, input.startsAt, input.endsAt)
  }

  /** The ways a mutation fails: a create whose name is taken, an update or delete
      whose id is absent, or a create or rename called without its `input`
      argument (the schemas leave it optional), where reading `input.name` throws
      a `TypeError`. The message text is not modelled. */
  datatype StoreError = AlreadyExists(name: string) | NotFound(id: Id) | MissingInput

  /** What a mutation resolver produces: its value, or the error it throws. */
  datatype Outcome<+T> = Ok(value: T) | Fail(error: StoreError)

  /** An event is rebuilt from its id and the rest of its fields. */
  lemma WithIdInputOf(e: Event)
    ensures WithId(e.id, InputOf(e)) == e
  {
  }

  /** The id and the name of each kind of record, as function values. */
  function AppKey(a: App): Id { a.id }
  function AppName(a: App): string { a.name }
  function StageKey(s: Stage): Id { s.id }
  function StageName(s: Stage): string { s.name }
  function EventKey(e: Event): Id { e.id }
  function EventName(e: Event): string { e.name }

  /** The `id` and `name` columns of each table, as the resolvers compute them
      with `.map((el) => el.id)` and `.map((el) => el.name)`. */
  function AppIds(apps: seq<App>): seq<Id> { Map(apps, AppKey) }
  function AppNames(apps: seq<App>): seq<string> { Map(apps, AppName) }
  function StageIds(stages: seq<Stage>): seq<Id> { Map(stages, StageKey) }
  function StageNames(stages: seq<Stage>): seq<string> { Map(stages, StageName) }
  function EventIds(events: seq<Event>): seq<Id> { Map(events, EventKey) }
  function EventNames(events: seq<Event>): seq<string> { Map(events, EventName) }

  /** The `(el) => el.id === id` predicates of the update and delete resolvers. */
  function AppWithId(id: Id): App -> bool { (a: App) => a.id == id }
  function StageWithId(id: Id): Stage -> bool { (s: Stage) => s.id == id }
  function EventWithId(id: Id): Event -> bool { (e: Event) => e.id == id }
}
