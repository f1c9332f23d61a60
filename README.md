# Festival schedule store — a Dafny model

The system is a GraphQL API over an in-memory festival schedule: three ordered
tables of apps `{id, name}`, stages `{id, name}` and events
`{id, appId, stageId, name, description, image, startsAt, endsAt}`, loaded once
from a JSON document and then changed in place by the mutation resolvers. Two
entry points carry the same resolver logic: `graphql.js` (a serverless handler)
and `server.js` (an HTTP listener). This project models that logic once.

- `wrappers.dfy` — `Option`, standing for JavaScript's `undefined`.
- `js_array.dfy` — module `JsArray`: the Array built-ins the resolvers are written
  with (`find`, `indexOf`, `filter`, `map`, `splice(i, 1)`) as functions on
  sequences, and `FindIndex`, the specification of "the index of the first
  match" that the `find` + `indexOf` pair of the updates and deletes computes;
  with the facts the store needs about them: `filter` keeps every occurrence of
  a match in order, `indexOf(find(p))` is the first match, `find` after `push`.
  What a lookup gives after a `splice` is in `Store.DeletedAppIsGone`,
  `Store.DeletedStageIsGone` and `Store.DeletedEventIsGone`.
- `records.dfy` — module `Records`: the three record shapes, `EventInput`,
  `{ id, ...input }` (`WithId`), the failures (`AlreadyExists`, `NotFound`,
  `MissingInput`) and the `Outcome` a mutation returns instead of throwing.
- `accessors.dfy` — module `Accessors`: the `Event`, `Stage` and `App` accessor
  classes and the `getEventsBetween` query, as pure functions of the tables:
  first match on id-or-name, event → stage, stage → events, app → events,
  app → stages and the containment window query.
- `store.dfy` — module `Store`: class `Store` holding the three tables as `seq`
  fields, with the nine create/update/delete resolvers as methods that check
  first and then `push`, assign at an index or `splice`; lemmas tying the tables
  after each mutation to the lookups (a created record resolves by its id, an
  updated one resolves to its new value, a deleted one no longer resolves, an
  event on a deleted stage is left dangling); two client methods,
  `DuplicateNameRefused` and `DeletedStageDangles`, that use the contracts alone.

Facts the model makes explicit:

- A failed check (a missing `input` argument, which the schemas leave optional
  and whose `input.name` then throws; a taken name on create; an absent id on
  update or delete) leaves all three tables unchanged; a successful mutation
  changes one table only, so nothing cascades.
- A lookup given both an id and a name returns the first record matching
  either (`el.id === id || el.name === name`), so a record earlier in the table
  with that name wins over the record with that id: the id takes no precedence.
- Names are checked for uniqueness on create only; an update may introduce a
  duplicate name. Event `appId`/`stageId` are never checked.
- `updateApp`/`updateStage` rename in place; `updateEvent` overwrites every
  field but the id.
- `getEventsBetween(start, end)` is containment (`startsAt >= start` and
  `endsAt <= end`), not overlap, as the code has it.
- `App.events()` filters on the id the accessor was built with, while
  `App.stages()` uses the id of the app it resolved to. Both entry points build
  the accessor from an id (`app(id: ID!)` in both schemas), where the two agree.
- The ids in each table are distinct if they were at load time: every mutation
  keeps `Store.IdsDistinct`. The initial document is not assumed to satisfy it;
  the lemmas that need it say so.

## Model

| member | source | states |
|---|---|---|
| `JsArray.FindIndex` | graphql.js:283-284 | the result is -1 exactly when no element matches, else the index of the first match |
| `JsArray.Find` | graphql.js:14-16 | `None` (undefined) exactly when no element matches, otherwise the element at the first matching index |
| `JsArray.IndexOf` | graphql.js:284 | -1 exactly when the value is absent, else the first index holding it |
| `JsArray.Filter` | graphql.js:210-212 | the result holds exactly the elements of the input that satisfy the predicate |
| `JsArray.FilterCount` | graphql.js:77-79 | every occurrence of a matching element is kept and every occurrence of another is dropped |
| `JsArray.FilterIsSubsequence` | graphql.js:103 | the filtered elements keep their table order |
| `JsArray.FilterAppend` | graphql.js:210-212 | filtering distributes over concatenation: the matches of an earlier part come first, then those of the later part |
| `JsArray.Splice` | graphql.js:347 | one element fewer; elements before the index keep their place, those after move down by one; the multiset loses exactly that element |
| `JsArray.SpliceIsSubsequence` | graphql.js:366 | removing one element keeps the rest in their relative order |
| `JsArray.Map` | graphql.js:221 | `Array.prototype.map`: same length, each position holds the function applied to the element there |
| `JsArray.MapIncludes` | graphql.js:221-222 | `s.map(f).includes(v)` holds exactly when some element is mapped to `v` |
| `JsArray.IndexOfFind` | graphql.js:283-284 | `indexOf(find(p))` is the index of the first element satisfying `p` |
| `JsArray.FindOwnKey` | graphql.js:190-192 | in a table with distinct ids, resolving a record again by its own id gives back that record |
| `JsArray.SubsequenceDistinct` | graphql.js:114-115 | a subsequence of a table with distinct ids has distinct ids |
| `JsArray.FilterKeepsDistinct` | server.js:181-183 | a filtered table with distinct ids has distinct ids |
| `JsArray.FindAfterPush` | graphql.js:228-233 | after pushing a matching record onto a table with no match, `find` returns it |
| `JsArray.SpliceRemovesKey` | graphql.js:385 | with distinct ids, splicing out a record leaves no record with its id, and the ids stay distinct |
| `Records.WithId` | graphql.js:247-250 | `{ id: id, ...input }` carries the given id and gives back exactly the input's fields (also graphql.js:303-306, server.js:217-220, 292-295) |
| `Records.WithIdInputOf` | graphql.js:303-306 | an event is exactly its id spread with the rest of its fields |
| `Store.AppReResolves` | graphql.js:190 | with distinct ids, `new App(el.id)` on an app of the table resolves to that same app |
| `Store.StageReResolves` | graphql.js:192 | with distinct ids, `new Stage(el.id)` on a stage of the table resolves to that same stage (also graphql.js:116) |
| `Store.EventReResolves` | graphql.js:191 | with distinct ids, `new Event(el.id)` on an event of the table resolves to that same event (also graphql.js:80, 104, 213) |
| `Accessors.LookupApp` | server.js:156-158 | the first app in table order whose id equals the given id or whose name equals the given name; none when no app matches (also `app` at server.js:246 and graphql.js:195-197) |
| `Accessors.LookupStage` | graphql.js:63-65 | the first stage whose id or name matches; none when no stage matches (also `stage` at graphql.js:202-205 and server.js:248) |
| `Accessors.LookupEvent` | graphql.js:14-16 | the first event whose id or name matches; none when no event matches (also `event` at graphql.js:198-201 and server.js:247) |
| `Accessors.EventStage` | graphql.js:51-56 | the first stage whose id is the event's `stageId`; fails (the source throws) exactly when no stage has that id (same at server.js:118-123) |
| `Accessors.StageEvents` | graphql.js:76-82 | exactly the events whose `stageId` is the stage's id, every occurrence, in table order (same at server.js:143-149) |
| `Accessors.AppEvents` | graphql.js:102-106 | exactly the events whose `appId` is the requested id, every occurrence, in table order; none when no id was given (same at server.js:169-173) |
| `Accessors.StageIdsInApp` | graphql.js:109-113 | one entry per event: the event's `stageId` when it belongs to the app, `undefined` otherwise (same at server.js:176-180) |
| `Accessors.StageIdsInAppIncludes` | graphql.js:109-115 | a stage id is in the mapped list exactly when some event of the app is held on that stage |
| `Accessors.AppStages` | graphql.js:108-118 | exactly the stages some event of the app uses, in stage-table order, each as often as in the stage table however many events use it; no repeats when stage ids are distinct (same at server.js:175-185) |
| `Accessors.EventsBetween` | graphql.js:208-215 | exactly the events with `startsAt >= start` and `endsAt <= end`, every occurrence, in table order (same at server.js:251-257) |
| `Store.LookupAppById` | graphql.js:275-283 | looking an app up by id alone is `find((el) => el.id === id)`, and the id is in the id column exactly when that finds a record |
| `Store.LookupStageById` | graphql.js:314-322 | the same for stages |
| `Store.LookupEventById` | graphql.js:292-299 | the same for events |
| `Store.CreatedAppResolves` | graphql.js:226-233 | after a create with a fresh id, `app(id)` returns the new record |
| `Store.CreatedStageResolves` | graphql.js:260-267 | after a create with a fresh id, `stage(id)` returns the new record |
| `Store.CreatedEventResolves` | graphql.js:245-252 | after a create with a fresh id, `event(id)` returns `{ id, ...input }` |
| `Store.EventsBetweenAfterCreate` | graphql.js:208-215 | after an event is appended, the window query gives its old result followed by the new event when that event lies in the window |
| `Store.StageEventsAfterCreate` | graphql.js:76-82 | after an event is appended, a stage's events are the old ones followed by the new event when it is held on that stage |
| `Store.UpdatedAppResolves` | graphql.js:283-288 | after an update, `app(id)` returns the record with the same id and the new name |
| `Store.UpdatedStageResolves` | graphql.js:322-327 | after an update, `stage(id)` returns the record with the same id and the new name |
| `Store.UpdatedEventResolves` | graphql.js:299-307 | after an update, `event(id)` returns exactly the input's fields with the original id |
| `Store.DeletedAppIsGone` | graphql.js:343-348 | with distinct ids, after a delete `app(id)` finds nothing |
| `Store.DeletedStageIsGone` | graphql.js:381-386 | with distinct ids, after a delete `stage(id)` finds nothing |
| `Store.DeletedEventIsGone` | graphql.js:362-367 | with distinct ids, after a delete `event(id)` finds nothing |
| `Store.DeletedStageLeavesEventsDangling` | graphql.js:369-387 | no cascade: with distinct stage ids, every event held on a deleted stage keeps its `stageId`, whose stage no longer resolves |
| `Store.Store.constructor` | graphql.js:5-8 | the store starts as the three tables of the loaded document |
| `Store.Store.CreateApp` | graphql.js:219-234 | a missing input fails and changes nothing; a taken name fails and changes nothing; otherwise exactly one record with the fresh id and the name is appended and returned, the other tables untouched, ids kept distinct (same at server.js:192-206) |
| `Store.Store.CreateStage` | graphql.js:254-268 | as CreateApp, for stages (same at server.js:224-237) |
| `Store.Store.CreateEvent` | graphql.js:235-253 | a missing input fails and changes nothing; a taken event name fails and changes nothing; otherwise `{ id, ...input }` is appended and returned, with `appId`/`stageId` unchecked (same at server.js:207-223) |
| `Store.Store.UpdateApp` | graphql.js:270-289 | a missing input fails and changes nothing, whether or not the id exists; an absent id fails and changes nothing; otherwise the first app with that id becomes the same id with the new name, at the same index, all other records and tables unchanged, the name not checked for uniqueness (same at server.js:260-278) |
| `Store.Store.UpdateStage` | graphql.js:309-328 | as UpdateApp, for stages (same at server.js:298-316) |
| `Store.Store.UpdateEvent` | graphql.js:290-308 | for a present input: an absent id fails and changes nothing; otherwise the first event with that id is replaced by `{ id, ...input }`, all other indices unchanged (same at server.js:279-297) |
| `Store.Store.DeleteApp` | graphql.js:331-349 | an absent id fails and changes nothing; otherwise exactly the first app with that id is spliced out, the rest keep their order, the other tables are untouched, and `Removed app with id <id> from database` is returned (same at server.js:319-336) |
| `Store.Store.DeleteStage` | graphql.js:369-387 | as DeleteApp, for stages, returning `Removed stage with id <id> from database` (same at server.js:355-372) |
| `Store.Store.DeleteEvent` | graphql.js:350-368 | as DeleteApp, for events, returning `Removed event with id <id> from database` (same at server.js:337-354) |

## Left out

- The GraphQL schema text, the Apollo Lambda handler and its `context`, and the
  Express/`graphqlHTTP` listener: transport and declarations for foreign
  libraries. Only the record shapes of the schema are kept.
- Loading `db.json`: the store is built from arbitrary initial tables
  (`Store.Store.constructor`); nothing is written back.
- `uuid.v4()`: the create methods take the fresh id as an argument and require
  it to be absent from the table.
- The lazy accessor objects (`new App(id)` and their field getters). Lookups
  and traversals return records or `None` directly. The source re-resolves each
  record of `all*`, of the traversals and of `getEventsBetween` by its id
  (`.map((el) => new Event(el.id))`). With distinct ids, and every record
  carrying a name, that gives back the same record (`Store.AppReResolves`,
  `Store.StageReResolves`, `Store.EventReResolves`). With
  duplicate ids in the initial document, or after the `updateEvent` call
  without input described below, the source can show a different record, which
  the model does not.
- `allApps`, `allEvents`, `allStages`: they are the `apps`, `stages` and `events`
  fields of the store themselves, up to the re-resolution above.
- Reading a field of an accessor whose record is missing (the source throws a
  `TypeError`): a lookup returns `None` and `App.stages()` is modelled on the
  resolved app record.
- Object identity: `indexOf` compares references in the source and values in
  the model; `JsArray.IndexOfFind` shows the index is the first match either way.
- Store.Store.UpdateEvent: takes a present `EventInput` only. Called with the
  `input` argument omitted or null (the schemas declare it optional), the source
  overwrites the first event with that id by the bare record `{ id }`, every
  other field `undefined`. The call then fails when its selection asks for any
  field other than `id` (a non-null field comes back `undefined`); a selection
  of `id` alone succeeds. Such a record is not expressible with the model's
  `Event`. The by-id re-resolution of the accessors,
  `find((el) => el.id === x || el.name === undefined)` (graphql.js:14-16),
  then still finds every event stored before the bare record, but an event
  stored after it, and an id that is absent, resolve to the bare record. The
  other five mutations
  that read `input` are modelled on `Option` input and fail with `MissingInput`
  without change.
- Error message text, except the confirmation strings of the deletes.
- GraphQL `Int` range checks on `startsAt`/`endsAt` (32-bit, done by the
  GraphQL layer): timestamps are unbounded integers, and the window query only
  compares them.
- Concurrency: the resolvers run one at a time; there is none to model.
