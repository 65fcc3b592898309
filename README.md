# Delivery-task backend: validators, document-store handlers and task paging

This project models the core of a small delivery-task API backed by a document
database:

- **Request validation.** The Joi schemas for tasks and delivery agents
  (`src/validation/schemas.js`) and the older order and delivery-boy schemas
  (`index.js`). Module `Joi` interprets the parts of Joi these schemas use:
  required, optional and forbidden keys; string, number, boolean and email
  checks; an allow-list of strings; nested objects; and a `when` rule on a
  sibling key. It also rejects keys a schema does not list, as `Joi.object`
  does by default. Each schema is a constant of that language. Each also has a
  hand-written "shape" predicate, and a lemma proves the schema accepts exactly
  the documents of that shape.
- **Document-store handlers.** `Store.Collection` is a class holding one
  collection as a `map<string, Doc>`, with the store's `get`, `set`, `update`
  and `delete`. The create/get/update/delete handlers of the task controller
  and of the order routes are written once in module `Handlers`, as methods
  over a collection and a schema. `TaskController`, `DeliveryAgentController`
  and `OrderApi` instantiate them per route. Their contracts state the
  response status (200, 400, 404, 500) and the whole new state of the
  collection. A `Fault` parameter says which store call, if any, throws.
- **Task listing.** `TaskController.ListTasks` is `getAllTasks` written as a
  function over the collection listed in `orderBy("taskNo")` order. It keeps
  the source's two queries and its `startAfter` cursor. The lemmas prove:
  - a resumed query returns exactly the documents after the cursor position;
  - every answered page is the positional page;
  - pages 1..k together are the first k·limit tasks, with no document on two
    pages;
  - the edge cases: 400 before any query, 404 only for an empty collection,
    and an empty 200 answer past the end.

  `IsTaskOrder` says what a correct listing of the collection is. Lemmas
  prove that such a listing always exists and that there is only one.

Behaviours of the code worth noting:

- `updateTask` and `updateOrder` on an absent id answer **500**, not 404. The
  store's `update` throws and the catch turns that into 500
  (src/controllers/taskController.js:76-83).
- `getAllTasks` answers 404 only when the prefix query for the earlier pages
  returns nothing, which means the collection is empty
  (src/controllers/taskController.js:54-58). A page past the end of a
  non-empty collection gets 200 with an empty list. A collection with fewer
  documents than the earlier pages would hold does not get 404.
- `Joi.string()` refuses the empty string by default, so every "string" field
  here must be a non-empty string.
- An update is checked against the full schema but merged into the stored
  document. A cash-on-delivery task updated with a valid online body keeps its
  `amount`, and the stored task then fails the schema
  (`TaskController.UpdateCanBreakSchema`).

The caller supplies the clock: `taskId`/`orderId` is the decimal string of the
creation time, and `now` is the numeric timestamp. The email check of
`Joi.string().email()` is a caller-supplied predicate `isEmail`.

## Model

| member | source | states |
|---|---|---|
| Json.IsSafeNumber | src/validation/schemas.js:8 | definition: a number `Joi.number()` accepts, from `-Number.MAX_SAFE_INTEGER` to `Number.MAX_SAFE_INTEGER` |
| Joi.Accepts | src/validation/schemas.js:4-21 | definition: one key's rule (`required`, optional, `forbidden`, `when`) holds in an object |
| Joi.Conforms | src/validation/schemas.js:3-24 | definition: a value passes a Joi type check, and an object passes when it has no unlisted key and every listed key's rule holds |
| Joi.Validates | src/validation/schemas.js:3-24 | definition: `schema.validate(body)` reports no error |
| Schemas.ValidTask | src/validation/schemas.js:3-24 | definition: `taskSchema.validate(body)` reports no error |
| Schemas.ValidAgent | src/validation/schemas.js:26-32 | definition: `deliveryAgentSchema.validate(body)` reports no error |
| OrderApi.ValidOrder | index.js:25-34 | definition: `orderSchema.validate(body)` reports no error |
| OrderApi.ValidDeliveryBoy | index.js:36-39 | definition: `deliveryBoySchema.validate(body)` reports no error |
| Handlers.Created | src/controllers/taskController.js:11 | definition: the stored document `{ id, ...body }` |
| Handlers.MobileOf | src/controllers/deliveryAgentController.js:11 | definition: the document id `req.body.mobile` an agent or delivery boy is stored under |
| Handlers.Registered | src/controllers/deliveryAgentController.js:11-27 | definition: the collection after a mobile-keyed create, with the body plus `id: now` stored only when valid and new |
| TaskController.KeyOf | src/controllers/taskController.js:48 | definition: the (taskNo, document id) key `orderBy("taskNo")` sorts by |
| TaskController.IsTaskOrder | src/controllers/taskController.js:48 | definition: a listing of exactly the collection's string-taskNo tasks, as stored, sorted by (taskNo, id) |
| TaskController.Take | src/controllers/taskController.js:48 | definition: `.limit(n)`, the first n results |
| TaskController.Items | src/controllers/taskController.js:62 | definition: each result mapped to `{ id: doc.id, ...doc.data() }` |
| TaskController.Page | src/controllers/taskController.js:38-64 | definition: the positional page, results (page-1)·limit up to page·limit |
| TaskController.ListTasksQuery | src/controllers/taskController.js:40-42 | an absent `page` is answered as page 1 (200 or 500, never 400/404), an absent `limit` as 10, and both are echoed |
| TaskController.DefaultQueryIsFirstTen | src/controllers/taskController.js:40-64 | a request with no parameters gets the first ten tasks in taskNo order |
| OrderApi.IsIdOrder | index.js:84-86 | definition: a listing of exactly the stored orders, as stored, in document id order |
| Json.Spread | src/controllers/taskController.js:11 | object spread `{ ...base, ...over }`: keys of both, values of `over` win |
| Json.Select | index.js:84-85 | a field-selecting query keeps exactly the listed fields that the document has, with their stored values |
| Joi.ValidatesOnlyListedKeys | src/validation/schemas.js:3 | a body that passes an object schema has no key the schema does not list |
| Joi.RequiredKeyPresent | src/validation/schemas.js:4 | a `.required()` key is present in a valid body and its value passes the key's type check |
| Schemas.LocationMeaning | src/validation/schemas.js:7-10 | the location sub-schema accepts exactly objects with safe-number `latitude` and `longitude` and no other key |
| Schemas.TaskSchemaSound | src/validation/schemas.js:3-24 | a valid task has the six non-empty strings, a location pickup, a well-formed optional delivery location, type cod/online, an amount exactly for cod, and no unlisted key |
| Schemas.TaskLocationsSound | src/validation/schemas.js:7-15 | a valid task has a well-formed pickup location, and a delivery location is well-formed when present |
| Schemas.TaskPaymentSound | src/validation/schemas.js:16-21 | a valid task's type is "cod" or "online"; cod carries a safe-number amount, anything else carries none |
| Schemas.TaskSchemaComplete | src/validation/schemas.js:3-24 | every document of that shape passes the task schema |
| Schemas.TaskSchemaMeaning | src/validation/schemas.js:3-24 | the task schema accepts a document if and only if it has the task shape |
| Schemas.AgentSchemaMeaning | src/validation/schemas.js:26-32 | the agent schema accepts a document iff name, mobile, password, storeId are non-empty strings, email is a non-empty string the email check accepts, and no other key is present |
| Schemas.TaskAmountRule | src/validation/schemas.js:17-21 | cod without an amount, cod with an amount that is not a safe number, and a non-cod type with an amount are all rejected; in a valid task an amount is present iff the type is cod |
| Schemas.OnlineTaskRejectsAmount | src/validation/schemas.js:17-21 | adding any amount to a valid online task makes it invalid |
| Schemas.TaskTypeIsEnum | src/validation/schemas.js:16 | a valid task's type is exactly "cod" or "online" |
| Schemas.DeliveryLocationOptional | src/validation/schemas.js:12-15 | removing the delivery location keeps a valid task valid; putting one in keeps it valid iff the location is well-formed |
| Schemas.TaskRejectsUnknownKey | src/validation/schemas.js:3-24 | a key not among the ten listed makes a task invalid |
| Schemas.ValidTaskHasNoId | src/validation/schemas.js:3-24 | a valid task body has no `id` key and has a non-empty string `taskNo` |
| Schemas.AgentRejectsUnknownKey | src/validation/schemas.js:26-32 | a key not among the five listed makes an agent invalid |
| Schemas.ValidAgentKeyedByMobile | src/validation/schemas.js:26-32 | a valid agent body has no `id` key and has a non-empty string `mobile` |
| Schemas.ExampleTaskAccepted | src/validation/schemas.js:3-24 | an online task with all required fields and no amount is accepted |
| Schemas.ExampleCodTaskNeedsAmount | src/validation/schemas.js:17-21 | the same task switched to cod is rejected, and accepted once it carries a safe-number amount |
| Ordering.StrLess | src/controllers/taskController.js:48 | definition: the store's code-point string order: the first differing character decides, and a proper prefix sorts first |
| Ordering.KeyLess | src/controllers/taskController.js:48 | definition: the (taskNo, document id) comparison the ordered listing sorts by: taskNo first, then document id |
| Ordering.StrLessIrreflexive | src/controllers/taskController.js:48 | no string sorts before itself in the store's string order |
| Ordering.StrLessAsymmetric | src/controllers/taskController.js:48 | two strings never sort before each other |
| Ordering.StrLessTotal | src/controllers/taskController.js:48 | of two different strings one sorts first |
| Ordering.StrLessTransitive | src/controllers/taskController.js:48 | the string order is transitive |
| Ordering.KeyLessIrreflexive | src/controllers/taskController.js:48 | the (taskNo, document id) order is irreflexive |
| Ordering.KeyLessAsymmetric | src/controllers/taskController.js:48 | the (taskNo, document id) order is asymmetric |
| Ordering.KeyLessTotal | src/controllers/taskController.js:48 | the (taskNo, document id) order is total |
| Ordering.KeyLessTransitive | src/controllers/taskController.js:48 | the (taskNo, document id) order is transitive |
| Store.Status.Code | src/controllers/taskController.js:7-16 | the envelope status is one of 200, 400, 404, 500 and is 200 exactly on success |
| Store.Collection.Get | src/controllers/taskController.js:24 | `get` returns the stored document exactly when the id is present |
| Store.Collection.Set | src/controllers/taskController.js:11 | `set` creates or replaces exactly one document |
| Store.Collection.Update | src/controllers/taskController.js:78 | `update` merges the patch into an existing document and fails, writing nothing, when the id is absent |
| Store.Collection.Delete | src/controllers/taskController.js:89 | `delete` removes the id, whether or not it was present |
| Handlers.CreatedIsBodyPlusId | src/controllers/taskController.js:11 | for a body without `id`, the created document is the body plus exactly the `id` field |
| Handlers.Create | src/controllers/taskController.js:5-18 | invalid body: 400 and no write; store failure: 500 and no write; otherwise 200 and only the new id is written, with the body plus id |
| Handlers.Get | src/controllers/taskController.js:21-35 | 404 when the id is absent, otherwise 200 with the stored document; 500 on store failure |
| Handlers.Update | src/controllers/taskController.js:72-84 | invalid body: 400; absent id or store failure: 500 and nothing created; otherwise the body's fields overwrite the stored ones |
| Handlers.Delete | src/controllers/taskController.js:87-95 | 200 and the id removed whether or not it existed; 500 and no change on store failure |
| Handlers.KeyedByMobileUnique | src/controllers/deliveryAgentController.js:11-12 | in a collection keyed by mobile no two documents share a mobile number |
| Handlers.RegisteredKeepsExisting | src/controllers/deliveryAgentController.js:13-27 | a mobile-keyed create never replaces a stored document and keeps the collection keyed by mobile |
| Handlers.RegisterAllKeepsExisting | src/controllers/deliveryAgentController.js:11-27 | after any sequential run of creates, every earlier document is unchanged and there is still at most one document per mobile |
| Handlers.CreateByMobile | src/controllers/deliveryAgentController.js:4-34 | invalid: 400 no access; existing mobile: 400 and unchanged; store failure: 500 and unchanged; otherwise the mobile maps to the body plus a numeric id |
| TaskController.CreatePreservesWellFormed | src/controllers/taskController.js:11 | creating a validated task keeps every task carrying its own id and a string taskNo |
| TaskController.UpdatePreservesWellFormed | src/controllers/taskController.js:78 | updating with a validated body keeps every task carrying its own id and a string taskNo |
| TaskController.CreateTask | src/controllers/taskController.js:5-18 | 400/500 leave the table unchanged; on 200 the new entry is the body plus `id = taskId` and all other keys are unchanged |
| TaskController.GetTask | src/controllers/taskController.js:21-35 | 404 exactly when the id is absent; otherwise 200 with the document as stored |
| TaskController.UpdateTask | src/controllers/taskController.js:72-84 | 400 on invalid body; 500 and nothing created on an absent id; otherwise exactly the body's fields overwritten, all others (including id) kept |
| TaskController.DeleteTask | src/controllers/taskController.js:87-95 | 200 and the id absent afterwards, whether or not it existed |
| TaskController.CreateThenGet | src/controllers/taskController.js:5-35 | create followed by get returns the body plus exactly the id field |
| TaskController.UpdateIdempotent | src/controllers/taskController.js:78 | applying the same update twice is the same as applying it once |
| TaskController.DeleteIdempotent | src/controllers/taskController.js:89 | deleting twice is deleting once; deleting an absent id changes nothing |
| TaskController.UpdateCanBreakSchema | src/controllers/taskController.js:73-78 | there are a valid stored task and a valid update body whose merge fails the task schema |
| TaskController.After | src/controllers/taskController.js:55 | `startAfter(cursor)` returns only documents of the listing that sort after the cursor |
| TaskController.ListTasks | src/controllers/taskController.js:38-69 | page < 1 is 400 whatever the store does; 404 exactly for page > 1 on an empty collection; a 200 answer has at most `limit` items and echoes page and limit |
| TaskController.AfterSplit | src/controllers/taskController.js:55 | if the cursor sorts after the first i documents and before the rest, the resumed query returns the documents from position i on |
| TaskController.SortedAround | src/controllers/taskController.js:48 | in the ordered listing nothing up to position i sorts after the key at i, and everything beyond it does |
| TaskController.AfterCursor | src/controllers/taskController.js:51-55 | resuming after the document at position i returns exactly the documents after position i |
| TaskController.ListTasksIsPage | src/controllers/taskController.js:48-64 | without store failure, page p is answered with the documents at positions (p-1)·limit up to p·limit, as `{ id, ...data }` items |
| TaskController.PagesArePrefix | src/controllers/taskController.js:48-62 | positional pages 1..k together are exactly the first k·limit documents |
| TaskController.ItemsAppend | src/controllers/taskController.js:62 | the item mapping distributes over concatenation |
| TaskController.ListedDataStep | src/controllers/taskController.js:61-64 | on a non-empty collection the answer for page k contributes exactly page k's items |
| TaskController.ListedDataExtends | src/controllers/taskController.js:61-64 | if the answers for pages 1..k-1 give their pages' items, so do those for 1..k |
| TaskController.ListedDataIsPages | src/controllers/taskController.js:61-64 | the answers for pages 1..k give the items of positional pages 1..k |
| TaskController.ListingPagesIsPrefix | src/controllers/taskController.js:38-69 | requesting pages 1..k of any collection returns its first k·limit tasks in order: no duplicates, no gaps |
| TaskController.ListedDataEmpty | src/controllers/taskController.js:48-64 | on an empty collection the answers for pages 1..k hold no task |
| TaskController.SortedDistinct | src/controllers/taskController.js:48 | no document appears twice in the ordered listing |
| TaskController.PagesDisjoint | src/controllers/taskController.js:50-62 | two different pages share no document |
| TaskController.PastTheEnd | src/controllers/taskController.js:54-64 | a page past the end of a non-empty collection is 200 with an empty list |
| TaskController.EmptyCollection | src/controllers/taskController.js:48-58 | on an empty collection page 1 is 200 with an empty list, every later page is 404 |
| TaskController.FirstPage | src/controllers/taskController.js:48-62 | page 1 is the first min(limit, N) tasks in taskNo order |
| TaskController.ItemsAreStoredDocuments | src/controllers/taskController.js:62 | in a well-formed collection every listed item is the stored document itself, and every task is listed |
| TaskController.SortedSameElementsEqual | src/controllers/taskController.js:48 | two sorted listings of the same documents are equal |
| TaskController.TaskOrderUnique | src/controllers/taskController.js:48 | the ordered listing is determined by the collection |
| TaskController.InsertSorted | src/controllers/taskController.js:48 | inserting a document with a new id into a sorted listing at its place keeps it sorted and adds exactly that document |
| TaskController.OrderOfKeysExists | src/controllers/taskController.js:48 | every set of listed tasks has a sorted listing |
| TaskController.TaskOrderExists | src/controllers/taskController.js:48 | every collection has an ordered listing |
| DeliveryAgentController.CreateDeliveryAgent | src/controllers/deliveryAgentController.js:4-34 | 400 with no change on invalid body or existing mobile; on 200 the collection is the old one plus exactly the mobile mapped to the body with numeric id `now`; no existing agent is ever replaced; keying by mobile is preserved |
| DeliveryAgentController.RegisterTwice | src/controllers/deliveryAgentController.js:13-27 | two creates with the same mobile: the first succeeds, the second is 400, and afterwards the collection is the old one plus exactly the first agent with the first call's `id` |
| OrderApi.OrderSchemaSound | index.js:25-34 | a valid order has non-empty string name, mobile, address, orderNo, safe-number latitude, longitude, amount, boolean cod, and no other key |
| OrderApi.OrderSchemaMeaning | index.js:25-34 | the order schema accepts a document iff it has that shape |
| OrderApi.DeliveryBoySchemaMeaning | index.js:36-39 | the delivery boy schema accepts a document iff it has exactly non-empty string name and mobile fields |
| OrderApi.CreatePreservesWellFormed | index.js:53-56 | creating a validated order keeps every order carrying its own id and only the nine selected fields |
| OrderApi.UpdatePreservesWellFormed | index.js:102 | updating with a validated body keeps every order carrying its own id and only the nine selected fields |
| OrderApi.CreateOrder | index.js:47-62 | 400/500 leave the table unchanged; on 200 the new entry is the body plus `id = orderId` |
| OrderApi.GetOrder | index.js:65-79 | 404 exactly when the id is absent, otherwise 200 with the stored document |
| OrderApi.UpdateOrder | index.js:96-108 | merges the body into an existing order; an absent id answers 500 and creates nothing |
| OrderApi.DeleteOrder | index.js:111-120 | 200 whether or not the order existed, and the id is absent afterwards |
| OrderApi.CreateDeliveryBoy | index.js:123-153 | an existing mobile is 400 with the stored document untouched; otherwise it inserts at key `mobile` the body plus numeric id |
| OrderApi.ListOrders | index.js:82-93 | 500 with no data exactly when the query throws, otherwise 200 with one entry per listed order, each holding only the nine selected fields |
| OrderApi.ListOrdersProjects | index.js:84-88 | one entry per stored order, each the stored order restricted to the nine selected fields, which for well-formed orders is the stored order itself |
| OrderApi.ListOrdersCoversCollection | index.js:84-87 | every stored order appears in the listing, and none twice |

## Left out

- HTTP plumbing: Express setup, CORS, body parsing, the health route, `app.listen` and the two route files. They are wiring with no logic.
- Credential loading and store initialisation (src/config/firebase.js, index.js:1-18). This is environment setup.
- Store internals: query execution, snapshots and network errors. The store is a map, a query result is a listing that `IsTaskOrder` or `IsIdOrder` characterises, and any failure is a `Fault` naming the call that throws. A failed call is taken to write nothing.
- The clock (`Date.now()`). It is a caller-supplied parameter, given once as a string id and once as a numeric timestamp. Same-millisecond id collisions are therefore not modelled.
- Concurrency: the check-then-write race in agent and delivery-boy creation is not modelled. The model is sequential.
- Email validity: `isEmail` is a parameter standing for Joi's email rules, which are not re-implemented.
- Joi's type conversion (its default `convert` option): it accepts numeric strings for numbers and "true"/"false" for booleans. The model accepts only JSON numbers and booleans there.
- Error message texts and logging.
- Numbers: JSON numbers are an opaque `real` with no arithmetic. `Joi.number()` is modelled as accepting exactly the numbers from `-Number.MAX_SAFE_INTEGER` to `Number.MAX_SAFE_INTEGER`, since no schema allows unsafe numbers. A number written with more digits than a double holds is taken at its written value, not rounded. A number too large for a double parses to Infinity; `Joi.number()` refuses it, and the model refuses it as unsafe.
- TaskController.ListTasks: `page` and `limit` are integers. The defaults `page = 1` and `limit = 10` are modelled by `TaskController.ListTasksQuery`, but `parseInt` of the query strings is not. The model requires `limit >= 1`, because the store's behaviour for a zero or negative limit is not part of this model. The `parseInt` NaN cases that slip past `page < 1` are not modelled, nor is JavaScript's loss of precision for very large `(page - 1) * limit`.
- TaskController.IsTaskOrder: the listing holds only documents whose `taskNo` is a string. The store also lists documents with a `taskNo` of another type, ordered by type. No handler can store one, because every write is validated and `WellFormed` is preserved.
- Document ids containing `/` are not modelled. The store splits such an id into path segments and ignores a leading or trailing `/`. So the call may throw (an odd number of segments, or `//`), may address a document in a subcollection (`a/b/c`), or may address the same document as another id (`/123` and `123`). The model stores every id as an ordinary key, so its answers can differ: with agent `123` on file, a create with mobile `/123` gets 400 from the source and 200 from the model.
- Other document ids the store refuses are not modelled either: the ids `.` and `..`, ids of the form `__…__`, and ids over 1500 bytes. For such an id, for example an agent whose mobile is `..`, the store call throws and the source answers 500, while the model with `NoFault` answers 200. Such a failure can only be modelled by passing a `Fault`.
- Field paths in `update`: a body key containing `.` would address a nested field. Every schema here rejects such keys, so `update` is a top-level merge.
