/** The task controller of src/controllers/taskController.js over the `tasks` collection. */
module TaskController {
  import opened Json
  import opened Ordering
  import opened Store
  import opened Schemas
  import Joi
  import Handlers

  // ---------------------------------------------------------------------------
  // The collection's invariant

  predicate HasStringTaskNo(d: Doc)
  {
    "taskNo" in d && d["taskNo"].Str?
  }

  /** Every task carries its own id in field `id` and a string task number. */
  predicate WellFormed(docs: map<string, Doc>)
  {
    forall k :: k in docs ==> "id" in docs[k] && docs[k]["id"] == Str(k) && HasStringTaskNo(docs[k])
  }

  lemma CreatePreservesWellFormed(docs: map<string, Doc>, taskId: string, body: Doc)
    requires WellFormed(docs) && ValidTask(body)
    ensures WellFormed(docs[taskId := Handlers.Created(Str(taskId), body)])
  {
    ValidTaskHasNoId(body);
  }

  lemma UpdatePreservesWellFormed(docs: map<string, Doc>, id: string, body: Doc)
    requires WellFormed(docs) && ValidTask(body) && id in docs
    ensures WellFormed(docs[id := Spread(docs[id], body)])
  {
    ValidTaskHasNoId(body);
  }

  // ---------------------------------------------------------------------------
  // Handlers

  /** createTask: `taskId` is the decimal string of the creation time, supplied by the caller. */
  method CreateTask(tasks: Collection, body: Doc, taskId: string, fault: Fault) returns (status: Status)
    modifies tasks
    ensures !ValidTask(body) ==> status == BadRequest && tasks.docs == old(tasks.docs)
    ensures ValidTask(body) && fault.Fails(0) ==> status == InternalError && tasks.docs == old(tasks.docs)
    ensures ValidTask(body) && !fault.Fails(0) ==>
      && status == Ok
      && taskId in tasks.docs && tasks.docs == old(tasks.docs)[taskId := tasks.docs[taskId]]
      && tasks.docs[taskId].Keys == body.Keys + {"id"}
      && tasks.docs[taskId]["id"] == Str(taskId)
      && tasks.docs[taskId] - {"id"} == body
    ensures WellFormed(old(tasks.docs)) ==> WellFormed(tasks.docs)
  {
    status := Handlers.Create(tasks, TaskKeys, Joi.NoEmail, body, taskId, fault);
    if ValidTask(body) {
      ValidTaskHasNoId(body);
      Handlers.CreatedIsBodyPlusId(Str(taskId), body);
      if WellFormed(old(tasks.docs)) { CreatePreservesWellFormed(old(tasks.docs), taskId, body); }
    }
  }

  /** getTask: 404 when absent, otherwise the document exactly as stored. */
  method GetTask(tasks: Collection, id: string, fault: Fault) returns (r: Response<Doc>)
    ensures r.WellFormed()
    ensures fault.Fails(0) ==> r.status == InternalError
    ensures !fault.Fails(0) ==> (r.status == NotFound <==> id !in tasks.docs)
    ensures !fault.Fails(0) && id in tasks.docs ==> r == Response(Ok, Some(tasks.docs[id]))
  {
    r := Handlers.Get(tasks, id, fault);
  }

  /**
   * updateTask: the body is checked against the full task schema; an existing
   * task has exactly the body's fields overwritten and keeps its others
   * (including `id`); an absent id answers 500 and creates nothing.
   */
  method UpdateTask(tasks: Collection, id: string, body: Doc, fault: Fault) returns (status: Status)
    modifies tasks
    ensures !ValidTask(body) ==> status == BadRequest && tasks.docs == old(tasks.docs)
    ensures ValidTask(body) && (fault.Fails(0) || id !in old(tasks.docs)) ==>
      status == InternalError && tasks.docs == old(tasks.docs)
    ensures ValidTask(body) && !fault.Fails(0) && id in old(tasks.docs) ==>
      && status == Ok
      && tasks.docs == old(tasks.docs)[id := Spread(old(tasks.docs)[id], body)]
      && tasks.docs[id].Keys == old(tasks.docs)[id].Keys + body.Keys
      && (forall k :: k in body ==> tasks.docs[id][k] == body[k])
      && (forall k :: k in old(tasks.docs)[id] && k !in body ==> tasks.docs[id][k] == old(tasks.docs)[id][k])
    ensures WellFormed(old(tasks.docs)) ==> WellFormed(tasks.docs)
  {
    status := Handlers.Update(tasks, TaskKeys, Joi.NoEmail, id, body, fault);
    if ValidTask(body) && id in old(tasks.docs) && WellFormed(old(tasks.docs)) {
      UpdatePreservesWellFormed(old(tasks.docs), id, body);
    }
  }

  /** deleteTask: 200 whether or not the task existed. */
  method DeleteTask(tasks: Collection, id: string, fault: Fault) returns (status: Status)
    modifies tasks
    ensures fault.Fails(0) ==> status == InternalError && tasks.docs == old(tasks.docs)
    ensures !fault.Fails(0) ==> status == Ok && id !in tasks.docs && tasks.docs == old(tasks.docs) - {id}
    ensures WellFormed(old(tasks.docs)) ==> WellFormed(tasks.docs)
  {
    status := Handlers.Delete(tasks, id, fault);
  }

  /** Creating a task and then fetching it by its id gives back the body plus exactly the id field. */
  method CreateThenGet(tasks: Collection, body: Doc, taskId: string) returns (created: Status, fetched: Response<Doc>)
    requires ValidTask(body)
    modifies tasks
    ensures created == Ok && fetched.status == Ok && fetched.data.Some?
    ensures fetched.data.value.Keys == body.Keys + {"id"}
    ensures fetched.data.value["id"] == Str(taskId) && fetched.data.value - {"id"} == body
  {
    created := CreateTask(tasks, body, taskId, NoFault);
    fetched := GetTask(tasks, taskId, NoFault);
  }

  // ---------------------------------------------------------------------------
  // Properties of the stored documents

  /** Re-applying the same update changes nothing. */
  lemma UpdateIdempotent(d: Doc, body: Doc)
    ensures Spread(Spread(d, body), body) == Spread(d, body)
  {
    assert Spread(Spread(d, body), body).Keys == Spread(d, body).Keys;
  }

  /** Deleting twice is deleting once. */
  lemma DeleteIdempotent(docs: map<string, Doc>, id: string)
    ensures docs - {id} - {id} == docs - {id}
    ensures id !in docs ==> docs - {id} == docs
  {
  }

  /**
   * An update is validated on its own, not merged with what is stored: a
   * cash-on-delivery task updated with a valid online body keeps its amount,
   * and the stored document no longer passes the task schema.
   */
  lemma UpdateCanBreakSchema()
    ensures exists d: Doc, body: Doc :: ValidTask(d) && ValidTask(body) && !ValidTask(Spread(d, body))
  {
    var body := ExampleTask;
    var d := ExampleTask["type" := Str("cod")]["amount" := Num(5.0)];
    ExampleTaskAccepted();
    ExampleCodTaskNeedsAmount();
    var merged := Spread(d, body);
    assert "amount" in merged && merged["type"] == Str("online");
    if ValidTask(merged) {
      TaskPaymentSound(merged);
    }
  }

  // ---------------------------------------------------------------------------
  // getAllTasks: `orderBy("taskNo")` with a page size and a `startAfter` cursor

  function TaskNoOf(d: Doc): string
  {
    if HasStringTaskNo(d) then d["taskNo"].s else ""
  }

  /** The store breaks ties between equal task numbers by document id. */
  function KeyOf(s: Snapshot): SortKey
  {
    SortKey(TaskNoOf(s.data), s.id)
  }

  predicate Sorted(view: seq<Snapshot>)
  {
    forall i, j :: 0 <= i < j < |view| ==> KeyLess(KeyOf(view[i]), KeyOf(view[j]))
  }

  /** The tasks `orderBy("taskNo")` returns: those whose task number is a string. */
  function Listed(docs: map<string, Doc>): set<string>
  {
    set k | k in docs && HasStringTaskNo(docs[k])
  }

  /** `view` is the whole result of `orderBy("taskNo")` over the collection `docs`. */
  predicate IsTaskOrder(docs: map<string, Doc>, view: seq<Snapshot>)
  {
    && (forall s :: s in view ==> s.id in docs && docs[s.id] == s.data && HasStringTaskNo(s.data))
    && Ids(view) == Listed(docs)
    && Sorted(view)
  }

  function Min(a: int, b: int): int
  {
    if a <= b then a else b
  }

  /** `.limit(n)`: the first `n` results. */
  function Take(view: seq<Snapshot>, n: int): seq<Snapshot>
    requires n >= 0
  {
    view[..Min(n, |view|)]
  }

  /** `.startAfter(cursor)`: the results that sort strictly after the cursor's position. */
  function After(view: seq<Snapshot>, cursor: SortKey): (r: seq<Snapshot>)
    ensures forall s :: s in r ==> s in view && KeyLess(cursor, KeyOf(s))
  {
    if view == [] then []
    else (if KeyLess(cursor, KeyOf(view[0])) then [view[0]] else []) + After(view[1..], cursor)
  }

  /** Each result row mapped to `{ id: doc.id, ...doc.data() }`. */
  function Items(view: seq<Snapshot>): seq<Doc>
  {
    seq(|view|, i requires 0 <= i < |view| => Handlers.Created(Str(view[i].id), view[i].data))
  }

  /** The payload of a successful listing; `page` and `limit` are echoed back. */
  datatype Listing = Listing(data: seq<Doc>, page: int, limit: int)

  /**
   * getAllTasks on the ordered collection `view`, with `page` and `limit`
   * already parsed. A page before the first is refused before any query; a
   * later page first reads the `(page - 1) * limit` preceding results to find
   * the cursor, and answers 404 when there are none.
   */
  function ListTasks(view: seq<Snapshot>, page: int, limit: int, fault: Fault): (r: Response<Listing>)
    requires limit >= 1
    ensures r.WellFormed()
    ensures page < 1 ==> r.status == BadRequest
    ensures r.status == NotFound <==> page > 1 && view == [] && !fault.Fails(0)
    ensures r.status == Ok ==> |r.data.value.data| <= limit && r.data.value.page == page && r.data.value.limit == limit
  {
    if page < 1 then Response(BadRequest, None)
    else if page == 1 then
      if fault.Fails(0) then Response(InternalError, None)
      else Response(Ok, Some(Listing(Items(Take(view, limit)), page, limit)))
    else
      if fault.Fails(0) then Response(InternalError, None)
      else
        var previous := Take(view, (page - 1) * limit);
        if |previous| == 0 then Response(NotFound, None)
        else if fault.Fails(1) then Response(InternalError, None)
        else
          var cursor := previous[|previous| - 1];
          Response(Ok, Some(Listing(Items(Take(After(view, KeyOf(cursor)), limit)), page, limit)))
  }

  /** The defaults of the query string: `page = 1`, `limit = 10`. */
  const DefaultPage: int := 1
  const DefaultLimit: int := 10

  /**
   * getAllTasks with the query parameters as the request gives them: a
   * parameter left out takes its default.
   */
  function ListTasksQuery(view: seq<Snapshot>, page: Option<int>, limit: Option<int>, fault: Fault): (r: Response<Listing>)
    requires limit.Some? ==> limit.value >= 1
    ensures r.WellFormed()
    ensures r.status == Ok ==> r.data.value.page == (if page.Some? then page.value else 1)
    ensures r.status == Ok ==> r.data.value.limit == (if limit.Some? then limit.value else 10)
    ensures page.None? ==> r.status == Ok || r.status == InternalError
    ensures limit.None? && r.status == Ok ==> |r.data.value.data| <= 10
  {
    ListTasks(view, if page.Some? then page.value else DefaultPage, if limit.Some? then limit.value else DefaultLimit, fault)
  }

  /** A request with neither parameter gets the first ten tasks in order. */
  lemma DefaultQueryIsFirstTen(view: seq<Snapshot>, fault: Fault)
    requires !fault.Fails(0)
    ensures ListTasksQuery(view, None, None, fault) == Response(Ok, Some(Listing(Items(view[..Min(10, |view|)]), 1, 10)))
  {
  }

  /** Page `page` of size `limit` by position: the results from `(page - 1) * limit` up to `page * limit`. */
  function Page(view: seq<Snapshot>, page: int, limit: int): (r: seq<Snapshot>)
    requires page >= 1 && limit >= 1
  {
    PageBounds(page, limit);
    view[Min((page - 1) * limit, |view|)..Min(page * limit, |view|)]
  }

  lemma PageBounds(page: int, limit: int)
    requires page >= 1 && limit >= 1
    ensures 0 <= (page - 1) * limit <= page * limit
    ensures page * limit == (page - 1) * limit + limit
  {
  }

  lemma {:induction false} AfterSplit(view: seq<Snapshot>, cursor: SortKey, i: nat)
    requires i <= |view|
    requires forall j :: 0 <= j < i ==> !KeyLess(cursor, KeyOf(view[j]))
    requires forall j :: i <= j < |view| ==> KeyLess(cursor, KeyOf(view[j]))
    ensures After(view, cursor) == view[i..]
    decreases |view|
  {
    if view != [] {
      AfterSplit(view[1..], cursor, if i == 0 then 0 else i - 1);
    }
  }

  /** In a sorted listing nothing up to position `i` sorts after the key at `i`, and everything beyond it does. */
  lemma SortedAround(view: seq<Snapshot>, i: nat)
    requires Sorted(view) && i < |view|
    ensures forall j :: 0 <= j < i + 1 ==> !KeyLess(KeyOf(view[i]), KeyOf(view[j]))
    ensures forall j :: i + 1 <= j < |view| ==> KeyLess(KeyOf(view[i]), KeyOf(view[j]))
  {
    var c := KeyOf(view[i]);
    forall j | 0 <= j < i + 1 ensures !KeyLess(c, KeyOf(view[j])) {
      KeyLessIrreflexive(c);
      if j < i {
        assert KeyLess(KeyOf(view[j]), c);
        KeyLessAsymmetric(KeyOf(view[j]), c);
      }
    }
  }

  /** Resuming after the document at position `i` of a sorted listing gives exactly the documents after position `i`. */
  lemma AfterCursor(view: seq<Snapshot>, i: nat)
    requires Sorted(view) && i < |view|
    ensures After(view, KeyOf(view[i])) == view[i + 1..]
  {
    SortedAround(view, i);
    AfterSplit(view, KeyOf(view[i]), i + 1);
  }

  /** Without store failures, every answered page is the positional page, as `{ id, ...data }` items. */
  lemma ListTasksIsPage(view: seq<Snapshot>, page: int, limit: int, fault: Fault)
    requires Sorted(view) && page >= 1 && limit >= 1
    requires page == 1 || view != []
    requires !fault.Fails(0) && !fault.Fails(1)
    ensures ListTasks(view, page, limit, fault) == Response(Ok, Some(Listing(Items(Page(view, page, limit)), page, limit)))
  {
    PageBounds(page, limit);
    if page > 1 {
      var n := Min((page - 1) * limit, |view|);
      assert n > 0;
      AfterCursor(view, n - 1);
      assert Take(After(view, KeyOf(view[n - 1])), limit) == Page(view, page, limit);
    }
  }

  /** Pages 1 to `k` by position, one after the other. */
  function Pages(view: seq<Snapshot>, limit: int, k: nat): seq<Snapshot>
    requires limit >= 1
  {
    if k == 0 then [] else Pages(view, limit, k - 1) + Page(view, k, limit)
  }

  /** Pages 1 to `k` together are the first `k * limit` results: no gaps and nothing twice. */
  lemma {:induction false} PagesArePrefix(view: seq<Snapshot>, limit: int, k: nat)
    requires limit >= 1
    ensures Pages(view, limit, k) == view[..Min(k * limit, |view|)]
  {
    if k > 0 {
      PagesArePrefix(view, limit, k - 1);
      PageBounds(k, limit);
      assert view[..Min((k - 1) * limit, |view|)] + Page(view, k, limit) == view[..Min(k * limit, |view|)];
    }
  }

  lemma ItemsAppend(a: seq<Snapshot>, b: seq<Snapshot>)
    ensures Items(a + b) == Items(a) + Items(b)
  {
    assert forall i :: 0 <= i < |a + b| ==> Items(a + b)[i] == (Items(a) + Items(b))[i];
  }

  /** The data arrays of the answers for pages 1 to `k`, one after the other. */
  function ListedData(view: seq<Snapshot>, limit: int, k: nat): seq<Doc>
    requires limit >= 1
  {
    if k == 0 then []
    else
      var r := ListTasks(view, k, limit, NoFault);
      ListedData(view, limit, k - 1) + (if r.status == Ok then r.data.value.data else [])
  }

  lemma ListedDataStep(view: seq<Snapshot>, limit: int, k: nat)
    requires Sorted(view) && view != [] && limit >= 1 && k >= 1
    ensures ListedData(view, limit, k) == ListedData(view, limit, k - 1) + Items(Page(view, k, limit))
  {
    ListTasksIsPage(view, k, limit, NoFault);
  }

  lemma ListedDataExtends(view: seq<Snapshot>, limit: int, k: nat)
    requires Sorted(view) && view != [] && limit >= 1 && k >= 1
    requires ListedData(view, limit, k - 1) == Items(Pages(view, limit, k - 1))
    ensures ListedData(view, limit, k) == Items(Pages(view, limit, k))
  {
    var previous, page := Pages(view, limit, k - 1), Page(view, k, limit);
    ListedDataStep(view, limit, k);
    assert ListedData(view, limit, k) == Items(previous) + Items(page);
    ItemsAppend(previous, page);
    assert Pages(view, limit, k) == previous + page;
  }

  lemma {:induction false} ListedDataIsPages(view: seq<Snapshot>, limit: int, k: nat)
    requires Sorted(view) && view != [] && limit >= 1
    ensures ListedData(view, limit, k) == Items(Pages(view, limit, k))
  {
    if k > 0 {
      ListedDataIsPages(view, limit, k - 1);
      ListedDataExtends(view, limit, k);
    }
  }

  /** On an empty collection the answers for pages 1 to `k` hold no task at all. */
  lemma {:induction false} ListedDataEmpty(limit: int, k: nat)
    requires limit >= 1
    ensures ListedData([], limit, k) == []
  {
    if k > 0 {
      ListedDataEmpty(limit, k - 1);
    }
  }

  /** Requesting pages 1 to `k` yields the first `k * limit` tasks in order. */
  lemma ListingPagesIsPrefix(view: seq<Snapshot>, limit: int, k: nat)
    requires Sorted(view) && limit >= 1
    ensures ListedData(view, limit, k) == Items(view[..Min(k * limit, |view|)])
  {
    if view == [] {
      ListedDataEmpty(limit, k);
    } else {
      ListedDataIsPages(view, limit, k);
      PagesArePrefix(view, limit, k);
    }
  }

  /** In a sorted listing no document occurs twice. */
  lemma SortedDistinct(view: seq<Snapshot>, i: int, j: int)
    requires Sorted(view) && 0 <= i < j < |view|
    ensures view[i] != view[j]
  {
    KeyLessIrreflexive(KeyOf(view[i]));
  }

  /** Two different pages share no document. */
  lemma PagesDisjoint(view: seq<Snapshot>, limit: int, p: int, q: int)
    requires Sorted(view) && limit >= 1 && 1 <= p < q
    ensures forall s :: s in Page(view, p, limit) ==> s !in Page(view, q, limit)
  {
    PageBounds(p, limit);
    PageBounds(q, limit);
    PageBounds(q - p, limit);
    var lo := Min((p - 1) * limit, |view|);
    var mid := Min(p * limit, |view|);
    var start := Min((q - 1) * limit, |view|);
    assert (q - 1) * limit == p * limit + (q - p - 1) * limit;
    assert mid <= start;
    forall s | s in Page(view, p, limit) ensures s !in Page(view, q, limit) {
      var i :| lo <= i < mid && view[i] == s;
      if s in Page(view, q, limit) {
        var j :| start <= j < Min(q * limit, |view|) && view[j] == s;
        SortedDistinct(view, i, j);
      }
    }
  }

  /** A page past the end of a non-empty collection is answered with an empty list, not 404. */
  lemma PastTheEnd(view: seq<Snapshot>, page: int, limit: int)
    requires Sorted(view) && view != [] && limit >= 1 && page >= 1 && (page - 1) * limit >= |view|
    ensures ListTasks(view, page, limit, NoFault) == Response(Ok, Some(Listing([], page, limit)))
  {
    ListTasksIsPage(view, page, limit, NoFault);
    PageBounds(page, limit);
  }

  /** An empty collection answers page 1 with an empty list and every later page with 404. */
  lemma EmptyCollection(page: int, limit: int)
    requires limit >= 1 && page >= 1
    ensures page == 1 ==> ListTasks([], page, limit, NoFault) == Response(Ok, Some(Listing([], 1, limit)))
    ensures page > 1 ==> ListTasks([], page, limit, NoFault).status == NotFound
  {
  }

  /** Page 1 is the first `limit` tasks in order. */
  lemma FirstPage(view: seq<Snapshot>, limit: int)
    requires limit >= 1
    ensures ListTasks(view, 1, limit, NoFault) == Response(Ok, Some(Listing(Items(view[..Min(limit, |view|)]), 1, limit)))
  {
  }

  /** In a well-formed collection the `{ id: doc.id, ...data }` item is the stored document itself. */
  lemma ItemsAreStoredDocuments(docs: map<string, Doc>, view: seq<Snapshot>)
    requires WellFormed(docs) && IsTaskOrder(docs, view)
    ensures forall i :: 0 <= i < |view| ==> Items(view)[i] == docs[view[i].id]
    ensures Ids(view) == docs.Keys
  {
    forall i | 0 <= i < |view| ensures Items(view)[i] == docs[view[i].id] {
      var s := view[i];
      assert s in view;
      assert Handlers.Created(Str(s.id), s.data) == s.data;
    }
  }

  // ---------------------------------------------------------------------------
  // The ordered listing is determined by the collection, and always exists

  /**
   * The first element of a non-empty listing is one of its elements. Stated
   * as a lemma so that the impossible branches below can close without
   * checking the fact inline.
   */
  lemma FirstIsElement(s: seq<Snapshot>)
    requires s != []
    ensures s[0] in s
  {
  }

  /** Two sorted listings with the same documents are the same listing. */
  lemma {:induction false} SortedSameElementsEqual(a: seq<Snapshot>, b: seq<Snapshot>)
    requires Sorted(a) && Sorted(b)
    requires forall s :: s in a <==> s in b
    ensures a == b
    decreases |a|
  {
    if a == [] && b != [] {
      FirstIsElement(b);
      assert false;
    } else if a != [] && b == [] {
      FirstIsElement(a);
      assert false;
    } else if a != [] && b != [] {
      if a[0] != b[0] {
        assert a[0] in b;
        var j :| 0 <= j < |b| && b[j] == a[0];
        assert b[0] in a;
        var i :| 0 <= i < |a| && a[i] == b[0];
        KeyLessAsymmetric(KeyOf(a[0]), KeyOf(b[0]));
      }
      forall s ensures s in a[1..] <==> s in b[1..] {
        if s in a[1..] {
          var i :| 1 <= i < |a| && a[i] == s;
          SortedDistinct(a, 0, i);
          assert s in b && s != b[0];
          assert b == [b[0]] + b[1..];
        }
        if s in b[1..] {
          var j :| 1 <= j < |b| && b[j] == s;
          SortedDistinct(b, 0, j);
          assert s in a && s != a[0];
          assert a == [a[0]] + a[1..];
        }
      }
      assert Sorted(a[1..]) by {
        forall i, j | 0 <= i < j < |a[1..]| ensures KeyLess(KeyOf(a[1..][i]), KeyOf(a[1..][j])) {
          assert a[1..][i] == a[i + 1] && a[1..][j] == a[j + 1];
        }
      }
      assert Sorted(b[1..]) by {
        forall i, j | 0 <= i < j < |b[1..]| ensures KeyLess(KeyOf(b[1..][i]), KeyOf(b[1..][j])) {
          assert b[1..][i] == b[i + 1] && b[1..][j] == b[j + 1];
        }
      }
      SortedSameElementsEqual(a[1..], b[1..]);
      assert a == [a[0]] + a[1..] && b == [b[0]] + b[1..];
    }
  }

  /** The result of `orderBy("taskNo")` is a function of the collection. */
  lemma TaskOrderUnique(docs: map<string, Doc>, v1: seq<Snapshot>, v2: seq<Snapshot>)
    requires IsTaskOrder(docs, v1) && IsTaskOrder(docs, v2)
    ensures v1 == v2
  {
    forall s ensures s in v1 <==> s in v2 {
      if s in v1 {
        assert s.id in Ids(v2);
        var t: Snapshot :| t in v2 && t.id == s.id;
      }
      if s in v2 {
        assert s.id in Ids(v1);
        var t: Snapshot :| t in v1 && t.id == s.id;
      }
    }
    SortedSameElementsEqual(v1, v2);
  }

  /** Insert one document into a sorted listing at its place. */
  function Insert(view: seq<Snapshot>, s: Snapshot): seq<Snapshot>
  {
    if view == [] then [s]
    else if KeyLess(KeyOf(s), KeyOf(view[0])) then [s] + view
    else [view[0]] + Insert(view[1..], s)
  }

  lemma SortedTail(view: seq<Snapshot>)
    requires Sorted(view) && view != []
    ensures Sorted(view[1..])
  {
    forall i, j | 0 <= i < j < |view[1..]| ensures KeyLess(KeyOf(view[1..][i]), KeyOf(view[1..][j])) {
      assert view[1..][i] == view[i + 1] && view[1..][j] == view[j + 1];
    }
  }

  lemma {:induction false} InsertSorted(view: seq<Snapshot>, s: Snapshot)
    requires Sorted(view) && s.id !in Ids(view)
    ensures Sorted(Insert(view, s))
    ensures forall x :: x in Insert(view, s) <==> x in view || x == s
    decreases |view|
  {
    if view != [] {
      assert view[0] in view;
      if KeyLess(KeyOf(s), KeyOf(view[0])) {
        var r := [s] + view;
        forall i, j | 0 <= i < j < |r| ensures KeyLess(KeyOf(r[i]), KeyOf(r[j])) {
          if i == 0 && j > 1 {
            KeyLessTransitive(KeyOf(s), KeyOf(view[0]), KeyOf(view[j - 1]));
          }
        }
      } else {
        var tail := view[1..];
        SortedTail(view);
        assert Ids(tail) <= Ids(view) by {
          forall x | x in Ids(tail) ensures x in Ids(view) {
            var t: Snapshot :| t in tail && t.id == x;
          }
        }
        InsertSorted(tail, s);
        KeyLessTotal(KeyOf(s), KeyOf(view[0]));
        var rest := Insert(tail, s);
        var r := [view[0]] + rest;
        forall j | 0 < j < |r| ensures KeyLess(KeyOf(view[0]), KeyOf(r[j])) {
          assert r[j] in rest;
          if r[j] != s {
            var m :| 0 <= m < |tail| && tail[m] == r[j];
            assert view[m + 1] == r[j];
          }
        }
        forall i, j | 0 <= i < j < |r| ensures KeyLess(KeyOf(r[i]), KeyOf(r[j])) {
          if i > 0 {
            assert r[i] == rest[i - 1] && r[j] == rest[j - 1];
          }
        }
      }
    }
  }

  lemma {:induction false} OrderOfKeysExists(docs: map<string, Doc>, keys: set<string>)
    requires keys <= Listed(docs)
    ensures exists view :: IsTaskOrderOf(docs, view, keys)
    decreases keys
  {
    if keys == {} {
      assert IsTaskOrderOf(docs, [], keys);
    } else {
      var k :| k in keys;
      OrderOfKeysExists(docs, keys - {k});
      var view :| IsTaskOrderOf(docs, view, keys - {k});
      var s := Snapshot(k, docs[k]);
      InsertSorted(view, s);
      var r := Insert(view, s);
      assert Ids(r) == keys by {
        forall x | x in Ids(r) ensures x in keys {
          var t: Snapshot :| t in r && t.id == x;
        }
        forall x | x in keys ensures x in Ids(r) {
          if x == k {
            assert s in r;
          } else {
            assert x in Ids(view);
            var t: Snapshot :| t in view && t.id == x;
            assert t in r;
          }
        }
      }
      assert IsTaskOrderOf(docs, r, keys);
    }
  }

  /** `view` lists in order exactly the documents of `docs` whose ids are in `keys`. */
  predicate IsTaskOrderOf(docs: map<string, Doc>, view: seq<Snapshot>, keys: set<string>)
  {
    && (forall s :: s in view ==> s.id in docs && docs[s.id] == s.data && HasStringTaskNo(s.data))
    && Ids(view) == keys
    && Sorted(view)
  }

  /** Every collection has an ordered listing. */
  lemma TaskOrderExists(docs: map<string, Doc>)
    ensures exists view :: IsTaskOrder(docs, view)
  {
    OrderOfKeysExists(docs, Listed(docs));
    var view :| IsTaskOrderOf(docs, view, Listed(docs));
    assert IsTaskOrder(docs, view);
  }
}
