/**
 * The request handlers that the task controller and the order routes share
 * line for line, written once over a collection and a schema: validate the
 * body, then make one store call inside a try/catch.
 */
module Handlers {
  import opened Json
  import opened Joi
  import opened Store

  /** The document a create handler writes: `{ id: id, ...body }`. */
  function Created(id: Value, body: Doc): Doc
  {
    Spread(map["id" := id], body)
  }

  /** When the body lists no `id`, the created document is the body plus exactly that field. */
  lemma CreatedIsBodyPlusId(id: Value, body: Doc)
    requires "id" !in body
    ensures Created(id, body).Keys == body.Keys + {"id"}
    ensures Created(id, body)["id"] == id
    ensures Created(id, body) - {"id"} == body
  {
  }

  /** POST create: 400 on an invalid body, else `set` of the body plus the generated id. */
  method Create(c: Collection, keys: Keys, isEmail: string -> bool, body: Doc, id: string, fault: Fault)
    returns (status: Status)
    modifies c
    ensures !Validates(keys, body, isEmail) ==> status == BadRequest && c.docs == old(c.docs)
    ensures Validates(keys, body, isEmail) && fault.Fails(0) ==> status == InternalError && c.docs == old(c.docs)
    ensures Validates(keys, body, isEmail) && !fault.Fails(0) ==>
      status == Ok && c.docs == old(c.docs)[id := Created(Str(id), body)]
  {
    if !Validates(keys, body, isEmail) {
      return BadRequest;
    }
    if fault.Fails(0) {
      return InternalError;
    }
    c.Set(id, Created(Str(id), body));
    return Ok;
  }

  /** GET one: 404 when the id is absent, else the stored document unchanged. */
  method Get(c: Collection, id: string, fault: Fault) returns (r: Response<Doc>)
    ensures r.WellFormed()
    ensures fault.Fails(0) ==> r.status == InternalError
    ensures !fault.Fails(0) && id !in c.docs ==> r.status == NotFound
    ensures !fault.Fails(0) && id in c.docs ==> r == Response(Ok, Some(c.docs[id]))
  {
    if fault.Fails(0) {
      return Response(InternalError, None);
    }
    var found := c.Get(id);
    if found.None? {
      return Response(NotFound, None);
    }
    return Response(Ok, Some(found.value));
  }

  /**
   * PUT update: 400 on an invalid body; otherwise `update`, which on an absent
   * id throws, so the catch answers 500 and nothing is created.
   */
  method Update(c: Collection, keys: Keys, isEmail: string -> bool, id: string, body: Doc, fault: Fault)
    returns (status: Status)
    modifies c
    ensures !Validates(keys, body, isEmail) ==> status == BadRequest && c.docs == old(c.docs)
    ensures Validates(keys, body, isEmail) && (fault.Fails(0) || id !in old(c.docs)) ==>
      status == InternalError && c.docs == old(c.docs)
    ensures Validates(keys, body, isEmail) && !fault.Fails(0) && id in old(c.docs) ==>
      status == Ok && c.docs == old(c.docs)[id := Spread(old(c.docs)[id], body)]
  {
    if !Validates(keys, body, isEmail) {
      return BadRequest;
    }
    if fault.Fails(0) {
      return InternalError;
    }
    var found := c.Update(id, body);
    status := if found then Ok else InternalError;
  }

  /** DELETE: 200 whether or not the id existed. */
  method Delete(c: Collection, id: string, fault: Fault) returns (status: Status)
    modifies c
    ensures fault.Fails(0) ==> status == InternalError && c.docs == old(c.docs)
    ensures !fault.Fails(0) ==> status == Ok && c.docs == old(c.docs) - {id}
  {
    if fault.Fails(0) {
      return InternalError;
    }
    c.Delete(id);
    return Ok;
  }

  /** The id a mobile-keyed body is stored under: its `mobile` string. */
  function MobileOf(body: Doc): string
  {
    if "mobile" in body && body["mobile"].Str? then body["mobile"].s else ""
  }

  /** A schema that demands a non-empty `mobile` string. */
  predicate KeysByMobile(keys: Keys)
  {
    "mobile" in keys && keys["mobile"] == Rule(Required, String)
  }

  /** The collection after a mobile-keyed create that meets no store failure. */
  function Registered(docs: map<string, Doc>, keys: Keys, isEmail: string -> bool, body: Doc, now: int): map<string, Doc>
  {
    if Validates(keys, body, isEmail) && MobileOf(body) !in docs
    then docs[MobileOf(body) := Created(Num(now as real), body)]
    else docs
  }

  /** Every document is stored under its own `mobile` string, so no two share a mobile number. */
  predicate KeyedByMobile(docs: map<string, Doc>)
  {
    forall k :: k in docs ==> "mobile" in docs[k] && docs[k]["mobile"] == Str(k)
  }

  lemma KeyedByMobileUnique(docs: map<string, Doc>, k1: string, k2: string)
    requires KeyedByMobile(docs) && k1 in docs && k2 in docs
    requires docs[k1]["mobile"] == docs[k2]["mobile"]
    ensures k1 == k2
  {
  }

  /** A create never replaces a stored document, and keeps the collection keyed by mobile. */
  lemma RegisteredKeepsExisting(docs: map<string, Doc>, keys: Keys, isEmail: string -> bool, body: Doc, now: int)
    requires KeysByMobile(keys)
    ensures forall k :: k in docs ==> k in Registered(docs, keys, isEmail, body, now) && Registered(docs, keys, isEmail, body, now)[k] == docs[k]
    ensures KeyedByMobile(docs) ==> KeyedByMobile(Registered(docs, keys, isEmail, body, now))
  {
    if Validates(keys, body, isEmail) {
      RequiredKeyPresent(keys, body, isEmail, "mobile");
    }
  }

  /** A create request: its body and the clock reading. */
  datatype Request = Request(body: Doc, now: int)

  /** The collection after a run of mobile-keyed creates, one after another. */
  function RegisterAll(docs: map<string, Doc>, keys: Keys, isEmail: string -> bool, run: seq<Request>): map<string, Doc>
    decreases |run|
  {
    if run == [] then docs
    else RegisterAll(Registered(docs, keys, isEmail, run[0].body, run[0].now), keys, isEmail, run[1..])
  }

  /**
   * After any run of creates, no document present before has been replaced,
   * and a collection keyed by mobile stays so: at most one document per number.
   */
  lemma {:induction false} RegisterAllKeepsExisting(docs: map<string, Doc>, keys: Keys, isEmail: string -> bool, run: seq<Request>)
    requires KeysByMobile(keys)
    ensures forall k :: k in docs ==> k in RegisterAll(docs, keys, isEmail, run) && RegisterAll(docs, keys, isEmail, run)[k] == docs[k]
    ensures KeyedByMobile(docs) ==> KeyedByMobile(RegisterAll(docs, keys, isEmail, run))
    decreases |run|
  {
    if run != [] {
      var next := Registered(docs, keys, isEmail, run[0].body, run[0].now);
      RegisteredKeepsExisting(docs, keys, isEmail, run[0].body, run[0].now);
      RegisterAllKeepsExisting(next, keys, isEmail, run[1..]);
    }
  }

  /**
   * POST create keyed by mobile number: 400 on an invalid body; then `get` of
   * the mobile's document, 400 if it exists; otherwise `set` of the body plus
   * a numeric timestamp `id`.
   */
  method CreateByMobile(c: Collection, keys: Keys, isEmail: string -> bool, body: Doc, now: int, fault: Fault)
    returns (status: Status)
    requires KeysByMobile(keys)
    modifies c
    ensures !Validates(keys, body, isEmail) ==> status == BadRequest && c.docs == old(c.docs)
    ensures Validates(keys, body, isEmail) ==> "mobile" in body && body["mobile"] == Str(MobileOf(body))
    ensures Validates(keys, body, isEmail) && fault.Fails(0) ==> status == InternalError && c.docs == old(c.docs)
    ensures Validates(keys, body, isEmail) && !fault.Fails(0) && MobileOf(body) in old(c.docs) ==>
      status == BadRequest && c.docs == old(c.docs)
    ensures Validates(keys, body, isEmail) && !fault.Fails(0) && MobileOf(body) !in old(c.docs) && fault.Fails(1) ==>
      status == InternalError && c.docs == old(c.docs)
    ensures Validates(keys, body, isEmail) && !fault.Fails(0) && MobileOf(body) !in old(c.docs) && !fault.Fails(1) ==>
      status == Ok && c.docs == old(c.docs)[MobileOf(body) := Created(Num(now as real), body)]
    ensures fault == NoFault ==> c.docs == Registered(old(c.docs), keys, isEmail, body, now)
  {
    if !Validates(keys, body, isEmail) {
      return BadRequest;
    }
    RequiredKeyPresent(keys, body, isEmail, "mobile");
    var key := body["mobile"].s;
    if fault.Fails(0) {
      return InternalError;
    }
    var existing := c.Get(key);
    if existing.Some? {
      return BadRequest;
    }
    if fault.Fails(1) {
      return InternalError;
    }
    c.Set(key, Created(Num(now as real), body));
    return Ok;
  }
}
