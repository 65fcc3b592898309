/**
 * The routes defined directly in index.js: orders (create, get, list, update,
 * delete over `orders`) and delivery boys (create over `deliveryBoys`).
 */
module OrderApi {
  import opened Json
  import opened Joi
  import opened Ordering
  import opened Store
  import Handlers

  const OrderKeys: Keys := map[
    "name" := Rule(Required, String),
    "mobile" := Rule(Required, String),
    "address" := Rule(Required, String),
    "orderNo" := Rule(Required, String),
    "latitude" := Rule(Required, Number),
    "longitude" := Rule(Required, Number),
    "cod" := Rule(Required, Boolean),
    "amount" := Rule(Required, Number)
  ]

  const DeliveryBoyKeys: Keys := map[
    "name" := Rule(Required, String),
    "mobile" := Rule(Required, String)
  ]

  predicate ValidOrder(body: Doc)
  {
    Validates(OrderKeys, body, NoEmail)
  }

  predicate ValidDeliveryBoy(body: Doc)
  {
    Validates(DeliveryBoyKeys, body, NoEmail)
  }

  // ---------------------------------------------------------------------------
  // The same rules written out directly

  const OrderFields: set<string> := {"name", "mobile", "address", "orderNo", "latitude", "longitude", "cod", "amount"}

  /** Field `k` of `d` is a number `Joi.number()` accepts. */
  predicate HasNumber(d: Doc, k: string)
  {
    k in d && IsSafeNumber(d[k])
  }

  predicate OrderShape(d: Doc)
  {
    && d.Keys <= OrderFields
    && HasString(d, "name") && HasString(d, "mobile") && HasString(d, "address") && HasString(d, "orderNo")
    && HasNumber(d, "latitude") && HasNumber(d, "longitude") && HasNumber(d, "amount")
    && "cod" in d && d["cod"].Bool?
  }

  predicate DeliveryBoyShape(d: Doc)
  {
    d.Keys <= {"name", "mobile"} && HasString(d, "name") && HasString(d, "mobile")
  }

  lemma OrderSchemaSound(d: Doc)
    requires ValidOrder(d)
    ensures OrderShape(d)
  {
    forall k | k in OrderFields ensures k in d && Conforms(OrderKeys[k].check, d[k], NoEmail) {
      RequiredKeyPresent(OrderKeys, d, NoEmail, k);
    }
  }

  /** The order schema accepts exactly the documents of OrderShape. */
  lemma OrderSchemaMeaning(d: Doc)
    ensures ValidOrder(d) <==> OrderShape(d)
  {
    if ValidOrder(d) {
      OrderSchemaSound(d);
    }
    if OrderShape(d) {
      forall k | k in OrderKeys ensures Accepts(OrderKeys[k], d, k, NoEmail) {
        assert k in OrderFields;
      }
    }
  }

  /** The delivery boy schema accepts exactly the documents of DeliveryBoyShape. */
  lemma DeliveryBoySchemaMeaning(d: Doc)
    ensures ValidDeliveryBoy(d) <==> DeliveryBoyShape(d)
  {
    if ValidDeliveryBoy(d) {
      RequiredKeyPresent(DeliveryBoyKeys, d, NoEmail, "name");
      RequiredKeyPresent(DeliveryBoyKeys, d, NoEmail, "mobile");
    }
    if DeliveryBoyShape(d) {
      forall k | k in DeliveryBoyKeys ensures Accepts(DeliveryBoyKeys[k], d, k, NoEmail) {
        assert k == "name" || k == "mobile";
      }
    }
  }

  // ---------------------------------------------------------------------------
  // The collection's invariant

  /** The nine fields the order listing selects. */
  const SelectedFields: set<string> := OrderFields + {"id"}

  /** Every order carries its own id in `id` and no field beyond the selected nine. */
  predicate WellFormed(docs: map<string, Doc>)
  {
    forall k :: k in docs ==> docs[k].Keys <= SelectedFields && "id" in docs[k] && docs[k]["id"] == Str(k)
  }

  lemma CreatePreservesWellFormed(docs: map<string, Doc>, orderId: string, body: Doc)
    requires WellFormed(docs) && ValidOrder(body)
    ensures WellFormed(docs[orderId := Handlers.Created(Str(orderId), body)])
  {
    OrderSchemaSound(body);
  }

  lemma UpdatePreservesWellFormed(docs: map<string, Doc>, id: string, body: Doc)
    requires WellFormed(docs) && ValidOrder(body) && id in docs
    ensures WellFormed(docs[id := Spread(docs[id], body)])
  {
    OrderSchemaSound(body);
    MergeKeepsWellFormed(docs, id, body);
  }

  /**
   * Merging a patch made of order fields into a stored order keeps the
   * invariant. Kept apart from UpdatePreservesWellFormed so that this step is
   * proved without the schema's definition in scope, which on some solver
   * seeds makes the combined proof run out of resource.
   */
  lemma MergeKeepsWellFormed(docs: map<string, Doc>, id: string, body: Doc)
    requires WellFormed(docs) && id in docs && body.Keys <= OrderFields
    ensures WellFormed(docs[id := Spread(docs[id], body)])
  {
    var merged := Spread(docs[id], body);
    assert "id" !in body;
    assert merged["id"] == Str(id);
  }

  // ---------------------------------------------------------------------------
  // Handlers

  /** POST /api/createOrder: `orderId` is the decimal string of the creation time, supplied by the caller. */
  method CreateOrder(orders: Collection, body: Doc, orderId: string, fault: Fault) returns (status: Status)
    modifies orders
    ensures !ValidOrder(body) ==> status == BadRequest && orders.docs == old(orders.docs)
    ensures ValidOrder(body) && fault.Fails(0) ==> status == InternalError && orders.docs == old(orders.docs)
    ensures ValidOrder(body) && !fault.Fails(0) ==>
      && status == Ok
      && orderId in orders.docs && orders.docs == old(orders.docs)[orderId := orders.docs[orderId]]
      && "id" in orders.docs[orderId] && orders.docs[orderId]["id"] == Str(orderId)
      && orders.docs[orderId] - {"id"} == body
    ensures WellFormed(old(orders.docs)) ==> WellFormed(orders.docs)
  {
    status := Handlers.Create(orders, OrderKeys, NoEmail, body, orderId, fault);
    if ValidOrder(body) {
      OrderSchemaSound(body);
      Handlers.CreatedIsBodyPlusId(Str(orderId), body);
      if WellFormed(old(orders.docs)) { CreatePreservesWellFormed(old(orders.docs), orderId, body); }
    }
  }

  /** GET /api/getOrder/:id: 404 when absent, otherwise the stored document. */
  method GetOrder(orders: Collection, id: string, fault: Fault) returns (r: Response<Doc>)
    ensures r.WellFormed()
    ensures fault.Fails(0) ==> r.status == InternalError
    ensures !fault.Fails(0) ==> (r.status == NotFound <==> id !in orders.docs)
    ensures !fault.Fails(0) && id in orders.docs ==> r == Response(Ok, Some(orders.docs[id]))
  {
    r := Handlers.Get(orders, id, fault);
  }

  /** PUT /api/updateOrder/:id: merge the body into an existing order; an absent id answers 500. */
  method UpdateOrder(orders: Collection, id: string, body: Doc, fault: Fault) returns (status: Status)
    modifies orders
    ensures !ValidOrder(body) ==> status == BadRequest && orders.docs == old(orders.docs)
    ensures ValidOrder(body) && (fault.Fails(0) || id !in old(orders.docs)) ==>
      status == InternalError && orders.docs == old(orders.docs)
    ensures ValidOrder(body) && !fault.Fails(0) && id in old(orders.docs) ==>
      status == Ok && orders.docs == old(orders.docs)[id := Spread(old(orders.docs)[id], body)]
    ensures WellFormed(old(orders.docs)) ==> WellFormed(orders.docs)
  {
    status := Handlers.Update(orders, OrderKeys, NoEmail, id, body, fault);
    if ValidOrder(body) && id in old(orders.docs) && WellFormed(old(orders.docs)) {
      UpdatePreservesWellFormed(old(orders.docs), id, body);
    }
  }

  /** DELETE /api/deleteOrder/:id: 200 whether or not the order existed. */
  method DeleteOrder(orders: Collection, id: string, fault: Fault) returns (status: Status)
    modifies orders
    ensures fault.Fails(0) ==> status == InternalError && orders.docs == old(orders.docs)
    ensures !fault.Fails(0) ==> status == Ok && orders.docs == old(orders.docs) - {id}
    ensures WellFormed(old(orders.docs)) ==> WellFormed(orders.docs)
  {
    status := Handlers.Delete(orders, id, fault);
  }

  /** POST /api/createDeliveryBoy: keyed by mobile; a number on file is refused with 400 and left as it was. */
  method CreateDeliveryBoy(boys: Collection, body: Doc, now: int, fault: Fault) returns (status: Status)
    modifies boys
    ensures !ValidDeliveryBoy(body) ==> status == BadRequest && boys.docs == old(boys.docs)
    ensures ValidDeliveryBoy(body) && fault.Fails(0) ==> status == InternalError && boys.docs == old(boys.docs)
    ensures ValidDeliveryBoy(body) && !fault.Fails(0) && Handlers.MobileOf(body) in old(boys.docs) ==>
      status == BadRequest && boys.docs == old(boys.docs)
    ensures ValidDeliveryBoy(body) && !fault.Fails(0) && Handlers.MobileOf(body) !in old(boys.docs) && fault.Fails(1) ==>
      status == InternalError && boys.docs == old(boys.docs)
    ensures ValidDeliveryBoy(body) && !fault.Fails(0) && Handlers.MobileOf(body) !in old(boys.docs) && !fault.Fails(1) ==>
      status == Ok && boys.docs == old(boys.docs)[Handlers.MobileOf(body) := Handlers.Created(Num(now as real), body)]
    ensures forall k :: k in old(boys.docs) ==> k in boys.docs && boys.docs[k] == old(boys.docs)[k]
    ensures Handlers.KeyedByMobile(old(boys.docs)) ==> Handlers.KeyedByMobile(boys.docs)
  {
    assert Handlers.KeysByMobile(DeliveryBoyKeys);
    status := Handlers.CreateByMobile(boys, DeliveryBoyKeys, NoEmail, body, now, fault);
    Handlers.RegisteredKeepsExisting(old(boys.docs), DeliveryBoyKeys, NoEmail, body, now);
  }

  // ---------------------------------------------------------------------------
  // GET /api/getAllOrders: every order, projected to the selected fields

  /** Without an `orderBy`, the store returns a collection in document id order. */
  predicate IdSorted(view: seq<Snapshot>)
  {
    forall i, j :: 0 <= i < j < |view| ==> StrLess(view[i].id, view[j].id)
  }

  /** `view` is the whole collection `docs` in document id order. */
  predicate IsIdOrder(docs: map<string, Doc>, view: seq<Snapshot>)
  {
    && (forall s :: s in view ==> s.id in docs && docs[s.id] == s.data)
    && Ids(view) == docs.Keys
    && IdSorted(view)
  }

  /** getAllOrders: one entry per listed order, holding only the selected fields; 500 when the query throws. */
  function ListOrders(view: seq<Snapshot>, fault: Fault): (r: Response<seq<Doc>>)
    ensures r.WellFormed()
    ensures r.status == Ok <==> !fault.Fails(0)
    ensures r.status != Ok ==> r.status == InternalError
    ensures r.status == Ok ==> |r.data.value| == |view| && forall i :: 0 <= i < |view| ==> r.data.value[i].Keys <= SelectedFields
  {
    if fault.Fails(0) then Response(InternalError, None)
    else Response(Ok, Some(seq(|view|, i requires 0 <= i < |view| => Select(view[i].data, SelectedFields))))
  }

  /**
   * The listing has one entry per stored order, and each is the stored order
   * restricted to the selected fields; for well-formed orders that is the
   * stored order itself.
   */
  lemma ListOrdersProjects(docs: map<string, Doc>, view: seq<Snapshot>)
    requires IsIdOrder(docs, view)
    ensures var r := ListOrders(view, NoFault);
      && r.status == Ok
      && |r.data.value| == |view|
      && (forall i :: 0 <= i < |view| ==> r.data.value[i] == Select(docs[view[i].id], SelectedFields))
      && (WellFormed(docs) ==> forall i :: 0 <= i < |view| ==> r.data.value[i] == docs[view[i].id])
  {
    forall i | 0 <= i < |view| ensures view[i].id in docs && docs[view[i].id] == view[i].data {
      assert view[i] in view;
    }
    if WellFormed(docs) {
      forall i | 0 <= i < |view| ensures Select(view[i].data, SelectedFields) == view[i].data {
        assert view[i] in view;
      }
    }
  }

  /** Every order appears in the listing, and none twice. */
  lemma ListOrdersCoversCollection(docs: map<string, Doc>, view: seq<Snapshot>)
    requires IsIdOrder(docs, view)
    ensures forall k :: k in docs ==> exists i :: 0 <= i < |view| && view[i].id == k
    ensures forall i, j :: 0 <= i < j < |view| ==> view[i].id != view[j].id
  {
    forall k | k in docs ensures exists i :: 0 <= i < |view| && view[i].id == k {
      assert k in Ids(view);
      var s: Snapshot :| s in view && s.id == k;
      var i :| 0 <= i < |view| && view[i] == s;
    }
    forall i, j | 0 <= i < j < |view| ensures view[i].id != view[j].id {
      StrLessIrreflexive(view[i].id);
    }
  }
}
