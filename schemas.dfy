/** The request validators of src/validation/schemas.js: the task schema and the delivery agent schema. */
module Schemas {
  import opened Json
  import opened Joi

  /** `{ latitude: Joi.number().required(), longitude: Joi.number().required() }` */
  const LocationKeys: Keys := map[
    "latitude" := Rule(Required, Number),
    "longitude" := Rule(Required, Number)
  ]

  const TaskKeys: Keys := map[
    "customerName" := Rule(Required, String),
    "mobile" := Rule(Required, String),
    "taskNo" := Rule(Required, String),
    "pickupLocation" := Rule(Required, Object(LocationKeys)),
    "deliveryAddress" := Rule(Required, String),
    "deliveryLocation" := Rule(Optional, Object(LocationKeys)),
    "type" := Rule(Required, StringValid({"cod", "online"})),
    "amount" := When("type", "cod", Rule(Required, Number), Rule(Forbidden, Any)),
    "microStoreName" := Rule(Required, String),
    "storeId" := Rule(Required, String)
  ]

  const AgentKeys: Keys := map[
    "name" := Rule(Required, String),
    "mobile" := Rule(Required, String),
    "password" := Rule(Required, String),
    "email" := Rule(Required, Email),
    "storeId" := Rule(Required, String)
  ]

  /** `taskSchema.validate(body)` reports no error. */
  predicate ValidTask(body: Doc)
  {
    Validates(TaskKeys, body, NoEmail)
  }

  /** `deliveryAgentSchema.validate(body)` reports no error, with `isEmail` standing for Joi's email check. */
  predicate ValidAgent(body: Doc, isEmail: string -> bool)
  {
    Validates(AgentKeys, body, isEmail)
  }

  // ---------------------------------------------------------------------------
  // The same rules written out directly, field by field.

  const TaskFields: set<string> := {"customerName", "mobile", "taskNo", "pickupLocation",
    "deliveryAddress", "deliveryLocation", "type", "amount", "microStoreName", "storeId"}

  const AgentFields: set<string> := {"name", "mobile", "password", "email", "storeId"}

  /** An object with exactly a numeric latitude and a numeric longitude, both safe numbers. */
  predicate IsLocation(v: Value)
  {
    && v.Obj?
    && v.fields.Keys <= {"latitude", "longitude"}
    && "latitude" in v.fields && IsSafeNumber(v.fields["latitude"])
    && "longitude" in v.fields && IsSafeNumber(v.fields["longitude"])
  }

  /** The six required string fields. */
  predicate TaskStrings(d: Doc)
  {
    && HasString(d, "customerName")
    && HasString(d, "mobile")
    && HasString(d, "taskNo")
    && HasString(d, "deliveryAddress")
    && HasString(d, "microStoreName")
    && HasString(d, "storeId")
  }

  /** A required pickup location and an optional delivery location. */
  predicate TaskLocations(d: Doc)
  {
    && "pickupLocation" in d && IsLocation(d["pickupLocation"])
    && ("deliveryLocation" in d ==> IsLocation(d["deliveryLocation"]))
  }

  /** The payment type, and an amount exactly when it is cash on delivery. */
  predicate TaskPayment(d: Doc)
  {
    && "type" in d && (d["type"] == Str("cod") || d["type"] == Str("online"))
    && (d["type"] == Str("cod") ==> "amount" in d && IsSafeNumber(d["amount"]))
    && (d["type"] != Str("cod") ==> "amount" !in d)
  }

  predicate TaskShape(d: Doc)
  {
    d.Keys <= TaskFields && TaskStrings(d) && TaskLocations(d) && TaskPayment(d)
  }

  predicate AgentShape(d: Doc, isEmail: string -> bool)
  {
    && d.Keys <= AgentFields
    && HasString(d, "name")
    && HasString(d, "mobile")
    && HasString(d, "password")
    && HasString(d, "email") && isEmail(d["email"].s)
    && HasString(d, "storeId")
  }

  lemma LocationMeaning(v: Value, isEmail: string -> bool)
    ensures Conforms(Object(LocationKeys), v, isEmail) <==> IsLocation(v)
  {
    if IsLocation(v) {
      forall k | k in LocationKeys ensures Accepts(LocationKeys[k], v.fields, k, isEmail) {
        assert k == "latitude" || k == "longitude";
      }
    }
    if Conforms(Object(LocationKeys), v, isEmail) {
      assert Accepts(LocationKeys["latitude"], v.fields, "latitude", isEmail);
      assert Accepts(LocationKeys["longitude"], v.fields, "longitude", isEmail);
    }
  }

  lemma TaskSchemaSound(d: Doc)
    requires ValidTask(d)
    ensures TaskShape(d)
  {
    forall k | k in {"customerName", "mobile", "taskNo", "deliveryAddress", "microStoreName", "storeId"}
      ensures HasString(d, k)
    {
      RequiredKeyPresent(TaskKeys, d, NoEmail, k);
    }
    TaskLocationsSound(d);
    TaskPaymentSound(d);
  }

  lemma TaskLocationsSound(d: Doc)
    requires ValidTask(d)
    ensures TaskLocations(d)
  {
    RequiredKeyPresent(TaskKeys, d, NoEmail, "pickupLocation");
    LocationMeaning(d["pickupLocation"], NoEmail);
    if "deliveryLocation" in d {
      assert Accepts(TaskKeys["deliveryLocation"], d, "deliveryLocation", NoEmail);
      LocationMeaning(d["deliveryLocation"], NoEmail);
    }
  }

  lemma TaskPaymentSound(d: Doc)
    requires ValidTask(d)
    ensures TaskPayment(d)
  {
    RequiredKeyPresent(TaskKeys, d, NoEmail, "type");
    assert Accepts(TaskKeys["amount"], d, "amount", NoEmail);
  }

  lemma TaskSchemaComplete(d: Doc)
    requires TaskShape(d)
    ensures ValidTask(d)
  {
    LocationMeaning(d["pickupLocation"], NoEmail);
    LocationMeaning(if "deliveryLocation" in d then d["deliveryLocation"] else Null, NoEmail);
    forall k | k in TaskKeys ensures Accepts(TaskKeys[k], d, k, NoEmail) {
      assert k in TaskFields;
    }
  }

  /** The task schema accepts exactly the documents of TaskShape. */
  lemma TaskSchemaMeaning(d: Doc)
    ensures ValidTask(d) <==> TaskShape(d)
  {
    if ValidTask(d) { TaskSchemaSound(d); }
    if TaskShape(d) { TaskSchemaComplete(d); }
  }

  /** The delivery agent schema accepts exactly the documents of AgentShape. */
  lemma AgentSchemaMeaning(d: Doc, isEmail: string -> bool)
    ensures ValidAgent(d, isEmail) <==> AgentShape(d, isEmail)
  {
    if ValidAgent(d, isEmail) {
      assert Accepts(AgentKeys["name"], d, "name", isEmail);
      assert Accepts(AgentKeys["mobile"], d, "mobile", isEmail);
      assert Accepts(AgentKeys["password"], d, "password", isEmail);
      assert Accepts(AgentKeys["email"], d, "email", isEmail);
      assert Accepts(AgentKeys["storeId"], d, "storeId", isEmail);
    }
    if AgentShape(d, isEmail) {
      forall k | k in AgentKeys ensures Accepts(AgentKeys[k], d, k, isEmail) {
        assert k in AgentFields;
      }
    }
  }

  // ---------------------------------------------------------------------------
  // Consequences of the two schemas.

  /** Cash on delivery needs a numeric amount; any other type forbids an amount altogether. */
  lemma TaskAmountRule(d: Doc)
    requires "type" in d
    ensures d["type"] == Str("cod") && "amount" !in d ==> !ValidTask(d)
    ensures d["type"] == Str("cod") && "amount" in d && !IsSafeNumber(d["amount"]) ==> !ValidTask(d)
    ensures d["type"] != Str("cod") && "amount" in d ==> !ValidTask(d)
    ensures ValidTask(d) ==> (d["type"] == Str("cod") <==> "amount" in d)
  {
    TaskSchemaMeaning(d);
  }

  /** Adding an amount to a valid online task makes it invalid, whatever the amount. */
  lemma OnlineTaskRejectsAmount(d: Doc, amount: Value)
    requires ValidTask(d) && "type" in d && d["type"] == Str("online")
    ensures !ValidTask(d["amount" := amount])
  {
    TaskSchemaMeaning(d["amount" := amount]);
  }

  /** Only "cod" and "online" are accepted as the type. */
  lemma TaskTypeIsEnum(d: Doc)
    requires ValidTask(d)
    ensures "type" in d && (d["type"] == Str("cod") || d["type"] == Str("online"))
  {
    TaskSchemaMeaning(d);
  }

  /** The delivery location may be left out of a valid task, and a well-formed one may be put in. */
  lemma DeliveryLocationOptional(d: Doc, loc: Value)
    requires ValidTask(d)
    ensures ValidTask(d - {"deliveryLocation"})
    ensures ValidTask(d["deliveryLocation" := loc]) <==> IsLocation(loc)
  {
    TaskSchemaSound(d);
    var without := d - {"deliveryLocation"};
    assert TaskStrings(without) && TaskLocations(without) && TaskPayment(without);
    TaskSchemaComplete(without);
    var with := d["deliveryLocation" := loc];
    if IsLocation(loc) {
      assert TaskStrings(with) && TaskLocations(with) && TaskPayment(with);
      TaskSchemaComplete(with);
    }
    if ValidTask(with) {
      TaskLocationsSound(with);
    }
  }

  /** A key the task schema does not list makes the body invalid; in particular a body never carries `id`. */
  lemma TaskRejectsUnknownKey(d: Doc, k: string)
    requires k in d && k !in TaskFields
    ensures !ValidTask(d)
  {
    TaskSchemaMeaning(d);
  }

  lemma ValidTaskHasNoId(d: Doc)
    requires ValidTask(d)
    ensures "id" !in d && "taskNo" in d && IsNonEmptyString(d["taskNo"])
  {
    TaskSchemaMeaning(d);
  }

  /** A key the agent schema does not list makes the body invalid. */
  lemma AgentRejectsUnknownKey(d: Doc, isEmail: string -> bool, k: string)
    requires k in d && k !in AgentFields
    ensures !ValidAgent(d, isEmail)
  {
    AgentSchemaMeaning(d, isEmail);
  }

  lemma ValidAgentKeyedByMobile(d: Doc, isEmail: string -> bool)
    requires ValidAgent(d, isEmail)
    ensures "id" !in d && "mobile" in d && IsNonEmptyString(d["mobile"])
  {
    AgentSchemaMeaning(d, isEmail);
  }

  /** An online task with every required field and no amount. */
  const ExampleTask: Doc := map[
    "customerName" := Str("A"),
    "mobile" := Str("123"),
    "taskNo" := Str("T1"),
    "pickupLocation" := Obj(map["latitude" := Num(1.0), "longitude" := Num(2.0)]),
    "deliveryAddress" := Str("X"),
    "type" := Str("online"),
    "microStoreName" := Str("M"),
    "storeId" := Str("S1")
  ]

  lemma ExampleTaskAccepted()
    ensures ValidTask(ExampleTask)
  {
    assert TaskStrings(ExampleTask);
    assert TaskLocations(ExampleTask);
    assert TaskPayment(ExampleTask);
    TaskSchemaComplete(ExampleTask);
  }

  /** Switching the example to cash on delivery needs an amount as well. */
  lemma ExampleCodTaskNeedsAmount()
    ensures !ValidTask(ExampleTask["type" := Str("cod")])
    ensures ValidTask(ExampleTask["type" := Str("cod")]["amount" := Num(5.0)])
  {
    var cod := ExampleTask["type" := Str("cod")];
    if ValidTask(cod) {
      TaskPaymentSound(cod);
    }
    var paid := cod["amount" := Num(5.0)];
    assert TaskStrings(paid);
    assert TaskLocations(paid);
    assert TaskPayment(paid);
    TaskSchemaComplete(paid);
  }
}
