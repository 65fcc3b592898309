/** The delivery agent controller of src/controllers/deliveryAgentController.js over `deliveryAgents`. */
module DeliveryAgentController {
  import opened Json
  import opened Store
  import opened Schemas
  import opened Handlers

  /**
   * createDeliveryAgent: the agent is stored under its mobile number; a number
   * already on file is refused with 400 and its agent left as it was; a new
   * agent is the body plus a numeric `id` holding `now`, the caller-supplied
   * clock reading.
   */
  method CreateDeliveryAgent(agents: Collection, body: Doc, now: int, isEmail: string -> bool, fault: Fault)
    returns (status: Status)
    modifies agents
    ensures !ValidAgent(body, isEmail) ==> status == BadRequest && agents.docs == old(agents.docs)
    ensures ValidAgent(body, isEmail) && fault.Fails(0) ==> status == InternalError && agents.docs == old(agents.docs)
    ensures ValidAgent(body, isEmail) && !fault.Fails(0) && MobileOf(body) in old(agents.docs) ==>
      status == BadRequest && agents.docs == old(agents.docs)
    ensures ValidAgent(body, isEmail) && !fault.Fails(0) && MobileOf(body) !in old(agents.docs) && fault.Fails(1) ==>
      status == InternalError && agents.docs == old(agents.docs)
    ensures ValidAgent(body, isEmail) && !fault.Fails(0) && MobileOf(body) !in old(agents.docs) && !fault.Fails(1) ==>
      && status == Ok
      && agents.docs == old(agents.docs)[MobileOf(body) := Created(Num(now as real), body)]
      && "id" in agents.docs[MobileOf(body)] && agents.docs[MobileOf(body)]["id"] == Num(now as real)
      && agents.docs[MobileOf(body)] - {"id"} == body
    ensures forall k :: k in old(agents.docs) ==> k in agents.docs && agents.docs[k] == old(agents.docs)[k]
    ensures KeyedByMobile(old(agents.docs)) ==> KeyedByMobile(agents.docs)
  {
    assert KeysByMobile(AgentKeys);
    status := CreateByMobile(agents, AgentKeys, isEmail, body, now, fault);
    if ValidAgent(body, isEmail) {
      ValidAgentKeyedByMobile(body, isEmail);
      CreatedIsBodyPlusId(Num(now as real), body);
    }
    RegisteredKeepsExisting(old(agents.docs), AgentKeys, isEmail, body, now);
  }

  /** Registering the same mobile number twice: the second request is refused and the first agent, with its `id`, stays as stored. */
  method RegisterTwice(agents: Collection, first: Doc, second: Doc, now1: int, now2: int, isEmail: string -> bool)
    returns (s1: Status, s2: Status)
    requires ValidAgent(first, isEmail) && ValidAgent(second, isEmail)
    requires MobileOf(first) == MobileOf(second) && MobileOf(first) !in agents.docs
    modifies agents
    ensures s1 == Ok && s2 == BadRequest
    ensures agents.docs == old(agents.docs)[MobileOf(first) := Created(Num(now1 as real), first)]
  {
    s1 := CreateDeliveryAgent(agents, first, now1, isEmail, NoFault);
    s2 := CreateDeliveryAgent(agents, second, now2, isEmail, NoFault);
  }
}
