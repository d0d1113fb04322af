/**
 * The offspring contract (offspring/src/contract.rs): a counter owned by one
 * address that registers itself with its factory on instantiation, can be
 * deactivated once by its owner, and answers count queries after asking the
 * factory whether the caller's viewing key is valid.
 */
module Offspring {
  import opened Wrappers
  import opened Types
  import opened OffspringMsg

  const INACTIVE_MSG := "This contract is inactive."
  const NO_PERMISSION_MSG := "This address does not have permission and/or viewing key is not valid"

  /** The offspring's single stored record. */
  datatype State = State(
    factory: ContractInfo,
    index: u32,
    active: bool,
    password: Hash,
    offspringAddr: Addr,
    description: Option<string>,
    count: i32,
    owner: Addr)

  /** A message the offspring asks the host to send: execute a factory handle message. */
  datatype CosmosMsg = Execute(contractAddr: Addr, codeHash: string, msg: FactoryHandleMsg)

  /** The state after a message and the messages it emitted. */
  datatype Step = Step(state: State, messages: seq<CosmosMsg>)

  /** A query sent to a contract: its address, code hash and body. */
  datatype SentQuery = SentQuery(contractAddr: Addr, codeHash: string, msg: FactoryQueryMsg)

  /** The outcome of the viewing-key check and the factory query it sent. */
  datatype Authorization = Authorization(outcome: Outcome<StdError>, sent: SentQuery)

  /** A query answer together with every factory query sent while computing it. */
  datatype Answer = Answer(result: Result<QueryAnswer, StdError>, sent: seq<SentQuery>)

  /** `s` and `t` agree on every field except the activity flag and the counter. */
  predicate SameIdentity(s: State, t: State) {
    && s.factory == t.factory && s.index == t.index && s.password == t.password
    && s.offspringAddr == t.offspringAddr && s.description == t.description && s.owner == t.owner
  }

  /**
   * `init`: the offspring starts active with the factory, index, password,
   * owner, count and description it was given, at its own address, and
   * emits exactly one registration to the factory that echoes its index and
   * password.
   */
  function Init(env: Env, msg: InitMsg): (r: Step)
    ensures r.state.active
    ensures r.state.factory == msg.factory && r.state.index == msg.index && r.state.password == msg.password
    ensures r.state.owner == msg.owner && r.state.count == msg.count && r.state.description == msg.description
    ensures r.state.offspringAddr == env.contractAddress
    ensures |r.messages| == 1
    ensures r.messages[0].contractAddr == msg.factory.address && r.messages[0].codeHash == msg.factory.codeHash
    ensures r.messages[0].msg.RegisterOffspring?
    ensures r.messages[0].msg.owner == msg.owner
    ensures r.messages[0].msg.offspring.index == msg.index && r.messages[0].msg.offspring.password == msg.password
  {
    var state := State(msg.factory, msg.index, true, msg.password, env.contractAddress,
                       msg.description, msg.count, msg.owner);
    var register := RegisterOffspring(msg.owner, FactoryOffspringInfo(msg.index, msg.password));
    Step(state, [Execute(msg.factory.address, msg.factory.codeHash, register)])
  }

  /** `enforce_active`: passes exactly when the contract is active. */
  function EnforceActive(s: State): (r: Outcome<StdError>)
    ensures r.Pass? <==> s.active
    ensures r.Fail? ==> r.error == GenericErr(INACTIVE_MSG)
  {
    if s.active then Pass else Fail(GenericErr(INACTIVE_MSG))
  }

  /**
   * `try_deactivate`: an inactive contract refuses first; then anyone but the
   * owner is refused. Success clears `active`, changes nothing else, and
   * tells the factory with the stored index and owner.
   */
  function TryDeactivate(s: State, env: Env): (r: Result<Step, StdError>)
    ensures r.Ok? <==> s.active && env.sender == s.owner
    ensures !s.active ==> r == Err(GenericErr(INACTIVE_MSG))
    ensures s.active && env.sender != s.owner ==> r == Err(Unauthorized)
    ensures r.Ok? ==> !r.value.state.active && SameIdentity(r.value.state, s) && r.value.state.count == s.count
    ensures r.Ok? ==> |r.value.messages| == 1
    ensures r.Ok? ==> r.value.messages[0].contractAddr == s.factory.address
    ensures r.Ok? ==> r.value.messages[0].codeHash == s.factory.codeHash
    ensures r.Ok? ==> r.value.messages[0].msg == DeactivateOffspring(s.index, s.owner)
  {
    match EnforceActive(s)
    case Fail(e) => Err(e)
    case Pass =>
      if env.sender != s.owner then Err(Unauthorized)
      else
        var s' := s.(active := false);
        var deactivate := DeactivateOffspring(s'.index, s'.owner);
        Ok(Step(s', [Execute(s'.factory.address, s'.factory.codeHash, deactivate)]))
  }

  /**
   * `try_increment`: anyone may raise the counter of an active contract by
   * exactly one; nothing else changes.
   */
  function TryIncrement(s: State): (r: Result<Step, StdError>)
    requires s.active ==> s.count < I32_MAX
    ensures r.Ok? <==> s.active
    ensures r.Err? ==> r.error == GenericErr(INACTIVE_MSG)
    ensures r.Ok? ==> r.value.state.count == s.count + 1
    ensures r.Ok? ==> r.value.state.active && SameIdentity(r.value.state, s)
    ensures r.Ok? ==> r.value.messages == []
  {
    match EnforceActive(s)
    case Fail(e) => Err(e)
    case Pass => Ok(Step(s.(count := s.count + 1), []))
  }

  /**
   * `try_reset`: an inactive contract refuses first; then anyone but the
   * owner is refused. Success sets the counter and nothing else.
   */
  function TryReset(s: State, env: Env, count: i32): (r: Result<Step, StdError>)
    ensures r.Ok? <==> s.active && env.sender == s.owner
    ensures !s.active ==> r == Err(GenericErr(INACTIVE_MSG))
    ensures s.active && env.sender != s.owner ==> r == Err(Unauthorized)
    ensures r.Ok? ==> r.value.state.count == count
    ensures r.Ok? ==> r.value.state.active && SameIdentity(r.value.state, s)
    ensures r.Ok? ==> r.value.messages == []
  {
    match EnforceActive(s)
    case Fail(e) => Err(e)
    case Pass =>
      if env.sender != s.owner then Err(Unauthorized)
      else Ok(Step(s.(count := count), []))
  }

  /**
   * `handle`: routes a message to its handler. No handler changes the
   * identity fields or sets `active` back to true, and an inactive contract
   * refuses every message.
   */
  function Handle(s: State, env: Env, msg: HandleMsg): (r: Result<Step, StdError>)
    requires msg.Increment? && s.active ==> s.count < I32_MAX
    ensures r.Ok? ==> SameIdentity(r.value.state, s)
    ensures r.Ok? && r.value.state.active ==> s.active
    ensures !s.active ==> r == Err(GenericErr(INACTIVE_MSG))
    ensures r.Ok? && !msg.Deactivate? ==> r.value.state.active == s.active && r.value.messages == []
    ensures msg.Increment? ==> (r.Ok? <==> s.active)
    ensures msg.Increment? && r.Ok? ==> r.value.state.count == s.count + 1
    ensures msg.Reset? || msg.Deactivate? ==> (r.Ok? <==> s.active && env.sender == s.owner)
    ensures (msg.Reset? || msg.Deactivate?) && s.active && env.sender != s.owner ==> r == Err(Unauthorized)
    ensures msg.Reset? && r.Ok? ==> r.value.state.count == msg.count
    ensures msg.Deactivate? && r.Ok? ==>
      && !r.value.state.active && r.value.state.count == s.count
      && r.value.messages == [Execute(s.factory.address, s.factory.codeHash, DeactivateOffspring(s.index, s.owner))]
  {
    match msg
    case Increment => TryIncrement(s)
    case Reset(count) => TryReset(s, env, count)
    case Deactivate => TryDeactivate(s, env)
  }

  /**
   * The state after one handle message. A refused message leaves the state as
   * it was, and so does an increment past the largest `i32`, which aborts.
   */
  function Apply(s: State, env: Env, msg: HandleMsg): State {
    if msg.Increment? && s.active && s.count == I32_MAX then s
    else
      match Handle(s, env, msg)
      case Ok(step) => step.state
      case Err(_) => s
  }

  /** The state after a sequence of handle messages, each with its own environment. */
  function Run(s: State, envs: seq<Env>, msgs: seq<HandleMsg>): State
    requires |envs| == |msgs|
    decreases |msgs|
  {
    if msgs == [] then s else Run(Apply(s, envs[0], msgs[0]), envs[1..], msgs[1..])
  }

  /** No sequence of messages changes the identity fields or reactivates the contract. */
  lemma {:induction false} RunKeepsIdentity(s: State, envs: seq<Env>, msgs: seq<HandleMsg>)
    requires |envs| == |msgs|
    ensures SameIdentity(Run(s, envs, msgs), s)
    ensures Run(s, envs, msgs).active ==> s.active
    decreases |msgs|
  {
    if msgs != [] {
      RunKeepsIdentity(Apply(s, envs[0], msgs[0]), envs[1..], msgs[1..]);
    }
  }

  /** Deactivation is final: once inactive, no sequence of messages changes anything. */
  lemma {:induction false} InactiveIsFrozen(s: State, envs: seq<Env>, msgs: seq<HandleMsg>)
    requires |envs| == |msgs|
    requires !s.active
    ensures Run(s, envs, msgs) == s
    decreases |msgs|
  {
    if msgs != [] {
      InactiveIsFrozen(s, envs[1..], msgs[1..]);
    }
  }

  /**
   * `enforce_valid_viewing_key`: asks the factory whether the key is valid for
   * the address, and passes exactly when the factory says so. The factory's
   * reply is the parameter `isKeyValid`.
   */
  function EnforceValidViewingKey(s: State, address: Addr, viewingKey: string,
                                  isKeyValid: FactoryQueryMsg -> bool): (r: Authorization)
    ensures r.sent == SentQuery(s.factory.address, s.factory.codeHash, IsKeyValid(address, viewingKey))
    ensures r.outcome.Pass? <==> isKeyValid(IsKeyValid(address, viewingKey))
    ensures r.outcome.Fail? ==> r.outcome.error == GenericErr(NO_PERMISSION_MSG)
  {
    var q := IsKeyValid(address, viewingKey);
    var outcome := if isKeyValid(q) then Pass else Fail(GenericErr(NO_PERMISSION_MSG));
    Authorization(outcome, SentQuery(s.factory.address, s.factory.codeHash, q))
  }

  /**
   * `query_count`: only the owner's address is considered; for any other
   * address the factory is not asked. The count is returned exactly when the
   * address is the owner's and the factory accepts the key, and both
   * failures carry the same message.
   */
  function QueryCount(s: State, address: Addr, viewingKey: string, isKeyValid: FactoryQueryMsg -> bool): (r: Answer)
    ensures address != s.owner ==> r.sent == []
    ensures address == s.owner ==> |r.sent| == 1 && r.sent[0].msg == IsKeyValid(address, viewingKey)
    ensures address == s.owner ==> r.sent[0].contractAddr == s.factory.address
    ensures r.result.Ok? <==> address == s.owner && isKeyValid(IsKeyValid(address, viewingKey))
    ensures r.result.Ok? ==> r.result.value == CountResponse(s.count)
    ensures r.result.Err? ==> r.result.error == GenericErr(NO_PERMISSION_MSG)
  {
    if s.owner == address then
      var auth := EnforceValidViewingKey(s, address, viewingKey, isKeyValid);
      match auth.outcome
      case Pass => Answer(Ok(CountResponse(s.count)), [auth.sent])
      case Fail(e) => Answer(Err(e), [auth.sent])
    else
      Answer(Err(GenericErr(NO_PERMISSION_MSG)), [])
  }

  /**
   * `query`: the count query, answered whether or not the contract is active.
   * At most one query goes out, always to the stored factory, and the count
   * comes back exactly when the address is the owner's and the factory
   * accepts the key.
   */
  function Query(s: State, msg: QueryMsg, isKeyValid: FactoryQueryMsg -> bool): (r: Answer)
    ensures r.result.Ok? <==> msg.address == s.owner && isKeyValid(IsKeyValid(msg.address, msg.viewingKey))
    ensures r.result.Ok? ==> r.result.value == CountResponse(s.count)
    ensures r.result.Err? ==> r.result.error == GenericErr(NO_PERMISSION_MSG)
    ensures |r.sent| <= 1
    ensures forall i :: 0 <= i < |r.sent| ==> r.sent[i].contractAddr == s.factory.address
  {
    match msg
    case GetCount(address, viewingKey) => QueryCount(s, address, viewingKey, isKeyValid)
  }

  /**
   * The answer reads nothing but the owner, the factory and the count: in
   * particular an inactive contract answers exactly as an active one would.
   */
  lemma QueryReadsOwnerFactoryCount(s: State, t: State, msg: QueryMsg, isKeyValid: FactoryQueryMsg -> bool)
    requires s.owner == t.owner && s.factory == t.factory && s.count == t.count
    ensures Query(s, msg, isKeyValid) == Query(t, msg, isKeyValid)
  {
  }
}
