/**
 * The factory and its offspring together. Messages one contract emits are
 * handed to the other as the host would deliver them, and `Linked` states
 * the system invariant: the factory's indices agree with every offspring's
 * own address, owner, password and activity flag.
 */
module Handshake {
  import opened Wrappers
  import opened Types
  import opened CashMaps
  import F = FactoryMsg
  import O = OffspringMsg
  import Crypto
  import Factory
  import Offspring
  import opened FactoryIndex

  /**
   * The offspring's instantiation message built from the factory's request.
   * The factory's message has no index field while the offspring's requires
   * one, so `index` stands for whatever value the offspring receives.
   */
  function ChildInitMsg(m: Factory.CosmosMsg, index: u32): (r: O.InitMsg)
    ensures r.factory == m.msg.factory && r.password == m.msg.password && r.owner == m.msg.owner
    ensures r.count == m.msg.count && r.description == m.msg.description
    ensures r.contractLabel == m.msg.contractLabel && r.index == index
  {
    O.InitMsg(m.msg.factory, index, m.msg.contractLabel, m.msg.password, m.msg.description, m.msg.owner, m.msg.count)
  }

  /** A factory handle message sent by an offspring, as the factory reads it. */
  function Deliver(m: O.FactoryHandleMsg): (r: F.HandleMsg)
    ensures r.RegisterOffspring? <==> m.RegisterOffspring?
    ensures r.DeactivateOffspring? <==> m.DeactivateOffspring?
    ensures m.RegisterOffspring? ==>
      r.owner == m.owner && r.offspring.index == m.offspring.index && r.offspring.password == m.offspring.password
    ensures m.DeactivateOffspring? ==> r.index == m.index && r.owner == m.owner
  {
    match m
    case RegisterOffspring(owner, info) => F.RegisterOffspring(owner, F.RegisterOffspringInfo(info.index, info.password))
    case DeactivateOffspring(index, owner) => F.DeactivateOffspring(index, owner)
  }

  /** Nothing is lost in delivery: distinct offspring messages reach the factory as distinct messages. */
  lemma DeliverInjective(m1: O.FactoryHandleMsg, m2: O.FactoryHandleMsg)
    ensures Deliver(m1) == Deliver(m2) <==> m1 == m2
  {
  }

  /** The factory's answer to an offspring's `IsKeyValid` query. */
  function FactoryAnswers(p: Crypto.Primitives, fs: Factory.State): O.FactoryQueryMsg -> bool {
    (q: O.FactoryQueryMsg) => Factory.IsKeyValid(p, fs, q.address, q.viewingKey).valid
  }

  /**
   * The system invariant over the factory state `fs` at `factory`, the owner
   * each offspring was registered under, and the offspring states.
   */
  ghost predicate Linked(fs: Factory.State, factory: ContractInfo, owners: map<Addr, Addr>,
                         children: map<Addr, Offspring.State>) {
    && IndexInv(fs, owners)
    && children.Keys == owners.Keys
    && (forall a :: a in children ==> ChildLinked(fs, factory, owners, a, children[a]))
  }

  /** One offspring agrees with the factory's records about it. */
  ghost predicate ChildLinked(fs: Factory.State, factory: ContractInfo, owners: map<Addr, Addr>,
                              a: Addr, c: Offspring.State) {
    && c.offspringAddr == a
    && c.factory == factory
    && a in owners && c.owner == owners[a]
    && (c.active <==> Get(fs.active, a).Some?)
    && (Get(fs.active, a).Some? ==> Get(fs.active, a).value.password == c.password)
    && (Get(fs.inactive, a).Some? ==> Get(fs.inactive, a).value.password == c.password)
  }

  /** A factory with no offspring is linked to no offspring. */
  lemma InitLinked(p: Crypto.Primitives, env: Env, msg: F.InitMsg)
    ensures Linked(Factory.Init(p, env, msg), ContractInfo(env.contractCodeHash, env.contractAddress), map[], map[])
  {
    InitEstablishesIndexInv(p, env, msg);
  }

  /** A factory step that leaves the four indices alone keeps the link. */
  lemma FrameKeepsLink(fs: Factory.State, fs': Factory.State, factory: ContractInfo,
                       owners: map<Addr, Addr>, children: map<Addr, Offspring.State>)
    requires Linked(fs, factory, owners, children)
    requires fs'.active == fs.active && fs'.inactive == fs.inactive
    requires fs'.ownersActive == fs.ownersActive && fs'.ownersInactive == fs.ownersInactive
    ensures Linked(fs', factory, owners, children)
  {
    FrameKeepsIndexInv(fs, fs', owners);
    forall b | b in children
      ensures ChildLinked(fs', factory, owners, b, children[b])
    {
      assert ChildLinked(fs, factory, owners, b, children[b]);
    }
  }

  /**
   * A successful registration by a new, active offspring that names its own
   * owner and password links it and keeps every other offspring linked.
   */
  lemma RegisterKeepsLink(fs: Factory.State, factory: ContractInfo, owners: map<Addr, Addr>,
                          children: map<Addr, Offspring.State>, fenv: Env, c: Offspring.State)
    requires Linked(fs, factory, owners, children)
    requires fenv.sender !in children
    requires c.offspringAddr == fenv.sender && c.factory == factory && c.active
    requires fs.pending == Some(c.password)
    ensures Factory.TryRegisterOffspring(fs, fenv, c.owner, F.RegisterOffspringInfo(c.index, c.password)).Ok?
    ensures Linked(Factory.TryRegisterOffspring(fs, fenv, c.owner, F.RegisterOffspringInfo(c.index, c.password)).value.state,
                   factory, owners[fenv.sender := c.owner], children[fenv.sender := c])
  {
    var a := fenv.sender;
    var info := F.RegisterOffspringInfo(c.index, c.password);
    assert a !in owners;
    RegisterPreservesIndexInv(fs, fenv, c.owner, info, owners);
    var s' := Factory.TryRegisterOffspring(fs, fenv, c.owner, info).value.state;
    var owners' := owners[a := c.owner];
    var children' := children[a := c];
    forall b | b in children'
      ensures ChildLinked(s', factory, owners', b, children'[b])
    {
      if b != a {
        assert ChildLinked(fs, factory, owners, b, children[b]);
      }
    }
  }

  /**
   * The registration handshake: the factory creates an offspring, the
   * offspring's instantiation echoes the ticket back, and the factory accepts
   * it, filing the new offspring under its owner. The link between the
   * factory and all offspring, old and new, is kept.
   */
  lemma CreateInitRegister(p: Crypto.Primitives, fs: Factory.State, env: Env, contractLabel: string, entropy: Bytes,
                           owner: Addr, count: i32, description: Option<string>,
                           index: u32, childEnv: Env, fenv: Env,
                           owners: map<Addr, Addr>, children: map<Addr, Offspring.State>)
    requires Linked(fs, ContractInfo(env.contractCodeHash, env.contractAddress), owners, children)
    requires !fs.config.stopped
    requires childEnv.contractAddress !in children
    requires fenv.sender == childEnv.contractAddress
    ensures Factory.TryCreateOffspring(p, fs, env, contractLabel, entropy, owner, count, description).Ok?
    ensures
      var created := Factory.TryCreateOffspring(p, fs, env, contractLabel, entropy, owner, count, description).value;
      var child := Offspring.Init(childEnv, ChildInitMsg(created.response.messages[0], index));
      var registered := Factory.Handle(p, created.state, fenv, Deliver(child.messages[0].msg));
      && child.messages[0].contractAddr == env.contractAddress
      && child.state.count == count && child.state.owner == owner && child.state.description == description
      && registered.Ok?
      && registered.value.state.pending == None
      && Get(registered.value.state.active, childEnv.contractAddress)
           == Some(F.StoreOffspringInfo(childEnv.contractAddress, child.state.password))
      && Get(Factory.OwnerActive(registered.value.state, owner), childEnv.contractAddress).Some?
      && Linked(registered.value.state, ContractInfo(env.contractCodeHash, env.contractAddress),
                owners[childEnv.contractAddress := owner], children[childEnv.contractAddress := child.state])
  {
    var factory := ContractInfo(env.contractCodeHash, env.contractAddress);
    var created := Factory.TryCreateOffspring(p, fs, env, contractLabel, entropy, owner, count, description).value;
    var child := Offspring.Init(childEnv, ChildInitMsg(created.response.messages[0], index));
    var info := F.RegisterOffspringInfo(index, child.state.password);
    assert Deliver(child.messages[0].msg) == F.RegisterOffspring(owner, info);
    FrameKeepsLink(fs, created.state, factory, owners, children);
    RegisterKeepsLink(created.state, factory, owners, children, fenv, child.state);
  }

  /**
   * A factory step that moves offspring `a` from the active to the inactive
   * index, password unchanged and every other record untouched, keeps the
   * link once the offspring itself has gone inactive.
   */
  lemma DeactivateKeepsLink(fs: Factory.State, fs': Factory.State, factory: ContractInfo,
                            owners: map<Addr, Addr>, children: map<Addr, Offspring.State>,
                            a: Addr, c: Offspring.State)
    requires Linked(fs, factory, owners, children)
    requires IndexInv(fs', owners)
    requires a in children && !c.active && Offspring.SameIdentity(c, children[a])
    requires Get(fs'.active, a) == None
    requires Get(fs'.inactive, a).Some? ==> Get(fs'.inactive, a).value.password == children[a].password
    requires forall b :: b != a ==> Get(fs'.active, b) == Get(fs.active, b)
    requires forall b :: b != a ==> Get(fs'.inactive, b) == Get(fs.inactive, b)
    ensures Linked(fs', factory, owners, children[a := c])
  {
    assert ChildLinked(fs, factory, owners, a, children[a]);
    var children' := children[a := c];
    forall b | b in children'
      ensures ChildLinked(fs', factory, owners, b, children'[b])
    {
      if b != a {
        assert ChildLinked(fs, factory, owners, b, children[b]);
      }
    }
  }

  /**
   * Under the link, an inactive offspring is listed in the global and its
   * owner's inactive index and in neither active index.
   */
  lemma InactiveChildIndexed(fs: Factory.State, factory: ContractInfo, owners: map<Addr, Addr>,
                             children: map<Addr, Offspring.State>, a: Addr)
    requires Linked(fs, factory, owners, children)
    requires a in children && !children[a].active
    ensures a in owners && children[a].owner == owners[a]
    ensures Get(fs.active, a) == None && Get(fs.inactive, a).Some?
    ensures Get(Factory.OwnerActive(fs, owners[a]), a) == None
    ensures Get(Factory.OwnerInactive(fs, owners[a]), a).Some?
  {
    assert ChildLinked(fs, factory, owners, a, children[a]);
    ExactlyOneStatus(fs, owners, a);
  }

  /**
   * The deactivation round trip: the owner deactivates an active offspring,
   * which tells the factory with its stored owner; the factory moves the
   * record to both inactive indices and the link is kept.
   */
  lemma DeactivateRoundTrip(p: Crypto.Primitives, fs: Factory.State, factory: ContractInfo,
                            owners: map<Addr, Addr>, children: map<Addr, Offspring.State>,
                            a: Addr, cenv: Env, fenv: Env)
    requires Linked(fs, factory, owners, children)
    requires a in children && children[a].active
    requires cenv.sender == children[a].owner
    requires fenv.sender == a
    ensures Offspring.TryDeactivate(children[a], cenv).Ok?
    ensures
      var c := Offspring.TryDeactivate(children[a], cenv).value;
      var deactivated := Factory.Handle(p, fs, fenv, Deliver(c.messages[0].msg));
      && c.messages[0].contractAddr == factory.address
      && deactivated.Ok?
      && Get(deactivated.value.state.active, a) == None
      && Get(deactivated.value.state.inactive, a).Some?
      && Get(Factory.OwnerInactive(deactivated.value.state, owners[a]), a).Some?
      && Get(Factory.OwnerActive(deactivated.value.state, owners[a]), a) == None
      && Linked(deactivated.value.state, factory, owners, children[a := c.state])
  {
    var c := Offspring.TryDeactivate(children[a], cenv).value;
    assert ChildLinked(fs, factory, owners, a, children[a]);
    var owner := owners[a];
    assert Deliver(c.messages[0].msg) == F.DeactivateOffspring(children[a].index, owner);
    assert Factory.Handle(p, fs, fenv, Deliver(c.messages[0].msg)) == Factory.TryDeactivateOffspring(fs, fenv, owner);
    DeactivatePreservesIndexInv(fs, fenv, owner, owners);
    var s' := Factory.TryDeactivateOffspring(fs, fenv, owner).value.state;
    DeactivateKeepsLink(fs, s', factory, owners, children, a, c.state);
    InactiveChildIndexed(s', factory, owners, children[a := c.state], a);
  }

  /**
   * Once a deactivation has gone through on both sides, neither side accepts
   * it again: the offspring refuses as inactive and the factory refuses the
   * repeated message because the sender is no longer active.
   */
  lemma DeactivateNotRepeated(p: Crypto.Primitives, fs: Factory.State, factory: ContractInfo,
                              owners: map<Addr, Addr>, children: map<Addr, Offspring.State>,
                              a: Addr, cenv: Env, fenv: Env)
    requires Linked(fs, factory, owners, children)
    requires a in children && children[a].active
    requires cenv.sender == children[a].owner
    requires fenv.sender == a
    ensures Offspring.TryDeactivate(children[a], cenv).Ok?
    ensures
      var c := Offspring.TryDeactivate(children[a], cenv).value;
      var fs' := Factory.TryDeactivateOffspring(fs, fenv, owners[a]).value.state;
      && Factory.Handle(p, fs, fenv, Deliver(c.messages[0].msg)) == Factory.TryDeactivateOffspring(fs, fenv, owners[a])
      && Offspring.TryDeactivate(c.state, cenv) == Err(GenericErr(Offspring.INACTIVE_MSG))
      && Factory.Handle(p, fs', fenv, Deliver(c.messages[0].msg)) == Err(GenericErr(Factory.NOT_ACTIVE_MSG))
  {
    assert ChildLinked(fs, factory, owners, a, children[a]);
  }

  /**
   * An offspring's own messages other than deactivation keep the link: they
   * change neither its identity nor its activity flag.
   */
  lemma ChildStepKeepsLink(fs: Factory.State, factory: ContractInfo, owners: map<Addr, Addr>,
                           children: map<Addr, Offspring.State>, a: Addr, env: Env, msg: O.HandleMsg)
    requires Linked(fs, factory, owners, children)
    requires a in children
    requires !msg.Deactivate?
    requires msg.Increment? && children[a].active ==> children[a].count < I32_MAX
    ensures Offspring.Handle(children[a], env, msg).Ok? ==>
      Linked(fs, factory, owners, children[a := Offspring.Handle(children[a], env, msg).value.state])
  {
    var r := Offspring.Handle(children[a], env, msg);
    if r.Ok? {
      var children' := children[a := r.value.state];
      assert ChildLinked(fs, factory, owners, a, children[a]);
      forall b | b in children'
        ensures ChildLinked(fs, factory, owners, b, children'[b])
      {
        if b != a {
          assert ChildLinked(fs, factory, owners, b, children[b]);
        }
      }
    }
  }

  /**
   * A message to the factory from an address that is not one of its
   * offspring keeps the link, unless it registers with the pending ticket,
   * which only a freshly instantiated offspring is given.
   */
  lemma OutsiderStepKeepsLink(p: Crypto.Primitives, fs: Factory.State, factory: ContractInfo,
                              owners: map<Addr, Addr>, children: map<Addr, Offspring.State>,
                              env: Env, msg: F.HandleMsg)
    requires Linked(fs, factory, owners, children)
    requires env.sender !in children
    requires msg.RegisterOffspring? ==> fs.pending != Some(msg.offspring.password)
    ensures Factory.Handle(p, fs, env, msg).Ok? ==> Linked(Factory.Handle(p, fs, env, msg).value.state, factory, owners, children)
    ensures msg.DeactivateOffspring? ==> Factory.Handle(p, fs, env, msg) == Err(GenericErr(Factory.NOT_ACTIVE_MSG))
  {
    var r := Factory.Handle(p, fs, env, msg);
    if msg.DeactivateOffspring? {
      assert env.sender !in owners;
      assert Get(fs.active, env.sender) == None;
    } else if r.Ok? {
      assert !msg.RegisterOffspring?;
      FrameKeepsLink(fs, r.value.state, factory, owners, children);
    }
  }

  /**
   * `GetCount` through the factory: the count is returned exactly when the
   * address is the owner's and the factory holds a matching key hash for it.
   */
  lemma GetCountThroughFactory(p: Crypto.Primitives, fs: Factory.State, c: Offspring.State,
                               address: Addr, viewingKey: string)
    ensures Offspring.QueryCount(c, address, viewingKey, FactoryAnswers(p, fs)).result.Ok?
        <==> address == c.owner && address in fs.viewingKeys && p.hashViewingKey(viewingKey) == fs.viewingKeys[address]
  {
    var q := O.IsKeyValid(address, viewingKey);
    assert FactoryAnswers(p, fs)(q) == Factory.IsKeyValid(p, fs, address, viewingKey).valid;
  }

  /** After the owner sets a viewing key at the factory, that key opens the offspring's count. */
  lemma OwnerKeyOpensCount(p: Crypto.Primitives, fs: Factory.State, fenv: Env, key: string, c: Offspring.State)
    requires fenv.sender == c.owner
    ensures Offspring.QueryCount(c, c.owner, key, FactoryAnswers(p, Factory.TrySetKey(p, fs, fenv, key).state)).result
         == Ok(O.CountResponse(c.count))
  {
    GetCountThroughFactory(p, Factory.TrySetKey(p, fs, fenv, key).state, c, c.owner, key);
  }
}
