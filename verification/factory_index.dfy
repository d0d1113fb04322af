/**
 * The membership invariant of the factory's four offspring indices: every
 * known offspring is in exactly one of the global active and inactive
 * indices, and in exactly the matching index of exactly one owner, with the
 * same record everywhere.
 */
module FactoryIndex {
  import opened Wrappers
  import opened Types
  import opened CashMaps
  import opened FactoryMsg
  import opened Factory

  /** Every index, global or per owner, is a well-formed map. */
  ghost predicate WellFormed(s: State) {
    && Valid(s.active)
    && Valid(s.inactive)
    && (forall o :: Valid(OwnerActive(s, o)))
    && (forall o :: Valid(OwnerInactive(s, o)))
  }

  /**
   * The known offspring are those in a global index, in at most one of them,
   * each filed under its own address.
   */
  ghost predicate GlobalIndexes(s: State, owners: map<Addr, Addr>) {
    && (forall a :: a in owners <==> Get(s.active, a).Some? || Get(s.inactive, a).Some?)
    && (forall a :: Get(s.active, a).Some? ==> Get(s.inactive, a) == None)
    && (forall a :: Get(s.active, a).Some? ==> Get(s.active, a).value.address == a)
    && (forall a :: Get(s.inactive, a).Some? ==> Get(s.inactive, a).value.address == a)
  }

  /** Each owner's indices hold exactly that owner's share of the global ones. */
  ghost predicate OwnerIndexes(s: State, owners: map<Addr, Addr>) {
    OwnerActiveIndexes(s, owners) && OwnerInactiveIndexes(s, owners)
  }

  ghost predicate OwnerActiveIndexes(s: State, owners: map<Addr, Addr>) {
    forall o, a :: Get(OwnerActive(s, o), a) == if a in owners && owners[a] == o then Get(s.active, a) else None
  }

  ghost predicate OwnerInactiveIndexes(s: State, owners: map<Addr, Addr>) {
    forall o, a :: Get(OwnerInactive(s, o), a) == if a in owners && owners[a] == o then Get(s.inactive, a) else None
  }

  /**
   * `owners` names the owner each known offspring was registered under; the
   * stored records do not carry it.
   */
  ghost predicate IndexInv(s: State, owners: map<Addr, Addr>) {
    WellFormed(s) && GlobalIndexes(s, owners) && OwnerIndexes(s, owners)
  }

  /** A freshly initialized factory knows no offspring. */
  lemma InitEstablishesIndexInv(p: Crypto.Primitives, env: Env, msg: InitMsg)
    ensures IndexInv(Init(p, env, msg), map[])
  {
  }

  /**
   * Every known offspring is in exactly one of global active / inactive, in
   * the matching index of its owner, and in no other owner's index.
   */
  lemma ExactlyOneStatus(s: State, owners: map<Addr, Addr>, a: Addr)
    requires IndexInv(s, owners)
    requires a in owners
    ensures Get(s.active, a).Some? != Get(s.inactive, a).Some?
    ensures Get(OwnerActive(s, owners[a]), a).Some? != Get(OwnerInactive(s, owners[a]), a).Some?
    ensures Get(OwnerActive(s, owners[a]), a).Some? == Get(s.active, a).Some?
    ensures forall o :: o != owners[a] ==> Get(OwnerActive(s, o), a) == None && Get(OwnerInactive(s, o), a) == None
  {
  }

  lemma RegisterWellFormed(s: State, env: Env, owner: Addr, info: RegisterOffspringInfo)
    requires WellFormed(s)
    requires TryRegisterOffspring(s, env, owner, info).Ok?
    ensures WellFormed(TryRegisterOffspring(s, env, owner, info).value.state)
  {
    var s' := TryRegisterOffspring(s, env, owner, info).value.state;
    var rec := ToStoreOffspringInfo(info, env.sender);
    assert s'.active == Insert(s.active, env.sender, rec);
    assert OwnerActive(s', owner) == Insert(OwnerActive(s, owner), env.sender, rec);
    assert forall o :: o != owner ==> OwnerActive(s', o) == OwnerActive(s, o);
    assert forall o :: OwnerInactive(s', o) == OwnerInactive(s, o);
  }

  lemma RegisterGlobal(s: State, s': State, sender: Addr, owner: Addr, rec: StoreOffspringInfo,
                       owners: map<Addr, Addr>)
    requires GlobalIndexes(s, owners)
    requires sender !in owners && rec.address == sender
    requires Get(s'.active, sender) == Some(rec)
    requires forall a :: a != sender ==> Get(s'.active, a) == Get(s.active, a)
    requires s'.inactive == s.inactive
    ensures GlobalIndexes(s', owners[sender := owner])
  {
  }

  lemma RegisterOwnerActive(s: State, s': State, sender: Addr, owner: Addr, rec: StoreOffspringInfo,
                            owners: map<Addr, Addr>)
    requires OwnerIndexes(s, owners)
    requires sender !in owners
    requires Get(s'.active, sender) == Some(rec)
    requires Get(OwnerActive(s', owner), sender) == Some(rec)
    requires forall a :: a != sender ==> Get(s'.active, a) == Get(s.active, a)
    requires forall a :: a != sender ==> Get(OwnerActive(s', owner), a) == Get(OwnerActive(s, owner), a)
    requires forall o :: o != owner ==> OwnerActive(s', o) == OwnerActive(s, o)
    ensures OwnerActiveIndexes(s', owners[sender := owner])
  {
    var owners' := owners[sender := owner];
    forall o, a
      ensures Get(OwnerActive(s', o), a) == if a in owners' && owners'[a] == o then Get(s'.active, a) else None
    {
      if o != owner {
        assert OwnerActive(s', o) == OwnerActive(s, o);
      }
    }
  }

  lemma RegisterOwnerInactive(s: State, s': State, sender: Addr, owner: Addr, owners: map<Addr, Addr>)
    requires OwnerIndexes(s, owners)
    requires GlobalIndexes(s, owners)
    requires sender !in owners
    requires s'.inactive == s.inactive && s'.ownersInactive == s.ownersInactive
    ensures OwnerInactiveIndexes(s', owners[sender := owner])
  {
    forall o
      ensures OwnerInactive(s', o) == OwnerInactive(s, o)
    {
    }
  }

  /**
   * Registering an address the factory has never seen keeps the invariant,
   * with the new offspring filed under the owner it named.
   */
  lemma RegisterPreservesIndexInv(s: State, env: Env, owner: Addr, info: RegisterOffspringInfo,
                                  owners: map<Addr, Addr>)
    requires IndexInv(s, owners)
    requires env.sender !in owners
    requires TryRegisterOffspring(s, env, owner, info).Ok?
    ensures IndexInv(TryRegisterOffspring(s, env, owner, info).value.state, owners[env.sender := owner])
  {
    var s' := TryRegisterOffspring(s, env, owner, info).value.state;
    RegisterWellFormed(s, env, owner, info);
    var rec := ToStoreOffspringInfo(info, env.sender);
    RegisterGlobal(s, s', env.sender, owner, rec, owners);
    RegisterOwnerActive(s, s', env.sender, owner, rec, owners);
    RegisterOwnerInactive(s, s', env.sender, owner, owners);
  }

  /** What deactivation does to each index, in terms of the map operations. */
  lemma DeactivateShape(s: State, env: Env, owner: Addr)
    requires Get(s.active, env.sender).Some?
    ensures
      var s' := TryDeactivateOffspring(s, env, owner).value.state;
      var rec := ToStoreInactiveOffspringInfo(Get(s.active, env.sender).value);
      && s'.active == Remove(s.active, env.sender)
      && s'.inactive == Insert(s.inactive, env.sender, rec)
      && OwnerActive(s', owner) == Remove(OwnerActive(s, owner), env.sender)
      && OwnerInactive(s', owner) == Insert(OwnerInactive(s, owner), env.sender, rec)
  {
  }

  lemma DeactivateWellFormed(s: State, env: Env, owner: Addr)
    requires WellFormed(s)
    requires Get(s.active, env.sender).Some?
    ensures WellFormed(TryDeactivateOffspring(s, env, owner).value.state)
  {
    DeactivateShape(s, env, owner);
  }

  lemma DeactivateOwnerActive(s: State, s': State, sender: Addr, owner: Addr, owners: map<Addr, Addr>)
    requires OwnerIndexes(s, owners)
    requires sender in owners && owners[sender] == owner
    requires Get(s'.active, sender) == None
    requires Get(OwnerActive(s', owner), sender) == None
    requires forall a :: a != sender ==> Get(s'.active, a) == Get(s.active, a)
    requires forall o, a :: a != sender ==> Get(OwnerActive(s', o), a) == Get(OwnerActive(s, o), a)
    requires forall o :: o != owner ==> OwnerActive(s', o) == OwnerActive(s, o)
    ensures OwnerActiveIndexes(s', owners)
  {
    forall o, a
      ensures Get(OwnerActive(s', o), a) == if a in owners && owners[a] == o then Get(s'.active, a) else None
    {
      if a == sender && o != owner {
        assert OwnerActive(s', o) == OwnerActive(s, o);
      }
    }
  }

  lemma DeactivateOwnerInactive(s: State, s': State, sender: Addr, owner: Addr, owners: map<Addr, Addr>)
    requires OwnerIndexes(s, owners)
    requires sender in owners && owners[sender] == owner
    requires Get(OwnerInactive(s', owner), sender) == Get(s'.inactive, sender)
    requires forall a :: a != sender ==> Get(s'.inactive, a) == Get(s.inactive, a)
    requires forall o, a :: a != sender ==> Get(OwnerInactive(s', o), a) == Get(OwnerInactive(s, o), a)
    requires forall o :: o != owner ==> OwnerInactive(s', o) == OwnerInactive(s, o)
    ensures OwnerInactiveIndexes(s', owners)
  {
    forall o, a
      ensures Get(OwnerInactive(s', o), a) == if a in owners && owners[a] == o then Get(s'.inactive, a) else None
    {
      if a == sender && o != owner {
        assert OwnerInactive(s', o) == OwnerInactive(s, o);
      }
    }
  }

  lemma DeactivateGlobal(s: State, s': State, sender: Addr, owners: map<Addr, Addr>)
    requires GlobalIndexes(s, owners)
    requires Get(s.active, sender).Some?
    requires Get(s'.active, sender) == None
    requires Get(s'.inactive, sender) == Some(ToStoreInactiveOffspringInfo(Get(s.active, sender).value))
    requires forall a :: a != sender ==> Get(s'.active, a) == Get(s.active, a)
    requires forall a :: a != sender ==> Get(s'.inactive, a) == Get(s.inactive, a)
    ensures GlobalIndexes(s', owners)
  {
  }

  /**
   * Deactivation by an offspring that names the owner it was registered
   * under keeps the invariant.
   */
  lemma DeactivatePreservesIndexInv(s: State, env: Env, owner: Addr, owners: map<Addr, Addr>)
    requires IndexInv(s, owners)
    requires Get(s.active, env.sender).Some?
    requires owners[env.sender] == owner
    ensures TryDeactivateOffspring(s, env, owner).Ok?
    ensures IndexInv(TryDeactivateOffspring(s, env, owner).value.state, owners)
  {
    var s' := TryDeactivateOffspring(s, env, owner).value.state;
    DeactivateWellFormed(s, env, owner);
    DeactivateGlobal(s, s', env.sender, owners);
    DeactivateOwnerActive(s, s', env.sender, owner, owners);
    DeactivateOwnerInactive(s, s', env.sender, owner, owners);
  }

  /**
   * The claimed owner is not checked: an active offspring that names the
   * wrong owner is deactivated anyway, its registered owner's active index
   * keeps listing it, and no assignment of owners makes the result consistent.
   */
  lemma WrongOwnerLeavesStaleEntry(s: State, env: Env, owner: Addr, owners: map<Addr, Addr>)
    requires IndexInv(s, owners)
    requires Get(s.active, env.sender).Some?
    requires owners[env.sender] != owner
    ensures TryDeactivateOffspring(s, env, owner).Ok?
    ensures Get(TryDeactivateOffspring(s, env, owner).value.state.active, env.sender) == None
    ensures Get(OwnerActive(TryDeactivateOffspring(s, env, owner).value.state, owners[env.sender]), env.sender).Some?
    ensures forall owners' :: !OwnerIndexes(TryDeactivateOffspring(s, env, owner).value.state, owners')
  {
    var s' := TryDeactivateOffspring(s, env, owner).value.state;
    var regOwner := owners[env.sender];
    assert Get(OwnerActive(s, regOwner), env.sender).Some?;
    assert OwnerActive(s', regOwner) == OwnerActive(s, regOwner);
    forall owners': map<Addr, Addr>
      ensures !OwnerIndexes(s', owners')
    {
      assert Get(OwnerActive(s', regOwner), env.sender).Some?;
    }
  }

  lemma FrameKeepsIndexInv(s: State, s': State, owners: map<Addr, Addr>)
    requires IndexInv(s, owners)
    requires s'.active == s.active && s'.inactive == s.inactive
    requires s'.ownersActive == s.ownersActive && s'.ownersInactive == s.ownersInactive
    ensures IndexInv(s', owners)
  {
    assert forall o :: OwnerActive(s', o) == OwnerActive(s, o);
    assert forall o :: OwnerInactive(s', o) == OwnerInactive(s, o);
  }

  /**
   * Every message keeps the invariant, provided a registering offspring is
   * new to the factory and a deactivating one names its registered owner,
   * as the offspring contract always does.
   */
  lemma HandlePreservesIndexInv(p: Crypto.Primitives, s: State, env: Env, msg: HandleMsg, owners: map<Addr, Addr>)
    returns (owners': map<Addr, Addr>)
    requires IndexInv(s, owners)
    requires msg.RegisterOffspring? ==> env.sender !in owners
    requires msg.DeactivateOffspring? && env.sender in owners ==> owners[env.sender] == msg.owner
    ensures Handle(p, s, env, msg).Ok? ==> IndexInv(Handle(p, s, env, msg).value.state, owners')
    ensures msg.RegisterOffspring? && Handle(p, s, env, msg).Ok? ==> owners' == owners[env.sender := msg.owner]
    ensures !msg.RegisterOffspring? ==> owners' == owners
  {
    owners' := owners;
    var r := Handle(p, s, env, msg);
    if r.Ok? {
      match msg {
        case RegisterOffspring(owner, info) =>
          assert r == TryRegisterOffspring(s, env, owner, info);
          RegisterPreservesIndexInv(s, env, owner, info, owners);
          owners' := owners[env.sender := owner];
        case DeactivateOffspring(_, owner) =>
          assert r == TryDeactivateOffspring(s, env, owner);
          DeactivatePreservesIndexInv(s, env, owner, owners);
        case _ =>
          FrameKeepsIndexInv(s, r.value.state, owners);
      }
    }
  }

  lemma OwnerActiveRecord(s: State, owners: map<Addr, Addr>, owner: Addr, rec: StoreOffspringInfo)
    requires GlobalIndexes(s, owners) && OwnerIndexes(s, owners)
    requires rec in OwnerActive(s, owner).vals.Values
    ensures rec.address in owners && owners[rec.address] == owner && Get(s.active, rec.address) == Some(rec)
  {
    var a :| a in OwnerActive(s, owner).vals && OwnerActive(s, owner).vals[a] == rec;
    assert Get(OwnerActive(s, owner), a) == Some(rec);
    assert a in owners && owners[a] == owner && Get(s.active, a) == Some(rec);
    assert Get(s.active, a).value.address == a;
  }

  lemma OwnerInactiveRecord(s: State, owners: map<Addr, Addr>, owner: Addr, rec: StoreInactiveOffspringInfo)
    requires GlobalIndexes(s, owners) && OwnerIndexes(s, owners)
    requires rec in OwnerInactive(s, owner).vals.Values
    ensures rec.address in owners && owners[rec.address] == owner && Get(s.inactive, rec.address) == Some(rec)
  {
    var a :| a in OwnerInactive(s, owner).vals && OwnerInactive(s, owner).vals[a] == rec;
    assert Get(OwnerInactive(s, owner), a) == Some(rec);
    assert a in owners && owners[a] == owner && Get(s.inactive, a) == Some(rec);
    assert Get(s.inactive, a).value.address == a;
  }

  /**
   * Under the invariant, an owner's listing shows only that owner's
   * offspring, each with its globally stored record.
   */
  lemma OwnerListingIsOwners(s: State, owners: map<Addr, Addr>, owner: Addr,
                             startPage: Option<u32>, pageSize: Option<u32>)
    requires IndexInv(s, owners)
    ensures forall rec :: rec in DisplayActiveList(s, Some(owner), startPage, pageSize) ==>
      && rec.address in owners && owners[rec.address] == owner
      && Get(s.active, rec.address) == Some(rec)
    ensures forall rec :: rec in DisplayInactiveList(s, Some(owner), startPage, pageSize) ==>
      && rec.address in owners && owners[rec.address] == owner
      && Get(s.inactive, rec.address) == Some(rec)
  {
    var act := DisplayActiveList(s, Some(owner), startPage, pageSize);
    forall i | 0 <= i < |act|
      ensures act[i].address in owners && owners[act[i].address] == owner && Get(s.active, act[i].address) == Some(act[i])
    {
      OwnerActiveRecord(s, owners, owner, act[i]);
    }
    var ina := DisplayInactiveList(s, Some(owner), startPage, pageSize);
    forall i | 0 <= i < |ina|
      ensures ina[i].address in owners && owners[ina[i].address] == owner && Get(s.inactive, ina[i].address) == Some(ina[i])
    {
      OwnerInactiveRecord(s, owners, owner, ina[i]);
    }
  }
}
