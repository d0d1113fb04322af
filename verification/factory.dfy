/**
 * The factory contract (factory/src/contract.rs): it creates offspring,
 * admits each one through a one-time password handshake, keeps the global
 * and per-owner active/inactive indices, manages viewing keys and answers
 * the listing queries. Every operation is a pure transition on `State`.
 */
module Factory {
  import opened Wrappers
  import opened Types
  import opened Crypto
  import opened Encoding
  import Store
  import opened CashMaps
  import opened FactoryMsg

  type PageSize = x: int | 0 < x < 0x1_0000_0000 witness 1

  /** Page size used when a query gives none; its value is not part of this model. */
  const DEFAULT_PAGE_SIZE: PageSize

  const STOPPED_MSG := "The factory has been stopped. No new offspring can be created"
  const NO_PENDING_MSG := "Unable to authenticate registration."
  const WRONG_PASSWORD_MSG := "password does not match the offspring we are creating"
  const NOT_ACTIVE_MSG := "This is not an active offspring registered with factory."
  const ADMIN_ONLY_MSG := "This is an admin command. Admin commands can only be run from admin address"
  const WRONG_KEY_MSG := "Wrong viewing key for this address or viewing key not set"

  datatype Config = Config(version: OffspringContractInfo, stopped: bool, admin: Addr)

  type ActiveIndex = CashMap<Addr, StoreOffspringInfo>
  type InactiveIndex = CashMap<Addr, StoreInactiveOffspringInfo>

  /**
   * The factory's storage: configuration, PRNG seed, the single pending
   * password slot, viewing-key hashes, and the four offspring indices
   * (global and per owner, active and inactive), keyed by offspring address.
   */
  datatype State = State(
    config: Config,
    prngSeed: Bytes,
    pending: Option<Hash>,
    viewingKeys: map<Addr, Hash>,
    active: ActiveIndex,
    inactive: InactiveIndex,
    ownersActive: map<Addr, ActiveIndex>,
    ownersInactive: map<Addr, InactiveIndex>)

  /** A message the factory asks the host to send: instantiate an offspring. */
  datatype CosmosMsg = Instantiate(codeId: u64, codeHash: string, contractLabel: string, msg: OffspringInitMsg)

  datatype HandleResponse = HandleResponse(messages: seq<CosmosMsg>, data: Option<HandleAnswer>)

  /** The state after a handle message and the response it produced. */
  datatype Step = Step(state: State, response: HandleResponse)

  /** Whether an address has a viewing key, and the hashes compared against while checking it. */
  datatype KeyCheck = KeyCheck(valid: bool, compared: seq<Bytes>)

  /** An owner's active index; an owner never written reads as empty. */
  function OwnerActive(s: State, owner: Addr): ActiveIndex {
    Store.MayLoad(s.ownersActive, owner).GetOr(Empty())
  }

  /** An owner's inactive index; an owner never written reads as empty. */
  function OwnerInactive(s: State, owner: Addr): InactiveIndex {
    Store.MayLoad(s.ownersInactive, owner).GetOr(Empty())
  }

  const OK_STATUS: Option<HandleAnswer> := Some(Status(Success, None))

  /**
   * `init`: the sender becomes admin, creation is enabled, and the PRNG seed
   * is the hash of the encoded entropy. Nothing is pending and every index is empty.
   */
  function Init(p: Primitives, env: Env, msg: InitMsg): (s: State)
    ensures s.config == Config(msg.offspringContract, false, env.sender)
    ensures s.prngSeed == p.sha256(p.base64(msg.entropy))
    ensures s.pending == None
    ensures forall a :: Store.MayLoad(s.viewingKeys, a) == None
    ensures forall a :: Get(s.active, a) == None && Get(s.inactive, a) == None
    ensures forall o, a :: Get(OwnerActive(s, o), a) == None && Get(OwnerInactive(s, o), a) == None
  {
    State(Config(msg.offspringContract, false, env.sender), p.sha256(p.base64(msg.entropy)),
          None, map[], Empty(), Empty(), map[], map[])
  }

  /**
   * The domain entropy `new_entropy` feeds the PRNG: block height and time as
   * eight big-endian bytes each, then the sender's bytes, then the user entropy.
   */
  function DomainEntropy(env: Env, entropy: Bytes): (r: Bytes)
    ensures |r| == 16 + |env.sender.bytes| + |entropy|
    ensures FromBE(r[..8]) == env.height
    ensures FromBE(r[8..16]) == env.time
    ensures r[16..16 + |env.sender.bytes|] == env.sender.bytes
    ensures r[16 + |env.sender.bytes|..] == entropy
  {
    var h := U64ToBE(env.height);
    var t := U64ToBE(env.time);
    var r := h + t + env.sender.bytes + entropy;
    assert r[..8] == h && r[8..16] == t;
    r
  }

  /** `new_entropy`: fresh PRNG output from the saved seed and the domain entropy. */
  function NewEntropy(p: Primitives, env: Env, seed: Bytes, entropy: Bytes): Hash {
    p.randBytes(seed, DomainEntropy(env, entropy))
  }

  /**
   * `try_create_offspring`: refused while the factory is stopped. Otherwise the
   * seed is replaced by new PRNG output, its hash becomes the pending password
   * (overwriting any earlier one), and exactly one instantiation carrying that
   * password and the owner is emitted.
   */
  function TryCreateOffspring(p: Primitives, s: State, env: Env, contractLabel: string, entropy: Bytes,
                              owner: Addr, count: i32, description: Option<string>): (r: Result<Step, StdError>)
    ensures r.Err? <==> s.config.stopped
    ensures r.Err? ==> r.error == GenericErr(STOPPED_MSG)
    ensures r.Ok? ==>
      var seed := NewEntropy(p, env, s.prngSeed, entropy);
      && r.value.state == s.(prngSeed := seed, pending := Some(p.sha256(seed)))
      && |r.value.response.messages| == 1
      && r.value.response.messages[0].codeId == s.config.version.codeId
      && r.value.response.messages[0].codeHash == s.config.version.codeHash
      && r.value.response.messages[0].msg.password == p.sha256(seed)
      && r.value.response.messages[0].msg.owner == owner
      && r.value.response.messages[0].msg.factory == ContractInfo(env.contractCodeHash, env.contractAddress)
      && r.value.response.messages[0].contractLabel == contractLabel
      && r.value.response.messages[0].msg.contractLabel == contractLabel
      && r.value.response.messages[0].msg.count == count
      && r.value.response.messages[0].msg.description == description
      && r.value.response.data == OK_STATUS
  {
    if s.config.stopped then Err(GenericErr(STOPPED_MSG))
    else
      var factory := ContractInfo(env.contractCodeHash, env.contractAddress);
      var newPrngBytes := NewEntropy(p, env, s.prngSeed, entropy);
      var password := p.sha256(newPrngBytes);
      var s' := s.(prngSeed := newPrngBytes, pending := Some(password));
      var initMsg := OffspringInitMsg(factory, contractLabel, password, owner, count, description);
      var msg := Instantiate(s.config.version.codeId, s.config.version.codeHash, contractLabel, initMsg);
      Ok(Step(s', HandleResponse([msg], OK_STATUS)))
  }

  /**
   * `try_register_offspring`: succeeds exactly when a password is pending and
   * equals the one offered. Success consumes the password and files
   * `{sender, password}` under the sender in the global active index and in
   * `owner`'s active index; nothing else changes.
   */
  function TryRegisterOffspring(s: State, env: Env, owner: Addr, info: RegisterOffspringInfo): (r: Result<Step, StdError>)
    ensures r.Ok? <==> s.pending == Some(info.password)
    ensures s.pending == None ==> r == Err(GenericErr(NO_PENDING_MSG))
    ensures s.pending.Some? && s.pending.value != info.password ==> r == Err(GenericErr(WRONG_PASSWORD_MSG))
    ensures r.Ok? ==> r.value.state.pending == None
    ensures r.Ok? ==> Get(r.value.state.active, env.sender) == Some(StoreOffspringInfo(env.sender, info.password))
    ensures r.Ok? ==> Get(OwnerActive(r.value.state, owner), env.sender) == Some(StoreOffspringInfo(env.sender, info.password))
    ensures r.Ok? ==> forall a :: a != env.sender ==> Get(r.value.state.active, a) == Get(s.active, a)
    ensures r.Ok? ==> forall a :: a != env.sender ==>
      Get(OwnerActive(r.value.state, owner), a) == Get(OwnerActive(s, owner), a)
    ensures r.Ok? ==> forall o :: o != owner ==> OwnerActive(r.value.state, o) == OwnerActive(s, o)
    ensures r.Ok? ==>
      r.value.state == s.(pending := None, active := r.value.state.active, ownersActive := r.value.state.ownersActive)
    ensures r.Ok? ==> r.value.response == HandleResponse([], None)
  {
    match s.pending
    case None => Err(GenericErr(NO_PENDING_MSG))
    case Some(authPassword) =>
      if authPassword != info.password then Err(GenericErr(WRONG_PASSWORD_MSG))
      else
        var offspring := ToStoreOffspringInfo(info, env.sender);
        var mine := Insert(OwnerActive(s, owner), env.sender, offspring);
        var s' := s.(pending := None,
                     active := Insert(s.active, env.sender, offspring),
                     ownersActive := Store.Save(s.ownersActive, owner, mine));
        Ok(Step(s', HandleResponse([], None)))
  }

  /**
   * `authenticate_offspring`: the caller must be in the global active index;
   * otherwise the call is a hard error.
   */
  function AuthenticateOffspring(s: State, offspring: Addr): (r: Result<StoreOffspringInfo, StdError>)
    ensures r.Ok? <==> Get(s.active, offspring).Some?
    ensures r.Ok? ==> Get(s.active, offspring) == Some(r.value)
    ensures r.Err? ==> r.error == GenericErr(NOT_ACTIVE_MSG)
  {
    match Get(s.active, offspring)
    case Some(info) => Ok(info)
    case None => Err(GenericErr(NOT_ACTIVE_MSG))
  }

  /**
   * `remove_from_persons_active`: drops the offspring from `person`'s active
   * index, leaving every other entry of every index as it was.
   */
  function RemoveFromPersonsActive(s: State, person: Addr, offspring: Addr): (r: State)
    ensures Get(OwnerActive(r, person), offspring) == None
    ensures forall a :: a != offspring ==> Get(OwnerActive(r, person), a) == Get(OwnerActive(s, person), a)
    ensures forall o :: o != person ==> OwnerActive(r, o) == OwnerActive(s, o)
    ensures r == s.(ownersActive := r.ownersActive)
  {
    var mine := Remove(OwnerActive(s, person), offspring);
    s.(ownersActive := Store.Save(s.ownersActive, person, mine))
  }

  /**
   * `try_deactivate_offspring`: fails unless the caller is globally active.
   * Otherwise the caller's record leaves the global active index and `owner`'s
   * active index and enters the global inactive index and `owner`'s inactive
   * index with the same address and password. The claimed `owner` is not
   * checked against anything.
   */
  function TryDeactivateOffspring(s: State, env: Env, owner: Addr): (r: Result<Step, StdError>)
    ensures r.Ok? <==> Get(s.active, env.sender).Some?
    ensures r.Err? ==> r.error == GenericErr(NOT_ACTIVE_MSG)
    ensures r.Ok? ==> Get(r.value.state.active, env.sender) == None
    ensures r.Ok? ==> Get(OwnerActive(r.value.state, owner), env.sender) == None
    ensures r.Ok? ==>
      Get(r.value.state.inactive, env.sender) == Some(ToStoreInactiveOffspringInfo(Get(s.active, env.sender).value))
    ensures r.Ok? ==>
      Get(OwnerInactive(r.value.state, owner), env.sender)
        == Some(ToStoreInactiveOffspringInfo(Get(s.active, env.sender).value))
    ensures r.Ok? ==> forall a :: a != env.sender ==> Get(r.value.state.active, a) == Get(s.active, a)
    ensures r.Ok? ==> forall a :: a != env.sender ==> Get(r.value.state.inactive, a) == Get(s.inactive, a)
    ensures r.Ok? ==> forall o, a :: a != env.sender ==>
      Get(OwnerActive(r.value.state, o), a) == Get(OwnerActive(s, o), a)
    ensures r.Ok? ==> forall o, a :: a != env.sender ==>
      Get(OwnerInactive(r.value.state, o), a) == Get(OwnerInactive(s, o), a)
    ensures r.Ok? ==> forall o :: o != owner ==> OwnerActive(r.value.state, o) == OwnerActive(s, o)
    ensures r.Ok? ==> forall o :: o != owner ==> OwnerInactive(r.value.state, o) == OwnerInactive(s, o)
    ensures r.Ok? ==>
      r.value.state == s.(active := r.value.state.active, inactive := r.value.state.inactive,
                          ownersActive := r.value.state.ownersActive, ownersInactive := r.value.state.ownersInactive)
    ensures r.Ok? ==> r.value.response == HandleResponse([], None)
  {
    var info :- AuthenticateOffspring(s, env.sender);
    var s1 := s.(active := Remove(s.active, env.sender));
    var inactiveInfo := ToStoreInactiveOffspringInfo(info);
    var mine := Insert(OwnerInactive(s1, owner), env.sender, inactiveInfo);
    var s2 := s1.(ownersInactive := Store.Save(s1.ownersInactive, owner, mine));
    var s3 := s2.(inactive := Insert(s2.inactive, env.sender, inactiveInfo));
    var s4 := RemoveFromPersonsActive(s3, owner, env.sender);
    Ok(Step(s4, HandleResponse([], None)))
  }

  /** `try_new_contract`: admin only; replaces the offspring code version and nothing else. */
  function TryNewContract(s: State, env: Env, offspringContract: OffspringContractInfo): (r: Result<Step, StdError>)
    ensures r.Ok? <==> env.sender == s.config.admin
    ensures r.Err? ==> r.error == GenericErr(ADMIN_ONLY_MSG)
    ensures r.Ok? ==> r.value.state == s.(config := s.config.(version := offspringContract))
    ensures r.Ok? ==> r.value.response == HandleResponse([], OK_STATUS)
  {
    if s.config.admin != env.sender then Err(GenericErr(ADMIN_ONLY_MSG))
    else Ok(Step(s.(config := s.config.(version := offspringContract)), HandleResponse([], OK_STATUS)))
  }

  /** `try_set_status`: admin only; sets the stopped flag and nothing else. */
  function TrySetStatus(s: State, env: Env, stop: bool): (r: Result<Step, StdError>)
    ensures r.Ok? <==> env.sender == s.config.admin
    ensures r.Err? ==> r.error == GenericErr(ADMIN_ONLY_MSG)
    ensures r.Ok? ==> r.value.state == s.(config := s.config.(stopped := stop))
    ensures r.Ok? ==> r.value.response == HandleResponse([], OK_STATUS)
  {
    if s.config.admin != env.sender then Err(GenericErr(ADMIN_ONLY_MSG))
    else Ok(Step(s.(config := s.config.(stopped := stop)), HandleResponse([], OK_STATUS)))
  }

  /**
   * `is_key_valid`: true exactly when a hash is stored for the address and the
   * key checks against it. Exactly one check runs either way; with no stored
   * hash it runs against the all-zero hash and the answer is false even if
   * the key happens to hash to zeros.
   */
  function IsKeyValid(p: Primitives, s: State, address: Addr, viewingKey: string): (r: KeyCheck)
    ensures r.valid <==> address in s.viewingKeys && p.hashViewingKey(viewingKey) == s.viewingKeys[address]
    ensures |r.compared| == 1
    ensures address !in s.viewingKeys ==> r.compared == [ZERO_HASH]
    ensures address in s.viewingKeys ==> r.compared == [s.viewingKeys[address]]
  {
    match Store.MayLoad(s.viewingKeys, address)
    case Some(expected) => KeyCheck(CheckViewingKey(p, viewingKey, expected), [expected])
    case None => KeyCheck(false, [ZERO_HASH])
  }

  /**
   * `try_create_key`: derives a key from the seed and the caller's entropy,
   * stores its hash for the sender and returns it. The seed is not advanced.
   */
  function TryCreateKey(p: Primitives, s: State, env: Env, entropy: Bytes): (r: Step)
    ensures r.response == HandleResponse([], Some(ViewingKey(p.newViewingKey(env, s.prngSeed, entropy))))
    ensures IsKeyValid(p, r.state, env.sender, p.newViewingKey(env, s.prngSeed, entropy)).valid
    ensures forall a, k :: a != env.sender ==> IsKeyValid(p, r.state, a, k) == IsKeyValid(p, s, a, k)
    ensures r.state == s.(viewingKeys := r.state.viewingKeys)
  {
    var key := p.newViewingKey(env, s.prngSeed, entropy);
    var s' := s.(viewingKeys := Store.Save(s.viewingKeys, env.sender, p.hashViewingKey(key)));
    Step(s', HandleResponse([], Some(ViewingKey(key))))
  }

  /**
   * `try_set_key`: stores the hash of `key` for the sender, replacing any
   * earlier key, and echoes the key.
   */
  function TrySetKey(p: Primitives, s: State, env: Env, key: string): (r: Step)
    ensures r.response == HandleResponse([], Some(ViewingKey(key)))
    ensures IsKeyValid(p, r.state, env.sender, key).valid
    ensures forall k :: IsKeyValid(p, r.state, env.sender, k).valid <==> p.hashViewingKey(k) == p.hashViewingKey(key)
    ensures forall a, k :: a != env.sender ==> IsKeyValid(p, r.state, a, k) == IsKeyValid(p, s, a, k)
    ensures r.state == s.(viewingKeys := r.state.viewingKeys)
  {
    var s' := s.(viewingKeys := Store.Save(s.viewingKeys, env.sender, p.hashViewingKey(key)));
    Step(s', HandleResponse([], Some(ViewingKey(key))))
  }

  /** The active index a listing reads: an owner's, or the global one. */
  function ActiveIndexOf(s: State, owner: Option<Addr>): ActiveIndex {
    match owner
    case Some(o) => OwnerActive(s, o)
    case None => s.active
  }

  /** The inactive index a listing reads: an owner's, or the global one. */
  function InactiveIndexOf(s: State, owner: Option<Addr>): InactiveIndex {
    match owner
    case Some(o) => OwnerInactive(s, o)
    case None => s.inactive
  }

  /**
   * `display_active_list`: one page of the selected active index; the page
   * number defaults to 0 and the size to `DEFAULT_PAGE_SIZE`.
   */
  function DisplayActiveList(s: State, owner: Option<Addr>, startPage: Option<u32>, pageSize: Option<u32>)
    : (r: seq<StoreOffspringInfo>)
    ensures |r| <= pageSize.GetOr(DEFAULT_PAGE_SIZE)
    ensures forall i :: 0 <= i < |r| ==> r[i] in ActiveIndexOf(s, owner).vals.Values
    ensures
      var all, page, size := Values(ActiveIndexOf(s, owner)), startPage.GetOr(0), pageSize.GetOr(DEFAULT_PAGE_SIZE);
      && (page * size <= |all| ==> r == all[page * size..Min(page * size + size, |all|)])
      && (page * size >= |all| ==> r == [])
  {
    Paging(ActiveIndexOf(s, owner), startPage.GetOr(0), pageSize.GetOr(DEFAULT_PAGE_SIZE))
  }

  /** `display_inactive_list`: the same paging over the selected inactive index. */
  function DisplayInactiveList(s: State, owner: Option<Addr>, startPage: Option<u32>, pageSize: Option<u32>)
    : (r: seq<StoreInactiveOffspringInfo>)
    ensures |r| <= pageSize.GetOr(DEFAULT_PAGE_SIZE)
    ensures forall i :: 0 <= i < |r| ==> r[i] in InactiveIndexOf(s, owner).vals.Values
    ensures
      var all, page, size := Values(InactiveIndexOf(s, owner)), startPage.GetOr(0), pageSize.GetOr(DEFAULT_PAGE_SIZE);
      && (page * size <= |all| ==> r == all[page * size..Min(page * size + size, |all|)])
      && (page * size >= |all| ==> r == [])
  {
    Paging(InactiveIndexOf(s, owner), startPage.GetOr(0), pageSize.GetOr(DEFAULT_PAGE_SIZE))
  }

  /**
   * `try_list_my`: a wrong or missing viewing key yields `ViewingKeyError`.
   * Otherwise a missing filter means `All`; `Active` leaves the inactive list
   * out and `Inactive` leaves the active list out; lists are the owner's pages.
   */
  function TryListMy(p: Primitives, s: State, address: Addr, viewingKey: string, filter: Option<FilterTypes>,
                     startPage: Option<u32>, pageSize: Option<u32>): (r: QueryAnswer)
    ensures !IsKeyValid(p, s, address, viewingKey).valid ==> r == ViewingKeyError(WRONG_KEY_MSG)
    ensures IsKeyValid(p, s, address, viewingKey).valid ==>
      && r.MyOffspringList?
      && (r.active.Some? <==> filter != Some(Inactive))
      && (r.inactive.Some? <==> filter != Some(Active))
      && (r.active.Some? ==> r.active.value == DisplayActiveList(s, Some(address), startPage, pageSize))
      && (r.inactive.Some? ==> r.inactive.value == DisplayInactiveList(s, Some(address), startPage, pageSize))
  {
    if !IsKeyValid(p, s, address, viewingKey).valid then ViewingKeyError(WRONG_KEY_MSG)
    else
      var types := filter.GetOr(All);
      assert types == Inactive <==> filter == Some(Inactive);
      assert types == Active <==> filter == Some(Active);
      var activeList :=
        if types == Active || types == All
        then Some(DisplayActiveList(s, Some(address), startPage, pageSize))
        else None;
      var inactiveList :=
        if types == Inactive || types == All
        then Some(DisplayInactiveList(s, Some(address), startPage, pageSize))
        else None;
      MyOffspringList(activeList, inactiveList)
  }

  /** `try_list_active`: a page of the global active index; no key is needed. */
  function TryListActive(s: State, startPage: Option<u32>, pageSize: Option<u32>): (r: QueryAnswer)
    ensures r.ActiveOffspringList?
    ensures |r.activeList| <= pageSize.GetOr(DEFAULT_PAGE_SIZE)
    ensures forall i :: 0 <= i < |r.activeList| ==> r.activeList[i] in s.active.vals.Values
    ensures r.activeList == DisplayActiveList(s, None, startPage, pageSize)
  {
    ActiveOffspringList(DisplayActiveList(s, None, startPage, pageSize))
  }

  /** `try_list_inactive`: a page of the global inactive index; no key is needed. */
  function TryListInactive(s: State, startPage: Option<u32>, pageSize: Option<u32>): (r: QueryAnswer)
    ensures r.InactiveOffspringList?
    ensures |r.inactiveList| <= pageSize.GetOr(DEFAULT_PAGE_SIZE)
    ensures forall i :: 0 <= i < |r.inactiveList| ==> r.inactiveList[i] in s.inactive.vals.Values
    ensures r.inactiveList == DisplayInactiveList(s, None, startPage, pageSize)
  {
    InactiveOffspringList(DisplayInactiveList(s, None, startPage, pageSize))
  }

  /**
   * `handle`: routes a message to its handler. Only creation moves the seed;
   * only creation and registration touch the pending password; only
   * registration and deactivation touch the indices; only the two admin
   * messages touch the configuration; only the viewing-key messages touch keys.
   */
  function Handle(p: Primitives, s: State, env: Env, msg: HandleMsg): (r: Result<Step, StdError>)
    ensures r.Ok? && !msg.CreateOffspring? ==> r.value.state.prngSeed == s.prngSeed
    ensures r.Ok? && !msg.CreateOffspring? && !msg.RegisterOffspring? ==> r.value.state.pending == s.pending
    ensures r.Ok? && !msg.RegisterOffspring? && !msg.DeactivateOffspring? ==>
      && r.value.state.active == s.active && r.value.state.inactive == s.inactive
      && r.value.state.ownersActive == s.ownersActive && r.value.state.ownersInactive == s.ownersInactive
    ensures r.Ok? && !msg.NewOffspringContract? && !msg.SetStatus? ==> r.value.state.config == s.config
    ensures r.Ok? && !msg.CreateViewingKey? && !msg.SetViewingKey? ==> r.value.state.viewingKeys == s.viewingKeys
    ensures msg.CreateOffspring? ==> (r.Ok? <==> !s.config.stopped)
    ensures msg.CreateOffspring? && r.Ok? ==>
      && |r.value.response.messages| == 1
      && r.value.response.messages[0].msg.owner == msg.owner
      && r.value.response.messages[0].msg.count == msg.count
      && r.value.response.messages[0].msg.description == msg.description
      && r.value.response.messages[0].contractLabel == msg.contractLabel
      && r.value.state.pending == Some(p.sha256(NewEntropy(p, env, s.prngSeed, msg.entropy)))
    ensures msg.RegisterOffspring? ==> (r.Ok? <==> s.pending == Some(msg.offspring.password))
    ensures msg.RegisterOffspring? && r.Ok? ==>
      Get(OwnerActive(r.value.state, msg.owner), env.sender) == Some(StoreOffspringInfo(env.sender, msg.offspring.password))
    ensures msg.DeactivateOffspring? ==> (r.Ok? <==> Get(s.active, env.sender).Some?)
    ensures msg.DeactivateOffspring? && r.Ok? ==>
      Get(OwnerInactive(r.value.state, msg.owner), env.sender).Some? && Get(r.value.state.active, env.sender) == None
    ensures msg.NewOffspringContract? || msg.SetStatus? ==> (r.Ok? <==> env.sender == s.config.admin)
    ensures msg.NewOffspringContract? && r.Ok? ==> r.value.state.config.version == msg.offspringContract
    ensures msg.SetStatus? && r.Ok? ==> r.value.state.config.stopped == msg.stop
    ensures msg.CreateViewingKey? ==>
      && r.Ok?
      && r.value.response.data == Some(ViewingKey(p.newViewingKey(env, s.prngSeed, msg.entropy)))
      && IsKeyValid(p, r.value.state, env.sender, p.newViewingKey(env, s.prngSeed, msg.entropy)).valid
    ensures msg.SetViewingKey? ==>
      r.Ok? && r.value.response.data == Some(ViewingKey(msg.key)) && IsKeyValid(p, r.value.state, env.sender, msg.key).valid
  {
    match msg
    case CreateOffspring(contractLabel, entropy, owner, count, description) =>
      TryCreateOffspring(p, s, env, contractLabel, entropy, owner, count, description)
    case RegisterOffspring(owner, offspring) => TryRegisterOffspring(s, env, owner, offspring)
    case DeactivateOffspring(_, owner) => TryDeactivateOffspring(s, env, owner)
    case CreateViewingKey(entropy) => Ok(TryCreateKey(p, s, env, entropy))
    case SetViewingKey(key, _) => Ok(TrySetKey(p, s, env, key))
    case NewOffspringContract(offspringContract) => TryNewContract(s, env, offspringContract)
    case SetStatus(stop) => TrySetStatus(s, env, stop)
  }

  /**
   * `query`: routes a query to its handler. Only the owner listing asks for
   * a viewing key, and it answers with the key error exactly when the key is
   * invalid; the public lists are pages of at most the requested size, and a
   * key check answers with the validity alone.
   */
  function Query(p: Primitives, s: State, msg: QueryMsg): (r: QueryAnswer)
    ensures msg.ListMyOffspring? ==>
      (r.ViewingKeyError? <==> !IsKeyValid(p, s, msg.address, msg.viewingKey).valid)
    ensures msg.ListMyOffspring? && !r.ViewingKeyError? ==>
      var page, size := msg.startPage.GetOr(0), msg.pageSize.GetOr(DEFAULT_PAGE_SIZE);
      && r.MyOffspringList?
      && (r.active.Some? <==> msg.filter != Some(Inactive))
      && (r.inactive.Some? <==> msg.filter != Some(Active))
      && (r.active.Some? ==> r.active.value == Paging(OwnerActive(s, msg.address), page, size))
      && (r.inactive.Some? ==> r.inactive.value == Paging(OwnerInactive(s, msg.address), page, size))
    ensures msg.ListActiveOffspring? ==>
      && r.ActiveOffspringList?
      && r.activeList == Paging(s.active, msg.startPage.GetOr(0), msg.pageSize.GetOr(DEFAULT_PAGE_SIZE))
      && |r.activeList| <= msg.pageSize.GetOr(DEFAULT_PAGE_SIZE)
    ensures msg.ListInactiveOffspring? ==>
      && r.InactiveOffspringList?
      && r.inactiveList == Paging(s.inactive, msg.startPage.GetOr(0), msg.pageSize.GetOr(DEFAULT_PAGE_SIZE))
      && |r.inactiveList| <= msg.pageSize.GetOr(DEFAULT_PAGE_SIZE)
    ensures msg.IsKeyValid? ==> r == KeyValidity(IsKeyValid(p, s, msg.address, msg.viewingKey).valid)
  {
    match msg
    case ListMyOffspring(address, viewingKey, filter, startPage, pageSize) =>
      TryListMy(p, s, address, viewingKey, filter, startPage, pageSize)
    case ListActiveOffspring(startPage, pageSize) => TryListActive(s, startPage, pageSize)
    case ListInactiveOffspring(startPage, pageSize) => TryListInactive(s, startPage, pageSize)
    case IsKeyValid(address, viewingKey) => KeyValidity(IsKeyValid(p, s, address, viewingKey).valid)
  }
}
