/**
 * Message and record shapes of the factory (factory/src/msg.rs and
 * factory/src/offspring_msg.rs), and the conversions between the
 * registration, active and inactive record shapes.
 */
module FactoryMsg {
  import opened Wrappers
  import opened Types

  /** Code id and code hash of the stored offspring contract. */
  datatype OffspringContractInfo = OffspringContractInfo(codeId: u64, codeHash: string)

  /** Instantiation message of the factory. */
  datatype InitMsg = InitMsg(entropy: Bytes, offspringContract: OffspringContractInfo)

  /** What a new offspring sends to register itself. */
  datatype RegisterOffspringInfo = RegisterOffspringInfo(index: u32, password: Hash)

  /** An active offspring as stored in the active indices. */
  datatype StoreOffspringInfo = StoreOffspringInfo(address: Addr, password: Hash)

  /** An inactive offspring as stored in the inactive indices. */
  datatype StoreInactiveOffspringInfo = StoreInactiveOffspringInfo(address: Addr, password: Hash)

  /** Which of an owner's lists to return. */
  datatype FilterTypes = Active | Inactive | All

  /** Instantiation message the factory sends to a new offspring. */
  datatype OffspringInitMsg = OffspringInitMsg(
    factory: ContractInfo,
    contractLabel: string,
    password: Hash,
    owner: Addr,
    count: i32,
    description: Option<string>)

  /** Handle messages of the factory. */
  datatype HandleMsg =
    | CreateOffspring(contractLabel: string, entropy: Bytes, owner: Addr, count: i32, description: Option<string>)
    | RegisterOffspring(owner: Addr, offspring: RegisterOffspringInfo)
    | DeactivateOffspring(index: u32, owner: Addr)
    | NewOffspringContract(offspringContract: OffspringContractInfo)
    | CreateViewingKey(entropy: Bytes)
    | SetViewingKey(key: string, padding: Option<string>)
    | SetStatus(stop: bool)

  /** Queries of the factory, with the page parameters the handlers read. */
  datatype QueryMsg =
    | ListMyOffspring(address: Addr, viewingKey: string, filter: Option<FilterTypes>,
                      startPage: Option<u32>, pageSize: Option<u32>)
    | ListActiveOffspring(startPage: Option<u32>, pageSize: Option<u32>)
    | ListInactiveOffspring(startPage: Option<u32>, pageSize: Option<u32>)
    | IsKeyValid(address: Addr, viewingKey: string)

  datatype ResponseStatus = Success | Failure

  /** Data returned by handle messages. */
  datatype HandleAnswer =
    | ViewingKey(key: string)
    | Status(status: ResponseStatus, message: Option<string>)

  /** Query answers, carrying the stored record shapes the handlers list. */
  datatype QueryAnswer =
    | MyOffspringList(active: Option<seq<StoreOffspringInfo>>, inactive: Option<seq<StoreInactiveOffspringInfo>>)
    | ActiveOffspringList(activeList: seq<StoreOffspringInfo>)
    | InactiveOffspringList(inactiveList: seq<StoreInactiveOffspringInfo>)
    | ViewingKeyError(error: string)
    | KeyValidity(isValid: bool)

  /**
   * `RegisterOffspringInfo::to_store_offspring_info`: the stored record is
   * addressed by `address` and keeps the registration password.
   */
  function ToStoreOffspringInfo(info: RegisterOffspringInfo, address: Addr): (r: StoreOffspringInfo)
    ensures r.address == address
    ensures r.password == info.password
  {
    StoreOffspringInfo(address, info.password)
  }

  /** `StoreOffspringInfo::to_store_inactive_offspring_info`. */
  function ToStoreInactiveOffspringInfo(info: StoreOffspringInfo): (r: StoreInactiveOffspringInfo)
    ensures r.address == info.address
    ensures r.password == info.password
  {
    StoreInactiveOffspringInfo(info.address, info.password)
  }

  /**
   * The registration index is not retained: two registrations that differ
   * only in their index produce the same stored record.
   */
  lemma RegistrationIndexDropped(a: RegisterOffspringInfo, b: RegisterOffspringInfo, address: Addr)
    ensures ToStoreOffspringInfo(a, address) == ToStoreOffspringInfo(b, address) <==> a.password == b.password
  {
  }

  /**
   * Deactivation loses nothing: the active record can be recovered from the
   * inactive one, and distinct active records stay distinct.
   */
  lemma InactiveConversionLossless(x: StoreOffspringInfo, y: StoreOffspringInfo)
    ensures ToStoreInactiveOffspringInfo(x) == ToStoreInactiveOffspringInfo(y) <==> x == y
    ensures var i := ToStoreInactiveOffspringInfo(x); StoreOffspringInfo(i.address, i.password) == x
  {
  }

  /**
   * An inactive record carries the address given at registration and the
   * registration password.
   */
  lemma RegisteredThenDeactivated(info: RegisterOffspringInfo, address: Addr)
    ensures ToStoreInactiveOffspringInfo(ToStoreOffspringInfo(info, address))
         == StoreInactiveOffspringInfo(address, info.password)
  {
  }
}
