/**
 * Message shapes of the offspring contract (offspring/src/msg.rs) and of the
 * factory messages it sends (offspring/src/factory_msg.rs).
 */
module OffspringMsg {
  import opened Wrappers
  import opened Types

  /** Instantiation message of an offspring. */
  datatype InitMsg = InitMsg(
    factory: ContractInfo,
    index: u32,
    contractLabel: string,
    password: Hash,
    description: Option<string>,
    owner: Addr,
    count: i32)

  datatype HandleMsg = Increment | Reset(count: i32) | Deactivate

  datatype QueryMsg = GetCount(address: Addr, viewingKey: string)

  datatype QueryAnswer = CountResponse(count: i32)

  /** The registration record the offspring hands to the factory. */
  datatype FactoryOffspringInfo = FactoryOffspringInfo(index: u32, password: Hash)

  /** The factory handle messages an offspring sends. */
  datatype FactoryHandleMsg =
    | RegisterOffspring(owner: Addr, offspring: FactoryOffspringInfo)
    | DeactivateOffspring(index: u32, owner: Addr)

  /** The factory query an offspring sends. */
  datatype FactoryQueryMsg = IsKeyValid(address: Addr, viewingKey: string)
}
