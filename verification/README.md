# Secret factory contract: registration protocol model

This project models the two contracts of the secret factory as pure state machines.

The **factory** does the following:
- It mints a one-time password for each offspring it creates and keeps it in a single pending slot.
- It admits a new offspring only when that offspring echoes the password back.
- It keeps four indices of offspring records, keyed by offspring address: global active, global inactive, and per owner active and inactive.
- It stores viewing-key hashes and answers listing queries through them.

An **offspring** does the following:
- It registers itself with its factory when it is instantiated.
- It counts increments and resets while active.
- It can be deactivated once by its owner, and it tells the factory when that happens.
- It answers its owner's count query only after asking the factory whether the owner's viewing key is valid.

Each handler is a function from a state and a message to `Result<Step, StdError>`, except that viewing-key creation and setting cannot fail and return a bare `Step` (`Factory.TryCreateKey`, `Factory.TrySetKey`). The factory's handlers are total. The offspring's increment, and so `Offspring.Handle`, requires that an active counter is below `i32::MAX` (see "## Left out"). An error leaves the state as it was, because the host rolls back a failed transaction. Messages a contract emits are plain values. The `Handshake` module delivers them to the other contract, which lets properties of the whole protocol be proved:
- The creation, instantiation and registration handshake succeeds.
- The deactivation round trip moves a record between the indices.
- The system invariant `Linked` is preserved: the factory's indices agree with every offspring's own address, owner, password and activity flag.

Cryptography is the `Crypto.Primitives` datatype of function values. It covers SHA-256, base64, the PRNG, and viewing-key creation and hashing. Each is a parameter, so every property holds whatever these functions compute.

The offspring indices use a keyed, insertion-ordered map with page-number paging, `CashMaps.CashMap`. This is an assumed model of the external container the contract uses:
- It is a sequence of distinct keys plus the value stored under each key.
- `paging(p, s)` returns the values at positions `[p*s, min(p*s + s, len))`.
- Removal keeps the order of the remaining keys.

Layout, by module:
- `Wrappers`, `Types`, `Crypto` and `Encoding` are the basics: `Option`/`Result`, byte strings, addresses, the environment, and big-endian `u64`.
- `Store` covers `factory/src/state.rs`.
- `CashMaps` is the index container.
- `FactoryMsg` and `Factory` cover `factory/src/msg.rs` and `factory/src/contract.rs`.
- `FactoryIndex` holds the index invariant.
- `FactoryProps` holds multi-call factory properties.
- `OffspringMsg` and `Offspring` cover `offspring/src/*.rs`.
- `Handshake` holds the two contracts together.

The source is mid-refactor, and its files disagree with each other. `factory/src/contract.rs` is followed throughout:
- Records are keyed by offspring address.
- Listings use page numbers, with `start_page`/`page_size` on all three list queries.
- `DeactivateOffspring`'s `index` is ignored.
- `Config` has no `index`.
- `DEFAULT_PAGE_SIZE` is a positive `u32` constant whose value is left open.
- The factory's instantiation message has no `index`, but the offspring's requires one. `Handshake.ChildInitMsg` takes the index the offspring receives as a free parameter.

Several behaviours of `factory/src/contract.rs` are easy to misread, and the model follows the code in each:
- Deactivation (`factory/src/contract.rs:246-279`) only checks that the caller is globally active, and a caller that is not gets a hard error. The claimed owner is never compared with anything, and the stored record has no owner field.
- Every refusal is a generic error with a fixed message rather than a distinct permission or authentication kind.
- The inactive list is paged by page number from the oldest record (`factory/src/contract.rs:684-696`). The message documentation at `factory/src/msg.rs:88-99` describes a reverse-chronological listing from a `before` index, which the code does not implement.
- Stored records hold only the address and the password.

## Model

| member | source | states |
|---|---|---|
| Store.Save | factory/src/state.rs:53-56 | after `save(k, v)`, `may_load(k)` is `Some(v)` and every other key reads as before |
| Store.Remove | factory/src/state.rs:64-66 | after `remove(k)`, `may_load(k)` is `None` and every other key reads as before |
| Store.Load | factory/src/state.rs:75-81 | `load` succeeds exactly when a value is stored, returns that value, and otherwise fails with `NotFound` naming the type |
| Store.LoadAfterSave | factory/src/state.rs:53-81 | loading a key right after saving `v` under it returns `v` |
| Store.MayLoad | factory/src/state.rs:90-98 | `may_load`: the stored value if any, else nothing. It has no contract of its own; its behaviour is pinned by the contracts of `Store.Save` and `Store.Remove`, which state what it reads after each write, and of `Store.Load`, which agrees with it |
| Store.LoadAfterRemove | factory/src/state.rs:64-81 | loading a key right after removing it fails with `NotFound` |
| CashMaps.Insert | factory/src/contract.rs:220-221 | the key maps to the new value, other keys are unchanged, a new key goes last in the order, and well-formedness is kept |
| CashMaps.Remove | factory/src/contract.rs:257-258 | the key is gone, other keys are unchanged, well-formedness is kept, and removing an absent key changes nothing |
| CashMaps.Paging | factory/src/contract.rs:633 | a page holds at most `size` stored values and is exactly the `page`-th run of `size` values in insertion order |
| CashMaps.PagingCovers | factory/src/contract.rs:625-638 | for any page size of at least one, the pages in order concatenate to exactly the stored values, each once |
| Encoding.FromToBE | factory/src/contract.rs:109-110 | big-endian decoding inverts `n`-byte encoding for every value below 256^n |
| Encoding.U64ToBE | factory/src/contract.rs:109-110 | `to_be_bytes` of a `u64` is 8 bytes that decode back to the value |
| FactoryMsg.ToStoreOffspringInfo | factory/src/msg.rs:209-216 | the stored record carries the given address and the registration password |
| FactoryMsg.ToStoreInactiveOffspringInfo | factory/src/msg.rs:228-237 | the inactive record keeps the address and the password |
| FactoryMsg.RegistrationIndexDropped | factory/src/msg.rs:202-226 | two registrations give the same stored record exactly when their passwords agree, whatever their indices |
| FactoryMsg.InactiveConversionLossless | factory/src/msg.rs:228-237 | the active-to-inactive conversion is injective and the active record can be rebuilt from the inactive one |
| FactoryMsg.RegisteredThenDeactivated | factory/src/msg.rs:209-237 | an inactive record carries the address given at registration and the registration password |
| Factory.Init | factory/src/contract.rs:40-57 | the sender is admin, creation is enabled, the seed is the hash of the encoded entropy, and nothing is pending, keyed or indexed |
| Factory.DomainEntropy | factory/src/contract.rs:105-112 | the PRNG input is 16 + sender + entropy bytes long: height and time in big-endian, then the sender's bytes, then the entropy |
| Factory.NewEntropy | factory/src/contract.rs:114-116 | the PRNG is seeded with the saved seed and fed the domain entropy. It has no contract of its own; `Crypto.Primitives.randBytes` is arbitrary, and the properties of its input are those of `Factory.DomainEntropy`, `FactoryProps.DomainEntropyInjective` and `FactoryProps.DomainEntropyBoundaryShift` |
| Factory.TryCreateOffspring | factory/src/contract.rs:132-186 | fails exactly when stopped. Otherwise the seed is replaced by fresh PRNG output and its hash overwrites the pending slot. Exactly one instantiation is emitted: it uses the stored code, is labelled with the requested label, and carries that password, the owner, the factory's identity and the requested label, count and description. The response data is the success status |
| Factory.TryRegisterOffspring | factory/src/contract.rs:198-234 | succeeds exactly when the pending password equals the offered one, with the two distinct error messages otherwise. Success clears the slot and files `{sender, password}` under the sender in the global and the owner's active index. Nothing else changes, and no message or data is returned |
| Factory.AuthenticateOffspring | factory/src/contract.rs:289-304 | succeeds exactly when the caller is in the global active index, returning its record; otherwise a hard error |
| Factory.RemoveFromPersonsActive | factory/src/contract.rs:446-456 | the offspring leaves that person's active index; every other entry of every index is untouched |
| Factory.TryDeactivateOffspring | factory/src/contract.rs:246-279 | succeeds exactly when the caller is globally active. The record moves from the global and the claimed owner's active index to both inactive indices with address and password kept. Every other entry and field is unchanged, and no message or data is returned |
| Factory.TryNewContract | factory/src/contract.rs:315-339 | only the admin succeeds. Success changes the offspring code version and nothing else, and answers with the success status |
| Factory.TrySetStatus | factory/src/contract.rs:350-374 | only the admin succeeds. Success changes the stopped flag and nothing else, and answers with the success status |
| Factory.IsKeyValid | factory/src/contract.rs:526-547 | valid exactly when a hash is stored and the key checks against it. Exactly one comparison runs either way, against the all-zero hash when none is stored |
| Factory.TryCreateKey | factory/src/contract.rs:385-404 | the returned key is valid for the sender afterwards, other addresses' keys are unaffected, and only the key store changes |
| Factory.TrySetKey | factory/src/contract.rs:415-433 | afterwards exactly the keys hashing like the new one are valid for the sender; other addresses are unaffected |
| Factory.DisplayActiveList | factory/src/contract.rs:618-642 | the selected active index's values in insertion order from position page × size, at most page-size of them and none past the end; page defaults to 0 and size to `DEFAULT_PAGE_SIZE` |
| Factory.DisplayInactiveList | factory/src/contract.rs:655-679 | the same slice of the selected inactive index |
| Factory.TryListMy | factory/src/contract.rs:559-604 | a wrong key gives `ViewingKeyError`. Otherwise the active list is present unless the filter is `Inactive`, the inactive list is present unless it is `Active`, and each is the owner's page |
| Factory.TryListActive | factory/src/contract.rs:509-517 | at most page-size records, all from the global active index, read with no key |
| Factory.TryListInactive | factory/src/contract.rs:688-696 | at most page-size records, all from the global inactive index, read with no key |
| Factory.Handle | factory/src/contract.rs:67-94 | each message reaches its handler with its own arguments: creation succeeds exactly when not stopped and instantiates with the message's owner, label, count and description; registration succeeds exactly on the pending password and files the sender under the message's owner; deactivation succeeds exactly for an active sender and files it under the message's owner as inactive; the admin messages succeed exactly for the admin and install the message's version or stopped flag; both key messages succeed and make their key valid for the sender. Frame: only creation moves the seed, only creation and registration touch the pending slot, only registration and deactivation touch the indices, only the admin messages touch the configuration, and only the key messages touch keys |
| Factory.Query | factory/src/contract.rs:465-482 | the owner listing answers with the viewing-key error exactly when the key is invalid. Otherwise the active list is present unless the filter is `Inactive`, the inactive list is present unless it is `Active`, and each is the page of the owner's index at the requested (or default) page and size. The public lists are those pages of the global active and inactive indices, and a key check answers with the validity alone |
| FactoryProps.DomainEntropyInjective | factory/src/contract.rs:105-112 | for senders of equal length, the PRNG input determines height, time, sender and entropy |
| FactoryProps.DomainEntropyBoundaryShift | factory/src/contract.rs:107-112 | with no separator, moving a byte from the entropy to the sender gives the same PRNG input |
| FactoryProps.SecondCreateOrphansFirst | factory/src/contract.rs:154-160 | after two creations only the second password registers, unless both passwords are equal |
| FactoryProps.RegisterReplayFails | factory/src/contract.rs:205-213 | after a successful registration every registration fails with the no-pending message |
| FactoryProps.DeactivateTwiceFails | factory/src/contract.rs:255-258 | a second deactivation from the same offspring fails with the not-active message |
| FactoryProps.StopThenResume | factory/src/contract.rs:141-146 | once the admin stops the factory creation fails; resuming restores creation and the old configuration |
| FactoryProps.LaterKeyReplacesEarlier | factory/src/contract.rs:415-424 | after setting two keys, the second is valid and the first only if it hashes the same |
| FactoryProps.ListMyDefaults | factory/src/contract.rs:577-626 | a missing filter, page or page size reads as `All`, 0 and `DEFAULT_PAGE_SIZE` |
| FactoryProps.ListMyWrongKeyReadsNoIndex | factory/src/contract.rs:569-573 | with a wrong key the answer is `ViewingKeyError` and does not depend on any index |
| FactoryProps.PublicListsReadOnlyGlobalIndexes | factory/src/contract.rs:465-482 | the active and inactive lists need no key: states that agree on the two global indices answer them alike, whatever keys, owner indices or configuration they hold |
| FactoryIndex.InitEstablishesIndexInv | factory/src/contract.rs:40-57 | a fresh factory satisfies the index invariant with no known offspring |
| FactoryIndex.ExactlyOneStatus | factory/src/contract.rs:215-272 | under the invariant a known offspring is in exactly one of global active/inactive, in the matching index of its owner, and in no other owner's index |
| FactoryIndex.RegisterPreservesIndexInv | factory/src/contract.rs:215-227 | registering a new address keeps the invariant, with the offspring filed under its named owner |
| FactoryIndex.DeactivatePreservesIndexInv | factory/src/contract.rs:255-272 | deactivation that names the registered owner succeeds and keeps the invariant |
| FactoryIndex.WrongOwnerLeavesStaleEntry | factory/src/contract.rs:246-272 | assuming removal of an absent key is a no-op, deactivation naming another owner still succeeds, leaves the record in its real owner's active index, and no owner assignment makes the result consistent |
| FactoryIndex.HandlePreservesIndexInv | factory/src/contract.rs:67-94 | every factory message keeps the invariant when registrations are new and deactivations name the registered owner |
| FactoryIndex.OwnerListingIsOwners | factory/src/contract.rs:580-598 | under the invariant an owner's listings show only that owner's offspring, each with its globally stored record |
| Offspring.Init | offspring/src/contract.rs:25-59 | starts active with the given factory, index, password, owner, count and description, and emits exactly one registration to the factory that echoes index and password |
| Offspring.EnforceActive | offspring/src/contract.rs:244-250 | passes exactly when active; otherwise "This contract is inactive." |
| Offspring.TryDeactivate | offspring/src/contract.rs:89-112 | an inactive contract refuses first, then a non-owner gets `Unauthorized`. Success clears `active` only and emits exactly one deactivation to the factory with the stored index and owner |
| Offspring.TryIncrement | offspring/src/contract.rs:121-132 | anyone may raise an active contract's count by exactly one; nothing else changes |
| Offspring.TryReset | offspring/src/contract.rs:143-158 | an inactive contract refuses first, then a non-owner gets `Unauthorized`; success sets the count only |
| Offspring.Handle | offspring/src/contract.rs:69-79 | each message reaches its handler. An increment succeeds exactly when active and adds one. A reset or deactivation succeeds exactly for the owner of an active contract, and is `Unauthorized` for anyone else. A reset sets the message's count. A deactivation clears `active`, keeps the count and sends one `DeactivateOffspring` with the stored index and owner to the stored factory. No message changes the identity fields or reactivates the contract, and an inactive contract refuses every message |
| Offspring.RunKeepsIdentity | offspring/src/contract.rs:69-158 | over any sequence of messages the identity fields stay fixed and `active` never goes from false to true |
| Offspring.InactiveIsFrozen | offspring/src/contract.rs:89-158 | once inactive, no sequence of messages changes any field |
| Offspring.EnforceValidViewingKey | offspring/src/contract.rs:210-235 | sends one `IsKeyValid` query to the factory and passes exactly when the factory accepts, with the shared no-permission message otherwise |
| Offspring.QueryCount | offspring/src/contract.rs:183-198 | a non-owner address is refused without asking the factory. The count is returned exactly when the address is the owner's and the factory accepts the key, and both failures share one message |
| Offspring.Query | offspring/src/contract.rs:167-174 | the count comes back exactly when the address is the owner's and the factory accepts the key, and otherwise the shared refusal; at most one query is sent, always to the stored factory |
| Offspring.QueryReadsOwnerFactoryCount | offspring/src/contract.rs:167-198 | the answer depends only on the owner, the factory and the count, so an inactive contract answers exactly as an active one |
| Handshake.ChildInitMsg | factory/src/offspring_msg.rs:10-22 | the offspring's instantiation carries the factory identity, password, owner, count, description and label the factory sent |
| Handshake.Deliver | offspring/src/factory_msg.rs:11-30 | an offspring's registration and deactivation reach the factory with owner, index and password unchanged |
| Handshake.DeliverInjective | offspring/src/factory_msg.rs:11-43 | distinct offspring messages reach the factory as distinct messages |
| Handshake.InitLinked | factory/src/contract.rs:40-57 | a fresh factory is linked to the empty set of offspring |
| Handshake.RegisterKeepsLink | factory/src/contract.rs:198-234 | a registration by a new active offspring with the pending password links it and keeps every other offspring linked |
| Handshake.CreateInitRegister | factory/src/contract.rs:154-227 | creation, the offspring's instantiation and its registration callback always succeed together. The new offspring starts with the requested owner, count and description, is filed in the global and the owner's active index, and the link is kept |
| Handshake.DeactivateRoundTrip | offspring/src/contract.rs:89-112 | an owner's deactivation reaches the factory with the stored owner, moves the record to both inactive indices and keeps the link |
| Handshake.DeactivateNotRepeated | offspring/src/contract.rs:89-112 | after a deactivation the offspring refuses a second one as inactive, and the factory refuses the repeated message because the sender is no longer active |
| Handshake.InactiveChildIndexed | factory/src/contract.rs:255-272 | under the link, an inactive offspring is recorded in the global and its owner's inactive index and in neither active index |
| Handshake.DeactivateKeepsLink | factory/src/contract.rs:255-272 | a factory step that moves one offspring from the active to the inactive index, password unchanged, keeps the link once that offspring has gone inactive |
| Handshake.ChildStepKeepsLink | offspring/src/contract.rs:121-158 | increment and reset keep the link |
| Handshake.OutsiderStepKeepsLink | factory/src/contract.rs:289-304 | a message from an address that is no offspring keeps the link unless it carries the pending password, and its deactivation is refused |
| Handshake.GetCountThroughFactory | offspring/src/contract.rs:183-235 | answered through the factory, the count is returned exactly when the address is the owner's and the factory holds a matching key hash |
| Handshake.OwnerKeyOpensCount | factory/src/contract.rs:415-424 | after the owner sets a viewing key at the factory, that key opens the offspring's count |

## Left out

- Cryptography is not modelled. `sha_256`, base64, `Prng`, and `ViewingKey::new`, `to_hashed` and `check_viewing_key` are fields of `Crypto.Primitives`, so their outputs are arbitrary. Timing is not modelled: the dummy comparison in `is_key_valid` appears as the list of hashes compared.
- Serialization is not modelled: Bincode2/serde, `to_binary`, response and query padding to `BLOCK_SIZE`, and `to_cosmos_msg`. Stored values, emitted messages and answers are plain datatype values.
- Address conversion is not modelled. `canonical_address` and the human/canonical split are the identity on one `Addr` type. Owner keys are the address itself rather than its string form.
- Log attributes and debug output are not modelled.
- A `NotFound` error when a singleton is loaded before `init` is not modelled. Both contracts' states are total values.
- `CashMaps.CashMap` is an assumption about the external container. Removing an absent key is a no-op, removal keeps order, and a page past the end is empty; the container's own error paths are not modelled.
- FactoryIndex.WrongOwnerLeavesStaleEntry: the stale entry arises only because removing an absent key from the container is assumed to be a no-op. If the container instead returns an error there, the `?` at `factory/src/contract.rs:454` propagates it and the source rejects the wrong-owner deactivation, rolling it back. Its conclusion that such a deactivation succeeds holds only under that assumption.
- CashMaps.Paging: the `u32` product `page * size` is computed without overflow, which the 32-bit arithmetic of the container may not do.
- Offspring.TryIncrement: requires `count < i32::MAX` when active instead of modelling overflow of the `i32` counter; `Offspring.Apply` treats an overflowing increment as an aborted transaction.
- Offspring.Handle: carries the same requirement as `Offspring.TryIncrement` for an `Increment` message, for the same reason.
- Offspring.EnforceValidViewingKey: the factory's reply is a function parameter rather than a cross-contract query. `Handshake.FactoryAnswers` instantiates it with the factory's `is_key_valid`.
- Handshake.ChildInitMsg: the factory's instantiation message lacks the `index` the offspring's requires, so the index is a free parameter rather than a value the factory supplies.
- Entropy given as strings is modelled as byte strings. Their UTF-8 encoding is not modelled.
