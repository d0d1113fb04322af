/**
 * Properties of the factory that relate several calls: the domain entropy
 * layout, the single pending ticket, the stop switch, viewing-key
 * replacement and the defaults of the owner listing.
 */
module FactoryProps {
  import opened Wrappers
  import opened Types
  import opened Crypto
  import opened Encoding
  import opened FactoryMsg
  import opened Factory

  /**
   * For senders of one length the domain entropy determines height, time,
   * sender and user entropy.
   */
  lemma DomainEntropyInjective(env1: Env, e1: Bytes, env2: Env, e2: Bytes)
    requires |env1.sender.bytes| == |env2.sender.bytes|
    requires DomainEntropy(env1, e1) == DomainEntropy(env2, e2)
    ensures env1.height == env2.height && env1.time == env2.time
    ensures env1.sender == env2.sender && e1 == e2
  {
    var r := DomainEntropy(env1, e1);
    assert r[..8] == DomainEntropy(env2, e2)[..8];
    assert r[8..16] == DomainEntropy(env2, e2)[8..16];
  }

  /**
   * Across sender lengths the layout has no separator: moving a byte from the
   * start of the user entropy to the end of the sender gives the same input.
   */
  lemma DomainEntropyBoundaryShift(env: Env, b: byte, e: Bytes)
    ensures DomainEntropy(env.(sender := Addr(env.sender.bytes + [b])), e) == DomainEntropy(env, [b] + e)
  {
    var env' := env.(sender := Addr(env.sender.bytes + [b]));
    var r := DomainEntropy(env', e);
    var t := DomainEntropy(env, [b] + e);
    assert r[..8] == t[..8] by {
      assert FromBE(r[..8]) == FromBE(t[..8]);
      assert r[..8] == U64ToBE(env.height) == t[..8];
    }
    assert r[8..16] == t[8..16] by {
      assert r[8..16] == U64ToBE(env.time) == t[8..16];
    }
    assert r == r[..8] + r[8..16] + r[16..16 + |env.sender.bytes|] + r[16 + |env.sender.bytes|..];
    assert t == t[..8] + t[8..16] + t[16..16 + |env.sender.bytes|] + t[16 + |env.sender.bytes|..];
  }

  /**
   * There is one pending ticket: after two creations only the second
   * password registers, unless both passwords happen to be equal.
   */
  lemma SecondCreateOrphansFirst(p: Primitives, s: State,
                                 env1: Env, label1: string, entropy1: Bytes, owner1: Addr, count1: i32, desc1: Option<string>,
                                 env2: Env, label2: string, entropy2: Bytes, owner2: Addr, count2: i32, desc2: Option<string>,
                                 renv: Env, rowner: Addr, index: u32)
    requires !s.config.stopped
    ensures TryCreateOffspring(p, s, env1, label1, entropy1, owner1, count1, desc1).Ok?
    ensures
      var c1 := TryCreateOffspring(p, s, env1, label1, entropy1, owner1, count1, desc1).value;
      var pw1 := c1.response.messages[0].msg.password;
      var c2 := TryCreateOffspring(p, c1.state, env2, label2, entropy2, owner2, count2, desc2);
      && c2.Ok?
      && c2.value.state.pending == Some(c2.value.response.messages[0].msg.password)
      && (TryRegisterOffspring(c2.value.state, renv, rowner, RegisterOffspringInfo(index, pw1)).Ok?
          <==> pw1 == c2.value.response.messages[0].msg.password)
  {
  }

  /** A successful registration consumes the ticket, so a replay of it fails. */
  lemma RegisterReplayFails(s: State, env: Env, owner: Addr, info: RegisterOffspringInfo,
                            env': Env, owner': Addr, info': RegisterOffspringInfo)
    requires TryRegisterOffspring(s, env, owner, info).Ok?
    ensures TryRegisterOffspring(TryRegisterOffspring(s, env, owner, info).value.state, env', owner', info')
         == Err(GenericErr(NO_PENDING_MSG))
  {
  }

  /** Deactivation is one-way at the factory: a second one from the same sender fails. */
  lemma DeactivateTwiceFails(s: State, env: Env, owner: Addr, owner': Addr)
    requires TryDeactivateOffspring(s, env, owner).Ok?
    ensures TryDeactivateOffspring(TryDeactivateOffspring(s, env, owner).value.state, env, owner')
         == Err(GenericErr(NOT_ACTIVE_MSG))
  {
  }

  /**
   * The admin's stop switch: once stopped, creation fails; switching it back
   * restores creation, and the configuration is otherwise what it was.
   */
  lemma StopThenResume(p: Primitives, s: State, admin: Env, env: Env, contractLabel: string, entropy: Bytes,
                       owner: Addr, count: i32, description: Option<string>)
    requires admin.sender == s.config.admin
    ensures TrySetStatus(s, admin, true).Ok?
    ensures
      var stopped := TrySetStatus(s, admin, true).value.state;
      && TryCreateOffspring(p, stopped, env, contractLabel, entropy, owner, count, description) == Err(GenericErr(STOPPED_MSG))
      && TrySetStatus(stopped, admin, false).Ok?
      && TrySetStatus(stopped, admin, false).value.state == s.(config := s.config.(stopped := false))
      && TryCreateOffspring(p, TrySetStatus(stopped, admin, false).value.state, env, contractLabel, entropy,
                            owner, count, description).Ok?
  {
  }

  /**
   * A later key replaces an earlier one: the new key is valid and the old
   * one stays valid only if it hashes to the same value.
   */
  lemma LaterKeyReplacesEarlier(p: Primitives, s: State, env: Env, k1: string, k2: string)
    ensures
      var s2 := TrySetKey(p, TrySetKey(p, s, env, k1).state, env, k2).state;
      && Factory.IsKeyValid(p, s2, env.sender, k2).valid
      && (Factory.IsKeyValid(p, s2, env.sender, k1).valid <==> p.hashViewingKey(k1) == p.hashViewingKey(k2))
  {
  }

  /** A missing filter, page or page size reads as `All`, 0 and `DEFAULT_PAGE_SIZE`. */
  lemma ListMyDefaults(p: Primitives, s: State, address: Addr, viewingKey: string)
    ensures TryListMy(p, s, address, viewingKey, None, None, None)
         == TryListMy(p, s, address, viewingKey, Some(All), Some(0), Some(DEFAULT_PAGE_SIZE))
  {
  }

  /**
   * With a wrong key the owner listing reads no index: states that agree on
   * the viewing keys give the same answer whatever their indices hold.
   */
  lemma ListMyWrongKeyReadsNoIndex(p: Primitives, s: State, t: State, address: Addr, viewingKey: string,
                                   filter: Option<FilterTypes>, startPage: Option<u32>, pageSize: Option<u32>)
    requires s.viewingKeys == t.viewingKeys
    requires !Factory.IsKeyValid(p, s, address, viewingKey).valid
    ensures TryListMy(p, s, address, viewingKey, filter, startPage, pageSize)
         == TryListMy(p, t, address, viewingKey, filter, startPage, pageSize)
    ensures TryListMy(p, s, address, viewingKey, filter, startPage, pageSize) == ViewingKeyError(WRONG_KEY_MSG)
  {
  }

  /**
   * The public lists need no key: states that agree on the two global
   * indices answer them alike, whatever viewing keys, owner indices or
   * configuration they hold.
   */
  lemma PublicListsReadOnlyGlobalIndexes(p: Primitives, s: State, t: State, msg: QueryMsg)
    requires msg.ListActiveOffspring? || msg.ListInactiveOffspring?
    requires s.active == t.active && s.inactive == t.inactive
    ensures Factory.Query(p, s, msg) == Factory.Query(p, t, msg)
  {
  }
}
