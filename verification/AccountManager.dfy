/** The account manager of management/server/{account,peer,user,group,rule}.go as methods that change the
    records of the store in place. The contract of each names the change that the function of the same name
    in ManagerSpec makes; Operations takes its steps from the same functions, so what Runs proves of all
    sequences of steps holds of all sequences of calls. */
module AccountManager {
  import opened IpAllocation
  import opened Model
  import opened StoreSpec
  import opened ManagerSpec
  import opened Operations
  import opened OperationShapes
  import opened IndexAgreement
  import opened NetworkMap
  import opened FileStore
  import opened AccountRecords
  import opened NetworkMapLoops

  class Manager {
    const store: Store

    constructor (store: Store)
      ensures this.store == store
    {
      this.store := store;
    }

    ghost function State(): StoreState
      reads store, store.accounts.Values
    {
      store.State()
    }

    ghost predicate Valid()
      reads store, store.accounts.Values
    {
      store.Valid() && State().WellFormed()
    }

    /** The end of an operation: the record has its new contents, or is new to the store, and is saved. */
    method Finish(account: Record, ghost s: StoreState, ghost c: Change)
      requires store.Valid() && s.WellFormed() && ChangeWellFormed(s, c)
      requires c == Saved(account.View())
      requires State() == s || State() == s.(accounts := s.accounts[account.id := account.View()])
      modifies store
      ensures store.accounts == old(store.accounts)[account.id := account]
      ensures Valid() && State() == Apply(s, c)
    {
      assert account.View().RulesNameGroups() by { NamesGroups(account.View()); }
      ApplyWellFormed(s, c);
      SavedOnce(s, State(), account.View());
      hide Account.WellFormed, Record.View, Save, Views;
      store.SaveAccount(account);
      assert State() == Apply(s, c);
    }

    // ----- peers -----

    /** The account a new peer goes to. */
    method LocateForAdd(setupKey: string, userId: string, now: int) returns (r: Result<Record>)
      requires Valid()
      ensures var home := ManagerSpec.LocateForAdd(State(), setupKey, userId, now);
        r == if home.Ok? then Ok(store.accounts[home.value]) else Err(home.error)
    {
      hide Upper;
      var upperKey := Upper(setupKey);
      if |upperKey| != 0 {
        r := store.GetAccountBySetupKey(upperKey);
        if r.Err? {
          return Err(NotFound);
        }
        WellFormedParts(r.value.View());
        hide Account.WellFormed;
        var found, sk := SetupKeyByKey(r.value.setupKeys, upperKey);
        if !found {
          return Err(NotFound);
        }
        if !sk.IsValid(now) {
          return Err(FailedPrecondition);
        }
      } else if |userId| != 0 {
        r := store.GetUserAccount(userId);
      } else {
        return Err(InvalidArgument);
      }
    }

    /** AddPeer from the account on. */
    method AddPeerTo(account: Record, upperKey: string, userId: string, req: PeerRequest, now: int)
      returns (r: Result<Peer>, ghost ip: Addr, ghost gid: string)
      requires Valid() && account.id in store.accounts && store.accounts[account.id] == account
      requires account.View().network.net.Valid() && (upperKey != "" ==> upperKey in account.View().setupKeys)
      modifies store, account
      ensures Picked(old(account.View()), ip, gid) && Valid()
      ensures var o := ManagerSpec.Register(old(account.View()), upperKey, userId, req, now, ip, gid);
        State() == Apply(old(State()), o.change) && r == o.result
    {
      hide Account.WellFormed, Upper, Save, Record.View, ManagerSpec.Register;
      ghost var s, a := State(), account.View();
      assert s.accounts[account.id] == a;
      WellFormedParts(a);
      r, ip, gid := RegisterIn(account, upperKey, userId, req, now);
      RegisterWellFormed(a, upperKey, userId, req, now, ip, gid);
      ghost var c := ManagerSpec.Register(a, upperKey, userId, req, now, ip, gid).change;
      assert Views(store.accounts) == s.accounts[account.id := account.View()];
      assert State() == s.(accounts := s.accounts[account.id := account.View()]);
      assert s.accounts[account.id := a] == s.accounts;
      hide Views;
      if r.Ok? {
        Finish(account, s, c);
      }
    }

    method AddPeer(setupKey: string, userId: string, req: PeerRequest, now: int)
      returns (r: Result<Peer>, ghost ip: Addr, ghost gid: string)
      requires Valid()
      modifies store, store.accounts.Values
      ensures AddPicks(old(State()), setupKey, userId, now, ip, gid)
      ensures var o := ManagerSpec.AddPeer(old(State()), setupKey, userId, req, now, ip, gid);
        Valid() && State() == Apply(old(State()), o.change) && r == o.result
    {
      hide Account.WellFormed, Upper, Save, Record.View, ManagerSpec.Register, FreeIps, ManagerSpec.LocateForAdd;
      LocatedKey(State(), setupKey, userId, now);
      var found := LocateForAdd(setupKey, userId, now);
      if found.Err? {
        return Err(found.error), 0, "";
      }
      assert State().accounts[found.value.id] == found.value.View();
      NetworkOf(found.value.View());
      r, ip, gid := AddPeerTo(found.value, Upper(setupKey), userId, req, now);
    }

    method GetPeer(key: string) returns (r: Result<Peer>)
      requires Valid()
      ensures var home := PeerHome(State(), key);
        r == if home.Ok? then Ok(State().accounts[home.value].peers[key]) else Err(NotFound)
    {
      r := store.GetPeer(key);
    }

    /** SavePeer of the store, in states whose maps are keyed by what they hold. */
    method SavePeer(accountId: string, peer: Peer) returns (r: Result<Peer>, ghost gid: string)
      requires Valid() && accountId in store.accounts
      modifies store.accounts.Values
      ensures SavePicks(old(State()), accountId, gid) && Valid() && store.accounts == old(store.accounts)
      ensures var o := ManagerSpec.SavePeer(old(State()).accounts[accountId], peer, gid);
        State() == Apply(old(State()), o.change) && r == o.result
    {
      hide Account.WellFormed, ManagerSpec.SavePeer, Apply;
      ghost var s := State();
      assert s.accounts[accountId].id == accountId;
      r, gid := store.SavePeer(accountId, peer);
      SavePeerWellFormed(s, s.accounts[accountId], peer, gid);
      ApplyWellFormed(s, ManagerSpec.SavePeer(s.accounts[accountId], peer, gid).change);
      hide ChangeWellFormed;
    }

    method RenamePeer(accountId: string, key: string, newName: string) returns (r: Result<Peer>, ghost gid: string)
      requires Valid()
      modifies store.accounts.Values
      ensures SavePicks(old(State()), accountId, gid)
      ensures var o := ManagerSpec.RenamePeer(old(State()), accountId, key, newName, gid);
        Valid() && State() == Apply(old(State()), o.change) && r == o.result
    {
      hide Account.WellFormed, ManagerSpec.SavePeer, Save;
      var peer := store.GetPeer(key);
      if peer.Err? || accountId !in store.accounts {
        gid := if accountId in store.accounts then AnyGroupAll(store.accounts[accountId].View()) else "";
        return Err(NotFound), gid;
      }
      r, gid := SavePeer(accountId, peer.value.(name := newName));
    }

    method UpdatePeerMeta(key: string, meta: Meta) returns (r: Result<Peer>, ghost gid: string)
      requires Valid()
      modifies store.accounts.Values
      ensures HomePicks(old(State()), key, gid)
      ensures var o := ManagerSpec.UpdatePeerMeta(old(State()), key, meta, gid);
        Valid() && State() == Apply(old(State()), o.change) && r == o.result
    {
      hide Account.WellFormed, ManagerSpec.SavePeer, Save;
      var peer := store.GetPeer(key);
      if peer.Err? {
        return Err(NotFound), "";
      }
      var account := store.GetPeerAccount(key);
      var newMeta := meta;
      if meta.uiVersion == "" {
        newMeta := newMeta.(uiVersion := peer.value.meta.uiVersion);
      }
      r, gid := SavePeer(account.value.id, peer.value.(meta := newMeta));
    }

    /** Writing a record of a stored peer in place. */
    method WriteThrough(account: Record, p: Peer)
      requires Valid() && account.id in store.accounts && store.accounts[account.id] == account
      modifies account
      ensures Valid()
      ensures var a := old(account.View()); State() == Apply(old(State()), InPlace(a.(peers := a.peers[p.key := p])))
    {
      hide Account.WellFormed, Save, Record.View;
      ghost var s, a := State(), account.View();
      assert s.accounts[account.id] == a;
      WellFormedParts(a);
      PeerEdit(a, a.peers[p.key := p]);
      ApplyWellFormed(s, InPlace(a.(peers := a.peers[p.key := p])));
      PutPeer(account, p);
      assert Views(store.accounts) == s.accounts[account.id := account.View()];
      assert State() == s.(accounts := s.accounts[account.id := account.View()]);
    }

    /** The copy of the peer shares its status record, so writing the status writes the stored peer. */
    method MarkPeerConnected(key: string, connected: bool, now: int) returns (r: Result<Peer>, ghost gid: string)
      requires Valid()
      modifies store.accounts.Values
      ensures HomePicks(old(State()), key, gid)
      ensures var o := ManagerSpec.MarkPeerConnected(old(State()), key, connected, now, gid);
        Valid() && State() == Apply(old(State()), o.change) && r == o.result
    {
      hide Account.WellFormed, Record.View, Apply, ManagerSpec.SavePeer;
      ghost var s := State();
      var peer := store.GetPeer(key);
      if peer.Err? {
        NothingApplied(s);
        return Err(NotFound), "";
      }
      var found := store.GetPeerAccount(key);
      var account, peerCopy := found.value, peer.value.(status := PeerStatus(connected, now));
      ghost var a := account.View();
      assert s.accounts[account.id] == a && a.peers[key] == peer.value;
      WellFormedParts(a);
      WriteThrough(account, peerCopy);
      ghost var b := a.(peers := a.peers[key := peerCopy]);
      assert account.id in store.accounts;
      WroteAccount(s, b);
      r, gid := SavePeer(account.id, peerCopy);
      MarkTwice(s, a, peerCopy, gid);
    }

    /** DeletePeer up to the messages. */
    method RemovePeer(accountId: string, key: string) returns (r: Result<Peer>, ghost order: seq<string>)
      requires Valid()
      modifies store, store.accounts.Values
      ensures accountId in old(store.accounts) ==> IsListing(order, old(State()).accounts[accountId].groups.Keys)
      ensures store.accounts == old(store.accounts)
      ensures var o := ManagerSpec.DeletePeer(old(State()), accountId, key, order);
        Valid() && State() == Apply(old(State()), o.change) && r == o.result
    {
      hide Account.WellFormed, IsListing, CleanGroups, Apply;
      ghost var s := State();
      if accountId !in store.accounts {
        NothingApplied(s);
        return Err(NotFound), [];
      }
      var account := store.accounts[accountId];
      assert s.accounts[accountId] == account.View();
      r, order := store.DeletePeer(accountId, key);
      ListedKeys(order, s.accounts[accountId].groups.Keys);
      DeletePeerWellFormed(s, accountId, key, order);
      if r.Err? {
        NothingApplied(s);
        return;
      }
      ghost var base := s.(peerIdx := s.peerIdx - {key});
      ghost var a := account.View();
      assert base.WellFormed() && State() == base.(accounts := base.accounts[accountId := a]);
      assert ChangeWellFormed(base, Saved(a.(network := a.network.IncSerial())));
      ghost var was := s.accounts[accountId];
      assert a == was.(peers := was.peers - {key}, groups := CleanGroups(was.groups, order, [], key));
      hide Views, Store.State, Record.View;
      BumpAndSave(account, base);
      DeletionIs(s, accountId, key, order, a);
    }

    /** The serial goes up and the account is saved; `base` is the state but for the account. */
    method BumpAndSave(account: Record, ghost base: StoreState)
      requires store.Valid() && account.id in store.accounts && store.accounts[account.id] == account
      requires base.WellFormed()
      requires State() == base.(accounts := base.accounts[account.id := account.View()])
      requires var a := account.View(); ChangeWellFormed(base, Saved(a.(network := a.network.IncSerial())))
      modifies store, account
      ensures store.accounts == old(store.accounts) && Valid()
      ensures var a := old(account.View()); State() == Apply(base, Saved(a.(network := a.network.IncSerial())))
    {
      hide Account.WellFormed, StoreState.WellFormed, ChangeWellFormed, Record.View, Apply;
      ghost var mid, a := State(), account.View();
      IncSerial(account);
      assert Views(store.accounts) == mid.accounts[account.id := account.View()];
      UpdatedTwice(base.accounts, account.id, a, account.View());
      Finish(account, base, Saved(account.View()));
    }

    // ----- setup keys -----

    /** The end of the setup-key operations: the key is put in, under its own name, and the account saved. */
    method SaveSetupKey(account: Record, key: SetupKey)
      requires Valid() && account.id in store.accounts && store.accounts[account.id] == account
      requires Upper(key.key) == key.key
      modifies store, account
      ensures store.accounts == old(store.accounts) && Valid()
      ensures State() == Apply(old(State()), ReplaceKey(old(account.View()), key).change)
    {
      hide Account.WellFormed, Upper, Apply, Record.View;
      ghost var s := State();
      assert s.accounts[account.id] == account.View();
      SetupKeyChangesWellFormed(s, account.id, key);
      hide ChangeWellFormed;
      PutSetupKey(account, key);
      assert Views(store.accounts) == s.accounts[account.id := account.View()];
      assert State() == s.(accounts := s.accounts[account.id := account.View()]);
      Finish(account, s, Saved(account.View()));
    }

    method AddSetupKey(accountId: string, name: string, typ: KeyType, validFor: int, id: string, newKey: string,
                       now: int)
      returns (r: Result<SetupKey>)
      requires Valid()
      modifies store, store.accounts.Values
      ensures var o := ManagerSpec.AddSetupKey(old(State()), accountId, name, typ, validFor, id, newKey, now);
        Valid() && State() == Apply(old(State()), o.change) && r == o.result
    {
      hide Account.WellFormed, Upper, Save, Record.View;
      if accountId !in store.accounts {
        return Err(NotFound);
      }
      var account := store.accounts[accountId];
      assert State().accounts[accountId] == account.View();
      var setupKey := GenerateSetupKey(id, newKey, name, typ, validFor, now);
      UpperIdempotent(newKey);
      SaveSetupKey(account, setupKey);
      r := Ok(setupKey);
    }

    method RevokeSetupKey(accountId: string, keyId: string) returns (r: Result<SetupKey>, ghost pick: string)
      requires Valid()
      modifies store, store.accounts.Values
      ensures KeyPicks(old(State()), accountId, keyId, pick)
      ensures var o := ManagerSpec.RevokeSetupKey(old(State()), accountId, keyId, pick);
        Valid() && State() == Apply(old(State()), o.change) && r == o.result
    {
      hide Account.WellFormed, Save, ChangeWellFormed;
      if accountId !in store.accounts {
        return Err(NotFound), "";
      }
      var account := store.accounts[accountId];
      assert State().accounts[accountId] == account.View();
      var found, k := SetupKeyById(account.setupKeys, keyId);
      if !found {
        assert KeysWithId(account.View(), keyId) == {};
        return Err(NotFound), "";
      }
      assert k in KeysWithId(account.View(), keyId);
      var keyCopy := account.setupKeys[k].(revoked := true);
      assert Upper(keyCopy.key) == keyCopy.key by { WellFormedParts(account.View()); }
      SaveSetupKey(account, keyCopy);
      return Ok(keyCopy), k;
    }

    method RenameSetupKey(accountId: string, keyId: string, newName: string)
      returns (r: Result<SetupKey>, ghost pick: string)
      requires Valid()
      modifies store, store.accounts.Values
      ensures KeyPicks(old(State()), accountId, keyId, pick)
      ensures var o := ManagerSpec.RenameSetupKey(old(State()), accountId, keyId, newName, pick);
        Valid() && State() == Apply(old(State()), o.change) && r == o.result
    {
      hide Account.WellFormed, Save, ChangeWellFormed;
      if accountId !in store.accounts {
        return Err(NotFound), "";
      }
      var account := store.accounts[accountId];
      assert State().accounts[accountId] == account.View();
      var found, k := SetupKeyById(account.setupKeys, keyId);
      if !found {
        assert KeysWithId(account.View(), keyId) == {};
        return Err(NotFound), "";
      }
      assert k in KeysWithId(account.View(), keyId);
      var keyCopy := account.setupKeys[k].(name := newName);
      assert Upper(keyCopy.key) == keyCopy.key by { WellFormedParts(account.View()); }
      SaveSetupKey(account, keyCopy);
      return Ok(keyCopy), k;
    }

    // ----- groups and rules -----

    /** The end of the operations on groups and rules: the record has been edited, and is saved. */
    method SaveLists(account: Record, groups: map<string, Group>, rules: map<string, Rule>)
      requires Valid() && account.id in store.accounts && store.accounts[account.id] == account
      requires account.View().(groups := groups, rules := rules).WellFormed()
      modifies store, account
      ensures store.accounts == old(store.accounts) && Valid()
      ensures State() == Apply(old(State()), Saved(old(account.View()).(groups := groups, rules := rules)))
    {
      hide Account.WellFormed, Apply;
      ghost var s, a := State(), account.View();
      assert s.accounts[account.id] == a;
      assert ChangeWellFormed(s, Saved(a.(groups := groups, rules := rules)));
      hide ChangeWellFormed;
      hide Record.View;
      PutLists(account, groups, rules);
      assert Views(store.accounts) == s.accounts[account.id := account.View()];
      assert State() == s.(accounts := s.accounts[account.id := account.View()]);
      Finish(account, s, Saved(account.View()));
    }

    /** The end of the two operations that can leave a rule with a group that is not there. The record has been
        edited when SaveAccount meets the rule and panics; which index entries it has made by then is left open. */
    method SaveListsOrPanic(account: Record, groups: map<string, Group>, rules: map<string, Rule>)
      returns (panics: bool)
      requires Valid() && account.id in store.accounts && store.accounts[account.id] == account
      requires var b := account.View().(groups := groups, rules := rules); b.RulesNameGroups() ==> b.WellFormed()
      modifies store, account
      ensures var b := old(account.View()).(groups := groups, rules := rules);
        && (panics <==> !b.RulesNameGroups())
        && (!panics ==> Valid() && State() == Apply(old(State()), Saved(b)))
        && (panics ==> State().accounts == old(State()).accounts[account.id := b] && !Valid())
    {
      hide Account.WellFormed, Apply, Account.RulesNameGroups;
      panics := !account.View().(groups := groups, rules := rules).RulesNameGroups();
      if panics {
        ghost var s := State();
        NotWellFormed(account.View().(groups := groups, rules := rules));
        hide Record.View;
        PutLists(account, groups, rules);
        assert Views(store.accounts) == s.accounts[account.id := account.View()];
        assert !State().accounts[account.id].WellFormed();
      } else {
        SaveLists(account, groups, rules);
      }
    }

    method SaveGroup(accountId: string, group: Group) returns (r: Result<()>)
      requires Valid()
      modifies store, store.accounts.Values
      ensures var o := ManagerSpec.SaveGroup(old(State()), accountId, group);
        Valid() && State() == Apply(old(State()), o.change) && r == o.result
    {
      hide Account.WellFormed, Save;
      if accountId !in store.accounts {
        return Err(NotFound);
      }
      var account := store.accounts[accountId];
      ghost var a := account.View();
      assert State().accounts[accountId] == a;
      WellFormedParts(a);
      GroupEdit(a, a.groups[group.id := group]);
      SaveLists(account, account.groups[group.id := group], account.rules);
      return Ok(());
    }

    /** SaveAccount reads the groups that rules name unchecked: the call panics exactly when a rule names the
        group, which then is gone already. */
    method DeleteGroup(accountId: string, groupId: string) returns (r: Result<()>, panics: bool)
      requires Valid()
      modifies store, store.accounts.Values
      ensures panics <==> !Enabled(old(State()), DeleteGroupOp(accountId, groupId))
      ensures var o := ManagerSpec.DeleteGroup(old(State()), accountId, groupId);
        !panics ==> Valid() && State() == Apply(old(State()), o.change) && r == o.result
      ensures panics ==> accountId in old(State()).accounts && !Valid()
      ensures panics ==> var a := old(State()).accounts[accountId];
        State().accounts == old(State()).accounts[accountId := a.(groups := a.groups - {groupId})]
    {
      hide Account.WellFormed, Save, Account.RulesNameGroups;
      if accountId !in store.accounts {
        return Err(NotFound), false;
      }
      var account := store.accounts[accountId];
      ghost var a := account.View();
      assert State().accounts[accountId] == a;
      var groups := account.groups - {groupId};
      if a.(groups := groups).RulesNameGroups() { DeleteGroupWellFormed(a, groupId); }
      assert a.(groups := groups, rules := account.rules) == a.(groups := groups);
      panics := SaveListsOrPanic(account, groups, account.rules);
      return Ok(()), panics;
    }

    method GroupAddPeer(accountId: string, groupId: string, peerKey: string) returns (r: Result<()>)
      requires Valid()
      modifies store, store.accounts.Values
      ensures var o := ManagerSpec.GroupAddPeer(old(State()), accountId, groupId, peerKey);
        Valid() && State() == Apply(old(State()), o.change) && r == o.result
    {
      hide Account.WellFormed, Save;
      if accountId !in store.accounts || groupId !in store.accounts[accountId].groups {
        return Err(NotFound);
      }
      var account := store.accounts[accountId];
      ghost var a := account.View();
      assert State().accounts[accountId] == a;
      WellFormedParts(a);
      var group := account.groups[groupId];
      var ind := FirstIndex(group.peers, peerKey);
      var groups := account.groups;
      if ind < 0 {
        groups := groups[groupId := group.(peers := group.peers + [peerKey])];
      }
      GroupEdit(a, groups);
      SaveLists(account, groups, account.rules);
      return Ok(());
    }

    method GroupDeletePeer(accountId: string, groupId: string, peerKey: string) returns (r: Result<()>)
      requires Valid()
      modifies store, store.accounts.Values
      ensures var o := ManagerSpec.GroupDeletePeer(old(State()), accountId, groupId, peerKey);
        Valid() && State() == Apply(old(State()), o.change) && r == o.result
    {
      hide Account.WellFormed, Save, RemoveFirst;
      if accountId !in store.accounts || groupId !in store.accounts[accountId].groups {
        return Err(NotFound);
      }
      var account := store.accounts[accountId];
      ghost var a := account.View();
      assert State().accounts[accountId] == a;
      WellFormedParts(a);
      var group := account.groups[groupId];
      var i := FirstIndex(group.peers, peerKey);
      if i >= 0 {
        RemovedAt(group.peers, peerKey, i);
        var groups := account.groups[groupId := group.(peers := group.peers[..i] + group.peers[i + 1..])];
        GroupEdit(a, groups);
        SaveLists(account, groups, account.rules);
      }
      return Ok(());
    }

    /** The call panics exactly when the rule names a group that is not there; it is in the account already. */
    method SaveRule(accountId: string, rule: Rule) returns (r: Result<()>, panics: bool)
      requires Valid()
      modifies store, store.accounts.Values
      ensures panics <==> !Enabled(old(State()), SaveRuleOp(accountId, rule))
      ensures var o := ManagerSpec.SaveRule(old(State()), accountId, rule);
        !panics ==> Valid() && State() == Apply(old(State()), o.change) && r == o.result
      ensures panics ==> accountId in old(State()).accounts && !Valid()
      ensures panics ==> var a := old(State()).accounts[accountId];
        State().accounts == old(State()).accounts[accountId := a.(rules := a.rules[rule.id := rule])]
    {
      hide Account.WellFormed, Save, Account.RulesNameGroups;
      if accountId !in store.accounts {
        return Err(NotFound), false;
      }
      var account := store.accounts[accountId];
      ghost var a := account.View();
      assert State().accounts[accountId] == a;
      var rules := account.rules[rule.id := rule];
      if a.(rules := rules).RulesNameGroups() { SaveRuleWellFormed(a, rule); }
      assert a.(groups := account.groups, rules := rules) == a.(rules := rules);
      panics := SaveListsOrPanic(account, account.groups, rules);
      return Ok(()), panics;
    }

    method DeleteRule(accountId: string, ruleId: string) returns (r: Result<()>)
      requires Valid()
      modifies store, store.accounts.Values
      ensures var o := ManagerSpec.DeleteRule(old(State()), accountId, ruleId);
        Valid() && State() == Apply(old(State()), o.change) && r == o.result
    {
      hide Account.WellFormed, Save;
      if accountId !in store.accounts {
        return Err(NotFound);
      }
      var account := store.accounts[accountId];
      ghost var a := account.View();
      assert State().accounts[accountId] == a;
      DeleteRuleWellFormed(a, ruleId);
      SaveLists(account, account.groups, account.rules - {ruleId});
      return Ok(());
    }

    // ----- accounts and users -----

    /** `updateAccountDomainAttributes` of a record of the store. */
    method SaveDomain(account: Record, domain: string, category: string, primary: bool)
      requires Valid() && account.id in store.accounts && store.accounts[account.id] == account
      modifies store, account
      ensures store.accounts == old(store.accounts) && Valid()
      ensures var a := old(account.View()).(domain := domain, domainCategory := category, isPrimary := primary);
        State() == Apply(old(State()), Saved(a))
    {
      hide Account.WellFormed, Apply, Record.View, ChangeWellFormed;
      ghost var s, a := State(), account.View();
      assert s.accounts[account.id] == a;
      DomainEdit(s, a, domain, category, primary);
      PutDomain(account, domain, category, primary);
      assert Views(store.accounts) == s.accounts[account.id := account.View()];
      assert State() == s.(accounts := s.accounts[account.id := account.View()]);
      Finish(account, s, Saved(account.View()));
    }

    method SaveUser(account: Record, user: User)
      requires Valid() && account.id in store.accounts && store.accounts[account.id] == account
      modifies store, account
      ensures store.accounts == old(store.accounts) && Valid()
      ensures var a := old(account.View()); State() == Apply(old(State()), Saved(a.(users := a.users[user.id := user])))
    {
      hide Account.WellFormed, Apply, Record.View, ChangeWellFormed;
      ghost var s, a := State(), account.View();
      assert s.accounts[account.id] == a;
      UserEdit(s, a, user);
      PutUser(account, user);
      assert Views(store.accounts) == s.accounts[account.id := account.View()];
      assert State() == s.(accounts := s.accounts[account.id := account.View()]);
      Finish(account, s, Saved(account.View()));
    }

    /** A generated account, with the group All if it gets one, enters the store. */
    method CreateAccount(f: Fresh, id: string, userId: string, domain: string, now: int, withAdmin: bool)
      returns (account: Record)
      requires Valid() && f.network.net.Valid()
      modifies store
      ensures fresh(account) && account.id == id && store.accounts == old(store.accounts)[id := account] && Valid()
      ensures var a := NewAccountWithId(f, id, userId, domain, now);
        var b := if withAdmin then a.(users := map[userId := User(userId, Admin)]) else a;
        State() == Apply(old(State()), Saved(ManagerSpec.AddAllGroup(b, f.groupId, f.ruleId, [])))
    {
      hide Account.WellFormed, Record.View, NewAccountWithId, ManagerSpec.AddAllGroup, Apply;
      ghost var s := State();
      account := CreateRecord(f, id, userId, domain, now, withAdmin);
      AddAllGroupWellFormed(account.View(), f.groupId, f.ruleId, []);
      ghost var order := AddAllGroupTo(account, f.groupId, f.ruleId);
      ListingOfNone(order, {});
      assert ChangeWellFormed(s, Saved(account.View()));
      assert State() == s;
      Finish(account, s, Saved(account.View()));
    }

    method GetOrCreateAccountByUser(userId: string, domain: string, f: Fresh, now: int) returns (account: Record)
      requires Valid() && IsFresh(State(), f)
      modifies store, store.accounts.Values
      ensures account.id in store.accounts && store.accounts[account.id] == account
      ensures var o := ManagerSpec.GetOrCreateAccountByUser(old(State()), userId, domain, f, now);
        Valid() && State() == Apply(old(State()), o.change) && o.result == Ok(account.id)
    {
      hide Account.WellFormed, Save, Lower, NewAccountWithId, ManagerSpec.AddAllGroup;
      var lowerDomain := Lower(domain);
      var found := store.GetUserAccount(userId);
      if found.Err? {
        account := CreateAccount(f, f.accountId, userId, lowerDomain, now, true);
      } else {
        account := found.value;
        assert State().accounts[account.id] == account.View();
        if account.domain != lowerDomain {
          SaveDomain(account, lowerDomain, account.domainCategory, account.isPrimary);
        }
      }
    }

    /** `createAccount`, by which AddAccount works. */
    method AddAccount(accountId: string, userId: string, domain: string, f: Fresh, now: int) returns (account: Record)
      requires Valid() && f.network.net.Valid()
      modifies store, store.accounts.Values
      ensures account.id in store.accounts && store.accounts[account.id] == account
      ensures var o := ManagerSpec.AddAccount(old(State()), accountId, userId, domain, f, now);
        Valid() && State() == Apply(old(State()), o.change) && o.result == Ok(account.id)
    {
      hide Account.WellFormed, Save, NewAccountWithId, ManagerSpec.AddAllGroup;
      account := CreateAccount(f, accountId, userId, domain, now, false);
    }

    /** The locked part of GetAccountWithAuthorizationClaims. */
    method HandlePrivateClaims(claims: Claims, f: Fresh, now: int) returns (account: Record)
      requires Valid() && IsFresh(State(), f)
      modifies store, store.accounts.Values
      ensures account.id in store.accounts && store.accounts[account.id] == account
      ensures var o := PrivateClaims(old(State()), claims, f, now);
        Valid() && State() == Apply(old(State()), o.change) && o.result == Ok(account.id)
    {
      hide Account.WellFormed, Save, Lower, NewAccountWithId;
      var domainAccount := store.GetAccountByPrivateDomain(claims.domain);
      var existing := store.GetUserAccount(claims.userId);
      if existing.Ok? {
        account := existing.value;
        assert State().accounts[account.id] == account.View();
        var primary := !(domainAccount.Ok? && account.id != domainAccount.value.id);
        SaveDomain(account, Lower(claims.domain), claims.domainCategory, primary);
      } else if domainAccount.Ok? {
        account := domainAccount.value;
        assert State().accounts[account.id] == account.View();
        SaveUser(account, User(claims.userId, Regular));
      } else {
        account := CreatePrimary(claims, f, now);
      }
    }

    /** The new primary account of a domain; it gets no group All. */
    method CreatePrimary(claims: Claims, f: Fresh, now: int) returns (account: Record)
      requires Valid() && f.network.net.Valid()
      modifies store
      ensures fresh(account) && account.id == f.accountId
      ensures store.accounts == old(store.accounts)[f.accountId := account] && Valid()
      ensures var u := claims.userId;
        var a := NewAccountWithId(f, f.accountId, u, Lower(claims.domain), now).(users := map[u := User(u, Admin)]);
        State() == Apply(old(State()), Saved(WithDomain(a, claims, true)))
    {
      hide Account.WellFormed, Record.View, NewAccountWithId, Apply;
      ghost var s := State();
      account := CreateRecord(f, f.accountId, claims.userId, Lower(claims.domain), now, true);
      ghost var a := account.View();
      UserIdsOf(a);
      OtherEdit(a, WithDomain(a, claims, true));
      PutDomain(account, Lower(claims.domain), claims.domainCategory, true);
      assert ChangeWellFormed(s, Saved(account.View()));
      assert State() == s;
      Finish(account, s, Saved(account.View()));
    }

    method GetAccountWithAuthorizationClaims(claims: Claims, f: Fresh, now: int) returns (r: Result<Record>)
      requires Valid() && IsFresh(State(), f)
      modifies store, store.accounts.Values
      ensures r.Ok? ==> r.value.id in store.accounts && store.accounts[r.value.id] == r.value
      ensures var o := AccountWithClaims(old(State()), claims, f, now);
        Valid() && State() == Apply(old(State()), o.change)
          && o.result == if r.Ok? then Ok(r.value.id) else Err(r.error)
    {
      hide Account.WellFormed, Save, Lower, PrivateClaims, ManagerSpec.GetOrCreateAccountByUser;
      if claims.domainCategory != PRIVATE_CATEGORY {
        if claims.accountId != "" {
          r := store.GetAccount(claims.accountId);
        } else if claims.userId != "" {
          var account := GetOrCreateAccountByUser(claims.userId, claims.domain, f, now);
          r := Ok(account);
        } else {
          r := Err(NotFound);
        }
        return;
      }
      if claims.accountId != "" {
        var fromId := store.GetAccount(claims.accountId);
        if fromId.Err? {
          return Err(NotFound);
        }
        if claims.userId !in fromId.value.users {
          return Err(Plain);
        }
        if fromId.value.domainCategory == PRIVATE_CATEGORY {
          return fromId;
        }
      }
      var account := HandlePrivateClaims(claims, f, now);
      r := Ok(account);
    }

    /** One turn of the loop of BuildManager. */
    method BuildAccount(id: string) returns (ghost p: AllPick)
      requires Valid() && id in store.accounts
      modifies store, store.accounts[id]
      ensures store.accounts == old(store.accounts) && Valid()
      ensures IsListing(p.peers, old(State()).accounts[id].peers.Keys)
      ensures old(State()).accounts[id].id == id && State() == BuildOne(old(State()), id, p)
    {
      hide Account.WellFormed, Record.View, ManagerSpec.AddAllGroup, Apply, IsListing;
      ghost var s := State();
      var account := store.accounts[id];
      ghost var a := account.View();
      assert s.accounts[id] == a && a.peers == account.peers by { PeersOfView(account); }
      var groupId: string, ruleId: string := *, *; // generated
      ghost var order := AddAllGroupTo(account, groupId, ruleId);
      AddAllGroupWellFormed(a, groupId, ruleId, order);
      p := AllPick(groupId, ruleId, order);
      assert Views(store.accounts) == s.accounts[id := account.View()];
      ghost var c := Saved(account.View());
      assert ChangeWellFormed(s, c);
      Finish(account, s, c);
      AppliedSave(s, account.View());
    }

    // ----- the network map -----

    /** GetNetworkMap. */
    method GetNetworkMap(key: string) returns (r: Result<PeerMap>)
      requires Valid()
      ensures var home := AccountOf(State(), State().peerIdx, key);
        if home.Err? then r == Err(Internal)
        else r.Ok? && IsMapFor(State(), home.value, key, r.value)
    {
      hide Account.WellFormed, IsMapFor, RulesFound;
      var found := store.GetPeerAccount(key);
      if found.Err? {
        return Err(Internal);
      }
      var account := found.value;
      assert State().accounts[account.id] == account.View();
      var srcRules := store.GetPeerRules(account.id, key, true);
      if srcRules.Err? {
        NobodyIsMap(State(), account.id, key);
        return Ok(PeerMap([], account.network));
      }
      var dstRules := store.GetPeerRules(account.id, key, false);
      if dstRules.Err? {
        NobodyIsMap(State(), account.id, key);
        return Ok(PeerMap([], account.network));
      }
      var m := MapVia(account.View(), key, srcRules.value, dstRules.value, State(), account.id);
      return Ok(m);
    }
  }
}
