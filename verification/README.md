# The NetBird management service and its clients, modelled and proved

This project models the parts of NetBird that decide who is in a network, under which address, and who
connects to whom:

- the address allocator (`IpArithmetic.dfy`, `IpAllocation.dfy`, `Addresses.dfy`);
- the account store with its six hand-kept indexes, and the account manager on top of it: as functions from
  states to states (`Model.dfy`, `StoreSpec.dfy`, `ManagerSpec.dfy`, `Operations.dfy`), and as the objects and
  loops of the code, proved to do exactly what the functions say (`FileStore.dfy`, `AccountRecords.dfy`,
  `NetworkMapLoops.dfy`, `AccountManager.dfy`, `ServiceStart.dfy`);
- what every operation and every sequence of operations and restarts keeps (`OperationShapes.dfy`,
  `IndexAgreement.dfy`, `NetworkMap.dfy`, `GroupCleanup.dfy`, `AccountHistory.dfy`, `PrivateDomains.dfy`,
  `Effects.dfy`, `Runs.dfy`, `LiveMaps.dfy`, `KeyHistory.dfy`), and what every call answers, in terms of what the
  accounts hold (`AccountAnswers.dfy`, `Answers.dfy`), with cases in `IndexCases.dfy` and `AccessListCases.dfy`;
- the network-map protocol: what the server sends and when (`ManagementServer.dfy`), the channels in between
  (`UpdateChannel.dfy`), the engine that applies a map (`Engine.dfy`, `EngineRoutes.dfy`), addresses in text and
  how they read back (`HostRoutes.dfy`, `Routing.dfy`), and the whole as one state machine with a network that
  loses, repeats and reorders (`FullMesh.dfy`, `SyncProtocol.dfy`), with cases in `PushCases.dfy`;
- the state machine of one peer connection (`PeerConn.dfy`), the paths its worker takes (`ConnPaths.dfy`), and the
  object that follows it (`Conn.dfy`);
- the credential codec of the signal client (`Credential.dfy`, `Strings.dfy`).

## How the parts fit

All operations of the account manager hold one mutex, so each is one atomic step; where the code uses two
critical sections, as for claims with an account id, "Left out" says so. What the code leaves open
(generated identifiers, the clock, which free address is picked, the order in which Go visits a map) is a
parameter of the step, so a statement about steps covers every choice. The methods of
`AccountManager.Manager` change records in place and build the indexes in loops; the contract of each gives its
new state and its result as those of the function of the same name in `ManagerSpec`, with the choices it made
as ghost results. `Operations.Step` is built from the same functions. So the theorems of `Runs`, about every
sequence of steps from the empty store, hold of every sequence of calls that keeps to the conditions below and in
which no call panics.

In the same way the messages that `ManagementServer.Server` puts on channels are proved to be messages that
`SyncProtocol.Next` lets its server send, the engine object is proved equal to the function `Engine.Update` that
the protocol uses, and every method of `ConnObject.Conn` appends the step of `PeerConn` that it takes.

Three conditions on callers appear in `Operations.Disciplined`, and the lemmas named `...AgreesExactly` say what
happens without them:

- AddPeer is called with a key that no other account has registered; this is also necessary, and
  `IndexCases.AddedKeyInTwoAccounts` is a case. Login asks GetPeer first, but in a critical section of its own, so
  two overlapping logins with one key and two accounts can both pass the check. The condition then has to come
  from somewhere else: one client that waits for its answer keeps to it.
- RenamePeer names the account that owns the peer; this too is also necessary (`IndexCases.RenamedIntoTwoAccounts`).
- AddAccount is given an unused id. A used id does no harm either if its account holds nothing, and only then
  (`IndexAgreement.AddAccountAgreesExactly`, `IndexCases.AddedAccountForgets`). Nothing but the repository's tests
  calls AddAccount.

The connection machine assumes one thing of the ICE library: an agent makes no state callback once it is closed.
An agent that was never closed may call back, also after the connection has replaced it
(`PeerConn.OlderIceDown`).

## Where the guarantees end

These are facts about the code that the proofs brought out. Each names the lemma that gives a case, or says
exactly when it happens, or both.

- A peer that rules name only as a source, or only as a destination, gets an empty network map, although a
  bidirectional rule links it (`AccessListCases.OneSidedPeersSeeNoOne`).
- The rule indexes do not tell accounts apart. A rule id used in two accounts can show a peer others that no rule
  of its account links to it: exactly those of `NetworkMap.Borrowed` (`NetworkMap.NetworkMapExactly`,
  with a case in `AccessListCases.SharedIdShowsUnlinkedPeer`). Generated ids are distinct; an id can also come
  with the request that creates a rule.
- A lookup by user without private claims can move a private primary account onto a domain that already has a
  primary account (`PrivateDomains.LookupCanMakeTwoPrimaries`, on a restored store); nothing else can
  (`PrivateDomains.StepPrimariesExactly`).
- When the ICE agent or the proxy fails to close, Open returns and the connection keeps its old status
  (`PeerConn.FailedCleanupLeavesConnected`); exactly then (`PeerConn.OutsideOpenClearedExactly`). An agent that
  failed to close and was replaced by the next Open can later call a cancel function that is nil, which panics;
  nothing else does (`PeerConn.CrashesExactly`; a case in `PeerConn.UnclosedAgentCallsNil`).
- No address is outside a network of prefix 0, so the allocation loop would not end on one
  (`IpAllocation.PrefixZeroContainsEverything`). Prefixes from 1 to 32 are covered.
- With several groups, DeletePeer's list of survivors outlives a turn of its loop, so a group visited later also
  receives the members of the groups visited earlier (`GroupCleanup.CleanedLists`; a case in
  `GroupCleanup.CleanupSpreadsMembers`). The groups are filtered as intended exactly when no group but the last
  one visited holds another peer (`GroupCleanup.CleanIsFilterExactly`): in every order exactly when there is at
  most one group or none holds another peer, and in some order exactly when at most one does
  (`GroupCleanup.EveryOrderFiltersExactly`, `GroupCleanup.SomeOrderFiltersExactly`).
- Between restarts the rule indexes are the history of the rules: a rule counts for a peer on a side if and only if
  its account, as it was when the service started or as it was saved since, had it name the peer there
  (`LiveMaps.IndexIsHistory`), and every map follows from that (`LiveMaps.LiveMapInRun`).
- So GroupDeletePeer does not change the map of the peer it takes out (`LiveMaps.TakenOutSeesTheSame`): the peer
  goes on seeing the other side of the rule until a restart (`AccessListCases.TakenOutStillSees`).
  `LiveMaps.SaveTakesEffectExactly` says when a save shows a peer at once what a restart would show it.
- Deleting a rule takes it out of the account and not out of the rule indexes: they stay exact exactly when it
  named no peer (`NetworkMap.RuleDeletionKeepsExactly`; a case in `AccessListCases.DeletedRuleStaysIndexed`).
- DeleteGroup of a group that a rule names, and SaveRule of a rule that names a missing group, first change the
  account and then panic in SaveAccount, which leaves the account with a rule without its group. That happens
  exactly then (`AccessListCases.GroupDeletionEnabledExactly`, `AccessListCases.RuleSavingEnabledExactly`; a case
  in `AccessListCases.DeletedGroupLeavesRule`). The theorems about runs are about runs without such calls.
- Editing groups or rules can change network maps, without a new serial and without a push, so that two maps of one
  serial carry different peers (`AccessListCases.EditChangesMapAtSameSerial`, `PushCases.EditsBreakOneServer`).
  `LiveMaps.EditKeepsMapsExactly` says, for any store, when an edit leaves all maps as they were, and
  `LiveMaps.SeesTheSameByRules` says it in terms of the old and the new rules. Exactly then engines may take maps
  from before and after in any order (`SyncProtocol.EditKeepsOneServerExactly`). The theorems about whole
  behaviours of the protocol are about accounts whose groups and rules stay as created.
- DeletePeer pushes every peer of the account, and registerPeer what the new peer sees, whatever the rules let the
  recipient see. `SyncProtocol.DeletionIsOwnViewExactly` and `SyncProtocol.FanOutIsOwnViewExactly` say for any store
  when that is the recipient's own view, `SyncProtocol.DeletionPushByRules` and
  `SyncProtocol.RegistrationPushByRules` say it in terms of the rules; `PushCases.DeletionPushExceedsOwnView` and
  `PushCases.RegistrationPushExceedsOwnView` are cases in which it is more.

- An engine keeps the connection of a peer that stays on its maps as it was made. When the peer is registered again
  under its key, or deleted and registered again between two maps the engine applies, the connection goes on with
  the old address (`EngineRoutes.NewAddressIsMissed`). Every connection is for an address the peer had at some serial
  up to the engine's (`SyncProtocol.SnapshotConsistency`), and for its present one as long as it kept its address
  (`SyncProtocol.RoutesAreCurrent`).
- Claims that are not private and carry an account id are answered with that account, whoever its users are. Every
  other answer is an account that has the user (`AccountAnswers.AnswerHasUserExactly`).
- A stream whose client has gone closes the channel registered under the peer's key, also when a newer stream of the
  peer has made it (`ManagementServer.Server.CloseStream`).
- A status change is written even when the account has no group All, and the call then fails; a rename and new
  metadata are not (`Answers.InPlaceAnswers`).

Where comments in the repository and the code differ, the model follows the code: the comment on AddPeer says
that addresses are not reused (management/server/peer.go:291), while the allocator hands freed addresses out
again; the comment on NewRegularUser names the administrator role (management/server/user.go:42), while the
function gives the user role; restore skips an empty private domain (management/server/file_store.go:119), while
the SaveAccount that BuildManager then calls enters it (management/server/file_store.go:270).

## Model

| member | source | states |
|---|---|---|
| IpArithmetic.IncIP | management/server/network.go:122-129 | the carry loop over the bytes in place adds one to the number they spell, modulo 256^n for n bytes |
| IpArithmetic.MaskRoundsDown | management/server/network.go:99 | masking octet by octet rounds the address down to a multiple of the block size |
| IpAllocation.ContainsIsBlockMembership | management/server/network.go:99 | comparing masked octets is membership of the address, as a number, in the block |
| IpAllocation.PrefixZeroContainsEverything | management/server/network.go:99 | a network of prefix 0 contains every address: the one prefix on which the loop never ends |
| IpAllocation.WalkBlock | management/server/network.go:99-103 | the loop over one mutated address ends, also when the block's end wraps to 0.0.0.0, and keeps in order the addresses of the block that are not excluded and do not end in octet 0 |
| IpAllocation.GenerateIPs | management/server/network.go:96-114 | the list of the walk with its first and last element removed when there are at least two, and its length |
| IpAllocation.GeneratedExactly | management/server/network.go:95-114 | the list is strictly ascending and holds exactly the usable addresses of the block that have a usable one below and one above, or all of them when there are fewer than two |
| IpAllocation.AllocatePeerIP | management/server/network.go:74-93 | an address of the list of the network without its own and the taken addresses; the out-of-range error exactly when that list is empty |
| IpAllocation.FreeIsOriginalMinusTaken | management/server/network.go:74-114 | whatever has been handed out, the same two ends are trimmed: the free list is the first list less the taken addresses |
| IpAllocation.AllocatingKeeps | management/server/network.go:74-93 | handing out a free address keeps the taken ones inside the first list, and the address was not taken |
| IpAllocation.TakenAddresses | management/server/network.go:100-114 | a taken address lies in the block and does not end in octet 0, and for a prefix of at most 24 it is neither the lowest host nor the broadcast address |
| IpAllocation.AllocationFailsExactlyWhenFull | management/server/network.go:83-85 | allocation fails exactly when as many addresses are taken as the network's capacity, and more cannot be |
| IpAllocation.CapacityOfNetwork | management/server/network_test.go:17-29 | a network of prefix p at most 24 holds 255 * 2^(24-p) - 2 peers, or one less when it is named by an address not ending in 0: 253 for a /24 and 65278 for a /16; smaller blocks named by their first address are counted too |
| IpAllocation.NewNetworkIsShared | management/server/network.go:32-46 | generated networks lie in 100.64.0.0/10 (section 7 of RFC 6598), hold 65278 peers each, and do not overlap |
| StoreSpec.SaveFields | management/server/file_store.go:226-275 | SaveAccount on an account keyed by what it holds: what each of the seven maps of the store becomes |
| FileStore.ListKeys | management/server/file_store.go:80 | visiting a map gives each key exactly once, in some order |
| FileStore.FirstIndex | management/server/file_store.go:150-156 | the position of the first occurrence, or -1 exactly when there is none |
| FileStore.AppendWithout | management/server/file_store.go:187-191 | the inner clean-up loop appends, in order, the members other than the deleted key |
| FileStore.PointNames | management/server/file_store.go:235-241 | the index loops point every name of the account's elements to the account and leave all other entries alone |
| FileStore.EnterGroup | management/server/file_store.go:245-252 | the innermost rule loop adds the rule to the entry of every member of the group and removes nothing |
| FileStore.EnterRule | management/server/file_store.go:244-253 | the loop over one side of a rule enters it for exactly the members of the groups named there |
| FileStore.EnterRules | management/server/file_store.go:243-264 | the loop over the rules makes both rule indexes what they were plus, for each peer, the rules naming it on that side |
| FileStore.Record.GetGroupAll | management/server/account.go:138-145 | some group named All, or the error exactly when there is none |
| FileStore.Record.SavePeer | management/server/file_store.go:145-162 | the record gets the peer, and the key in the group All if it was not there; nothing when there is no such group |
| FileStore.Record.RemovePeer | management/server/file_store.go:181-193 | the peer is gone and the groups are what the clean-up loop makes of them in the order visited |
| FileStore.Store.SaveAccount | management/server/file_store.go:226-275 | the new state of the whole store is that of saving the record's present contents |
| FileStore.Store.RestoreAccount | management/server/file_store.go:80-123 | one turn of restore: all indexes of one account, the private domain only when it is not empty |
| FileStore.RestoreStore | management/server/file_store.go:66-126 | the store read back is the one rebuilt from its accounts in the order visited |
| FileStore.Store.SavePeer | management/server/file_store.go:135-164 | the account is changed in place and no index is touched; NotFound for an unknown account |
| FileStore.Store.DeletePeer | management/server/file_store.go:167-201 | the peer leaves the account, its groups and the peer index; NotFound and no change for an unknown account or peer |
| FileStore.Store.GetPeer | management/server/file_store.go:204-223 | the peer found through index, account and peer map, else NotFound |
| FileStore.Store.GetAccountByPrivateDomain | management/server/file_store.go:277-292 | the account the domain index names for the lower-cased domain, else NotFound |
| FileStore.Store.GetAccountBySetupKey | management/server/file_store.go:294-306 | the account the setup-key index names for the upper-cased key, else NotFound |
| FileStore.Store.GetUserAccount | management/server/file_store.go:342-352 | the account the user index names, else NotFound |
| FileStore.Store.GetPeerAccount | management/server/file_store.go:354-364 | the account the peer index names, else NotFound |
| FileStore.Store.GetAccountPeers | management/server/file_store.go:308-323 | every peer of the account exactly once |
| FileStore.Store.GetPeerRules | management/server/file_store.go:366-414 | the rules of the peer's index entry that the account still has, each once; an error exactly when there is no entry |
| AccountRecords.SetupKeyById | management/server/account.go:601-608 | a key with the hash is found exactly when there is one |
| AccountRecords.SetupKeyByKey | management/server/account.go:610-617 | the key under its own name is found exactly when the account has it |
| AccountRecords.NextIp | management/server/peer.go:343-352 | an address free in the account's network given its peers, or out of range exactly when there is none |
| AccountRecords.RegisterIn | management/server/peer.go:343-375 | the record after AddPeer: group All, peers, use of the key and serial together, or no change at all |
| AccountRecords.AddAllGroupTo | management/server/account.go:554-573 | an account without groups gets the group All of all its peers and the Default rule; any other account stays |
| AccountRecords.RemovedAt | management/server/group.go:137-139 | cutting at the first match is removing the first occurrence |
| AccountRecords.MarkTwice | management/server/peer.go:93-96 | writing the shared status and then saving the peer is the same as saving the peer, when the save succeeds |
| AccountManager.Manager.LocateForAdd | management/server/peer.go:301-341 | the account for a new peer through a valid setup key or the user, and the error for each way of failing |
| AccountManager.Manager.AddPeer | management/server/peer.go:293-383 | new state and result of AddPeer, for the address and group picked |
| AccountManager.Manager.RemovePeer | management/server/peer.go:128-146 | new state and result of DeletePeer up to its messages |
| AccountManager.Manager.RenamePeer | management/server/peer.go:104-125 | new state and result of RenamePeer |
| AccountManager.Manager.UpdatePeerMeta | management/server/peer.go:386-413 | new state and result of UpdatePeerMeta |
| AccountManager.Manager.MarkPeerConnected | management/server/peer.go:79-101 | new state and result of MarkPeerConnected; the shared status is written even when the save fails |
| AccountManager.Manager.GetNetworkMap | management/server/peer.go:223-284 | registered peers whose keys are exactly those of the network map, with the account's network; an error exactly for an unknown peer |
| AccountManager.Manager.AddSetupKey | management/server/account.go:173-201 | new state and result of AddSetupKey; what they are is in `KeyHistory.KeysAreMadeExactly` and `Answers.KeyAnswers` |
| AccountManager.Manager.RevokeSetupKey | management/server/account.go:204-227 | new state and result of RevokeSetupKey, for the key picked among those with the id |
| AccountManager.Manager.RenameSetupKey | management/server/account.go:230-257 | new state and result of RenameSetupKey, for the key picked among those with the id |
| AccountManager.Manager.GetOrCreateAccountByUser | management/server/user.go:53-84 | new state and result: the user's account, made when there is none, moved when the domain differs |
| AccountManager.Manager.AddAccount | management/server/account.go:533-551 | new state and result of AddAccount |
| AccountManager.Manager.HandlePrivateClaims | management/server/account.go:386-448 | new state and result for an existing user, for a user joining the domain's account, and for a new primary account |
| AccountManager.Manager.GetAccountWithAuthorizationClaims | management/server/account.go:467-510 | new state and result over all ways through the claims; who is let in is in `AccountAnswers.PrivateClaimsMembership` and `AccountAnswers.OtherClaimsAnswer` |
| AccountManager.Manager.SaveGroup | management/server/group.go:47-58 | new state and result of SaveGroup |
| AccountManager.Manager.DeleteGroup | management/server/group.go:61-73 | new state and result of DeleteGroup; the call panics exactly when a rule names the group, which the account has then lost already |
| AccountManager.Manager.GroupAddPeer | management/server/group.go:94-120 | new state and result of GroupAddPeer: the key once more only if it was not there |
| AccountManager.Manager.GroupDeletePeer | management/server/group.go:123-145 | new state and result of GroupDeletePeer: the first occurrence goes |
| AccountManager.Manager.SaveRule | management/server/rule.go:63-74 | new state and result of SaveRule; the call panics exactly when the rule names a missing group, and the account then has the rule already |
| AccountManager.Manager.DeleteRule | management/server/rule.go:77-89 | new state and result of DeleteRule |
| NetworkMapLoops.CollectGroups | management/server/peer.go:249-264 | the loops gather exactly the groups on the far side of the bidirectional rules found |
| NetworkMapLoops.CollectPeers | management/server/peer.go:266-278 | the loops list exactly the registered members of the groups other than the asking peer |
| NetworkMapLoops.MapVia | management/server/peer.go:249-283 | both together give the network map |
| ServiceStart.BuildManager | management/server/account.go:148-170 | every account gets its group All if it has none, and is saved, in some order |
| ServiceStart.Start | management/server/file_store.go:43-126 | restore followed by BuildManager is the restart of Operations |
| IndexAgreement.ExactAfterPointing | management/server/file_store.go:235-241 | pointing names at an account keeps an index exact if and only if the account drops none and takes none from another |
| IndexAgreement.SaveAgrees | management/server/file_store.go:226-275 | SaveAccount keeps all three indexes exact if and only if that holds of peers, users and setup keys |
| IndexAgreement.RemovalAgrees | management/server/peer.go:137-143 | deleting a peer and saving its account keeps the indexes exact |
| IndexAgreement.InPlaceAgrees | management/server/file_store.go:135-164 | a save that touches no index keeps them exact if and only if it brings in no new peer |
| IndexAgreement.NothingIsInTwoAccounts | management/server/file_store.go:19-27 | with exact indexes no peer, user or setup key is in two accounts |
| IndexAgreement.AddPeerAgreesExactly | management/server/peer.go:369-377 | AddPeer keeps agreement if and only if the key is not registered in another account |
| IndexAgreement.RenamePeerAgreesExactly | management/server/peer.go:104-125 | RenamePeer keeps agreement if and only if it names the account that owns the peer |
| IndexAgreement.AddAccountAgreesExactly | management/server/account.go:540-551 | AddAccount keeps agreement if and only if the id is unused or its account held nothing |
| IndexCases.AddedKeyInTwoAccounts | management/server/peer.go:369-377 | a case in which AddPeer puts a key into a second account |
| IndexCases.RenamedIntoTwoAccounts | management/server/peer.go:104-125 | a case in which RenamePeer does |
| IndexCases.AddedAccountForgets | management/server/account.go:540-551 | a case in which AddAccount under a used id leaves a user and a peer indexed to an account without them |
| IndexAgreement.RestoreRebuildsIndexes | management/server/file_store.go:66-126 | reading the accounts back rebuilds exactly the setup-key, peer and user indexes, in whatever order |
| IndexAgreement.RestartAgrees | management/server/account.go:148-170 | a restart keeps agreement |
| IndexAgreement.StepWellFormed | management/server/file_store.go:226-275 | every step keeps accounts keyed by what they hold and rules naming groups there are |
| IndexAgreement.StepAgrees | management/server/file_store.go:135-275 | every disciplined step and restart keeps agreement |
| NetworkMap.SaveCovers | management/server/file_store.go:243-264 | after SaveAccount both rule indexes hold all rules of the account, and still all of every other |
| NetworkMap.StepCovers | management/server/file_store.go:243-264 | every step keeps the rule indexes covering, as long as a save in place finds its peer in the group All |
| NetworkMap.RestoreIsExact | management/server/file_store.go:84-109 | fresh from restore the rule indexes hold exactly the current rules |
| NetworkMap.RestoreRefinesLiveStore | management/server/file_store.go:66-126 | the rebuilt store has the same key, peer and user indexes and rule indexes contained in the live ones |
| NetworkMap.SaveKeepsEntriesExactly | management/server/file_store.go:243-264 | saving keeps the exact entries of a peer exact if and only if the account drops no rule for that peer that no other account's rule of the id names it with |
| NetworkMap.SaveKeepsExactly | management/server/file_store.go:243-264 | saving keeps both rule indexes exact if and only if that holds of every peer |
| NetworkMap.RestartIsExact | management/server/account.go:163-168 | after a restart the rule indexes hold exactly the current rules |
| NetworkMap.RuleDeletionKeepsExactly | management/server/rule.go:77-89 | deleting a rule keeps exact rule indexes exact if and only if, with distinct rule ids, it named no peer |
| NetworkMap.NetworkMapLosesNoOne | management/server/peer.go:223-284 | with covering indexes, a peer with entries in both gets everyone a bidirectional rule links to it |
| NetworkMap.NetworkMapExactly | management/server/peer.go:223-284 | a peer whose own entries are exact gets exactly those, and whoever a rule id shared with another account brings in, which is nobody while ids are distinct; lacking an entry it gets nobody, and it has entries where rules name it |
| NetworkMap.NetworkMapsAreSymmetric | management/server/peer.go:249-278 | of two peers with exact entries in both indexes, each sees the other or neither does, if and only if no shared rule id shows just one of them an unlinked peer; always, with distinct ids |
| AccessListCases.OneSidedPeersSeeNoOne | management/server/peer.go:233-247 | a case in which a rule links two peers and both maps are empty |
| AccessListCases.SharedIdShowsUnlinkedPeer | management/server/file_store.go:366-414 | a case in which a rule id used in two accounts shows a peer one it is not linked to |
| AccessListCases.DeletedRuleStaysIndexed | management/server/rule.go:77-89 | a case in which the entries of a deleted rule stay in both indexes |
| AccessListCases.GroupDeletionEnabledExactly | management/server/group.go:61-73 | DeleteGroup leaves no rule without its group if and only if no rule names the group |
| AccessListCases.DeletedGroupLeavesRule | management/server/group.go:61-73 | a case in which deleting a group leaves a rule that names it |
| AccessListCases.RuleSavingEnabledExactly | management/server/rule.go:63-74 | SaveRule leaves no rule without its groups if and only if the account has all groups the rule names |
| AccessListCases.EditChangesMapAtSameSerial | management/server/rule.go:63-74 | a case in which saving a rule shows a peer another one under the same serial |
| AccessListCases.TakenOutStillSees | management/server/group.go:123-145 | a case in which a peer taken out of a group sees the other side of a rule as before, and nobody after a restart |
| LiveMaps.DeletionKeepsEntries | management/server/file_store.go:167-201 | deleting a peer keeps the exact entries of every other peer exact, with any number of groups |
| LiveMaps.DeletionKeepsIndexesExactly | management/server/file_store.go:167-201 | it keeps the indexes as a whole exact if and only if, with distinct rule ids, no rule of the account named the deleted peer |
| LiveMaps.AdditionKeepsEntries | management/server/peer.go:354-377 | registering a peer keeps the exact entries of every peer exact |
| LiveMaps.MapInAnyStore | management/server/peer.go:223-284 | whatever the indexes hold, the map is the others to whom a bidirectional rule, indexed for the peer and still there, leads |
| LiveMaps.MapAfterSave | management/server/file_store.go:243-264 | the map after a save in any store: whoever the new rules lead to, from the sides on which they are indexed for the peer or now name it |
| LiveMaps.ReachesAfterIsLinkedAcross | management/server/file_store.go:243-264 | for exact entries and distinct ids, what counts there is whom the old or the new account names |
| LiveMaps.EditsKeepSerials | management/server/rule.go:63-89 | no group or rule edit changes the network or serial of any account |
| LiveMaps.EditKeepsMapsExactly | management/server/rule.go:63-89 | a group or rule edit leaves every map of its account as it was if and only if, as rules count for each peer, it sees the same others before and after |
| LiveMaps.SeesTheSameByRules | management/server/rule.go:63-89 | that condition in terms of the old and the new groups and rules, for exact entries and distinct ids |
| LiveMaps.SaveTakesEffectExactly | management/server/file_store.go:243-264 | a save shows a peer at once what a restart would if and only if the rules, as they count now, lead to the same others as the new rules alone |
| LiveMaps.TakenOutSeesTheSame | management/server/group.go:123-145 | taking a peer out of a group leaves that peer's own map as it was, in any store |
| LiveMaps.IndexIsHistory | management/server/file_store.go:243-264 | in every run a rule is in a peer's index entry if and only if an account, as it was when the service last started or as it was saved since, had it name the peer on that side |
| LiveMaps.LiveMapInRun | management/server/peer.go:223-284 | in every run GetNetworkMap shows whoever the present rules lead to from the sides on which they have so named the peer, if it has been named on both, and otherwise nobody |
| AccountHistory.StepSucceeds | management/server/account.go:416-448 | no step removes an account or user, changes a role, creator or network, lowers a serial, or restores validity to a key |
| AccountHistory.StepCounts | management/server/peer.go:372-374 | a step raises the use count of a key by one exactly when it is a successful AddPeer with it |
| KeyHistory.StepChangesKey | management/server/setupkey.go:56-83 | what every operation and restart makes of a key: a registration counts and dates its use, a revocation and a renaming write what they say to the key with the hash they name, nothing else touches it |
| KeyHistory.KeysAreMadeExactly | management/server/setupkey.go:86-104 | a key comes into an account exactly by AddSetupKey, with the type, name and expiry asked for, or with a new account, which starts with a reusable and a one-off key for thirty days |
| KeyHistory.KeyInRun | management/server/setupkey.go:16-63 | in every run a key is revoked if it was or a revocation has picked it since, its use count is the number of registrations with it, its name and last use are the last given, and everything else of it stays |
| KeyHistory.MadeKeyInRun | management/server/account.go:173-201 | from the step that makes it a key keeps its type and expiry, and is valid up to its expiry unless it was revoked or, being one-off, used; a reusable one however often it was used |
| KeyHistory.MadeOneOffUsedOnce | management/server/setupkey.go:81-83 | a key asked for as one-off, or the one-off key of a new account, registers at most one peer at any moment of the run |
| KeyHistory.KeyHasOrigin | management/server/setupkey.go:86-104 | every key there is was made by a step of the run |
| AccountAnswers.LookupsFindHolders | management/server/file_store.go:204-223 | looking up a peer, a user or a setup key finds the account that has it, and fails exactly when none has |
| AccountAnswers.GetOrCreateAnswer | management/server/user.go:53-84 | a user in an account is led there, and the account gets the domain in lower case; anyone else gets a new account, given in full |
| AccountAnswers.AddAccountAnswer | management/server/account.go:533-551 | the account made, given in full, under the id and domain given and without users |
| AccountAnswers.PrivateClaimsAnswer | management/server/account.go:386-448 | a known user stays, the account becoming primary for the domain unless the domain has another; anyone else joins the domain account as a regular user, or gets a new primary account, given in full |
| AccountAnswers.PrivateClaimsMembership | management/server/account.go:467-510 | private claims are answered with an account that has the user afterwards; with the id of an account they fail, changing nothing, if and only if the user is not in it |
| AccountAnswers.PrivateClaimsEffect | management/server/account.go:483-510 | with the id of the user's account they do nothing if it is private already, and otherwise what the same claims do without the id |
| AccountAnswers.OtherClaimsAnswer | management/server/account.go:274-292 | other claims with an account id lead to that account if there is one and change nothing; without an id they are a lookup by user, and fail without a user |
| AccountAnswers.AnswerHasUserExactly | management/server/account.go:467-510 | the account claims are answered with has the user afterwards, if and only if the claims are private, carry no account id, or name an account that has the user |
| AccountAnswers.PrivateClaimsInRun | management/server/account.go:467-510 | in every run private claims lead to an account that has the user then and ever after, and fail with an account id if and only if the user is not in it |
| Answers.CaseOnly | management/server/peer.go:301 | upper and lower case change letters only, all of them, and identify texts that differ in case only |
| Answers.CaseDoesNotMatter | management/server/file_store.go:277-306 | setup keys and domains are the same in any case |
| Answers.LocatedExactly | management/server/peer.go:301-341 | the account for a new peer is the one that has the valid key, or the user when no key is given; each way of failing has its error |
| Answers.AddPeerAnswer | management/server/peer.go:293-383 | AddPeer answers with the peer as requested, at a free address, exactly when a valid key or a known user leads to an account with a free address and a group All, and the account with the peer is given in full; every failure has its error and changes nothing |
| Answers.DeletePeerAnswer | management/server/peer.go:128-146 | DeletePeer answers with the peer exactly when the account has it; nobody has it then, the serial is one up, and the rest of the account and all others stay |
| Answers.InPlaceAnswers | management/server/peer.go:79-125 | a rename, a status change and new metadata answer with the peer as it is then stored exactly when it is registered in an account with a group All; without the group only the status is written |
| Answers.KeyAnswers | management/server/account.go:173-257 | the setup-key operations answer with the key as it is then stored, and fail exactly when the account, or a key of it with the id, is missing, changing nothing |
| Answers.EditAnswers | management/server/group.go:47-145 | a group or rule edit succeeds exactly when its account, and the group whose members it changes, are there; it then changes the one group or rule as asked and nothing else |
| Answers.RestartAnswer | management/server/account.go:148-170 | a restart leaves every account as it is, but those without groups get the group All of all their peers and the Default rule |
| Addresses.AsManyIpsAsPeers | management/server/peer.go:343-346 | peers with distinct addresses are as many as their addresses |
| Addresses.AddPeerOutOfRangeExactly | management/server/peer.go:348-352 | a request with a good key or user is out of range exactly when the account is at its network's capacity |
| Addresses.StepAddresses | management/server/peer.go:343-371 | every disciplined step keeps the addresses of every account distinct and usable |
| PrivateDomains.SavePrimariesExactly | management/server/file_store.go:270-272 | saving keeps every private primary the one its domain's entry names, if and only if it is not made primary over another |
| PrivateDomains.StepPrimariesExactly | management/server/user.go:75-81 | a step breaks that if and only if it is a lookup that moves a primary onto a taken domain |
| PrivateDomains.RestoreDomainsExactly | management/server/file_store.go:119-122 | reading the accounts back enters exactly the domains, other than the empty one, that have a private primary, each with one of those |
| PrivateDomains.LookupCanMakeTwoPrimaries | management/server/user.go:75-81 | a restored store on which it does, with two primaries of one domain afterwards |
| PrivateDomains.OnePrimaryPerDomain | management/server/account.go:478-482 | with that invariant two private primaries of one domain are the same account |
| Effects.AddedPeerIsFound | management/server/peer.go:354-382 | a registered peer is found at once with a free address; serial and key use are up by one; nobody else has changed |
| Effects.DeletionUndoesRegistrationExactly | management/server/file_store.go:181-193 | deleting a new peer gives the account back, but for a serial two higher and the use of the key, if and only if no group but the last one visited had members, as with one group |
| Effects.InPlaceOpsFrame | management/server/peer.go:79-125 | a rename, status change or new metadata writes one field of one peer (an empty UI version keeps the old one) and otherwise at most the group All; no index, serial, key, rule, user or other account changes, and while peers are found in All no network map does |
| Effects.RevokedForEver | management/server/account.go:219-221 | a revoked key is invalid in every later state at every time |
| Effects.NewKeyIsValidUntilExpiry | management/server/setupkey.go:65-99 | a generated key is found through the index at once and is valid exactly up to its expiry |
| Effects.JoiningUserIsRegular | management/server/account.go:424-432 | a user joining the account of a domain is found there at once as a regular user, and nothing else of the account changes |
| Effects.GroupDeletionUndoesAddition | management/server/group.go:94-145 | taking a peer out of a group it was just put into gives the accounts back |
| Effects.RuleDeletionUndoesSaving | management/server/rule.go:63-89 | deleting a new rule gives the accounts back, while the rule indexes have gained exactly that rule for exactly the peers it named |
| Runs.RunAgrees | management/server/file_store.go:226-275 | in every reachable state a key, user or setup key is indexed to an account exactly when that account holds it |
| Runs.MembershipIsStable | management/server/account.go:416-448 | a user once in an account is found there for ever, with the role first given |
| Runs.LookupsFindMember | management/server/account.go:487-510 | every lookup of a user who is in an account leads to that account, then and later |
| Runs.LookupsReturnFirstAccount | management/server/account.go:467-510 | from a user's first lookup on, by claims without an account id or directly, every lookup leads to the account the first one returned |
| Runs.IdInClaimsOnlyChecks | management/server/account.go:467-510 | private claims with an account id change nothing, or do what the same claims without the id do |
| Runs.CreatorStaysAdmin | management/server/user.go:53-84 | whoever a lookup, by claims or direct, made an account for is its creator and stays its administrator |
| Runs.UseCountIsUses | management/server/setupkey.go:58-63 | the use count of a key is the number of successful registrations with it, whatever comes between |
| Runs.OneOffUsedAtMostOnce | management/server/setupkey.go:81-83 | a one-off key registers at most one peer ever |
| Runs.InvalidKeyStaysInvalid | management/server/setupkey.go:65-83 | a key once invalid is invalid in every later state and at every later time |
| Runs.AddressesAreUniqueAndUsable | management/server/network.go:96-114 | in every reachable account addresses are distinct, in the network, not ending in 0, and for a prefix of at most 24 never the lowest host or the broadcast address |
| Runs.AllocationFailsExactlyAtCapacity | management/server/peer.go:343-352 | over any mix of operations allocation fails exactly when as many peers are registered as the network holds: for a prefix p of at most 24, 255 * 2^(24-p) - 2, or one less for a network named by an address not ending in 0 |
| Runs.OnePrimaryPerPrivateDomain | management/server/account.go:386-448 | at most one primary per private domain in every run without the move that breaks it |
| Runs.RunRestoresAndLosesNoOne | management/server/file_store.go:66-126 | in every run whose peers stay in the group All, restoring refines the live store and no network map loses a linked peer |
| Engine.SliceDiff | util/common.go:4-16 | the elements of one list that are not in the other, in order and with repetitions |
| Engine.DiffPiecewise | util/common.go:4-16 | lists are differenced piece by piece, and of one element what is kept is that element exactly when the other list has it not |
| Engine.Client.RemovePeer | client/internal/engine.go:255-272 | the connection, if there is one, is dropped and closed |
| Engine.Client.RemoveAllPeers | client/internal/engine.go:243-253 | all connections are dropped and closed |
| Engine.Client.RemovePeers | client/internal/engine.go:220-241 | exactly the connections of keys not in the map are dropped and closed |
| Engine.Client.AddNewPeers | client/internal/engine.go:468-484 | a connection for every key without one, for the addresses listed with it (`EngineRoutes.AddNewRoutes`), up to the first that is no WireGuard key |
| Engine.Client.UpdateNetworkMap | client/internal/engine.go:436-466 | the engine after a map and whether it failed; `EngineRoutes.UpdateRoutes` says what both are |
| Engine.Client.Stop | client/internal/engine.go:117-124 | all connections are dropped and closed, and the serial stays |
| Engine.StoppedEngine | client/internal/engine.go:117-124 | a stopped engine has no connections, and closed those it had |
| Engine.UpdateConns | client/internal/engine.go:436-484 | a map not outdated leaves exactly its keys connected, keeps the objects of keys that stay, closes exactly those that go, and never reuses an object |
| EngineRoutes.AddNewRoutes | client/internal/engine.go:468-484 | every new connection is for the addresses of the first entry of its key, also when a later key stops the loop |
| EngineRoutes.AddNewStops | client/internal/engine.go:468-484 | a failing addNewPeers has made the connections of exactly the entries before the first new key that is no WireGuard key |
| EngineRoutes.UpdateRoutes | client/internal/engine.go:436-484 | what any map does to any engine: connections still listed stay as they are, new ones are for the addresses listed, it fails exactly at a new key that is no WireGuard key, and then the serial stays |
| EngineRoutes.ConnectionsAreRouted | client/internal/engine.go:436-484 | after any sequence of maps, failing ones too, each connection is for the addresses of the map that brought the peer in, and has been there since |
| EngineRoutes.ConnectionsFollowAddresses | client/internal/engine.go:436-484 | if the maps list each peer with the same addresses throughout, every connection is for those, in whatever order the maps come |
| EngineRoutes.NewAddressIsMissed | client/internal/engine.go:474-480 | a case in which a newer map has another address for a peer and the connection keeps the old one |
| Engine.SerialNeverDecreases | client/internal/engine.go:438-441 | no map lowers the serial, applied or not |
| Engine.OrderIndependence | client/internal/engine.go:436-484 | any nonempty sequence of one server's maps, in any order and repetition, ends with the peers of the largest serial |
| Engine.SerialGrowsAlongTheWay | client/internal/engine.go:464 | along any sequence the serial only grows |
| FullMesh.MeshMap | management/server/peer.go:249-278 | in an account with the group All and the Default rule every peer sees exactly all the others |
| GroupCleanup.CleanedLists | management/server/file_store.go:185-193 | after DeletePeer the i-th group visited holds, in order, what the first i + 1 groups keep without the deleted key; the other groups stay |
| GroupCleanup.CleanedMembers | management/server/file_store.go:185-193 | a peer is in the i-th group visited if and only if it is not the deleted one and was in one of the first i + 1 groups |
| GroupCleanup.CleanIsFilterExactly | management/server/file_store.go:185-193 | the clean-up removes the key from each group and changes nothing else if and only if no group but the last one visited holds another peer |
| GroupCleanup.EveryOrderFiltersExactly | management/server/file_store.go:185-193 | it does so in every order of visiting if and only if there is at most one group or no group holds another peer |
| GroupCleanup.SomeOrderFiltersExactly | management/server/file_store.go:185-193 | and in some order if and only if at most one group holds another peer |
| GroupCleanup.CleanSingleGroup | management/server/file_store.go:185-193 | with one group the clean-up of DeletePeer is an exact filter |
| GroupCleanup.CleanupSpreadsMembers | management/server/file_store.go:185-193 | a case of two groups in which each order of visiting puts a peer into a group it was not in |
| FullMesh.StepKeepsMesh | management/server/peer.go:293-383 | every step that does not edit the account's groups or rules keeps it so; the serial moves by one, or stays and with it the peer set |
| FullMesh.NewAccountIsMesh | management/server/account.go:554-573 | accounts made by lookups without private claims start so, empty, with serial 0 |
| UpdateChannel.Channel.Send | management/server/updatechannel.go:29-31 | a message goes to the end of the buffer, after waiting for the receiver when there is no room |
| UpdateChannel.Channel.Receive | management/server/grpcserver.go:119-124 | messages come out in the order sent, also after the close, and only then the end is reported |
| UpdateChannel.PeersUpdateManager.SendUpdate | management/server/updatechannel.go:26-35 | one more message for a peer with a channel, none for anyone else, never on a closed channel |
| UpdateChannel.PeersUpdateManager.CreateChannel | management/server/updatechannel.go:38-52 | a new empty channel takes the place of the old one, which is closed with what it had been sent |
| UpdateChannel.PeersUpdateManager.CloseChannel | management/server/updatechannel.go:55-64 | the channel is closed once and forgotten; the others stay |
| UpdateChannel.PushAllTells | management/server/peer.go:172-197 | a loop over a list without repetitions gives each peer on it exactly one message |
| ManagementServer.ToRemotePeerConfig | management/server/grpcserver.go:375-385 | each peer becomes its key and its host route, in order; the routes read back as the addresses (`ManagementServer.RemotePeersReadBack`) |
| HostRoutes.HostRouteReadsBack | management/server/grpcserver.go:33 | every host route, read as dotted decimals with a prefix length, is the address it was written for and 32 |
| HostRoutes.InterfaceAddressReadsBack | management/server/grpcserver.go:369-373 | the address a peer is given for itself reads back as that address and 16 |
| ManagementServer.RemotePeersReadBack | management/server/grpcserver.go:375-385 | entry i on the wire has the key of peer i and reads back as its address, in the order of the list |
| Routing.RoutesAreDistinct | management/server/grpcserver.go:375-385 | in every run two entries of a list of registered peers have the same route exactly when they are of the same peer, and each reads back as the address the peer has |
| Routing.InterfaceReachesAccount | management/server/grpcserver.go:369-373 | in every run the interface address of a peer takes in all peers of its account, as long as the network has a prefix of at least 16, as generated ones do |
| Routing.RegistrationIsReported | management/server/grpcserver.go:191-213 | registerPeer reports a known key that does not admit, and an account without a free address, as such, and every other failure as not found |
| ManagementServer.WireKeys | management/server/grpcserver.go:387-406 | the map on the wire has exactly the keys of the list, and its emptiness flag agrees with it |
| ManagementServer.PeersToSend | management/server/grpcserver.go:224-229 | the inner loops list the peers with another key, after the new one if there is one |
| ManagementServer.Server.NotifyEach | management/server/grpcserver.go:222-236 | the outer loops send each peer of the list its own map |
| ManagementServer.Server.DeletePeer | management/server/peer.go:128-201 | each peer that stays gets exactly one map, the removed peer's stream gets the empty one and is ended, and each is a message of the protocol |
| ManagementServer.Server.FanOut | management/server/grpcserver.go:215-236 | each peer in the new peer's map is sent the new peer and the rest of that map |
| ManagementServer.Server.RegisterPeer | management/server/grpcserver.go:191-239 | AddPeer with its errors as reported, and on success the fan-out in the new state |
| ManagementServer.Server.OpenStream | management/server/grpcserver.go:91-112 | the first map is the peer's own view, the channel comes after it, and an unregistered peer is refused |
| ManagementServer.Server.CloseStream | management/server/grpcserver.go:140-151 | the channel registered under the peer's key is closed with what it had been sent, whichever stream made it, and the peer is marked disconnected |
| ManagementServer.RegisteredIsFound | management/server/grpcserver.go:215-219 | the map of a peer just registered can always be read |
| SyncProtocol.FanOutIsOwnView | management/server/grpcserver.go:221-236 | in an account as created, what registerPeer pushes to a peer is, as a set of keys, what that peer's own GetNetworkMap would return |
| SyncProtocol.DeletionIsOwnView | management/server/peer.go:166-197 | so is what DeletePeer pushes to each remaining peer |
| SyncProtocol.DeletionIsOwnViewExactly | management/server/peer.go:172-197 | in any account and store DeletePeer pushes no less than the peer's own view, and exactly it if and only if the peer sees all the others |
| SyncProtocol.DeletionPushByRules | management/server/peer.go:128-201 | after DeletePeer, for a peer whose entries were exact before: if and only if there are no others, or rules name it on both sides and link it to every other |
| SyncProtocol.FanOutIsOwnViewExactly | management/server/grpcserver.go:221-236 | in any account and store registerPeer pushes the recipient's own view if and only if it sees the new peer and otherwise the same peers as that one |
| SyncProtocol.RegistrationPushByRules | management/server/grpcserver.go:191-239 | after AddPeer, for peers whose entries were exact before: if and only if rules name the recipient on both sides and link the two to the same others |
| SyncProtocol.EditKeepsOneServerExactly | client/internal/engine.go:436-466 | maps read before and after an edit have one serial, and may be taken in any order if and only if the edit left the map as it was |
| PushCases.DeletionPushExceedsOwnView | management/server/peer.go:172-197 | a peer is deleted, and another is pushed a third one that its own map does not show |
| PushCases.RegistrationPushExceedsOwnView | management/server/grpcserver.go:221-236 | a peer is registered, and another is pushed it and a third one that its own map does not show |
| PushCases.EditsBreakOneServer | management/server/rule.go:63-74 | maps of one serial read before and after a rule was saved that carry different peers |
| SyncProtocol.NextKeepsInv | client/internal/engine.go:436-484 | every step of server, network and clients keeps the protocol invariant |
| SyncProtocol.SnapshotConsistency | client/internal/engine.go:436-484 | in every behaviour an engine that has applied a map has a serial the server has reached and is connected to exactly the peers of that serial but itself, or to none if it was not registered then; a stopped engine may have no connections instead; every connection routes to an address its peer had at that serial or before |
| SyncProtocol.RoutesAreCurrent | client/internal/engine.go:436-484 | while a peer keeps its address, every connection to it in any behaviour routes to that address |
| SyncProtocol.HistoryIsTrue | management/server/network.go:48-53 | the history those peers and addresses are read from is what the server held at the moments of those serials |
| PeerConn.StepKeepsInv | client/internal/peer/conn.go:150-244 | every step of worker, callers and callbacks keeps the connection invariant |
| PeerConn.CrashesExactly | client/internal/peer/conn.go:379-384 | nothing is called through a nil agent, proxy or cancel function, but by the callback of an agent replaced without being closed while no cancel function is set |
| PeerConn.NeverCrashes | client/internal/peer/conn.go:316-320 | so never as long as every agent closes |
| PeerConn.UnclosedAgentCallsNil | client/internal/peer/conn.go:379-384 | a case in which an agent whose close failed calls a nil cancel function after a second Open |
| PeerConn.ClosesMatchOpens | client/internal/peer/conn.go:421-443 | every Close that returns nil matches exactly one Open that returns the closed error |
| PeerConn.CleanupClearsExactly | client/internal/peer/conn.go:311-342 | cleanup clears status, agent, proxy and cancel exactly when nothing it closes reports an error, and otherwise stops at what failed |
| PeerConn.OutsideOpenClearedExactly | client/internal/peer/conn.go:150-159 | outside Open the connection is cleared exactly when the last cleanup could close what there was |
| PeerConn.Lifecycle | client/internal/peer/conn.go:282-342 | when closing never fails, Connected means agent and proxy set and the worker past startProxy, and outside Open the connection is Disconnected and empty |
| PeerConn.FailedCleanupLeavesConnected | client/internal/peer/conn.go:316-320 | a case in which a closed connection keeps saying Connected |
| ConnPaths.PathsLead | client/internal/peer/conn.go:150-244 | at every moment of every run, what the worker has done since its Open began is one of the paths that lead to where it is, each error with its cause |
| ConnPaths.OffersAreAnswered | client/internal/peer/conn.go:177-184 | as many answers are sent as offers were accepted, but for the one that the worker is about to answer |
| ConnPaths.ConnectingIsConfirmed | client/internal/peer/conn.go:167-199 | whenever a connection begins to be made, the offer was sent since the Open began, and an answer was accepted while the worker waited or an answer was sent |
| ConnPaths.StatusFollowsEvents | client/internal/peer/conn.go:195-342 | the status is what the events make it, and while a connection is made or kept its context is done exactly when a callback has reported since the context was made |
| ConnObject.Conn.ReCreateAgent | client/internal/peer/conn.go:109-145 | the step of the machine, agent set or not as creation succeeds |
| ConnObject.Conn.SendOffer | client/internal/peer/conn.go:405-418 | the step of the machine; on an error Open is on its way out |
| ConnObject.Conn.SendAnswer | client/internal/peer/conn.go:386-402 | the step of the machine; on an error Open is on its way out |
| ConnObject.Conn.OnRemoteOffer | client/internal/peer/conn.go:454-465 | accepted exactly when the worker waits for a confirmation |
| ConnObject.Conn.OnRemoteAnswer | client/internal/peer/conn.go:469-480 | accepted exactly when the worker waits for a confirmation |
| ConnObject.Conn.Close | client/internal/peer/conn.go:421-443 | nil exactly when the worker waits at a select, which it then leaves with the closed error |
| ConnObject.Conn.OnIceDown | client/internal/peer/conn.go:379-384 | the cancel function is set when it is called, and a waiting worker is woken |
| ConnObject.Conn.OnOlderIceDown | client/internal/peer/conn.go:379-384 | the same step by an agent replaced without being closed, while a cancel function is set |
| ConnObject.Conn.SetConnecting | client/internal/peer/conn.go:195-199 | the step of the machine: Connecting, with a new context |
| ConnObject.Conn.StartProxy | client/internal/peer/conn.go:282-308 | the step of the machine, for a missing pair, a proxy that fails to start, and success |
| ConnObject.Conn.Cleanup | client/internal/peer/conn.go:311-342 | the step of the machine; the result says whether anything failed to close |
| ConnObject.Conn.Open | client/internal/peer/conn.go:150-244 | the worker with others interfering between any two sections is a run of the machine; it returns an error to which the path it took leads, and the closed error exactly when the run counts one more |
| Strings.SplitPieces | signal/client/client.go:33 | splitting gives one piece more than there are separators, and joining gives the text back |
| CredentialCodec.UnMarshalsExactly | signal/client/client.go:31-41 | parsing succeeds exactly on payloads with one colon, and gives what is before and what is after it |
| CredentialCodec.MarshalAfterUnMarshal | signal/client/client.go:31-53 | whatever parses is printed back as it was |
| CredentialCodec.RoundTripExactly | signal/client/client.go:31-53 | parsing what was printed gives the credential back if and only if neither field contains a colon, and fails otherwise |
| CredentialCodec.IceFieldsRoundTrip | signal/client/client.go:31-53 | fields of ICE characters (section 5.4 of RFC 8839) always survive |

## Left out

- Persistence: writing the accounts and reading them back is the identity and never fails; mutations are made in memory before it.
- Generated identifiers, networks and the clock are inputs; new setup keys and account ids are assumed unused.
- `Network.Serial` is a natural number here; the wrap-around of its 64 bits is not modelled.
- Slices that share a backing array: after DeletePeer with several groups, a later append to one group may write into another group's array. Lists are values here.
- Group and Rule pointers that callers keep after SaveGroup or SaveRule: the store holds values, so later writes through such pointers are not modelled. Account records are shared objects, as in the code.
- SaveGroup and SaveRule on an account made from private claims, whose group and rule maps are nil, fail in the code until a restart; here the maps are empty and the calls succeed, so more runs are covered than the code has.
- strings.ToUpper and strings.ToLower are modelled on ASCII letters.
- Exclusion by printed addresses is modelled as a set of addresses.
- AccountManager.Manager.DeleteGroup: after a panic the index entries that SaveAccount made before it are left open, and what later calls do on the account with the dangling rule is not modelled.
- AccountManager.Manager.SaveRule: the same two things are left open after a panic.
- ManagementServer.Server.RegisterPeer: runs AddPeer and the reading of the new peer's map without a gap, while the code releases the mutex in between; `SyncProtocol.Next` has them as two steps with anything in between.
- ManagementServer.Server.OpenStream: runs its reading, sending and marking without a gap; in `SyncProtocol.Next` the first map is a step of its own and streams lose and reorder what comes later.
- UpdateChannel.PeersUpdateManager.SendUpdate: does not model that a full channel blocks all senders, as the registry's mutex is held during the send.
- PeerConn.CrashesExactly: assumes that no state callback of an ICE agent comes after the agent is closed.
- ConnObject.Conn.Open: its runs end where a callback of a replaced agent would panic.
- AccountManager.Manager.GetAccountWithAuthorizationClaims: is one step, while the code, for claims with an account id, reads the account in one critical section, looks at its users outside, and acts in a second section; from there on it does what the same claims without the id do (`Runs.IdInClaimsOnlyChecks`), which runs have as steps of their own.
- UpdateChannel.Channel.Send: does not model how long a send to a full channel blocks; it takes one message out first, as the stream would. Delivery itself is not claimed: Sync reads the first map before it creates the channel, so an update in between reaches nobody.
- A connection of the engine can fail to be made only because its key does not parse; other failures of createPeerConn are not modelled.
- That two Conn objects can exist for one peer, as the comment at client/internal/peer/conn.go:428-439 describes; the model is of one object and one worker.
- The choice between proxy and direct connection (shouldUseProxy, IsPublicIP), a finite table.
- Of a sync response the network map is modelled, and the interface address as text; the STUN, TURN and signal settings in it are not.
- gRPC, HTTP handlers, JWT validation and the identity provider, whose update is taken to succeed; TURN credentials, encryption, WireGuard devices, proxies and the ICE agent itself.
- GetPeerByIP, the listing operations and the Copy methods, which would add only easy members.
