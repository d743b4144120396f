# Verified model of the gateway group's configuration core

A gateway group keeps its NVMe-oF configuration in one versioned key/value object (an OMAP). Every gateway
has a copy of it, writes it by compare-and-set under a lock, and catches up by replaying the difference to its
SPDK target. On top of that run a load balancer for ANA groups, three ways to share RADOS cluster contexts
between block devices, the propagation of ANA states to listeners, a list of users kept in each RBD image's
metadata, and the discovery controller's byte stream. This project models these parts in Dafny and proves what
they keep. `dafny verify dfyconfig.toml` checks all of it.

The modules, in the order in which they build on each other:

- `Text`: delimited text and decimal numbers.
- `StateKeys`, `StateOps`: the state keys as strings and as structured keys, the cascading removals on both,
  and the two halves (OMAP and local copy) of every handler call.
- `GatewayState`: the two state stores as classes, with the compare-and-set writes and the paged reader.
- `Protocol`: the replication protocol of any number of gateways as interleaved steps over a log of writes.
  `Progress`: what the group can always do: requests that are refused or finished, locks that are given up, gateways
  that catch up. `Drift`: one run after which a gateway's copy is not the shared state.
- `OmapLock`: the lock as the threads of one process use it, with booking and RADOS calls as separate steps.
- `Replay`, `ReplayUpdate`: what an update sends and what the target then holds. `Replay` is the meaning of
  the requests and the convergence theorem, `ReplayLaws` says what single requests and differences come to in terms
  of the stored fields, `ReplayUpdate` has the dictionaries and loops of the source.
- `Loads`, `Rebalance`: the load counters and the rebalancer, as arithmetic and as the service's methods.
- `Clusters`: the allocators, and block device creation and deletion on top of them.
- `Ana`: ANA states, listeners and the OSD map barrier.
- `ImageIds`: the image identification codec. `Framing`: the receive buffer of the discovery controller.

Outside systems enter as assumed contracts: RADOS write operations are atomic, the RADOS lock excludes as it
should and does not expire while held, and a call to SPDK, RBD or the monitor either succeeds or fails without
effect. Their answers are parameters, so every statement holds for all of them. Loops over dictionaries and sets
take the elements in any order.

Where the code does less than its documentation or a first reading suggests, the model follows the code:

- A replay loses keys. If some key of a prefix has to be deleted and added again, the removed and the new keys of
  that prefix are forgotten (`Replay.FlatReplayConverges`, `Replay.CollisionLoses`, `Replay.CollisionExample`). Hosts
  are sent before the subsystem's key and the namespace's visibility change, so hosts that only fit the new key, and
  hosts of a namespace that turns hidden, are refused (`Replay.KeyChangeLosesHosts`, `Replay.HidingLosesHosts`). A
  host added to a namespace without force is refused when it has lost its access to the subsystem since
  (`Replay.UnforcedHostIsLost`). A QoS request leaves the limits it does not name, so old ones can stay
  (`Replay.UnnamedLimitsStay`, `Replay.LimitsExample`). Deleting a subsystem leaves the block devices of namespaces
  that were not removed before, and a namespace with the UUID of one of them is refused (`Replay.TakenNameIsLost`,
  `Replay.TakenOverExample`). `Replay.ReplayConverges` gives the exact condition under which the target ends up
  as the shared state describes it, and `Replay.CleanWithoutCollision` says it in terms of the two states.
- A change in place is the same as deleting and adding again, except that it cannot change a key of the host entry
  `*` or take a host's key away while its subsystem has one, and that it sets the trash flag even for an image the
  gateway did not create (`Replay.InPlaceIsReAdd`).
- The handlers look a namespace up on their own target, which can keep one that the shared state no longer has
  (`Replay.StaleNamespaceStays`). Deleting it there erases keys from the OMAP that the gateway's own copy keeps,
  and the gateway takes its copy for current (`Drift.CopiesCanDrift`). A copy is exactly the history as long as
  every removal found its head key stored or nothing that depends on it (`Protocol.ReplicaIsHistoryExactly`).
- Removing namespace 1 also erases the QoS keys of namespaces 10 to 19, 100 and so on
  (`StateKeys.NamespaceCascadeExact`, `StateKeys.NamespaceOneErasesQosOfTen`).
- The `break_*` functions never reject a key because of its NQN (`StateKeys.BreakAcceptsExactly`).
- The load counters go wrong exactly when a failed create request takes listed namespaces off the list, when a
  subsystem with listed namespaces is deleted, or when an unlisted namespace is moved
  (`Rebalance.GatewayService.CreateNamespace`, `DeleteSubsystem`, `Rebalance.MovedCountedExactly`).
- The rebalancer can stop at loads such as (4, 1, 1, 1) (`Loads.StuckExactly`, `Loads.QuiescenceBoundIsTight`).
- Once a context of the pool was not unregistered on its last release, no later request is ever given it, and while
  it is the first least used one every request for a context fails (`Clusters.LeftOverForEver`).
- Setting an image identification is idempotent only when no component is missing
  (`ImageIds.SetIsIdempotentExactly`).

## Model

| member | source | states |
|---|---|---|
| Text.SplitJoin | control/state.py:34-52 | Splitting joined delimiter-free elements gives exactly the elements back |
| Text.JoinSplit | control/grpc.py:668-677 | Joining what any text splits into gives the text back |
| Text.PrefixByParts | control/state.py:156-168 | A `startswith` test against whole parts and a trailing part selects exactly the texts whose parts begin so |
| Text.DecimalPrefix | control/state.py:81-85 | One decimal number is a textual prefix of another exactly when the other has further digits after it |
| Text.ParsesDigits | control/state.py:1304-1363 | A number is parsed from exactly the texts of one or more digits |
| StateKeys.SplitOfText | control/state.py:54-134 | A built key of any family splits into exactly its elements |
| StateKeys.TextsOfKeys | control/state.py:54-95 | The text of every stored key but listeners and namespace hosts, character by character |
| StateKeys.TextOfNsHost | control/state.py:88-95 | The text of a namespace host key |
| StateKeys.TextOfListener | control/state.py:113-134 | The text of a listener key |
| StateKeys.TextsOfMadeUpKeys | control/state.py:60-80 | The texts of the keys an update makes up |
| StateKeys.TextInjective | control/state.py:54-134 | Two delimiter-free keys with the same text are the same key, within and across families |
| StateKeys.FamiliesDisjoint | control/state.py:1667-1674 | No text starts with the prefixes of two families, so grouping by prefix partitions any dictionary |
| StateKeys.FamilyByPrefix | control/state.py:1667-1674 | A built key starts with the prefix of its own family and no other |
| StateKeys.BreakAcceptsExactly | control/state.py:1304-1363 | The parsers accept exactly the texts of the builder's shape; nothing about the NQN is checked |
| StateKeys.BreakInvertsBuild | control/state.py:1304-1363 | The parsers return exactly the elements a key was built from |
| StateKeys.SubsystemCascadeExact | control/state.py:195-217 | Removing a subsystem erases exactly that NQN's persisted keys, even when one NQN is a prefix of another |
| StateKeys.VersionSurvives | control/state.py:195-217 | No cascading removal touches the version key |
| StateKeys.NamespaceCascadeExact | control/state.py:156-168 | Removing a namespace erases exactly its host keys and the QoS keys whose decimal ID extends its own |
| StateKeys.NamespaceCascadeIsLocal | control/state.py:156-168 | The removal is local to the namespace exactly when no other namespace's ID with QoS extends it |
| StateKeys.NamespaceOneErasesQosOfTen | control/state.py:156-168 | A concrete state in which removing namespace 1 erases the QoS key of namespace 10 |
| StateOps.HalvesAgree | control/state.py:1066-1126 | The OMAP half and the local half of a handler call have the same result exactly when the removed head key is stored, or removing it changes nothing |
| StateOps.HalvesCanDisagree | control/state.py:1066-1126 | Outside that condition the two halves of one call really differ |
| StateOps.HalvesAgreeText | control/state.py:1066-1126 | The same condition for the two halves on stored strings, for every operation and every map |
| StateOps.WhatRemains | control/state.py:151-250 | What each of the five kinds of operation leaves at every key, constructor by constructor, and when the local half raises |
| StateOps.WhatRemainsOfTexts | control/state.py:151-250 | The same for every stored string, with the prefixes written out |
| StateOps.TextsThatRemain | control/state.py:151-250 | Of the strings of a structured state an operation erases those of just these keys: removing a host takes no other host |
| StateOps.OpKeepsClosed | control/state.py:151-250 | An operation that fits the shared state (its parent, or the namespace to delete, is stored) keeps the state closed under parents, and its two halves agree |
| StateOps.MissingNamespaceDiverges | control/state.py:1071-1074 | Deleting a namespace that is not stored can leave OMAP and local copy different, even when the state is closed |
| StateOps.StringsRefineKeys | control/state.py:151-250 | The operations on stored strings are exactly the operations on structured keys, for both halves, and raise in the same cases |
| GatewayState.LocalGatewayState.Perform | control/state.py:151-250 | A handler call on the local copy is the whole operation, or nothing when the head key is missing |
| GatewayState.GetOmapVals | control/state.py:816-836 | A server page: the next keys in order after a given one, of any length, and empty only when none is left |
| GatewayState.OmapGatewayState.AddKey | control/state.py:913-938 | Writes an entry and the next version if the stored version is the gateway's, and otherwise nothing |
| GatewayState.OmapGatewayState.RemoveKey | control/state.py:940-965 | Removes an entry and writes the next version if the stored version is the gateway's, and otherwise nothing |
| GatewayState.OmapGatewayState.ReadOmapValues | control/state.py:816-836 | Whatever page sizes the server chooses, the reader returns exactly the stored map after at most one call per key and one more |
| GatewayState.OmapGatewayState.EraseCascade | control/state.py:156-217 | The removal loop erases exactly the chosen keys, one version each, or nothing when the gateway is behind |
| GatewayState.OmapGatewayState.Perform | control/state.py:151-250 | With the current version, a handler call leaves exactly the operation's result and consumes one version per write |
| GatewayState.GatewayStateHandler.Perform | control/state.py:1066-1126 | One call with a current version brings OMAP and local copy each through its half, whether or not the head key is stored; equal copies stay equal exactly under the condition of `StateOps.HalvesAgreeText`; a stale gateway changes neither |
| Protocol.StepKeepsInv | control/state.py:437-570 | Every step of every gateway keeps the protocol invariant, whatever operations the gateways are asked for |
| Progress.BehindIsRefused | control/state.py:559-570 | A gateway that is behind and takes the lock is, with the version check, as it was before, and so is all the rest |
| Progress.CheckDecides | control/state.py:559-570 | In every run the version check of the lock holder releases the lock and idles its request thread when it is behind, keeps both when it is current, and changes nothing else |
| Progress.LockIsFreeExactly | control/state.py:437-500 | In every run the exclusive lock can be taken exactly when no gateway serves a request or reads |
| Progress.SharedLockIsFreeExactly | control/state.py:692-714 | And the shared one exactly when no gateway serves a request |
| Progress.RequestCanBeServed | control/state.py:1066-1126 | A current gateway can serve every operation: the OMAP becomes its result, the copy its local half, the version grows by the writes, and all is idle again |
| Progress.SectionCanBeLeft | control/state.py:595-622 | From every state of every run the gateway in the exclusive section can leave it by its own steps |
| Progress.BehindCanCatchUp | control/state.py:1393-1665 | A gateway that is behind can catch up whenever no gateway serves a request |
| Progress.GroupCanComeToRest | control/state.py:1376-1665 | Every run can be continued until no lock is held, no thread is busy and every gateway is current; its copy is then the OMAP if all operations have agreed |
| Protocol.ReplicaIsHistory | control/state.py:1393-1418 | In every run a gateway's version is at most the OMAP's and the OMAP is the history at its version; while every operation begun on a copy has agreed, each copy is the history at its version whenever it is not between the halves of a write |
| Protocol.ReplicaIsHistoryExactly | control/state.py:1066-1126 | In a run all copies are the history all along if and only if every operation whose local half has begun found its head key stored or nothing that depends on it |
| Drift.CopiesCanDrift | control/grpc.py:3522-3612 | A run of two gateways: one catches up twice, read as requests its second difference leaves a deleted namespace on its target, it then deletes that namespace, and its copy keeps a QoS key the OMAP no longer has, at the same version |
| Drift.SameDifference | control/state.py:1416-1436 | The run on stored texts and the updates on requests have the same removed, new and changed keys |
| Protocol.NoWriteLost | control/state.py:913-965 | Versions and the log only grow, and when all operations have agreed a copy whose version covers a committed write has it, in commit order |
| Protocol.UpdateNeverOverwritesNewer | control/state.py:1660-1662 | An update adopts only a newer version, and the copy it replaces is still the one its difference came from |
| Protocol.SnapshotIsSerial | control/state.py:653-714 | What an update reads under the shared lock is the result of a prefix of whole operations, never the middle of a cascading removal |
| Protocol.SnapshotIsClosed | control/state.py:653-714 | When every completed operation fitted the shared state, the snapshots, the copies compared with them and the free OMAP have the parent of every key |
| Protocol.OmapIsSerialWhenFree | control/state.py:692-714 | With no gateway in the exclusive section the OMAP holds exactly the completed operations; readers and writers exclude each other |
| Protocol.CasNeverFailsInRuns | control/state.py:913-965 | Under the lock and after the version check no compare-and-set fails |
| OmapLock.StepKeepsInv | control/state.py:437-622 | Every step of every thread and of other processes keeps the lock invariant |
| OmapLock.AssertionsNeverFire | control/state.py:532-557 | In every interleaving nothing is booked when an exclusive lock is about to be, and what is released or unbooked is there |
| OmapLock.BookingsMatchRados | control/state.py:595-622 | Booked cookies are held in RADOS but for the one being released, and `locked_by` counts exactly the booked cookies |
| OmapLock.WriteLockedByMeIsExact | control/state.py:636-644 | `write_locked_by_me` is true exactly for the thread that has booked the exclusive lock, and for one thread at most |
| OmapLock.GrantedExactly | control/state.py:437-531 | In every run a thread can take the exclusive lock exactly when no thread and no other process holds any, and a shared one exactly when none holds an exclusive one |
| OmapLock.AllCanBeReleased | control/state.py:572-622 | From every state of every run all threads can give up their locks, and then nothing is held or booked |
| OmapLock.LockCanBeHad | control/state.py:437-531 | And when other processes give up theirs, every thread can have the exclusive lock |
| Replay.RemovalsErase | control/state.py:1676-1687 | The removals of an update, last prefix first, erase exactly what some removal request erases |
| Replay.AdditionsAt | control/state.py:1676-1687 | After the additions a key is there exactly when it was, or was sent alone under its name and its parent, the names in use, the subsystem's key, the listeners, the allowed hosts and the namespace's visibility let the handler accept it; QoS limits are set on top of those in force |
| Replay.InPlaceIsReAdd | control/state.py:1172-1302 | The requests for a change in place leave the same object as delete and re-add, exactly outside the named exceptions |
| Replay.OutcomeAt | control/state.py:1632-1658 | What the whole update makes of any one key: the additions, then the changes in place, with the host keys under the new subsystem key |
| Replay.ReplayConverges | control/state.py:1422-1662 | Starting from a target that agrees with the local state, and any block devices left by earlier updates, the update leaves one that agrees with the shared state if and only if the pair is clean |
| Replay.CleanWithoutCollision | control/state.py:1422-1662 | Without collisions a pair is clean exactly when no kept key lies below a re-added one, no QoS limit is removed without its namespace, the handlers let the requests through, serial numbers and UUIDs that are sent are new, and the changes in place and on top of QoS limits do what they should |
| Replay.NewGatewayConverges | control/state.py:1422-1662 | A new gateway ends up with the shared state if and only if that fits together |
| ReplayLaws.NewGatewayExactly | control/state.py:1422-1662 | The same spelt out on the stored values: hosts have keys where their subsystem has one, the entry `*` meets neither a key nor a secure listener, hosts of hidden namespaces have access or are forced, serial numbers and UUIDs differ |
| Replay.NothingLeftBehind | control/grpc.py:1848-1900 | Without collisions and kept dependants an update leaves no block device without a namespace |
| Replay.AcceptedAtOwnTurn | control/state.py:1676-1687 | On a clean pair the add request of every live key is accepted when its family is sent |
| ReplayUpdate.AcceptedInAnyOrder | control/server.py:1029-1156 | And it is accepted whichever of the requests of the same prefix are sent before it |
| Replay.RemovalsEraseTheirOwn | control/state.py:1683-1687 | Without collisions and kept dependants a removal request erases nothing that has no removal request of its own, but for hosts of a namespace visible to all |
| Replay.FlatReplayConverges | control/state.py:1650-1658 | On plain keys the sequence of removals, additions and changes converges exactly when no prefix has re-added keys together with removed or new ones and no key of the host entry `*` changes |
| Replay.CollisionLoses | control/state.py:1652-1656 | New keys of a prefix with re-added keys never arrive, and its removed keys stay unless a parent goes |
| Replay.HidingLosesHosts | control/state.py:1519-1546 | No host of a namespace that turns hidden in place is on the target after the update |
| Replay.KeyChangeLosesHosts | control/grpc.py:4138-4151 | A host that does not fit the key its subsystem has when hosts are sent is not on the target after the update, although the shared state has it |
| Replay.KeyChangeExample | control/grpc.py:3998-4003 | A concrete pair, a subsystem that loses its key and gets a host, a plain one or the entry `*`, after which the host is missing |
| Replay.UnforcedHostIsLost | control/grpc.py:3695-3718 | A namespace host without force is not on the target after the update if it may access the subsystem neither before nor after |
| Replay.LostAccessExample | control/grpc.py:3695-3718 | A concrete shared state whose namespace host a new gateway never gets |
| Replay.UnnamedLimitsStay | control/grpc.py:3358-3366 | QoS limits sent on top of others come out as the request says exactly when it names every limit in force |
| Replay.LimitsExample | control/grpc.py:3358-3366 | A concrete pair, reached by the removal of namespace 1, after which the device of namespace 10 keeps an old limit |
| Replay.TakenNameIsLost | control/grpc.py:1363-1405 | A namespace whose UUID is that of a block device without a namespace is not on the target after the update |
| Replay.TakenOverExample | control/grpc.py:1848-1900 | A concrete pair in which a namespace takes over the UUID of one that goes with its subsystem, and never arrives |
| Replay.NothingLeftBelow | control/state.py:1384-1391 | When everything below a deleted object is deleted too, its family's turn comes after nothing but QoS limits is left below it |
| Replay.CollisionExample | control/state.py:1652-1656 | A concrete pair of states after which a new subsystem is missing on the target |
| Replay.StaleNamespaceStays | control/state.py:1651-1653 | A concrete pair of states after which a deleted namespace is still on the target |
| ReplayLaws.HostTakenExactly | control/grpc.py:4138-4151 | A host is refused only for having no key on a subsystem that has one |
| ReplayLaws.AnyHostTakenExactly | control/grpc.py:3998-4090 | The entry `*` is taken exactly without a key, on a subsystem without key and without secure listener |
| ReplayLaws.SubsystemTakenExactly | control/grpc.py:1655-1682 | A subsystem is taken exactly when it and its serial number are new |
| ReplayLaws.NamespaceTakenExactly | control/grpc.py:2244-2271 | A namespace is taken exactly when its subsystem is there, it is not, and no block device has its UUID |
| ReplayLaws.NsHostTakenExactly | control/grpc.py:3679-3715 | A namespace host is taken exactly on a hidden namespace, with access to the subsystem or by force |
| ReplayLaws.ListenerTakenExactly | control/grpc.py:4965-5040 | A listener is taken exactly when it is the own gateway's and not secure beside the entry `*` |
| ReplayLaws.WhatIsPlaced | control/grpc.py:3358-3368 | What a taken request leaves, field by field |
| ReplayLaws.WhatIsRemoved | control/server.py:1029-1156 | What one removal request takes from a target, key by key |
| ReplayLaws.WhatIsChanged | control/grpc.py:2603-2640 | What one request for a change in place changes, field by field |
| ReplayLaws.WhatIsInstalled | control/server.py:1029-1156 | What of a state is on a target that agrees with it |
| ReplayLaws.WhatIsSent | control/state.py:1172-1182 | Which keys an update removes and adds, in terms of the fields that can change in place |
| ReplayLaws.WhatIsAskedFor | control/state.py:1184-1302 | Which changes in place an update asks for |
| ReplayUpdate.SpdkTarget.Add | control/server.py:1029-1156 | One add request, with the checks of its handler on parent, names, keys, listeners and access, keeps the target consistent and its names unique, leaves no block device behind and has the effect of a group of one |
| ReplayUpdate.SpdkTarget.Change | control/grpc.py:2603-2640 | One request for a change in place sets one field, drops the hosts of a namespace made visible, and is refused for a host key the subsystem's key does not allow |
| ReplayUpdate.SpdkTarget.Remove | control/server.py:1029-1156 | One removal request erases the object and what hangs below it, a namespace with its block device and a subsystem without; QoS removals do nothing |
| ReplayUpdate.HasPrefix | control/state.py:1667-1674 | The text test finds exactly the key's family |
| ReplayUpdate.GroupByPrefix | control/state.py:1667-1674 | Every prefix of the list gets exactly the keys of its family |
| ReplayUpdate.NeedsReAdd | control/state.py:1172-1182 | The copy-and-compare is false exactly when nothing but group, visibility and trash flag differs |
| ReplayUpdate.SortOut | control/state.py:1437-1495 | A changed key is put on exactly the lists of the fields that differ, with their new values |
| ReplayUpdate.MakeKey | control/state.py:1497-1627 | The parsed key names the right object, and the host entry `*` gets no request |
| ReplayUpdate.MoveInPlace | control/state.py:1497-1627 | Takes exactly the listed keys off the changed ones and files exactly their requests |
| ReplayUpdate.RemovalsToSend | control/state.py:1651-1653 | The removal group of a prefix is the re-added keys if there are any and otherwise the removed ones |
| ReplayUpdate.AdditionsToSend | control/state.py:1655-1658 | The addition group of a prefix is the re-added keys if there are any and otherwise the new ones |
| ReplayUpdate.SortByPrefix | control/state.py:1422-1650 | The dictionaries end up as exactly the groups to remove and to add |
| ReplayUpdate.GatewayStateHandler.SendAdds | control/server.py:1029-1156 | The add requests of a group have the same effect in every order, unless two of them have one serial number or UUID |
| ReplayUpdate.GatewayStateHandler.SendRemovals | control/server.py:1029-1156 | The removal requests of a group have the same effect, and leave the same block devices, in every order |
| ReplayUpdate.GatewayStateHandler.CallRemovals | control/state.py:1683-1687 | Removal groups go through the prefixes backwards, empty ones are skipped |
| ReplayUpdate.GatewayStateHandler.CallAdditions | control/state.py:1676-1682 | Addition groups go through the prefixes forwards, empty ones are skipped |
| ReplayUpdate.GatewayStateHandler.Update | control/state.py:1376-1665 | A gateway that is behind makes exactly the planned calls, leaves the target as replayed unless two sent keys have one name, and adopts the snapshot and its version; in every case a target that agreed with the local state agrees with the shared state exactly on clean pairs; a gateway that is not behind does nothing |
| Loads.MinLoad | control/rebalance.py:84-102 | The smallest load of a subsystem over the listed groups, reached by one of them |
| Loads.FiresAsAverage | control/rebalance.py:167-198 | The check of the model is that of the source, with the average as a quotient |
| Loads.FiringGap | control/rebalance.py:174-188 | Each of the three criteria forces the source group to have at least two more namespaces than the destination |
| Loads.MoveDecreases | control/rebalance.py:219-252 | Every automatic move, exactly as the checks allow it, decreases the namespaces outside the listed groups, or keeps them and decreases the sum of squared loads |
| Loads.RebalanceTerminates | control/rebalance.py:47-59 | No sequence of automatic moves is longer than a bound computed from the first table |
| Loads.StuckExactly | control/rebalance.py:167-206 | The load vectors on which no check fires, exactly |
| Loads.QuiescenceBound | control/rebalance.py:167-206 | At rest the gap is at most one with up to three groups or an empty one, and otherwise below the number of groups and never two |
| Loads.QuiescenceBoundIsTight | control/rebalance.py:167-206 | For every number of groups from four on there is a stuck vector that reaches the bound |
| Loads.LoadsAddUp | control/grpc.py:545-571 | The loads over distinct groups add up to the subsystem's namespaces in those groups |
| Loads.QuietTableIsEven | control/rebalance.py:167-206 | When no listed group's check fires, any two groups' loads of the subsystem obey the bound, and none is two above the smallest |
| Rebalance.AccountedAfterAdd | control/grpc.py:2042-2049 | The counter updates of a create request match the new namespace |
| Rebalance.AccountedAfterRemove | control/grpc.py:2953-2956 | The counter updates of a delete request match the deleted namespace |
| Rebalance.AccountedAfterMove | control/grpc.py:2449-2459 | The counter updates of a change-group request match the move |
| Rebalance.DroppingBreaksAccounting | control/grpc.py:514-522 | Taking namespaces off the list without lowering counters is right exactly when none of them was listed |
| Rebalance.MovedCountedExactly | control/grpc.py:2423-2464 | A change-group request keeps the counters right exactly for a listed namespace and a known group, or from group 0 to itself |
| Rebalance.FiringMoves | control/rebalance.py:174-198 | Moving any of the subsystem's namespaces after a check fired is an automatic move |
| Rebalance.GatewayService.constructor | control/grpc.py:807-826 | All counters start at zero and agree with the empty list |
| Rebalance.GatewayService.CreateNamespace | control/grpc.py:1941-2069 | Success adds one namespace and keeps the counters; failure drops what the list removal drops, and keeps the counters exactly when that was nothing |
| Rebalance.GatewayService.RemoveNamespace | control/grpc.py:514-522 | Exactly the named namespace, or all of the subsystem when no ID is given, leaves the list |
| Rebalance.GatewayService.ChangeGroup | control/grpc.py:2352-2497 | The refusals, and otherwise the moved books, including an exception half way |
| Rebalance.GatewayService.DeleteNamespace | control/grpc.py:3522-3612 | Deletes exactly a listed, admitted namespace and keeps the counters; wrong counters can end it half way |
| Rebalance.GatewayService.DeleteSubsystem | control/grpc.py:1795-1846 | The subsystem's namespaces leave the list; the counters stay right exactly when there were none |
| Rebalance.GatewayService.FindMinLoadedGroupInSubsys | control/rebalance.py:84-102 | Returns a listed group with the truly smallest load of the subsystem, writes at most one zero entry, and keeps the counters right |
| Rebalance.GatewayService.FindMinLoadedGroup | control/rebalance.py:61-82 | Returns the listed group with the fewest namespaces and its least loaded subsystem, none only when the group has no entry |
| Rebalance.GatewayService.NsRebalance | control/rebalance.py:219-252 | Moves at most one namespace of the group and subsystem asked for, and does move one when nothing stands in the way |
| Rebalance.GatewayService.RegularRebalance | control/rebalance.py:152-206 | Moves exactly when some subsystem's check fires, and then by an automatic move |
| Rebalance.GatewayService.ScaleDownOngoing | control/rebalance.py:124-133 | Finds out exactly whether a loaded group is no longer listed, and names one |
| Rebalance.GatewayService.RebalanceLogic | control/rebalance.py:109-217 | Result 0 only for the worker of a supported release and only if an optimized group with namespaces is no longer listed, or the worker's group is optimized here and either no unlisted group has namespaces, it is calm and some check fires, or there is a deadlock with somewhere to move to; it is then an automatic move or, when something stood in the way, no change. Result 1 changes nothing and, in the regular mode, means that no check of a group optimized here fires |
| Rebalance.GatewayService.AutoRebalanceRound | control/rebalance.py:40-59 | A round keeps the counters and the set of namespaces, changes nothing unless this gateway may rebalance, and if it changes anything the termination measure goes down; in the regular mode, with nothing in the way, it ends with no check firing or has used up all its moves, each of which lowers the measure |
| Clusters.ContextNames | control/cluster.py:111-118 | The name of every context, character by character |
| Clusters.NamesDistinct | control/cluster.py:111-118 | Context names are unique across groups and across the three strategies, so looking a name up finds the right context |
| Clusters.LowestFree | control/cluster.py:111-118 | The name search ends at the lowest free number, which is at most the number of names taken |
| Clusters.GetRunUsesCeiling | control/cluster.py:70-88 | `n` gets without puts use exactly n / capacity contexts, rounded up |
| Clusters.PoolGetsStayEven | control/cluster.py:204-221 | Gets never raise the spread of the pool above its old value or one |
| Clusters.LeftOverForEver | control/cluster.py:204-245 | Over every run of gets and puts, a pool context that is unused and still registered stays so, is never given out, and makes a get fail whenever it is the first least used |
| Clusters.AnaGrpBdevsPerCluster.AllocClusterName | control/cluster.py:111-118 | The lowest free name of the group, with a number at most the group's contexts |
| Clusters.AnaGrpBdevsPerCluster.GetCluster | control/cluster.py:70-88 | One more use of a context of this group with room, or when all are full a fresh one with the lowest free number; other groups are untouched |
| Clusters.AnaGrpBdevsPerCluster.PutCluster | control/cluster.py:90-109 | One use less of exactly the named context, unregistered only with its last use; the assertions hold |
| Clusters.FlatBdevsPerCluster.GetCluster | control/cluster.py:138-156 | The same without groups |
| Clusters.FlatBdevsPerCluster.PutCluster | control/cluster.py:158-175 | The same without groups |
| Clusters.ClusterPoolAllocator.GetCluster | control/cluster.py:204-221 | The lowest numbered least used context, or none exactly when it is unused and cannot be registered, because SPDK refuses or it still is registered |
| Clusters.ClusterPoolAllocator.PutCluster | control/cluster.py:223-245 | One use less, unregistered only with the last; the assertions hold |
| Clusters.Strategy.GetCluster | control/cluster.py:20-27 | Every strategy: one more use of the returned context, nothing else, and it is registered |
| Clusters.Strategy.PutCluster | control/cluster.py:20-27 | Every strategy: one use less of the named context, nothing else |
| Clusters.Strategy.WithinCapacity | control/cluster.py:70-88 | No context is used more often than its capacity |
| Clusters.Strategy.UsedIsRegistered | control/cluster.py:20-27 | In every strategy a context in use is registered |
| Clusters.Bdevs.Attach | control/grpc.py:1367-1386 | A block device is created on the context taken for it, or the context is given back |
| Clusters.Bdevs.CreateBdev | control/grpc.py:1363-1405 | After success or failure every context has exactly as many uses as live block devices; it succeeds when SPDK does and no unused context was left registered |
| Clusters.Bdevs.DeleteBdev | control/grpc.py:1476-1509 | The same for deletion; registered contexts stay exactly the used ones while SPDK unregisters |
| Ana.StepKeepsAgreement | control/grpc.py:2084-2158 | Every event, failed ones included, keeps a path optimized exactly for the group remembered as optimized, but for paths a failed request is about; a later successful state request about the path restores it |
| Ana.OptimizedIffLastReceived | control/grpc.py:5043-5085 | After any run an active listener is optimized for a usable group exactly when the last state received for it is optimized, whichever came first, unless a failed request was about the path and no successful state request since |
| Ana.NeverStale | control/grpc.py:2075-2165 | In a run without failed requests no path is excepted |
| Ana.LastInIs | control/grpc.py:2086-2090 | The last state a list has for a group, by position |
| Ana.PlayedIs | control/grpc.py:2137-2155 | A path is as the last call about it has set it |
| Ana.AnaService.AwaitContexts | control/grpc.py:2107-2130 | Waits for every context of the group's namespaces, each at most once per request, and for no others |
| Ana.AnaService.Remember | control/grpc.py:2086-2090 | The last state of each group in the list is remembered |
| Ana.AnaService.SetListener | control/grpc.py:2096-2155 | One listener gets the last state of each group; a failure touches only groups of the request |
| Ana.AnaService.SetAnaState | control/grpc.py:2075-2165 | A successful request is one step and a failed one a failed step; the listeners' states are what the recorded calls make of them; before every optimized update each namespace of its group has a context and that was awaited; nothing is awaited twice or for a group that the request does not set to optimized; it stops only at a refused call or an unknown context of such a group |
| Ana.AnaService.CreateSubsystem | control/grpc.py:1538-1760 | Registers a subsystem that does not exist yet |
| Ana.AnaService.DeleteSubsystem | control/grpc.py:1804-1846 | Forgets the subsystem and its listeners, keeps the remembered states |
| Ana.AnaService.CreateListener | control/grpc.py:4965-5120 | A new active listener is optimized for exactly the remembered groups; a failure half way touches no other listener |
| Ana.AnaService.DeleteListener | control/grpc.py:5178-5305 | Removes the listeners at the address; SPDK is asked, and the paths go, exactly when the first one found is active |
| ImageIds.ParseOfText | control/grpc.py:668-677 | Parsing the text of a list gives the list, with missing components read as the word None |
| ImageIds.TextOfParse | control/grpc.py:637-639 | Whatever text parses is the text of the list it parses to |
| ImageIds.ParsesExactly | control/grpc.py:668-677 | Text parses exactly when the number of its parts is a multiple of three |
| ImageIds.TextsOfLists | control/grpc.py:637-639 | The text of one and of two identifications, character by character |
| ImageIds.SetAddsOnce | control/grpc.py:1220-1240 | Setting appends the identification unless it is there, and touches no other metadata |
| ImageIds.SetIsIdempotentExactly | control/grpc.py:1220-1240 | Setting twice is setting once exactly when no component is missing |
| ImageIds.DeleteRemovesAll | control/grpc.py:1242-1267 | Deleting leaves the stored list without the identification, and touches no other metadata |
| ImageIds.WithoutKeepsOrder | control/grpc.py:1242-1267 | What is kept keeps its order, and only equal identifications go |
| ImageIds.SetThenDelete | control/grpc.py:1220-1267 | Setting a fresh identification and deleting it restores the list |
| ImageIds.Image.ParseIds | control/grpc.py:668-677 | The parsing loop computes the parse |
| ImageIds.Image.GetImageIdentification | control/grpc.py:1192-1218 | The stored list, or nothing when image or metadata are missing, unreadable or not understood |
| ImageIds.Image.SetImageIdentification | control/grpc.py:1220-1240 | The metadata become the text of the extended list |
| ImageIds.Image.DeleteImageIdentification | control/grpc.py:1242-1267 | The metadata become the text of what is kept, or are removed when nothing is |
| Framing.SplitKeepsBytes | control/discovery.py:1078-1092 | PDUs and rest put together are the bytes received |
| Framing.SplitIsWellFormed | control/discovery.py:1078-1092 | Every PDU has the length in its header, and the rest is no whole PDU |
| Framing.LengthInHeader | control/discovery.py:1080-1086 | The length is read from the last four of eight header bytes, low byte first |
| Framing.WholePdusAreSplit | control/discovery.py:1078-1092 | PDUs sent one after the other are split into just those PDUs |
| Framing.ChunksDoNotMatter | control/discovery.py:1070-1092 | For every way to cut the stream into receives, PDUs and rest are those of one receive |
| Framing.StreamDecides | control/discovery.py:1054-1096 | What a connection has handled and kept after any receives is decided by the bytes of the stream alone, and nothing is lost |
| Framing.HeadStep | control/discovery.py:1094-1096 | The queue head counts PDUs from 1 to 128 and round again |
| Framing.Connection.Receive | control/discovery.py:1054-1096 | One receive continues the stream, ends unless a length field is zero, and moves the queue head once per PDU |

## Left out

- The inside of RADOS, RBD, SPDK and the Ceph monitor, and calls to them that return a false value without raising.
- Lease expiry of the RADOS lock, the settings that ignore unlock errors or disable unlocking, closed connections,
  retries with sleeps, and reading the OMAP without the lock when the shared lock is not obtained.
- RADOS write failures in the middle of a cascading removal: a raised exception there leaves a partial operation.
- Encryption and validation of keys: the stored DH-HMAC-CHAP keys are taken as plain text, and a re-encrypted key
  counts as a changed key.
- JSON and protobuf formatting: stored values are requests, equal when their texts are; values that do not parse
  are not part of a well-formed state.
- Real time: update intervals, hysteresis and cache expiry are conditions that may hold or not.
- `delete_state`, `cleanup_omap`, watch and notify, and the timer threads.
- Limits and checks inside the request handlers that depend on configuration, on connections or on the network; they
  are one `admitted` parameter.
- StateKeys.BreakAcceptsExactly: the number forms Python's `int` accepts beyond plain decimal digits are not modelled.
- Text.SplitJoin: about delimiter-free elements only, as the key element check of the handlers demands.
- StateOps.OpKeepsClosed: asks that the operation fits the shared state. The handlers check their own target, which
  can differ; the theorems over runs, but for the one about closed snapshots, do not need it.
- Replay.ReplayConverges: an add request that passes the modelled checks is accepted, so quotas and foreign SPDK
  failures during a replay are not modelled. Nor are the RBD images, which a removal may trash and a creation must
  find, changes of an image's own QoS settings, pre-shared keys of the host entry `*`, and listeners of other
  gateways, which a gateway only notes. UUIDs are compared as texts. QoS limits are compared before SPDK rounds them.
- Replay.OutcomeAt: of two requests of one update with the same serial number or UUID it lets neither arrive, while the
  first one sent would; such an update converges in neither case (`ReplayUpdate.GatewayStateHandler.Update`).
- Replay.AdditionsAt: a host entry that was there already is not refreshed; its stored options are not part of the
  target.
- Rebalance.GatewayService.ChangeGroup: ownership of the namespace's group and the state entry are one `admitted`
  answer.
- Rebalance.GatewayService.RebalanceLogic: the groups the monitor lists must be known to the gateway; an unknown group
  raises KeyError in the source. Group 0 is not one of them, and no subsystem is called `0`, which stands for any.
  Averages are compared as products, so rounding of the quotient is not modelled.
- Rebalance.GatewayService.AutoRebalanceRound: the answers of the outside systems stay the same during one round.
- Clusters.FlatBdevsPerCluster.GetCluster: any context with room may be chosen, the source takes the oldest.
- Clusters.AnaGrpBdevsPerCluster.GetCluster: any context with room may be chosen, the source takes the oldest; contexts
  are structured, and their names are shown to be unique separately.
- Clusters.Bdevs.DeleteBdev: the recycling mode, which no caller asks for.
- Ana.OptimizedIffLastReceived: says nothing of a path that a failed request was about, until the next successful
  state request about it.
- Ana.AnaService.CreateListener: SPDK's default states between adding a listener and the first state call are not
  modelled.
- Framing.Connection.Receive: what the handlers answer to a PDU, and a handler that closes the connection, are not part
  of this model; a PDU with length zero, on which the source loops for ever, marks the connection as stuck.
- Log pages, identify and property replies, discovery of subsystems, Prometheus metrics, the command line and
  configuration files.
