# Confirmed attribute replication, modelled in Dafny

This project models the core of attribute replication in the xoom-cluster
(vlingo) cluster: the confirmation ledger `Confirmables` and the
`ConfirmingDistributor` that drives it.

When a node creates an attribute set or changes one of its attributes, the
distributor does the following for each resulting message:

1. It registers the message in the ledger as a `Confirmable`. The entry holds
   the tracking id, the message, the nodes that have not yet acknowledged, and
   a creation time.
2. It sends the message to those nodes.
3. It notifies the local application.

Peers acknowledge by tracking id. Each acknowledgement strikes one node off
the entry, and an entry whose list becomes empty is purged. A periodic sweep
re-sends every entry older than the redistribution interval, and only to the
nodes that still owe a confirmation. In the other direction, a node confirms
a received mutation back to its originator.

Files:

- `attribute_messages.dfy` (module `AttributeMessages`): nodes, attribute
  sets, message kinds, messages, application notices, and the observable
  events (`Send`, `Inform`, `Logged`).
- `confirmables.dfy` (module `ConfirmationLedger`):
  - The ledger on values: `seq<Entry>`, with the functions `LookUp`,
    `Confirmed`, `Due` and `TrackingIds`, and the lemmas about them.
  - The imperative ledger: classes `Confirmable` and `Confirmables`. Their
    methods are proved to produce exactly those functions' results on the
    ledger's abstract `Contents`.
- `confirming_distributor.dfy` (module `Distribution`):
  - Each operation's effect as a value. An `Outcome` holds the entries it
    registers and the events it emits, in order. The file proves the lemmas
    about these outcomes.
  - Class `ConfirmingDistributor`. It owns a ledger and a ghost event log. Its
    methods are proved to append exactly those outcomes.
- `scenarios.dfy` (module `Scenarios`): the three-node end-to-end and
  redistribution scenarios, on concrete values.

## Model

| member | source | states |
|---|---|---|
| ConfirmationLedger.RemoveFirst | src/main/java/io/vlingo/cluster/model/attribute/Confirmables.java:97-99 | Removing a node from a list drops exactly one occurrence of it (multiset difference). The list shrinks by one exactly when the node was present, and is unchanged otherwise. |
| ConfirmationLedger.FirstIndex | src/main/java/io/vlingo/cluster/model/attribute/Confirmables.java:55-62 | The lookup index is the first entry tracked under the id: that entry matches and no earlier one does. It equals the ledger length when nothing matches. |
| ConfirmationLedger.ConfirmedInSteps | src/main/java/io/vlingo/cluster/model/attribute/Confirmables.java:47-53 | Confirming is a lookup, then a strike-off on the found entry or the sentinel. When that entry's list is then empty, it is removed by tracking-id equality. |
| ConfirmationLedger.ConfirmMatched | src/main/java/io/vlingo/cluster/model/attribute/Confirmables.java:47-52 | For a registered id, only the first entry under it changes. It loses one occurrence of the node. It leaves the ledger exactly when its list became empty, and otherwise stays in place. All other entries are unchanged and keep their order. |
| ConfirmationLedger.ConfirmShrinks | src/main/java/io/vlingo/cluster/model/attribute/Confirmables.java:47-53 | A confirmation only drops entries and drops nodes from entries. No entry appears, and no list grows. |
| ConfirmationLedger.ConfirmationIsMonotone | src/main/java/io/vlingo/cluster/model/attribute/Confirmables.java:97-99 | Over any series of acknowledgements, the ledger only shrinks. Every remaining entry descends from an original one with the same id, message and time, and with a sub-multiset of its nodes. |
| ConfirmationLedger.ConfirmedAllAppend | src/main/java/io/vlingo/cluster/model/attribute/Confirmables.java:47-53 | Acknowledging one series and then another is the same as acknowledging their concatenation. |
| ConfirmationLedger.PurgedStaysPurged | src/main/java/io/vlingo/cluster/model/attribute/Confirmables.java:47-53 | An id absent from the ledger stays absent, whatever is acknowledged afterwards. |
| ConfirmationLedger.ConfirmUnknownIsNoOp | src/main/java/io/vlingo/cluster/model/attribute/Confirmables.java:47-62 | Confirming an unknown id leaves the ledger unchanged, provided no entry is tracked under the sentinel's id "". |
| ConfirmationLedger.ConfirmUnknownPurgesBlankEntry | src/main/java/io/vlingo/cluster/model/attribute/Confirmables.java:119-125 | As written, confirming an unknown id removes the first entry tracked under "", because removal matches the sentinel by tracking id. |
| ConfirmationLedger.ConfirmIdempotent | src/main/java/io/vlingo/cluster/model/attribute/Confirmables.java:47-53 | With distinct, non-empty ids, and the node listed at most once for the id, confirming the same (id, node) twice equals confirming it once. |
| ConfirmationLedger.ConfirmKeepsDistinct | src/main/java/io/vlingo/cluster/model/attribute/Confirmables.java:47-53 | If tracking ids are distinct and non-empty before a confirmation, they still are after it. |
| ConfirmationLedger.RegisterKeepsDistinct | src/main/java/io/vlingo/cluster/model/attribute/Confirmables.java:68-72 | Appending the entry for a message with a fresh, non-empty tracking id keeps tracking ids distinct and non-empty. |
| ConfirmationLedger.DueSelectsExactly | src/main/java/io/vlingo/cluster/model/attribute/Confirmables.java:27-35 | The redistributable entries are exactly the ledger entries with createdOn + interval < now. |
| ConfirmationLedger.DueOfConcat | src/main/java/io/vlingo/cluster/model/attribute/Confirmables.java:27-35 | The selection distributes over concatenation, so it keeps ledger order. |
| ConfirmationLedger.TrackingIdsAt | src/main/java/io/vlingo/cluster/model/attribute/Confirmables.java:37-45 | The id list has one element per entry: the k-th entry's tracking id, in ledger order. |
| ConfirmationLedger.Confirmable.constructor | src/main/java/io/vlingo/cluster/model/attribute/Confirmables.java:82-88 | A new entry takes its tracking id from the message and copies the given nodes. It is stamped with the current time. |
| ConfirmationLedger.Confirmable.NoConfirmable | src/main/java/io/vlingo/cluster/model/attribute/Confirmables.java:90-95 | The sentinel has no message, no nodes, tracking id "" and time 0. |
| ConfirmationLedger.Confirmable.Confirm | src/main/java/io/vlingo/cluster/model/attribute/Confirmables.java:97-99 | The node list loses the first occurrence of the node and never grows. |
| ConfirmationLedger.Confirmable.HasUnconfirmedNodes | src/main/java/io/vlingo/cluster/model/attribute/Confirmables.java:101-103 | True exactly when the entry still waits for at least one node. |
| ConfirmationLedger.Confirmable.IsRedistributableAsOf | src/main/java/io/vlingo/cluster/model/attribute/Confirmables.java:109-112 | True exactly when the entry is due at `now`: createdOn + interval < now, as IsDue states for Due. |
| ConfirmationLedger.Confirmable.Equals | src/main/java/io/vlingo/cluster/model/attribute/Confirmables.java:118-125 | Two confirmables are equal exactly when their tracking ids are. In particular an entry equals the sentinel exactly when its tracking id is "". |
| ConfirmationLedger.Confirmables.constructor | src/main/java/io/vlingo/cluster/model/attribute/Confirmables.java:22-25 | A new ledger is empty and keeps the given other nodes. |
| ConfirmationLedger.Confirmables.UnconfirmedFor | src/main/java/io/vlingo/cluster/model/attribute/Confirmables.java:68-72 | Appends exactly one fresh entry, for the message and the nodes, at the end. Earlier entries are unchanged, and the returned confirmable is the very object appended to `expectedConfirmables`. |
| ConfirmationLedger.Confirmables.Unconfirmed | src/main/java/io/vlingo/cluster/model/attribute/Confirmables.java:64-66 | The same as UnconfirmedFor, addressed to all other nodes. |
| ConfirmationLedger.Confirmables.ConfirmableOf | src/main/java/io/vlingo/cluster/model/attribute/Confirmables.java:55-62 | Returns the first confirmable tracked under the id, or the sentinel; it never fails. |
| ConfirmationLedger.Confirmables.Remove | src/main/java/io/vlingo/cluster/model/attribute/Confirmables.java:51 | Removes the first entry whose tracking id equals the given confirmable's. |
| ConfirmationLedger.Confirmables.StrikeOff | src/main/java/io/vlingo/cluster/model/attribute/Confirmables.java:49 | Striking a node off the looked-up confirmable updates exactly that entry of the ledger, or nothing when it is the sentinel. |
| ConfirmationLedger.Confirmables.Confirm | src/main/java/io/vlingo/cluster/model/attribute/Confirmables.java:47-53 | The ledger after confirm is exactly Confirmed(old ledger, id, node). |
| ConfirmationLedger.Confirmables.AllRedistributable | src/main/java/io/vlingo/cluster/model/attribute/Confirmables.java:27-35 | Returns, in order, confirmables of exactly the due entries, each one an object of `expectedConfirmables` itself, and changes nothing. |
| ConfirmationLedger.Confirmables.AllTrackingIds | src/main/java/io/vlingo/cluster/model/attribute/Confirmables.java:37-45 | Returns every entry's tracking id in ledger order, and changes nothing. |
| Distribution.AttributeDispatch | src/main/java/io/vlingo/cluster/model/attribute/ConfirmingDistributor.java:72-94 | Add, Remove and Replace each register one entry of their own kind, send it to the nodes and fire their own notice. Any other type is rejected. |
| Distribution.AddsShape | src/main/java/io/vlingo/cluster/model/attribute/ConfirmingDistributor.java:63-65 | The member loop handles members in set order. Each member's AddAttribute is registered, sent to the nodes, then announced. |
| Distribution.DistributeFanOut | src/main/java/io/vlingo/cluster/model/attribute/ConfirmingDistributor.java:57-66 | distributeTo(set, nodes) registers one entry more than the set has members, all for the nodes: the CreateAttributeSet first, then one AddAttribute per member. Each registration is followed by one send to the nodes, then its notice. The set-created notice comes once, right after the create send. |
| Distribution.SynchronizeOnlyToTarget | src/main/java/io/vlingo/cluster/model/attribute/ConfirmingDistributor.java:145-151 | synchronizeTo registers, per set, one entry more than that set has members. Every entry is addressed to exactly [target], and so is every send. |
| Distribution.RedistributeAddressing | src/main/java/io/vlingo/cluster/model/attribute/ConfirmingDistributor.java:135-143 | Each due entry is logged, then re-sent once, in ledger order. The re-send goes to its current outstanding nodes. |
| Distribution.ConfirmReplies | src/main/java/io/vlingo/cluster/model/attribute/ConfirmingDistributor.java:97-133 | Each confirm overload sends one confirmation, carrying the correlating id and addressed to the original source alone, then fires the matching notice. An unsupported type is rejected. |
| Distribution.ConfirmingDistributor.constructor | src/main/java/io/vlingo/cluster/model/attribute/ConfirmingDistributor.java:36-43 | A new distributor owns a new, empty ledger for its other nodes, and its log is empty. |
| Distribution.ConfirmingDistributor.AcknowledgeConfirmation | src/main/java/io/vlingo/cluster/model/attribute/ConfirmingDistributor.java:45-47 | Exactly the ledger's confirm. Nothing is sent. |
| Distribution.ConfirmingDistributor.AllTrackingIds | src/main/java/io/vlingo/cluster/model/attribute/ConfirmingDistributor.java:49-51 | The ledger's tracking ids in order. |
| Distribution.ConfirmingDistributor.Distribute | src/main/java/io/vlingo/cluster/model/attribute/ConfirmingDistributor.java:53-55 | distribute(set) is distributeTo(set, allOtherNodes). |
| Distribution.ConfirmingDistributor.DistributeTo | src/main/java/io/vlingo/cluster/model/attribute/ConfirmingDistributor.java:57-66 | The ledger and log grow by exactly SetOutcome, whose shape DistributeFanOut gives. |
| Distribution.ConfirmingDistributor.DistributeMembersTo | src/main/java/io/vlingo/cluster/model/attribute/ConfirmingDistributor.java:63-65 | The member loop appends exactly AddsOutcome for all members. |
| Distribution.ConfirmingDistributor.SendTracked | src/main/java/io/vlingo/cluster/model/attribute/ConfirmingDistributor.java:59-61 | One entry is registered. The message is sent to the entry's outstanding nodes, which equal the given nodes, and then the notice fires. |
| Distribution.ConfirmingDistributor.DistributeAttribute | src/main/java/io/vlingo/cluster/model/attribute/ConfirmingDistributor.java:68-70 | distribute(set, tracked, type) is distributeTo(..., allOtherNodes). |
| Distribution.ConfirmingDistributor.DistributeAttributeTo | src/main/java/io/vlingo/cluster/model/attribute/ConfirmingDistributor.java:72-94 | Success and exactly the attribute outcome for Add, Remove and Replace. For any other type: IllegalArgument with the source's text, and nothing registered, sent or announced. |
| Distribution.ConfirmingDistributor.ConfirmSet | src/main/java/io/vlingo/cluster/model/attribute/ConfirmingDistributor.java:97-105 | Appends the confirmation send and the set-created notice. The ledger is untouched. |
| Distribution.ConfirmingDistributor.ConfirmAttribute | src/main/java/io/vlingo/cluster/model/attribute/ConfirmingDistributor.java:107-133 | Appends the matching confirmation and notice, or returns IllegalArgument with nothing appended. The ledger is untouched. |
| Distribution.ConfirmingDistributor.RedistributeUnconfirmed | src/main/java/io/vlingo/cluster/model/attribute/ConfirmingDistributor.java:135-143 | The log grows by exactly RedistributeEvents of the due entries. The ledger is unchanged. |
| Distribution.ConfirmingDistributor.Resend | src/main/java/io/vlingo/cluster/model/attribute/ConfirmingDistributor.java:136-142 | The loop over the redistributable confirmables logs and re-sends each one, to its current outstanding nodes. |
| Distribution.ConfirmingDistributor.SynchronizeTo | src/main/java/io/vlingo/cluster/model/attribute/ConfirmingDistributor.java:145-151 | The ledger and log grow by exactly SyncOutcome, whose addressing SynchronizeOnlyToTarget gives. |
| Distribution.ConfirmingDistributor.UnconfirmedNodesFor | src/main/java/io/vlingo/cluster/model/attribute/ConfirmingDistributor.java:153-155 | The looked-up entry's outstanding nodes, which are empty for an unknown id. |
| Scenarios.Registration | src/main/java/io/vlingo/cluster/model/attribute/ConfirmingDistributor.java:57-66 | Distributing a one-attribute set to {B, C} registers the create and the add, each waiting for both nodes. |
| Scenarios.EndToEnd | src/main/java/io/vlingo/cluster/model/attribute/Confirmables.java:47-53 | B confirms the create, then C confirms both. Only the add is left, waiting for B. |
| Scenarios.EndToEndPurgesAll | src/main/java/io/vlingo/cluster/model/attribute/Confirmables.java:47-53 | Once B also confirms the add, the ledger is empty and no tracking id is left. |
| Scenarios.RedistributionToLaggard | src/main/java/io/vlingo/cluster/model/attribute/ConfirmingDistributor.java:135-143 | When only B confirms, a sweep past the interval re-sends both messages to {C} alone. |

Two behaviours of the code that a reader might not expect:

- Confirmation messages are not registered in the ledger: both confirm
  overloads only send and notify, so confirmations are never tracked or
  re-sent. The model does the same.
- An entry with a non-empty tracking id is purged only when every node it
  was sent to has confirmed it. An entry tracked under "" is the exception:
  a confirmation for any unknown id removes it, whatever nodes it still
  waits for, because the sentinel is removed by tracking-id equality
  (`ConfirmationLedger.ConfirmUnknownPurgesBlankEntry`).
  After "B confirms the create, C confirms both", B has not confirmed the
  add, so that entry still waits for B (`Scenarios.EndToEnd`). Both are
  purged once B confirms it too (`Scenarios.EndToEndPurgesAll`).

## Left out

- Wire encoding (`toPayload`, `ApplicationSays.from`): a sent message is the
  `Message` value itself.
- The outbound stream, the application callbacks and the logger. They appear
  only as events appended to a ghost log: `Send`, `Inform`, and `Logged`
  (which stands for the "REDIST" log line).
- The wall clock and the `Properties` singleton: they become the `now` and
  `interval` parameters.
- Actor scheduling and concurrency: one serial owner is assumed.
- Tracking-id generation inside the message classes: the message classes are
  not part of this model.
  - Callers supply the ids: `ids` holds |members| + 1 ids for distributeTo.
  - synchronizeTo takes one such block per set (`IdsFit`).
- The `ApplicationMessageType` enum is not part of this model. `MessageType`
  lists the types the distributor names.
- The node argument passed to `ConfirmAttribute.from`: this is message
  construction detail, and `Message` does not carry the sending node.
- AttributesAgent and ClusterSnapshotInitializer: actor wiring and bootstrap,
  with no ledger or distribution logic.
- ConfirmationLedger.Confirmable.NoConfirmable: the Java sentinel is one
  static object. Here each ledger owns its own sentinel (`none`), which is
  never an entry of the ledger. It behaves the same, since the sentinel is
  only read, or confirmed with an empty node list.
- ConfirmationLedger.IsDue: Java's `long` overflow of createdOn + interval is
  not modelled (integers are unbounded).
- Distribution.ConfirmingDistributor.Resend: a send records the node list as
  a value at that moment. The Java code hands the live list to the transport,
  and later aliasing of that list is not modelled.
- Distribution.ConfirmingDistributor.UnconfirmedNodesFor: returns a copy of
  the outstanding nodes taken at the moment of the call, not the live list
  the Java code hands out. Later confirmations do not show through it, and a
  caller cannot change the ledger by changing it. For an unknown id Java
  returns the list of the static NoConfirmable shared by every ledger; the
  model returns an empty sequence.
- ConfirmationLedger.ConfirmIdempotent: additionally requires distinct,
  non-empty tracking ids. ConfirmKeepsDistinct and RegisterKeepsDistinct
  show that confirmation and registration under a fresh id keep that
  property. Freshness itself depends on the tracking-id generator, which is
  not part of this model. Without that precondition idempotence fails:
  - After a purge, a second entry under the same id would lose the node.
  - Or the sentinel path would remove an entry tracked under "".
