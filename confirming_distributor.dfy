/**
 * The confirming distributor (ConfirmingDistributor.java): turns
 * attribute-set mutations into tracked outbound messages, registers each
 * in the ledger, hands it to the transport, notifies the application, and
 * re-sends whatever is still unconfirmed when swept.
 *
 * The transport, the application callbacks and the logger are observed
 * through a ghost event log. Each operation's effect is first stated as a
 * value (`Outcome`: the entries it registers and the events it emits) and
 * proved about; the class's methods are then proved to produce exactly it.
 */
module Distribution {
  import opened AttributeMessages
  import opened ConfirmationLedger

  /** The exception text of distributeTo for an unsupported type. */
  const CannotDistribute := "Cannot distribute unknown ApplicationMessageType."
  /** The exception text of confirm for an unsupported type. */
  const CannotConfirm := "Cannot confirm unknown ApplicationMessageType."

  /** What an operation does: the ledger entries it registers and the events it emits, in order. */
  datatype Outcome = Outcome(registered: seq<Entry>, events: seq<Event>)
  {
    function Then(next: Outcome): Outcome
    {
      Outcome(registered + next.registered, events + next.events)
    }
  }

  const Nothing := Outcome([], [])

  lemma ThenAssociates(a: Outcome, b: Outcome, c: Outcome)
    ensures a.Then(b).Then(c) == a.Then(b.Then(c))
  {
    assert (a.registered + b.registered) + c.registered == a.registered + (b.registered + c.registered);
    assert (a.events + b.events) + c.events == a.events + (b.events + c.events);
  }

  // ---------------------------------------------------------------------------
  // Messages

  function CreateMessage(attributeSet: AttributeSet, id: string): Message
  {
    Message(CreateAttributeSet, id, "", attributeSet.name, "")
  }

  function AttributeMessage(kind: MessageType, attributeSet: AttributeSet, attribute: string, id: string): Message
  {
    Message(kind, id, "", attributeSet.name, attribute)
  }

  /** The application notice fired for a mutation type, or None for a type distributeTo rejects. */
  function NoticeOf(kind: MessageType): Option<Notice>
  {
    match kind
    case AddAttribute => Some(AttributeAdded)
    case RemoveAttribute => Some(AttributeRemoved)
    case ReplaceAttribute => Some(AttributeReplaced)
    case _ => None
  }

  /** The confirmation kind answering a mutation type, or None for a type confirm rejects. */
  function ConfirmationOf(kind: MessageType): Option<MessageType>
  {
    match kind
    case AddAttribute => Some(ConfirmAddAttribute)
    case RemoveAttribute => Some(ConfirmRemoveAttribute)
    case ReplaceAttribute => Some(ConfirmReplaceAttribute)
    case _ => None
  }

  // ---------------------------------------------------------------------------
  // Outcomes of the operations

  /** One tracked send: register `m` for `nodes`, send it to them, then notify the application. */
  function TrackedSend(m: Message, notice: Notice, nodes: seq<Node>, now: int): Outcome
  {
    Outcome([NewEntry(m, nodes, now)], [Send(m, nodes), Inform(notice, m.setName, m.attributeName)])
  }

  /** distributeTo(attributeSet, tracked, type, nodes); None when the type is rejected. */
  function AttributeOutcome(attributeSet: AttributeSet, attribute: string, kind: MessageType, id: string, nodes: seq<Node>, now: int): Option<Outcome>
  {
    match NoticeOf(kind)
    case None => None
    case Some(notice) => Some(TrackedSend(AttributeMessage(kind, attributeSet, attribute, id), notice, nodes, now))
  }

  /**
   * The first `k` members of distributeTo's loop: one AddAttribute per
   * member, in member order; member `j` is tracked under `ids[j + 1]`
   * (`ids[0]` belongs to the CreateAttributeSet).
   */
  function AddsOutcome(attributeSet: AttributeSet, ids: seq<string>, nodes: seq<Node>, now: int, k: nat): Outcome
    requires k <= |attributeSet.members| && |ids| == |attributeSet.members| + 1
  {
    if k == 0 then Nothing
    else
      AddsOutcome(attributeSet, ids, nodes, now, k - 1)
        .Then(TrackedSend(AttributeMessage(AddAttribute, attributeSet, attributeSet.members[k - 1], ids[k]), AttributeAdded, nodes, now))
  }

  /** distributeTo(attributeSet, nodes): CreateAttributeSet under ids[0], then the members under ids[1..]. */
  function SetOutcome(attributeSet: AttributeSet, ids: seq<string>, nodes: seq<Node>, now: int): Outcome
    requires |ids| == |attributeSet.members| + 1
  {
    TrackedSend(CreateMessage(attributeSet, ids[0]), SetCreated, nodes, now)
      .Then(AddsOutcome(attributeSet, ids, nodes, now, |attributeSet.members|))
  }

  /** The number of messages distributeTo(attributeSet, nodes) registers for each of `sets`, summed. */
  function MessageCount(sets: seq<AttributeSet>): nat
    decreases |sets|
  {
    if sets == [] then 0
    else MessageCount(sets[..|sets| - 1]) + |sets[|sets| - 1].members| + 1
  }

  /** Tracking ids for synchronizeTo: one block per set, one id per message of that set. */
  predicate IdsFit(sets: seq<AttributeSet>, ids: seq<seq<string>>)
  {
    |ids| == |sets| && forall k :: 0 <= k < |sets| ==> |ids[k]| == |sets[k].members| + 1
  }

  /** synchronizeTo(sets, target): each set in turn, to `[target]` only; `ids[k]` tracks `sets[k]`. */
  function SyncOutcome(sets: seq<AttributeSet>, ids: seq<seq<string>>, target: Node, now: int): Outcome
    requires IdsFit(sets, ids)
    decreases |sets|
  {
    if sets == [] then Nothing
    else
      var n := |sets| - 1;
      SyncOutcome(sets[..n], ids[..n], target, now).Then(SetOutcome(sets[n], ids[n], [target], now))
  }

  /** redistributeUnconfirmed: for each due entry, a log line and a re-send to its outstanding nodes. */
  function RedistributeEvents(due: seq<Entry>): seq<Event>
    requires Tracked(due)
    decreases |due|
  {
    if due == [] then []
    else
      var n := |due| - 1;
      assert due[n] in due;
      RedistributeEvents(due[..n]) +
        [Logged(due[n].trackingId, due[n].nodes), Send(due[n].message.value, due[n].nodes)]
  }

  /** confirm(correlatingId, attributeSet, toOriginalSource): the confirmation sent back, then the local notice. */
  function ConfirmSetEvents(correlatingId: string, attributeSet: AttributeSet, id: string, toOriginalSource: Node): seq<Event>
  {
    [Send(Message(ConfirmCreateAttributeSet, id, correlatingId, attributeSet.name, ""), [toOriginalSource]),
     Inform(SetCreated, attributeSet.name, "")]
  }

  /** confirm(correlatingId, attributeSet, tracked, type, toOriginalSource); None when the type is rejected. */
  function ConfirmAttributeEvents(correlatingId: string, attributeSet: AttributeSet, attribute: string, kind: MessageType,
                                  id: string, toOriginalSource: Node): Option<seq<Event>>
  {
    match ConfirmationOf(kind)
    case None => None
    case Some(confirmation) =>
      Some([Send(Message(confirmation, id, correlatingId, attributeSet.name, attribute), [toOriginalSource]),
            Inform(NoticeOf(kind).value, attributeSet.name, attribute)])
  }

  // ---------------------------------------------------------------------------
  // Properties of the outcomes

  /**
   * Attribute dispatch: Add, Remove and Replace each register one entry of
   * their own kind for `nodes`, send it there, and fire their own notice;
   * every other type is rejected.
   */
  lemma AttributeDispatch(attributeSet: AttributeSet, attribute: string, kind: MessageType, id: string, nodes: seq<Node>, now: int)
    ensures AttributeOutcome(attributeSet, attribute, kind, id, nodes, now).None? <==>
            kind !in {AddAttribute, RemoveAttribute, ReplaceAttribute}
    ensures AttributeOutcome(attributeSet, attribute, kind, id, nodes, now).Some? ==>
            var o, m := AttributeOutcome(attributeSet, attribute, kind, id, nodes, now).value, Message(kind, id, "", attributeSet.name, attribute);
            o.registered == [Entry(id, Some(m), nodes, now)] &&
            o.events == [Send(m, nodes), Inform(NoticeOf(kind).value, attributeSet.name, attribute)] &&
            (kind == AddAttribute ==> NoticeOf(kind).value == AttributeAdded) &&
            (kind == RemoveAttribute ==> NoticeOf(kind).value == AttributeRemoved) &&
            (kind == ReplaceAttribute ==> NoticeOf(kind).value == AttributeReplaced)
  {
  }

  /**
   * The `k`th message distributeTo(attributeSet, nodes) sends: the
   * CreateAttributeSet for k == 0, then the AddAttribute of member k - 1.
   */
  function SetMessage(attributeSet: AttributeSet, ids: seq<string>, k: nat): Message
    requires k < |ids| == |attributeSet.members| + 1
  {
    if k == 0 then CreateMessage(attributeSet, ids[0])
    else AttributeMessage(AddAttribute, attributeSet, attributeSet.members[k - 1], ids[k])
  }

  /** The notice distributeTo fires after sending its `k`th message. */
  function SetNotice(k: nat): Notice
  {
    if k == 0 then SetCreated else AttributeAdded
  }

  /** The member part of distributeTo: one AddAttribute per member, each registered, sent, then announced. */
  lemma {:induction false} AddsShape(attributeSet: AttributeSet, ids: seq<string>, nodes: seq<Node>, now: int, n: nat)
    requires n <= |attributeSet.members| && |ids| == |attributeSet.members| + 1
    ensures var o := AddsOutcome(attributeSet, ids, nodes, now, n);
            |o.registered| == n && |o.events| == 2 * n &&
            (forall k :: 0 <= k < n ==>
               var m := SetMessage(attributeSet, ids, k + 1);
               o.registered[k] == NewEntry(m, nodes, now) &&
               o.events[2 * k] == Send(m, nodes) &&
               o.events[2 * k + 1] == Inform(AttributeAdded, m.setName, m.attributeName))
  {
    if n > 0 {
      AddsShape(attributeSet, ids, nodes, now, n - 1);
    }
  }

  /**
   * Fan-out of distributeTo(attributeSet, nodes): |members| + 1 entries,
   * all for `nodes` and created at `now`, the `k`th tracked under `ids[k]`:
   * first the CreateAttributeSet, then one AddAttribute per member in set
   * order. Each message is registered, sent once to `nodes`, and then
   * announced, before the next one is processed.
   */
  lemma DistributeFanOut(attributeSet: AttributeSet, ids: seq<string>, nodes: seq<Node>, now: int)
    requires |ids| == |attributeSet.members| + 1
    ensures var o := SetOutcome(attributeSet, ids, nodes, now);
            |o.registered| == |ids| && |o.events| == 2 * |ids| &&
            (forall k :: 0 <= k < |ids| ==>
               var m := SetMessage(attributeSet, ids, k);
               m.trackingId == ids[k] &&
               o.registered[k] == NewEntry(m, nodes, now) &&
               o.events[2 * k] == Send(m, nodes) &&
               o.events[2 * k + 1] == Inform(SetNotice(k), attributeSet.name, m.attributeName))
  {
    AddsShape(attributeSet, ids, nodes, now, |attributeSet.members|);
    CreateThenAdds(attributeSet, ids, nodes, now, AddsOutcome(attributeSet, ids, nodes, now, |attributeSet.members|));
  }

  /** DistributeFanOut for any member part of the shape AddsShape describes. */
  lemma CreateThenAdds(attributeSet: AttributeSet, ids: seq<string>, nodes: seq<Node>, now: int, adds: Outcome)
    requires |ids| == |attributeSet.members| + 1
    requires |adds.registered| == |attributeSet.members| && |adds.events| == 2 * |attributeSet.members|
    requires forall k :: 0 <= k < |attributeSet.members| ==>
               var m := SetMessage(attributeSet, ids, k + 1);
               adds.registered[k] == NewEntry(m, nodes, now) &&
               adds.events[2 * k] == Send(m, nodes) &&
               adds.events[2 * k + 1] == Inform(AttributeAdded, m.setName, m.attributeName)
    ensures var o := TrackedSend(CreateMessage(attributeSet, ids[0]), SetCreated, nodes, now).Then(adds);
            |o.registered| == |ids| && |o.events| == 2 * |ids| &&
            (forall k :: 0 <= k < |ids| ==>
               var m := SetMessage(attributeSet, ids, k);
               m.trackingId == ids[k] &&
               o.registered[k] == NewEntry(m, nodes, now) &&
               o.events[2 * k] == Send(m, nodes) &&
               o.events[2 * k + 1] == Inform(SetNotice(k), attributeSet.name, m.attributeName))
  {
    var create := CreateMessage(attributeSet, ids[0]);
    var o := TrackedSend(create, SetCreated, nodes, now).Then(adds);
    assert o.registered == [NewEntry(create, nodes, now)] + adds.registered;
    assert o.events == [Send(create, nodes), Inform(SetCreated, attributeSet.name, "")] + adds.events;
    forall k | 0 <= k < |ids|
      ensures var m := SetMessage(attributeSet, ids, k);
              m.trackingId == ids[k] &&
              o.registered[k] == NewEntry(m, nodes, now) &&
              o.events[2 * k] == Send(m, nodes) &&
              o.events[2 * k + 1] == Inform(SetNotice(k), attributeSet.name, m.attributeName)
    {
      if k > 0 {
        var j := k - 1;
        assert o.registered[k] == adds.registered[j];
        assert o.events[2 * j + 2] == adds.events[2 * j];
        assert o.events[2 * j + 3] == adds.events[2 * j + 1];
      }
    }
  }

  /** The redistribution loop, one due entry further. */
  lemma RedistributeStep(due: seq<Entry>, k: nat)
    requires Tracked(due) && k < |due|
    ensures Tracked(due[..k]) && Tracked(due[..k + 1]) && due[k].message.Some?
    ensures RedistributeEvents(due[..k + 1]) == RedistributeEvents(due[..k]) +
              [Logged(due[k].trackingId, due[k].nodes), Send(due[k].message.value, due[k].nodes)]
  {
    assert due[k] in due && due[..k + 1][..k] == due[..k];
    assert forall e | e in due[..k + 1] :: e in due;
  }

  /** The synchronization loop, one set further. */
  lemma SyncStep(sets: seq<AttributeSet>, ids: seq<seq<string>>, target: Node, now: int, k: nat)
    requires IdsFit(sets, ids) && k < |sets|
    ensures IdsFit(sets[..k], ids[..k]) && IdsFit(sets[..k + 1], ids[..k + 1])
    ensures SyncOutcome(sets[..k + 1], ids[..k + 1], target, now) ==
            SyncOutcome(sets[..k], ids[..k], target, now).Then(SetOutcome(sets[k], ids[k], [target], now))
  {
    assert sets[..k + 1][..k] == sets[..k];
    assert ids[..k + 1][..k] == ids[..k];
  }

  /** Every entry distributeTo(attributeSet, nodes) registers, and every send it makes, is for `nodes`. */
  lemma {:induction false} AddsAddressedTo(attributeSet: AttributeSet, ids: seq<string>, nodes: seq<Node>, now: int, n: nat)
    requires n <= |attributeSet.members| && |ids| == |attributeSet.members| + 1
    ensures var o := AddsOutcome(attributeSet, ids, nodes, now, n);
            (forall e | e in o.registered :: e.nodes == nodes) &&
            (forall ev | ev in o.events && ev.Send? :: ev.nodes == nodes)
  {
    if n > 0 {
      AddsAddressedTo(attributeSet, ids, nodes, now, n - 1);
    }
  }

  /**
   * Targeted synchronization: synchronizeTo(sets, target) registers one
   * entry per message of every set, all addressed to exactly [target],
   * and every send it makes goes to [target] alone.
   */
  lemma {:induction false} SynchronizeOnlyToTarget(sets: seq<AttributeSet>, ids: seq<seq<string>>, target: Node, now: int)
    requires IdsFit(sets, ids)
    ensures var o := SyncOutcome(sets, ids, target, now);
            |o.registered| == MessageCount(sets) &&
            (forall e | e in o.registered :: e.nodes == [target]) &&
            (forall ev | ev in o.events && ev.Send? :: ev.nodes == [target])
    decreases |sets|
  {
    if sets != [] {
      var n := |sets| - 1;
      SynchronizeOnlyToTarget(sets[..n], ids[..n], target, now);
      AddsAddressedTo(sets[n], ids[n], [target], now, |sets[n].members|);
      AddsShape(sets[n], ids[n], [target], now, |sets[n].members|);
    }
  }

  /**
   * Redistribution addressing: each due entry is logged and re-sent once,
   * in ledger order, to its current outstanding nodes (not its original
   * destinations).
   */
  lemma {:induction false} RedistributeAddressing(due: seq<Entry>)
    requires Tracked(due)
    ensures |RedistributeEvents(due)| == 2 * |due|
    ensures forall k :: 0 <= k < |due| ==>
              RedistributeEvents(due)[2 * k] == Logged(due[k].trackingId, due[k].nodes) &&
              RedistributeEvents(due)[2 * k + 1] == Send(due[k].message.value, due[k].nodes)
    decreases |due|
  {
    if due != [] {
      var n := |due| - 1;
      var init := due[..n];
      assert forall e | e in init :: e in due;
      RedistributeAddressing(init);
      assert due[n] in due;
      var last := [Logged(due[n].trackingId, due[n].nodes), Send(due[n].message.value, due[n].nodes)];
      assert RedistributeEvents(due) == RedistributeEvents(init) + last;
      forall k | 0 <= k < |due|
        ensures RedistributeEvents(due)[2 * k] == Logged(due[k].trackingId, due[k].nodes)
        ensures RedistributeEvents(due)[2 * k + 1] == Send(due[k].message.value, due[k].nodes)
      {
        if k < n {
          assert due[k] == init[k];
        }
      }
    }
  }

  /**
   * The confirm overloads: one send, of the confirmation kind answering the
   * mutation, carrying the correlating id, to the original source alone;
   * then the same notice the mutation fires. An unsupported type is rejected.
   */
  lemma ConfirmReplies(correlatingId: string, attributeSet: AttributeSet, attribute: string, kind: MessageType,
                       id: string, toOriginalSource: Node)
    ensures var evs := ConfirmSetEvents(correlatingId, attributeSet, id, toOriginalSource);
            |evs| == 2 && evs[0].Send? && evs[0].nodes == [toOriginalSource] &&
            evs[0].message.kind == ConfirmCreateAttributeSet && evs[0].message.correlatingId == correlatingId &&
            evs[1] == Inform(SetCreated, attributeSet.name, "")
    ensures ConfirmAttributeEvents(correlatingId, attributeSet, attribute, kind, id, toOriginalSource).Some? <==>
            NoticeOf(kind).Some?
    ensures ConfirmAttributeEvents(correlatingId, attributeSet, attribute, kind, id, toOriginalSource).Some? ==>
            var evs := ConfirmAttributeEvents(correlatingId, attributeSet, attribute, kind, id, toOriginalSource).value;
            |evs| == 2 && evs[0].Send? && evs[0].nodes == [toOriginalSource] &&
            evs[0].message.kind == ConfirmationOf(kind).value && evs[0].message.correlatingId == correlatingId &&
            evs[1] == Inform(NoticeOf(kind).value, attributeSet.name, attribute)
  {
  }

  // ---------------------------------------------------------------------------
  // The distributor

  class ConfirmingDistributor {
    const node: Node
    const allOtherNodes: seq<Node>
    const confirmables: Confirmables

    /** Everything sent, announced to the application and logged, in order. */
    ghost var log: seq<Event>

    /** What the distributor has done so far: the ledger's entries and the event log. */
    ghost function Observed(): Outcome
      reads this, confirmables
    {
      Outcome(confirmables.Contents, log)
    }

    ghost predicate Valid()
      reads confirmables, confirmables.Repr
    {
      this !in confirmables.Repr && confirmables.Valid() && confirmables.allOtherNodes == allOtherNodes
    }

    /** `allOtherNodes` stands for the configuration's nodes other than `node`. */
    constructor (node: Node, allOtherNodes: seq<Node>)
      ensures Valid() && fresh(confirmables.Repr)
      ensures confirmables.Contents == [] && log == []
      ensures this.node == node && this.allOtherNodes == allOtherNodes
    {
      this.node := node;
      this.allOtherNodes := allOtherNodes;
      confirmables := new Confirmables(allOtherNodes);
      log := [];
    }

    /** An inbound confirmation: the ledger strikes `node` off `trackingId`. */
    method AcknowledgeConfirmation(trackingId: string, node: Node)
      requires Valid()
      modifies confirmables.Repr
      ensures Valid() && confirmables.Repr == old(confirmables.Repr)
      ensures confirmables.Contents == Confirmed(old(confirmables.Contents), trackingId, node)
      ensures log == old(log)
    {
      confirmables.Confirm(trackingId, node);
    }

    method AllTrackingIds() returns (ids: seq<string>)
      requires Valid()
      ensures |ids| == |confirmables.Contents|
      ensures forall k :: 0 <= k < |ids| ==> ids[k] == confirmables.Contents[k].trackingId
    {
      ids := confirmables.AllTrackingIds();
      TrackingIdsAt(confirmables.Contents);
    }

    /** distribute(attributeSet): distributeTo(attributeSet, allOtherNodes). */
    method Distribute(attributeSet: AttributeSet, ids: seq<string>, now: int)
      requires Valid() && |ids| == |attributeSet.members| + 1
      modifies this, confirmables.Repr
      ensures Valid() && fresh(confirmables.Repr - old(confirmables.Repr))
      ensures Observed() == old(Observed()).Then(SetOutcome(attributeSet, ids, allOtherNodes, now))
    {
      DistributeTo(attributeSet, ids, allOtherNodes, now);
    }

    /** Sends CreateAttributeSet and then one AddAttribute per member to `nodes`, each tracked. */
    method DistributeTo(attributeSet: AttributeSet, ids: seq<string>, nodes: seq<Node>, now: int)
      requires Valid() && |ids| == |attributeSet.members| + 1
      modifies this, confirmables.Repr
      ensures Valid() && fresh(confirmables.Repr - old(confirmables.Repr))
      ensures Observed() == old(Observed()).Then(SetOutcome(attributeSet, ids, nodes, now))
    {
      SendTracked(CreateMessage(attributeSet, ids[0]), SetCreated, nodes, now);
      DistributeMembersTo(attributeSet, ids, nodes, now);
      ThenAssociates(old(Observed()), TrackedSend(CreateMessage(attributeSet, ids[0]), SetCreated, nodes, now),
                     AddsOutcome(attributeSet, ids, nodes, now, |attributeSet.members|));
    }

    /** The member loop of distributeTo: an AddAttribute per member, in set order. */
    method DistributeMembersTo(attributeSet: AttributeSet, ids: seq<string>, nodes: seq<Node>, now: int)
      requires Valid() && |ids| == |attributeSet.members| + 1
      modifies this, confirmables.Repr
      ensures Valid() && fresh(confirmables.Repr - old(confirmables.Repr))
      ensures Observed() == old(Observed()).Then(AddsOutcome(attributeSet, ids, nodes, now, |attributeSet.members|))
    {
      var k := 0;
      while k < |attributeSet.members|
        invariant 0 <= k <= |attributeSet.members|
        invariant Valid() && fresh(confirmables.Repr - old(confirmables.Repr))
        invariant Observed() == old(Observed()).Then(AddsOutcome(attributeSet, ids, nodes, now, k))
      {
        ThenAssociates(old(Observed()), AddsOutcome(attributeSet, ids, nodes, now, k),
                       AttributeOutcome(attributeSet, attributeSet.members[k], AddAttribute, ids[k + 1], nodes, now).value);
        var status := DistributeAttributeTo(attributeSet, attributeSet.members[k], AddAttribute, ids[k + 1], nodes, now);
        k := k + 1;
      }
    }

    /** distribute(attributeSet, tracked, type): distributeTo(attributeSet, tracked, type, allOtherNodes). */
    method DistributeAttribute(attributeSet: AttributeSet, attribute: string, kind: MessageType, id: string, now: int)
      returns (status: Status)
      requires Valid()
      modifies this, confirmables.Repr
      ensures Valid() && fresh(confirmables.Repr - old(confirmables.Repr))
      ensures status == if AttributeOutcome(attributeSet, attribute, kind, id, allOtherNodes, now).Some?
                        then Success else IllegalArgument(CannotDistribute)
      ensures Observed() == old(Observed()).Then(AttributeOutcome(attributeSet, attribute, kind, id, allOtherNodes, now).GetOr(Nothing))
    {
      status := DistributeAttributeTo(attributeSet, attribute, kind, id, allOtherNodes, now);
    }

    /**
     * Registers, sends and announces one Add, Remove or Replace to `nodes`;
     * any other type is refused with nothing registered, sent or announced.
     */
    method DistributeAttributeTo(attributeSet: AttributeSet, attribute: string, kind: MessageType, id: string,
                                 nodes: seq<Node>, now: int)
      returns (status: Status)
      requires Valid()
      modifies this, confirmables.Repr
      ensures Valid() && fresh(confirmables.Repr - old(confirmables.Repr))
      ensures status == if AttributeOutcome(attributeSet, attribute, kind, id, nodes, now).Some?
                        then Success else IllegalArgument(CannotDistribute)
      ensures Observed() == old(Observed()).Then(AttributeOutcome(attributeSet, attribute, kind, id, nodes, now).GetOr(Nothing))
    {
      match kind {
        case AddAttribute =>
          SendTracked(AttributeMessage(AddAttribute, attributeSet, attribute, id), AttributeAdded, nodes, now);
          status := Success;
        case RemoveAttribute =>
          SendTracked(AttributeMessage(RemoveAttribute, attributeSet, attribute, id), AttributeRemoved, nodes, now);
          status := Success;
        case ReplaceAttribute =>
          SendTracked(AttributeMessage(ReplaceAttribute, attributeSet, attribute, id), AttributeReplaced, nodes, now);
          status := Success;
        case _ =>
          status := IllegalArgument(CannotDistribute);
      }
    }

    /**
     * The step every distribution shares: register `m` in the ledger for
     * `nodes`, send it to the entry's outstanding nodes, then fire `notice`.
     */
    method SendTracked(m: Message, notice: Notice, nodes: seq<Node>, now: int)
      requires Valid()
      modifies this, confirmables.Repr
      ensures Valid() && fresh(confirmables.Repr - old(confirmables.Repr))
      ensures Observed() == old(Observed()).Then(TrackedSend(m, notice, nodes, now))
    {
      var confirmable := confirmables.UnconfirmedFor(m, nodes, now);
      log := log + [Send(m, confirmable.unconfirmedNodes)];
      log := log + [Inform(notice, m.setName, m.attributeName)];
    }

    /** Confirms a created set back to its originator and announces it locally; the ledger is untouched. */
    method ConfirmSet(correlatingId: string, attributeSet: AttributeSet, id: string, toOriginalSource: Node)
      requires Valid()
      modifies this
      ensures Valid() && confirmables.Contents == old(confirmables.Contents)
      ensures log == old(log) + ConfirmSetEvents(correlatingId, attributeSet, id, toOriginalSource)
    {
      var confirm := Message(ConfirmCreateAttributeSet, id, correlatingId, attributeSet.name, "");
      log := log + [Send(confirm, [toOriginalSource])];
      log := log + [Inform(SetCreated, attributeSet.name, "")];
    }

    /**
     * Confirms an Add, Remove or Replace back to its originator and announces
     * it locally; any other type is refused. The ledger is untouched.
     */
    method ConfirmAttribute(correlatingId: string, attributeSet: AttributeSet, attribute: string, kind: MessageType,
                            id: string, toOriginalSource: Node)
      returns (status: Status)
      requires Valid()
      modifies this
      ensures Valid() && confirmables.Contents == old(confirmables.Contents)
      ensures status == if ConfirmAttributeEvents(correlatingId, attributeSet, attribute, kind, id, toOriginalSource).Some?
                        then Success else IllegalArgument(CannotConfirm)
      ensures log == old(log) + ConfirmAttributeEvents(correlatingId, attributeSet, attribute, kind, id, toOriginalSource).GetOr([])
    {
      match kind {
        case AddAttribute =>
          var confirmAdd := Message(ConfirmAddAttribute, id, correlatingId, attributeSet.name, attribute);
          log := log + [Send(confirmAdd, [toOriginalSource])];
          log := log + [Inform(AttributeAdded, attributeSet.name, attribute)];
          status := Success;
        case RemoveAttribute =>
          var confirmRemove := Message(ConfirmRemoveAttribute, id, correlatingId, attributeSet.name, attribute);
          log := log + [Send(confirmRemove, [toOriginalSource])];
          log := log + [Inform(AttributeRemoved, attributeSet.name, attribute)];
          status := Success;
        case ReplaceAttribute =>
          var confirmReplace := Message(ConfirmReplaceAttribute, id, correlatingId, attributeSet.name, attribute);
          log := log + [Send(confirmReplace, [toOriginalSource])];
          log := log + [Inform(AttributeReplaced, attributeSet.name, attribute)];
          status := Success;
        case _ =>
          status := IllegalArgument(CannotConfirm);
      }
    }

    /** Re-sends every due entry's message to the nodes that still owe a confirmation. */
    method RedistributeUnconfirmed(now: int, interval: int)
      requires Valid()
      modifies this
      ensures Valid() && confirmables.Contents == old(confirmables.Contents)
      ensures Tracked(Due(confirmables.Contents, now, interval))
      ensures log == old(log) + RedistributeEvents(Due(confirmables.Contents, now, interval))
    {
      DueIsTracked(confirmables.Contents, now, interval);
      var ready := confirmables.AllRedistributable(now, interval);
      Resend(ready, Due(confirmables.Contents, now, interval));
    }

    /** The loop of redistributeUnconfirmed over the confirmables `ready`, whose values are `due`. */
    method Resend(ready: seq<Confirmable>, ghost due: seq<Entry>)
      requires |ready| == |due| && Tracked(due)
      requires forall j :: 0 <= j < |ready| ==> ready[j].View() == due[j]
      modifies this
      ensures log == old(log) + RedistributeEvents(due)
    {
      var k := 0;
      while k < |ready|
        invariant 0 <= k <= |ready|
        invariant Tracked(due[..k])
        invariant log == old(log) + RedistributeEvents(due[..k])
      {
        var confirmable := ready[k];
        RedistributeStep(due, k);
        assert confirmable.View() == due[k];
        log := log + [Logged(confirmable.trackingId, confirmable.unconfirmedNodes)];
        log := log + [Send(confirmable.message.value, confirmable.unconfirmedNodes)];
        k := k + 1;
      }
      assert due[..k] == due;
    }

    /** Replays every set to `targetNode` alone, in order. */
    method SynchronizeTo(sets: seq<AttributeSet>, ids: seq<seq<string>>, targetNode: Node, now: int)
      requires Valid() && IdsFit(sets, ids)
      modifies this, confirmables.Repr
      ensures Valid() && fresh(confirmables.Repr - old(confirmables.Repr))
      ensures Observed() == old(Observed()).Then(SyncOutcome(sets, ids, targetNode, now))
    {
      var onlyOneTargetNode := [targetNode];
      var k := 0;
      while k < |sets|
        invariant 0 <= k <= |sets| && IdsFit(sets[..k], ids[..k])
        invariant Valid() && fresh(confirmables.Repr - old(confirmables.Repr))
        invariant Observed() == old(Observed()).Then(SyncOutcome(sets[..k], ids[..k], targetNode, now))
      {
        SyncStep(sets, ids, targetNode, now, k);
        ThenAssociates(old(Observed()), SyncOutcome(sets[..k], ids[..k], targetNode, now),
                       SetOutcome(sets[k], ids[k], onlyOneTargetNode, now));
        DistributeTo(sets[k], ids[k], onlyOneTargetNode, now);
        k := k + 1;
      }
      assert sets[..k] == sets && ids[..k] == ids;
    }

    /** The nodes still owing a confirmation for `trackingId`; empty for an unknown id. */
    method UnconfirmedNodesFor(trackingId: string) returns (nodes: seq<Node>)
      requires Valid()
      ensures nodes == LookUp(confirmables.Contents, trackingId).nodes
      ensures (forall e | e in confirmables.Contents :: e.trackingId != trackingId) ==> nodes == []
    {
      var confirmable := confirmables.ConfirmableOf(trackingId);
      nodes := confirmable.unconfirmedNodes;
      if forall e | e in confirmables.Contents :: e.trackingId != trackingId {
        FirstIndexAbsent(confirmables.Contents, trackingId);
      }
    }
  }
}
