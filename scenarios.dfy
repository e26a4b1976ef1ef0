/**
 * The end-to-end and redistribution scenarios of a three-node cluster
 * {A, B, C}, stated on the ledger values: node A creates the attribute set
 * "config" holding the one attribute "replicas" and distributes it to the
 * other two nodes at time 0.
 */
module Scenarios {
  import opened AttributeMessages
  import opened ConfirmationLedger
  import opened Distribution

  const B := Node(1)
  const C := Node(2)

  const Config := AttributeSet("config", ["replicas"])
  /** The tracking ids of the CreateAttributeSet and of the AddAttribute. */
  const CreateId := "create-config"
  const AddId := "add-replicas"

  /** The two entries distribution registers at A, each waiting for B and C. */
  const Create := Entry(CreateId, Some(CreateMessage(Config, CreateId)), [B, C], 0)
  const Add := Entry(AddId, Some(AttributeMessage(AddAttribute, Config, "replicas", AddId)), [B, C], 0)

  /** distribute(Config) from A to {B, C} at time 0 registers the create, then the add. */
  lemma Registration()
    ensures SetOutcome(Config, [CreateId, AddId], [B, C], 0).registered == [Create, Add]
  {
    DistributeFanOut(Config, [CreateId, AddId], [B, C], 0);
  }

  /** B confirms the create; then C confirms the create and the add. */
  const Acks := [Ack(CreateId, B), Ack(CreateId, C), Ack(AddId, C)]

  // One acknowledgement at a time.

  /** B's confirmation of the create leaves it in place, waiting for C only. */
  lemma BConfirmsCreate()
    ensures Confirmed([Create, Add], CreateId, B) == [Create.(nodes := [C]), Add]
  {
    assert RemoveFirst([B, C], B) == [C];
  }

  lemma CConfirmsCreate()
    ensures Confirmed([Create.(nodes := [C]), Add], CreateId, C) == [Add]
  {
    assert RemoveFirst([C], C) == [];
  }

  lemma CConfirmsAdd()
    ensures Confirmed([Add], AddId, C) == [Add.(nodes := [B])]
  {
    assert RemoveFirst([C], C) == [];
    assert RemoveFirst([B, C], C) == [B];
  }

  lemma BConfirmsAdd()
    ensures Confirmed([Add.(nodes := [B])], AddId, B) == []
  {
    assert RemoveFirst([B], B) == [];
  }

  lemma BConfirmsAddFirst()
    ensures Confirmed([Create.(nodes := [C]), Add], AddId, B) == [Create.(nodes := [C]), Add.(nodes := [C])]
  {
    assert CreateId != AddId;
    FirstIndexIs([Create.(nodes := [C]), Add], AddId, 1);
    assert RemoveFirst([B, C], B) == [C];
  }

  /** Acknowledgements are applied front to back. */
  lemma ConfirmedAllFirst(es: seq<Entry>, ack: Ack, rest: seq<Ack>)
    ensures ConfirmedAll(es, [ack] + rest) == ConfirmedAll(Confirmed(es, ack.trackingId, ack.node), rest)
  {
    assert ([ack] + rest)[1..] == rest;
  }

  /** C's two acknowledgements, after B's. */
  lemma CConfirmsBoth()
    ensures ConfirmedAll([Create.(nodes := [C]), Add], [Ack(CreateId, C), Ack(AddId, C)]) == [Add.(nodes := [B])]
  {
    CConfirmsCreate();
    CConfirmsAdd();
    ConfirmedAllFirst([Add], Ack(AddId, C), []);
    ConfirmedAllFirst([Create.(nodes := [C]), Add], Ack(CreateId, C), [Ack(AddId, C)]);
    assert [Ack(CreateId, C), Ack(AddId, C)] == [Ack(CreateId, C)] + [Ack(AddId, C)];
  }

  /**
   * End to end: B's confirmation of the create leaves it waiting for C
   * only, still in the ledger (BConfirmsCreate). After C confirms both, the
   * AddAttribute entry is still waiting for B.
   */
  lemma EndToEnd()
    ensures ConfirmedAll([Create, Add], Acks) == [Add.(nodes := [B])]
  {
    BConfirmsCreate();
    CConfirmsBoth();
    ConfirmedAllFirst([Create, Add], Ack(CreateId, B), [Ack(CreateId, C), Ack(AddId, C)]);
    assert Acks == [Ack(CreateId, B)] + [Ack(CreateId, C), Ack(AddId, C)];
  }

  /** ... and once B confirms the add too, both entries are purged and no tracking id is left. */
  lemma EndToEndPurgesAll()
    ensures TrackingIds(ConfirmedAll([Create, Add], Acks + [Ack(AddId, B)])) == []
  {
    EndToEnd();
    ConfirmedAllAppend([Create, Add], Acks, [Ack(AddId, B)]);
    BConfirmsAdd();
    ConfirmedAllFirst([Add.(nodes := [B])], Ack(AddId, B), []);
  }

  /** B confirms both entries; C never answers. */
  lemma OnlyBConfirms()
    ensures ConfirmedAll([Create, Add], [Ack(CreateId, B), Ack(AddId, B)]) == [Create.(nodes := [C]), Add.(nodes := [C])]
  {
    BConfirmsCreate();
    BConfirmsAddFirst();
    ConfirmedAllFirst([Create.(nodes := [C]), Add], Ack(AddId, B), []);
    ConfirmedAllFirst([Create, Add], Ack(CreateId, B), [Ack(AddId, B)]);
    assert [Ack(CreateId, B), Ack(AddId, B)] == [Ack(CreateId, B)] + [Ack(AddId, B)];
  }

  /**
   * Redistribution: when B has confirmed both entries and C never answers,
   * a sweep past the interval re-sends both messages to {C} alone.
   */
  lemma RedistributionToLaggard()
    ensures var es := ConfirmedAll([Create, Add], [Ack(CreateId, B), Ack(AddId, B)]);
            es == [Create.(nodes := [C]), Add.(nodes := [C])] &&
            Tracked(es) && Due(es, 2, 1) == es &&
            RedistributeEvents(es) ==
              [Logged(CreateId, [C]), Send(CreateMessage(Config, CreateId), [C]),
               Logged(AddId, [C]), Send(AttributeMessage(AddAttribute, Config, "replicas", AddId), [C])]
  {
    OnlyBConfirms();
    LaggardDue();
    LaggardResent();
  }

  /** Both entries, created at 0, are due at 2 with interval 1. */
  lemma LaggardDue()
    ensures Due([Create.(nodes := [C]), Add.(nodes := [C])], 2, 1) == [Create.(nodes := [C]), Add.(nodes := [C])]
  {
    var es := [Create.(nodes := [C]), Add.(nodes := [C])];
    assert es[..1] == [es[0]];
    assert Due(es[..1], 2, 1) == [es[0]];
  }

  /** The sweep logs and re-sends each entry to C alone, in ledger order. */
  lemma LaggardResent()
    ensures Tracked([Create.(nodes := [C]), Add.(nodes := [C])])
    ensures RedistributeEvents([Create.(nodes := [C]), Add.(nodes := [C])]) ==
              [Logged(CreateId, [C]), Send(CreateMessage(Config, CreateId), [C]),
               Logged(AddId, [C]), Send(AttributeMessage(AddAttribute, Config, "replicas", AddId), [C])]
  {
    var es := [Create.(nodes := [C]), Add.(nodes := [C])];
    assert es[..1] == [es[0]];
    assert RedistributeEvents(es[..1]) == [Logged(CreateId, [C]), Send(CreateMessage(Config, CreateId), [C])];
  }
}
