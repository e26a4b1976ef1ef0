/**
 * The confirmation ledger (Confirmables.java): an ordered list of
 * Confirmable entries, each tracking which addressed nodes have not yet
 * acknowledged one outbound message.
 *
 * The first half states the ledger's behaviour on values (`seq<Entry>`)
 * and proves its properties; the second half is the imperative ledger,
 * two classes whose methods are proved against those functions.
 */
module ConfirmationLedger {
  import opened AttributeMessages

  /** The value of one Confirmable: its id, message, outstanding nodes and creation time. */
  datatype Entry = Entry(trackingId: string, message: Option<Message>, nodes: seq<Node>, createdOn: int)

  /** The value of the NoConfirmable sentinel: no message, no nodes, tracking id "". */
  const NoEntry: Entry := Entry("", None, [], 0)

  /** The entry registered for `message`, addressed to `nodes`, at time `now`. */
  function NewEntry(message: Message, nodes: seq<Node>, now: int): Entry
  {
    Entry(message.trackingId, Some(message), nodes, now)
  }

  /** Every entry carries its message and is keyed by that message's tracking id. */
  ghost predicate Tracked(es: seq<Entry>)
  {
    forall e | e in es :: e.message.Some? && e.message.value.trackingId == e.trackingId
  }

  // ---------------------------------------------------------------------------
  // Node lists

  /** List.remove(Object) on a node list: drops the first occurrence of `n`, if any. */
  function RemoveFirst(s: seq<Node>, n: Node): (r: seq<Node>)
    ensures multiset(r) == multiset(s) - multiset{n}
    ensures |r| == if n in s then |s| - 1 else |s|
    ensures n !in s ==> r == s
  {
    if s == [] then []
    else
      assert s == [s[0]] + s[1..];
      if s[0] == n then s[1..] else [s[0]] + RemoveFirst(s[1..], n)
  }

  // ---------------------------------------------------------------------------
  // Lookup

  /** Index of the first entry tracked under `id`, or |es| when none is. */
  function FirstIndex(es: seq<Entry>, id: string): (i: nat)
    ensures i <= |es|
    ensures i < |es| ==> es[i].trackingId == id
    ensures forall k :: 0 <= k < i ==> es[k].trackingId != id
  {
    if es == [] then 0
    else if es[0].trackingId == id then 0
    else 1 + FirstIndex(es[1..], id)
  }

  /** confirmableOf on values: the first entry tracked under `id`, or the sentinel. */
  function LookUp(es: seq<Entry>, id: string): Entry
  {
    var i := FirstIndex(es, id);
    if i < |es| then es[i] else NoEntry
  }

  /** List.remove(confirmable) with trackingId-based equality: drops the first entry tracked under `id`. */
  function Purge(es: seq<Entry>, id: string): seq<Entry>
  {
    var i := FirstIndex(es, id);
    if i < |es| then es[..i] + es[i + 1..] else es
  }

  // ---------------------------------------------------------------------------
  // Confirmation

  /**
   * Confirmables.confirm on values. The looked-up entry (or the sentinel)
   * loses one occurrence of `node`; when it then has no outstanding node it
   * is removed with trackingId-based equality. For an unknown id that is the
   * sentinel, whose id is "", so the first entry tracked under "" is removed.
   */
  function Confirmed(es: seq<Entry>, id: string, node: Node): seq<Entry>
  {
    var i := FirstIndex(es, id);
    if i < |es| then
      var left := RemoveFirst(es[i].nodes, node);
      if left == [] then Purge(es, id) else es[i := es[i].(nodes := left)]
    else
      Purge(es, NoEntry.trackingId)
  }

  /** An acknowledgement: `node` confirms the message tracked under `trackingId`. */
  datatype Ack = Ack(trackingId: string, node: Node)

  /** The ledger after a series of acknowledgements, applied in order. */
  function ConfirmedAll(es: seq<Entry>, acks: seq<Ack>): seq<Entry>
    decreases |acks|
  {
    if acks == [] then es
    else ConfirmedAll(Confirmed(es, acks[0].trackingId, acks[0].node), acks[1..])
  }

  /** Acknowledging `a` and then `b` is acknowledging `a + b`. */
  lemma {:induction false} ConfirmedAllAppend(es: seq<Entry>, a: seq<Ack>, b: seq<Ack>)
    ensures ConfirmedAll(es, a + b) == ConfirmedAll(ConfirmedAll(es, a), b)
    decreases |a|
  {
    if a == [] {
      assert a + b == b;
    } else {
      assert (a + b)[1..] == a[1..] + b;
      ConfirmedAllAppend(Confirmed(es, a[0].trackingId, a[0].node), a[1..], b);
    }
  }

  /** Same entry, with a node list that is a sub-multiset of the earlier one. */
  ghost predicate FewerNodes(before: Entry, after: Entry)
  {
    after.trackingId == before.trackingId && after.message == before.message &&
    after.createdOn == before.createdOn && multiset(after.nodes) <= multiset(before.nodes)
  }

  /**
   * `after` arises from `before` by dropping entries and dropping nodes from
   * the remaining entries' lists, keeping the ledger order.
   */
  ghost predicate Shrinks(before: seq<Entry>, after: seq<Entry>)
    decreases |before|
  {
    if after == [] then true
    else if before == [] then false
    else (FewerNodes(before[0], after[0]) && Shrinks(before[1..], after[1..]))
         || Shrinks(before[1..], after)
  }

  lemma {:induction false} ShrinksReflexive(es: seq<Entry>)
    ensures Shrinks(es, es)
    decreases |es|
  {
    if es != [] {
      ShrinksReflexive(es[1..]);
    }
  }

  lemma {:induction false} ShrinksByDropping(es: seq<Entry>, i: nat)
    requires i < |es|
    ensures Shrinks(es, es[..i] + es[i + 1..])
    decreases i
  {
    if i == 0 {
      assert es[..0] + es[1..] == es[1..];
      ShrinksReflexive(es[1..]);
    } else {
      var r := es[..i] + es[i + 1..];
      ShrinksByDropping(es[1..], i - 1);
      assert r[0] == es[0];
      assert r[1..] == es[1..][..i - 1] + es[1..][i..];
    }
  }

  lemma {:induction false} ShrinksByUpdating(es: seq<Entry>, i: nat, e: Entry)
    requires i < |es| && FewerNodes(es[i], e)
    ensures Shrinks(es, es[i := e])
    decreases i
  {
    var r := es[i := e];
    if i == 0 {
      ShrinksReflexive(es[1..]);
      assert r[1..] == es[1..];
    } else {
      ShrinksByUpdating(es[1..], i - 1, e);
      assert r[1..] == es[1..][i - 1 := e];
      ShrinksReflexive([es[0]]);
    }
  }

  lemma {:induction false} ShrinksTransitive(a: seq<Entry>, b: seq<Entry>, c: seq<Entry>)
    requires Shrinks(a, b) && Shrinks(b, c)
    ensures Shrinks(a, c)
    decreases |a|
  {
    if c != [] {
      if Shrinks(a[1..], b) {
        ShrinksTransitive(a[1..], b, c);
      } else if FewerNodes(b[0], c[0]) && Shrinks(b[1..], c[1..]) {
        ShrinksTransitive(a[1..], b[1..], c[1..]);
      } else {
        ShrinksTransitive(a[1..], b[1..], c);
      }
    }
  }

  /** Every entry left after shrinking stems from an earlier entry with at least its nodes. */
  lemma {:induction false} ShrinksOnlyKeeps(a: seq<Entry>, b: seq<Entry>)
    requires Shrinks(a, b)
    ensures |b| <= |a|
    ensures forall x | x in b :: exists y | y in a :: FewerNodes(y, x)
    decreases |a|
  {
    if b != [] {
      if Shrinks(a[1..], b) {
        ShrinksOnlyKeeps(a[1..], b);
      } else {
        ShrinksOnlyKeeps(a[1..], b[1..]);
        assert b == [b[0]] + b[1..];
        assert a[0] in a;
      }
    }
  }

  /** The first match is the one index that matches with no match before it. */
  lemma {:induction false} FirstIndexIs(es: seq<Entry>, id: string, i: nat)
    requires i < |es| && es[i].trackingId == id
    requires forall k :: 0 <= k < i ==> es[k].trackingId != id
    ensures FirstIndex(es, id) == i
    decreases i
  {
    if i > 0 {
      FirstIndexIs(es[1..], id, i - 1);
    }
  }

  lemma FirstIndexAfterUpdate(es: seq<Entry>, id: string, e: Entry)
    requires FirstIndex(es, id) < |es| && e.trackingId == id
    ensures FirstIndex(es[FirstIndex(es, id) := e], id) == FirstIndex(es, id)
  {
    FirstIndexIs(es[FirstIndex(es, id) := e], id, FirstIndex(es, id));
  }

  lemma {:induction false} FirstIndexAbsent(es: seq<Entry>, id: string)
    requires forall e | e in es :: e.trackingId != id
    ensures FirstIndex(es, id) == |es|
    decreases |es|
  {
    if es != [] {
      assert es[0] in es;
      assert forall e | e in es[1..] :: e in es;
      FirstIndexAbsent(es[1..], id);
    }
  }

  /** Confirmed, split as the ledger performs it: strike the node off, then purge if empty. */
  lemma ConfirmedInSteps(es: seq<Entry>, id: string, node: Node)
    ensures var i := FirstIndex(es, id);
            var e := LookUp(es, id).(nodes := RemoveFirst(LookUp(es, id).nodes, node));
            var mid := if i < |es| then es[i := e] else es;
            Confirmed(es, id, node) == if e.nodes == [] then Purge(mid, e.trackingId) else mid
  {
    var i := FirstIndex(es, id);
    if i < |es| {
      FirstIndexAfterUpdate(es, id, es[i].(nodes := RemoveFirst(es[i].nodes, node)));
    }
  }

  lemma TrackedAfterUpdate(es: seq<Entry>, i: nat, e: Entry)
    requires Tracked(es) && i < |es|
    requires e.message == es[i].message && e.trackingId == es[i].trackingId
    ensures Tracked(es[i := e])
  {
    assert es[i] in es;
    forall x | x in es[i := e] ensures x.message.Some? && x.message.value.trackingId == x.trackingId {
      var k :| 0 <= k < |es| && es[i := e][k] == x;
      assert k != i ==> x == es[k];
    }
  }

  /** A confirmation only drops nodes and entries: node lists never grow, entries never appear. */
  lemma {:induction false} ConfirmShrinks(es: seq<Entry>, id: string, node: Node)
    ensures Shrinks(es, Confirmed(es, id, node))
  {
    var i := FirstIndex(es, id);
    if i < |es| {
      var left := RemoveFirst(es[i].nodes, node);
      if left == [] {
        ShrinksByDropping(es, i);
      } else {
        ShrinksByUpdating(es, i, es[i].(nodes := left));
      }
    } else if FirstIndex(es, NoEntry.trackingId) < |es| {
      ShrinksByDropping(es, FirstIndex(es, NoEntry.trackingId));
    } else {
      ShrinksReflexive(es);
    }
  }

  /**
   * Monotonic confirmation: over any series of acknowledgements, node lists
   * only shrink, and an id absent from the ledger never comes back.
   */
  lemma {:induction false} ConfirmationIsMonotone(es: seq<Entry>, acks: seq<Ack>)
    ensures Shrinks(es, ConfirmedAll(es, acks))
    ensures |ConfirmedAll(es, acks)| <= |es|
    ensures forall x | x in ConfirmedAll(es, acks) :: exists y | y in es :: FewerNodes(y, x)
    decreases |acks|
  {
    if acks == [] {
      ShrinksReflexive(es);
    } else {
      var next := Confirmed(es, acks[0].trackingId, acks[0].node);
      ConfirmShrinks(es, acks[0].trackingId, acks[0].node);
      ConfirmationIsMonotone(next, acks[1..]);
      ShrinksTransitive(es, next, ConfirmedAll(es, acks));
    }
    ShrinksOnlyKeeps(es, ConfirmedAll(es, acks));
  }

  /** A purged (or never registered) id stays absent, whatever is acknowledged later. */
  lemma PurgedStaysPurged(es: seq<Entry>, acks: seq<Ack>, id: string)
    requires forall e | e in es :: e.trackingId != id
    ensures forall e | e in ConfirmedAll(es, acks) :: e.trackingId != id
  {
    ConfirmationIsMonotone(es, acks);
  }

  /**
   * Confirming a registered id touches only the first entry tracked under
   * it: it loses one occurrence of `node`; it leaves the ledger exactly when
   * its list became empty, and otherwise stays in place; every other entry
   * is unchanged and keeps its order.
   */
  lemma ConfirmMatched(es: seq<Entry>, id: string, node: Node)
    requires FirstIndex(es, id) < |es|
    ensures var i, r := FirstIndex(es, id), Confirmed(es, id, node);
            var left := RemoveFirst(es[i].nodes, node);
            multiset(left) == multiset(es[i].nodes) - multiset{node} &&
            (|r| == |es| - 1 <==> left == []) &&
            r[..i] == es[..i] &&
            (left == [] ==> r[i..] == es[i + 1..]) &&
            (left != [] ==> r[i] == es[i].(nodes := left) && r[i + 1..] == es[i + 1..])
  {
  }

  /**
   * Unknown-id safety: confirming an id no entry is tracked under leaves the
   * ledger unchanged, provided no entry is tracked under the sentinel's id "".
   */
  lemma ConfirmUnknownIsNoOp(es: seq<Entry>, id: string, node: Node)
    requires forall e | e in es :: e.trackingId != id && e.trackingId != ""
    ensures Confirmed(es, id, node) == es
  {
    FirstIndexAbsent(es, id);
    FirstIndexAbsent(es, "");
  }

  /**
   * As written, confirming an unknown id removes the first entry tracked
   * under "", whatever nodes it still waits for: the sentinel's removal
   * matches it by tracking id.
   */
  lemma ConfirmUnknownPurgesBlankEntry(es: seq<Entry>, id: string, node: Node, k: nat)
    requires forall e | e in es :: e.trackingId != id
    requires k < |es| && es[k].trackingId == ""
    ensures |Confirmed(es, id, node)| == |es| - 1
    ensures Confirmed(es, id, node) == Purge(es, "")
  {
    FirstIndexAbsent(es, id);
  }

  /** Tracking ids are pairwise distinct and none is the sentinel's "". */
  ghost predicate DistinctIds(es: seq<Entry>)
  {
    (forall e | e in es :: e.trackingId != "") &&
    (forall j, k | 0 <= j < k < |es| :: es[j].trackingId != es[k].trackingId)
  }

  lemma {:induction false} DistinctAfterDropping(es: seq<Entry>, i: nat)
    requires DistinctIds(es) && i < |es|
    ensures forall e | e in es[..i] + es[i + 1..] :: e.trackingId != es[i].trackingId && e.trackingId != ""
  {
    forall e | e in es[..i] + es[i + 1..]
      ensures e.trackingId != es[i].trackingId && e.trackingId != ""
    {
      var k :| 0 <= k < |es[..i] + es[i + 1..]| && (es[..i] + es[i + 1..])[k] == e;
      if k < i {
        assert e == es[k];
      } else {
        assert e == es[k + 1];
      }
      assert e in es;
    }
  }

  /**
   * Idempotent confirmation: when ids are distinct and `node` is listed at
   * most once for the id, confirming the same (id, node) twice has the same
   * effect as confirming it once.
   */
  lemma ConfirmIdempotent(es: seq<Entry>, id: string, node: Node)
    requires DistinctIds(es)
    requires multiset(LookUp(es, id).nodes)[node] <= 1
    ensures Confirmed(Confirmed(es, id, node), id, node) == Confirmed(es, id, node)
  {
    var i := FirstIndex(es, id);
    if i < |es| {
      var left := RemoveFirst(es[i].nodes, node);
      assert node !in left by {
        assert multiset(left)[node] == 0;
      }
      assert es[i] in es;
      if left == [] {
        DistinctAfterDropping(es, i);
        var r := es[..i] + es[i + 1..];
        ConfirmUnknownIsNoOp(r, id, node);
      } else {
        FirstIndexAfterUpdate(es, id, es[i].(nodes := left));
      }
    } else {
      ConfirmUnknownIsNoOp(es, id, node);
    }
  }

  /** Confirmation keeps tracking ids distinct: it only drops or updates entries in place. */
  lemma {:induction false} ConfirmKeepsDistinct(es: seq<Entry>, id: string, node: Node)
    requires DistinctIds(es)
    ensures DistinctIds(Confirmed(es, id, node))
  {
    var i := FirstIndex(es, id);
    if i < |es| {
      var left := RemoveFirst(es[i].nodes, node);
      if left == [] {
        DistinctWhenDropping(es, i);
      } else {
        var r := es[i := es[i].(nodes := left)];
        assert es[i] in es;
        forall e | e in r ensures e.trackingId != "" {
          var k :| 0 <= k < |r| && r[k] == e;
          assert es[k] in es;
        }
      }
    } else {
      FirstIndexAbsent(es, "");
    }
  }

  lemma {:induction false} DistinctWhenDropping(es: seq<Entry>, i: nat)
    requires DistinctIds(es) && i < |es|
    ensures DistinctIds(es[..i] + es[i + 1..])
  {
    var r := es[..i] + es[i + 1..];
    DistinctAfterDropping(es, i);
    forall j, k | 0 <= j < k < |r|
      ensures r[j].trackingId != r[k].trackingId
    {
      var j' := if j < i then j else j + 1;
      var k' := if k < i then k else k + 1;
      assert r[j] == es[j'] && r[k] == es[k'];
    }
  }

  /** Registering a message under a fresh, non-empty tracking id keeps tracking ids distinct. */
  lemma {:induction false} RegisterKeepsDistinct(es: seq<Entry>, m: Message, nodes: seq<Node>, now: int)
    requires DistinctIds(es) && m.trackingId != ""
    requires forall e | e in es :: e.trackingId != m.trackingId
    ensures DistinctIds(es + [NewEntry(m, nodes, now)])
  {
    var r := es + [NewEntry(m, nodes, now)];
    forall j, k | 0 <= j < k < |r|
      ensures r[j].trackingId != r[k].trackingId
    {
      assert r[j] == es[j];
      if k == |es| {
        assert es[j] in es;
      } else {
        assert r[k] == es[k];
      }
    }
  }

  // ---------------------------------------------------------------------------
  // Introspection

  /** Whether an entry is due for redistribution: created more than `interval` before `now`. */
  predicate IsDue(e: Entry, now: int, interval: int)
  {
    e.createdOn + interval < now
  }

  /** allRedistributable on values: the due entries, in ledger order. */
  function Due(es: seq<Entry>, now: int, interval: int): seq<Entry>
    decreases |es|
  {
    if es == [] then []
    else
      var last := es[|es| - 1];
      Due(es[..|es| - 1], now, interval) + (if IsDue(last, now, interval) then [last] else [])
  }

  /** The selection is made entry by entry: it distributes over concatenation, so it keeps ledger order. */
  lemma {:induction false} DueOfConcat(a: seq<Entry>, b: seq<Entry>, now: int, interval: int)
    ensures Due(a + b, now, interval) == Due(a, now, interval) + Due(b, now, interval)
    decreases |b|
  {
    if b == [] {
      assert a + b == a;
    } else {
      var b' := b[..|b| - 1];
      assert (a + b)[..|a + b| - 1] == a + b';
      DueOfConcat(a, b', now, interval);
    }
  }

  /** Redistribution selection: exactly the entries with createdOn + interval < now. */
  lemma {:induction false} DueSelectsExactly(es: seq<Entry>, now: int, interval: int)
    ensures forall e :: e in Due(es, now, interval) <==> e in es && IsDue(e, now, interval)
    decreases |es|
  {
    if es != [] {
      var init := es[..|es| - 1];
      DueSelectsExactly(init, now, interval);
      assert es == init + [es[|es| - 1]];
    }
  }

  /** Every due entry carries its message, as every ledger entry does. */
  lemma DueIsTracked(es: seq<Entry>, now: int, interval: int)
    requires Tracked(es)
    ensures Tracked(Due(es, now, interval))
  {
    DueSelectsExactly(es, now, interval);
  }

  /** allTrackingIds on values: every entry's tracking id, in ledger order. */
  function TrackingIds(es: seq<Entry>): seq<string>
    decreases |es|
  {
    if es == [] then [] else TrackingIds(es[..|es| - 1]) + [es[|es| - 1].trackingId]
  }

  lemma {:induction false} TrackingIdsAt(es: seq<Entry>)
    ensures |TrackingIds(es)| == |es|
    ensures forall k :: 0 <= k < |es| ==> TrackingIds(es)[k] == es[k].trackingId
    decreases |es|
  {
    if es != [] {
      TrackingIdsAt(es[..|es| - 1]);
    }
  }

  // ---------------------------------------------------------------------------
  // The imperative ledger

  /** One ledger entry; only its node list changes after construction. */
  class Confirmable {
    const message: Option<Message>
    const trackingId: string
    const createdOn: int
    var unconfirmedNodes: seq<Node>

    /** A fresh entry for `message`, waiting for a copy of `allOtherNodes`, created at `now`. */
    constructor (message: Message, allOtherNodes: seq<Node>, now: int)
      ensures View() == NewEntry(message, allOtherNodes, now)
    {
      this.message := Some(message);
      this.unconfirmedNodes := allOtherNodes;
      this.createdOn := now;
      this.trackingId := message.trackingId;
    }

    /** The NoConfirmable sentinel. */
    constructor NoConfirmable()
      ensures View() == NoEntry
    {
      message := None;
      unconfirmedNodes := [];
      createdOn := 0;
      trackingId := "";
    }

    function View(): Entry
      reads this
    {
      Entry(trackingId, message, unconfirmedNodes, createdOn)
    }

    /** Strikes `node` off the outstanding list (its first occurrence). */
    method Confirm(node: Node)
      modifies this
      ensures unconfirmedNodes == RemoveFirst(old(unconfirmedNodes), node)
      ensures multiset(unconfirmedNodes) <= multiset(old(unconfirmedNodes))
    {
      unconfirmedNodes := RemoveFirst(unconfirmedNodes, node);
    }

    /** Whether some node has still to confirm; an entry without one is purged from the ledger. */
    predicate HasUnconfirmedNodes(): (b: bool)
      reads this
      ensures b <==> |View().nodes| > 0
    {
      unconfirmedNodes != []
    }

    /** Whether this entry is due for redistribution at `now`. */
    predicate IsRedistributableAsOf(now: int, interval: int): (b: bool)
      reads this
      ensures b <==> IsDue(View(), now, interval)
    {
      createdOn + interval < now
    }

    /** Confirmables are equal when their tracking ids are. */
    predicate Equals(other: Confirmable): (b: bool)
      reads this, other
      ensures b <==> View().trackingId == other.View().trackingId
      ensures other.View() == NoEntry ==> (b <==> View().trackingId == "")
    {
      trackingId == other.trackingId
    }
  }

  /** The ledger: the live Confirmables in registration order. */
  class Confirmables {
    const allOtherNodes: seq<Node>
    const none: Confirmable
    var expectedConfirmables: seq<Confirmable>

    ghost var Contents: seq<Entry>
    ghost var Repr: set<object>

    ghost predicate Valid()
      reads this, Repr
    {
      this in Repr && none in Repr && none.View() == NoEntry &&
      |Contents| == |expectedConfirmables| &&
      (forall k :: 0 <= k < |expectedConfirmables| ==>
         expectedConfirmables[k] in Repr && expectedConfirmables[k] != none &&
         expectedConfirmables[k].View() == Contents[k]) &&
      (forall j, k :: 0 <= j < k < |expectedConfirmables| ==> expectedConfirmables[j] != expectedConfirmables[k]) &&
      Tracked(Contents)
    }

    constructor (allOtherNodes: seq<Node>)
      ensures Valid() && fresh(Repr)
      ensures Contents == [] && this.allOtherNodes == allOtherNodes
    {
      this.allOtherNodes := allOtherNodes;
      none := new Confirmable.NoConfirmable();
      expectedConfirmables := [];
      Contents := [];
      new;
      Repr := {this, none};
    }

    /** Registers `message` as awaiting confirmation from each of `nodes`. */
    method UnconfirmedFor(message: Message, nodes: seq<Node>, now: int) returns (c: Confirmable)
      requires Valid()
      modifies this
      ensures Valid() && fresh(c) && Repr == old(Repr) + {c}
      ensures c.View() == NewEntry(message, nodes, now)
      ensures expectedConfirmables == old(expectedConfirmables) + [c]
      ensures Contents == old(Contents) + [NewEntry(message, nodes, now)]
    {
      c := new Confirmable(message, nodes, now);
      expectedConfirmables := expectedConfirmables + [c];
      Contents := Contents + [c.View()];
      Repr := Repr + {c};
    }

    /** Registers `message` as awaiting confirmation from all other nodes. */
    method Unconfirmed(message: Message, now: int) returns (c: Confirmable)
      requires Valid()
      modifies this
      ensures Valid() && fresh(c) && Repr == old(Repr) + {c}
      ensures c.View() == NewEntry(message, allOtherNodes, now)
      ensures expectedConfirmables == old(expectedConfirmables) + [c]
      ensures Contents == old(Contents) + [NewEntry(message, allOtherNodes, now)]
    {
      c := UnconfirmedFor(message, allOtherNodes, now);
    }

    /** The first Confirmable tracked under `trackingId`, or the sentinel; never fails. */
    method ConfirmableOf(trackingId: string) returns (c: Confirmable)
      requires Valid()
      ensures c.View() == LookUp(Contents, trackingId)
      ensures c == if FirstIndex(Contents, trackingId) < |Contents|
                   then expectedConfirmables[FirstIndex(Contents, trackingId)] else none
    {
      var k := 0;
      while k < |expectedConfirmables|
        invariant 0 <= k <= |expectedConfirmables|
        invariant forall j :: 0 <= j < k ==> Contents[j].trackingId != trackingId
      {
        if expectedConfirmables[k].trackingId == trackingId {
          assert Contents[k].trackingId == trackingId;
          return expectedConfirmables[k];
        }
        k := k + 1;
      }
      return none;
    }

    /** Drops the first Confirmable equal to `c`, i.e. tracked under c's id. */
    method Remove(c: Confirmable)
      requires Valid()
      modifies this
      ensures Valid() && Repr == old(Repr)
      ensures Contents == Purge(old(Contents), c.trackingId)
    {
      var k := 0;
      while k < |expectedConfirmables|
        invariant 0 <= k <= |expectedConfirmables|
        invariant forall j :: 0 <= j < k ==> Contents[j].trackingId != c.trackingId
      {
        if c.Equals(expectedConfirmables[k]) {
          FirstIndexIs(Contents, c.trackingId, k);
          DropAt(k);
          return;
        }
        k := k + 1;
      }
    }

    /** Takes the `k`th confirmable out of the ledger, keeping the others in order. */
    method DropAt(k: nat)
      requires Valid() && k < |Contents|
      modifies this
      ensures Valid() && Repr == old(Repr)
      ensures Contents == old(Contents)[..k] + old(Contents)[k + 1..]
    {
      ghost var es := Contents;
      expectedConfirmables := expectedConfirmables[..k] + expectedConfirmables[k + 1..];
      Contents := Contents[..k] + Contents[k + 1..];
      assert forall e | e in Contents :: e in es;
    }

    /** Confirmable.confirm on an entry of this ledger (index `i`) or on the sentinel (`i` out of range). */
    method StrikeOff(c: Confirmable, ghost i: nat, node: Node)
      requires Valid()
      requires if i < |Contents| then c == expectedConfirmables[i] else c == none
      modifies c, this`Contents
      ensures Valid()
      ensures c.View() == old(c.View()).(nodes := RemoveFirst(old(c.unconfirmedNodes), node))
      ensures Contents == if i < |old(Contents)| then old(Contents)[i := c.View()] else old(Contents)
    {
      c.Confirm(node);
      if i < |Contents| {
        TrackedAfterUpdate(Contents, i, c.View());
        Contents := Contents[i := c.View()];
      }
      assert forall k :: 0 <= k < |expectedConfirmables| && k != i ==> expectedConfirmables[k] != c;
    }

    /** Strikes `node` off the entry tracked under `trackingId`, purging it once nobody is left. */
    method Confirm(trackingId: string, node: Node)
      requires Valid()
      modifies Repr
      ensures Valid() && Repr == old(Repr)
      ensures Contents == Confirmed(old(Contents), trackingId, node)
    {
      ghost var i := FirstIndex(Contents, trackingId);
      ConfirmedInSteps(Contents, trackingId, node);
      var c := ConfirmableOf(trackingId);
      StrikeOff(c, i, node);
      if !c.HasUnconfirmedNodes() {
        Remove(c);
      }
    }

    /** The entries due for redistribution at `now`, in ledger order; changes nothing. */
    method AllRedistributable(now: int, interval: int) returns (ready: seq<Confirmable>)
      requires Valid()
      ensures |ready| == |Due(Contents, now, interval)|
      ensures forall k :: 0 <= k < |ready| ==> ready[k].View() == Due(Contents, now, interval)[k]
      ensures forall k :: 0 <= k < |ready| ==> ready[k] in expectedConfirmables
    {
      ready := [];
      ghost var due: seq<Entry> := [];
      var k := 0;
      while k < |expectedConfirmables|
        invariant 0 <= k <= |expectedConfirmables|
        invariant due == Due(Contents[..k], now, interval)
        invariant |ready| == |due|
        invariant forall j :: 0 <= j < |ready| ==> ready[j].View() == due[j]
        invariant forall j :: 0 <= j < |ready| ==> ready[j] in expectedConfirmables
      {
        var confirmable := expectedConfirmables[k];
        assert Contents[..k + 1][..k] == Contents[..k];
        if confirmable.IsRedistributableAsOf(now, interval) {
          ready := ready + [confirmable];
          due := due + [confirmable.View()];
        }
        k := k + 1;
      }
      assert Contents[..k] == Contents;
    }

    /** Every live entry's tracking id, in ledger order; changes nothing. */
    method AllTrackingIds() returns (all: seq<string>)
      requires Valid()
      ensures all == TrackingIds(Contents)
    {
      all := [];
      var k := 0;
      while k < |expectedConfirmables|
        invariant 0 <= k <= |expectedConfirmables|
        invariant all == TrackingIds(Contents[..k])
      {
        var confirmable := expectedConfirmables[k];
        assert Contents[k] in Contents;
        assert Contents[..k + 1][..k] == Contents[..k];
        all := all + [confirmable.message.value.trackingId];
        k := k + 1;
      }
      assert Contents[..k] == Contents;
    }
  }
}
