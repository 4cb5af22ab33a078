/** The stop-and-wait protocol of Sender and Relay as a transition system
    (reliomq/sender.py:1259-1406, reliomq/ack.py, reliomq/relay.py:370-553).
    A broker hop may lose, delay and repeat messages: whatever was ever published to
    it may arrive at any later time, any number of times (MQTT 3.1.1, section 4.3.2).
    A publish reported as failed may still have arrived. */
module Protocol {
  import opened Wrappers
  import opened Framing
  import opened Recovery
  import opened QueueSpec
  import opened ConsumerDedup
  import opened RelayClass

  /** A message the relay worker is forwarding, and whether the destination broker
      confirmed it. */
  datatype InHand = InHand(envelope: Envelope, confirmed: bool)

  /** `accepted` are all messages ever accepted, `live` the positions of those no crash
      lost, of which the first `head` have left the FIFO. `removing` says the head's
      acknowledgement was matched and its removal asked for. `sent` and `routed` were
      ever published to the relay topic and to the destination. `strays` are the
      messages a crash lost after they were sent and before the destination had them. */
  datatype World = World(
    accepted: seq<Envelope>,
    live: seq<nat>,
    head: nat,
    removing: bool,
    expecting: Option<Id>,
    matched: bool,
    sent: set<Envelope>,
    tasks: seq<Envelope>,
    inHand: Option<InHand>,
    routed: set<Envelope>,
    delivered: seq<Envelope>,
    acks: set<Id>,
    strays: set<Envelope>)

  const START := World([], [], 0, false, None, false, {}, [], None, {}, [], {}, {})

  datatype Step =
    | Accept(envelope: Envelope)
    | StartAttempt
    | AckArrives(id: Id)
    | EndAttempt
    | AskRemoval
    | RemoveHead
    | SenderCrash(from: nat, to: nat)
    | RelayReceives(envelope: Envelope)
    | RelayTakes
    | RelayForwards
    | RelayConfirms
    | RelayAcks
    | RelayDrops
    | RelayStops
    | DestinationAccepts(envelope: Envelope)

  ghost predicate InRange(w: World) {
    w.head <= |w.live| && forall i | 0 <= i < |w.live| :: w.live[i] < |w.accepted|
  }

  /** The i-th surviving message. */
  function MessageAt(w: World, i: nat): Envelope
    requires i < |w.live| && w.live[i] < |w.accepted|
  {
    w.accepted[w.live[i]]
  }

  /** The messages from the `to`-th surviving one on that are sent but undelivered. */
  ghost function Strayed(w: World, to: nat): set<Envelope>
    requires InRange(w)
  {
    set i | to <= i < |w.live| && MessageAt(w, i) in w.sent && MessageAt(w, i) !in w.delivered :: MessageAt(w, i)
  }

  ghost predicate Enabled(w: World, s: Step) {
    && InRange(w)
    && match s
       case Accept(e) => e.id !in Ids(w.accepted)
       case StartAttempt => w.head < |w.live| && w.expecting.None?
       case AckArrives(id) => id in w.acks
       case EndAttempt => true
       case AskRemoval => w.matched
       case RemoveHead => w.removing && w.head < |w.live|
       case SenderCrash(from, to) => from <= to <= |w.live| && (from <= w.head || (w.removing && from == w.head + 1))
       case RelayReceives(e) => e in w.sent
       case RelayTakes => w.inHand.None? && w.tasks != []
       case RelayForwards => w.inHand.Some?
       case RelayConfirms => w.inHand.Some? && w.inHand.value.envelope in w.delivered
       case RelayAcks => w.inHand.Some? && w.inHand.value.confirmed
       case RelayDrops => true
       case RelayStops => true
       case DestinationAccepts(e) => e in w.routed
  }

  ghost function Apply(w: World, s: Step): World
    requires Enabled(w, s)
  {
    match s
    case Accept(e) => w.(accepted := w.accepted + [e], live := w.live + [|w.accepted|])
    // `begin` runs before the publish, whose result does not matter here.
    case StartAttempt => w.(expecting := Some(MessageAt(w, w.head).id), matched := false, sent := w.sent + {MessageAt(w, w.head)})
    case AckArrives(id) => if w.expecting == Some(id) then w.(matched := true) else w
    case EndAttempt => w.(expecting := None, matched := false)
    case AskRemoval => w.(removing := true)
    case RemoveHead => w.(head := w.head + 1, removing := false, expecting := None, matched := false)
    case SenderCrash(from, to) => w.(live := w.live[..to], head := from, removing := false, expecting := None, matched := false,
                                     strays := w.strays + Strayed(w, to))
    case RelayReceives(e) => w.(tasks := w.tasks + [e])
    case RelayTakes => w.(tasks := w.tasks[1..], inHand := Some(InHand(w.tasks[0], false)))
    case RelayForwards => w.(routed := w.routed + {w.inHand.value.envelope})
    case RelayConfirms => w.(inHand := Some(w.inHand.value.(confirmed := true)))
    case RelayAcks => w.(acks := w.acks + {w.inHand.value.envelope.id}, inHand := None)
    case RelayDrops => w.(inHand := None)
    case RelayStops => w.(tasks := [], inHand := None)
    case DestinationAccepts(e) => w.(delivered := w.delivered + [e])
  }

  // ---- The invariant ----------------------------------------------------------------

  ghost predicate Increasing(live: seq<nat>) {
    forall i, j | 0 <= i < j < |live| :: live[i] < live[j]
  }

  ghost predicate Sane(w: World) {
    && InRange(w) && Increasing(w.live) && DistinctIds(w.accepted)
    && (w.expecting.Some? ==> w.head < |w.live| && w.expecting.value == MessageAt(w, w.head).id)
    && (w.matched ==> w.expecting.Some?) && (w.removing ==> w.head < |w.live|)
  }

  /** Where a message can be: only accepted ones are sent, only sent ones forwarded,
      only forwarded ones delivered. */
  ghost predicate Traced(w: World) {
    && (forall e | e in w.sent :: e in w.accepted)
    && (forall e | e in w.tasks :: e in w.sent)
    && (w.inHand.Some? ==> w.inHand.value.envelope in w.sent)
    && (forall e | e in w.routed :: e in w.sent)
    && (forall e | e in w.delivered :: e in w.routed)
  }

  ghost predicate HasId(es: seq<Envelope>, id: Id) {
    exists e :: e in es && e.id == id
  }

  /** An acknowledgement, wherever it is, means the destination accepted the message. */
  ghost predicate Honest(w: World) {
    && (w.inHand.Some? && w.inHand.value.confirmed ==> w.inHand.value.envelope in w.delivered)
    && (forall id | id in w.acks :: HasId(w.delivered, id))
    && (InRange(w) && w.head < |w.live| && (w.matched || w.removing) ==> MessageAt(w, w.head) in w.delivered)
    && (InRange(w) ==> forall i | 0 <= i < w.head :: MessageAt(w, i) in w.delivered)
  }

  /** When a message is sent, every surviving one accepted before it was delivered. */
  ghost predicate SentInOrder(w: World) {
    InRange(w) &&
    forall k, i | 0 <= k < |w.accepted| && w.accepted[k] in w.sent && 0 <= i < |w.live| && w.live[i] < k ::
      MessageAt(w, i) in w.delivered
  }

  ghost predicate Survives(w: World, p: nat) {
    exists i :: 0 <= i < |w.live| && w.live[i] == p
  }

  /** The p-th accepted message survives, or it was sent and is no stray. */
  ghost predicate Placed(w: World, p: nat) {
    p < |w.accepted| && w.accepted[p] !in w.strays && (w.accepted[p] in w.sent || Survives(w, p))
  }

  /** Survivors are no strays; a sent message survives, is a stray or was delivered. */
  ghost predicate Accounted(w: World) {
    && (forall e | e in w.strays :: e in w.sent)
    && (forall p: nat | p < |w.accepted| && Survives(w, p) :: w.accepted[p] !in w.strays)
    && (forall p: nat | p < |w.accepted| && w.accepted[p] in w.sent && !Survives(w, p) ::
          w.accepted[p] in w.strays || w.accepted[p] in w.delivered)
  }

  /** Before any delivery, every placed message accepted before it was delivered. */
  ghost predicate DeliveredInOrder(w: World) {
    forall d, k, p: nat | 0 <= d < |w.delivered| && 0 <= k < |w.accepted| && w.delivered[d] == w.accepted[k]
                          && p < k && Placed(w, p) ::
      w.accepted[p] in w.delivered[..d]
  }

  ghost predicate Inv(w: World) {
    Sane(w) && Traced(w) && Honest(w) && SentInOrder(w) && Accounted(w) && DeliveredInOrder(w)
  }

  lemma StartInv()
    ensures Inv(START)
  {
  }

  lemma OnlyMessage(w: World, i: nat, e: Envelope)
    requires Sane(w) && i < |w.live| && e in w.accepted && e.id == MessageAt(w, i).id
    ensures e == MessageAt(w, i)
  {
    var k :| 0 <= k < |w.accepted| && w.accepted[k] == e;
  }

  /** The acknowledgement of the head's ID means the head itself was delivered. */
  lemma AckedHead(w: World, id: Id)
    requires Sane(w) && Traced(w) && Honest(w) && id in w.acks && w.expecting == Some(id)
    ensures MessageAt(w, w.head) in w.delivered
  {
    var e :| e in w.delivered && e.id == id;
    OnlyMessage(w, w.head, e);
  }

  lemma SaneStep(w: World, s: Step)
    requires Inv(w) && Enabled(w, s)
    ensures Sane(Apply(w, s))
  {
    hide Traced, Honest, SentInOrder, Accounted, DeliveredInOrder;
    var v := Apply(w, s);
    if s.Accept? {
      DistinctSnoc(w.accepted, s.envelope);
      forall i | 0 <= i < |w.live|
        ensures w.live[i] < |w.accepted| && MessageAt(v, i) == MessageAt(w, i)
      {
      }
    }
  }

  lemma TracedStep(w: World, s: Step)
    requires Inv(w) && Enabled(w, s)
    ensures Traced(Apply(w, s))
  {
    hide Honest, SentInOrder, Accounted, DeliveredInOrder;
    if s.RelayTakes? {
      assert forall e | e in w.tasks[1..] :: e in w.tasks;
    }
  }

  /** Surviving messages keep their place, and nothing delivered is forgotten. */
  lemma Stable(w: World, s: Step)
    requires InRange(w) && Enabled(w, s)
    ensures var v := Apply(w, s);
            && InRange(v) && (forall e | e in w.delivered :: e in v.delivered)
            && (forall i | 0 <= i < |w.live| && i < |v.live| :: MessageAt(v, i) == MessageAt(w, i))
  {
  }

  lemma HonestStep(w: World, s: Step)
    requires Inv(w) && Enabled(w, s)
    ensures Honest(Apply(w, s))
  {
    hide SentInOrder, Accounted, DeliveredInOrder;
    Stable(w, s);
    var v := Apply(w, s);
    AcksStep(w, s);
    CompletedStep(w, s);
    if s.AckArrives? && w.expecting == Some(s.id) {
      AckedHead(w, s.id);
    }
  }

  lemma AcksStep(w: World, s: Step)
    requires Inv(w) && Enabled(w, s)
    ensures forall id | id in Apply(w, s).acks :: HasId(Apply(w, s).delivered, id)
  {
    hide SentInOrder, Accounted, DeliveredInOrder, Sane, Traced;
    var v := Apply(w, s);
    forall id | id in v.acks
      ensures HasId(v.delivered, id)
    {
      if id in w.acks {
        var e :| e in w.delivered && e.id == id;
        assert e in v.delivered;
      } else {
        assert w.inHand.value.envelope in v.delivered;
      }
    }
  }

  lemma CompletedStep(w: World, s: Step)
    requires Inv(w) && Enabled(w, s)
    ensures InRange(Apply(w, s)) && forall i | 0 <= i < Apply(w, s).head :: MessageAt(Apply(w, s), i) in Apply(w, s).delivered
  {
    hide SentInOrder, Accounted, DeliveredInOrder, Traced;
    Stable(w, s);
    var v := Apply(w, s);
    forall i | 0 <= i < v.head
      ensures MessageAt(v, i) in v.delivered
    {
      assert MessageAt(w, i) in w.delivered;
    }
  }

  lemma SentInOrderStep(w: World, s: Step)
    requires Inv(w) && Enabled(w, s)
    ensures SentInOrder(Apply(w, s))
  {
    hide Accounted, DeliveredInOrder;
    var v := Apply(w, s);
    forall k, i | 0 <= k < |v.accepted| && v.accepted[k] in v.sent && 0 <= i < |v.live| && v.live[i] < k
      ensures MessageAt(v, i) in v.delivered
    {
      SentBefore(w, s, k, i);
    }
  }

  lemma SentBefore(w: World, s: Step, k: nat, i: nat)
    requires Inv(w) && Enabled(w, s)
    requires var v := Apply(w, s);
             k < |v.accepted| && v.accepted[k] in v.sent && i < |v.live| && v.live[i] < k
    ensures InRange(Apply(w, s)) && MessageAt(Apply(w, s), i) in Apply(w, s).delivered
  {
    hide Accounted, DeliveredInOrder;
    Stable(w, s);
    if s.Accept? {
      SentAreAccepted(w);
    } else if s.StartAttempt? && Apply(w, s).accepted[k] == MessageAt(w, w.head) {
      SameIndex(w, k, w.live[w.head]);
      assert i < w.head;
      assert MessageAt(w, i) in w.delivered;
    }
  }

  lemma SentAreAccepted(w: World)
    requires Traced(w)
    ensures forall e | e in w.sent :: e.id in Ids(w.accepted)
    ensures forall e | e in w.delivered :: e.id in Ids(w.accepted)
    ensures forall e | e in w.accepted :: e.id in Ids(w.accepted)
  {
    forall e | e in w.accepted
      ensures e.id in Ids(w.accepted)
    {
      var k :| 0 <= k < |w.accepted| && w.accepted[k] == e;
      assert w.accepted[k].id in Ids(w.accepted);
    }
  }

  lemma SameIndex(w: World, j: nat, k: nat)
    requires DistinctIds(w.accepted) && j < |w.accepted| && k < |w.accepted| && w.accepted[j] == w.accepted[k]
    ensures j == k
  {
  }

  lemma AccountedStep(w: World, s: Step)
    requires Inv(w) && Enabled(w, s)
    ensures Accounted(Apply(w, s))
  {
    hide Honest, SentInOrder, DeliveredInOrder, Inv;
    StraysStep(w, s);
    var v := Apply(w, s);
    forall p: nat | p < |v.accepted| && v.accepted[p] in v.sent && !Survives(v, p)
      ensures v.accepted[p] in v.strays || v.accepted[p] in v.delivered
    {
      LostStep(w, s, p);
    }
  }

  /** A position survives a step only if it survived before it or was just accepted. */
  lemma SurvivorsStep(w: World, s: Step)
    requires Sane(w) && Enabled(w, s)
    ensures var v := Apply(w, s);
            forall p: nat | Survives(v, p) :: Survives(w, p) || (s.Accept? && p == |w.accepted|)
    ensures var v := Apply(w, s);
            !s.SenderCrash? ==> forall p: nat | Survives(w, p) :: Survives(v, p)
    ensures s.Accept? ==> Survives(Apply(w, s), |w.accepted|)
  {
    var v := Apply(w, s);
    forall p: nat | Survives(v, p)
      ensures Survives(w, p) || (s.Accept? && p == |w.accepted|)
    {
      var i :| 0 <= i < |v.live| && v.live[i] == p;
      if i < |w.live| { assert w.live[i] == p; }
    }
    if s.Accept? { LiveSurvives(v, |w.live|); }
    if !s.SenderCrash? {
      forall p: nat | Survives(w, p)
        ensures Survives(v, p)
      {
        var i :| 0 <= i < |w.live| && w.live[i] == p;
        LiveSurvives(v, i);
      }
    }
  }

  lemma LiveSurvives(w: World, i: nat)
    requires i < |w.live|
    ensures Survives(w, w.live[i])
  {
  }

  lemma StraysStep(w: World, s: Step)
    requires Inv(w) && Enabled(w, s)
    ensures var v := Apply(w, s);
            && (forall e | e in v.strays :: e in v.sent)
            && (forall p: nat | p < |v.accepted| && Survives(v, p) :: v.accepted[p] !in v.strays)
  {
    hide Honest, SentInOrder, DeliveredInOrder;
    SurvivorsStep(w, s);
    var v := Apply(w, s);
    forall p: nat | p < |v.accepted| && Survives(v, p)
      ensures v.accepted[p] !in v.strays
    {
      var i :| 0 <= i < |v.live| && v.live[i] == p;
      if s.Accept? {
        SentAreAccepted(w);
      } else if s.SenderCrash? {
        assert w.live[i] == p;
        KeptIsNoStray(w, i, s.to);
      }
    }
  }

  lemma KeptIsNoStray(w: World, i: nat, to: nat)
    requires Sane(w) && i < to <= |w.live|
    ensures MessageAt(w, i) !in Strayed(w, to)
  {
    forall j | to <= j < |w.live|
      ensures MessageAt(w, j) != MessageAt(w, i)
    {
      assert w.live[i] < w.live[j];
    }
  }

  lemma LostStep(w: World, s: Step, p: nat)
    requires Inv(w) && Enabled(w, s)
    requires var v := Apply(w, s); p < |v.accepted| && v.accepted[p] in v.sent && !Survives(v, p)
    ensures Apply(w, s).accepted[p] in Apply(w, s).strays || Apply(w, s).accepted[p] in Apply(w, s).delivered
  {
    hide Honest, SentInOrder, DeliveredInOrder;
    var v := Apply(w, s);
    SurvivorsStep(w, s);
    SentAreAccepted(w);
    if s.StartAttempt? {
      LiveSurvives(v, w.head);
      if w.accepted[p] == MessageAt(w, w.head) { SameIndex(w, p, w.live[w.head]); }
    } else if s.SenderCrash? && Survives(w, p) {
      var i :| 0 <= i < |w.live| && w.live[i] == p;
      assert MessageAt(w, i) == w.accepted[p];
      LostIsPast(w, s, i);
    }
  }

  lemma LostIsPast(w: World, s: Step, i: nat)
    requires InRange(w) && s.SenderCrash? && Enabled(w, s) && i < |w.live| && !Survives(Apply(w, s), w.live[i])
    ensures i >= s.to
  {
    if i < s.to { LiveSurvives(Apply(w, s), i); }
  }

  lemma DeliveredInOrderStep(w: World, s: Step)
    requires Inv(w) && Enabled(w, s)
    ensures DeliveredInOrder(Apply(w, s))
  {
    hide Inv, Placed;
    var v := Apply(w, s);
    forall d, k, p: nat | 0 <= d < |v.delivered| && 0 <= k < |v.accepted| && v.delivered[d] == v.accepted[k]
                          && p < k && Placed(v, p)
      ensures v.accepted[p] in v.delivered[..d]
    {
      DeliveredBefore(w, s, d, k, p);
    }
  }

  lemma DeliveredBefore(w: World, s: Step, d: nat, k: nat, p: nat)
    requires Inv(w) && Enabled(w, s)
    requires var v := Apply(w, s);
             d < |v.delivered| && k < |v.accepted| && v.delivered[d] == v.accepted[k] && p < k && Placed(v, p)
    ensures Apply(w, s).accepted[p] in Apply(w, s).delivered[..d]
  {
    hide Honest, SentInOrder, Accounted, Placed;
    SentAreAccepted(w);
    PlacedBefore(w, s, p);
    if s.DestinationAccepts? {
      DeliveryBefore(w, s.envelope, d, k, p);
    }
  }

  /** A step places only the message it accepts. */
  lemma PlacedBefore(w: World, s: Step, p: nat)
    requires Inv(w) && Enabled(w, s) && Placed(Apply(w, s), p) && p < |w.accepted|
    ensures Placed(w, p)
  {
    hide Honest, SentInOrder, Accounted, DeliveredInOrder;
    SurvivorsStep(w, s);
    if s.StartAttempt? && w.accepted[p] == MessageAt(w, w.head) {
      SameIndex(w, p, w.live[w.head]);
      assert w.live[w.head] == p;
    }
  }

  lemma DeliveryBefore(w: World, e: Envelope, d: nat, k: nat, p: nat)
    requires Inv(w) && e in w.routed
    requires d <= |w.delivered| && k < |w.accepted| && (w.delivered + [e])[d] == w.accepted[k]
    requires p < k && Placed(w, p)
    ensures w.accepted[p] in (w.delivered + [e])[..d]
  {
    hide Honest;
    var more := w.delivered + [e];
    assert more[..|w.delivered|] == w.delivered;
    if d < |w.delivered| {
      assert more[..d] == w.delivered[..d] && w.delivered[d] == w.accepted[k];
    } else {
      assert w.accepted[k] in w.sent;
      if Survives(w, p) {
        var i :| 0 <= i < |w.live| && w.live[i] == p;
        assert MessageAt(w, i) in w.delivered;
      }
    }
  }

  lemma StepInv(w: World, s: Step)
    requires Inv(w) && Enabled(w, s)
    ensures Inv(Apply(w, s))
  {
    hide Sane, Traced, Honest, SentInOrder, Accounted, DeliveredInOrder, Apply, Enabled;
    SaneStep(w, s);
    AccountedStep(w, s);
    TracedStep(w, s);
    HonestStep(w, s);
    SentInOrderStep(w, s);
    DeliveredInOrderStep(w, s);
  }

  // ---- Whole runs ---------------------------------------------------------------------

  ghost predicate Runs(w: World, steps: seq<Step>)
    decreases |steps|
  {
    steps == [] || (Enabled(w, steps[0]) && Runs(Apply(w, steps[0]), steps[1..]))
  }

  ghost function After(w: World, steps: seq<Step>): World
    requires Runs(w, steps)
    decreases |steps|
  {
    if steps == [] then w else After(Apply(w, steps[0]), steps[1..])
  }

  lemma {:induction false} RunInv(w: World, steps: seq<Step>)
    requires Inv(w) && Runs(w, steps)
    ensures Inv(After(w, steps))
    decreases |steps|
  {
    hide Inv, Enabled, Apply;
    if steps != [] {
      StepInv(w, steps[0]);
      RunInv(Apply(w, steps[0]), steps[1..]);
    }
  }

  /** END-TO-END SAFETY. In every run of sender, relay, brokers, restarts and crashes,
      a message that left the sender's FIFO, and one whose acknowledgement is in
      flight or matched, was accepted by the destination with its ID and payload. */
  lemma EndToEndSafety(steps: seq<Step>)
    requires Runs(START, steps)
    ensures var w := After(START, steps);
            && InRange(w)
            && (forall i | 0 <= i < w.head :: MessageAt(w, i) in w.delivered)
            && (forall i, id | 0 <= i < |w.live| && id in w.acks && MessageAt(w, i).id == id :: MessageAt(w, i) in w.delivered)
            && (w.removing ==> w.head < |w.live| && MessageAt(w, w.head) in w.delivered)
  {
    StartInv();
    RunInv(START, steps);
    var w := After(START, steps);
    hide SentInOrder, DeliveredInOrder, Runs, After;
    forall i, id | 0 <= i < |w.live| && id in w.acks && MessageAt(w, i).id == id
      ensures MessageAt(w, i) in w.delivered
    {
      var e :| e in w.delivered && e.id == id;
      OnlyMessage(w, i, e);
    }
  }

  /** Where a message was first delivered. */
  ghost function FirstDelivery(delivered: seq<Envelope>, e: Envelope): (d: nat)
    requires e in delivered
    ensures d < |delivered| && delivered[d] == e && e !in delivered[..d]
  {
    if delivered[0] == e then 0
    else
      assert delivered == [delivered[0]] + delivered[1..];
      var d := FirstDelivery(delivered[1..], e) + 1;
      assert delivered[..d] == [delivered[0]] + delivered[1..][..d - 1];
      d
  }

  lemma FirstAmong(delivered: seq<Envelope>, e: Envelope, d: nat)
    requires d <= |delivered| && e in delivered[..d]
    ensures e in delivered && FirstDelivery(delivered, e) < d
  {
    var k :| 0 <= k < d && delivered[..d][k] == e;
    assert delivered[k] == e;
    var f := FirstDelivery(delivered, e);
    forall j | 0 <= j < f
      ensures delivered[j] != e
    {
      assert delivered[..f][j] == delivered[j];
    }
  }

  /** A message was first delivered before any accepted after it, or not at all. */
  ghost predicate InPlace(w: World, p: nat)
    requires p < |w.accepted|
  {
    forall k | p < k < |w.accepted| && w.accepted[k] in w.delivered && w.accepted[p] in w.delivered ::
      FirstDelivery(w.delivered, w.accepted[p]) < FirstDelivery(w.delivered, w.accepted[k])
  }

  lemma PlacedFirst(w: World, p: nat, k: nat)
    requires Inv(w) && Placed(w, p) && p < k < |w.accepted| && w.accepted[k] in w.delivered
    ensures w.accepted[p] in w.delivered
    ensures FirstDelivery(w.delivered, w.accepted[p]) < FirstDelivery(w.delivered, w.accepted[k])
  {
    hide Sane, Traced, Honest, SentInOrder, Accounted, FirstDelivery, Placed;
    var d := FirstDelivery(w.delivered, w.accepted[k]);
    FirstAmong(w.delivered, w.accepted[p], d);
  }

  /** END-TO-END ORDER. In every run, a message that survives, and one a crash lost
      unless it was sent but undelivered then, is first delivered before the first
      delivery of any message accepted after it; only never-sent ones are passed over. */
  lemma EndToEndOrder(steps: seq<Step>, p: nat)
    requires Runs(START, steps)
    requires var w := After(START, steps); p < |w.accepted| && w.accepted[p] !in w.strays
    ensures var w := After(START, steps);
            && InPlace(w, p)
            && (Survives(w, p) || w.accepted[p] in w.sent ==>
                  forall k | p < k < |w.accepted| && w.accepted[k] in w.delivered :: w.accepted[p] in w.delivered)
  {
    StartInv();
    RunInv(START, steps);
    OrderOf(After(START, steps), p);
  }

  lemma OrderOf(w: World, p: nat)
    requires Inv(w) && p < |w.accepted| && w.accepted[p] !in w.strays
    ensures InPlace(w, p)
    ensures Survives(w, p) || w.accepted[p] in w.sent ==>
              forall k | p < k < |w.accepted| && w.accepted[k] in w.delivered :: w.accepted[p] in w.delivered
  {
    hide Sane, Honest, SentInOrder, Accounted, DeliveredInOrder, FirstDelivery;
    if Placed(w, p) {
      forall k | p < k < |w.accepted| && w.accepted[k] in w.delivered
        ensures w.accepted[p] in w.delivered
        ensures FirstDelivery(w.delivered, w.accepted[p]) < FirstDelivery(w.delivered, w.accepted[k])
      {
        PlacedFirst(w, p, k);
      }
    }
  }

  /** What a consumer sees: the IDs delivered, in order. */
  function DeliveredIds(delivered: seq<Envelope>): seq<Id> {
    seq(|delivered|, i requires 0 <= i < |delivered| => delivered[i].id)
  }

  lemma {:induction false} RunsSplit(w: World, steps: seq<Step>, n: nat)
    requires Runs(w, steps) && n <= |steps|
    ensures Runs(w, steps[..n]) && Runs(After(w, steps[..n]), steps[n..])
    ensures After(w, steps) == After(After(w, steps[..n]), steps[n..])
    decreases n
  {
    hide Enabled, Apply;
    if n == 0 {
      assert steps[0..] == steps;
    } else {
      assert steps[..n][1..] == steps[1..][..n - 1] && steps[1..][n - 1..] == steps[n..];
      RunsSplit(Apply(w, steps[0]), steps[1..], n - 1);
    }
  }

  /** Deliveries and acceptances are never forgotten. */
  lemma {:induction false} RunGrows(w: World, steps: seq<Step>)
    requires Runs(w, steps)
    ensures w.delivered <= After(w, steps).delivered && w.accepted <= After(w, steps).accepted
    decreases |steps|
  {
    if steps != [] { RunGrows(Apply(w, steps[0]), steps[1..]); }
  }

  /** EXACTLY ONCE. Behind the duplicate filter, every message that ever left the
      sender's FIFO, whatever crashes came later, is handled exactly once if its
      repetitions stay inside the window. */
  lemma CompletedHandledOnce(steps: seq<Step>, n: nat, i: nat) returns (first: nat)
    requires Runs(START, steps) && n <= |steps| && Runs(START, steps[..n])
    requires InRange(After(START, steps[..n])) && i < After(START, steps[..n]).head
    requires var e := MessageAt(After(START, steps[..n]), i);
             WithinWindow(DeliveredIds(After(START, steps).delivered), e.id)
    ensures var w, e := After(START, steps), MessageAt(After(START, steps[..n]), i);
            && first < |w.delivered| && w.delivered[first] == e
            && Handles(DeliveredIds(w.delivered), first)
            && (forall k | 0 <= k < |w.delivered| && w.delivered[k].id == e.id
                           && Handles(DeliveredIds(w.delivered), k) :: k == first)
  {
    hide Runs, After, Handles, WithinWindow;
    EndToEndSafety(steps[..n]);
    RunsSplit(START, steps, n);
    RunGrows(After(START, steps[..n]), steps[n..]);
    StartInv();
    RunInv(START, steps);
    first := DeliveredOnce(After(START, steps), MessageAt(After(START, steps[..n]), i));
  }

  lemma DeliveredOnce(w: World, e: Envelope) returns (first: nat)
    requires Inv(w) && e in w.delivered && e in w.accepted && WithinWindow(DeliveredIds(w.delivered), e.id)
    ensures first < |w.delivered| && w.delivered[first] == e && Handles(DeliveredIds(w.delivered), first)
    ensures forall k | 0 <= k < |w.delivered| && w.delivered[k].id == e.id && Handles(DeliveredIds(w.delivered), k) :: k == first
  {
    hide Honest, SentInOrder, Accounted, DeliveredInOrder, Handles, WithinWindow;
    var ids := DeliveredIds(w.delivered);
    var d := FirstDelivery(w.delivered, e);
    assert ids[d] == e.id;
    first := HandledOnce(ids, e.id);
    assert w.delivered[first] in w.accepted;
    SameId(w.accepted, w.delivered[first], e);
  }

  lemma SameId(es: seq<Envelope>, a: Envelope, b: Envelope)
    requires DistinctIds(es) && a in es && b in es && a.id == b.id
    ensures a == b
  {
  }

  // ---- Lost messages ----------------------------------------------------------------------

  /** A message a crash lost has no place in the order if it was sent but undelivered: a
      stale copy of it may be delivered after a message accepted later. */
  function LostThenLate(a: Envelope, b: Envelope): seq<Step> {
    [Accept(a), StartAttempt, SenderCrash(0, 0), Accept(b), StartAttempt] + Passes(b) + Passes(a)
  }

  /** One copy of a message passes the relay and reaches the destination. */
  function Passes(e: Envelope): seq<Step> {
    [RelayReceives(e), RelayTakes, RelayForwards, DestinationAccepts(e), RelayDrops]
  }

  lemma {:induction false} RunsConcat(w: World, a: seq<Step>, b: seq<Step>)
    requires Runs(w, a) && Runs(After(w, a), b)
    ensures Runs(w, a + b) && After(w, a + b) == After(After(w, a), b)
    decreases |a|
  {
    hide Enabled, Apply;
    if a == [] {
      assert a + b == b;
    } else {
      RunsConcat(Apply(w, a[0]), a[1..], b);
      assert (a + b)[1..] == a[1..] + b;
    }
  }

  lemma RunsOne(w: World, s: Step)
    requires Enabled(w, s)
    ensures Runs(w, [s]) && After(w, [s]) == Apply(w, s)
  {
    hide Enabled, Apply;
    assert [s][1..] == [];
  }

  lemma RunsTwo(w: World, s: Step, rest: seq<Step>)
    requires Enabled(w, s) && Runs(Apply(w, s), rest)
    ensures Runs(w, [s] + rest) && After(w, [s] + rest) == After(Apply(w, s), rest)
  {
    hide Enabled, Apply;
    assert ([s] + rest)[1..] == rest;
  }

  lemma PassesRun(w: World, e: Envelope)
    requires InRange(w) && e in w.sent && w.tasks == [] && w.inHand == None
    ensures Runs(w, Passes(e)) && After(w, Passes(e)) == w.(routed := w.routed + {e}, delivered := w.delivered + [e])
  {
    hide Runs, After, Enabled, Apply;
    PassStates(w, e);
    var w1 := w.(tasks := [e]);
    var w2 := w.(inHand := Some(InHand(e, false)));
    var w3 := w2.(routed := w.routed + {e});
    var w4 := w3.(delivered := w.delivered + [e]);
    RunsOne(w4, RelayDrops);
    RunsTwo(w3, DestinationAccepts(e), [RelayDrops]);
    RunsTwo(w2, RelayForwards, [DestinationAccepts(e)] + [RelayDrops]);
    RunsTwo(w1, RelayTakes, [RelayForwards] + ([DestinationAccepts(e)] + [RelayDrops]));
    RunsTwo(w, RelayReceives(e), [RelayTakes] + ([RelayForwards] + ([DestinationAccepts(e)] + [RelayDrops])));
    assert [RelayReceives(e)] + ([RelayTakes] + ([RelayForwards] + ([DestinationAccepts(e)] + [RelayDrops]))) == Passes(e);
  }

  lemma PassStates(w: World, e: Envelope)
    requires InRange(w) && e in w.sent && w.tasks == [] && w.inHand == None
    ensures var w1 := w.(tasks := [e]);
            var w2 := w.(inHand := Some(InHand(e, false)));
            var w3 := w2.(routed := w.routed + {e});
            var w4 := w3.(delivered := w.delivered + [e]);
            && Enabled(w, RelayReceives(e)) && Apply(w, RelayReceives(e)) == w1
            && Enabled(w1, RelayTakes) && Apply(w1, RelayTakes) == w2
            && Enabled(w2, RelayForwards) && Apply(w2, RelayForwards) == w3
            && Enabled(w3, DestinationAccepts(e)) && Apply(w3, DestinationAccepts(e)) == w4
            && Enabled(w4, RelayDrops) && Apply(w4, RelayDrops) == w4.(inHand := None)
  {
    hide Enabled, Apply;
    var w2 := w.(inHand := Some(InHand(e, false)));
    var w3 := w2.(routed := w.routed + {e});
    RelayHalf(w, e);
    ForwardHalf(w2, e);
    DeliverHalf(w3, e);
    DropHalf(w3.(delivered := w.delivered + [e]));
  }

  lemma RelayHalf(w: World, e: Envelope)
    requires InRange(w) && e in w.sent && w.tasks == [] && w.inHand == None
    ensures Enabled(w, RelayReceives(e)) && Apply(w, RelayReceives(e)) == w.(tasks := [e])
    ensures Enabled(w.(tasks := [e]), RelayTakes)
    ensures Apply(w.(tasks := [e]), RelayTakes) == w.(inHand := Some(InHand(e, false)))
  {
    assert [] + [e] == [e] && [e][1..] == [];
  }

  lemma ForwardHalf(w: World, e: Envelope)
    requires InRange(w) && w.inHand == Some(InHand(e, false))
    ensures Enabled(w, RelayForwards) && Apply(w, RelayForwards) == w.(routed := w.routed + {e})
  {
  }

  lemma DeliverHalf(w: World, e: Envelope)
    requires InRange(w) && e in w.routed
    ensures Enabled(w, DestinationAccepts(e)) && Apply(w, DestinationAccepts(e)) == w.(delivered := w.delivered + [e])
  {
  }

  lemma DropHalf(w: World)
    requires InRange(w)
    ensures Enabled(w, RelayDrops) && Apply(w, RelayDrops) == w.(inHand := None)
  {
  }

  lemma LostMessageReorders(a: Envelope, b: Envelope)
    requires a.id != b.id
    ensures Runs(START, LostThenLate(a, b))
    ensures var w := After(START, LostThenLate(a, b)); w.accepted == [a, b] && w.live == [1] && w.delivered == [b, a]
  {
    hide Runs, After;
    var w1 := Apply(START, Accept(a));
    assert w1.accepted == [a] && w1.live == [0];
    var w2 := Apply(w1, StartAttempt);
    var w3 := Apply(w2, SenderCrash(0, 0));
    assert w3.live == [] && Ids(w3.accepted) == {a.id};
    var w4 := Apply(w3, Accept(b));
    assert w4.accepted == [a, b] && w4.live == [1];
    var w5 := Apply(w4, StartAttempt);
    PassesRun(w5, b);
    var w6 := After(w5, Passes(b));
    PassesRun(w6, a);
    RunsConcat(w5, Passes(b), Passes(a));
    var rest := Passes(b) + Passes(a);
    RunsTwo(w4, StartAttempt, rest);
    RunsTwo(w3, Accept(b), [StartAttempt] + rest);
    RunsTwo(w2, SenderCrash(0, 0), [Accept(b)] + ([StartAttempt] + rest));
    RunsTwo(w1, StartAttempt, [SenderCrash(0, 0)] + ([Accept(b)] + ([StartAttempt] + rest)));
    RunsTwo(START, Accept(a), [StartAttempt] + ([SenderCrash(0, 0)] + ([Accept(b)] + ([StartAttempt] + rest))));
    assert [Accept(a)] + ([StartAttempt] + ([SenderCrash(0, 0)] + ([Accept(b)] + ([StartAttempt] + rest))))
        == LostThenLate(a, b);
    assert w6.delivered + [a] == [b, a];
  }

  /** `b` is accepted and delivered, and then a copy of the lost message `e`. */
  function Overtakes(e: Envelope, b: Envelope): seq<Step> {
    [SenderCrash(0, 0)] + ([Accept(b)] + ([StartAttempt] + ([RelayStops] + (Passes(b) + Passes(e)))))
  }

  /** Whatever was sent may still be delivered after a message accepted later. */
  lemma OvertakesRun(w: World, e: Envelope, b: Envelope)
    requires Sane(w) && e in w.sent && b.id !in Ids(w.accepted)
    ensures Runs(w, Overtakes(e, b))
    ensures After(w, Overtakes(e, b)).accepted == w.accepted + [b]
    ensures After(w, Overtakes(e, b)).delivered == w.delivered + [b, e]
  {
    hide Runs, After, DistinctIds, Ids;
    var w1 := Apply(w, SenderCrash(0, 0));
    var w2 := Apply(w1, Accept(b));
    assert w2.live == [|w.accepted|];
    var w3 := Apply(w2, StartAttempt);
    var w4 := Apply(w3, RelayStops);
    PassesRun(w4, b);
    var w5 := After(w4, Passes(b));
    PassesRun(w5, e);
    RunsConcat(w4, Passes(b), Passes(e));
    var rest := Passes(b) + Passes(e);
    RunsTwo(w3, RelayStops, rest);
    RunsTwo(w2, StartAttempt, [RelayStops] + rest);
    RunsTwo(w1, Accept(b), [StartAttempt] + ([RelayStops] + rest));
    RunsTwo(w, SenderCrash(0, 0), [Accept(b)] + ([StartAttempt] + ([RelayStops] + rest)));
    assert (w.delivered + [b]) + [e] == w.delivered + [b, e];
  }

  /** An ID no message has. */
  lemma {:induction false} UnusedId(es: seq<Envelope>) returns (id: Id)
    ensures forall i | 0 <= i < |es| :: |es[i].id| < |id|
    ensures id !in Ids(es)
  {
    if es == [] {
      id := "x";
    } else {
      id := UnusedId(es[1..]);
      if |es[0].id| >= |id| { id := es[0].id + "x"; }
      forall i | 0 <= i < |es|
        ensures |es[i].id| < |id|
      {
        if i > 0 { assert es[i] == es[1..][i - 1]; }
      }
    }
  }

  /** A lost message that is no stray never becomes one. */
  lemma {:induction false} LostStaysPut(w: World, steps: seq<Step>, p: nat)
    requires Inv(w) && Runs(w, steps) && p < |w.accepted| && !Survives(w, p) && w.accepted[p] !in w.strays
    ensures var v := After(w, steps); Inv(v) && p < |v.accepted| && v.accepted[p] == w.accepted[p] && v.accepted[p] !in v.strays
    decreases |steps|
  {
    hide Inv, Enabled, Apply;
    if steps != [] {
      StepInv(w, steps[0]);
      LostStepsPut(w, steps[0], p);
      LostStaysPut(Apply(w, steps[0]), steps[1..], p);
    }
  }

  lemma LostStepsPut(w: World, s: Step, p: nat)
    requires Inv(w) && Enabled(w, s) && p < |w.accepted| && !Survives(w, p) && w.accepted[p] !in w.strays
    ensures var v := Apply(w, s);
            p < |v.accepted| && v.accepted[p] == w.accepted[p] && !Survives(v, p) && v.accepted[p] !in v.strays
  {
    hide Traced, Honest, SentInOrder, Accounted, DeliveredInOrder;
    SurvivorsStep(w, s);
    if s.SenderCrash? && w.accepted[p] in Strayed(w, s.to) {
      var i :| s.to <= i < |w.live| && MessageAt(w, i) == w.accepted[p];
      LiveSurvives(w, i);
      SameIndex(w, p, w.live[i]);
    }
  }

  /** Every run after the crash delivers the lost message in its place, or never. */
  ghost predicate AlwaysInPlace(w: World, p: nat) {
    forall steps | Runs(w, steps) :: p < |After(w, steps).accepted| && InPlace(After(w, steps), p)
  }

  /** WHICH LOST MESSAGES KEEP THEIR PLACE. A message that a crash loses keeps its place
      in the order in every continuation if and only if it was not yet sent or already
      delivered at the crash. */
  lemma OrderExact(before: seq<Step>, from: nat, to: nat, i: nat)
    requires Runs(START, before) && Enabled(After(START, before), SenderCrash(from, to))
    requires to <= i < |After(START, before).live|
    ensures var w := After(START, before);
            AlwaysInPlace(Apply(w, SenderCrash(from, to)), w.live[i])
            <==> MessageAt(w, i) !in w.sent || MessageAt(w, i) in w.delivered
  {
    StartInv();
    RunInv(START, before);
    hide Runs, After, AlwaysInPlace;
    LostPlace(After(START, before), from, to, i);
  }

  lemma LostPlace(w: World, from: nat, to: nat, i: nat)
    requires Inv(w) && Enabled(w, SenderCrash(from, to)) && to <= i < |w.live|
    ensures AlwaysInPlace(Apply(w, SenderCrash(from, to)), w.live[i])
            <==> MessageAt(w, i) !in w.sent || MessageAt(w, i) in w.delivered
  {
    hide Runs, After, Inv, InPlace;
    var v, p := Apply(w, SenderCrash(from, to)), w.live[i];
    StepInv(w, SenderCrash(from, to));
    LostAtCrash(w, from, to, i);
    if MessageAt(w, i) !in w.sent || MessageAt(w, i) in w.delivered {
      forall steps | Runs(v, steps)
        ensures p < |After(v, steps).accepted| && InPlace(After(v, steps), p)
      {
        LostStaysPut(v, steps, p);
        OrderOf(After(v, steps), p);
      }
    } else {
      StrayOvertaken(v, p);
    }
  }

  lemma LostAtCrash(w: World, from: nat, to: nat, i: nat)
    requires Inv(w) && Enabled(w, SenderCrash(from, to)) && to <= i < |w.live|
    ensures var v, p := Apply(w, SenderCrash(from, to)), w.live[i];
            && p < |v.accepted| && !Survives(v, p)
            && (v.accepted[p] in v.strays <==> MessageAt(w, i) in w.sent && MessageAt(w, i) !in w.delivered)
            && v.sent == w.sent && v.delivered == w.delivered && v.accepted[p] == MessageAt(w, i)
  {
    hide Traced, Honest, SentInOrder, DeliveredInOrder, DistinctIds;
    LiveSurvives(w, i);
  }

  lemma StrayOvertaken(w: World, p: nat)
    requires Inv(w) && p < |w.accepted| && w.accepted[p] in w.sent && w.accepted[p] !in w.delivered
    ensures !AlwaysInPlace(w, p)
  {
    hide Runs, After, Traced, Honest, SentInOrder, Accounted, DeliveredInOrder, FirstDelivery;
    var id := UnusedId(w.accepted);
    var e, b := w.accepted[p], Envelope(id, []);
    OvertakesRun(w, e, b);
    NewNotDelivered(w, b);
    var v := After(w, Overtakes(e, b));
    FirstOf(w.delivered, b, e);
    assert v.accepted[|w.accepted|] == b && v.accepted[p] == e;
  }

  lemma NewNotDelivered(w: World, b: Envelope)
    requires Traced(w) && b.id !in Ids(w.accepted)
    ensures b !in w.delivered && b !in w.accepted
  {
    SentAreAccepted(w);
  }

  lemma FirstOf(es: seq<Envelope>, a: Envelope, b: Envelope)
    requires a !in es && b !in es && a != b
    ensures a in es + [a, b] && b in es + [a, b]
    ensures FirstDelivery(es + [a, b], a) < FirstDelivery(es + [a, b], b)
  {
    var more := es + [a, b];
    assert more[|es|] == a && more[|es| + 1] == b;
    FirstAmong(more, a, |es| + 1);
    assert more[..|es|] == es;
    assert forall j | 0 <= j < |es| :: es[j] != b && more[j] == es[j];
  }

  /** By stop-and-wait a crash loses at most one such message: the first surviving one the
      destination does not have. */
  lemma StrayIsFirst(before: seq<Step>, i: nat, j: nat)
    requires Runs(START, before)
    requires var w := After(START, before);
             && InRange(w) && j < i < |w.live| && MessageAt(w, i) in w.sent && MessageAt(w, i) !in w.delivered
    ensures MessageAt(After(START, before), j) in After(START, before).delivered
  {
    StartInv();
    RunInv(START, before);
    hide Runs, After, Traced, Honest, Accounted, DeliveredInOrder, DistinctIds;
    var w := After(START, before);
    assert w.accepted[w.live[i]] in w.sent && w.live[j] < w.live[i];
  }

  /** The FIFO of the protocol state. */
  ghost function Fifo(w: World): seq<Envelope>
    requires InRange(w)
  {
    seq(|w.live| - w.head, i requires 0 <= i < |w.live| - w.head => MessageAt(w, w.head + i))
  }

  // ---- The relay under the protocol -----------------------------------------------------------

  /** The steps of one forwarding attempt with the given published effects. */
  function AttemptSteps(e: Envelope, effects: seq<Effect>): seq<Step> {
    if effects == [] then [RelayTakes] + [RelayDrops]
    else if effects == [Forwarded(e, false)] then [RelayTakes] + ([RelayForwards] + [RelayDrops])
    else if effects == [Forwarded(e, true)] then [RelayTakes] + ([RelayForwards] + ([DestinationAccepts(e)] + [RelayDrops]))
    else [RelayTakes] + ([RelayForwards] + ([DestinationAccepts(e)] + ([RelayConfirms] + [RelayAcks])))
  }

  lemma TakeStep(w: World)
    requires InRange(w) && w.tasks != [] && w.inHand == None
    ensures Enabled(w, RelayTakes)
    ensures Apply(w, RelayTakes) == w.(tasks := w.tasks[1..], inHand := Some(InHand(w.tasks[0], false)))
  {
  }

  lemma AckSteps(w: World, e: Envelope)
    requires InRange(w) && w.inHand == Some(InHand(e, false)) && e in w.delivered
    ensures Enabled(w, RelayConfirms) && Apply(w, RelayConfirms) == w.(inHand := Some(InHand(e, true)))
    ensures Enabled(w.(inHand := Some(InHand(e, true))), RelayAcks)
    ensures Apply(w.(inHand := Some(InHand(e, true))), RelayAcks) == w.(acks := w.acks + {e.id}, inHand := None)
  {
  }

  /** What `_forward_once` publishes is a run of the protocol: the destination accepted
      the message whenever it was confirmed, and only then can an ACK be in flight. */
  lemma RelayAttemptRuns(w: World, effects: seq<Effect>, ok: bool)
    requires InRange(w) && w.tasks != [] && w.inHand == None && OneAttempt(w.tasks[0], effects, ok)
    ensures Runs(w, AttemptSteps(w.tasks[0], effects))
    ensures var e, v := w.tasks[0], After(w, AttemptSteps(w.tasks[0], effects));
            && v.tasks == w.tasks[1..] && v.inHand == None && v.live == w.live && v.head == w.head && v.sent == w.sent
            && v.acks == (if AckPublished(e.id) in effects then w.acks + {e.id} else w.acks)
            && v.delivered == (if Forwarded(e, true) in effects then w.delivered + [e] else w.delivered)
            && (ok ==> e.id in v.acks && e in v.delivered)
  {
    hide Runs, After, Enabled, Apply;
    var e := w.tasks[0];
    TakeStep(w);
    var w1 := w.(tasks := w.tasks[1..], inHand := Some(InHand(e, false)));
    ForwardHalf(w1, e);
    var w2 := w1.(routed := w.routed + {e});
    DeliverHalf(w2, e);
    var w3 := w2.(delivered := w.delivered + [e]);
    AckSteps(w3, e);
    DropHalf(w1);
    DropHalf(w2);
    DropHalf(w3);
    RunsOne(w1, RelayDrops);
    RunsTwo(w, RelayTakes, [RelayDrops]);
    RunsOne(w2, RelayDrops);
    RunsTwo(w1, RelayForwards, [RelayDrops]);
    RunsTwo(w, RelayTakes, [RelayForwards] + [RelayDrops]);
    RunsOne(w3, RelayDrops);
    RunsTwo(w2, DestinationAccepts(e), [RelayDrops]);
    RunsTwo(w1, RelayForwards, [DestinationAccepts(e)] + [RelayDrops]);
    RunsTwo(w, RelayTakes, [RelayForwards] + ([DestinationAccepts(e)] + [RelayDrops]));
    var w4 := w3.(inHand := Some(InHand(e, true)));
    RunsOne(w4, RelayAcks);
    RunsTwo(w3, RelayConfirms, [RelayAcks]);
    RunsTwo(w2, DestinationAccepts(e), [RelayConfirms] + [RelayAcks]);
    RunsTwo(w1, RelayForwards, [DestinationAccepts(e)] + ([RelayConfirms] + [RelayAcks]));
    RunsTwo(w, RelayTakes, [RelayForwards] + ([DestinationAccepts(e)] + ([RelayConfirms] + [RelayAcks])));
  }
}
