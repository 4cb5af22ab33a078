/** A Sender, a Relay and the brokers between them under the protocol: whatever calls,
    callbacks, timers, faults, restarts and crashes come, in whatever order, the real
    objects follow a run of the protocol. */
module EndToEnd {
  import opened Wrappers
  import opened Framing
  import opened Layout
  import opened Directory
  import opened Recovery
  import opened Storage
  import opened QueueSpec
  import opened Backing
  import opened OutboxSteps
  import opened Openings
  import Restarts
  import Acknowledgements
  import opened OutboxClass
  import opened Modes
  import opened Policy
  import opened Messages
  import opened SenderClass
  import opened RelayClass
  import opened Protocol

  // ---- A Sender's FIFO in the protocol --------------------------------------------------

  /** The protocol's FIFO is `fifo`, `left` are the last messages before it, and a removal
      that was asked for is one of the protocol's. */
  ghost predicate Matches(w: World, fifo: seq<Envelope>, left: seq<Envelope>, asking: bool) {
    && Inv(w) && Fifo(w) == fifo && |left| <= w.head
    && (forall i | 0 <= i < |left| :: left[i] == MessageAt(w, w.head - |left| + i))
    && (asking ==> w.removing)
  }

  lemma MatchesStart()
    ensures Matches(START, [], [], false) && START.tasks == [] && START.inHand == None && START.expecting == None
  {
    StartInv();
  }

  lemma MatchesParts(w: World, fifo: seq<Envelope>, left: seq<Envelope>, asking: bool)
    requires Matches(w, fifo, left, asking)
    ensures InRange(w) && Inv(w) && |fifo| == |w.live| - w.head && |left| <= w.head
    ensures forall i | 0 <= i < |fifo| :: fifo[i] == MessageAt(w, w.head + i)
    ensures forall i | 0 <= i < |left| :: left[i] == MessageAt(w, w.head - |left| + i)
    ensures asking ==> w.removing
  {
    hide Traced, Honest, SentInOrder, Accounted, DeliveredInOrder, DistinctIds;
  }

  lemma MatchesFrom(w: World, fifo: seq<Envelope>, left: seq<Envelope>, asking: bool)
    requires InRange(w) && Inv(w) && |fifo| == |w.live| - w.head && |left| <= w.head && (asking ==> w.removing)
    requires forall i | 0 <= i < |fifo| :: fifo[i] == MessageAt(w, w.head + i)
    requires forall i | 0 <= i < |left| :: left[i] == MessageAt(w, w.head - |left| + i)
    ensures Matches(w, fifo, left, asking)
  {
    hide Inv;
    assert Fifo(w) == fifo;
  }

  /** An accepted message joins the FIFO, wherever it is stored. */
  lemma AcceptMatches(w: World, fifo: seq<Envelope>, left: seq<Envelope>, asking: bool, e: Envelope)
    requires Matches(w, fifo, left, asking) && e.id !in Ids(w.accepted)
    ensures Enabled(w, Accept(e)) && Matches(Apply(w, Accept(e)), fifo + [e], left, asking)
  {
    hide Matches, Inv, Ids, Enabled, Apply;
    MatchesParts(w, fifo, left, asking);
    AcceptFields(w, e);
    StepInv(w, Accept(e));
    StableRange(w, Accept(e));
    MatchesFrom(Apply(w, Accept(e)), fifo + [e], left, asking);
  }

  lemma AcceptFields(w: World, e: Envelope)
    requires InRange(w) && e.id !in Ids(w.accepted)
    ensures Enabled(w, Accept(e))
    ensures var v := Apply(w, Accept(e));
            && |v.live| == |w.live| + 1 && v.head == w.head && v.removing == w.removing
            && v.live[|w.live|] == |w.accepted| && v.accepted == w.accepted + [e]
  {
  }

  lemma StepFields(w: World, s: Step)
    requires Enabled(w, s) && KeepsFifo(s)
    ensures var v := Apply(w, s);
            v.live == w.live && v.head == w.head && v.accepted == w.accepted && v.removing == (w.removing || s.AskRemoval?)
  {
  }

  lemma RemoveFields(w: World)
    requires InRange(w) && w.removing && w.head < |w.live|
    ensures Enabled(w, RemoveHead)
    ensures var v := Apply(w, RemoveHead); v.live == w.live && v.head == w.head + 1 && v.accepted == w.accepted && !v.removing
    ensures Apply(w, RemoveHead).expecting == None
  {
  }

  lemma CrashFields(w: World, from: nat, to: nat)
    requires InRange(w) && from <= to <= |w.live| && (from <= w.head || (w.removing && from == w.head + 1))
    ensures Enabled(w, SenderCrash(from, to))
    ensures var v := Apply(w, SenderCrash(from, to)); v.live == w.live[..to] && v.head == from && v.accepted == w.accepted
    ensures Apply(w, SenderCrash(from, to)).expecting == None
  {
  }

  /** What the sender's steps leave alone, and when a message is awaited. */
  predicate OfSender(s: Step) {
    s.Accept? || s.StartAttempt? || s.AckArrives? || s.EndAttempt? || s.AskRemoval? || s.RemoveHead? || s.SenderCrash?
  }

  lemma SenderSide(w: World, s: Step)
    requires Enabled(w, s) && OfSender(s)
    ensures var v := Apply(w, s);
            && v.tasks == w.tasks && v.inHand == w.inHand && v.acks == w.acks && v.delivered == w.delivered
            && v.routed == w.routed
            && (s.Accept? || s.AckArrives? || s.AskRemoval? ==> v.expecting == w.expecting)
            && (s.EndAttempt? || s.RemoveHead? || s.SenderCrash? ==> v.expecting == None)
            && (s.StartAttempt? ==> v.expecting.Some?)
            && (s.AckArrives? && w.expecting == Some(s.id) ==> v.matched) && (s.AskRemoval? || s.Accept? ==> v.matched == w.matched)
            && (s.AckArrives? && w.matched ==> v.matched)
            && (!s.Accept? ==> v.accepted == w.accepted)
  {
  }

  lemma StableRange(w: World, s: Step)
    requires InRange(w) && Enabled(w, s)
    ensures var v := Apply(w, s);
            InRange(v) && forall i | 0 <= i < |w.live| && i < |v.live| :: MessageAt(v, i) == MessageAt(w, i)
  {
    Stable(w, s);
  }

  /** A step of the network, or one that only starts or ends an attempt. */
  predicate KeepsFifo(s: Step) {
    !s.Accept? && !s.RemoveHead? && !s.SenderCrash?
  }

  lemma StepMatches(w: World, fifo: seq<Envelope>, left: seq<Envelope>, asking: bool, s: Step)
    requires Matches(w, fifo, left, asking) && Enabled(w, s) && KeepsFifo(s)
    ensures Matches(Apply(w, s), fifo, left, asking || s.AskRemoval?)
    ensures Apply(w, s).accepted == w.accepted
  {
    hide Matches, Inv, Ids, Enabled, Apply;
    MatchesParts(w, fifo, left, asking);
    StepFields(w, s);
    StepInv(w, s);
    StableRange(w, s);
    MatchesFrom(Apply(w, s), fifo, left, asking || s.AskRemoval?);
  }

  /** Less may be claimed about the removal. */
  lemma LessAsked(w: World, fifo: seq<Envelope>, left: seq<Envelope>, asking: bool, less: bool)
    requires Matches(w, fifo, left, asking) && (less ==> asking)
    ensures Matches(w, fifo, left, less)
  {
    hide Inv;
  }

  /** The acknowledged head leaves. */
  lemma RemoveMatches(w: World, fifo: seq<Envelope>, left: seq<Envelope>, asking: bool)
    requires Matches(w, fifo, left, asking) && w.removing && fifo != []
    ensures Enabled(w, RemoveHead) && Matches(Apply(w, RemoveHead), fifo[1..], left + [fifo[0]], false)
  {
    hide Matches, Inv, Ids, Enabled, Apply;
    MatchesParts(w, fifo, left, asking);
    RemoveFields(w);
    StepInv(w, RemoveHead);
    StableRange(w, RemoveHead);
    MatchesFrom(Apply(w, RemoveHead), fifo[1..], left + [fifo[0]], false);
  }

  // ---- Crashes ---------------------------------------------------------------------------

  /** What the Outbox may hold, with its live head at `head`, is what the protocol has at
      the same places. */
  ghost predicate Aligned(w: World, b: Bounds, head: nat) {
    && Inv(w) && InRange(w) && head <= |b.plan| && |b.plan| - head == |w.live| - w.head
    && (forall h | h in b.spots :: head - h <= w.head && h <= if w.removing then head + 1 else head)
    && (forall h, k | h in b.spots && h <= k < |b.plan| :: b.plan[k] == MessageAt(w, w.head + k - head))
  }

  /** A Sender whose call may store `more` and, with `ask`, remove the head. */
  lemma ReachAligned(w: World, fifo: seq<Envelope>, left: seq<Envelope>, asking: bool, q: Queue, more: seq<Envelope>, ask: bool)
    requires Matches(w, fifo + more, left, ask || asking) && Replays(q, left, asking)
    ensures q.head <= |q.items| && Aligned(w, Reach(q, fifo, more, ask), q.head)
  {
    hide DistinctIds, Inv, Matches;
    MatchesParts(w, fifo + more, left, ask || asking);
    var b := Reach(q, fifo, more, ask);
    forall k | q.saved <= k < |b.plan|
      ensures 0 <= w.head + k - q.head < |w.live| && b.plan[k] == MessageAt(w, w.head + k - q.head)
    {
      if k < q.head {
        assert q.items[q.saved..q.head][k - q.saved] == q.items[k];
      } else {
        assert b.plan[k] == (fifo + more)[k - q.head];
      }
    }
  }

  /** Whatever a crash leaves of it is a sender crash of the protocol. */
  lemma CrashMatches(w: World, b: Bounds, head: nat, a: nat, z: nat) returns (from: nat, to: nat)
    requires Aligned(w, b, head) && a in b.spots && a <= z <= |b.plan|
    ensures Enabled(w, SenderCrash(from, to)) && Matches(Apply(w, SenderCrash(from, to)), b.plan[a..z], [], false)
    ensures Apply(w, SenderCrash(from, to)).expecting == None
  {
    hide Inv, Matches, Enabled, Apply;
    from, to := w.head + a - head, w.head + z - head;
    CrashFields(w, from, to);
    StepInv(w, SenderCrash(from, to));
    StableRange(w, SenderCrash(from, to));
    var v := Apply(w, SenderCrash(from, to));
    forall i | 0 <= i < z - a
      ensures b.plan[a..z][i] == MessageAt(v, v.head + i)
    {
      assert b.plan[a + i] == MessageAt(w, w.head + (a + i) - head);
    }
    MatchesFrom(v, b.plan[a..z], [], false);
  }

  /** What a crash between calls leaves. */
  lemma RecoversReach(q: Queue, fifo: seq<Envelope>, pending: seq<Envelope>) returns (from: nat, to: nat)
    requires q.Ok() && q.Pending() <= fifo && q.Recovers(pending)
    ensures var b := Reach(q, fifo, [], false);
            from in b.spots && from <= to <= |b.plan| && pending == b.plan[from..to]
  {
    hide DistinctIds;
    from, to :| from in q.heads && from <= to && q.durable <= to <= |q.items| && pending == q.items[from..to];
    var b := Reach(q, fifo, [], false);
    assert q.items == q.items[..q.head] + q.Pending();
    assert b.plan[from..to] == q.items[from..to];
  }

  /** Where a crash inside the last call of the Sender leaves the protocol: the run up to
      the call with the call's own steps, the moments of the directory before it, and what
      the Outbox may hold. */
  datatype Peril = Peril(before: seq<Snapshot>, world: World, history: seq<Step>, bounds: Bounds, head: nat)

  /** The relay is as it was. */
  ghost predicate Beside(p: Peril, tasks: seq<Envelope>) {
    p.world.tasks == tasks && p.world.inHand == None
  }

  ghost predicate Sound(p: Peril) {
    p.before != [] && Runs(START, p.history) && After(START, p.history) == p.world && Aligned(p.world, p.bounds, p.head)
  }

  /** A policy and a Sender over an Outbox just opened. */
  method OpenSender(o: Outbox, m: Mode, retry: real, now: real) returns (s: Sender)
    requires o.Valid() && m.Ok()
    requires o.Queue().durable == |o.Queue().items| && o.Queue().heads == {o.Queue().head}
    requires o.Queue().saved == o.Queue().head == o.Queue().asked
    ensures fresh(s) && fresh(s.policy) && s.outbox == o && s.mode == m && s.policy.outbox == o
    ensures s.Valid() && s.FastTracked() && s.fastQueue == [] && s.left == [] && !s.asking && !s.stopped
    ensures o.Queue().head <= |o.Queue().items| && s.Fifo() == o.Queue().Pending()
    ensures forall x | x in s.pending :: fresh(x)
  {
    hide Outbox.Valid, Outbox.Queue, Sender.Valid, PersistencePolicy.Valid, PersistencePolicy.DataBounded;
    hide PersistencePolicy.AckBounded, Sender.Scheduled, Envs;
    var p := new PersistencePolicy(o, m, now);
    s := new Sender(p, o, retry, now);
    s.Tracked();
  }

  // ---- The deployment ---------------------------------------------------------------------

  class Deployment {
    var sender: Sender
    var relay: Relay
    /** What the delivery worker took up, and whether it was published. */
    var picked: Option<(PendingMessage, Envelope)>
    var inFlight: bool
    /** The Outbox wedged; only a restart helps. */
    var broken: bool
    var tracker: Acknowledgements.AckTracker
    /** `wait` answered that the acknowledgement came. */
    var awaited: bool

    ghost var world: World
    ghost var history: seq<Step>
    /** Where the tracker's trace says that the present expectation began. */
    ghost var began: nat
    /** What a crash inside the last call leaves, if that was a call of the Sender. */
    ghost var peril: Option<Peril>

    ghost predicate Recorded()
      reads this`world, this`history
    {
      Runs(START, history) && After(START, history) == world
    }

    ghost predicate RelayMatches()
      reads this`relay, this`world, relay
    {
      relay.Valid() && relay.tasks == world.tasks && world.inHand == None
    }

    ghost predicate SenderMatches()
      reads this`sender, this`world, sender, sender.pending`state, sender.pending`encoded, sender.fastQueue`state,
            sender.fastQueue`encoded, sender.fastQueue`spillAttempted, sender.policy, sender.policy.outbox,
            sender.policy.outbox.fs, sender.outbox, sender.outbox.fs
    {
      sender.Valid() && sender.FastTracked() && Matches(world, sender.Fifo(), sender.left, sender.asking)
    }

    /** The worker has the oldest message in hand, and expects its acknowledgement while it
        is in flight. */
    ghost predicate WorkerMatches()
      reads this`sender, this`world, this`picked, this`inFlight, sender`pending
    {
      Works(world.expecting, sender.pending)
    }

    ghost predicate Works(expecting: Option<Id>, pending: seq<PendingMessage>)
      reads this`picked, this`inFlight
    {
      && (expecting.Some? <==> inFlight) && (inFlight ==> picked.Some?)
      && (picked.Some? ==> pending != [] && pending[0] == picked.value.0 && pending[0].Env() == picked.value.1)
    }

    /** The tracker expects the message in flight, and has a match only if the protocol has. */
    ghost predicate TrackerMatches()
      reads this`world, this`tracker, this`inFlight, this`awaited, this`began, tracker
    {
      Tracks(world.expecting, world.matched)
    }

    ghost predicate Tracks(expecting: Option<Id>, matched: bool)
      reads this`tracker, this`inFlight, this`awaited, this`began, tracker
    {
      && tracker.Valid() && tracker.expected == expecting && (tracker.matched ==> matched) && (awaited ==> inFlight && matched)
      && (expecting.Some? ==>
            && began < |tracker.trace| && tracker.trace[began] == Acknowledgements.Step.Begin(expecting.value)
            && Acknowledgements.Within(tracker.trace[began + 1..]))
    }

    /** The moments of the last call are those of its peril. */
    ghost predicate Imperilled()
      reads this`sender, this`peril, this`relay, relay, sender.outbox.fs
    {
      peril.Some? ==>
        && Sound(peril.value) && Moments(peril.value.before, sender.outbox.fs.visited, peril.value.bounds)
        && Beside(peril.value, relay.tasks)
    }

    ghost predicate Salvageable()
      reads this`sender, this`world, sender, sender.outbox, sender.outbox.fs
    {
      && InRange(world) && Matches(world, Fifo(world), sender.left, sender.asking) && sender.Broken(Fifo(world))
      && sender.mode.Ok()
    }

    ghost predicate Valid()
      reads this, relay, tracker, sender, sender.pending`state, sender.pending`encoded, sender.fastQueue`state,
            sender.fastQueue`encoded, sender.fastQueue`spillAttempted, sender.policy, sender.policy.outbox,
            sender.policy.outbox.fs, sender.outbox, sender.outbox.fs
    {
      && Recorded() && RelayMatches() && Imperilled()
      && (if broken then Salvageable() else SenderMatches() && WorkerMatches() && TrackerMatches())
    }

    lemma Parts()
      requires Valid()
      ensures Recorded() && RelayMatches() && Imperilled()
      ensures if broken then Salvageable() else SenderMatches() && WorkerMatches() && TrackerMatches()
    {
      hide Recorded, RelayMatches, Imperilled, Salvageable, SenderMatches, WorkerMatches, TrackerMatches;
    }

    lemma Assembled()
      requires Recorded() && RelayMatches() && Imperilled()
      requires if broken then Salvageable() else SenderMatches() && WorkerMatches() && TrackerMatches()
      ensures Valid()
    {
      hide Recorded, RelayMatches, Imperilled, Salvageable, SenderMatches, WorkerMatches, TrackerMatches;
    }

    lemma WorksIs(expecting: Option<Id>, pending: seq<PendingMessage>)
      requires (expecting.Some? <==> inFlight) && (inFlight ==> picked.Some?)
      requires picked.Some? ==> pending != [] && pending[0] == picked.value.0 && pending[0].Env() == picked.value.1
      ensures Works(expecting, pending)
    {
    }

    lemma InFlightParts(expecting: Option<Id>, pending: seq<PendingMessage>)
      requires Works(expecting, pending)
      ensures expecting.Some? <==> inFlight
      ensures inFlight ==> picked.Some?
      ensures picked.Some? ==> pending != [] && pending[0] == picked.value.0 && pending[0].Env() == picked.value.1
    {
    }

    lemma WorksLonger(expecting: Option<Id>, a: seq<PendingMessage>, b: seq<PendingMessage>)
      requires Works(expecting, a) && a <= b
      ensures Works(expecting, b)
    {
    }

    /** What a caller needs to make the next call. */
    twostate predicate Framed()
      reads this`sender, this`relay, this`tracker, sender
    {
      && (sender == old(sender)
          || (fresh(sender) && fresh(sender.policy) && fresh(sender.outbox) && fresh(sender.outbox.fs)))
      && (relay == old(relay) || fresh(relay)) && (tracker == old(tracker) || fresh(tracker))
      && fresh(sender.Ram() - old(sender.Ram()))
    }

    /** A Sender over an empty Outbox, and a Relay. */
    constructor (o: Outbox, m: Mode, capacity: nat, retry: real, now: real)
      requires o.Valid() && m.Ok() && capacity > 0
      requires o.Queue().durable == |o.Queue().items| == o.Queue().head && o.Queue().heads == {o.Queue().head}
      requires o.Queue().saved == o.Queue().head == o.Queue().asked
      ensures Valid() && !broken && !inFlight && sender.outbox == o && sender.mode == m && world == START
      ensures fresh(sender) && fresh(sender.policy) && fresh(relay) && fresh(tracker) && sender.fastQueue == []
    {
      hide Outbox.Valid, Outbox.Queue, Sender.Valid, Runs, After, PersistencePolicy.Valid;
      hide PersistencePolicy.DataBounded;
      hide PersistencePolicy.AckBounded, Matches, Sender.Broken;
      MatchesStart();
      var s := OpenSender(o, m, retry, now);
      sender := s;
      relay := new Relay(capacity);
      tracker := new Acknowledgements.AckTracker();
      picked, inFlight, broken, awaited := None, false, false, false;
      world, history, began, peril := START, [], 0, None;
      new;
      StartedRun();
      assert sender.Fifo() == [];
    }

    /** The run grows by one step. */
    ghost method Record(s: Step)
      requires Recorded() && Enabled(world, s)
      modifies this`world, this`history
      ensures Recorded() && world == Apply(old(world), s) && history == old(history) + [s]
    {
      hide Runs, After, Enabled, Apply;
      RunsOne(world, s);
      RunsConcat(START, history, [s]);
      history, world := history + [s], Apply(world, s);
    }

    ghost method RecordAll(steps: seq<Step>)
      requires Recorded() && Runs(world, steps)
      modifies this`world, this`history
      ensures Recorded() && world == After(old(world), steps) && history == old(history) + steps
    {
      hide Runs, After, Enabled, Apply;
      RunsConcat(START, history, steps);
      history, world := history + steps, After(world, steps);
    }

    /** The run grows by a step that keeps the FIFO. */
    ghost method Track(s: Step, fifo: seq<Envelope>, left: seq<Envelope>, asking: bool)
      requires Recorded() && Matches(world, fifo, left, asking) && Enabled(world, s) && KeepsFifo(s)
      modifies this`world, this`history
      ensures Recorded() && world == Apply(old(world), s) && history == old(history) + [s]
      ensures Matches(world, fifo, left, asking || s.AskRemoval?)
    {
      hide Runs, After, Enabled, Apply, Matches;
      StepMatches(world, fifo, left, asking, s);
      Record(s);
    }

    lemma SenderParts()
      requires SenderMatches()
      ensures InRange(world) && Fifo(world) == sender.Fifo() && sender.mode.Ok() && sender.outbox.Valid()
      ensures sender.Valid() && sender.FastTracked() && Matches(world, sender.Fifo(), sender.left, sender.asking)
      ensures sender.policy.outbox == sender.outbox && sender.policy.mode == sender.mode
    {
      RangeOf(world, sender.Fifo(), sender.left, sender.asking);
      hide Outbox.Valid, Matches, PersistencePolicy.DataBounded, PersistencePolicy.AckBounded, Sender.Owned, Backs;
      hide Ordered, IndexedById, Decodable, Tracks, Covered;
    }

    /** `p` says what a crash leaves inside a call of the Sender that may store `more` and,
        with `ask`, remove the head. */
    ghost predicate Risks(p: Peril, more: seq<Envelope>, ask: bool)
      reads this`sender, this`relay, this`history, relay, sender, sender.fastQueue`spillAttempted, sender.outbox, sender.outbox.fs
    {
      && sender.Mirrored() && Sound(p) && p.before == sender.outbox.fs.visited && p.bounds == sender.Extent(more, ask)
      && Beside(p, relay.tasks) && history <= p.history
    }

    lemma Risk(steps: seq<Step>, more: seq<Envelope>, ask: bool) returns (p: Peril)
      requires Recorded() && RelayMatches() && SenderMatches() && Runs(world, steps)
      requires After(world, steps).tasks == world.tasks && After(world, steps).inHand == world.inHand
      requires Matches(After(world, steps), sender.Fifo() + more, sender.left, ask || sender.asking)
      ensures Risks(p, more, ask)
    {
      hide Runs, After, Matches, Aligned, Reach, Sender.FastTracked, Replays, Sender.Valid, Sender.Extent;
      RunsConcat(START, history, steps);
      SenderBacks();
      sender.ExtentIs(more, ask);
      ReachAligned(After(world, steps), sender.Fifo(), sender.left, sender.asking, sender.outbox.Queue(), more, ask);
      p := Peril(sender.outbox.fs.visited, After(world, steps), history + steps, sender.Extent(more, ask), sender.outbox.Queue().head);
    }

    /** A call without a step of its own. */
    lemma CallRisk() returns (p: Peril)
      requires Recorded() && RelayMatches() && SenderMatches()
      ensures Risks(p, [], false)
    {
      hide Recorded, RelayMatches, Matches, Sender.Valid, Sender.FastTracked, Risks, Envs, Enabled, Apply;
      assert sender.Fifo() + [] == sender.Fifo();
      p := Risk([], [], false);
    }

    /** The last call may have been cut short. */
    twostate predicate Endangered()
      reads this`peril
    {
      peril.Some? && old(history) <= peril.value.history && peril.value.before == old(sender.outbox.fs.visited)
    }

    /** The call is over. */
    lemma Survived(p: Peril)
      requires peril == Some(p) && Sound(p) && Beside(p, relay.tasks) && Moments(p.before, sender.outbox.fs.visited, p.bounds)
      ensures Imperilled()
    {
      hide Sound, Moments, Beside;
    }

    lemma NoPeril()
      requires peril.None?
      ensures Imperilled()
    {
    }

    /** The end of a call without a step of its own. */
    method Close(wedged: bool, ghost risk: Peril)
      requires Recorded() && RelayMatches() && Sound(risk) && Beside(risk, relay.tasks)
      requires Moments(risk.before, sender.outbox.fs.visited, risk.bounds)
      requires InRange(world) && Matches(world, Fifo(world), sender.left, sender.asking) && sender.mode.Ok()
      requires if wedged then sender.Broken(Fifo(world))
               else sender.Valid() && sender.FastTracked() && sender.Fifo() == Fifo(world) && WorkerMatches() && TrackerMatches()
      modifies this`broken, this`peril
      ensures broken == wedged && peril == Some(risk) && Valid()
    {
      hide Recorded, RelayMatches, Imperilled, WorkerMatches, TrackerMatches, Valid, Sound, Beside, Moments;
      hide Matches, Sender.Valid, Sender.Broken, Sender.FastTracked, Envs;
      broken, peril := wedged, Some(risk);
      Survived(risk);
      Gathered();
    }

    lemma Gathered()
      requires Recorded() && RelayMatches() && Imperilled()
      requires InRange(world) && Matches(world, Fifo(world), sender.left, sender.asking) && sender.mode.Ok()
      requires if broken then sender.Broken(Fifo(world))
               else sender.Valid() && sender.FastTracked() && sender.Fifo() == Fifo(world) && WorkerMatches() && TrackerMatches()
      ensures Valid()
    {
      hide Recorded, RelayMatches, Imperilled, Salvageable, SenderMatches, WorkerMatches, TrackerMatches, Valid;
      hide Matches, Sender.Valid, Sender.Broken, Sender.FastTracked, Envs;
      if broken { WreckIs(); } else { SenderIs(); }
      Assembled();
    }

    // ---- The tracker -------------------------------------------------------------------------

    lemma TracksParts(expecting: Option<Id>, matched: bool)
      requires Tracks(expecting, matched)
      ensures tracker.Valid() && tracker.expected == expecting && (tracker.matched ==> matched) && (awaited ==> inFlight && matched)
      ensures expecting.Some? ==>
                && began < |tracker.trace| && tracker.trace[began] == Acknowledgements.Step.Begin(expecting.value)
                && Acknowledgements.Within(tracker.trace[began + 1..])
    {
    }

    lemma TracksIdle(matched: bool)
      requires tracker.Valid() && tracker.expected.None? && (tracker.matched ==> matched) && !awaited
      ensures Tracks(None, matched)
    {
      hide Acknowledgements.Run;
    }

    lemma TracksBegun(id: Id, trace: seq<Acknowledgements.Step>, matched: bool)
      requires tracker.Valid() && tracker.State() == Acknowledgements.Fresh(id) && !awaited
      requires tracker.trace == trace + [Acknowledgements.Step.Begin(id)] && began == |trace|
      ensures Tracks(Some(id), matched)
    {
      hide Acknowledgements.Run;
    }

    /** The tracker took one more step of the present expectation, if there is any. */
    lemma TracksMore(trace: seq<Acknowledgements.Step>, x: Acknowledgements.Step, expecting: Option<Id>, matched: bool)
      requires tracker.Valid() && tracker.trace == trace + [x] && !x.Begin? && !x.End? && tracker.expected == expecting
      requires (tracker.matched ==> matched) && (awaited ==> inFlight && matched)
      requires expecting.Some? ==>
                 began < |trace| && trace[began] == Acknowledgements.Step.Begin(expecting.value) && Acknowledgements.Within(trace[began + 1..])
      ensures Tracks(expecting, matched)
    {
      hide Acknowledgements.Run;
      if expecting.Some? { assert (trace + [x])[began + 1..] == trace[began + 1..] + [x]; }
    }

    lemma RecordedIs()
      requires Runs(START, history) && After(START, history) == world
      ensures Recorded()
    {
      hide Runs, After;
    }

    lemma SenderBacks()
      requires SenderMatches()
      ensures sender.Mirrored() && sender.outbox.Valid() && sender.outbox.fs.visited != []
      ensures Replays(sender.outbox.Queue(), sender.left, sender.asking)
    {
      hide Matches, Sender.FastTracked, Sender.Ready, Sender.Owned, Ordered, IndexedById, Decodable, Replays;
      hide StoresPrefix;
      hide CrashSafe, Run, OutboxState.Inv;
    }

    lemma SenderIs()
      requires sender.Valid() && sender.FastTracked() && Matches(world, sender.Fifo(), sender.left, sender.asking)
      ensures SenderMatches()
    {
      hide Matches, Sender.Valid, Sender.FastTracked;
    }

    lemma WreckIs()
      requires InRange(world) && Matches(world, Fifo(world), sender.left, sender.asking) && sender.Broken(Fifo(world))
      requires sender.mode.Ok()
      ensures Salvageable()
    {
      hide Matches, Sender.Broken;
    }

    // ---- The application ------------------------------------------------------------------

    /** `publish`, with an ID that is unique unless the message is still pending. */
    method Publish(e: Envelope) returns (r: Publishing)
      requires Valid() && !broken && sender.outbox.codec.decode(e.body) == Some(e.id)
      requires e.id in Ids(sender.Fifo()) || e.id !in Ids(world.accepted)
      modifies this, sender, sender.policy, sender.outbox, sender.outbox.fs, sender.Ram()
      ensures Valid() && Framed() && old(history) <= history && inFlight == old(inFlight) && picked == old(picked)
      ensures e.id !in Ids(old(sender.Fifo())) ==> Endangered()
      ensures world.accepted == old(world.accepted) + if r == AcceptedMessage || (broken && r == NotStored) then [e] else []
      ensures !broken ==> sender.Fifo() == old(sender.Fifo()) + if r == AcceptedMessage then [e] else []
    {
      hide RelayMatches, Sender.Excused, TooLarge, Suffix, Salvages, Replays, Inv, Sender.Extent, Moments, Sound;
      hide Tracks;
      hide Recorded, Relay.Valid, Runs, After, Enabled, Apply, Matches, Sender.Valid, Ids, Outbox.Valid;
      hide Sender.Broken, Sender.FastTracked, Sender.Owned;
      hide Sender.HighWater, FileSystem.Valid, SenderMatches, Salvageable, Envs, Sender.Mirrored, Valid, Works;
      hide Imperilled, Beside;
      Parts();
      SenderParts();
      ghost var fifo, pending := sender.Fifo(), sender.pending;
      ghost var risk := PublishRisk(e);
      var wedged;
      r, wedged := PublishSender(e);
      broken, peril := wedged, risk;
      if risk.Some? { Survived(risk.value); } else { NoPeril(); }
      WorksLonger(world.expecting, pending, sender.pending);
      TrackPublish(e, r == AcceptedMessage || (wedged && r == NotStored), fifo);
    }

    /** What a crash inside it leaves: a message that is new counts as accepted. */
    lemma PublishRisk(e: Envelope) returns (p: Option<Peril>)
      requires Recorded() && RelayMatches() && SenderMatches() && (e.id in Ids(sender.Fifo()) || e.id !in Ids(world.accepted))
      ensures p.None? <==> e.id in Ids(sender.Fifo())
      ensures p.Some? ==> Risks(p.value, [e], false)
    {
      hide Recorded, RelayMatches, Runs, After, Enabled, Apply, Matches, Sender.Valid, Sender.FastTracked, Ids;
      hide Risks, Envs;
      if e.id in Ids(sender.Fifo()) { return None; }
      AcceptMatches(world, sender.Fifo(), sender.left, sender.asking, e);
      RunsOne(world, Accept(e));
      SenderSide(world, Accept(e));
      var risk := Risk([Accept(e)], [e], false);
      p := Some(risk);
    }

    /** The Sender's part of it. */
    method PublishSender(e: Envelope) returns (r: Publishing, wedged: bool)
      requires sender.Valid() && sender.FastTracked() && sender.policy.outbox == sender.outbox
      requires sender.outbox.codec.decode(e.body) == Some(e.id)
      modifies sender, sender.policy, sender.outbox, sender.outbox.fs, sender.Ram()
      ensures Moments(old(sender.outbox.fs.visited), sender.outbox.fs.visited, old(sender.Extent([e], false)))
      ensures if wedged then sender.Broken(if r == NotStored then old(sender.Fifo()) + [e] else sender.Fifo())
              else sender.Valid() && sender.FastTracked()
      ensures fresh(sender.Ram() - old(sender.Ram())) && old(sender.pending) <= sender.pending
      ensures sender.Fifo() == (if r == AcceptedMessage then old(sender.Fifo()) + [e] else old(sender.Fifo()))
      ensures sender.left == old(sender.left) && sender.asking == old(sender.asking)
      ensures e.id in Ids(old(sender.Fifo())) ==> r != AcceptedMessage && r != NotStored
    {
      hide Sender.Valid, Outbox.Valid, Sender.Broken, Sender.FastTracked, Sender.Owned, FileSystem.Valid;
      hide Sender.Excused, TooLarge;
      hide Ids, Sender.HighWater, Envs, Moments, Sender.Extent;
      r, wedged := sender.Publish(e);
      assert old(sender.Fifo()) + [] == old(sender.Fifo()) && sender.Fifo() + [] == sender.Fifo();
    }

    /** The protocol follows a call after which the FIFO is `fifo` or has `e` behind it. */
    ghost method TrackPublish(e: Envelope, joins: bool, fifo: seq<Envelope>)
      requires RelayMatches() && Recorded() && Imperilled() && Matches(world, fifo, sender.left, sender.asking)
      requires joins ==> e.id !in Ids(world.accepted)
      requires if broken then sender.Broken(if joins then fifo + [e] else fifo) && sender.mode.Ok()
               else sender.Valid() && sender.FastTracked() && sender.Fifo() == if joins then fifo + [e] else fifo
      requires !broken ==> WorkerMatches() && TrackerMatches()
      modifies this`world, this`history
      ensures Valid() && old(history) <= history && world.accepted == old(world.accepted) + if joins then [e] else []
    {
      hide RelayMatches, Recorded, Imperilled, SenderMatches, Salvageable, Works, Tracks, Relay.Valid, Runs, After;
      hide Enabled, Apply;
      hide Matches, Ids, Sender.Valid, Sender.FastTracked, Sender.Broken, Envs, Valid;
      ghost var after := if joins then fifo + [e] else fifo;
      ExtendPublish(e, joins, fifo, sender.left, sender.asking);
      if broken { WreckIs(); } else { SenderIs(); }
      Assembled();
    }

    ghost method ExtendPublish(e: Envelope, joins: bool, fifo: seq<Envelope>, left: seq<Envelope>, asking: bool)
      requires RelayMatches() && Recorded() && Matches(world, fifo, left, asking) && (joins ==> e.id !in Ids(world.accepted))
      modifies this`world, this`history
      ensures RelayMatches() && Recorded() && old(history) <= history && InRange(world) && Fifo(world) == if joins then fifo + [e] else fifo
      ensures Matches(world, if joins then fifo + [e] else fifo, left, asking)
      ensures world.accepted == old(world.accepted) + if joins then [e] else []
      ensures world.expecting == old(world.expecting) && world.matched == old(world.matched)
    {
      hide Recorded, Relay.Valid, Runs, After, Enabled, Apply, Matches, Ids;
      ghost var w := world;
      if joins {
        AcceptMatches(w, fifo, left, asking, e);
        SenderSide(w, Accept(e));
        AcceptParts(w, e);
        Record(Accept(e));
      }
      RangeOf(world, if joins then fifo + [e] else fifo, left, asking);
    }

    // ---- The delivery worker ----------------------------------------------------------------

    /** The worker takes up the oldest message. */
    method Pick(ready: bool) returns (r: SenderClass.Pick)
      requires Valid() && !broken && !inFlight
      modifies this, sender, sender.outbox, sender.outbox.fs, sender.Ram()
      ensures Valid() && Framed() && history == old(history) && !inFlight && Endangered()
      ensures r.Picked? <==> !old(sender.stopped) && old(sender.Fifo()) != [] && ready
      ensures r.Picked? ==> !broken && picked.Some? && r.envelope == sender.Fifo()[0]
    {
      hide Valid, Imperilled, Beside, Works, Tracks, RelayMatches, SenderMatches, Salvageable, Recorded, Matches;
      hide Sound, Moments;
      hide Relay.Valid, Runs, After, Enabled, Apply, Sender.Valid, Outbox.Valid, Sender.Broken, Sender.FastTracked;
      hide FileSystem.Valid;
      hide Sender.Extent, Sender.Mirrored, Envs;
      Parts();
      SenderParts();
      InFlightParts(world.expecting, sender.pending);
      ghost var risk := CallRisk();
      assert |sender.Fifo()| == |sender.pending|;
      var wedged;
      r, wedged := PickSender(ready);
      picked := if r.Picked? then Some((r.item, r.envelope)) else None;
      WorksIs(None, sender.pending);
      Close(wedged, risk);
    }

    /** The Sender's part of it. */
    method PickSender(ready: bool) returns (r: SenderClass.Pick, wedged: bool)
      requires sender.Valid() && sender.FastTracked() && sender.policy.outbox == sender.outbox
      modifies sender, sender.outbox, sender.outbox.fs, sender.Ram()
      ensures Moments(old(sender.outbox.fs.visited), sender.outbox.fs.visited, old(sender.Extent([], false)))
      ensures if wedged then sender.Broken(sender.Fifo()) && r.NoAttempt? else sender.Valid() && sender.FastTracked()
      ensures fresh(sender.Ram() - old(sender.Ram())) && sender.pending == old(sender.pending)
      ensures sender.left == old(sender.left) && sender.asking == old(sender.asking)
      ensures r.Picked? <==> !old(sender.stopped) && sender.pending != [] && ready
      ensures r.Picked? ==> r.item == sender.pending[0] && r.envelope == sender.Fifo()[0]
    {
      hide Sender.Valid, Outbox.Valid, Sender.Broken, Sender.FastTracked, Sender.Owned, FileSystem.Valid;
      hide Sender.Excused, TooLarge;
      hide Suffix, Moments, Sender.Extent;
      r, wedged := sender.PickOldest(ready);
    }

    /** The worker expects the acknowledgement and publishes the message, unless the tracker
        refuses the ID or the stop flag was set meanwhile. */
    method Send() returns (sent: bool)
      requires Valid() && !broken && !inFlight && picked.Some?
      modifies this, tracker
      ensures Valid() && Framed() && old(history) <= history && inFlight == sent && !broken
      ensures sent <==> !sender.stopped && old(picked).value.1.id != ""
      ensures sent ==> world.expecting == Some(sender.Fifo()[0].id) && sender.Fifo()[0] in world.sent
    {
      hide Valid, Imperilled, Works, Tracks, SenderMatches, Salvageable, Recorded, Matches, Enabled, Apply;
      hide Relay.Valid, Runs, After, Sender.Valid, Outbox.Valid, Sender.Broken, Sender.FastTracked, FileSystem.Valid;
      hide Envs, Acknowledgements.Run, Acknowledgements.Within, Acknowledgements.AckTracker.Valid;
      hide SenderMatches, Sender.HighWater;
      Parts();
      SenderParts();
      InFlightParts(world.expecting, sender.pending);
      TracksParts(world.expecting, world.matched);
      ghost var trace := tracker.trace;
      peril, began, awaited := None, |trace|, false;
      var begun := tracker.Begin(picked.value.1.id);
      sent := begun == Acknowledgements.Begun && !sender.stopped;
      if sent { Launch(picked.value.1, trace); } else { Abandon(begun == Acknowledgements.Begun); }
    }

    /** There is no attempt. */
    method Abandon(begun: bool)
      requires Recorded() && RelayMatches() && peril.None? && SenderMatches() && !broken && !inFlight && !awaited
      requires world.expecting.None? && tracker.Valid()
      requires !begun ==> tracker.expected.None? && (tracker.matched ==> world.matched)
      modifies this`picked, tracker
      ensures Valid()
    {
      hide Valid, Imperilled, Works, Tracks, RelayMatches, SenderMatches, Salvageable, Recorded, Matches;
      hide Acknowledgements.Run;
      if begun { tracker.End(); }
      picked := None;
      NoPeril();
      TracksIdle(world.matched);
      WorksIs(None, sender.pending);
      Assembled();
    }

    /** The message in hand is published. */
    method Launch(e: Envelope, ghost trace: seq<Acknowledgements.Step>)
      requires picked.Some? && picked.value.1 == e && world.expecting.None? && !awaited && !broken && peril.None?
      requires tracker.Valid() && tracker.State() == Acknowledgements.Fresh(e.id)
      requires tracker.trace == trace + [Acknowledgements.Step.Begin(e.id)] && began == |trace|
      requires Works(world.expecting, sender.pending) && Recorded() && RelayMatches() && SenderMatches()
      modifies this`inFlight, this`world, this`history
      ensures inFlight && old(history) <= history && e in world.sent && world.expecting == Some(e.id)
      ensures Valid()
    {
      hide Valid, Imperilled, Works, Tracks, SenderMatches, Salvageable, Recorded, Matches, Enabled, Apply;
      hide Relay.Valid, Runs, After;
      hide Sender.Valid, Outbox.Valid, Sender.Broken, Sender.FastTracked, FileSystem.Valid, Acknowledgements.Run;
      SenderParts();
      InFlightParts(world.expecting, sender.pending);
      NoPeril();
      StartParts(world, sender.Fifo(), sender.left, sender.asking);
      SenderSide(world, StartAttempt);
      Track(StartAttempt, sender.Fifo(), sender.left, sender.asking);
      inFlight := true;
      TracksBegun(e.id, trace, world.matched);
      WorksIs(world.expecting, sender.pending);
      RangeOf(world, sender.Fifo(), sender.left, sender.asking);
      Gathered();
    }

    /** An acknowledgement arrives, the awaited one, an old or a repeated one. */
    method AckComes(id: Id) returns (ok: bool)
      requires Valid() && !broken && id in world.acks
      modifies this`world, this`history, this`peril, tracker
      ensures Valid() && Framed() && old(history) <= history
      ensures ok ==> world.matched && world.expecting == Some(id)
      ensures !ok ==> history == old(history)
    {
      hide Valid, Imperilled, Works, Tracks, SenderMatches, Salvageable, Recorded, Matches, Enabled, Apply;
      hide Relay.Valid, Runs, After, Sender.Valid, Outbox.Valid, Sender.Broken, Sender.FastTracked, FileSystem.Valid;
      hide Envs, Acknowledgements.Run, Acknowledgements.Within, Acknowledgements.AckTracker.Valid;
      Parts();
      SenderParts();
      TracksParts(world.expecting, world.matched);
      ghost var trace := tracker.trace;
      peril := None;
      NoPeril();
      ok := tracker.Match(id);
      if ok {
        AckParts(world, sender.Fifo(), sender.left, sender.asking);
        SenderSide(world, AckArrives(id));
        Track(AckArrives(id), sender.Fifo(), sender.left, sender.asking);
      }
      TracksMore(trace, Acknowledgements.Step.Match(id), world.expecting, world.matched);
      RangeOf(world, sender.Fifo(), sender.left, sender.asking);
      Gathered();
    }

    /** The stop or the loss of the connection interrupts the wait. */
    method Interrupts()
      requires Valid() && !broken
      modifies this`peril, tracker
      ensures Valid() && Framed()
    {
      hide Valid, Imperilled, Works, Tracks, RelayMatches, SenderMatches, Salvageable, Recorded, Matches, Enabled;
      hide Apply;
      hide Relay.Valid, Runs, After, Sender.Valid, Outbox.Valid, Sender.Broken, Sender.FastTracked, FileSystem.Valid;
      hide Envs, Acknowledgements.Run, Acknowledgements.Within, Acknowledgements.AckTracker.Valid;
      Parts();
      SenderParts();
      TracksParts(world.expecting, world.matched);
      ghost var trace := tracker.trace;
      peril := None;
      NoPeril();
      tracker.Interrupt();
      TracksMore(trace, Acknowledgements.Step.Interrupt, world.expecting, world.matched);
      Gathered();
    }

    /** The wait for the acknowledgement ends; `signalled` says whether the event was set. */
    method AwaitAck(signalled: bool) returns (matched: bool)
      requires Valid() && !broken && inFlight
      modifies this`awaited, this`peril, tracker
      ensures Valid() && Framed() && awaited == matched
      ensures world.expecting.Some? && began < |old(tracker.trace)|
      ensures matched <==> Acknowledgements.Confirmed(old(tracker.trace)[began + 1..], world.expecting.value)
      ensures matched ==> sender.Fifo() != [] && sender.Fifo()[0] in world.delivered
    {
      hide Valid, Imperilled, Works, Tracks, RelayMatches, SenderMatches, Salvageable, Recorded, Matches, Enabled;
      hide Apply;
      hide Relay.Valid, Runs, After, Sender.Valid, Outbox.Valid, Sender.Broken, Sender.FastTracked, FileSystem.Valid;
      hide Envs, Acknowledgements.Run, Acknowledgements.Within, Acknowledgements.AckTracker.Valid;
      hide Acknowledgements.Confirmed;
      Parts();
      SenderParts();
      InFlightParts(world.expecting, sender.pending);
      TracksParts(world.expecting, world.matched);
      peril := None;
      NoPeril();
      ghost var trace, id := tracker.trace, world.expecting.value;
      assert trace == trace[..began] + [Acknowledgements.Step.Begin(id)] + trace[began + 1..];
      matched := tracker.Decide(signalled, trace[..began], id, trace[began + 1..]);
      awaited := matched;
      if matched { MatchedParts(world, sender.Fifo(), sender.left, sender.asking); }
      TracksMore(trace, Acknowledgements.Step.Decide(signalled), world.expecting, world.matched);
      Gathered();
    }

    /** The attempt ends, after a wait or without one. */
    method Finish(published: bool, connected: bool) returns (r: Delivery)
      requires Valid() && !broken && inFlight
      modifies this, tracker, sender, sender.policy, sender.outbox, sender.outbox.fs, sender.Ram()
      ensures Valid() && Framed() && old(history) <= history && !inFlight && Endangered()
      ensures r == MessageDelivered ==> published && old(awaited)
      ensures r == MessageDelivered ==> !broken && old(sender.Fifo()) != [] && old(sender.Fifo()[0]) in world.delivered
      ensures r == MessageDelivered ==> sender.Fifo() == old(sender.Fifo())[1..]
      ensures r != MessageDelivered && !broken ==> sender.Fifo() == old(sender.Fifo())
    {
      hide Valid, Imperilled, Works, Tracks, RelayMatches, SenderMatches, Salvageable, Recorded, Matches, Enabled;
      hide Apply;
      hide Relay.Valid, Runs, After, Sender.Valid, Outbox.Valid, Sender.Broken, Sender.FastTracked, FileSystem.Valid;
      hide Envs, Acknowledgements.Run, Acknowledgements.Within, Acknowledgements.AckTracker.Valid;
      hide Sound, Beside, Moments, Sender.Extent, Sender.Mirrored;
      Parts();
      SenderParts();
      InFlightParts(world.expecting, sender.pending);
      TracksParts(world.expecting, world.matched);
      ghost var fifo, left, asking := sender.Fifo(), sender.left, sender.asking;
      ghost var acked := published && awaited && !sender.stopped;
      ghost var risk := FinishRisk(acked);
      var wedged;
      r, wedged := FinishSender(published, awaited, connected);
      CloseAttempt(wedged, risk, fifo, left, asking, acked, r == MessageDelivered);
    }

    /** The removal of an acknowledged head may be under way. */
    lemma FinishRisk(acked: bool) returns (p: Peril)
      requires Recorded() && RelayMatches() && SenderMatches() && (acked ==> world.matched)
      ensures Risks(p, [], acked)
    {
      hide Recorded, RelayMatches, Runs, After, Enabled, Apply, Matches, Sender.Valid, Sender.FastTracked, Risks, Envs;
      if !acked {
        p := CallRisk();
        return;
      }
      assert sender.Fifo() + [] == sender.Fifo();
      AskParts(world, sender.Fifo(), sender.left, sender.asking);
      RunsOne(world, AskRemoval);
      SenderSide(world, AskRemoval);
      StepMatches(world, sender.Fifo(), sender.left, sender.asking, AskRemoval);
      p := Risk([AskRemoval], [], true);
    }

    /** The Sender's part of it. */
    method FinishSender(published: bool, matched: bool, connected: bool) returns (r: Delivery, wedged: bool)
      requires sender.Valid() && sender.FastTracked() && picked.Some? && sender.policy.outbox == sender.outbox
      requires sender.pending != [] && sender.pending[0] == picked.value.0
      modifies sender, sender.policy, sender.outbox, sender.outbox.fs, sender.Ram()
      ensures var ask := published && matched && !old(sender.stopped);
              Moments(old(sender.outbox.fs.visited), sender.outbox.fs.visited, old(sender.Extent([], ask)))
      ensures if wedged then sender.Broken(sender.Fifo()) else sender.Valid() && sender.FastTracked()
      ensures fresh(sender.Ram() - old(sender.Ram()))
      ensures r == MessageDelivered ==>
                && published && matched && !old(sender.stopped) && !wedged && !sender.asking
                && sender.Fifo() == old(sender.Fifo())[1..] && sender.left == old(sender.left) + [old(sender.Fifo()[0])]
      ensures r != MessageDelivered ==>
                && sender.Fifo() == old(sender.Fifo()) && sender.left == old(sender.left)
                && (sender.asking ==> old(sender.asking) || (published && matched && !old(sender.stopped)))
    {
      hide Sender.Valid, Outbox.Valid, Sender.Broken, Sender.FastTracked, Sender.Owned, FileSystem.Valid;
      hide Sender.Excused, TooLarge;
      hide Suffix, Moments, Sender.Extent;
      ghost var renamed;
      ghost var ms := sender.pending;
      r, wedged, renamed := sender.FinishAttempt(picked.value.0, published, matched, connected);
      assert Envs(ms[1..]) == Envs(ms)[1..];
    }

    /** The tracker and the worker let go of the message, and the protocol follows. */
    method CloseAttempt(wedged: bool, ghost risk: Peril, ghost fifo: seq<Envelope>, ghost left: seq<Envelope>, ghost asking: bool,
                        ghost acked: bool, ghost gone: bool)
      requires RelayMatches() && Recorded() && Matches(world, fifo, left, asking) && (gone ==> acked && fifo != [])
      requires (acked ==> world.matched) && (sender.asking ==> !gone && (asking || acked))
      requires sender.left == (if gone then left + [fifo[0]] else left) && sender.mode.Ok()
      requires if wedged then sender.Broken(if gone then fifo[1..] else fifo)
               else sender.Valid() && sender.FastTracked() && sender.Fifo() == if gone then fifo[1..] else fifo
      requires tracker.Valid() && Sound(risk) && Beside(risk, relay.tasks) && Moments(risk.before, sender.outbox.fs.visited, risk.bounds)
      modifies this`picked, this`inFlight, this`awaited, this`peril, this`broken, this`world, this`history, tracker
      ensures Valid() && old(history) <= history && (gone ==> fifo[0] in world.delivered)
      ensures !inFlight && broken == wedged && peril == Some(risk)
    {
      hide Valid, Imperilled, Works, Tracks, RelayMatches, SenderMatches, Salvageable, Recorded, Matches, Sound;
      hide Beside, Moments;
      hide Runs, After, Sender.Valid, Sender.Broken, Sender.FastTracked, Envs, Acknowledgements.Run;
      tracker.End();
      picked, inFlight, awaited, broken, peril := None, false, false, wedged, Some(risk);
      Survived(risk);
      forall matched ensures Tracks(None, matched) { TracksIdle(matched); }
      WorksIs(None, sender.pending);
      TrackFinish(fifo, left, asking, acked, gone);
    }

    /** The protocol follows an attempt that ended: `acked` when the removal was asked for,
        `gone` when the head then left. */
    ghost method TrackFinish(fifo: seq<Envelope>, left: seq<Envelope>, asking: bool, acked: bool, gone: bool)
      requires RelayMatches() && Recorded() && Imperilled() && Matches(world, fifo, left, asking) && (gone ==> acked && fifo != [])
      requires (acked ==> world.matched) && (sender.asking ==> !gone && (asking || acked))
      requires sender.left == (if gone then left + [fifo[0]] else left) && sender.mode.Ok()
      requires if broken then sender.Broken(if gone then fifo[1..] else fifo)
               else sender.Valid() && sender.FastTracked() && sender.Fifo() == if gone then fifo[1..] else fifo
      requires Works(None, sender.pending) && forall matched :: Tracks(None, matched)
      modifies this`world, this`history
      ensures Valid() && old(history) <= history && (gone ==> fifo[0] in world.delivered)
    {
      hide RelayMatches, Recorded, Imperilled, SenderMatches, Salvageable, Works, Tracks, Relay.Valid, Runs, After;
      hide Enabled, Apply;
      hide Matches, Sender.Valid, Sender.FastTracked, Sender.Broken, Envs, Valid;
      ExtendFinish(fifo, left, asking, acked, gone, sender.asking);
      Gathered();
    }

    ghost method ExtendFinish(fifo: seq<Envelope>, left: seq<Envelope>, asking: bool, acked: bool, gone: bool, still: bool)
      requires RelayMatches() && Recorded() && Matches(world, fifo, left, asking) && (gone ==> acked && fifo != [])
      requires acked ==> world.matched
      requires still ==> !gone && (asking || acked)
      modifies this`world, this`history
      ensures RelayMatches() && Recorded() && old(history) <= history && world.expecting == None && InRange(world)
      ensures gone ==> Matches(world, fifo[1..], left + [fifo[0]], still) && fifo[0] in world.delivered && Fifo(world) == fifo[1..]
      ensures !gone ==> Matches(world, fifo, left, still) && Fifo(world) == fifo
    {
      hide Recorded, Relay.Valid, Runs, After, Enabled, Apply, Matches;
      if acked { TrackAck(fifo, left, asking); }
      if gone {
        TrackRemoval(fifo, left);
        RangeOf(world, fifo[1..], left + [fifo[0]], still);
      } else {
        RangeOf(world, fifo, left, asking || acked);
        EndParts(world);
        SenderSide(world, EndAttempt);
        Track(EndAttempt, fifo, left, asking || acked);
        LessAsked(world, fifo, left, asking || acked, still);
        RangeOf(world, fifo, left, still);
      }
    }

    /** The removal is asked for. */
    ghost method TrackAck(fifo: seq<Envelope>, left: seq<Envelope>, asking: bool)
      requires Recorded() && Matches(world, fifo, left, asking) && world.matched
      modifies this`world, this`history
      ensures Recorded() && old(history) <= history && Matches(world, fifo, left, true)
      ensures world.tasks == old(world.tasks) && world.inHand == old(world.inHand) && world.accepted == old(world.accepted)
    {
      hide Recorded, Relay.Valid, Runs, After, Enabled, Apply, Matches;
      AskParts(world, fifo, left, asking);
      SenderSide(world, AskRemoval);
      Track(AskRemoval, fifo, left, asking);
    }

    ghost method TrackRemoval(fifo: seq<Envelope>, left: seq<Envelope>)
      requires Recorded() && Matches(world, fifo, left, true) && fifo != []
      modifies this`world, this`history
      ensures Recorded() && old(history) <= history && Matches(world, fifo[1..], left + [fifo[0]], false)
      ensures world.tasks == old(world.tasks) && world.inHand == old(world.inHand) && world.expecting == None
      ensures world.accepted == old(world.accepted)
      ensures fifo[0] in world.delivered
    {
      hide Recorded, Relay.Valid, Runs, After, Enabled, Apply, Matches;
      RemoveParts(world, fifo, left);
      RemoveMatches(world, fifo, left, true);
      SenderSide(world, RemoveHead);
      Record(RemoveHead);
    }

    // ---- Timers and stopping -------------------------------------------------------------------

    method OnFastTimer(generation: nat)
      requires Valid() && !broken
      modifies this`broken, this`peril, sender, sender.outbox, sender.outbox.fs, sender.Ram()
      ensures Valid() && Framed() && Endangered()
    {
      hide Valid, Imperilled, Beside, Works, Tracks, RelayMatches, SenderMatches, Salvageable, Recorded, Matches;
      hide Sound, Moments;
      hide Relay.Valid, Runs, After, Sender.Valid, Outbox.Valid, Sender.Broken, Sender.FastTracked;
      hide FileSystem.Valid, Sender.Extent;
      hide Sender.Mirrored, Envs, Sender.Scheduled, Suffix;
      Parts();
      SenderParts();
      ghost var risk := CallRisk();
      var wedged := sender.OnFastTimer(generation);
      Close(wedged, risk);
    }

    method OnDataTimer(generation: nat)
      requires Valid() && !broken && sender.mode.Group?
      modifies this`broken, this`peril, sender.policy, sender.outbox, sender.outbox.fs
      ensures Valid() && Framed() && Endangered() && !broken
    {
      hide Valid, Imperilled, Beside, Works, Tracks, RelayMatches, SenderMatches, Salvageable, Recorded, Matches;
      hide Sound, Moments;
      hide Relay.Valid, Runs, After, Sender.Valid, Outbox.Valid, Sender.Broken, Sender.FastTracked;
      hide FileSystem.Valid, Sender.Extent;
      hide Sender.Mirrored, Envs, Sender.TimersArmed;
      Parts();
      SenderParts();
      ghost var risk := CallRisk();
      sender.OnDataTimer(generation);
      Close(false, risk);
    }

    method OnAckTimer(generation: nat)
      requires Valid() && !broken && sender.mode.Group?
      modifies this`broken, this`peril, sender.policy, sender.outbox, sender.outbox.fs
      ensures Valid() && Framed() && Endangered() && !broken
    {
      hide Valid, Imperilled, Beside, Works, Tracks, RelayMatches, SenderMatches, Salvageable, Recorded, Matches;
      hide Sound, Moments;
      hide Relay.Valid, Runs, After, Sender.Valid, Outbox.Valid, Sender.Broken, Sender.FastTracked;
      hide FileSystem.Valid, Sender.Extent;
      hide Sender.Mirrored, Envs, Sender.TimersArmed;
      Parts();
      SenderParts();
      ghost var risk := CallRisk();
      sender.OnAckTimer(generation);
      Close(false, risk);
    }

    method SignalStop()
      requires Valid() && !broken
      modifies this`peril, sender`stopped
      ensures Valid() && Framed() && sender.stopped
    {
      hide Recorded, Relay.Valid, Runs, After, Matches, Sender.Valid, Outbox.Valid, Sender.FastTracked;
      peril := None;
      sender.SignalStop();
    }

    method Shutdown() returns (ok: bool)
      requires Valid() && !broken
      modifies this`broken, this`peril, sender, sender.policy, sender.outbox, sender.outbox.fs, sender.Ram()
      ensures Valid() && Framed() && Endangered() && (ok ==> !broken && sender.fastQueue == [])
    {
      hide Valid, Imperilled, Beside, Works, Tracks, RelayMatches, SenderMatches, Salvageable, Recorded, Matches;
      hide Sound, Moments;
      hide Relay.Valid, Runs, After, Sender.Valid, Outbox.Valid, Sender.Broken, Sender.FastTracked;
      hide FileSystem.Valid, Sender.Extent;
      hide Sender.Mirrored, Envs, Suffix;
      Parts();
      SenderParts();
      ghost var risk := CallRisk();
      var wedged;
      ok, wedged := ShutdownSender();
      Close(wedged, risk);
    }

    /** The Sender's part of it. */
    method ShutdownSender() returns (ok: bool, wedged: bool)
      requires sender.Valid() && sender.FastTracked() && sender.policy.outbox == sender.outbox
      modifies sender, sender.policy, sender.outbox, sender.outbox.fs, sender.Ram()
      ensures Moments(old(sender.outbox.fs.visited), sender.outbox.fs.visited, old(sender.Extent([], false)))
      ensures if wedged then sender.Broken(sender.Fifo()) else sender.Valid() && sender.FastTracked()
      ensures fresh(sender.Ram() - old(sender.Ram())) && sender.pending == old(sender.pending)
      ensures sender.left == old(sender.left) && sender.asking == old(sender.asking)
      ensures ok ==> !wedged && sender.fastQueue == []
    {
      hide Sender.Valid, Outbox.Valid, Sender.Broken, Sender.FastTracked, Sender.Owned, FileSystem.Valid;
      hide Sender.Excused, TooLarge;
      hide Suffix, Restarts.RestartsAs, Outbox.Queue, Envs, Moments, Sender.Extent, Sender.TimersArmed;
      ok, wedged := sender.Shutdown();
    }

    // ---- Crashes and restarts --------------------------------------------------------------------

    lemma SenderSalvages()
      requires Valid()
      ensures InRange(world) && Matches(world, Fifo(world), sender.left, sender.asking) && sender.mode.Ok()
      ensures sender.outbox.Valid() || sender.outbox.Stranded()
      ensures var q := sender.outbox.Model(); Replays(q, sender.left, sender.asking) && q.Pending() <= Fifo(world)
    {
      hide Inv, Runs, After, Outbox.Valid, Outbox.Stranded, Outbox.Queue, Tracks, Covered, IndexedById, Decodable;
      hide Sender.Owned;
      hide PersistencePolicy.DataBounded, PersistencePolicy.AckBounded, Replays, Ordered;
      if !broken {
        SenderParts();
        ModelOf(sender.outbox);
        StoredIsPrefix(sender.outbox.Queue(), sender.pending, sender.fastQueue, sender.stored);
      } else {
        sender.outbox.StrandedOk();
      }
    }

    /** Wherever a call of the Sender has left the directory, and between calls, it can be
        opened. */
    lemma Restartable(j: nat)
      requires Valid() && j < |sender.outbox.fs.visited|
      ensures Retries(sender.outbox.codec, sender.outbox.fs.log, sender.outbox.fs.disk, sender.outbox.fs.log, sender.outbox.fs.disk)
      ensures var a := sender.outbox.fs.visited[j]; Retries(sender.outbox.codec, a.log, a.disk, a.log, a.disk)
    {
      hide Recorded, RelayMatches, Imperilled, Beside, Runs, After, Matches, Sender.Valid, Sender.FastTracked;
      hide Retries, CrashSafe, Run;
      SenderSalvages();
      sender.outbox.fs.Visits(j);
      RetriesSame(sender.outbox.codec, sender.outbox.fs.log, sender.outbox.fs.disk);
      RetriesSame(sender.outbox.codec, sender.outbox.fs.visited[j].log, sender.outbox.fs.visited[j].disk);
    }

    /** A new Sender on what is left of the directory, also after openings that failed. */
    method Reopened(d: Disk, now: real, fault: Option<nat>, ghost log: Log, ghost d0: Disk)
        returns (o: Option<Sender>, left: Disk, ghost log1: Log, ghost d1: Disk, ghost from: nat, ghost to: nat)
      requires Valid() && Retries(sender.outbox.codec, sender.outbox.fs.log, sender.outbox.fs.disk, log, d0) && Found(d0, d)
      ensures fault.None? ==> o.Some?
      ensures o.None? ==> Retries(sender.outbox.codec, sender.outbox.fs.log, sender.outbox.fs.disk, log1, d1) && Found(d1, left)
      ensures o.Some? ==> fresh(o.value) && fresh(o.value.policy) && fresh(o.value.outbox) && fresh(o.value.outbox.fs)
      ensures o.Some? ==> o.value.mode == sender.mode && o.value.Valid() && o.value.FastTracked() && o.value.fastQueue == [] && o.value.mode.Ok()
      ensures o.Some? ==> Enabled(world, SenderCrash(from, to))
      ensures o.Some? ==>
                var s, v := o.value, Apply(world, SenderCrash(from, to)); Matches(v, s.Fifo(), s.left, s.asking) && v.expecting == None
    {
      hide Recorded, Relay.Valid, Runs, After, Enabled, Apply, Matches, Sender.Valid, Outbox.Valid, Sender.Broken;
      hide Sender.FastTracked, FileSystem.Valid;
      hide Outbox.Stranded, Outbox.Model, Outbox.Queue, Crash, Valid, Replays, QueueSpec.Queue.Recovers, Envs;
      hide Found, Aligned, Reach, Retries;
      SenderSalvages();
      var box;
      box, left, log1, d1 := OutboxClass.Restart(sender.outbox, d, fault, log, d0);
      o, from, to := None, 0, 0;
      if box.None? { return; }
      ghost var q, fifo := sender.outbox.Model(), Fifo(world);
      ReplaysOk(q, sender.left, sender.asking);
      ghost var a, z := RecoversReach(q, fifo, box.value.Queue().Pending());
      assert fifo + [] == fifo;
      ReachAligned(world, fifo, sender.left, sender.asking, q, [], false);
      from, to := CrashMatches(world, Reach(q, fifo, [], false), q.head, a, z);
      var s := OpenSender(box.value, sender.mode, sender.retryInterval, now);
      o := Some(s);
    }

    /** The process dies, with or without the machine, and a new Sender opens what is left.
        This also gets a wedged Outbox going again. An I/O error may make the opening fail:
        then it may be repeated on what that left, however often. */
    method Restart(d: Disk, now: real, fault: Option<nat>, ghost log: Log, ghost d0: Disk)
        returns (ok: bool, left: Disk, ghost log1: Log, ghost d1: Disk)
      requires Valid() && Retries(sender.outbox.codec, sender.outbox.fs.log, sender.outbox.fs.disk, log, d0) && Found(d0, d)
      modifies this
      ensures Valid() && Framed() && (fault.None? ==> ok)
      ensures ok ==> old(history) <= history && !broken && !inFlight
      ensures ok ==> fresh(sender) && relay == old(relay) && sender.mode == old(sender.mode) && sender.fastQueue == []
      ensures !ok ==> unchanged(this) && Retries(sender.outbox.codec, sender.outbox.fs.log, sender.outbox.fs.disk, log1, d1) && Found(d1, left)
    {
      hide Recorded, Relay.Valid, Runs, After, Enabled, Apply, Matches, Sender.Valid, Outbox.Valid, Sender.FastTracked;
      hide Salvageable, Envs, SenderMatches, Found, Retries;
      ghost var from, to;
      var s;
      s, left, log1, d1, from, to := Reopened(d, now, fault, log, d0);
      ok := s.Some?;
      if !ok { return; }
      SenderSide(world, SenderCrash(from, to));
      Record(SenderCrash(from, to));
      Renew(s.value);
    }

    /** The new Sender and its worker take over. */
    method Renew(s: Sender)
      requires Recorded() && RelayMatches() && world.expecting == None
      requires s.Valid() && s.FastTracked() && Matches(world, s.Fifo(), s.left, s.asking) && s.mode.Ok()
      modifies this`sender, this`picked, this`inFlight, this`broken, this`tracker, this`awaited, this`peril
      ensures sender == s && fresh(tracker) && !broken && !inFlight && Valid()
    {
      hide Valid, Imperilled, Works, Tracks, RelayMatches, SenderMatches, Salvageable, Recorded, Matches, Enabled;
      hide Apply;
      hide Relay.Valid, Runs, After, Sender.Valid, Outbox.Valid, Sender.Broken, Sender.FastTracked, FileSystem.Valid;
      hide Envs, Acknowledgements.Run, Acknowledgements.Within, Acknowledgements.AckTracker.Valid;
      PutDown();
      tracker := new Acknowledgements.AckTracker();
      sender := s;
      NoPeril();
      WorksIs(None, sender.pending);
      TracksIdle(world.matched);
      RangeOf(world, s.Fifo(), s.left, s.asking);
      Gathered();
    }

    method PutDown()
      modifies this`picked, this`inFlight, this`broken, this`awaited, this`peril
      ensures picked.None? && !inFlight && !broken && !awaited && peril.None?
    {
      picked, inFlight, broken, awaited, peril := None, false, false, false, None;
    }

    /** The process, or the machine, died inside the last call of the Sender, when the
        directory was at its `j`-th moment: what the call did after that never happened,
        and a new Sender opens what is left, at once or after openings that failed. */
    method CutShort(d: Disk, now: real, fault: Option<nat>, ghost j: nat, ghost log: Log, ghost d0: Disk)
        returns (ok: bool, left: Disk, ghost log1: Log, ghost d1: Disk)
      requires Valid() && peril.Some? && |peril.value.before| <= j < |sender.outbox.fs.visited|
      requires Retries(sender.outbox.codec, sender.outbox.fs.visited[j].log, sender.outbox.fs.visited[j].disk, log, d0) && Found(d0, d)
      modifies this
      ensures var a := old(sender.outbox.fs.visited[j]);
              !ok ==> unchanged(this) && Retries(old(sender.outbox.codec), a.log, a.disk, log1, d1) && Found(d1, left)
      ensures ok ==> old(peril).value.history <= history && !broken && !inFlight
      ensures ok ==> fresh(sender) && relay == old(relay) && sender.mode == old(sender.mode) && sender.fastQueue == []
      ensures Valid() && Framed() && (fault.None? ==> ok)
    {
      hide Recorded, Relay.Valid, Runs, After, Enabled, Apply, Matches, Sender.Valid, Outbox.Valid, Sender.FastTracked;
      hide Salvageable, Envs, SenderMatches, Found, Aligned, Retries;
      ghost var p, from, to := peril.value, 0, 0;
      var s;
      s, left, log1, d1, from, to := ReopenedInside(d, now, fault, p, j, log, d0);
      ok := s.Some?;
      if !ok { return; }
      SenderSide(p.world, SenderCrash(from, to));
      world, history := p.world, p.history;
      RecordedIs();
      Record(SenderCrash(from, to));
      Renew(s.value);
    }

    /** A new Sender on what the call had done. */
    method ReopenedInside(d: Disk, now: real, fault: Option<nat>, ghost p: Peril, ghost j: nat, ghost log: Log, ghost d0: Disk)
        returns (o: Option<Sender>, left: Disk, ghost log1: Log, ghost d1: Disk, ghost from: nat, ghost to: nat)
      requires Valid() && peril == Some(p) && |p.before| <= j < |sender.outbox.fs.visited|
      requires Retries(sender.outbox.codec, sender.outbox.fs.visited[j].log, sender.outbox.fs.visited[j].disk, log, d0) && Found(d0, d)
      ensures fault.None? ==> o.Some?
      ensures o.None? ==> Retries(sender.outbox.codec, sender.outbox.fs.visited[j].log, sender.outbox.fs.visited[j].disk, log1, d1) && Found(d1, left)
      ensures o.Some? ==> fresh(o.value) && fresh(o.value.policy) && fresh(o.value.outbox) && fresh(o.value.outbox.fs)
      ensures o.Some? ==> o.value.mode == sender.mode && o.value.Valid() && o.value.FastTracked() && o.value.fastQueue == [] && o.value.mode.Ok()
      ensures o.Some? ==> Enabled(p.world, SenderCrash(from, to))
      ensures o.Some? ==>
                var s, v := o.value, Apply(p.world, SenderCrash(from, to)); Matches(v, s.Fifo(), s.left, s.asking) && v.expecting == None
    {
      hide Recorded, Relay.Valid, Runs, After, Enabled, Apply, Matches, Sender.Valid, Outbox.Valid, Sender.Broken;
      hide Sender.FastTracked, FileSystem.Valid;
      hide Outbox.Stranded, Outbox.Model, Outbox.Queue, Crash, Replays, QueueSpec.Queue.Recovers, Envs, Found;
      hide Aligned, Moments, DurableTail, DiskInv, Retries;
      SenderSalvages();
      ghost var a, z;
      var box;
      box, left, log1, d1, a, z := OutboxClass.RestartInside(sender.outbox, d, fault, p.before, p.bounds, j, log, d0);
      o, from, to := None, 0, 0;
      if box.None? { return; }
      from, to := CrashMatches(p.world, p.bounds, p.head, a, z);
      var s := OpenSender(box.value, sender.mode, sender.retryInterval, now);
      o := Some(s);
    }

    // ---- The relay and the brokers ------------------------------------------------------------------

    lemma MatchesNow()
      requires Valid()
      ensures Recorded() && RelayMatches()
      ensures InRange(world) && Matches(world, Fifo(world), sender.left, sender.asking) && sender.mode.Ok()
      ensures if broken then sender.Broken(Fifo(world))
              else Fifo(world) == sender.Fifo() && sender.Valid() && sender.FastTracked() && WorkerMatches() && TrackerMatches()
    {
      hide Recorded, RelayMatches, Matches, Sender.Valid, Sender.Broken, Sender.FastTracked, WorkerMatches;
      hide TrackerMatches;
      if !broken { SenderParts(); }
    }

    /** Steps of the relay and the brokers do not touch the sender. */
    ghost method TrackNetwork(steps: seq<Step>, fifo: seq<Envelope>, left: seq<Envelope>, asking: bool)
      requires Recorded() && Matches(world, fifo, left, asking) && Runs(world, steps) && forall s | s in steps :: !OfSender(s)
      modifies this`world, this`history
      ensures Recorded() && world == After(old(world), steps) && old(history) <= history
      ensures Matches(world, fifo, left, asking) && InRange(world) && Fifo(world) == fifo
      ensures world.expecting == old(world.expecting) && world.accepted == old(world.accepted)
      ensures world.matched == old(world.matched)
    {
      hide Runs, After, Enabled, Apply, Matches;
      NetworkRun(world, steps, fifo, left, asking);
      RecordAll(steps);
      RangeOf(world, fifo, left, asking);
    }

    /** A sent message reaches the relay, perhaps late and not for the first time. */
    method RelayReceives(e: Envelope) returns (queued: bool)
      requires Valid() && e in world.sent
      modifies this`peril, this`world, this`history, relay
      ensures Valid() && Framed() && old(history) <= history
      ensures relay.tasks == old(relay.tasks) + if queued then [e] else []
    {
      hide Valid, Imperilled, Works, Tracks, Recorded, Relay.Valid, Runs, After, Enabled, Apply, Matches;
      hide Sender.Valid, Sender.Broken;
      hide Sender.FastTracked, SenderMatches, Salvageable, Envs, FileSystem.Valid;
      MatchesNow();
      peril := None;
      queued := relay.OnSourceMessage(Some(e));
      if queued {
        ReceiveParts(world, e);
        TrackNetwork([Step.RelayReceives(e)], Fifo(world), sender.left, sender.asking);
      }
      NoPeril();
      Gathered();
    }

    /** One turn of the relay's worker. */
    method RelayWorks() returns (ghost effects: seq<Effect>)
      requires Valid()
      modifies this`peril, this`world, this`history, relay
      ensures Valid() && Framed() && old(history) <= history
      ensures forall e | e in old(relay.tasks) && AckPublished(e.id) in effects && Forwarded(e, true) in effects :: e in world.delivered
    {
      hide Valid, Imperilled, Works, Tracks, Recorded, Relay.Valid, Runs, After, Enabled, Apply, Matches;
      hide Sender.Valid, Sender.Broken;
      hide Sender.FastTracked, SenderMatches, Salvageable, Envs, FileSystem.Valid, AttemptSteps;
      MatchesNow();
      peril := None;
      ghost var ok;
      effects, ok := relay.WorkOnce();
      if old(relay.tasks) != [] {
        RelayAttemptRuns(world, effects, ok);
        AttemptOfNetwork(world.tasks[0], effects);
        TrackNetwork(AttemptSteps(world.tasks[0], effects), Fifo(world), sender.left, sender.asking);
      }
      NoPeril();
      Gathered();
    }

    /** The relay stops, or its process dies: queued messages are abandoned. */
    method RelayStops(killed: bool)
      requires Valid()
      modifies this`peril, this`world, this`history, this`relay, relay
      ensures Valid() && Framed() && old(history) <= history && relay.tasks == []
    {
      hide Valid, Imperilled, Works, Tracks, Recorded, Relay.Valid, Runs, After, Enabled, Apply, Matches;
      hide Sender.Valid, Sender.Broken;
      hide Sender.FastTracked, SenderMatches, Salvageable, Envs, FileSystem.Valid;
      MatchesNow();
      peril := None;
      relay := Emptied(killed);
      StopParts(world);
      TrackNetwork([Step.RelayStops], Fifo(world), sender.left, sender.asking);
      NoPeril();
      Gathered();
    }

    method Emptied(killed: bool) returns (r: Relay)
      requires relay.Valid()
      modifies relay
      ensures r.Valid() && r.tasks == [] && (r == relay || fresh(r))
    {
      if killed {
        relay.HasRoom();
        r := new Relay(relay.capacity);
      } else {
        relay.Stop();
        r := relay;
      }
    }

    /** The relay starts, or its source subscription changes. */
    method RelayStarts(ready: bool)
      requires Valid()
      modifies this`peril, relay
      ensures Valid() && Framed()
    {
      hide Valid, Imperilled, Works, Tracks, Recorded, Relay.Valid, Runs, After, Matches, Sender.Valid;
      hide Sender.Broken, Sender.FastTracked;
      hide SenderMatches, Salvageable, Envs, FileSystem.Valid;
      MatchesNow();
      peril := None;
      relay.Start();
      relay.SetSourceReady(ready);
      NoPeril();
      Gathered();
    }

    /** A forwarded message reaches the destination, perhaps late and not for the first time. */
    ghost method Arrives(e: Envelope)
      requires Valid() && e in world.routed
      modifies this`peril, this`world, this`history
      ensures Valid() && old(history) <= history && world.delivered == old(world.delivered) + [e]
    {
      hide Valid, Imperilled, Works, Tracks, Recorded, Relay.Valid, Runs, After, Enabled, Apply, Matches;
      hide Sender.Valid, Sender.Broken;
      hide Sender.FastTracked, SenderMatches, Salvageable, Envs, FileSystem.Valid;
      MatchesNow();
      peril := None;
      ArriveParts(world, e);
      TrackNetwork([DestinationAccepts(e)], Fifo(world), sender.left, sender.asking);
      NoPeril();
      Gathered();
    }

    // ---- What follows --------------------------------------------------------------------------------

    /** END TO END. After any sequence of the calls above, everything that had left the FIFO
        at any moment of the run, before whatever restarts, was accepted by the destination,
        and every accepted message that is no stray is first delivered in its place. */
    lemma Guarantees(n: nat)
      requires Valid() && n <= |history|
      ensures Runs(START, history[..n]) && InRange(After(START, history[..n]))
      ensures var w := After(START, history[..n]); forall i | 0 <= i < w.head :: MessageAt(w, i) in world.delivered
      ensures forall e | e in sender.left :: e in world.delivered
      ensures forall p: nat | p < |world.accepted| && world.accepted[p] !in world.strays :: InPlace(world, p)
    {
      MatchesNow();
      hide RelayMatches, SenderMatches, WorkerMatches, TrackerMatches, Salvageable, InPlace, Runs, After, Imperilled;
      RunsSplit(START, history, n);
      RunGrows(After(START, history[..n]), history[n..]);
      EndToEndSafety(history[..n]);
      MatchesParts(world, Fifo(world), sender.left, sender.asking);
      CompletedDelivered(world);
      forall p: nat | p < |world.accepted| && world.accepted[p] !in world.strays
        ensures InPlace(world, p)
      {
        OrderOf(world, p);
      }
    }
  }

  lemma StartedRun()
    ensures Runs(START, []) && After(START, []) == START
  {
  }

  lemma RangeOf(w: World, fifo: seq<Envelope>, left: seq<Envelope>, asking: bool)
    requires Matches(w, fifo, left, asking)
    ensures InRange(w) && Fifo(w) == fifo
  {
    MatchesParts(w, fifo, left, asking);
    hide Inv;
  }

  lemma ModelOf(o: Outbox)
    requires o.Valid()
    ensures o.Model() == o.Queue()
  {
    hide FileSystem.Valid, OutboxState.Inv;
  }

  lemma AcceptParts(w: World, e: Envelope)
    requires Enabled(w, Accept(e))
    ensures Apply(w, Accept(e)).accepted == w.accepted + [e]
  {
  }

  lemma StartParts(w: World, fifo: seq<Envelope>, left: seq<Envelope>, asking: bool)
    requires Matches(w, fifo, left, asking) && fifo != [] && w.expecting == None
    ensures Enabled(w, StartAttempt)
    ensures Apply(w, StartAttempt).expecting == Some(fifo[0].id) && fifo[0] in Apply(w, StartAttempt).sent
  {
    MatchesParts(w, fifo, left, asking);
    hide Inv, Matches;
  }

  lemma AckParts(w: World, fifo: seq<Envelope>, left: seq<Envelope>, asking: bool)
    requires Matches(w, fifo, left, asking) && w.expecting.Some? && w.expecting.value in w.acks
    ensures Enabled(w, AckArrives(w.expecting.value))
  {
    MatchesParts(w, fifo, left, asking);
    hide Inv, Matches;
  }

  lemma MatchedParts(w: World, fifo: seq<Envelope>, left: seq<Envelope>, asking: bool)
    requires Matches(w, fifo, left, asking) && w.matched
    ensures fifo != [] && fifo[0] in w.delivered
  {
    MatchesParts(w, fifo, left, asking);
    hide Traced, SentInOrder, Accounted, DeliveredInOrder, Matches;
  }

  lemma ReplaysOk(q: Queue, left: seq<Envelope>, asking: bool)
    requires Replays(q, left, asking)
    ensures q.Ok() && q.head <= |q.items|
  {
    hide DistinctIds;
  }

  lemma AskParts(w: World, fifo: seq<Envelope>, left: seq<Envelope>, asking: bool)
    requires Matches(w, fifo, left, asking) && w.matched
    ensures Enabled(w, AskRemoval)
  {
    MatchesParts(w, fifo, left, asking);
    hide Inv, Matches;
  }

  lemma EndParts(w: World)
    requires InRange(w)
    ensures Enabled(w, EndAttempt)
  {
  }

  lemma RemoveParts(w: World, fifo: seq<Envelope>, left: seq<Envelope>)
    requires Matches(w, fifo, left, true) && fifo != []
    ensures w.removing && fifo[0] in w.delivered
  {
    MatchesParts(w, fifo, left, true);
    hide Sane, Traced, SentInOrder, Accounted, DeliveredInOrder, Matches;
  }

  lemma {:induction false} NetworkRun(w: World, steps: seq<Step>, fifo: seq<Envelope>, left: seq<Envelope>, asking: bool)
    requires Matches(w, fifo, left, asking) && Runs(w, steps) && forall s | s in steps :: !OfSender(s)
    ensures Matches(After(w, steps), fifo, left, asking)
    ensures After(w, steps).expecting == w.expecting && After(w, steps).accepted == w.accepted
    ensures After(w, steps).matched == w.matched
    decreases |steps|
  {
    hide Matches, Enabled, Apply;
    if steps != [] {
      assert steps[0] in steps;
      StepMatches(w, fifo, left, asking, steps[0]);
      NetworkSide(w, steps[0]);
      NetworkRun(Apply(w, steps[0]), steps[1..], fifo, left, asking);
    }
  }

  lemma NetworkSide(w: World, s: Step)
    requires Enabled(w, s) && !OfSender(s)
    ensures Apply(w, s).expecting == w.expecting && Apply(w, s).accepted == w.accepted && Apply(w, s).matched == w.matched
  {
  }

  lemma ReceiveParts(w: World, e: Envelope)
    requires InRange(w) && e in w.sent
    ensures Runs(w, [RelayReceives(e)])
    ensures After(w, [RelayReceives(e)]).tasks == w.tasks + [e] && After(w, [RelayReceives(e)]).inHand == w.inHand
  {
    RunsOne(w, RelayReceives(e));
  }

  lemma StopParts(w: World)
    requires InRange(w)
    ensures Runs(w, [RelayStops])
    ensures After(w, [RelayStops]).tasks == [] && After(w, [RelayStops]).inHand == None
  {
    RunsOne(w, RelayStops);
  }

  lemma ArriveParts(w: World, e: Envelope)
    requires InRange(w) && e in w.routed
    ensures Runs(w, [DestinationAccepts(e)])
    ensures After(w, [DestinationAccepts(e)]).tasks == w.tasks && After(w, [DestinationAccepts(e)]).inHand == w.inHand
    ensures After(w, [DestinationAccepts(e)]).delivered == w.delivered + [e]
  {
    RunsOne(w, DestinationAccepts(e));
  }

  lemma AttemptOfNetwork(e: Envelope, effects: seq<Effect>)
    ensures forall s | s in AttemptSteps(e, effects) :: !OfSender(s)
  {
  }

  lemma CompletedDelivered(w: World)
    requires Inv(w)
    ensures InRange(w) && forall i | 0 <= i < w.head :: MessageAt(w, i) in w.delivered
  {
    hide Traced, SentInOrder, Accounted, DeliveredInOrder;
  }
}
