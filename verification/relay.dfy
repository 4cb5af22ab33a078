/** `Relay` (reliomq/relay.py:370-553, 634-671): bounded intake, one forwarding
    attempt at a time, and shutdown. */
module RelayClass {
  import opened Wrappers
  import opened Framing

  /** What the relay published: a message to the destination and whether its broker
      confirmed it, or a DeliveryAck to the source. */
  datatype Effect = Forwarded(envelope: Envelope, confirmed: bool) | AckPublished(id: Id)

  /** Every DeliveryAck directly follows the confirmed forwarding of its message. */
  ghost predicate AcksFollowConfirmation(trace: seq<Effect>) {
    forall k | 0 <= k < |trace| && trace[k].AckPublished? :: Follows(trace, k)
  }

  ghost predicate Follows(trace: seq<Effect>, k: nat) {
    0 < k < |trace| && trace[k].AckPublished?
    && trace[k - 1].Forwarded? && trace[k - 1].confirmed && trace[k - 1].envelope.id == trace[k].id
  }

  /** What one attempt publishes. */
  ghost predicate OneAttempt(e: Envelope, effects: seq<Effect>, ok: bool) {
    || (effects == [] && !ok)
    || (effects == [Forwarded(e, false)] && !ok)
    || (effects == [Forwarded(e, true)] && !ok)
    || effects == [Forwarded(e, true), AckPublished(e.id)]
  }

  lemma AttemptFollows(trace: seq<Effect>, e: Envelope, effects: seq<Effect>, ok: bool)
    requires AcksFollowConfirmation(trace) && OneAttempt(e, effects, ok)
    ensures AcksFollowConfirmation(trace + effects)
  {
    var more := trace + effects;
    forall k | 0 <= k < |more| && more[k].AckPublished?
      ensures Follows(more, k)
    {
      if k < |trace| {
        assert Follows(trace, k);
      } else {
        assert k == |trace| + 1;
      }
    }
  }

  class Relay {
    const capacity: nat

    var tasks: seq<Envelope>
    var accepting: bool
    var sourceReady: bool
    var stopping: bool
    ghost var trace: seq<Effect>

    ghost predicate Valid()
      reads this
    {
      capacity > 0 && |tasks| <= capacity && AcksFollowConfirmation(trace)
    }

    lemma HasRoom()
      requires Valid()
      ensures capacity > 0
    {
    }

    constructor (c: nat)
      requires c > 0
      ensures Valid() && capacity == c && tasks == [] && trace == []
    {
      capacity, tasks, accepting, sourceReady, stopping, trace := c, [], false, false, false, [];
    }

    /** `_on_source_message`, with the decoded envelope or None when it is invalid. A
        message is queued exactly when intake is open and there is room; otherwise it
        stays unacknowledged. */
    method OnSourceMessage(message: Option<Envelope>) returns (queued: bool)
      requires Valid()
      modifies this`tasks
      ensures Valid()
      ensures queued <==> accepting && sourceReady && message.Some? && |old(tasks)| < capacity
      ensures tasks == old(tasks) + if queued then [message.value] else []
    {
      if !accepting || !sourceReady { return false; }
      if message.None? { return false; }
      // Under the intake lock, which stop() also takes.
      if !accepting || !sourceReady { return false; }
      if |tasks| >= capacity { return false; }
      tasks := tasks + [message.value];
      queued := true;
    }

    /** `_forward_once`. Connection states and publish results are arbitrary; the
        DeliveryAck is published only after the destination broker confirmed. */
    method ForwardOnce(e: Envelope) returns (ok: bool, ghost effects: seq<Effect>)
      requires Valid()
      modifies this`trace
      ensures Valid() && trace == old(trace) + effects && OneAttempt(e, effects, ok)
      ensures ok ==> effects == [Forwarded(e, true), AckPublished(e.id)]
    {
      effects := [];
      ok := false;
      var destinationUp, encodes, confirmed, sourceUp, ackEncodes, ackConfirmed: bool := *, *, *, *, *, *;
      if destinationUp && encodes {
        effects := [Forwarded(e, confirmed)];
        if confirmed && sourceUp && ackEncodes {
          effects := effects + [AckPublished(e.id)];
          ok := ackConfirmed;
        }
      }
      AttemptFollows(trace, e, effects, ok);
      trace := trace + effects;
    }

    /** One turn of `_worker_main`: the oldest task is taken, and forwarded once unless
        the relay is stopping. */
    method WorkOnce() returns (ghost effects: seq<Effect>, ghost ok: bool)
      requires Valid()
      modifies this`tasks, this`trace
      ensures Valid() && trace == old(trace) + effects
      ensures old(tasks) == [] ==> tasks == [] && effects == []
      ensures old(tasks) != [] ==> tasks == old(tasks)[1..] && OneAttempt(old(tasks)[0], effects, ok)
      ensures stopping ==> effects == []
    {
      effects, ok := [], false;
      if tasks == [] { return; }
      var e := tasks[0];
      tasks := tasks[1..];
      if stopping { return; }
      ok, effects := ForwardOnce(e);
    }

    /** The source subscription became ready, or was lost. */
    method SetSourceReady(ready: bool)
      requires Valid()
      modifies this`sourceReady
      ensures Valid() && sourceReady == ready
    {
      sourceReady := ready;
    }

    method Start()
      requires Valid()
      modifies this`accepting, this`stopping
      ensures Valid() && accepting && !stopping
    {
      stopping := false;
      accepting := true;
    }

    /** `stop` after the worker finished: queued messages are abandoned without
        DeliveryAcks, and nothing is queued or forwarded until the next start. */
    method Stop()
      requires Valid()
      modifies this`tasks, this`accepting, this`sourceReady, this`stopping
      ensures Valid() && tasks == [] && !accepting && !sourceReady && stopping && trace == old(trace)
    {
      accepting := false;
      sourceReady := false;
      stopping := true;
      while tasks != []
        invariant Valid() && !accepting && !sourceReady && stopping
        decreases |tasks|
      {
        tasks := tasks[1..];
      }
    }
  }
}
