/** `PersistencePolicy` (reliomq/persistence.py): when GroupMode data and
    acknowledgement progress become durable. */
module Policy {
  import opened Wrappers
  import opened Framing
  import opened Directory
  import opened Loading
  import opened Storage
  import opened QueueSpec
  import opened OutboxState
  import opened OutboxSteps
  import opened OutboxClass
  import opened Modes

  /** A started timer: the generation its callback carries, and its delay. */
  datatype Timer = Timer(generation: nat, delay: real)

  /** `_data_timer` or `_ack_timer` with its generation counter. `armed` are the
      generations of the timers started and neither cancelled nor fired. */
  ghost predicate Tracks(timer: Option<Timer>, generation: nat, armed: set<nat>, interval: Option<real>) {
    match timer
    case None => armed == {}
    case Some(t) =>
      && t.generation == generation && armed == {generation}
      && interval.Some? && 0.0 <= t.delay <= interval.value
  }

  /** Work that has an interval has exactly one armed timer, and only then. */
  ghost predicate Disciplined(timer: Option<Timer>, work: nat, interval: Option<real>) {
    timer.Some? <==> work > 0 && interval.Some?
  }

  predicate Reaches(count: nat, threshold: Option<nat>) {
    threshold.Some? && count >= threshold.value
  }

  predicate Elapsed(now: real, since: real, interval: Option<real>) {
    interval.Some? && now - since >= interval.value
  }

  class PersistencePolicy {
    const outbox: Outbox
    const mode: Mode

    var time: real
    var unsyncedMessages: nat
    var unsyncedBytes: nat
    var lastDataSync: real
    var ackedSinceCheckpoint: nat
    var lastAckCheckpoint: real
    var dataTimer: Option<Timer>
    var ackTimer: Option<Timer>
    var dataGeneration: nat
    var ackGeneration: nat

    ghost var dataArmed: set<nat>
    ghost var ackArmed: set<nat>
    /** The last sync or checkpoint the policy attempted failed. */
    ghost var dataFailed: bool
    ghost var ackFailed: bool
    /** How many system calls had failed when the policy was built. */
    ghost const born: nat

    const interval: Option<real> := if mode.Group? then mode.group.syncInterval else None
    const ackInterval: Option<real> := if mode.Group? then mode.group.ackInterval else None

    ghost predicate Valid()
      reads this, outbox, outbox.fs
    {
      && outbox.Valid() && mode.Ok() && lastDataSync <= time && lastAckCheckpoint <= time
      && Tracks(dataTimer, dataGeneration, dataArmed, interval)
      && Tracks(ackTimer, ackGeneration, ackArmed, ackInterval)
      && (dataTimer.Some? ==> unsyncedMessages > 0) && (ackTimer.Some? ==> ackedSinceCheckpoint > 0)
      && (unsyncedMessages == 0 ==> unsyncedBytes == 0) && Blamed()
      && (mode.Group? ==> Covered(outbox.codec, outbox.Queue(), unsyncedMessages, unsyncedBytes, ackedSinceCheckpoint))
    }

    /** Only failed system calls and unsaved work leave a sync or checkpoint failed. */
    ghost predicate Blamed()
      reads this`unsyncedMessages, this`ackedSinceCheckpoint, this`dataFailed, this`ackFailed, outbox.fs
    {
      && (unsyncedMessages == 0 ==> !dataFailed) && (ackedSinceCheckpoint == 0 ==> !ackFailed)
      && born <= outbox.fs.faults && (dataFailed || ackFailed ==> born < outbox.fs.faults)
    }

    ghost predicate DataDisciplined()
      reads this`dataTimer, this`unsyncedMessages
    {
      Disciplined(dataTimer, unsyncedMessages, interval)
    }

    ghost predicate AckDisciplined()
      reads this`ackTimer, this`ackedSinceCheckpoint
    {
      Disciplined(ackTimer, ackedSinceCheckpoint, ackInterval)
    }

    /** No more unsynced work is pending than the thresholds allow, unless the last
        sync failed. */
    ghost predicate DataBounded()
      reads this`dataFailed, this`unsyncedMessages, this`unsyncedBytes
    {
      mode.Group? && !dataFailed ==>
        !Reaches(unsyncedMessages, mode.group.syncMessages) && !Reaches(unsyncedBytes, mode.group.syncBytes)
    }

    ghost predicate AckBounded()
      reads this`ackFailed, this`ackedSinceCheckpoint
    {
      mode.Group? && !ackFailed ==> !Reaches(ackedSinceCheckpoint, mode.group.ackMessages)
    }

    /** A policy over an Outbox just opened: nothing is exposed yet. */
    constructor (o: Outbox, m: Mode, now: real)
      requires o.Valid() && m.Ok()
      requires o.Queue().durable == |o.Queue().items| && o.Queue().saved == o.Queue().head == o.Queue().asked
      ensures Valid() && DataDisciplined() && AckDisciplined() && DataBounded() && AckBounded() && outbox == o && mode == m
      ensures !dataFailed && !ackFailed && born == o.fs.faults
    {
      hide Outbox.Valid, Outbox.Queue;
      outbox, mode, time := o, m, now;
      unsyncedMessages, unsyncedBytes, lastDataSync := 0, 0, now;
      ackedSinceCheckpoint, lastAckCheckpoint := 0, now;
      dataTimer, ackTimer, dataGeneration, ackGeneration := None, None, 0, 0;
      dataArmed, ackArmed, dataFailed, ackFailed, born := {}, {}, false, false, o.fs.faults;
      new;
      outbox.QueueFacts();
      ghost var q := outbox.Queue();
      assert q.items[q.durable..] == [];
    }

    /** Without an interval there is no timer. */
    lemma NoTimers()
      requires Valid() && !mode.Group?
      ensures DataDisciplined() && AckDisciplined()
    {
      hide Outbox.Valid, Outbox.Queue, Covered;
    }

    lemma OutboxValid()
      requires Valid()
      ensures outbox.Valid() && mode.Ok()
    {
      hide Outbox.Valid, Outbox.Queue, Covered, Tracks;
    }

    // ---- Clock and timers ------------------------------------------------------

    /** A monotonic clock. */
    method Clock() returns (now: real)
      modifies this`time
      ensures old(time) <= now == time
    {
      var step: real :| step >= 0.0;
      time := time + step;
      now := time;
    }

    method CancelDataTimer()
      modifies this`dataTimer, this`dataGeneration, this`dataArmed
      ensures dataTimer == None && dataArmed == {} && dataGeneration == old(dataGeneration) + 1
      ensures Tracks(dataTimer, dataGeneration, dataArmed, interval)
    {
      dataGeneration := dataGeneration + 1;
      dataTimer := None;
      dataArmed := {};
    }

    method CancelAckTimer()
      modifies this`ackTimer, this`ackGeneration, this`ackArmed
      ensures ackTimer == None && ackArmed == {} && ackGeneration == old(ackGeneration) + 1
      ensures Tracks(ackTimer, ackGeneration, ackArmed, ackInterval)
    {
      ackGeneration := ackGeneration + 1;
      ackTimer := None;
      ackArmed := {};
    }

    method ArmDataTimer(retry: bool)
      requires Valid()
      modifies this`time, this`dataTimer, this`dataGeneration, this`dataArmed
      ensures Valid() && DataDisciplined() && old(time) <= time
    {
      hide Covered, Outbox.Valid, Outbox.Queue;
      if dataTimer.Some? || unsyncedMessages == 0 { return; }
      if interval.None? { return; }
      var delay := interval.value;
      if !retry {
        var now := Clock();
        delay := if lastDataSync + interval.value - now < 0.0 then 0.0 else lastDataSync + interval.value - now;
      }
      dataGeneration := dataGeneration + 1;
      dataTimer := Some(Timer(dataGeneration, delay));
      dataArmed := dataArmed + {dataGeneration};
    }

    method ArmAckTimer(retry: bool)
      requires Valid()
      modifies this`time, this`ackTimer, this`ackGeneration, this`ackArmed
      ensures Valid() && AckDisciplined() && old(time) <= time
    {
      hide Covered, Outbox.Valid, Outbox.Queue;
      if ackTimer.Some? || ackedSinceCheckpoint == 0 { return; }
      if ackInterval.None? { return; }
      var delay := ackInterval.value;
      if !retry {
        var now := Clock();
        delay := if lastAckCheckpoint + ackInterval.value - now < 0.0 then 0.0 else lastAckCheckpoint + ackInterval.value - now;
      }
      ackGeneration := ackGeneration + 1;
      ackTimer := Some(Timer(ackGeneration, delay));
      ackArmed := ackArmed + {ackGeneration};
    }

    // ---- Durability boundaries ----------------------------------------------------

    /** `_sync_group_data_locked`. `ok` is false when the error is raised. */
    method SyncGroupData(suppress: bool) returns (ok: bool)
      requires Valid() && mode.Group?
      modifies this`time, this`dataTimer, this`dataGeneration, this`dataArmed, this`dataFailed, this`unsyncedMessages,
               this`unsyncedBytes, this`lastDataSync, outbox`syncPending, outbox`syncGeneration, outbox.fs
      ensures Valid() && Settles(old(outbox.Queue()), outbox.Queue()) && old(time) <= time
      ensures suppress ==> ok
      ensures ok ==> DataDisciplined()
      ensures ok && !suppress ==> unsyncedMessages == 0
      ensures unsyncedMessages == old(unsyncedMessages) || unsyncedMessages == 0
      ensures DataBounded() || old(unsyncedMessages) == 0
      ensures Moments(old(outbox.fs.visited), outbox.fs.visited, Holding(old(outbox.Queue()), false))
      ensures old(outbox.fs.faults) <= outbox.fs.faults
      ensures outbox.fs.faults == old(outbox.fs.faults) ==> (dataFailed ==> old(dataFailed))
      ensures !ok ==> outbox.fs.faults > old(outbox.fs.faults)
    {
      hide Covered, Outbox.Valid, Outbox.Queue, QueueSpec.Queue.Ok, Settles, Tracks, Moments, Holding;
      SettlesSame(outbox.Queue());
      NoMoments(outbox.fs.visited, Holding(outbox.Queue(), false));
      CancelDataTimer();
      ok := true;
      if unsyncedMessages == 0 { return; }
      var synced := OutboxSync();
      if !synced {
        dataFailed := true;
        if suppress {
          ArmDataTimer(true);
        } else {
          ok := false;
        }
        return;
      }
      dataFailed := false;
      unsyncedMessages, unsyncedBytes := 0, 0;
      lastDataSync := Clock();
    }

    method OutboxSync() returns (done: bool)
      requires outbox.Valid()
      requires Covered(outbox.codec, outbox.Queue(), unsyncedMessages, unsyncedBytes, ackedSinceCheckpoint)
      modifies outbox`syncPending, outbox`syncGeneration, outbox.fs
      ensures outbox.Valid() && Settles(old(outbox.Queue()), outbox.Queue())
      ensures Covered(outbox.codec, outbox.Queue(), unsyncedMessages, unsyncedBytes, ackedSinceCheckpoint)
      ensures done ==> Covered(outbox.codec, outbox.Queue(), 0, 0, ackedSinceCheckpoint)
      ensures Moments(old(outbox.fs.visited), outbox.fs.visited, Holding(old(outbox.Queue()), false))
      ensures old(outbox.fs.faults) <= outbox.fs.faults
      ensures !done ==> outbox.fs.faults > old(outbox.fs.faults)
    {
      hide Covered, Outbox.Valid, Outbox.Queue, QueueSpec.Queue.Ok, Settles, Synced;
      ghost var q := outbox.Queue();
      done := outbox.SyncData();
      outbox.QueueFacts();
      SettlesSync(outbox.codec, q, outbox.Queue(), done, unsyncedMessages, unsyncedBytes, ackedSinceCheckpoint);
    }

    method OutboxCheckpoint() returns (done: bool)
      requires outbox.Valid()
      requires Covered(outbox.codec, outbox.Queue(), unsyncedMessages, unsyncedBytes, ackedSinceCheckpoint)
      modifies outbox, outbox.fs
      ensures outbox.Valid() && Settles(old(outbox.Queue()), outbox.Queue())
      ensures Covered(outbox.codec, outbox.Queue(), unsyncedMessages, unsyncedBytes, ackedSinceCheckpoint)
      ensures done ==> Covered(outbox.codec, outbox.Queue(), 0, 0, 0)
      ensures Moments(old(outbox.fs.visited), outbox.fs.visited, Holding(old(outbox.Queue()), false))
      ensures old(outbox.fs.faults) <= outbox.fs.faults
      ensures !done ==> outbox.fs.faults > old(outbox.fs.faults)
    {
      hide Covered, Outbox.Valid, Outbox.Queue, QueueSpec.Queue.Ok, Settles, Checkpointed;
      ghost var q := outbox.Queue();
      done := outbox.Checkpoint();
      outbox.QueueFacts();
      SettlesCheckpoint(outbox.codec, q, outbox.Queue(), done, unsyncedMessages, unsyncedBytes, ackedSinceCheckpoint);
    }

    /** `_checkpoint_group_locked`. */
    method CheckpointGroup(suppress: bool) returns (ok: bool)
      requires Valid() && mode.Group?
      modifies this`time, this`dataTimer, this`dataGeneration, this`dataArmed, this`dataFailed, this`unsyncedMessages,
               this`unsyncedBytes, this`lastDataSync, this`ackTimer, this`ackGeneration, this`ackArmed, this`ackFailed,
               this`ackedSinceCheckpoint, this`lastAckCheckpoint, outbox, outbox.fs
      ensures Valid() && Settles(old(outbox.Queue()), outbox.Queue()) && old(time) <= time
      ensures suppress ==> ok
      ensures ok ==> AckDisciplined()
      ensures ok && !suppress ==> ackedSinceCheckpoint == 0
      ensures ackedSinceCheckpoint == old(ackedSinceCheckpoint) || ackedSinceCheckpoint == 0
      ensures AckBounded() || old(ackedSinceCheckpoint) == 0
      ensures (unsyncedMessages == 0 && DataBounded() && dataTimer == None)
              || (unsyncedMessages == old(unsyncedMessages) && unsyncedBytes == old(unsyncedBytes)
                  && dataFailed == old(dataFailed) && dataTimer == old(dataTimer))
      ensures Moments(old(outbox.fs.visited), outbox.fs.visited, Holding(old(outbox.Queue()), false))
      ensures old(outbox.fs.faults) <= outbox.fs.faults
      ensures outbox.fs.faults == old(outbox.fs.faults) ==> (dataFailed ==> old(dataFailed)) && (ackFailed ==> old(ackFailed))
      ensures !ok ==> outbox.fs.faults > old(outbox.fs.faults)
      ensures ackedSinceCheckpoint == 0 || ackFailed
    {
      hide Covered, Outbox.Valid, Outbox.Queue, QueueSpec.Queue.Ok, Settles, Tracks;
      SettlesSame(outbox.Queue());
      CancelAckTimer();
      ok := true;
      if ackedSinceCheckpoint == 0 { return; }
      var done := OutboxCheckpoint();
      if !done {
        ackFailed := true;
        if suppress {
          ArmAckTimer(true);
        } else {
          ok := false;
        }
        return;
      }
      ResetAfterCheckpoint();
    }

    method ResetAfterCheckpoint()
      requires outbox.Valid() && mode.Ok() && lastDataSync <= time && lastAckCheckpoint <= time
      requires ackTimer == None && Tracks(ackTimer, ackGeneration, ackArmed, ackInterval) && born <= outbox.fs.faults
      requires mode.Group? && Covered(outbox.codec, outbox.Queue(), 0, 0, 0)
      modifies this`time, this`dataTimer, this`dataGeneration, this`dataArmed, this`dataFailed, this`unsyncedMessages,
               this`unsyncedBytes, this`lastDataSync, this`ackFailed, this`ackedSinceCheckpoint, this`lastAckCheckpoint
      ensures Valid() && old(time) <= time && ackedSinceCheckpoint == 0 && unsyncedMessages == 0
      ensures AckBounded() && DataBounded() && dataTimer == None && ackTimer == None
      ensures !dataFailed && !ackFailed
    {
      hide Covered, Outbox.Valid, Outbox.Queue, Tracks, AckBounded, DataBounded;
      var now := Clock();
      ForgetAcked(now);
      // A successful checkpoint is a data sync boundary too.
      ForgetUnsynced(now);
    }

    /** The record just appended joins the counters. When the Outbox synced or
        checkpointed by itself inside the append, it alone is exposed. */
    method Account(framedBytes: nat, synced: bool, saved: bool)
      requires mode.Group? && mode.Ok() && outbox.Valid() && lastDataSync <= time && lastAckCheckpoint <= time
      requires Tracks(dataTimer, dataGeneration, dataArmed, interval)
      requires Tracks(ackTimer, ackGeneration, ackArmed, ackInterval)
      requires (dataTimer.Some? ==> unsyncedMessages > 0) && (ackTimer.Some? ==> ackedSinceCheckpoint > 0) && Blamed()
      requires Covered(outbox.codec, outbox.Queue(), (if synced then 0 else unsyncedMessages) + 1,
                       (if synced then 0 else unsyncedBytes) + framedBytes, if saved then 0 else ackedSinceCheckpoint)
      requires AckBounded()
      modifies this
      ensures Valid() && AckBounded() && unsyncedMessages > 0 && old(time) <= time
      ensures old(AckDisciplined()) ==> AckDisciplined()
      ensures (dataFailed ==> old(dataFailed)) && (ackFailed ==> old(ackFailed))
    {
      hide Covered, Outbox.Valid, Outbox.Queue, Tracks, AckBounded, AckDisciplined;
      var now := Clock();
      Forget(now, synced, saved);
      unsyncedMessages := unsyncedMessages + 1;
      unsyncedBytes := unsyncedBytes + framedBytes;
    }

    /** What the Outbox synced or saved on its own needs no timer. */
    method Forget(now: real, synced: bool, saved: bool)
      requires mode.Ok() && Blamed() && AckBounded() && lastDataSync <= now && lastAckCheckpoint <= now
      requires Tracks(dataTimer, dataGeneration, dataArmed, interval)
      requires Tracks(ackTimer, ackGeneration, ackArmed, ackInterval)
      requires (dataTimer.Some? ==> unsyncedMessages > 0) && (ackTimer.Some? ==> ackedSinceCheckpoint > 0)
      modifies this`dataTimer, this`dataGeneration, this`dataArmed, this`dataFailed, this`unsyncedMessages, this`unsyncedBytes,
               this`lastDataSync, this`ackTimer, this`ackGeneration, this`ackArmed, this`ackFailed, this`ackedSinceCheckpoint,
               this`lastAckCheckpoint
      ensures Tracks(dataTimer, dataGeneration, dataArmed, interval)
      ensures Tracks(ackTimer, ackGeneration, ackArmed, ackInterval)
      ensures unsyncedMessages == (if synced then 0 else old(unsyncedMessages))
      ensures unsyncedBytes == (if synced then 0 else old(unsyncedBytes))
      ensures ackedSinceCheckpoint == (if saved then 0 else old(ackedSinceCheckpoint))
      ensures ackTimer.Some? ==> ackedSinceCheckpoint > 0
      ensures AckBounded() && Blamed() && lastDataSync <= now && lastAckCheckpoint <= now
      ensures old(AckDisciplined()) ==> AckDisciplined()
      ensures (dataFailed ==> old(dataFailed)) && (ackFailed ==> old(ackFailed))
    {
      hide Tracks, AckBounded, AckDisciplined;
      if synced { ForgetUnsynced(now); }
      if saved {
        CancelAckTimer();
        ForgetAcked(now);
      }
    }

    method ForgetUnsynced(now: real)
      requires mode.Ok()
      modifies this`dataTimer, this`dataGeneration, this`dataArmed, this`dataFailed, this`unsyncedMessages,
               this`unsyncedBytes, this`lastDataSync
      ensures unsyncedMessages == 0 && unsyncedBytes == 0 && lastDataSync == now && dataTimer == None && DataBounded()
      ensures Tracks(dataTimer, dataGeneration, dataArmed, interval)
      ensures !dataFailed
    {
      hide Tracks;
      CancelDataTimer();
      unsyncedMessages, unsyncedBytes, lastDataSync, dataFailed := 0, 0, now, false;
    }

    method ForgetAcked(now: real)
      requires mode.Ok() && ackTimer == None
      modifies this`ackFailed, this`ackedSinceCheckpoint, this`lastAckCheckpoint
      ensures ackedSinceCheckpoint == 0 && lastAckCheckpoint == now && AckBounded() && AckDisciplined()
      ensures !ackFailed
    {
      ackedSinceCheckpoint, lastAckCheckpoint, ackFailed := 0, now, false;
    }

    /** Syncs when a count, byte or time threshold is reached, else arms the timer. */
    method SyncIfDue(now: real)
      requires Valid() && mode.Group? && unsyncedMessages > 0
      modifies this`time, this`dataTimer, this`dataGeneration, this`dataArmed, this`dataFailed, this`unsyncedMessages,
               this`unsyncedBytes, this`lastDataSync, outbox`syncPending, outbox`syncGeneration, outbox.fs
      ensures Valid() && Settles(old(outbox.Queue()), outbox.Queue()) && old(time) <= time
      ensures DataBounded() && DataDisciplined()
      ensures Moments(old(outbox.fs.visited), outbox.fs.visited, Holding(old(outbox.Queue()), false))
      ensures old(outbox.fs.faults) <= outbox.fs.faults
      ensures outbox.fs.faults == old(outbox.fs.faults) ==> (dataFailed ==> old(dataFailed))
    {
      hide Covered, Outbox.Valid, Outbox.Queue, Settles, Tracks;
      SettlesSame(outbox.Queue());
      var due := Reaches(unsyncedMessages, mode.group.syncMessages) || Reaches(unsyncedBytes, mode.group.syncBytes)
                 || Elapsed(now, lastDataSync, interval);
      if due {
        var ok := SyncGroupData(true);
      } else {
        ArmDataTimer(false);
      }
    }

    /** Checkpoints acknowledgement progress when `due`. */
    method CheckpointIf(due: bool)
      requires Valid() && mode.Group? && DataBounded() && AckBounded()
      modifies this, outbox, outbox.fs
      ensures Valid() && Settles(old(outbox.Queue()), outbox.Queue()) && old(time) <= time
      ensures DataBounded() && AckBounded() && (due ==> AckDisciplined())
      ensures (old(DataDisciplined()) ==> DataDisciplined()) && (old(AckDisciplined()) ==> AckDisciplined())
      ensures Moments(old(outbox.fs.visited), outbox.fs.visited, Holding(old(outbox.Queue()), false))
      ensures old(outbox.fs.faults) <= outbox.fs.faults
      ensures outbox.fs.faults == old(outbox.fs.faults) ==> (dataFailed ==> old(dataFailed)) && (ackFailed ==> old(ackFailed))
      ensures due ==> ackedSinceCheckpoint == 0 || ackFailed
      ensures !due ==> unchanged(outbox) && unchanged(outbox.fs)
    {
      hide Covered, Outbox.Valid, Outbox.Queue, Settles, Tracks;
      SettlesSame(outbox.Queue());
      if due {
        var ok := CheckpointGroup(true);
      }
    }

    /** The state after appending `e` to `q` through the policy. */
    ghost predicate Took(q: Queue, e: Envelope, accepted: bool, appended: bool)
      reads this, outbox, outbox.fs
    {
      && Valid() && DataBounded() && AckBounded()
      && AppendedOne(q, outbox.Queue(), e, accepted, appended)
      && (!mode.Group? && (appended || q.durable == |q.items|) ==> outbox.Queue().durable == |outbox.Queue().items|)
      && (!mode.Group? && q.saved == q.head ==> outbox.Queue().newest == q.newest && outbox.Queue().heads <= q.heads)
    }

    /** The append wedged the Outbox: a crash leaves what `q` with or without `e` allows. */
    ghost predicate Broke(q: Queue, e: Envelope)
      reads outbox, outbox.fs
    {
      && q.head <= |q.items| && e.id !in Ids(q.Pending())
      && outbox.Stranded() && MayHold(q, outbox.shadow.value, e)
    }

    /** `_append_group`. */
    method AppendGroup(e: Envelope) returns (r: Appending, appended: bool)
      requires Valid() && mode.Group? && DataBounded() && AckBounded()
      requires outbox.codec.decode(e.body) == Some(e.id)
      modifies this, outbox, outbox.fs
      ensures r != AppendWedged ==> Took(old(outbox.Queue()), e, r.Accepted?, appended)
      ensures r == AppendWedged ==> Broke(old(outbox.Queue()), e)
      ensures appended ==> DataDisciplined()
      ensures old(DataDisciplined()) ==> DataDisciplined()
      ensures old(AckDisciplined()) ==> AckDisciplined()
      ensures Moments(old(outbox.fs.visited), outbox.fs.visited, Growing(old(outbox.Queue()), [e]))
      ensures old(outbox.fs.faults) <= outbox.fs.faults
      ensures outbox.fs.faults == old(outbox.fs.faults) ==> (dataFailed ==> old(dataFailed)) && (ackFailed ==> old(ackFailed))
      ensures r == AppendFailed || r == AppendWedged ==> outbox.fs.faults > old(outbox.fs.faults)
      ensures r == Rejected ==> |e.body| > MAX_RECORD_BYTES
      ensures appended ==> ackedSinceCheckpoint == 0 || ackFailed || !outbox.ConsumedClosedSegment()
    {
      hide Covered, Outbox.Valid, Outbox.Queue, Settles, Tracks, QueueSpec.Queue.Ok, AppendedOne, Frame, Moments;
      hide Inside;
      hide Holding, Growing;
      outbox.QueueFacts();
      ghost var q := outbox.Queue();
      QueueOrder(q);
      var framedBytes := |Frame(outbox.codec, e)|;
      var synced, saved;
      r, appended, synced, saved := AppendUnsynced(e);
      if r == AppendWedged || !appended { return; }
      ghost var q1, visited1 := outbox.Queue(), outbox.fs.visited;
      AppendedInside(q, q1, e, true, true);
      Account(framedBytes, synced, saved);
      SyncIfDue(time);
      MoreMoments(old(outbox.fs.visited), visited1, outbox.fs.visited, Growing(q, [e]), Holding(q1, false));
      ghost var q2, visited2 := outbox.Queue(), outbox.fs.visited;
      AppendedOneOrder(q, q1, e, true, true);
      SettlesInside(q1, q2);
      InsideTwice(Holding(q2, false), Holding(q1, false), Growing(q, [e]));
      var closed := outbox.CompletedClosedSegmentPending();
      CheckpointIf(closed);
      MoreMoments(old(outbox.fs.visited), visited2, outbox.fs.visited, Growing(q, [e]), Holding(q2, false));
      AppendedOneSettles(q, q1, q2, outbox.Queue(), e);
    }

    /** The append itself, and whether the Outbox synced or checkpointed meanwhile. */
    method AppendUnsynced(e: Envelope) returns (r: Appending, appended: bool, synced: bool, saved: bool)
      requires outbox.Valid() && outbox.codec.decode(e.body) == Some(e.id)
      requires Covered(outbox.codec, outbox.Queue(), unsyncedMessages, unsyncedBytes, ackedSinceCheckpoint)
      modifies outbox, outbox.fs
      ensures appended ==> r.Accepted?
      ensures r != AppendWedged ==> (
                && outbox.Valid()
                && AppendedOne(old(outbox.Queue()), outbox.Queue(), e, r.Accepted?, appended)
                && Covered(outbox.codec, outbox.Queue(),
                           (if appended && synced then 0 else unsyncedMessages) + (if appended then 1 else 0),
                           (if appended && synced then 0 else unsyncedBytes) + (if appended then |Frame(outbox.codec, e)| else 0),
                           if appended && saved then 0 else ackedSinceCheckpoint))
      ensures r == AppendWedged ==> Broke(old(outbox.Queue()), e)
      ensures Moments(old(outbox.fs.visited), outbox.fs.visited, Growing(old(outbox.Queue()), [e]))
      ensures old(outbox.fs.faults) <= outbox.fs.faults
      ensures r == AppendFailed || r == AppendWedged ==> outbox.fs.faults > old(outbox.fs.faults)
      ensures r == Rejected ==> |e.body| > MAX_RECORD_BYTES
    {
      hide Covered, Outbox.Valid, Outbox.Queue, Appended, QueueSpec.Queue.Ok, AppendedOne, Frame, Ids;
      hide FileSystem.Valid, Blob;
      hide Leaves, Grew, Outbox.Stranded;
      outbox.QueueFacts();
      ghost var q := outbox.Queue();
      var dataBefore, ackBefore := outbox.syncGeneration, outbox.generation;
      ghost var count;
      r, appended, count := outbox.Append(e, false);
      synced, saved := outbox.syncGeneration != dataBefore, outbox.generation != ackBefore;
      if r == AppendWedged {
        outbox.StrandedOk();
        OneCount(q, outbox.shadow.value, e, count);
        return;
      }
      outbox.QueueFacts();
      AppendedOneFrom(outbox.codec, q, outbox.Queue(), e, count, r.Accepted?, appended, unsyncedMessages, unsyncedBytes,
                      ackedSinceCheckpoint);
    }

    /** `append_durable`. */
    method AppendDurable(e: Envelope) returns (r: Appending, appended: bool)
      requires Valid() && !mode.Group? && outbox.codec.decode(e.body) == Some(e.id)
      modifies outbox, outbox.fs
      ensures r != AppendWedged ==> Took(old(outbox.Queue()), e, r.Accepted?, appended)
      ensures r == AppendWedged ==> Broke(old(outbox.Queue()), e)
      ensures Moments(old(outbox.fs.visited), outbox.fs.visited, Growing(old(outbox.Queue()), [e]))
      ensures old(outbox.fs.faults) <= outbox.fs.faults
      ensures r == AppendFailed || r == AppendWedged ==> outbox.fs.faults > old(outbox.fs.faults)
      ensures r == Rejected ==> |e.body| > MAX_RECORD_BYTES
    {
      hide Outbox.Valid, Outbox.Queue, Appended, QueueSpec.Queue.Ok, AppendedOne, Covered, Tracks;
      hide Leaves, Grew, Outbox.Stranded, FileSystem.Valid, Ids;
      outbox.QueueFacts();
      ghost var q := outbox.Queue();
      ghost var count;
      r, appended, count := outbox.Append(e, true);
      if r == AppendWedged {
        outbox.StrandedOk();
        OneCount(q, outbox.shadow.value, e, count);
        return;
      }
      outbox.QueueFacts();
      AppendedOneDurable(q, outbox.Queue(), e, count, r.Accepted?, appended);
    }

    /** `append`. FastMode never calls it: its messages enter the RAM queue first. */
    method Append(e: Envelope) returns (r: Appending, appended: bool)
      requires Valid() && !mode.Fast? && DataBounded() && AckBounded()
      requires outbox.codec.decode(e.body) == Some(e.id)
      modifies this, outbox, outbox.fs
      ensures r != AppendWedged ==> Took(old(outbox.Queue()), e, r.Accepted?, appended)
      ensures r == AppendWedged ==> Broke(old(outbox.Queue()), e)
      ensures old(DataDisciplined()) ==> DataDisciplined()
      ensures old(AckDisciplined()) ==> AckDisciplined()
      ensures Moments(old(outbox.fs.visited), outbox.fs.visited, Growing(old(outbox.Queue()), [e]))
      ensures old(outbox.fs.faults) <= outbox.fs.faults
      ensures outbox.fs.faults == old(outbox.fs.faults) ==> (dataFailed ==> old(dataFailed)) && (ackFailed ==> old(ackFailed))
      ensures r == AppendFailed || r == AppendWedged ==> outbox.fs.faults > old(outbox.fs.faults)
      ensures r == Rejected ==> |e.body| > MAX_RECORD_BYTES
    {
      hide Outbox.Valid, Outbox.Queue, Tracks, Covered, Took, Broke;
      if mode.Durable? {
        r, appended := AppendDurable(e);
      } else {
        r, appended := AppendGroup(e);
      }
    }

    // ---- Completion, checkpoint and flush -----------------------------------------------

    /** `complete`. */
    method Complete(e: Envelope) returns (r: Removal, ghost renamed: bool)
      requires Valid() && DataBounded() && AckBounded()
      modifies this, outbox, outbox.fs
      ensures Valid() && DataBounded() && AckBounded()
      ensures CompletedOne(old(outbox.Queue()), outbox.Queue(), e, r, renamed) && (mode.Group? ==> r != RemovalFailed)
      ensures !mode.Group? && r == Advanced ==>
                outbox.Queue().heads == {outbox.Queue().head} && outbox.Queue().saved == outbox.Queue().head
                && outbox.Queue().durable == |outbox.Queue().items|
      ensures old(DataDisciplined()) ==> DataDisciplined()
      ensures (mode.Group? && r == Advanced) || old(AckDisciplined()) ==> AckDisciplined()
      ensures Moments(old(outbox.fs.visited), outbox.fs.visited, Holding(old(outbox.Queue()), true))
      ensures old(outbox.fs.faults) <= outbox.fs.faults
      ensures outbox.fs.faults == old(outbox.fs.faults) ==> (dataFailed ==> old(dataFailed)) && (ackFailed ==> old(ackFailed))
      ensures r == RemovalFailed ==> outbox.fs.faults > old(outbox.fs.faults)
      ensures renamed ==> r == RemovalFailed
      ensures mode.Group? && r == Advanced ==> ackedSinceCheckpoint == 0 || ackFailed || !outbox.ConsumedClosedSegment()
    {
      hide Outbox.Valid, Outbox.Queue, Tracks, Covered, CompletedOne, Removed, QueueSpec.Queue.Ok, Settles;
      outbox.QueueFacts();
      ghost var q := outbox.Queue();
      if !mode.Group? {
        r, renamed := outbox.RemoveOldest(e, true);
        outbox.QueueFacts();
        CompletedSynced(q, outbox.Queue(), e, r, renamed);
        return;
      }
      r, renamed := outbox.RemoveOldest(e, false);
      outbox.QueueFacts();
      ghost var q1 := outbox.Queue();
      CompletedVolatile(outbox.codec, q, q1, e, r, renamed, unsyncedMessages, unsyncedBytes, ackedSinceCheckpoint);
      QueueOrder(q1);
      if r == NotHead { return; }
      ackedSinceCheckpoint := ackedSinceCheckpoint + 1;
      CheckpointOrArm();
      CompletedSettles(q, q1, outbox.Queue(), e);
    }

    /** Checkpoints when a count, time or closed-segment trigger is reached, else arms
        the timer. */
    method CheckpointOrArm()
      requires Valid() && mode.Group? && DataBounded() && ackedSinceCheckpoint > 0
      modifies this, outbox, outbox.fs
      ensures Valid() && DataBounded() && AckBounded() && AckDisciplined()
      ensures Settles(old(outbox.Queue()), outbox.Queue())
      ensures old(DataDisciplined()) ==> DataDisciplined()
      ensures Moments(old(outbox.fs.visited), outbox.fs.visited, Holding(old(outbox.Queue()), false))
      ensures old(outbox.fs.faults) <= outbox.fs.faults
      ensures outbox.fs.faults == old(outbox.fs.faults) ==> (dataFailed ==> old(dataFailed)) && (ackFailed ==> old(ackFailed))
      ensures ackedSinceCheckpoint == 0 || ackFailed || !outbox.ConsumedClosedSegment()
    {
      hide Outbox.Valid, Outbox.Queue, Tracks, Covered, Settles;
      SettlesSame(outbox.Queue());
      var now := Clock();
      var closed := outbox.CompletedClosedSegmentPending();
      var due := Reaches(ackedSinceCheckpoint, mode.group.ackMessages) || Elapsed(now, lastAckCheckpoint, ackInterval) || closed;
      if due {
        var ok := CheckpointGroup(true);
      } else {
        ArmAckTimer(false);
      }
    }

    /** `flush`. When it returns normally in GroupMode, a restart returns exactly the
        pending FIFO (RestartExact). When it raises, no timer is left armed. */
    method Flush() returns (ok: bool)
      requires Valid() && DataBounded() && AckBounded()
      modifies this, outbox, outbox.fs
      ensures Valid() && DataBounded() && AckBounded() && Settles(old(outbox.Queue()), outbox.Queue())
      ensures !mode.Group? ==> ok && outbox.Queue() == old(outbox.Queue())
      ensures ok && mode.Group? ==> DataDisciplined() && AckDisciplined() && dataTimer == None && ackTimer == None
      ensures ok && mode.Group? ==>
                outbox.Queue().heads == {outbox.Queue().head} && outbox.Queue().durable == |outbox.Queue().items|
      ensures ok && mode.Group? ==> !dataFailed && !ackFailed
      ensures Moments(old(outbox.fs.visited), outbox.fs.visited, Holding(old(outbox.Queue()), false))
      ensures old(outbox.fs.faults) <= outbox.fs.faults
      ensures outbox.fs.faults == old(outbox.fs.faults) ==> (dataFailed ==> old(dataFailed)) && (ackFailed ==> old(ackFailed))
      ensures !ok ==> outbox.fs.faults > old(outbox.fs.faults)
    {
      hide Outbox.Valid, Outbox.Queue, Tracks, Covered, Settles, Moments, Inside, Holding, QueueSpec.Queue.Ok;
      outbox.QueueFacts();
      ghost var q := outbox.Queue();
      QueueOrder(q);
      SettlesSame(q);
      NoMoments(outbox.fs.visited, Holding(q, false));
      ok := true;
      if !mode.Group? { return; }
      CancelDataTimer();
      CancelAckTimer();
      if unsyncedMessages > 0 {
        ok := SyncGroupData(false);
        if !ok { return; }
      }
      ghost var q1, visited1 := outbox.Queue(), outbox.fs.visited;
      SettlesSame(q1);
      SettlesInside(q, q1);
      NoMoments(visited1, Holding(q1, false));
      if ackedSinceCheckpoint > 0 {
        ok := CheckpointGroup(false);
      }
      MoreMoments(old(outbox.fs.visited), visited1, outbox.fs.visited, Holding(q, false), Holding(q1, false));
      SettlesTwice(q, q1, outbox.Queue());
      if ok { NothingExposed(outbox.codec, outbox.Queue()); }
    }

    // ---- Timer callbacks ---------------------------------------------------------------------

    /** `_on_data_timer`: a callback of a superseded timer changes nothing. */
    method OnDataTimer(generation: nat)
      requires Valid() && mode.Group? && DataBounded() && AckBounded()
      modifies this, outbox, outbox.fs
      ensures generation != old(dataGeneration) ==> unchanged(this) && unchanged(outbox) && unchanged(outbox.fs)
      ensures Valid() && DataBounded() && AckBounded() && Settles(old(outbox.Queue()), outbox.Queue())
      ensures generation == old(dataGeneration) ==> DataDisciplined()
      ensures old(AckDisciplined()) ==> AckDisciplined()
      ensures Moments(old(outbox.fs.visited), outbox.fs.visited, Holding(old(outbox.Queue()), false))
      ensures old(outbox.fs.faults) <= outbox.fs.faults
      ensures outbox.fs.faults == old(outbox.fs.faults) ==> (dataFailed ==> old(dataFailed)) && (ackFailed ==> old(ackFailed))
    {
      hide Outbox.Valid, Outbox.Queue, Covered, Settles;
      SettlesSame(outbox.Queue());
      if generation != dataGeneration { return; }
      dataTimer := None;
      dataArmed := {};
      var ok := SyncGroupData(true);
    }

    /** `_on_ack_timer`. */
    method OnAckTimer(generation: nat)
      requires Valid() && mode.Group? && DataBounded() && AckBounded()
      modifies this, outbox, outbox.fs
      ensures generation != old(ackGeneration) ==> unchanged(this) && unchanged(outbox) && unchanged(outbox.fs)
      ensures Valid() && DataBounded() && AckBounded() && Settles(old(outbox.Queue()), outbox.Queue())
      ensures generation == old(ackGeneration) ==> AckDisciplined()
      ensures old(DataDisciplined()) ==> DataDisciplined()
      ensures Moments(old(outbox.fs.visited), outbox.fs.visited, Holding(old(outbox.Queue()), false))
      ensures old(outbox.fs.faults) <= outbox.fs.faults
      ensures outbox.fs.faults == old(outbox.fs.faults) ==> (dataFailed ==> old(dataFailed)) && (ackFailed ==> old(ackFailed))
    {
      hide Outbox.Valid, Outbox.Queue, Covered, Settles;
      SettlesSame(outbox.Queue());
      if generation != ackGeneration { return; }
      ackTimer := None;
      ackArmed := {};
      var ok := CheckpointGroup(true);
    }
  }

  /** A crash image that opens and reads back as the appended messages from one at most
      `ackMessages - 1` before the live head, up to one at most `syncMessages - 1`
      messages (and fewer than `syncBytes` bytes) short of the end. */
  ghost predicate WithinExposure(c: Codec, g: GroupMode, q: Queue, image: Disk, from: nat, to: nat) {
    && from <= q.head && from <= to <= |q.items|
    && Load(c, image).Some? && |Load(c, image).value| == to - from
    && (forall k | 0 <= k < to - from :: ReadsAs(c, image, Load(c, image).value[k], q.items[from + k]))
    && (g.syncMessages.Some? ==> |q.items| - to <= g.syncMessages.value - 1)
    && (g.syncBytes.Some? ==> |Blob(c, q.items[to..])| < g.syncBytes.value)
    && (g.ackMessages.Some? ==> q.head - from <= g.ackMessages.value - 1)
  }

  /** BOUNDED EXPOSURE AFTER A CRASH, while the last sync and checkpoint attempts
      succeeded. A successful flush restores that. */
  lemma GroupCrash(p: PersistencePolicy, image: Disk) returns (from: nat, to: nat)
    requires p.Valid() && p.mode.Group? && p.DataBounded() && p.AckBounded() && !p.dataFailed && !p.ackFailed
    requires Crash(p.outbox.fs.disk, image)
    ensures WithinExposure(p.outbox.codec, p.mode.group, p.outbox.Queue(), image, from, to)
  {
    hide Inv, Abs, Crash, Load, ReadsAs, Covered, QueueSpec.Queue.Recovers, FileSystem.Valid, Blob, Tracks;
    var o := p.outbox;
    var pending := CrashRefinesQueue(o.codec, o.State(), o.syncGeneration, o.generation, image);
    from, to := ExposureBounded(o.codec, o.Queue(), p.unsyncedMessages, p.unsyncedBytes, p.ackedSinceCheckpoint, pending);
  }

  /** BOUNDED EXPOSURE WITHOUT FAULTS. As long as no system call failed since the policy
      was built, the bounds hold after every sequence of calls. */
  lemma FaultFreeCrash(p: PersistencePolicy, image: Disk) returns (from: nat, to: nat)
    requires p.Valid() && p.mode.Group? && p.DataBounded() && p.AckBounded() && p.outbox.fs.faults == p.born
    requires Crash(p.outbox.fs.disk, image)
    ensures WithinExposure(p.outbox.codec, p.mode.group, p.outbox.Queue(), image, from, to)
  {
    hide Inv, Abs, Crash, WithinExposure, Covered, FileSystem.Valid, Tracks, PersistencePolicy.DataBounded;
    hide PersistencePolicy.AckBounded, Outbox.Valid;
    from, to := GroupCrash(p, image);
  }
}
