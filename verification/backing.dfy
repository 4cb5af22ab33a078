/** What the Outbox's queue holds for a Sender: the FIFO it backs and the messages that
    left it but may come back after a crash. */
module Backing {
  import opened Wrappers
  import opened Framing
  import opened Recovery
  import opened Storage
  import opened QueueSpec
  import opened OutboxSteps

  /** What a crash may leave inside a call of a Sender with FIFO `fifo` that may store
      `more` and, with `ask`, remove the head. */
  function Reach(q: Queue, fifo: seq<Envelope>, more: seq<Envelope>, ask: bool): Bounds
    requires q.head <= |q.items|
  {
    Bounds(q.items[..q.head] + fifo + more, q.heads + {q.head} + if ask then {q.head + 1} else {})
  }

  /** The Outbox holds a prefix of the FIFO. */
  lemma HoldingReached(q: Queue, fifo: seq<Envelope>, ask: bool)
    requires q.Ok() && q.Pending() <= fifo
    ensures Inside(Resting(q), Reach(q, fifo, [], ask)) && Inside(Holding(q, ask), Reach(q, fifo, [], ask))
  {
    hide DistinctIds;
    assert q.items == q.items[..q.head] + q.Pending();
  }

  /** A call that neither removes nor appends what is not in the FIFO. */
  lemma SameReach(q: Queue, q': Queue, fifo: seq<Envelope>)
    requires q.head == q'.head <= |q.items| <= |q'.items| && q'.items[..q.head] == q.items[..q.head]
    requires q'.heads <= q.heads + {q.head}
    ensures Narrows(Reach(q', fifo, [], false), Reach(q, fifo, [], false))
  {
  }

  lemma SyncedReach(q: Queue, q': Queue, done: bool, fifo: seq<Envelope>)
    requires Synced(q, q', done) && q.head <= |q.items|
    ensures Narrows(Reach(q', fifo, [], false), Reach(q, fifo, [], false))
  {
  }

  /** Part of a spill batch: the disk-backed messages and the first `k` in RAM are stored,
      the first `m` are to be. */
  lemma SpillReached(q: Queue, disk: seq<Envelope>, ram: seq<Envelope>, k: nat, m: nat)
    requires k <= |ram| && m <= |ram| && q.head <= |q.items| && q.Pending() == disk + ram[..k] && DistinctIds(disk + ram)
    ensures Inside(Growing(q, NewOnes(ram[..m], Ids(q.Pending()))), Reach(q, disk + ram, [], false))
  {
    NewOnesOfPrefix(disk, ram, k, m);
    hide DistinctIds, NewOnes, Ids;
    Regrouped(q.items[..q.head], disk, ram, k, m);
    assert q.items == q.items[..q.head] + (disk + ram[..k]);
  }

  lemma Regrouped(gone: seq<Envelope>, disk: seq<Envelope>, ram: seq<Envelope>, k: nat, m: nat)
    requires k <= |ram| && m <= |ram|
    ensures (gone + (disk + ram[..k])) + (if m <= k then [] else ram[k..m]) <= gone + (disk + ram) + []
  {
    var added := if m <= k then [] else ram[k..m];
    assert ram[..k] + added == ram[..if m <= k then k else m];
    assert (gone + (disk + ram[..k])) + added == gone + (disk + (ram[..k] + added));
  }

  lemma GrewReach(q: Queue, q': Queue, added: seq<Envelope>, count: nat, fifo: seq<Envelope>)
    requires Grew(q, q', added, count) && q.head <= |q.items|
    ensures Narrows(Reach(q', fifo, [], false), Reach(q, fifo, [], false))
  {
    assert q'.items[..q.head] == q.items[..q.head];
  }

  /** An append of a new message behind a wholly stored FIFO. */
  lemma AppendReached(q: Queue, e: Envelope)
    requires q.head <= |q.items|
    ensures Inside(Growing(q, [e]), Reach(q, q.Pending(), [e], false))
  {
    assert q.items == q.items[..q.head] + q.Pending();
  }

  /** The head is to be removed. */
  lemma AskedReach(q: Queue, fifo: seq<Envelope>)
    requires q.head <= |q.items|
    ensures Inside(Reach(q, fifo, [], false), Reach(q, fifo, [], true))
  {
    hide DistinctIds;
  }

  lemma NarrowsAsked(q: Queue, q': Queue, fifo: seq<Envelope>)
    requires q.head == q'.head <= |q.items| && q'.head <= |q'.items|
    requires Narrows(Reach(q', fifo, [], false), Reach(q, fifo, [], false))
    ensures Narrows(Reach(q', fifo, [], true), Reach(q, fifo, [], true))
  {
  }

  /** More may be stored. */
  lemma LongerReach(q: Queue, fifo: seq<Envelope>, e: Envelope)
    requires q.head <= |q.items|
    ensures Reach(q, fifo, [e], false) == Longer(Reach(q, fifo, [], false), e)
    ensures Inside(Reach(q, fifo, [], false), Reach(q, fifo, [e], false))
    ensures Narrows(Reach(q, fifo + [e], [], false), Reach(q, fifo, [e], false))
  {
    assert q.items[..q.head] + fifo + [] + [e] == q.items[..q.head] + fifo + [e];
    assert q.items[..q.head] + (fifo + [e]) + [] == q.items[..q.head] + fifo + [e];
  }

  function Longer(b: Bounds, e: Envelope): Bounds {
    b.(plan := b.plan + [e])
  }

  lemma NarrowsLonger(a: Bounds, b: Bounds, e: Envelope)
    requires Narrows(a, b)
    ensures Narrows(Longer(a, e), Longer(b, e))
  {
  }

  /** Before the live head are the last of the messages that `left` the FIFO; only a
      removal that was asked for may be saved ahead of it. */
  ghost predicate Replays(q: Queue, left: seq<Envelope>, asking: bool) {
    && q.Ok() && q.head - q.saved <= |left|
    && q.items[q.saved..q.head] == left[|left| - (q.head - q.saved)..]
    && (q.asked > q.head ==> asking)
  }

  /** With `half`, the checkpoint past the live head was renamed into place, but its
      removal failed. Outside GroupMode everything else is durable and saved. */
  ghost predicate Backs(q: Queue, volatile: bool, left: seq<Envelope>, asking: bool, half: bool) {
    && Replays(q, left, asking)
    && (volatile ==> !half)
    && (!volatile ==> q.saved == q.head && q.durable == |q.items|)
    && (!volatile ==> if half then q.newest == q.head + 1 else q.heads == {q.head})
  }

  /** What a crash of a wedged Outbox follows: it holds a prefix of `fifo`. */
  ghost predicate Salvages(q: Queue, left: seq<Envelope>, asking: bool, fifo: seq<Envelope>) {
    Replays(q, left, asking) && q.Pending() <= fifo
  }

  lemma OneHeadOnly(q: Queue, q': Queue)
    requires q'.Ok() && q'.heads <= q.heads && q.heads == {q.head} && q'.head == q.head
    ensures q'.heads == {q'.head}
  {
    assert q'.newest in q'.heads;
  }

  lemma ReplaysGrew(q: Queue, q': Queue, added: seq<Envelope>, count: nat, left: seq<Envelope>, asking: bool)
    requires Replays(q, left, asking) && Grew(q, q', added, count) && q'.Ok()
    ensures Replays(q', left, asking)
  {
    hide DistinctIds;
    assert q'.items[q'.saved..q.head] == q.items[q.saved..q.head][q'.saved - q.saved..];
  }

  lemma BacksGrew(q: Queue, q': Queue, added: seq<Envelope>, count: nat, volatile: bool, left: seq<Envelope>, asking: bool, half: bool)
    requires Backs(q, volatile, left, asking, half) && Grew(q, q', added, count) && q'.Ok()
    requires !volatile ==> q'.durable == |q'.items|
    ensures Backs(q', volatile, left, asking, half)
  {
    hide DistinctIds;
    ReplaysGrew(q, q', added, count, left, asking);
    if !volatile && !half { OneHeadOnly(q, q'); }
  }

  lemma BacksSynced(q: Queue, q': Queue, done: bool, volatile: bool, left: seq<Envelope>, asking: bool, half: bool)
    requires Backs(q, volatile, left, asking, half) && Synced(q, q', done) && q'.Ok()
    ensures Backs(q', volatile, left, asking, half)
  {
    hide DistinctIds;
  }

  lemma BacksSettled(q: Queue, q': Queue, left: seq<Envelope>, asking: bool)
    requires Backs(q, true, left, asking, false) && Settles(q, q') && q'.Ok()
    ensures Backs(q', true, left, asking, false)
  {
    hide DistinctIds;
    assert q'.items[q'.saved..q.head] == q.items[q.saved..q.head][q'.saved - q.saved..];
  }

  lemma ReplaysAppendedOne(q: Queue, q': Queue, e: Envelope, accepted: bool, appended: bool, left: seq<Envelope>, asking: bool)
    requires Replays(q, left, asking) && AppendedOne(q, q', e, accepted, appended) && q'.Ok()
    ensures Replays(q', left, asking) && (appended || q'.items == q.items)
    ensures q.head == q'.head && (q'.saved == q.saved || q'.saved == q.head)
  {
    hide DistinctIds, Ids;
    var gap := q.items[q.saved..q.head];
    assert q'.items[q'.saved..q.head] == gap[q'.saved - q.saved..];
  }

  /** One message was appended through the policy, or refused. */
  lemma BacksAppendedOne(q: Queue, q': Queue, e: Envelope, accepted: bool, appended: bool, volatile: bool,
                         left: seq<Envelope>, asking: bool, half: bool)
    requires Backs(q, volatile, left, asking, half) && AppendedOne(q, q', e, accepted, appended) && q'.Ok()
    requires !volatile ==> q'.durable == |q'.items| && q'.newest == q.newest && q'.heads <= q.heads
    ensures Backs(q', volatile, left, asking, half)
  {
    ReplaysAppendedOne(q, q', e, accepted, appended, left, asking);
    hide DistinctIds, Ids, Replays, AppendedOne, QueueSpec.Queue.Ok;
    if !volatile && !half { OneHeadOnly(q, q'); }
  }

  /** The head left the queue, or its removal failed. */
  lemma BacksCompleted(q: Queue, q': Queue, e: Envelope, r: Removal, renamed: bool, volatile: bool,
                       left: seq<Envelope>, asking: bool, half: bool)
    requires Backs(q, volatile, left, asking, half) && CompletedOne(q, q', e, r, renamed) && r != NotHead && q'.Ok()
    requires volatile ==> r == Advanced
    requires !volatile && r == Advanced ==> q'.heads == {q'.head} && q'.saved == q'.head && q'.durable == |q'.items|
    ensures r == Advanced ==> Backs(q', volatile, left + [e], false, false)
    ensures r == RemovalFailed ==> Backs(q', volatile, left, true, half || renamed)
  {
    hide DistinctIds;
    if r == Advanced {
      var more := left + [e];
      assert q.items[q.head] == e;
      assert q.items[q.saved..q.head + 1] == q.items[q.saved..q.head] + [e];
      assert q'.items[q'.saved..q'.head] == q.items[q.saved..q.head + 1][q'.saved - q.saved..];
    }
  }

  /** A half-removed head is still pending. */
  lemma HalfIsPending(q: Queue, volatile: bool, left: seq<Envelope>, asking: bool, half: bool)
    requires Backs(q, volatile, left, asking, half) && q.Pending() == []
    ensures !half
  {
    hide DistinctIds;
  }

  /** The head leaves from RAM, which touches no record. */
  lemma BacksRamLeft(q: Queue, e: Envelope, volatile: bool, left: seq<Envelope>, asking: bool)
    requires Backs(q, volatile, left, asking, false) && !volatile && q.Pending() == []
    ensures Backs(q, volatile, left + [e], false, false)
  {
    hide DistinctIds;
  }

  /** An Outbox just opened. */
  lemma BacksOpened(q: Queue, volatile: bool)
    requires q.Ok() && q.durable == |q.items| && q.heads == {q.head} && q.saved == q.head == q.asked
    ensures Backs(q, volatile, [], false, false)
  {
    hide DistinctIds;
  }

  /** What a wedged spill left: some more of the RAM-owned messages may be stored. */
  lemma SpillSalvages(q: Queue, q': Queue, disk: seq<Envelope>, ram: seq<Envelope>, k: nat, m: nat, count: nat,
                      left: seq<Envelope>, asking: bool)
    requires k <= |ram| && m <= |ram| && q.head <= |q.items| && q.Pending() == disk + ram[..k] && DistinctIds(disk + ram)
    requires Replays(q, left, asking) && q'.Ok()
    requires Grew(q, q', NewOnes(ram[..m], Ids(q.Pending())), count)
    ensures Salvages(q', left, asking, disk + ram)
  {
    StrandStores(q, q', disk, ram, k, m, count);
    ReplaysGrew(q, q', NewOnes(ram[..m], Ids(q.Pending())), count, left, asking);
  }

  /** What a wedged append left: the new message may be stored. */
  lemma AppendSalvages(q: Queue, q': Queue, e: Envelope, fifo: seq<Envelope>, left: seq<Envelope>, asking: bool)
    requires Replays(q, left, asking) && MayHold(q, q', e) && q'.Ok() && q.Pending() == fifo
    ensures Salvages(q', left, asking, fifo + [e])
  {
    var n: nat :| n <= 1 && Grew(q, q', [e], n);
    ReplaysGrew(q, q', [e], n, left, asking);
    assert [e][..0] == [] && [e][..1] == [e];
  }
}
