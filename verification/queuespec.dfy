/** The Outbox as its callers see it: one append-only list of envelopes with a
    live head, a saved head and a durable length. */
module QueueSpec {
  import opened Wrappers
  import opened Framing
  import opened Recovery

  /** `items` is everything appended since the directory was opened; `head` the
      live FIFO head; `saved` the head known to be checkpointed; `heads` the heads
      a crash may leave, of which `newest` is the one last renamed into place; `asked`
      the furthest head a removal asked to persist; `durable` the length that survives
      any crash. `syncs` and `saves` are the two generation counters. */
  datatype Queue = Queue(
    items: seq<Envelope>,
    head: nat,
    saved: nat,
    durable: nat,
    heads: set<nat>,
    newest: nat,
    asked: nat,
    syncs: nat,
    saves: nat)
  {
    ghost predicate Ok() {
      && saved <= head <= asked <= |items| && asked <= head + 1
      && saved <= durable <= |items|
      && newest in heads && (forall h | h in heads :: saved <= h <= asked && h <= durable)
      && DistinctIds(items[saved..])
    }

    function Pending(): seq<Envelope>
      requires head <= |items|
    {
      items[head..]
    }

    /** What reopening may return: the items from a checkpoint that may survive to
        a length that keeps the durable ones. */
    ghost predicate Recovers(pending: seq<Envelope>) {
      exists from, to: nat ::
        from in heads && from <= to && durable <= to <= |items| && pending == items[from..to]
    }
  }

  /** What `remove_oldest` does: the head is advanced, does not match, or OutboxError. */
  datatype Removal = Advanced | NotHead | RemovalFailed

  /** The envelopes of a batch that are neither repeated nor already known. */
  function NewOnes(batch: seq<Envelope>, known: set<Id>): seq<Envelope> {
    if batch == [] then []
    else if batch[0].id in known then NewOnes(batch[1..], known)
    else [batch[0]] + NewOnes(batch[1..], known + {batch[0].id})
  }

  function Ids(es: seq<Envelope>): set<Id> {
    set i | 0 <= i < |es| :: es[i].id
  }

  // ---- The operations ---------------------------------------------------------

  /** `sync()`. */
  ghost predicate Synced(q: Queue, q': Queue, done: bool) {
    && q' == q.(durable := q'.durable, syncs := q'.syncs)
    && q.durable <= q'.durable <= |q.items| && q.syncs <= q'.syncs
    && (done || q'.syncs != q.syncs ==> q'.durable == |q.items|)
  }

  /** `checkpoint()`. */
  ghost predicate Checkpointed(q: Queue, q': Queue, done: bool) {
    && q'.items == q.items && q'.head == q.head && q'.asked == q.asked
    && q.durable <= q'.durable <= |q.items| && q.syncs <= q'.syncs && q.saves <= q'.saves
    && q'.heads <= q.heads + {q.head}
    && (q'.syncs != q.syncs ==> q'.durable == |q.items|)
    && (done ==> q'.saved == q.head && q'.durable == |q.items|)
    && (done && q'.saves != q.saves ==> q'.heads == {q.head})
    && (!done ==> q'.saved == q.saved && q'.saves == q.saves)
  }

  /** `remove_oldest(expected, sync)` when the head matches. `renamed` says that a
      checkpoint past the head was renamed into place but the directory fsync failed. */
  ghost predicate Removed(q: Queue, q': Queue, sync: bool, done: bool, renamed: bool) {
    && q.head < |q.items| && q'.items == q.items
    && q.durable <= q'.durable <= |q.items| && q.syncs <= q'.syncs && q.saves <= q'.saves
    && (q'.syncs != q.syncs ==> q'.durable == |q.items|)
    && q'.asked == q.head + 1
    && (done && sync ==> q'.head == q.head + 1 == q'.saved && q'.heads == {q.head + 1} && q'.durable == |q.items|)
    && (done && !sync ==> q' == q.(head := q.head + 1, asked := q.head + 1))
    && (!done ==> sync && q'.head == q.head && q'.saved == q.saved && q'.saves == q.saves)
    && (renamed ==> !done && sync)
    && (!done ==> q'.heads == q.heads + (if renamed then {q.head + 1} else {})
                  && q'.newest == if renamed then q.head + 1 else q.newest)
  }

  /** `count` of the records `added` joined the queue. A reused completed ID forces a
      checkpoint first, so the saved head may have moved up to the live head. */
  ghost predicate Grew(q: Queue, q': Queue, added: seq<Envelope>, count: nat) {
    && count <= |added| && q'.items == q.items + added[..count] && q'.head == q.head && q'.asked == q.asked
    && q.durable <= q'.durable <= |q'.items| && q'.heads <= q.heads + {q.head}
    && (q'.saved == q.saved || q'.saved == q.head)
    && (q.saved == q.head ==> q'.newest == q.newest && q'.heads <= q.heads)
  }

  /** `e` joined the queue, or did not. */
  ghost predicate MayHold(q: Queue, q': Queue, e: Envelope) {
    Grew(q, q', [e], 0) || Grew(q, q', [e], 1)
  }

  /** `append_many(batch, sync)`: `added` are the records of the batch that had to
      be written, `count` how many of them were. */
  ghost predicate Appended(q: Queue, q': Queue, added: seq<Envelope>, count: nat, sync: bool, done: bool) {
    && Grew(q, q', added, count) && q.syncs <= q'.syncs && q.saves <= q'.saves
    && (q'.saves != q.saves ==> q'.saved == q.head && q'.heads == {q.head})
    && (q'.syncs != q.syncs ==> q'.durable >= |q.items|)
    && (if done then count == |added| else count < |added| || added == [])
    && (done && sync ==> q'.durable == |q'.items|)
    && (sync && q.durable == |q.items| ==> q'.durable == |q'.items|)
  }

  // ---- Batches ------------------------------------------------------------------

  lemma {:induction false} NewOnesSnoc(batch: seq<Envelope>, e: Envelope, known: set<Id>)
    ensures NewOnes(batch + [e], known)
         == NewOnes(batch, known) + if e.id in known + Ids(batch) then [] else [e]
    decreases |batch|
  {
    if batch == [] {
      assert [] + [e] == [e] && [e][1..] == [];
    } else {
      var b, rest := batch[0], batch[1..];
      assert (batch + [e])[1..] == rest + [e];
      IdsCons(batch);
      if b.id in known {
        NewOnesSnoc(rest, e, known);
      } else {
        NewOnesSnoc(rest, e, known + {b.id});
      }
    }
  }

  lemma IdsCons(es: seq<Envelope>)
    requires es != []
    ensures Ids(es) == {es[0].id} + Ids(es[1..])
  {
    forall id | id in Ids(es)
      ensures id in {es[0].id} + Ids(es[1..])
    {
      var i :| 0 <= i < |es| && es[i].id == id;
      if i > 0 { assert es[1..][i - 1].id == id; }
    }
    forall id | id in Ids(es[1..])
      ensures id in Ids(es)
    {
      var i :| 0 <= i < |es[1..]| && es[1..][i].id == id;
      assert es[i + 1].id == id;
    }
  }

  /** Appending `es` keeps IDs distinct from the saved head on. */
  ghost predicate FreshFor(q: Queue, es: seq<Envelope>)
    requires q.saved <= |q.items|
  {
    DistinctIds((q.items + es)[q.saved..])
  }

  /** Envelopes that are distinct among themselves and from every record at or
      after the saved head are fresh. */
  lemma FreshBatch(q: Queue, es: seq<Envelope>)
    requires q.Ok() && DistinctIds(es)
    requires Ids(es) !! Ids(q.items[q.saved..])
    ensures FreshFor(q, es)
  {
    var all := (q.items + es)[q.saved..];
    var old_ := q.items[q.saved..];
    assert all == old_ + es;
    forall i, j | 0 <= i < j < |all|
      ensures all[i].id != all[j].id
    {
      if i < |old_| <= j {
        assert old_[i].id in Ids(old_) && es[j - |old_|].id in Ids(es);
      }
    }
  }

  lemma FreshPrefix(q: Queue, a: seq<Envelope>, b: seq<Envelope>)
    requires q.saved <= |q.items| && FreshFor(q, a + b)
    ensures FreshFor(q, a)
    ensures (q.items + a) + b == q.items + (a + b)
  {
    var all, part := (q.items + (a + b))[q.saved..], (q.items + a)[q.saved..];
    forall i, j | 0 <= i < j < |part|
      ensures part[i].id != part[j].id
    {
      assert part[i] == all[i] && part[j] == all[j];
    }
  }

  /** What the new envelopes of a batch are: distinct, unknown, and all of the
      batch that was not known. */
  lemma {:induction false} NewOnesMeaning(batch: seq<Envelope>, known: set<Id>)
    ensures DistinctIds(NewOnes(batch, known)) && Ids(NewOnes(batch, known)) !! known
    ensures Ids(NewOnes(batch, known)) + known == Ids(batch) + known
    ensures forall e | e in NewOnes(batch, known) :: e in batch
    decreases |batch|
  {
    if batch != [] {
      var b, rest := batch[0], batch[1..];
      IdsCons(batch);
      if b.id in known {
        NewOnesMeaning(rest, known);
      } else {
        NewOnesMeaning(rest, known + {b.id});
        var tail := NewOnes(rest, known + {b.id});
        IdsCons([b] + tail);
        assert ([b] + tail)[1..] == tail;
        forall i | 0 <= i < |tail|
          ensures tail[i].id != b.id
        {
          assert tail[i].id in Ids(tail);
        }
      }
    }
  }

  /** No ID of the batch names two different contents, in the batch or pending. */
  ghost predicate Consistent(batch: seq<Envelope>, pending: seq<Envelope>) {
    && (forall i, j | 0 <= i < j < |batch| :: batch[i].id == batch[j].id ==> batch[i] == batch[j])
    && (forall i, k | 0 <= i < |batch| && 0 <= k < |pending| :: batch[i].id == pending[k].id ==> batch[i] == pending[k])
  }

  /** After the new envelopes of a consistent batch joined the queue, the whole
      batch is pending, each envelope with its own content. */
  lemma BatchIsPending(batch: seq<Envelope>, pending: seq<Envelope>)
    requires Consistent(batch, pending)
    ensures forall e | e in batch :: e in pending + NewOnes(batch, Ids(pending))
  {
    NewOnesMeaning(batch, Ids(pending));
    var added := NewOnes(batch, Ids(pending));
    forall i | 0 <= i < |batch|
      ensures batch[i] in pending + added
    {
      var e := batch[i];
      assert e.id in Ids(batch);
      if e.id in Ids(pending) {
        var k :| 0 <= k < |pending| && pending[k].id == e.id;
        assert e == pending[k];
      } else {
        var k :| 0 <= k < |added| && added[k].id == e.id;
        assert added[k] in added;
        var j :| 0 <= j < |batch| && batch[j] == added[k];
        if j < i { assert batch[j] == e; } else if i < j { assert e == batch[j]; }
      }
    }
  }

  // ---- The chunks of one batch -----------------------------------------------------

  /** `count` of the envelopes to add were written; nothing else moved but what
      fsyncs and directory barriers made durable. */
  ghost predicate Wrote(q: Queue, q': Queue, added: seq<Envelope>, count: nat) {
    && count <= |added|
    && q' == q.(items := q.items + added[..count], durable := q'.durable, heads := q'.heads, syncs := q'.syncs)
    && q'.heads <= q.heads && q.durable <= q'.durable <= |q'.items| && q.syncs <= q'.syncs
    && (q'.syncs != q.syncs ==> q'.durable >= |q.items|)
  }

  lemma WroteNothing(q: Queue, added: seq<Envelope>)
    requires q.durable <= |q.items|
    ensures Wrote(q, q, added, 0)
  {
    assert q.items + added[..0] == q.items;
  }

  lemma WroteMore(q: Queue, q1: Queue, q2: Queue, added: seq<Envelope>, n: nat, m: nat)
    requires Wrote(q, q1, added, n) && n <= |added| && Wrote(q1, q2, added[n..], m)
    ensures Wrote(q, q2, added, n + m)
  {
    assert added[..n + m] == added[..n] + added[n..][..m];
    assert q.items + added[..n + m] == (q.items + added[..n]) + added[n..][..m];
  }

  lemma WroteKeepsFull(q: Queue, q': Queue, added: seq<Envelope>)
    requires Wrote(q, q', added, 0) && q.durable == |q.items|
    ensures q'.durable == |q'.items|
  {
  }

  /** What is left of a fresh batch is fresh for the queue that took the rest. */
  lemma FreshRest(q: Queue, q1: Queue, added: seq<Envelope>, n: nat)
    requires q.saved <= |q.items| && FreshFor(q, added) && Wrote(q, q1, added, n)
    ensures q1.saved <= |q1.items| && FreshFor(q1, added[n..]) && FreshFor(q, added[..n])
  {
    assert added == added[..n] + added[n..];
    FreshPrefix(q, added[..n], added[n..]);
  }

  /** Envelopes `append_many` can frame and that agree with what is pending. */
  ghost predicate Acceptable(batch: seq<Envelope>, pending: seq<Envelope>) {
    Consistent(batch, pending) && forall i | 0 <= i < |batch| :: |batch[i].body| <= MAX_RECORD_BYTES
  }

  ghost predicate Agrees(es: seq<Envelope>, e: Envelope) {
    forall i | 0 <= i < |es| :: es[i].id == e.id ==> es[i] == e
  }

  lemma AcceptableNothing(pending: seq<Envelope>)
    ensures Acceptable([], pending)
  {
  }

  /** One more envelope of a batch. `earlier` is its content earlier in the batch
      and `existing` its pending content, if any. */
  lemma AcceptableSnoc(batch: seq<Envelope>, e: Envelope, pending: seq<Envelope>)
    requires Acceptable(batch, pending)
    ensures Acceptable(batch + [e], pending) <==> |e.body| <= MAX_RECORD_BYTES && Agrees(batch, e) && Agrees(pending, e)
  {
    var all := batch + [e];
    assert all[|batch|] == e;
    if Acceptable(all, pending) {
      forall i | 0 <= i < |batch|
        ensures batch[i].id == e.id ==> batch[i] == e
      {
        assert all[i] == batch[i];
      }
    }
  }

  lemma NeverAcceptable(batch: seq<Envelope>, n: nat, pending: seq<Envelope>)
    requires n <= |batch| && !Acceptable(batch[..n], pending)
    ensures !Acceptable(batch, pending)
  {
  }

  lemma PendingDistinctIds(q: Queue)
    requires q.Ok()
    ensures DistinctIds(q.Pending())
  {
    var es, off := q.items[q.saved..], q.head - q.saved;
    forall i, j | 0 <= i < j < |q.Pending()|
      ensures q.Pending()[i].id != q.Pending()[j].id
    {
      assert es[i + off] == q.Pending()[i] && es[j + off] == q.Pending()[j];
    }
  }

  /** The pending envelope with a given ID is the only one. */
  lemma OnlyPending(q: Queue, k: nat, e: Envelope)
    requires q.Ok() && q.head + k < |q.items| && q.items[q.head + k].id == e.id
    ensures Agrees(q.items[q.head..], e) <==> q.items[q.head + k].body == e.body
  {
    PendingDistinctIds(q);
    assert q.Pending()[k] == q.items[q.head + k];
  }

  lemma NotPending(pending: seq<Envelope>, e: Envelope)
    requires e.id !in Ids(pending)
    ensures Agrees(pending, e)
  {
  }

  /** `batch_by_id` maps the IDs of the batch so far to their contents. */
  ghost predicate Seen(batch: seq<Envelope>, m: map<Id, bytes>) {
    m.Keys == Ids(batch) && forall j | 0 <= j < |batch| :: batch[j].id in m && m[batch[j].id] == batch[j].body
  }

  lemma SeenNothing()
    ensures Seen([], map[])
  {
  }

  lemma SeenFirst(batch: seq<Envelope>, m: map<Id, bytes>, e: Envelope)
    requires Seen(batch, m) && e.id !in m
    ensures Seen(batch + [e], m[e.id := e.body]) && Agrees(batch, e) && e.id !in Ids(batch)
  {
    IdsSnoc(batch, e);
    NotPending(batch, e);
  }

  lemma SeenAgain(batch: seq<Envelope>, m: map<Id, bytes>, e: Envelope, pending: seq<Envelope>)
    requires Seen(batch, m) && e.id in m && Acceptable(batch, pending)
    ensures Agrees(batch, e) <==> m[e.id] == e.body
    ensures m[e.id] == e.body ==> Seen(batch + [e], m) && Agrees(pending, e) && |e.body| <= MAX_RECORD_BYTES
    ensures e.id in Ids(batch)
  {
    IdsSnoc(batch, e);
    var j :| 0 <= j < |batch| && batch[j].id == e.id;
  }

  lemma IdsSnoc(es: seq<Envelope>, e: Envelope)
    ensures Ids(es + [e]) == Ids(es) + {e.id}
  {
    forall id | id in Ids(es) + {e.id}
      ensures id in Ids(es + [e])
    {
      if id in Ids(es) {
        var i :| 0 <= i < |es| && es[i].id == id;
        assert (es + [e])[i].id == id;
      } else {
        assert (es + [e])[|es|].id == id;
      }
    }
  }

  lemma NewOnesNothing(known: set<Id>)
    ensures NewOnes([], known) == [] && Ids([]) == {}
  {
  }

  // ---- Putting one append together ---------------------------------------------------

  /** Before deduplication: nothing, or a checkpoint because an ID removed since the
      last one is reused. */
  ghost predicate Prepared(q: Queue, q1: Queue) {
    q1 == q || (q.saved < q.head && Checkpointed(q, q1, true))
  }

  lemma PreparedWrote(q: Queue, q1: Queue, q2: Queue, added: seq<Envelope>, count: nat, sync: bool, done: bool)
    requires q.Ok() && q1.Ok() && q2.Ok() && Prepared(q, q1) && Wrote(q1, q2, added, count)
    requires if done then count == |added| && (sync ==> q2.durable == |q2.items|) else count < |added| || added == []
    requires sync && q1.durable == |q1.items| ==> q2.durable == |q2.items|
    ensures Appended(q, q2, added, count, sync, done)
  {
    var h :| h in q2.heads;
  }

  lemma PreparedGrew(q: Queue, q1: Queue, q2: Queue, added: seq<Envelope>, count: nat)
    requires q.Ok() && q1.Ok() && q2.Ok() && Prepared(q, q1) && Wrote(q1, q2, added, count)
    ensures Grew(q, q2, added, count)
  {
  }

  lemma PreparedFailed(q: Queue, q1: Queue, added: seq<Envelope>, sync: bool)
    requires Checkpointed(q, q1, false) && q1.Ok() && q.saved < q.head
    ensures Appended(q, q1, added, 0, sync, false)
  {
    assert q.items + added[..0] == q.items;
  }

  lemma PreparedSynced(q: Queue, q1: Queue, q2: Queue, sync: bool, done: bool)
    requires q.Ok() && q1.Ok() && q2.Ok() && Prepared(q, q1)
    requires q2 == q1 || Synced(q1, q2, done)
    requires done && sync ==> q2.durable == |q2.items|
    ensures Appended(q, q2, [], 0, sync, done)
  {
    var none: seq<Envelope> := [];
    assert q.items + none[..0] == q.items;
    var h :| h in q2.heads;
  }

  lemma PreparedPending(q: Queue, q1: Queue)
    requires Prepared(q, q1) && q.head <= |q.items|
    ensures q1.items == q.items && q1.head == q.head && q1.Pending() == q.Pending()
  {
  }

  lemma DecodingNewOnes(c: Codec, batch: seq<Envelope>, pending: seq<Envelope>)
    requires forall e | e in batch :: c.decode(e.body) == Some(e.id)
    requires Acceptable(batch, pending)
    ensures AllStorable(c, NewOnes(batch, Ids(pending)))
  {
    NewOnesMeaning(batch, Ids(pending));
    var added := NewOnes(batch, Ids(pending));
    forall i | 0 <= i < |added|
      ensures Storable(c, added[i])
    {
      assert added[i] in added;
    }
  }

  lemma AppendedPending(q: Queue, q': Queue, batch: seq<Envelope>, sync: bool)
    requires q.head <= |q.items| && Acceptable(batch, q.Pending())
    requires Appended(q, q', NewOnes(batch, Ids(q.Pending())), |NewOnes(batch, Ids(q.Pending()))|, sync, true)
    ensures q'.head <= |q'.items| && q'.Pending() == q.Pending() + NewOnes(batch, Ids(q.Pending()))
    ensures forall e | e in batch :: e in q'.Pending()
  {
    BatchIsPending(batch, q.Pending());
  }

  lemma PreparedNothing(q: Queue)
    ensures Prepared(q, q) && NewOnes([], Ids(q.items)) == []
  {
  }

  lemma EmptyBatch(q: Queue)
    requires q.head <= |q.items|
    ensures NewOnes([], Ids(q.Pending())) == [] && Acceptable([], q.Pending())
  {
  }

  lemma PreparedWroteNothing(q: Queue, q1: Queue, added: seq<Envelope>, sync: bool)
    requires q.Ok() && q1.Ok() && Prepared(q, q1)
    ensures Appended(q, q1, added, 0, sync, false)
  {
    WroteNothing(q1, added);
    PreparedWrote(q, q1, q1, added, 0, sync, false);
  }

  lemma NewOne(e: Envelope, known: set<Id>)
    ensures NewOnes([e], known) == if e.id in known then [] else [e]
  {
    assert [e][1..] == [];
    assert [e] + [] == [e];
  }

  lemma AcceptableOne(e: Envelope, pending: seq<Envelope>)
    requires Agrees(pending, e)
    ensures Acceptable([e], pending) <==> |e.body| <= MAX_RECORD_BYTES
  {
    AcceptableNothing(pending);
    AcceptableSnoc([], e, pending);
    assert [] + [e] == [e];
  }

  // ---- Exposure -------------------------------------------------------------------

  /** A call that neither appends nor removes. */
  ghost predicate Settles(q: Queue, q': Queue) {
    && q'.items == q.items && q'.head == q.head && q'.asked == q.asked
    && q.durable <= q'.durable && (q'.saved == q.saved || q'.saved == q.head) && q'.heads <= q.heads + {q.head}
  }

  /** How much of the queue a crash may lose or replay is at most what the counters say. */
  ghost predicate Covered(c: Codec, q: Queue, messages: nat, byteCount: nat, acked: nat) {
    && q.Ok() && q.asked == q.head
    && |q.items| - q.durable <= messages
    && |Blob(c, q.items[q.durable..])| <= byteCount
    && q.head - q.saved <= acked
  }

  lemma BlobTail(c: Codec, es: seq<Envelope>, a: nat, b: nat)
    requires a <= b <= |es|
    ensures |Blob(c, es[b..])| <= |Blob(c, es[a..])|
  {
    assert es[a..] == es[a..b] + es[b..];
    BlobConcat(c, es[a..b], es[b..]);
  }

  lemma BlobTailSnoc(c: Codec, es: seq<Envelope>, e: Envelope, a: nat)
    requires a <= |es|
    ensures |Blob(c, (es + [e])[a..])| == |Blob(c, es[a..])| + |Frame(c, e)|
    ensures |Blob(c, (es + [e])[|es|..])| == |Frame(c, e)|
  {
    assert (es + [e])[a..] == es[a..] + [e] && (es + [e])[|es|..] == [] + [e];
    assert [e][1..] == [];
    BlobConcat(c, es[a..], [e]);
    BlobConcat(c, [], [e]);
  }

  lemma CoveredSettles(c: Codec, q: Queue, q': Queue, messages: nat, byteCount: nat, acked: nat)
    requires Covered(c, q, messages, byteCount, acked) && Settles(q, q') && q'.Ok()
    ensures Covered(c, q', messages, byteCount, acked)
    ensures q'.durable == |q'.items| ==> Covered(c, q', 0, 0, acked)
    ensures q'.saved == q'.head ==> Covered(c, q', messages, byteCount, 0)
    ensures q'.durable == |q'.items| && q'.saved == q'.head ==> Covered(c, q', 0, 0, 0)
  {
    BlobTail(c, q.items, q.durable, q'.durable);
  }

  /** One record was appended without an explicit sync. When the Outbox synced or
      checkpointed by itself, only the new record is exposed. */
  lemma CoveredAppends(c: Codec, q: Queue, q': Queue, e: Envelope, messages: nat, byteCount: nat, acked: nat)
    requires Covered(c, q, messages, byteCount, acked) && Appended(q, q', [e], 1, false, true) && q'.Ok()
    ensures Covered(c, q', (if q'.syncs != q.syncs then 0 else messages) + 1,
                    (if q'.syncs != q.syncs then 0 else byteCount) + |Frame(c, e)|,
                    if q'.saves != q.saves then 0 else acked)
  {
    hide Frame;
    assert [e][..1] == [e];
    if q'.durable > |q.items| {
      assert q'.items[q'.durable..] == [];
    } else {
      BlobTail(c, q'.items, if q'.syncs != q.syncs then |q.items| else q.durable, q'.durable);
      BlobTailSnoc(c, q.items, e, q.durable);
    }
  }

  lemma CoveredFails(c: Codec, q: Queue, q': Queue, e: Envelope, count: nat, messages: nat, byteCount: nat, acked: nat)
    requires Covered(c, q, messages, byteCount, acked) && Appended(q, q', [e], count, false, false) && q'.Ok()
    ensures Settles(q, q') && Covered(c, q', messages, byteCount, acked)
  {
    assert q.items + [e][..0] == q.items;
    CoveredSettles(c, q, q', messages, byteCount, acked);
  }

  /** BOUNDED EXPOSURE. A crash between calls loses at most the counted unsynced
      suffix and replays at most the counted acknowledged messages. */
  lemma ExposureBounded(c: Codec, q: Queue, messages: nat, byteCount: nat, acked: nat, pending: seq<Envelope>)
      returns (from: nat, to: nat)
    requires Covered(c, q, messages, byteCount, acked) && q.Recovers(pending)
    ensures from <= q.head && from <= to <= |q.items| && pending == q.items[from..to]
    ensures |q.items| - to <= messages && q.head - from <= acked
    ensures |Blob(c, q.items[to..])| <= byteCount
  {
    from, to :| from in q.heads && from <= to && q.durable <= to <= |q.items| && pending == q.items[from..to];
    BlobTail(c, q.items, q.durable, to);
  }

  lemma SettlesSame(q: Queue)
    ensures Settles(q, q)
  {
  }

  lemma SettlesTwice(q: Queue, q1: Queue, q2: Queue)
    requires Settles(q, q1) && Settles(q1, q2)
    ensures Settles(q, q2)
  {
  }

  lemma SettlesSync(c: Codec, q: Queue, q': Queue, done: bool, messages: nat, byteCount: nat, acked: nat)
    requires Covered(c, q, messages, byteCount, acked) && Synced(q, q', done) && q'.Ok()
    ensures Settles(q, q') && Covered(c, q', messages, byteCount, acked)
    ensures done ==> Covered(c, q', 0, 0, acked)
  {
    hide Covered;
    CoveredSettles(c, q, q', messages, byteCount, acked);
  }

  lemma SettlesCheckpoint(c: Codec, q: Queue, q': Queue, done: bool, messages: nat, byteCount: nat, acked: nat)
    requires Covered(c, q, messages, byteCount, acked) && Checkpointed(q, q', done) && q'.Ok()
    ensures Settles(q, q') && Covered(c, q', messages, byteCount, acked)
    ensures done ==> Covered(c, q', 0, 0, 0)
  {
    hide Covered;
    CoveredSettles(c, q, q', messages, byteCount, acked);
  }

  // ---- One append through the policy ------------------------------------------------

  /** Appending one envelope: an already pending ID changes nothing; otherwise the
      envelope joins the queue exactly when the call accepts it. */
  ghost predicate AppendedOne(q: Queue, q': Queue, e: Envelope, accepted: bool, appended: bool) {
    && q.head <= |q.items| && (appended ==> accepted)
    && (e.id in Ids(q.Pending()) ==> accepted && !appended && q' == q)
    && (e.id !in Ids(q.Pending()) ==> appended == accepted)
    && q'.items == q.items + (if appended then [e] else [])
    && q'.head == q.head && q'.asked == q.asked && q.durable <= q'.durable
    && (q'.saved == q.saved || q'.saved == q.head) && q'.heads <= q.heads + {q.head}
  }

  /** What `Outbox.append(e, sync=False)` returned, and what it exposes. */
  lemma AppendedOneFrom(c: Codec, q: Queue, q1: Queue, e: Envelope, count: nat, accepted: bool, appended: bool,
                        messages: nat, byteCount: nat, acked: nat)
    requires Covered(c, q, messages, byteCount, acked) && q1.Ok()
    requires e.id in Ids(q.Pending()) ==> accepted && !appended && q1 == q
    requires e.id !in Ids(q.Pending()) ==> appended == accepted && Appended(q, q1, [e], count, false, appended)
    ensures AppendedOne(q, q1, e, accepted, appended)
    ensures !appended ==> Covered(c, q1, messages, byteCount, acked)
    ensures appended ==> Covered(c, q1, (if q1.syncs != q.syncs then 0 else messages) + 1,
                                 (if q1.syncs != q.syncs then 0 else byteCount) + |Frame(c, e)|,
                                 if q1.saves != q.saves then 0 else acked)
  {
    hide Frame, Ids;
    if e.id !in Ids(q.Pending()) {
      if appended {
        assert [e][..1] == [e];
        hide Covered;
        CoveredAppends(c, q, q1, e, messages, byteCount, acked);
      } else {
        assert q.items + [e][..0] == q.items + [];
        hide Covered;
        CoveredFails(c, q, q1, e, count, messages, byteCount, acked);
      }
    }
  }

  lemma AppendedOneSettles(q: Queue, q1: Queue, q2: Queue, q3: Queue, e: Envelope)
    requires AppendedOne(q, q1, e, true, true) && Settles(q1, q2) && Settles(q2, q3)
    ensures AppendedOne(q, q3, e, true, true)
  {
  }

  lemma AppendedOneDurable(q: Queue, q1: Queue, e: Envelope, count: nat, accepted: bool, appended: bool)
    requires q.Ok() && q1.Ok()
    requires e.id in Ids(q.Pending()) ==> accepted && !appended && q1 == q
    requires e.id !in Ids(q.Pending()) ==> appended == accepted && Appended(q, q1, [e], count, true, appended)
    ensures AppendedOne(q, q1, e, accepted, appended)
    ensures appended || q.durable == |q.items| ==> q1.durable == |q1.items|
    ensures q.saved == q.head ==> q1.newest == q.newest && q1.heads <= q.heads
  {
    hide Ids;
    if e.id !in Ids(q.Pending()) {
      assert [e][..1] == [e];
      assert q.items + [e][..0] == q.items + [];
    }
  }

  /** Completing one delivery: the head leaves the queue exactly when it matches. */
  ghost predicate CompletedOne(q: Queue, q': Queue, e: Envelope, r: Removal, renamed: bool) {
    && q.head <= |q.items|
    && (r == NotHead <==> q.Pending() == [] || q.Pending()[0] != e)
    && (r == NotHead ==> q' == q)
    && q'.items == q.items && q.durable <= q'.durable && q'.heads <= q.heads + {q.head + 1}
    && q'.head == (if r == Advanced then q.head + 1 else q.head)
    && (r == Advanced ==> q'.asked == q'.head)
    && (r == RemovalFailed ==> q'.saved == q.saved && q'.asked <= q.head + 1)
    && (renamed ==> r == RemovalFailed && q'.newest == q.head + 1)
    && (r == RemovalFailed && !renamed ==> q'.heads == q.heads && q'.newest == q.newest)
    && q.saved <= q'.saved
  }

  lemma CompletedSynced(q: Queue, q': Queue, e: Envelope, r: Removal, renamed: bool)
    requires q.Ok() && q'.Ok() && (r == NotHead <==> q.Pending() == [] || q.Pending()[0] != e)
    requires if r == NotHead then q' == q && !renamed else Removed(q, q', true, r == Advanced, renamed)
    ensures CompletedOne(q, q', e, r, renamed)
    ensures r == Advanced ==> q'.heads == {q'.head} && q'.saved == q'.head && q'.durable == |q'.items|
  {
  }

  lemma CompletedVolatile(c: Codec, q: Queue, q': Queue, e: Envelope, r: Removal, renamed: bool, messages: nat, byteCount: nat, acked: nat)
    requires Covered(c, q, messages, byteCount, acked) && q'.Ok()
    requires r == NotHead <==> q.Pending() == [] || q.Pending()[0] != e
    requires if r == NotHead then q' == q && !renamed else Removed(q, q', false, r == Advanced, renamed)
    ensures CompletedOne(q, q', e, r, false) && r != RemovalFailed && !renamed
    ensures Covered(c, q', messages, byteCount, if r == Advanced then acked + 1 else acked)
  {
  }

  lemma CompletedSettles(q: Queue, q1: Queue, q2: Queue, e: Envelope)
    requires CompletedOne(q, q1, e, Advanced, false) && Settles(q1, q2) && q1.saved <= q1.head
    ensures CompletedOne(q, q2, e, Advanced, false)
  {
  }

  lemma AppendedOneOrder(q: Queue, q': Queue, e: Envelope, accepted: bool, appended: bool)
    requires AppendedOne(q, q', e, accepted, appended) && q.saved <= q.head
    ensures q'.saved <= q'.head
  {
  }

  lemma QueueOrder(q: Queue)
    requires q.Ok()
    ensures q.saved <= q.head <= q.asked <= |q.items|
  {
  }

  lemma OneCount(q: Queue, q': Queue, e: Envelope, count: nat)
    requires Grew(q, q', [e], count)
    ensures MayHold(q, q', e)
  {
  }

  lemma NothingExposed(c: Codec, q: Queue)
    requires Covered(c, q, 0, 0, 0)
    ensures q.durable == |q.items| && q.heads == {q.head}
  {
    var h :| h in q.heads;
    assert q.heads == {q.head};
  }

  // ---- Spilling a list that is partly stored -------------------------------------------

  /** Of a list whose first `k` envelopes are already pending, a batch of the first
      `m` has only the others to write. */
  lemma {:induction false} NewOnesOfPrefix(disk: seq<Envelope>, ram: seq<Envelope>, k: nat, m: nat)
    requires DistinctIds(disk + ram) && k <= |ram| && m <= |ram|
    ensures NewOnes(ram[..m], Ids(disk + ram[..k])) == if m <= k then [] else ram[k..m]
    decreases m
  {
    hide DistinctIds, Ids;
    var known := Ids(disk + ram[..k]);
    if m > 0 {
      var e := ram[m - 1];
      assert ram[..m] == ram[..m - 1] + [e];
      NewOnesSnoc(ram[..m - 1], e, known);
      NewOnesOfPrefix(disk, ram, k, m - 1);
      if m <= k {
        KnownId(disk, ram, k, m - 1);
      } else {
        UnknownId(disk, ram, k, m - 1);
        assert ram[k..m] == ram[k..m - 1] + [e];
      }
    }
  }

  lemma KnownId(disk: seq<Envelope>, ram: seq<Envelope>, k: nat, j: nat)
    requires j < k <= |ram|
    ensures ram[j].id in Ids(disk + ram[..k])
  {
    assert (disk + ram[..k])[|disk| + j] == ram[j];
  }

  lemma UnknownId(disk: seq<Envelope>, ram: seq<Envelope>, k: nat, j: nat)
    requires DistinctIds(disk + ram) && k <= j < |ram|
    ensures ram[j].id !in Ids(disk + ram[..k]) + Ids(ram[..j])
  {
    var all := disk + ram;
    assert all[|disk| + j] == ram[j];
    forall i | 0 <= i < |disk + ram[..k]|
      ensures (disk + ram[..k])[i].id != ram[j].id
    {
      assert (disk + ram[..k])[i] == all[i];
    }
    forall i | 0 <= i < |ram[..j]|
      ensures ram[..j][i].id != ram[j].id
    {
      assert ram[..j][i] == all[|disk| + i];
    }
  }

  /** A batch taken from a list of distinct messages agrees with what is stored of it. */
  lemma PrefixAcceptable(disk: seq<Envelope>, ram: seq<Envelope>, k: nat, m: nat)
    requires DistinctIds(disk + ram) && k <= |ram| && m <= |ram|
    requires forall e | e in ram[..m] :: |e.body| <= MAX_RECORD_BYTES
    ensures Acceptable(ram[..m], disk + ram[..k])
  {
    var all := disk + ram;
    forall i | 0 <= i < m
      ensures all[|disk| + i] == ram[..m][i] && |ram[..m][i].body| <= MAX_RECORD_BYTES
    {
      assert ram[..m][i] in ram[..m];
    }
    forall i, j | 0 <= i < m && 0 <= j < |disk| + k
      ensures ram[..m][i].id == (disk + ram[..k])[j].id ==> ram[..m][i] == (disk + ram[..k])[j]
    {
      assert (disk + ram[..k])[j] == all[j] && ram[..m][i] == all[|disk| + i];
    }
  }

  /** Two pending envelopes with the same ID are the same. */
  lemma SamePending(es: seq<Envelope>, a: Envelope, b: Envelope)
    requires DistinctIds(es) && a in es && b in es && a.id == b.id
    ensures a == b
  {
  }

  /** A pending envelope's ID is pending. */
  lemma PendingId(es: seq<Envelope>, e: Envelope)
    requires e in es
    ensures e.id in Ids(es)
  {
    var i :| 0 <= i < |es| && es[i] == e;
  }

  lemma StrandStores(q: Queue, q': Queue, disk: seq<Envelope>, ram: seq<Envelope>, k: nat, m: nat, count: nat)
    requires k <= |ram| && m <= |ram| && q.head <= |q.items| && q.Pending() == disk + ram[..k]
    requires DistinctIds(disk + ram)
    requires Grew(q, q', NewOnes(ram[..m], Ids(q.Pending())), count)
    ensures q'.head <= |q'.items|
    ensures count <= if m <= k then 0 else m - k
    ensures q'.Pending() == disk + ram[..if m <= k then k else k + count]
  {
    NewOnesOfPrefix(disk, ram, k, m);
    hide NewOnes, DistinctIds;
    if m > k {
      assert k + count <= m;
      assert ram[k..m][..count] == ram[k..k + count];
      assert ram[..k + count] == ram[..k] + ram[k..k + count];
      assert disk + ram[..k + count] == (disk + ram[..k]) + ram[k..m][..count];
    } else {
      assert q'.items == q.items;
    }
  }

  /** What a spill of the first `m` envelopes leaves pending, however many chunks of
      it were committed before it failed. */
  lemma SpillStores(q: Queue, q': Queue, disk: seq<Envelope>, ram: seq<Envelope>, k: nat, m: nat, count: nat, done: bool)
    requires k <= |ram| && m <= |ram| && q.head <= |q.items| && q.Pending() == disk + ram[..k]
    requires DistinctIds(disk + ram)
    requires Appended(q, q', NewOnes(ram[..m], Ids(q.Pending())), count, true, done)
    ensures q'.head <= |q'.items|
    ensures count <= if m <= k then 0 else m - k
    ensures q'.Pending() == disk + ram[..if m <= k then k else k + count]
    ensures done ==> q'.durable == |q'.items| && (m > k ==> count == m - k)
  {
    StrandStores(q, q', disk, ram, k, m, count);
    NewOnesOfPrefix(disk, ram, k, m);
  }

  lemma DistinctSnoc(es: seq<Envelope>, e: Envelope)
    requires DistinctIds(es) && e.id !in Ids(es)
    ensures DistinctIds(es + [e])
  {
    forall i | 0 <= i < |es|
      ensures es[i].id != e.id
    {
      assert es[i].id in Ids(es);
    }
  }

  lemma AppendedFifo(q: Queue, q': Queue, e: Envelope, accepted: bool, appended: bool)
    requires AppendedOne(q, q', e, accepted, appended) && q'.Ok() && e.id !in Ids(q.Pending())
    ensures appended == accepted && q'.head <= |q'.items|
    ensures q'.Pending() == q.Pending() + if appended then [e] else []
  {
  }

  /** One spill of the first `m` envelopes: the queue it left, whether it succeeded,
      and how many new envelopes it committed. */
  datatype Attempt = Attempt(m: nat, done: bool, count: nat, after: Queue)

  ghost predicate Attempts(q: Queue, ram: seq<Envelope>, tries: seq<Attempt>)
    decreases |tries|
  {
    tries == [] || (
      && tries[0].m <= |ram| && q.head <= |q.items|
      && Appended(q, tries[0].after, NewOnes(ram[..tries[0].m], Ids(q.Pending())), tries[0].count, true, tries[0].done)
      && Attempts(tries[0].after, ram, tries[1..]))
  }

  function Last(q: Queue, tries: seq<Attempt>): Queue {
    if tries == [] then q else tries[|tries| - 1].after
  }

  /** EXACTLY ONCE. However often spills of the same list fail, after whatever chunk,
      the queue holds the list's envelopes in order, each once, and all those a
      successful spill selected. */
  lemma {:induction false} SpillRetries(q: Queue, disk: seq<Envelope>, ram: seq<Envelope>, k: nat, tries: seq<Attempt>)
      returns (k': nat)
    requires k <= |ram| && q.head <= |q.items| && q.Pending() == disk + ram[..k] && DistinctIds(disk + ram)
    requires Attempts(q, ram, tries)
    ensures k <= k' <= |ram| && Last(q, tries).head <= |Last(q, tries).items|
    ensures Last(q, tries).Pending() == disk + ram[..k'] && DistinctIds(Last(q, tries).Pending())
    ensures forall i | 0 <= i < |tries| :: tries[i].done ==> tries[i].m <= k'
    decreases |tries|
  {
    hide NewOnes, Appended;
    if tries == [] {
      k' := k;
      PrefixOfDistinct(disk, ram, k);
    } else {
      var t := tries[0];
      SpillStores(q, t.after, disk, ram, k, t.m, t.count, t.done);
      var k1 := if t.m <= k then k else k + t.count;
      k' := SpillRetries(t.after, disk, ram, k1, tries[1..]);
      assert Last(t.after, tries[1..]) == Last(q, tries);
      forall i | 0 <= i < |tries|
        ensures tries[i].done ==> tries[i].m <= k'
      {
        if i > 0 { assert tries[i] == tries[1..][i - 1]; }
      }
    }
  }

  lemma PrefixOfDistinct(disk: seq<Envelope>, ram: seq<Envelope>, k: nat)
    requires DistinctIds(disk + ram) && k <= |ram|
    ensures DistinctIds(disk + ram[..k])
  {
    var part := disk + ram[..k];
    forall i, j | 0 <= i < j < |part|
      ensures part[i].id != part[j].id
    {
      assert part[i] == (disk + ram)[i] && part[j] == (disk + ram)[j];
    }
  }
}
