/** Migration of a v1 journal (reliomq/outbox.py:686-794, 1047-1115). */
module Legacy {
  import opened Wrappers
  import opened Framing
  import opened Layout
  import opened Directory
  import opened Loading
  import opened Recovery
  import opened Storage
  import opened QueueSpec
  import opened OutboxState
  import opened OutboxSteps
  import opened Openings
  import opened OutboxClass

  /** One decoded journal line; None is a line that does not decode. */
  datatype Record = Enqueue(envelope: Envelope) | Ack(id: Id)
  type Line = Option<Record>

  /** The effect of one line on the pending messages, in insertion order. */
  function Replayed(pending: seq<Envelope>, line: Line): seq<Envelope> {
    match line
    case None => pending
    case Some(Enqueue(e)) => if e.id in Ids(pending) then pending else pending + [e]
    case Some(Ack(id)) => if pending != [] && pending[0].id == id then pending[1..] else pending
  }

  function Replay(lines: seq<Line>): seq<Envelope> {
    if lines == [] then [] else Replayed(Replay(lines[..|lines| - 1]), lines[|lines| - 1])
  }

  /** `_read_legacy_pending`. The dictionary keeps insertion order. */
  method ReadLegacyPending(lines: seq<Line>) returns (pending: seq<Envelope>)
    ensures pending == Replay(lines)
  {
    pending := [];
    var ids: set<Id> := {};
    var n := 0;
    while n < |lines|
      invariant n <= |lines| && pending == Replay(lines[..n]) && ids == Ids(pending) && DistinctIds(pending)
    {
      assert lines[..n + 1][..n] == lines[..n];
      match lines[n] {
        case None =>
        case Some(Enqueue(e)) =>
          if e.id !in ids {
            QueueSpec.IdsSnoc(pending, e);
            DistinctSnoc(pending, e);
            pending := pending + [e];
            ids := ids + {e.id};
          }
        case Some(Ack(id)) =>
          if pending != [] && pending[0].id == id {
            PopIds(pending);
            pending := pending[1..];
            ids := ids - {id};
          }
      }
      n := n + 1;
    }
    assert lines[..n] == lines;
  }

  lemma PopIds(pending: seq<Envelope>)
    requires pending != [] && DistinctIds(pending)
    ensures Ids(pending[1..]) == Ids(pending) - {pending[0].id} && DistinctIds(pending[1..])
  {
    IdsCons(pending);
    forall i | 0 <= i < |pending[1..]|
      ensures pending[1..][i].id != pending[0].id
    {
      assert pending[1..][i] == pending[i + 1];
    }
  }

  // ---- Valid histories -----------------------------------------------------------------

  /** What a v1 queue did: accept a message that is not pending, or remove the oldest. */
  datatype Operation = Add(envelope: Envelope) | RemoveOldest

  function Step(fifo: seq<Envelope>, op: Operation): seq<Envelope> {
    match op
    case Add(e) => fifo + [e]
    case RemoveOldest => if fifo == [] then [] else fifo[1..]
  }

  function Fifo(ops: seq<Operation>): seq<Envelope> {
    if ops == [] then [] else Step(Fifo(ops[..|ops| - 1]), ops[|ops| - 1])
  }

  predicate History(ops: seq<Operation>) {
    forall n | 0 <= n < |ops| ::
      if ops[n].Add? then ops[n].envelope.id !in Ids(Fifo(ops[..n])) else Fifo(ops[..n]) != []
  }

  /** The journal line each operation wrote. */
  function Journal(ops: seq<Operation>): (lines: seq<Line>)
    ensures |lines| == |ops|
  {
    if ops == [] then []
    else
      var init, op := ops[..|ops| - 1], ops[|ops| - 1];
      Journal(init) + [if op.Add? then Some(Enqueue(op.envelope))
                       else if Fifo(init) == [] then None else Some(Ack(Fifo(init)[0].id))]
  }

  /** Replaying the journal of a history yields its FIFO. */
  lemma {:induction false} ReplayHistory(ops: seq<Operation>)
    requires History(ops)
    ensures Replay(Journal(ops)) == Fifo(ops)
    decreases |ops|
  {
    if ops != [] {
      var init := ops[..|ops| - 1];
      assert forall n | 0 <= n < |init| :: init[n] == ops[n] && init[..n] == ops[..n];
      ReplayHistory(init);
      assert Journal(ops)[..|ops| - 1] == Journal(init);
    }
  }

  // ---- Damaged journals ------------------------------------------------------------------

  lemma {:induction false} ReplaySame(a: seq<Line>, b: seq<Line>, rest: seq<Line>)
    requires Replay(a) == Replay(b)
    ensures Replay(a + rest) == Replay(b + rest)
    decreases |rest|
  {
    if rest == [] {
      assert a + rest == a && b + rest == b;
    } else {
      var init, last := rest[..|rest| - 1], rest[|rest| - 1];
      ReplaySame(a, b, init);
      assert (a + rest)[..|a + rest| - 1] == a + init && (b + rest)[..|b + rest| - 1] == b + init;
    }
  }

  /** A line that has no effect where it stands: corrupt, a duplicate of a pending
      message, or an acknowledgement that is not of the oldest one. */
  predicate Ignored(pending: seq<Envelope>, line: Line) {
    match line
    case None => true
    case Some(Enqueue(e)) => e.id in Ids(pending)
    case Some(Ack(id)) => pending == [] || pending[0].id != id
  }

  /** Such lines can be struck out anywhere without changing what survives. */
  lemma IgnoredLine(before: seq<Line>, line: Line, rest: seq<Line>)
    requires Ignored(Replay(before), line)
    ensures Replay(before + [line] + rest) == Replay(before + rest)
  {
    assert (before + [line])[..|before|] == before;
    ReplaySame(before + [line], before, rest);
  }

  /** The messages a journal enqueues, in line order. */
  function Enqueued(lines: seq<Line>): seq<Envelope> {
    if lines == [] then []
    else
      var last := lines[|lines| - 1];
      Enqueued(lines[..|lines| - 1]) + match last case Some(Enqueue(e)) => [e] case _ => []
  }

  /** `s` is `t` with some elements left out. */
  ghost predicate Subsequence(s: seq<Envelope>, t: seq<Envelope>) {
    exists at: seq<nat> :: Picks(s, t, at)
  }

  ghost predicate Picks(s: seq<Envelope>, t: seq<Envelope>, at: seq<nat>) {
    && |at| == |s| && (forall i | 0 <= i < |s| :: at[i] < |t| && t[at[i]] == s[i])
    && (forall i, j | 0 <= i < j < |s| :: at[i] < at[j])
  }

  lemma PicksOneMore(s: seq<Envelope>, t: seq<Envelope>, at: seq<nat>, e: Envelope)
    requires Picks(s, t, at)
    ensures Picks(s + [e], t + [e], at + [|t|])
  {
  }

  lemma PicksRest(s: seq<Envelope>, t: seq<Envelope>, at: seq<nat>)
    requires Picks(s, t, at) && s != []
    ensures Picks(s[1..], t, at[1..])
  {
  }

  /** Whatever is in the journal, no message is duplicated and none changes place. */
  lemma {:induction false} SurvivorsInOrder(lines: seq<Line>)
    ensures DistinctIds(Replay(lines)) && Subsequence(Replay(lines), Enqueued(lines))
    decreases |lines|
  {
    if lines == [] {
      assert Picks([], [], []);
    } else {
      var init, last := lines[..|lines| - 1], lines[|lines| - 1];
      SurvivorsInOrder(init);
      var at :| Picks(Replay(init), Enqueued(init), at);
      match last {
        case None =>
          assert Picks(Replay(lines), Enqueued(lines), at);
        case Some(Enqueue(e)) =>
          if e.id !in Ids(Replay(init)) {
            DistinctSnoc(Replay(init), e);
            PicksOneMore(Replay(init), Enqueued(init), at, e);
            assert Replay(lines) == Replay(init) + [e] && Enqueued(lines) == Enqueued(init) + [e];
            assert Picks(Replay(lines), Enqueued(lines), at + [|Enqueued(init)|]);
          } else {
            assert Picks(Replay(lines), Enqueued(lines), at);
          }
        case Some(Ack(id)) =>
          if Ignored(Replay(init), last) {
            assert Picks(Replay(lines), Enqueued(lines), at);
          } else {
            PopIds(Replay(init));
            PicksRest(Replay(init), Enqueued(init), at);
            assert Replay(lines) == Replay(init)[1..] && Enqueued(lines) == Enqueued(init) + [];
            assert Picks(Replay(lines), Enqueued(lines), at[1..]);
          }
      }
    }
  }

  // ---- Installing the migrated queue ---------------------------------------------------------

  /** `_build_storage_directory` once renamed into place: every file is synced. */
  function Installed(c: Codec, segs: Segments): Disk {
    Disk(map i | 1 <= i <= |segs| :: BuiltSegment(c, segs, i), {}, map[], Some(Cursor(1, SEGMENT_HEADER_SIZE)), {})
  }

  function BuiltSegment(c: Codec, segs: Segments, i: nat): File
    requires 1 <= i <= |segs|
  {
    File(Image(c, i, segs[i - 1]), |Image(c, i, segs[i - 1])|)
  }

  lemma {:induction false} AppendEachCount(c: Codec, l: Limits, segs: Segments, es: seq<Envelope>)
    requires segs != []
    ensures |AppendEach(c, l, segs, es)| <= |segs| + |es|
    decreases |es|
  {
    hide WouldRotate;
    if es != [] { AppendEachCount(c, l, AppendOne(c, l, segs, es[0]), es[1..]); }
  }

  lemma {:induction false} FlatParts(c: Codec, segs: Segments, i: nat)
    requires i < |segs| && AllStorable(c, Flat(segs))
    ensures AllStorable(c, segs[i])
    decreases |segs|
  {
    assert forall k | 0 <= k < |segs[0]| :: Flat(segs)[k] == segs[0][k];
    assert forall k | 0 <= k < |Flat(segs[1..])| :: Flat(segs)[|segs[0]| + k] == Flat(segs[1..])[k];
    if i > 0 { FlatParts(c, segs[1..], i - 1); }
  }

  lemma InstalledSafe(c: Codec, segs: Segments)
    requires segs != [] && |segs| <= MAX_SEGMENT_ID && AllStorable(c, Flat(segs)) && DistinctIds(Flat(segs))
    ensures var log := Log(1, segs, map[]);
            && CrashSafe(c, log, Installed(c, segs)) && Crash(Installed(c, segs), Installed(c, segs))
            && DiskInv(c, log, Installed(c, segs)) && DurableTail(c, log, Installed(c, segs)) == |Flat(segs)|
            && Boundary(c, log, Cursor(1, SEGMENT_HEADER_SIZE)) && Position(c, log, Cursor(1, SEGMENT_HEADER_SIZE)) == 0
            && Installed(c, segs).head == Some(Cursor(1, SEGMENT_HEADER_SIZE))
  {
    hide Image, Flat, Boundary, Position, WholeIn, AllStorable, DistinctIds, DiskInv, DurableTail;
    var log, d := Log(1, segs, map[]), Installed(c, segs);
    forall i | 0 <= i < |segs|
      ensures AllStorable(c, segs[i])
    {
      FlatParts(c, segs, i);
    }
    StartBoundary(c, log);
    InstalledSettled(c, segs);
    SettledInv(c, log, d);
    assert Heads(d) == {Cursor(1, SEGMENT_HEADER_SIZE)};
    assert Flat(segs)[0..] == Flat(segs);
  }

  lemma InstalledSettled(c: Codec, segs: Segments)
    requires segs != [] && |segs| <= MAX_SEGMENT_ID && forall i | 0 <= i < |segs| :: AllStorable(c, segs[i])
    requires Boundary(c, Log(1, segs, map[]), Cursor(1, SEGMENT_HEADER_SIZE))
    ensures Settled(c, Log(1, segs, map[]), Installed(c, segs))
    ensures Crash(Installed(c, segs), Installed(c, segs))
  {
    hide Image, Boundary, AllStorable;
  }

  /** OutboxError comes before the new directory has its name, so that the journal stands
      alone, or after it. */
  datatype Migration = TooLarge | Unbuilt | Unopened(left: Disk) | Opened(outbox: Outbox)

  /** However often the directory is opened after `d` and whatever crashes come, all of
      `es` is pending in it. */
  ghost predicate Holding(c: Codec, es: seq<Envelope>, log: Log, d: Disk) {
    CrashSafe(c, log, d) && Flat(log.segs) == es && DurableTail(c, log, d) == |es| && Spots(c, log, d) <= {0}
  }

  lemma RetriesHold(c: Codec, log: Log, d: Disk, log': Log, d': Disk)
    requires Retries(c, log, d, log', d') && Holding(c, Flat(log.segs), log, d)
    ensures Holding(c, Flat(log.segs), log', d')
  {
    RetriesSafe(c, log, d, log', d');
    hide CrashSafe, Flat, Spots, DiskInv, DurableTail, Retries;
    DurableWithin(c, log', d');
  }

  lemma InstalledHolds(c: Codec, segs: Segments)
    requires segs != [] && |segs| <= MAX_SEGMENT_ID && AllStorable(c, Flat(segs)) && DistinctIds(Flat(segs))
    ensures Holding(c, Flat(segs), Log(1, segs, map[]), Installed(c, segs)) && Found(Installed(c, segs), Installed(c, segs))
  {
    hide CrashSafe, Flat, DurableTail, DiskInv, DistinctIds, AllStorable, Boundary, Position, Image, Crash;
    InstalledSafe(c, segs);
  }

  /** MIGRATION. Replays the journal, builds and installs the segments, and opens them:
      the Outbox holds exactly the replayed messages, and when the directory has its name
      but the opening fails, a later opening finds them. `builds` and `fault` say which
      system calls fail, if any. */
  method Migrate(c: Codec, l: Limits, lines: seq<Line>, builds: bool, fault: Option<nat>)
      returns (r: Migration, ghost log1: Log, ghost d1: Disk)
    requires l.Positive() && |Replay(lines)| < MAX_SEGMENT_ID
    requires forall e | e in Replay(lines) :: c.decode(e.body) == Some(e.id)
    ensures r.TooLarge? <==> exists e | e in Replay(lines) :: |e.body| > MAX_RECORD_BYTES
    ensures builds ==> !r.Unbuilt?
    ensures fault.None? ==> !r.Unopened?
    ensures r.Unopened? ==> Holding(c, Replay(lines), log1, d1) && Found(d1, r.left)
    ensures r.Opened? ==> r.outbox.Valid() && r.outbox.Queue().head <= |r.outbox.Queue().items|
    ensures r.Opened? ==> r.outbox.Queue().Pending() == Replay(lines)
    ensures r.Opened? ==> r.outbox.Queue().durable == |r.outbox.Queue().items| && r.outbox.Queue().heads == {r.outbox.Queue().head}
  {
    hide Outbox.Valid, Outbox.Queue, CrashSafe, Crash, Survivors, Flat, Position, Boundary, DiskInv, HasTop, Heads;
    hide AppendEach, Installed, Replay, DistinctIds, DurableTail, AllStorable, Retries, Spots, Found;
    log1, d1 := Log(1, [[]], map[]), Disk(map[], {}, map[], None, {});
    var pending := ReadLegacyPending(lines);
    var fits := AllFit(c, pending);
    if !fits { return TooLarge, log1, d1; }
    if !builds { return Unbuilt, log1, d1; }
    SurvivorsInOrder(lines);
    var segs := BuildSegments(c, l, pending);
    AppendEachCount(c, l, [[]], pending);
    AppendEachFlat(c, l, [[]], pending);
    assert Flat([[]]) + pending == pending by { NothingFlat(); }
    InstalledSafe(c, segs);
    InstalledHolds(c, segs);
    ghost var log := Log(1, segs, map[]);
    var o, left;
    o, left, log1, d1 := Reopen(c, l, Installed(c, segs), fault, log, Installed(c, segs));
    if o.None? {
      RetriesHold(c, log, Installed(c, segs), log1, d1);
      return Unopened(left), log1, d1;
    }
    assert Flat(Survivors(c, log, Cached(Installed(c, segs))).segs) == Replay(lines);
    r := Opened(o.value);
  }

  lemma NothingFlat()
    ensures Flat([[]]) == []
  {
    assert Flat([[]]) == [] + Flat([[]][1..]);
  }

  method AllFit(c: Codec, pending: seq<Envelope>) returns (fits: bool)
    requires forall e | e in pending :: c.decode(e.body) == Some(e.id)
    ensures fits <==> forall e | e in pending :: |e.body| <= MAX_RECORD_BYTES
    ensures fits ==> AllStorable(c, pending)
  {
    var i := 0;
    while i < |pending|
      invariant i <= |pending| && forall j | 0 <= j < i :: |pending[j].body| <= MAX_RECORD_BYTES
    {
      if |pending[i].body| > MAX_RECORD_BYTES {
        assert pending[i] in pending;
        return false;
      }
      i := i + 1;
    }
    fits := true;
  }
}
