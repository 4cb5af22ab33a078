/** How each Outbox step changes the view, and that it keeps the invariant. */
module OutboxSteps {
  import opened Wrappers
  import opened Framing
  import opened Layout
  import opened Directory
  import opened Loading
  import opened Recovery
  import opened Storage
  import opened QueueSpec
  import opened OutboxState

  // ---- The moments of a call -----------------------------------------------------

  /** A call that neither appends nor puts a checkpoint anywhere. */
  function Resting(q: Queue): Bounds {
    Bounds(q.items, q.heads)
  }

  /** A call on `q` that may put a checkpoint at `p`. */
  function Installing(q: Queue, p: nat): Bounds {
    Bounds(q.items, q.heads + {p})
  }

  /** A call that appends nothing and, with `ask`, may remove the head. */
  function Holding(q: Queue, ask: bool): Bounds {
    Installing(q, if ask then q.head + 1 else q.head)
  }

  /** A call that may append some of `more`. */
  function Growing(q: Queue, more: seq<Envelope>): Bounds {
    Bounds(q.items + more, q.heads + {q.head})
  }

  /** The moment of queue `q` is within `b`. */
  ghost predicate Admits(b: Bounds, q: Queue) {
    q.items <= b.plan && q.heads <= b.spots
  }

  lemma ViewWithin(c: Codec, v: View, syncs: nat, saves: nat, b: Bounds)
    requires Inv(c, v) && Admits(b, Abs(c, v, syncs, saves))
    ensures Within(Taken(c, v.log, v.disk, v.floor, v.ceiling), b)
  {
    hide CrashSafe, Mirrors, Indexed, Anchored, Unreused, Boundary, Position, Flat, DurableTail, Spots;
  }

  lemma PreparedInside(q: Queue, q1: Queue, more: seq<Envelope>)
    requires Prepared(q, q1)
    ensures Inside(Growing(q1, more), Growing(q, more))
  {
  }

  lemma HoldingGrows(q: Queue, more: seq<Envelope>, n: nat)
    requires n <= |more|
    ensures Inside(Resting(q), Growing(q, more))
    ensures Inside(Holding(q, false), Growing(q, more)) && Inside(Growing(q, more[..n]), Growing(q, more))
    ensures Admits(Growing(q, more), q)
  {
    assert more == more[..n] + more[n..];
    assert (q.items + more[..n]) + more[n..] == q.items + more;
  }

  /** Nothing was appended, or one record and what a later call settles. */
  lemma SettlesInside(q: Queue, q1: Queue)
    requires Settles(q, q1)
    ensures Inside(Holding(q1, false), Holding(q, false))
  {
  }

  lemma AppendedInside(q: Queue, q1: Queue, e: Envelope, accepted: bool, appended: bool)
    requires AppendedOne(q, q1, e, accepted, appended)
    ensures Inside(Holding(q1, false), Growing(q, [e]))
  {
    hide Ids;
    assert q.items + [] == q.items;
  }

  lemma InsideTwice(a: Bounds, b: Bounds, c: Bounds)
    requires Inside(a, b) && Inside(b, c)
    ensures Inside(a, c)
  {
  }

  /** The run of a call whose last steps went from queue `q1` on. */
  lemma GrowingRest(q: Queue, q1: Queue, added: seq<Envelope>, n: nat)
    requires Wrote(q, q1, added, n)
    ensures n <= |added| && Inside(Growing(q1, added[n..]), Growing(q, added))
    ensures Admits(Growing(q, added), q1) && Inside(Resting(q1), Growing(q, added))
  {
    assert (q.items + added[..n]) + added[n..] == q.items + added;
  }

  /** Neither writing, rotating nor syncing puts a checkpoint anywhere. */
  lemma SpotsWrite(c: Codec, v: View, chunk: seq<Envelope>, part: bytes)
    requires Inv(c, v) && v.log.segs != [] && LastId(v.log) in v.disk.files
    ensures Spots(c, Extend(v.log, chunk), Write(v.disk, LastId(v.log), part)) <= Spots(c, v.log, v.disk)
  {
    hide Inv, Boundary, Position, Flat, Extend, Write, Heads;
    PositionsWrite(c, v, chunk);
    WriteKeepsHeads(v.disk, LastId(v.log), part);
  }

  lemma SpotsRotate(c: Codec, v: View)
    requires Inv(c, v) && v.log.segs != []
    ensures var id := LastId(v.log) + 1;
            Spots(c, Rotated(v.log), InstallSegment(v.disk, id, SegmentHeader(id))) <= Spots(c, v.log, v.disk)
  {
    hide Inv, Boundary, Position, Flat, Rotated, InstallSegment, SegmentHeader, Heads;
    PositionsRotate(c, v);
    SameHeads(v.disk, LastId(v.log) + 1, SegmentHeader(LastId(v.log) + 1));
  }

  lemma SpotsSame(c: Codec, log: Log, d: Disk, d': Disk)
    requires Heads(d') <= Heads(d)
    ensures Spots(c, log, d') <= Spots(c, log, d)
  {
    hide Boundary, Position, Heads;
  }

  lemma HeadsKept(d: Disk, id: nat)
    ensures Heads(Barrier(d)) <= Heads(d) && (id in d.files ==> Heads(Fsync(d, id)) == Heads(d))
  {
  }

  // ---- The abstract queue is well formed ----------------------------------------

  lemma FlatPrefixLength(segs: Segments, a: nat, b: nat)
    requires a <= b <= |segs|
    ensures |Flat(segs[..a])| <= |Flat(segs[..b])|
  {
    assert segs[..b] == segs[..a] + segs[a..b];
    FlatConcat(segs[..a], segs[a..b]);
  }

  lemma PositionBefore(c: Codec, log: Log, cur: Cursor, b: nat)
    requires Boundary(c, log, cur) && cur.segment - log.first < b <= |log.segs|
    ensures Position(c, log, cur) <= |Flat(log.segs[..b])|
  {
    hide WholeIn, Flat, Blob;
    var i := cur.segment - log.first;
    FlatSnoc(log.segs[..i], log.segs[i]);
    assert log.segs[..i + 1] == log.segs[..i] + [log.segs[i]];
    FlatPrefixLength(log.segs, i + 1, b);
  }

  lemma PositionInActive(c: Codec, log: Log, cur: Cursor, synced: nat)
    requires Boundary(c, log, cur) && cur.segment == LastId(log) && cur.offset <= synced
    ensures Position(c, log, cur)
         <= |Flat(log.segs[..|log.segs| - 1])| + WholeIn(c, Active(log.segs), synced - SEGMENT_HEADER_SIZE)
  {
    hide WholeIn, Flat, Blob;
    WholeInMonotone(c, Active(log.segs), cur.offset - SEGMENT_HEADER_SIZE, synced - SEGMENT_HEADER_SIZE);
  }

  lemma HeadIsDurable(c: Codec, log: Log, d: Disk, cur: Cursor)
    requires DiskInv(c, log, d) && HeadOk(c, log, d, cur)
    ensures Position(c, log, cur) <= DurableTail(c, log, d)
  {
    hide DiskInv, WholeIn, Flat, Boundary, Position;
    BoundarySegment(c, log, cur);
    if cur.segment == LastId(log) {
      PositionInActive(c, log, cur, d.files[LastId(log)].synced);
    } else {
      PositionBefore(c, log, cur, |log.segs| - 1);
    }
  }

  lemma AbsOk(c: Codec, v: View, syncs: nat, saves: nat)
    requires Inv(c, v)
    ensures Abs(c, v, syncs, saves).Ok()
  {
    hide Boundary, Position, WholeIn, Flat, Holds, LogOk, Mirrors, Indexed;
    DurableWithin(c, v.log, v.disk);
    forall cur | cur in Heads(v.disk)
      ensures Boundary(c, v.log, cur) && Position(c, v.log, cur) <= DurableTail(c, v.log, v.disk)
    {
      assert HeadOk(c, v.log, v.disk, cur);
      HeadIsDurable(c, v.log, v.disk, cur);
    }
    assert v.disk.head.value in Heads(v.disk);
    assert Position(c, v.log, v.disk.head.value) in Abs(c, v, syncs, saves).heads;
  }

  /** Whatever a crash leaves of the directory is something `q` allows. */
  ghost predicate Leaves(c: Codec, q: Queue, log: Log, d: Disk) {
    && DiskInv(c, log, d) && Flat(log.segs) == q.items && q.durable <= DurableTail(c, log, d)
    && forall cur | cur in Heads(d) && Boundary(c, log, cur) :: Position(c, log, cur) in q.heads
  }

  lemma AbsLeaves(c: Codec, v: View, syncs: nat, saves: nat)
    requires Inv(c, v)
    ensures Leaves(c, Abs(c, v, syncs, saves), v.log, v.disk)
  {
    InvDisk(c, v);
    hide Inv, Boundary, Position, Flat, DurableTail, DiskInv, Heads;
  }

  /** A rotation whose rename took effect, whatever became of its directory fsync. */
  lemma RotateLeaves(c: Codec, v: View, syncs: nat, saves: nat)
    requires Inv(c, v) && v.log.segs != [] && !v.syncPending && v.disk.recent == {} && LastId(v.log) < MAX_SEGMENT_ID
    requires var f := v.disk.files[LastId(v.log)];
             f.data == Image(c, LastId(v.log), Active(v.log.segs)) && f.synced == |f.data|
    ensures var id := LastId(v.log) + 1;
            Leaves(c, Abs(c, v, syncs, saves), Rotated(v.log), InstallSegment(v.disk, id, SegmentHeader(id)))
  {
    hide Inv, Boundary, Position, Flat, DurableTail, DiskInv, Heads, CrashSafe, Rotated, SegmentHeader, Image, Abs;
    var id := LastId(v.log) + 1;
    AbsLeaves(c, v, syncs, saves);
    AbsFields(c, v, syncs, saves);
    RotatedTail(c, v);
    PositionsRotate(c, v);
    FlatExtends(v.log, []);
    SameHeads(v.disk, id, SegmentHeader(id));
  }

  lemma RotatedTail(c: Codec, v: View)
    requires Inv(c, v) && v.log.segs != [] && !v.syncPending && v.disk.recent == {} && LastId(v.log) < MAX_SEGMENT_ID
    requires var f := v.disk.files[LastId(v.log)];
             f.data == Image(c, LastId(v.log), Active(v.log.segs)) && f.synced == |f.data|
    ensures var id := LastId(v.log) + 1;
            var d' := InstallSegment(v.disk, id, SegmentHeader(id));
            && DiskInv(c, Rotated(v.log), d') && DiskInv(c, v.log, v.disk)
            && DurableTail(c, v.log, v.disk) <= DurableTail(c, Rotated(v.log), d')
  {
    hide Inv, Boundary, Position, Flat, DurableTail, DiskInv, Heads, CrashSafe, Rotated, SegmentHeader, Image;
    var id := LastId(v.log) + 1;
    InvSafe(c, v);
    InvDisk(c, v);
    ImageSize(c, LastId(v.log), Active(v.log.segs));
    InstallSegmentSafe(c, v.log, v.disk);
    SafeInv(c, Rotated(v.log), InstallSegment(v.disk, id, SegmentHeader(id)));
    RotateAdvances(c, v.log, v.disk, v.floor, v.ceiling);
  }

  /** A write of part of a chunk that was not taken back. */
  lemma WriteLeaves(c: Codec, v: View, chunk: seq<Envelope>, part: bytes, syncs: nat, saves: nat)
    requires Inv(c, v) && v.log.segs != [] && LastId(v.log) in v.disk.files
    requires DiskInv(c, Extend(v.log, chunk), Write(v.disk, LastId(v.log), part))
    ensures var q := Abs(c, v, syncs, saves);
            Leaves(c, q.(items := q.items + chunk), Extend(v.log, chunk), Write(v.disk, LastId(v.log), part))
  {
    AbsLeaves(c, v, syncs, saves);
    AbsFields(c, v, syncs, saves);
    PositionsWrite(c, v, chunk);
    FlatExtends(v.log, chunk);
    WriteKeepsHeads(v.disk, LastId(v.log), part);
    hide Inv, Boundary, Position, Flat, DurableTail, DiskInv, Heads, Abs, Extend, Write;
    WriteTail(c, v.log, v.disk, chunk, part);
  }

  lemma GrownOk(q: Queue, chunk: seq<Envelope>)
    requires q.Ok() && FreshFor(q, chunk)
    ensures q.(items := q.items + chunk).Ok()
  {
  }

  lemma LeavesRecovers(c: Codec, q: Queue, log: Log, d: Disk, image: Disk) returns (pending: seq<Envelope>)
    requires CrashSafe(c, log, d) && Leaves(c, q, log, d) && Crash(d, image)
    ensures q.Recovers(pending)
    ensures Load(c, image).Some? && |Load(c, image).value| == |pending|
    ensures forall k | 0 <= k < |pending| :: ReadsAs(c, image, Load(c, image).value[k], pending[k])
    ensures HasTop(log, image) && image.head.Some? && Boundary(c, log, image.head.value)
    ensures Position(c, log, image.head.value) <= |Flat(Survivors(c, log, image).segs)|
    ensures pending == Flat(Survivors(c, log, image).segs)[Position(c, log, image.head.value)..]
  {
    hide Load, Flat, CrashSafe, DiskInv, Crash, Survivors, ReadsAs, LogEntries, Boundary, Position, DurableTail;
    hide HasTop, Heads;
    hide Leaves, QueueSpec.Queue.Recovers;
    SafeRecovers(c, log, d, image);
    SurvivorsRead(c, log, d, image);
    pending := Flat(Survivors(c, log, image).segs)[Position(c, log, image.head.value)..];
    KeptRecovers(c, q, log, d, image.head.value, Flat(Survivors(c, log, image).segs));
  }

  lemma KeptRecovers(c: Codec, q: Queue, log: Log, d: Disk, cur: Cursor, kept: seq<Envelope>)
    requires Leaves(c, q, log, d) && cur in Heads(d) && Boundary(c, log, cur)
    requires kept <= Flat(log.segs) && DurableTail(c, log, d) <= |kept| && Position(c, log, cur) <= |kept|
    ensures q.Recovers(kept[Position(c, log, cur)..])
  {
    hide Flat, DiskInv, Boundary, Position, DurableTail, Heads;
    assert kept[Position(c, log, cur)..] == Flat(log.segs)[Position(c, log, cur)..|kept|];
  }

  /** CRASH REFINEMENT at the queue level: a crash at any moment reopens to
      something the abstract queue allows, and reading it back gives the very
      bytes that were appended. */
  lemma CrashRefinesQueue(c: Codec, v: View, syncs: nat, saves: nat, image: Disk) returns (pending: seq<Envelope>)
    requires Inv(c, v) && Crash(v.disk, image)
    ensures Abs(c, v, syncs, saves).Recovers(pending)
    ensures Load(c, image).Some? && |Load(c, image).value| == |pending|
    ensures forall k | 0 <= k < |pending| :: ReadsAs(c, image, Load(c, image).value[k], pending[k])
  {
    InvSafe(c, v);
    AbsLeaves(c, v, syncs, saves);
    hide Inv, Load, Flat, CrashSafe, Leaves, Crash, Survivors, ReadsAs, Abs, Boundary, Position;
    pending := LeavesRecovers(c, Abs(c, v, syncs, saves), v.log, v.disk, image);
  }

  /** CRASH INSIDE A CALL. Wherever inside a call a crash hits, reopening yields the records
      of the call's plan from one of its checkpoints on, each readable, and none that was
      durable before the call is missing. `Installing`, `Holding` and `Growing` say what
      plan and which checkpoints an Outbox call has: the old ones and the one in flight. */
  lemma CrashInside(c: Codec, before: seq<Snapshot>, after: seq<Snapshot>, b: Bounds, j: nat, image: Disk)
      returns (from: nat, to: nat)
    requires Run(c, after) && before != [] && Moments(before, after, b) && |before| <= j < |after|
    requires Crash(after[j].disk, image)
    ensures from in b.spots && from <= to <= |b.plan|
    ensures Load(c, image).Some? && |Load(c, image).value| == to - from
    ensures forall k | 0 <= k < to - from :: ReadsAs(c, image, Load(c, image).value[k], b.plan[from + k])
    ensures DiskInv(c, before[|before| - 1].log, before[|before| - 1].disk)
    ensures DurableTail(c, before[|before| - 1].log, before[|before| - 1].disk) <= to
  {
    hide Run, Crash, Load, Survivors, Boundary, Position, Flat, LogEntries, DiskInv, DurableTail, HasTop, Heads;
    hide Moments, ReadsAs;
    from, to := MomentRefines(c, before, after, b, j, image);
    RunPair(c, after, j, j);
    SafeInv(c, after[j].log, after[j].disk);
    SurvivorsRead(c, after[j].log, after[j].disk, image);
    assert Flat(Survivors(c, after[j].log, image).segs)[from..] == b.plan[from..to];
  }

  lemma SafeRecovers(c: Codec, log: Log, d: Disk, image: Disk)
    requires CrashSafe(c, log, d) && Crash(d, image)
    ensures DiskInv(c, log, d) && HasTop(log, image)
    ensures image.head.Some? && image.head.value in Heads(d) && Boundary(c, log, image.head.value)
    ensures var from := Position(c, log, image.head.value);
            var kept := Survivors(c, log, image);
            && Flat(kept.segs) <= Flat(log.segs) && DurableTail(c, log, d) <= |Flat(kept.segs)|
            && from <= |Flat(kept.segs)|
            && Load(c, image) == Some(LogEntries(c, log.first, kept.segs)[from..])
  {
    hide DiskInv, Load, Flat, Crash, Survivors, Boundary, Position;
    CrashRecovery(c, log, d, image);
  }

  lemma SurvivorsRead(c: Codec, log: Log, d: Disk, image: Disk)
    requires DiskInv(c, log, d) && Crash(d, image) && HasTop(log, image)
    requires image.head.Some? && Boundary(c, log, image.head.value)
    requires Position(c, log, image.head.value) <= |Flat(Survivors(c, log, image).segs)|
    ensures var from := Position(c, log, image.head.value);
            var kept := Survivors(c, log, image);
            var pending, entries := Flat(kept.segs)[from..], LogEntries(c, log.first, kept.segs)[from..];
            forall k | 0 <= k < |pending| :: ReadsAs(c, image, entries[k], pending[k])
  {
    hide DiskInv, Crash, Survivors, ReadsAs, Boundary, Position, Flat, LogEntries;
    var from := Position(c, log, image.head.value);
    var kept := Survivors(c, log, image);
    var pending, entries := Flat(kept.segs)[from..], LogEntries(c, log.first, kept.segs)[from..];
    forall k | 0 <= k < |pending|
      ensures ReadsAs(c, image, entries[k], pending[k])
    {
      ReadSurvivor(c, log, d, image, from + k);
    }
  }

  /** An index entry reads back as an envelope. */
  ghost predicate ReadsAs(c: Codec, d: Disk, e: Stored, envelope: Envelope) {
    && e.segment in d.files && e.id == envelope.id
    && ReadRecord(c, d.files[e.segment].data, e) == Some(envelope.body)
  }

  lemma InvSafe(c: Codec, v: View)
    requires Inv(c, v)
    ensures CrashSafe(c, v.log, v.disk)
  {
  }

  /** Every surviving record can be read from the crash image. */
  lemma ReadSurvivor(c: Codec, log: Log, d: Disk, image: Disk, p: nat)
    requires DiskInv(c, log, d) && Crash(d, image) && HasTop(log, image)
    requires image.head.Some? && Boundary(c, log, image.head.value)
    requires Position(c, log, image.head.value) <= p < |Flat(Survivors(c, log, image).segs)|
    ensures var kept := Survivors(c, log, image);
            var e := LogEntries(c, log.first, kept.segs)[p];
            ReadsAs(c, image, e, Flat(kept.segs)[p])
  {
    hide Position, Flat, DiskInv, Crash, WholeIn, Image, Boundary, ReadRecord;
    var kept := Survivors(c, log, image);
    var e := LogEntries(c, log.first, kept.segs)[p];
    HeadSurvives(c, log, d, image);
    LaterPresent(c, log, d, image);
    EntryCursor(c, kept, p, image.head.value);
    EntrySegment(c, log.first, kept.segs, p);
    LogEntryIds(c, log.first, kept.segs, p);
    SurvivorsLogOk(c, log, d, image);
    SurvivorImage(c, log, d, image, e.segment);
    ReadIndexed(c, log.first, kept.segs, p, image.files[e.segment].data);
  }

  lemma SurvivorImage(c: Codec, log: Log, d: Disk, image: Disk, s: nat)
    requires DiskInv(c, log, d) && Crash(d, image) && HasTop(log, image)
    requires s in image.files && s >= log.first
    ensures var kept := Survivors(c, log, image);
            log.first <= s <= LastId(kept) && Image(c, s, kept.segs[s - log.first]) <= image.files[s].data
  {
    hide DiskInv, Crash, WholeIn, Image;
    CrashFile(c, log, d, image, s);
    SurvivorRecords(c, log, d, image, s);
    var kept := Survivors(c, log, image);
    if s == LastId(kept) {
      var es, data := Records(log, s), image.files[s].data;
      TornTail(c, s, es, data);
      CutKeepsPrefix(c, s, es, data, WholeIn(c, es, |data| - SEGMENT_HEADER_SIZE));
    }
  }

  // ---- The cursor of a log position ------------------------------------------------

  /** The cursor the Outbox computes for the record at position `p`: the start of
      that record, or the end of the active segment. */
  function LogCursor(c: Codec, log: Log, p: nat): Cursor
    requires log.segs != [] && p <= |Flat(log.segs)|
  {
    if p < |Flat(log.segs)| then
      var e := LogEntries(c, log.first, log.segs)[p];
      Cursor(e.segment, e.start)
    else EndCursor(c, log)
  }

  lemma LogCursorExact(c: Codec, log: Log, p: nat, cur: Cursor)
    requires log.segs != [] && p <= |Flat(log.segs)|
    ensures Boundary(c, log, LogCursor(c, log, p)) && Position(c, log, LogCursor(c, log, p)) == p
    ensures Boundary(c, log, cur) && Position(c, log, cur) <= p ==> cur.segment <= LogCursor(c, log, p).segment
  {
    hide Boundary, Position, Flat;
    if p < |Flat(log.segs)| {
      EntryCursor(c, log, p, cur);
    } else {
      EndCursorIsLast(c, log);
      if Boundary(c, log, cur) { BoundarySegment(c, log, cur); }
    }
  }

  /** Once everything is synced, a position from the live head on is safe to
      install as a checkpoint. */
  lemma LogCursorHeadOk(c: Codec, v: View, p: nat)
    requires Inv(c, v) && !v.syncPending && v.head <= p <= |Flat(v.log.segs)|
    ensures HeadOk(c, v.log, v.disk, LogCursor(c, v.log, p))
    ensures v.cursor.segment <= LogCursor(c, v.log, p).segment
    ensures DistinctIds(Flat(v.log.segs)[p..])
  {
    hide Flat, Position, Boundary, Holds, Indexed, LogCursor;
    var cur := LogCursor(c, v.log, p);
    LogCursorExact(c, v.log, p, v.cursor);
    BoundarySegment(c, v.log, cur);
    assert cur.segment in v.disk.files;
    SyncedFile(c, v, cur.segment);
    BoundaryWithin(c, v.log, cur);
    SuffixOfDistinct(Flat(v.log.segs), Position(c, v.log, v.cursor), p);
  }

  lemma SuffixOfDistinct(es: seq<Envelope>, a: nat, b: nat)
    requires a <= b <= |es| && DistinctIds(es[a..])
    ensures DistinctIds(es[b..])
  {
    assert es[b..] == es[a..][b - a..];
  }

  lemma SyncedFile(c: Codec, v: View, s: nat)
    requires Inv(c, v) && !v.syncPending && s in v.disk.files && v.log.first <= s <= LastId(v.log)
    ensures v.disk.files[s].synced == Size(c, Records(v.log, s))
  {
    hide Flat, Position, Boundary, Indexed, Anchored, Unreused, HeadOk, LogOk;
    assert Holds(c, v.log, s, v.disk.files[s]);
    ImageSize(c, s, Records(v.log, s));
  }

  // ---- fsync and the directory barrier ----------------------------------------------

  function AfterFsync(v: View): View
    requires v.log.segs != [] && LastId(v.log) in v.disk.files
  {
    v.(disk := Fsync(v.disk, LastId(v.log)), syncPending := false)
  }

  lemma FsyncStep(c: Codec, v: View)
    requires Inv(c, v)
    ensures v.log.segs != [] && LastId(v.log) in v.disk.files && Inv(c, AfterFsync(v))
  {
    MirrorsFsync(c, v);
    FsyncSafe(c, v.log, v.disk);
    hide CrashSafe, Mirrors, Indexed, Anchored, Unreused;
    var v' := AfterFsync(v);
    IndexedSame(c, v, v');
    AnchoredSame(c, v, v');
    UnreusedSame(c, v, v');
  }

  lemma MirrorsFsync(c: Codec, v: View)
    requires Mirrors(c, v)
    ensures Mirrors(c, AfterFsync(v))
  {
    hide Image;
  }

  /** Nothing the anchors depend on changed. */
  lemma AnchoredSame(c: Codec, v: View, v': View)
    requires Anchored(c, v)
    requires v'.log == v.log && v'.head == v.head && v'.asked == v.asked && v'.cursor == v.cursor && v'.floor == v.floor
    requires v'.ceiling == v.ceiling
    requires v'.disk.files.Keys == v.disk.files.Keys && Heads(v'.disk) <= Heads(v.disk)
    ensures Anchored(c, v')
  {
    hide Boundary, Position, Flat, Heads;
  }

  lemma UnreusedSame(c: Codec, v: View, v': View)
    requires Unreused(c, v)
    requires v'.log == v.log && v'.head == v.head && v'.cursor == v.cursor && v'.completed == v.completed
    ensures Unreused(c, v')
  {
  }

  lemma FsyncAbs(c: Codec, v: View, syncs: nat, syncs': nat, saves: nat)
    requires Inv(c, v) && v.log.segs != [] && LastId(v.log) in v.disk.files && Inv(c, AfterFsync(v))
    ensures Abs(c, AfterFsync(v), syncs', saves)
         == Abs(c, v, syncs, saves).(durable := |Flat(v.log.segs)|, syncs := syncs')
  {
    SyncedDurable(c, AfterFsync(v));
    hide Flat, Position, Boundary, Inv, DurableTail;
    assert Heads(AfterFsync(v).disk) == Heads(v.disk);
  }

  /** With nothing left to sync, the whole log survives any crash. */
  lemma SyncedDurable(c: Codec, v: View)
    requires Inv(c, v) && !v.syncPending
    ensures DurableTail(c, v.log, v.disk) == |Flat(v.log.segs)|
  {
    hide Flat, Indexed, Anchored, Unreused, DiskInv, Image;
    ImageSize(c, LastId(v.log), Active(v.log.segs));
    DurableWithin(c, v.log, v.disk);
  }

  /** The index does not depend on the directory. */
  lemma IndexedSame(c: Codec, v: View, v': View)
    requires Indexed(c, v)
    requires v'.log == v.log && v'.head == v.head && v'.pending == v.pending && v'.byId == v.byId
    ensures Indexed(c, v')
  {
  }

  function AfterBarrier(v: View): View {
    v.(disk := Barrier(v.disk))
  }

  lemma BarrierStep(c: Codec, v: View)
    requires Inv(c, v)
    ensures Inv(c, AfterBarrier(v))
  {
    BarrierSafe(c, v.log, v.disk);
    MirrorsBarrier(c, v);
    hide CrashSafe, Mirrors, Indexed, Anchored, Unreused;
    var v' := AfterBarrier(v);
    assert Heads(v'.disk) <= Heads(v.disk);
    IndexedSame(c, v, v');
    AnchoredSame(c, v, v');
    UnreusedSame(c, v, v');
  }

  lemma MirrorsBarrier(c: Codec, v: View)
    requires Mirrors(c, v)
    ensures Mirrors(c, AfterBarrier(v))
  {
    hide Image;
  }

  lemma BarrierAbs(c: Codec, v: View, syncs: nat, saves: nat)
    requires Inv(c, v) && Inv(c, AfterBarrier(v))
    ensures v.disk.head.Some? && Boundary(c, v.log, v.disk.head.value)
    ensures var installed := Position(c, v.log, v.disk.head.value);
            && installed == Abs(c, v, syncs, saves).newest && installed in Abs(c, v, syncs, saves).heads
            && Abs(c, AfterBarrier(v), syncs, saves) == Abs(c, v, syncs, saves).(heads := {installed})
  {
    InstalledHead(c, v);
    DurableSame(c, v, AfterBarrier(v));
    hide Flat, Position, Boundary, Inv, DurableTail, DiskInv;
    OneHead(c, v, AfterBarrier(v), syncs, saves, v.disk.head.value);
  }

  lemma OneHead(c: Codec, v: View, v': View, syncs: nat, saves: nat, cur: Cursor)
    requires Inv(c, v) && Inv(c, v') && v'.log == v.log
    requires Boundary(c, v.log, cur) && cur in Heads(v.disk) && Heads(v'.disk) == {cur}
    ensures Position(c, v.log, cur) in Abs(c, v, syncs, saves).heads
    ensures Abs(c, v', syncs, saves).heads == {Position(c, v.log, cur)}
  {
    hide Flat, Position, Boundary, Inv, DurableTail, Heads;
  }

  lemma DurableSame(c: Codec, v: View, v': View)
    requires Inv(c, v) && Inv(c, v') && v'.log == v.log && v'.disk.files == v.disk.files
    ensures DurableTail(c, v'.log, v'.disk) == DurableTail(c, v.log, v.disk)
  {
    hide Mirrors, Indexed, Anchored, Unreused, Holds, HeadOk, WholeIn, Flat;
  }

  lemma InstalledHead(c: Codec, v: View)
    requires Inv(c, v)
    ensures v.disk.head.Some? && Boundary(c, v.log, v.disk.head.value)
  {
    hide Boundary, Holds, LogOk;
    assert HeadOk(c, v.log, v.disk, v.disk.head.value);
  }

  // ---- Installing a checkpoint --------------------------------------------------------

  /** A removal is about to ask for the head after the live one. */
  lemma AskStep(c: Codec, v: View)
    requires Inv(c, v) && v.head < |Flat(v.log.segs)|
    ensures Inv(c, v.(asked := v.head + 1))
  {
    hide CrashSafe, Mirrors, Indexed, Unreused, Boundary, Position, Flat;
    var v' := v.(asked := v.head + 1);
    assert Mirrors(c, v') by { MirrorsSame(c, v, v'); }
    IndexedSame(c, v, v');
    UnreusedSame(c, v, v');
  }

  lemma MirrorsSame(c: Codec, v: View, v': View)
    requires Mirrors(c, v)
    requires v'.log == v.log && v'.disk.files == v.disk.files && v'.disk.recent == v.disk.recent
    requires v'.segments == v.segments && v'.syncPending == v.syncPending
    ensures Mirrors(c, v')
  {
    hide Image;
  }

  /** A checkpoint up to `f` may now be installed. */
  lemma CeilingStep(c: Codec, v: View, f: nat, syncs: nat, saves: nat)
    requires Inv(c, v) && f <= v.asked
    ensures Inv(c, v.(ceiling := f))
    ensures Abs(c, v.(ceiling := f), syncs, saves) == Abs(c, v, syncs, saves)
  {
    hide CrashSafe, Mirrors, Indexed, Unreused, Boundary, Position, Flat, DurableTail;
    var v' := v.(ceiling := f);
    MirrorsSame(c, v, v');
    IndexedSame(c, v, v');
    UnreusedSame(c, v, v');
  }

  function AfterInstall(c: Codec, v: View, p: nat): View
    requires v.log.segs != [] && p <= |Flat(v.log.segs)|
  {
    v.(disk := InstallHead(v.disk, LogCursor(c, v.log, p)))
  }

  lemma InstallStep(c: Codec, v: View, p: nat)
    requires Inv(c, v) && !v.syncPending && v.head <= p <= v.asked
    ensures v.log.segs != [] && p <= |Flat(v.log.segs)|
    ensures HeadOk(c, v.log, v.disk, LogCursor(c, v.log, p)) && DistinctIds(Flat(v.log.segs)[p..])
    ensures Position(c, v.log, LogCursor(c, v.log, p)) == p && v.floor <= p
    ensures Inv(c, AfterInstall(c, v, p))
  {
    assert p <= |Flat(v.log.segs)|;
    hide Mirrors, Indexed, Unreused, Boundary, Position, Flat, LogCursor, DiskInv, HeadOk;
    LogCursorHeadOk(c, v, p);
    LogCursorExact(c, v.log, p, v.cursor);
    InstallHeadSafe(c, v.log, v.disk, LogCursor(c, v.log, p));
    var v' := AfterInstall(c, v, p);
    MirrorsSame(c, v, v');
    IndexedSame(c, v, v');
    UnreusedSame(c, v, v');
    assert Heads(v'.disk) <= Heads(v.disk) + {LogCursor(c, v.log, p)};
    AnchoredInstall(c, v, v', p);
  }

  lemma AnchoredInstall(c: Codec, v: View, v': View, p: nat)
    requires Anchored(c, v) && v.head <= p <= v.asked && v.log.segs != []
    requires Boundary(c, v.log, LogCursor(c, v.log, p)) && Position(c, v.log, LogCursor(c, v.log, p)) == p
    requires v.cursor.segment <= LogCursor(c, v.log, p).segment
    requires v'.log == v.log && v'.head == v.head && v'.asked == v.asked && v'.cursor == v.cursor && v'.floor == v.floor
    requires v'.ceiling == v.ceiling
    requires v'.disk.files == v.disk.files && Heads(v'.disk) <= Heads(v.disk) + {LogCursor(c, v.log, p)}
    ensures Anchored(c, v')
  {
    hide Boundary, Position, Flat, Heads, LogCursor;
  }

  // ---- Moving the head ----------------------------------------------------------------

  lemma PendingIds(c: Codec, v: View, i: nat)
    requires Indexed(c, v) && i < |v.pending|
    ensures v.head + i < |Flat(v.log.segs)| && v.pending[i].id == Flat(v.log.segs)[v.head + i].id
  {
    hide Flat;
    LogEntryIds(c, v.log.first, v.log.segs, v.head + i);
  }

  lemma PendingDistinct(c: Codec, v: View, i: nat, j: nat)
    requires Indexed(c, v) && Unreused(c, v) && i < j < |v.pending|
    ensures v.pending[i].id != v.pending[j].id
  {
    PendingIds(c, v, i);
    PendingIds(c, v, j);
    hide Flat, Position;
    var from := Position(c, v.log, v.cursor);
    var es := Flat(v.log.segs)[from..];
    assert es[v.head + i - from].id != es[v.head + j - from].id;
  }

  /** The index after the head record left it. */
  lemma IndexedPop(c: Codec, v: View, v': View)
    requires Indexed(c, v) && Unreused(c, v) && v.pending != []
    requires v'.log == v.log && v'.head == v.head + 1 && v'.pending == v.pending[1..]
    requires v'.byId == v.byId - {v.pending[0].id}
    ensures Indexed(c, v')
  {
    PendingIds(c, v, 0);
    IndexedFacts(c, v);
    forall i | 0 < i < |v.pending|
      ensures v.pending[i].id != v.pending[0].id
    {
      PendingDistinct(c, v, 0, i);
    }
    hide Flat, Unreused, LogEntries;
    assert LogEntries(c, v.log.first, v.log.segs)[v.head..][1..] == LogEntries(c, v.log.first, v.log.segs)[v.head + 1..];
    PopKeys(v.pending, v.byId);
  }

  lemma IndexedFacts(c: Codec, v: View)
    requires Indexed(c, v)
    ensures forall i | 0 <= i < |v.pending| :: v.pending[i].id in v.byId && v.byId[v.pending[i].id] == v.pending[i]
    ensures forall id | id in v.byId :: exists i :: 0 <= i < |v.pending| && v.pending[i].id == id
  {
  }

  lemma PopKeys(pending: seq<Stored>, m: map<Id, Stored>)
    requires pending != []
    requires forall i | 0 < i < |pending| :: pending[i].id != pending[0].id
    requires forall i | 0 <= i < |pending| :: pending[i].id in m && m[pending[i].id] == pending[i]
    requires forall id | id in m :: exists i :: 0 <= i < |pending| && pending[i].id == id
    ensures var rest, m' := pending[1..], m - {pending[0].id};
            && (forall i | 0 <= i < |rest| :: rest[i].id in m' && m'[rest[i].id] == rest[i])
            && (forall id | id in m' :: exists i :: 0 <= i < |rest| && rest[i].id == id)
  {
    var rest, m' := pending[1..], m - {pending[0].id};
    forall id | id in m'
      ensures exists i :: 0 <= i < |rest| && rest[i].id == id
    {
      var i :| 0 <= i < |pending| && pending[i].id == id;
      assert rest[i - 1].id == id;
    }
  }

  function AfterPop(v: View): View
    requires v.pending != []
  {
    v.(head := v.head + 1, asked := v.head + 1, pending := v.pending[1..],
       byId := v.byId - {v.pending[0].id}, completed := v.completed + {v.pending[0].id})
  }

  lemma PopStep(c: Codec, v: View)
    requires Inv(c, v) && v.pending != []
    ensures Inv(c, AfterPop(v))
  {
    hide CrashSafe, Mirrors, Indexed, Anchored, Unreused;
    var v' := AfterPop(v);
    MirrorsSame(c, v, v');
    IndexedPop(c, v, v');
    AnchoredPop(c, v);
    UnreusedPop(c, v);
  }

  lemma AnchoredPop(c: Codec, v: View)
    requires Anchored(c, v) && Indexed(c, v) && v.pending != []
    ensures Anchored(c, AfterPop(v))
  {
    PendingIds(c, v, 0);
    hide Boundary, Position, Flat, Indexed, Heads;
  }

  lemma UnreusedPop(c: Codec, v: View)
    requires Unreused(c, v) && Indexed(c, v) && v.pending != []
    ensures Unreused(c, AfterPop(v))
  {
    hide Position, Flat, Indexed, Boundary, DistinctIds, Ids;
    PendingIds(c, v, 0);
    var from := Position(c, v.log, v.cursor);
    var es := Flat(v.log.segs);
    assert es[from..v.head + 1] == es[from..v.head] + [es[v.head]];
    IdsSnoc(es[from..v.head], es[v.head]);
  }

  /** The installed checkpoint became the memory's: the live head moves to it and
      no completed ID is volatile any more. */
  function AfterSave(c: Codec, v: View, p: nat): View
    requires v.log.segs != [] && p <= |Flat(v.log.segs)|
  {
    v.(cursor := LogCursor(c, v.log, p), completed := {}, floor := p)
  }

  lemma SaveStep(c: Codec, v: View)
    requires Inv(c, v) && v.log.segs != [] && v.head <= |Flat(v.log.segs)|
    requires Heads(v.disk) == {LogCursor(c, v.log, v.head)}
    ensures Inv(c, AfterSave(c, v, v.head))
  {
    hide CrashSafe, Mirrors, Indexed, Unreused, Boundary, Position, Flat, LogCursor;
    LogCursorExact(c, v.log, v.head, v.cursor);
    var v' := AfterSave(c, v, v.head);
    MirrorsSame(c, v, v');
    IndexedSame(c, v, v');
    UnreusedSave(c, v);
  }

  lemma SaveFloor(c: Codec, v: View)
    requires Inv(c, v) && v.log.segs != [] && v.head <= |Flat(v.log.segs)|
    requires Heads(v.disk) == {LogCursor(c, v.log, v.head)}
    ensures v.floor <= v.head
    ensures forall cur | cur in Heads(v.disk) && Boundary(c, v.log, cur) :: v.head <= Position(c, v.log, cur)
  {
    hide CrashSafe, Mirrors, Indexed, Unreused, Boundary, Position, Flat, LogCursor;
    LogCursorExact(c, v.log, v.head, v.cursor);
  }

  lemma UnreusedSave(c: Codec, v: View)
    requires Unreused(c, v) && v.log.segs != []
    ensures Unreused(c, AfterSave(c, v, v.head))
  {
    hide Position, Flat, Boundary, LogCursor;
    LogCursorExact(c, v.log, v.head, v.cursor);
    SuffixOfDistinct(Flat(v.log.segs), Position(c, v.log, v.cursor), v.head);
  }

  // ---- Appending a chunk -----------------------------------------------------------------

  /** `m'` is `m` with the given index entries added. */
  ghost predicate Adds(m: map<Id, Stored>, m': map<Id, Stored>, entries: seq<Stored>) {
    && (forall i | 0 <= i < |entries| :: entries[i].id in m' && m'[entries[i].id] == entries[i])
    && (forall id | id in m :: id in m')
    && (forall id | id in m && (forall i | 0 <= i < |entries| :: entries[i].id != id) :: m'[id] == m[id])
    && (forall id | id in m' :: id in m || exists i :: 0 <= i < |entries| && entries[i].id == id)
  }

  function ChunkEntries(c: Codec, log: Log, chunk: seq<Envelope>): seq<Stored>
    requires log.segs != []
  {
    Entries(c, LastId(log), Size(c, Active(log.segs)), chunk)
  }

  lemma EntriesExtend(c: Codec, log: Log, chunk: seq<Envelope>)
    requires log.segs != []
    ensures LogEntries(c, log.first, Extend(log, chunk).segs)
         == LogEntries(c, log.first, log.segs) + ChunkEntries(c, log, chunk)
  {
    hide Entries, LogEntries, Blob;
    var init, es := log.segs[..|log.segs| - 1], Active(log.segs);
    assert log.segs == init + [es];
    assert Extend(log, chunk).segs == init + [es + chunk];
    LogEntriesConcat(c, log.first, init, [es]);
    LogEntriesConcat(c, log.first, init, [es + chunk]);
    LogEntriesOne(c, LastId(log), es);
    LogEntriesOne(c, LastId(log), es + chunk);
    EntriesConcat(c, LastId(log), SEGMENT_HEADER_SIZE, es, chunk);
  }

  function AfterWrite(c: Codec, v: View, chunk: seq<Envelope>, byId: map<Id, Stored>): View
    requires v.log.segs != [] && LastId(v.log) in v.disk.files && LastId(v.log) in v.segments
  {
    var id := LastId(v.log);
    v.(log := Extend(v.log, chunk),
       disk := Write(v.disk, id, Blob(c, chunk)),
       segments := v.segments[id := Segment(v.segments[id].byteSize + |Blob(c, chunk)|,
                                            v.segments[id].recordCount + |chunk|)],
       pending := v.pending + ChunkEntries(c, v.log, chunk),
       byId := byId,
       syncPending := true)
  }

  /** The records appended are new: none repeats an ID still on disk at or after
      the memory's checkpoint. */
  ghost predicate Fresh(c: Codec, v: View, chunk: seq<Envelope>) {
    && Boundary(c, v.log, v.cursor)
    && DistinctIds((Flat(v.log.segs) + chunk)[Position(c, v.log, v.cursor)..])
  }

  lemma FreshForHeads(c: Codec, v: View, chunk: seq<Envelope>)
    requires Anchored(c, v) && Fresh(c, v, chunk)
    ensures forall cur | cur in Heads(v.disk) && Boundary(c, v.log, cur) ::
              DistinctIds((Flat(v.log.segs) + chunk)[Position(c, v.log, cur)..])
  {
    hide Boundary, Position, Flat, DistinctIds;
    forall cur | cur in Heads(v.disk) && Boundary(c, v.log, cur)
      ensures DistinctIds((Flat(v.log.segs) + chunk)[Position(c, v.log, cur)..])
    {
      SuffixOfDistinct(Flat(v.log.segs) + chunk, Position(c, v.log, v.cursor), Position(c, v.log, cur));
    }
  }

  lemma WriteStep(c: Codec, v: View, chunk: seq<Envelope>, byId: map<Id, Stored>)
    requires Inv(c, v) && AllStorable(c, chunk) && Fresh(c, v, chunk)
    requires v.log.segs != [] && Adds(v.byId, byId, ChunkEntries(c, v.log, chunk))
    ensures LastId(v.log) in v.disk.files && LastId(v.log) in v.segments
    ensures Inv(c, AfterWrite(c, v, chunk, byId))
  {
    FreshForHeads(c, v, chunk);
    MirrorsWrite(c, v, chunk, byId);
    WriteSafe(c, v.log, v.disk, chunk, Blob(c, chunk));
    hide CrashSafe, Mirrors, Indexed, Anchored, Unreused, Fresh, Adds, AllStorable, Blob, Extend;
    IndexedWrite(c, v, chunk, byId);
    AnchoredWrite(c, v, chunk, byId);
    UnreusedWrite(c, v, chunk, byId);
  }

  lemma MirrorsWrite(c: Codec, v: View, chunk: seq<Envelope>, byId: map<Id, Stored>)
    requires Mirrors(c, v)
    ensures LastId(v.log) in v.disk.files && LastId(v.log) in v.segments
    ensures Mirrors(c, AfterWrite(c, v, chunk, byId))
  {
    hide Image, Blob;
    ImageConcat(c, LastId(v.log), Active(v.log.segs), chunk);
  }

  lemma IndexedWrite(c: Codec, v: View, chunk: seq<Envelope>, byId: map<Id, Stored>)
    requires Indexed(c, v) && v.log.segs != [] && Adds(v.byId, byId, ChunkEntries(c, v.log, chunk))
    requires Unreused(c, v) && Fresh(c, v, chunk)
    requires LastId(v.log) in v.disk.files && LastId(v.log) in v.segments
    ensures Indexed(c, AfterWrite(c, v, chunk, byId))
  {
    hide Blob, Flat, Entries, LogEntries, Extend;
    var v', entries := AfterWrite(c, v, chunk, byId), ChunkEntries(c, v.log, chunk);
    EntriesExtend(c, v.log, chunk);
    FlatExtends(v.log, chunk);
    forall i | 0 <= i < |v'.pending|
      ensures v'.pending[i].id in byId && byId[v'.pending[i].id] == v'.pending[i]
    {
      if i < |v.pending| {
        forall j | 0 <= j < |entries|
          ensures entries[j].id != v.pending[i].id
        {
          PendingUnlikeChunk(c, v, chunk, i, j);
        }
      }
    }
    IndexedKeys(v.pending, entries, v.byId, byId);
  }

  lemma IndexedKeys(pending: seq<Stored>, entries: seq<Stored>, m: map<Id, Stored>, m': map<Id, Stored>)
    requires forall id | id in m :: exists i :: 0 <= i < |pending| && pending[i].id == id
    requires Adds(m, m', entries)
    ensures forall id | id in m' :: exists i :: 0 <= i < |pending + entries| && (pending + entries)[i].id == id
  {
    forall id | id in m'
      ensures exists i :: 0 <= i < |pending + entries| && (pending + entries)[i].id == id
    {
      if id in m {
        var i :| 0 <= i < |pending| && pending[i].id == id;
        assert (pending + entries)[i].id == id;
      } else {
        var i :| 0 <= i < |entries| && entries[i].id == id;
        assert (pending + entries)[|pending| + i].id == id;
      }
    }
  }

  lemma PendingUnlikeChunk(c: Codec, v: View, chunk: seq<Envelope>, i: nat, j: nat)
    requires Indexed(c, v) && Unreused(c, v) && Fresh(c, v, chunk) && v.log.segs != []
    requires i < |v.pending| && j < |chunk|
    ensures v.pending[i].id != ChunkEntries(c, v.log, chunk)[j].id
  {
    PendingIds(c, v, i);
    EntryIds(c, LastId(v.log), Size(c, Active(v.log.segs)), chunk, j);
    hide Flat, Indexed, Entries, Position;
    var es, from := Flat(v.log.segs) + chunk, Position(c, v.log, v.cursor);
    assert es[from..][v.head + i - from] == es[v.head + i];
    assert es[from..][|Flat(v.log.segs)| + j - from] == chunk[j];
  }

  lemma AnchoredWrite(c: Codec, v: View, chunk: seq<Envelope>, byId: map<Id, Stored>)
    requires Anchored(c, v) && v.log.segs != [] && LastId(v.log) in v.disk.files && LastId(v.log) in v.segments
    ensures Anchored(c, AfterWrite(c, v, chunk, byId))
  {
    hide Boundary, Position, Flat, Blob, Extend;
    var v' := AfterWrite(c, v, chunk, byId);
    FlatExtends(v.log, chunk);
    BoundaryExtends(c, v.log, chunk, v.cursor);
    assert Heads(v'.disk) == Heads(v.disk);
    forall cur | cur in Heads(v.disk)
      ensures Boundary(c, v'.log, cur) && Position(c, v'.log, cur) == Position(c, v.log, cur)
    {
      BoundaryExtends(c, v.log, chunk, cur);
    }
  }

  lemma UnreusedWrite(c: Codec, v: View, chunk: seq<Envelope>, byId: map<Id, Stored>)
    requires Unreused(c, v) && Fresh(c, v, chunk)
    requires v.log.segs != [] && LastId(v.log) in v.disk.files && LastId(v.log) in v.segments
    ensures Unreused(c, AfterWrite(c, v, chunk, byId))
  {
    hide Boundary, Position, Flat, Blob, Extend, DistinctIds;
    FlatExtends(v.log, chunk);
    BoundaryExtends(c, v.log, chunk, v.cursor);
    var from := Position(c, v.log, v.cursor);
    assert (Flat(v.log.segs) + chunk)[from..v.head] == Flat(v.log.segs)[from..v.head];
  }

  // ---- Rotation and cleanup ----------------------------------------------------------------

  function AfterRotate(v: View): View
    requires v.log.segs != []
  {
    var id := LastId(v.log) + 1;
    v.(log := Rotated(v.log), disk := Barrier(InstallSegment(v.disk, id, SegmentHeader(id))),
       segments := v.segments[id := Segment(SEGMENT_HEADER_SIZE, 0)])
  }

  lemma RotateStep(c: Codec, v: View)
    requires Inv(c, v) && !v.syncPending && v.log.segs != [] && LastId(v.log) < MAX_SEGMENT_ID
    ensures Inv(c, AfterRotate(v))
  {
    SafeRotate(c, v);
    hide CrashSafe, Mirrors, Indexed, Anchored, Unreused, AfterRotate;
    MirrorsRotate(c, v);
    IndexedRotate(c, v);
    AnchoredRotate(c, v);
    UnreusedRotate(c, v);
  }

  lemma SafeRotate(c: Codec, v: View)
    requires CrashSafe(c, v.log, v.disk) && Mirrors(c, v) && !v.syncPending && LastId(v.log) < MAX_SEGMENT_ID
    ensures CrashSafe(c, AfterRotate(v).log, AfterRotate(v).disk)
  {
    hide CrashSafe, Image, SegmentHeader;
    InstallSegmentSafe(c, v.log, v.disk);
    var id := LastId(v.log) + 1;
    BarrierSafe(c, Rotated(v.log), InstallSegment(v.disk, id, SegmentHeader(id)));
  }

  lemma MirrorsRotate(c: Codec, v: View)
    requires Mirrors(c, v)
    ensures Mirrors(c, AfterRotate(v))
  {
    NewSegmentHolds(c, v.log);
    hide Image, SegmentHeader;
    NewSegmentImage(c, LastId(v.log) + 1);
  }

  lemma EntriesRotate(c: Codec, log: Log)
    ensures LogEntries(c, log.first, Rotated(log).segs) == LogEntries(c, log.first, log.segs)
  {
    LogEntriesConcat(c, log.first, log.segs, [[]]);
    LogEntriesOne(c, log.first + |log.segs|, []);
  }

  lemma IndexedRotate(c: Codec, v: View)
    requires Indexed(c, v) && v.log.segs != []
    ensures Indexed(c, AfterRotate(v))
  {
    EntriesRotate(c, v.log);
    FlatExtends(v.log, []);
    hide Flat, LogEntries, SegmentHeader;
  }

  lemma AnchoredRotate(c: Codec, v: View)
    requires Anchored(c, v) && v.log.segs != []
    ensures Anchored(c, AfterRotate(v))
  {
    hide Boundary, Position, Flat, SegmentHeader, Rotated;
    var v' := AfterRotate(v);
    FlatExtends(v.log, []);
    BoundaryRotates(c, v.log, v.cursor);
    RotatedLast(v.log);
    assert Heads(v'.disk) <= Heads(v.disk);
    forall cur | cur in Heads(v.disk)
      ensures Boundary(c, v'.log, cur) && Position(c, v'.log, cur) == Position(c, v.log, cur)
    {
      BoundaryRotates(c, v.log, cur);
    }
  }

  lemma UnreusedRotate(c: Codec, v: View)
    requires Unreused(c, v) && v.log.segs != []
    ensures Unreused(c, AfterRotate(v))
  {
    hide Boundary, Position, Flat, SegmentHeader, Rotated, DistinctIds;
    FlatExtends(v.log, []);
    BoundaryRotates(c, v.log, v.cursor);
  }

  function AfterUnlink(v: View, id: nat): View
    requires id in v.disk.files
  {
    v.(disk := Unlink(v.disk, id), segments := v.segments - {id})
  }

  lemma UnlinkStep(c: Codec, v: View, id: nat)
    requires Inv(c, v) && id in v.disk.files && id < v.cursor.segment
    ensures v.log.segs != [] && id < LastId(v.log) && id !in v.disk.recent
    ensures forall cur | cur in Heads(v.disk) :: id < cur.segment
    ensures Inv(c, AfterUnlink(v, id))
  {
    UnlinkBelow(c, v, id);
    MirrorsUnlink(c, v, id);
    AnchoredUnlink(c, v, id);
    hide Mirrors, Anchored, CrashSafe, Indexed, Unreused;
    UnlinkSafe(c, v.log, v.disk, id);
    IndexedSame(c, v, AfterUnlink(v, id));
    UnreusedSame(c, v, AfterUnlink(v, id));
  }

  lemma UnlinkBelow(c: Codec, v: View, id: nat)
    requires Anchored(c, v) && Mirrors(c, v) && id < v.cursor.segment
    ensures forall cur | cur in Heads(v.disk) :: id < cur.segment
    ensures v.log.segs != [] && id < LastId(v.log) && id !in v.disk.recent
  {
    BoundarySegment(c, v.log, v.cursor);
    hide Boundary, Position, Flat, Image;
  }

  lemma MirrorsUnlink(c: Codec, v: View, id: nat)
    requires Mirrors(c, v) && id in v.disk.files && id < LastId(v.log)
    ensures Mirrors(c, AfterUnlink(v, id))
  {
    hide Image;
  }

  lemma AnchoredUnlink(c: Codec, v: View, id: nat)
    requires Anchored(c, v) && id in v.disk.files && id < v.cursor.segment
    ensures Anchored(c, AfterUnlink(v, id))
  {
    hide Boundary, Position, Flat;
    assert Heads(AfterUnlink(v, id).disk) == Heads(v.disk);
  }

  // ---- The same steps on the abstract queue ---------------------------------------------------

  lemma InvDisk(c: Codec, v: View)
    requires Inv(c, v)
    ensures DiskInv(c, v.log, v.disk)
  {
    hide DiskInv, Mirrors, Indexed, Anchored, Unreused;
  }

  lemma WriteAbs(c: Codec, v: View, chunk: seq<Envelope>, byId: map<Id, Stored>, syncs: nat, saves: nat)
    requires Inv(c, v) && v.log.segs != [] && LastId(v.log) in v.disk.files && LastId(v.log) in v.segments
    requires Inv(c, AfterWrite(c, v, chunk, byId))
    ensures var q := Abs(c, v, syncs, saves);
            var q' := Abs(c, AfterWrite(c, v, chunk, byId), syncs, saves);
            q' == q.(items := q.items + chunk, durable := q'.durable) && q'.durable >= q.durable
  {
    hide Flat, Position, Inv, DurableTail, Boundary, Extend, Blob, DiskInv, ChunkEntries, Write;
    DurableWrite(c, v, chunk, byId);
    PositionsWrite(c, v, chunk);
    FlatExtends(v.log, chunk);
    WriteKeepsHeads(v.disk, LastId(v.log), Blob(c, chunk));
    HeadsMove(c, v, AfterWrite(c, v, chunk, byId), syncs, saves);
    InstalledHead(c, v);
    WriteKeepsHead(v.disk, LastId(v.log), Blob(c, chunk));
  }

  lemma WriteKeepsHeads(d: Disk, id: nat, data: bytes)
    requires id in d.files
    ensures Heads(Write(d, id, data)) == Heads(d)
  {
  }

  lemma WriteKeepsHead(d: Disk, id: nat, data: bytes)
    requires id in d.files
    ensures Write(d, id, data).head == d.head && (d.head.Some? ==> d.head.value in Heads(d))
  {
  }

  /** Installed checkpoints keep their positions. */
  lemma HeadsMove(c: Codec, v: View, v': View, syncs: nat, saves: nat)
    requires Inv(c, v) && Inv(c, v') && Heads(v'.disk) == Heads(v.disk)
    requires forall cur | cur in Heads(v.disk) :: Boundary(c, v.log, cur) && Boundary(c, v'.log, cur)
               && Position(c, v'.log, cur) == Position(c, v.log, cur)
    ensures Abs(c, v', syncs, saves).heads == Abs(c, v, syncs, saves).heads
  {
    hide Flat, Position, Inv, DurableTail, Boundary, Heads;
  }

  lemma PositionsWrite(c: Codec, v: View, chunk: seq<Envelope>)
    requires Inv(c, v) && v.log.segs != []
    ensures Boundary(c, v.log, v.cursor) && Boundary(c, Extend(v.log, chunk), v.cursor)
    ensures Position(c, Extend(v.log, chunk), v.cursor) == Position(c, v.log, v.cursor)
    ensures forall cur | cur in Heads(v.disk) ::
              && Boundary(c, v.log, cur) && Boundary(c, Extend(v.log, chunk), cur)
              && Position(c, Extend(v.log, chunk), cur) == Position(c, v.log, cur)
  {
    hide Flat, Position, Boundary, Extend, CrashSafe, Mirrors, Indexed, Unreused, Heads;
    BoundaryExtends(c, v.log, chunk, v.cursor);
    forall cur | cur in Heads(v.disk)
      ensures Boundary(c, v.log, cur) && Boundary(c, Extend(v.log, chunk), cur)
      ensures Position(c, Extend(v.log, chunk), cur) == Position(c, v.log, cur)
    {
      BoundaryExtends(c, v.log, chunk, cur);
    }
  }

  lemma DurableWrite(c: Codec, v: View, chunk: seq<Envelope>, byId: map<Id, Stored>)
    requires Inv(c, v) && v.log.segs != [] && LastId(v.log) in v.disk.files && LastId(v.log) in v.segments
    requires Inv(c, AfterWrite(c, v, chunk, byId))
    ensures DurableTail(c, AfterWrite(c, v, chunk, byId).log, AfterWrite(c, v, chunk, byId).disk)
         >= DurableTail(c, v.log, v.disk)
  {
    InvDisk(c, v);
    InvDisk(c, AfterWrite(c, v, chunk, byId));
    ActiveFile(c, v.log, v.disk);
    hide Inv, DiskInv, Flat, Blob, WholeIn, ChunkEntries, DurableCount, Extend;
    CountLonger(c, v.log.segs, Extend(v.log, chunk).segs, chunk, v.disk.files[LastId(v.log)].synced);
  }

  lemma RotateAbs(c: Codec, v: View, syncs: nat, saves: nat)
    requires Inv(c, v) && v.log.segs != [] && Inv(c, AfterRotate(v)) && !v.syncPending
    ensures var q := Abs(c, v, syncs, saves);
            var q' := Abs(c, AfterRotate(v), syncs, saves);
            q' == q.(heads := q'.heads) && q'.heads <= q.heads
  {
    FlatExtends(v.log, []);
    PositionsRotate(c, v);
    SyncedDurable(c, v);
    SyncedDurable(c, AfterRotate(v));
    hide Flat, Position, Inv, DurableTail, Boundary, DiskInv, SegmentHeader, Rotated;
    assert Heads(AfterRotate(v).disk) <= Heads(v.disk);
  }

  lemma PositionsRotate(c: Codec, v: View)
    requires Inv(c, v) && v.log.segs != []
    ensures Boundary(c, v.log, v.cursor) && Boundary(c, Rotated(v.log), v.cursor)
    ensures Position(c, Rotated(v.log), v.cursor) == Position(c, v.log, v.cursor)
    ensures forall cur | cur in Heads(v.disk) ::
              && Boundary(c, v.log, cur) && Boundary(c, Rotated(v.log), cur)
              && Position(c, Rotated(v.log), cur) == Position(c, v.log, cur)
  {
    hide Flat, Position, Boundary, Rotated, CrashSafe, Mirrors, Indexed, Unreused, Heads;
    BoundaryRotates(c, v.log, v.cursor);
    forall cur | cur in Heads(v.disk)
      ensures Boundary(c, v.log, cur) && Boundary(c, Rotated(v.log), cur)
      ensures Position(c, Rotated(v.log), cur) == Position(c, v.log, cur)
    {
      BoundaryRotates(c, v.log, cur);
    }
  }

  lemma InstallAbs(c: Codec, v: View, p: nat, syncs: nat, saves: nat)
    requires Inv(c, v) && v.log.segs != [] && p <= |Flat(v.log.segs)| && Inv(c, AfterInstall(c, v, p))
    ensures var q := Abs(c, v, syncs, saves);
            Abs(c, AfterInstall(c, v, p), syncs, saves) == q.(heads := q.heads + {p}, newest := p)
  {
    DurableSame(c, v, AfterInstall(c, v, p));
    LogCursorExact(c, v.log, p, v.cursor);
    InstalledHead(c, v);
    hide Flat, Position, Inv, DurableTail, Boundary, DiskInv, LogCursor, Heads;
    HeadsAdd(c, v, AfterInstall(c, v, p), syncs, saves, LogCursor(c, v.log, p));
  }

  lemma HeadsAdd(c: Codec, v: View, v': View, syncs: nat, saves: nat, cur: Cursor)
    requires Inv(c, v) && Inv(c, v') && v'.log == v.log
    requires Boundary(c, v.log, cur) && v'.disk == InstallHead(v.disk, cur)
    ensures Abs(c, v', syncs, saves).heads == Abs(c, v, syncs, saves).heads + {Position(c, v.log, cur)}
    ensures Abs(c, v', syncs, saves).newest == Position(c, v.log, cur)
  {
    hide Flat, Position, Boundary, Inv, DurableTail;
    assert Heads(v'.disk) == Heads(v.disk) + {cur};
  }

  lemma UnlinkAbs(c: Codec, v: View, id: nat, syncs: nat, saves: nat)
    requires Inv(c, v) && id in v.disk.files && Inv(c, AfterUnlink(v, id))
    ensures Abs(c, AfterUnlink(v, id), syncs, saves) == Abs(c, v, syncs, saves)
  {
    DurableUnlink(c, v, id);
    hide Flat, Position, Inv, DurableTail, Boundary, DiskInv;
    assert Heads(AfterUnlink(v, id).disk) == Heads(v.disk);
  }

  lemma DurableUnlink(c: Codec, v: View, id: nat)
    requires Inv(c, v) && id in v.disk.files && Inv(c, AfterUnlink(v, id))
    ensures DurableTail(c, v.log, AfterUnlink(v, id).disk) == DurableTail(c, v.log, v.disk)
  {
    InvDisk(c, v);
    InvDisk(c, AfterUnlink(v, id));
    UnlinkKeepsActive(c, v, id);
    hide Inv, DiskInv, DurableCount;
  }

  lemma UnlinkKeepsActive(c: Codec, v: View, id: nat)
    requires Inv(c, v) && id in v.disk.files && Inv(c, AfterUnlink(v, id))
    ensures v.log.segs != [] && LastId(v.log) in v.disk.files && id != LastId(v.log)
  {
    hide CrashSafe, Indexed, Anchored, Unreused, Image;
  }

  lemma SaveAbs(c: Codec, v: View, syncs: nat, saves: nat, saves': nat)
    requires Inv(c, v) && v.log.segs != [] && v.head <= |Flat(v.log.segs)| && Inv(c, AfterSave(c, v, v.head))
    ensures Abs(c, AfterSave(c, v, v.head), syncs, saves') == Abs(c, v, syncs, saves).(saved := v.head, saves := saves')
  {
    LogCursorExact(c, v.log, v.head, v.cursor);
    hide Flat, Position, Inv, DurableTail, Boundary, DiskInv, LogCursor;
  }

  lemma PopAbs(c: Codec, v: View, syncs: nat, saves: nat)
    requires Inv(c, v) && v.pending != [] && Inv(c, AfterPop(v))
    ensures Abs(c, AfterPop(v), syncs, saves) == Abs(c, v, syncs, saves).(head := v.head + 1, asked := v.head + 1)
  {
    hide Flat, Position, Inv, DurableTail, Boundary, DiskInv;
  }

  // ---- What the Outbox reads from its index --------------------------------------------------

  lemma ActiveIsMax(c: Codec, v: View)
    requires Inv(c, v)
    ensures v.log.segs != [] && LastId(v.log) in v.segments && LastId(v.log) in v.disk.files
    ensures forall s | s in v.segments :: s <= LastId(v.log)
    ensures v.segments.Keys == v.disk.files.Keys
    ensures v.segments[LastId(v.log)] == Segment(Size(c, Active(v.log.segs)), |Active(v.log.segs)|)
  {
    hide Indexed, Anchored, Unreused, Flat, Boundary, Position, HeadOk, Image;
    ImageSize(c, LastId(v.log), Active(v.log.segs));
    forall s | s in v.segments
      ensures s <= LastId(v.log)
    {
      KnownFile(c, v.log, v.disk, s);
    }
  }

  lemma PendingReads(c: Codec, v: View, i: nat)
    requires Inv(c, v) && i < |v.pending|
    ensures v.head + i < |Flat(v.log.segs)| && v.pending[i].segment in v.disk.files
    ensures v.pending[i].id == Flat(v.log.segs)[v.head + i].id
    ensures ReadRecord(c, v.disk.files[v.pending[i].segment].data, v.pending[i])
         == Some(Flat(v.log.segs)[v.head + i].body)
  {
    hide Inv, Flat, ReadRecord, Image, DiskInv, LogOk, LogEntries, Indexed;
    InvIndexed(c, v);
    PendingIds(c, v, i);
    PendingFile(c, v, i);
    InvDisk(c, v);
    LogIsOk(c, v.log, v.disk);
    LogSegments(c, v.log);
    ReadIndexed(c, v.log.first, v.log.segs, v.head + i, v.disk.files[v.pending[i].segment].data);
  }

  lemma LogSegments(c: Codec, log: Log)
    requires LogOk(c, log)
    ensures log.segs != [] && forall i | 0 <= i < |log.segs| :: AllStorable(c, log.segs[i])
  {
  }

  lemma InvIndexed(c: Codec, v: View)
    requires Inv(c, v)
    ensures Indexed(c, v)
  {
    hide CrashSafe, Mirrors, Indexed, Anchored, Unreused;
  }

  lemma PendingFile(c: Codec, v: View, i: nat)
    requires Inv(c, v) && i < |v.pending| && v.head + i < |Flat(v.log.segs)|
    ensures v.log.segs != [] && v.pending[i] == LogEntries(c, v.log.first, v.log.segs)[v.head + i]
    ensures v.pending[i].segment in v.disk.files && v.log.first <= v.pending[i].segment <= LastId(v.log)
    ensures var s := v.pending[i].segment; v.disk.files[s].data == Image(c, s, v.log.segs[s - v.log.first])
  {
    hide Inv, Flat, Image, LogEntries, Boundary, Position;
    EntryAt(c, v, i);
    InvAnchor(c, v);
    EntryCursor(c, v.log, v.head + i, v.cursor);
    EntrySegment(c, v.log.first, v.log.segs, v.head + i);
    LogFile(c, v, v.pending[i].segment);
  }

  lemma EntryAt(c: Codec, v: View, i: nat)
    requires Inv(c, v) && i < |v.pending| && v.head + i < |Flat(v.log.segs)|
    ensures v.pending[i] == LogEntries(c, v.log.first, v.log.segs)[v.head + i]
  {
    hide CrashSafe, Mirrors, Anchored, Unreused, Flat, LogEntries;
  }

  lemma InvAnchor(c: Codec, v: View)
    requires Inv(c, v)
    ensures v.log.segs != [] && Boundary(c, v.log, v.cursor) && Position(c, v.log, v.cursor) <= v.head
    ensures forall s: nat | v.cursor.segment <= s <= LastId(v.log) :: s in v.disk.files
  {
    hide CrashSafe, Mirrors, Indexed, Unreused, Flat, Position, WholeIn;
  }

  /** A segment of the log that is on disk has exactly its records. */
  lemma LogFile(c: Codec, v: View, s: nat)
    requires Inv(c, v) && v.log.segs != [] && s in v.disk.files && v.log.first <= s <= LastId(v.log)
    ensures v.disk.files[s].data == Image(c, s, v.log.segs[s - v.log.first])
  {
    hide Indexed, Anchored, Unreused, Flat, HeadOk, LogOk, Image;
    assert Holds(c, v.log, s, v.disk.files[s]);
    if s < LastId(v.log) { WholeFile(c, v.log, s, v.disk.files[s]); }
  }

  lemma PendingCursor(c: Codec, v: View, i: nat)
    requires Inv(c, v) && i <= |v.pending|
    ensures v.log.segs != [] && LastId(v.log) in v.segments && v.head + |v.pending| == |Flat(v.log.segs)|
    ensures i < |v.pending| ==> LogCursor(c, v.log, v.head + i) == Cursor(v.pending[i].segment, v.pending[i].start)
    ensures i == |v.pending| ==> LogCursor(c, v.log, v.head + i) == Cursor(LastId(v.log), v.segments[LastId(v.log)].byteSize)
  {
    hide Inv, Indexed, Flat, LogEntries;
    ActiveIsMax(c, v);
    InvIndexed(c, v);
    IndexedLength(c, v);
  }

  lemma IndexedLength(c: Codec, v: View)
    requires Indexed(c, v)
    ensures v.head + |v.pending| == |Flat(v.log.segs)|
    ensures forall i | 0 <= i < |v.pending| :: v.pending[i] == LogEntries(c, v.log.first, v.log.segs)[v.head + i]
  {
    hide Flat, LogEntries;
  }

  lemma AbsFields(c: Codec, v: View, syncs: nat, saves: nat)
    requires Inv(c, v)
    ensures var q := Abs(c, v, syncs, saves);
            && q.items == Flat(v.log.segs) && q.head == v.head && q.asked == v.asked
            && q.durable == DurableTail(c, v.log, v.disk) && q.syncs == syncs && q.saves == saves
            && Boundary(c, v.log, v.cursor) && q.saved == Position(c, v.log, v.cursor)
  {
    hide Inv, Flat, DurableTail, Boundary, Position;
    InvAnchor(c, v);
  }

  // ---- Reopening -------------------------------------------------------------------------------

  /** What the load step hands over. */
  ghost predicate LoadedFrom(c: Codec, d: Disk, loaded: Loaded) {
    && d.files.Keys != {} && (forall s | s in d.files :: ScanOf(c, d, s).Scanned?)
    && Load(c, d) == Some(loaded.pending) && IndexOf(loaded.pending, loaded.byId)
    && loaded.head == EffectiveHead(c, d)
    && loaded.scans.Keys == d.files.Keys && (forall s | s in d.files :: loaded.scans[s] == ScanOf(c, d, s))
  }

  /** The state of an Outbox just opened on what a crash left. */
  ghost predicate IsOpened(c: Codec, log: Log, d: Disk, loaded: Loaded, v: View) {
    && HasTop(log, d) && ScanOf(c, d, MaxOf(d.files.Keys)).Scanned?
    && ScanOf(c, d, MaxOf(d.files.Keys)).size <= |d.files[MaxOf(d.files.Keys)].data|
    && d.head.Some? && Boundary(c, log, d.head.value)
    && v.log == Survivors(c, log, d) && v.disk == Repaired(c, d)
    && v.segments.Keys == loaded.scans.Keys
    && (forall s | s in loaded.scans :: loaded.scans[s].Scanned?
         && v.segments[s] == Segment(loaded.scans[s].size, |loaded.scans[s].entries|))
    && v.pending == loaded.pending && v.byId == loaded.byId && v.completed == {}
    && v.cursor == loaded.head && !v.syncPending
    && v.floor == v.ceiling == v.head == v.asked == Position(c, log, d.head.value)
  }

  /** REOPENING. After any crash the directory loads without error, and the Outbox
      opened on the repaired directory satisfies the invariant with every
      surviving record durable and nothing volatile. */
  lemma OpenedInv(c: Codec, log: Log, d0: Disk, d: Disk, loaded: Loaded, v: View)
    requires CrashSafe(c, log, d0) && Crash(d0, d) && LoadedFrom(c, d, loaded)
    requires IsOpened(c, log, d, loaded, v)
    ensures Inv(c, v)
    ensures Abs(c, v, 0, 0) == Queue(Flat(v.log.segs), v.head, v.head, |Flat(v.log.segs)|, {v.head}, v.head, v.head, 0, 0)
  {
    hide CrashSafe, DiskInv, Crash, Load, Boundary, Position, Flat, ScanOf, Scans, Survivors, Repaired, Settled;
    hide EffectiveHead, HasTop, Inv, Abs, IndexOf, LogEntries, MaxOf;
    OpenedFacts(c, log, d0, d);
    HeadIsEffective(c, Survivors(c, log, d), d);
    CrashClean(d0, d);
    OpenedParts(c, log, d0, d, loaded, v);
  }

  lemma OpenedFacts(c: Codec, log: Log, d0: Disk, d: Disk)
    requires CrashSafe(c, log, d0) && Crash(d0, d) && HasTop(log, d)
    ensures DiskInv(c, log, d0) && Scans(c, Survivors(c, log, d), d)
    ensures d.head.Some? && d.head.value in Heads(d0) && Boundary(c, log, d.head.value)
    ensures Boundary(c, Survivors(c, log, d), d.head.value)
    ensures var from, kept := Position(c, log, d.head.value), Survivors(c, log, d);
            && Position(c, kept, d.head.value) == from
            && Flat(kept.segs) <= Flat(log.segs) && from <= |Flat(kept.segs)|
            && Load(c, d) == Some(LogEntries(c, log.first, kept.segs)[from..])
    ensures ScanOf(c, d, MaxOf(d.files.Keys)).Scanned?
    ensures ScanOf(c, d, MaxOf(d.files.Keys)).size <= |d.files[MaxOf(d.files.Keys)].data|
    ensures Settled(c, Survivors(c, log, d), Repaired(c, d))
  {
    hide CrashSafe, DiskInv, Crash, Load, Boundary, Position, Flat, ScanOf, Scans, Survivors, Repaired, Settled;
    hide HasTop, LogEntries, MaxOf;
    SafeRecovers(c, log, d0, d);
    RepairedSettled(c, log, d0, d);
    CrashScans(c, log, d0, d);
    HeadSurvives(c, log, d0, d);
  }

  lemma CrashClean(d0: Disk, d: Disk)
    requires Crash(d0, d)
    ensures d.recent == {} && d.dropped == map[] && d.older == {}
  {
  }

  lemma OpenedParts(c: Codec, log: Log, d0: Disk, d: Disk, loaded: Loaded, v: View)
    requires CrashSafe(c, log, d0) && Crash(d0, d) && HasTop(log, d)
    requires d.head.Some? && d.head.value in Heads(d0) && d.older == {}
    requires Boundary(c, log, d.head.value) && v.floor == v.ceiling == v.head == v.asked == Position(c, log, d.head.value)
    requires v.log == Survivors(c, log, d) && v.disk.head == d.head && v.disk.older == d.older
    requires v.disk.files.Keys == d.files.Keys && Settled(c, v.log, v.disk) && Scans(c, v.log, d)
    requires Flat(v.log.segs) <= Flat(log.segs) && v.head <= |Flat(v.log.segs)|
    requires Boundary(c, v.log, d.head.value) && Position(c, v.log, d.head.value) == v.head
    requires v.pending == LogEntries(c, v.log.first, v.log.segs)[v.head..] && IndexOf(v.pending, v.byId)
    requires v.cursor == d.head.value && v.completed == {} && !v.syncPending
    requires loaded.scans.Keys == d.files.Keys == v.segments.Keys
    requires forall s | s in d.files :: loaded.scans[s].Scanned? && loaded.scans[s] == ScanOf(c, d, s)
               && v.segments[s] == Segment(loaded.scans[s].size, |loaded.scans[s].entries|)
    ensures Inv(c, v)
    ensures Abs(c, v, 0, 0) == Queue(Flat(v.log.segs), v.head, v.head, |Flat(v.log.segs)|, {v.head}, v.head, v.head, 0, 0)
  {
    hide CrashSafe, DiskInv, Crash, Boundary, Position, Flat, ScanOf, Scans, Survivors, Settled, IndexOf, LogEntries;
    hide Indexed, Mirrors, Anchored, Unreused, Abs;
    SettledDistinct(c, log, d0, d, v.log, v.disk);
    ScansActive(c, v.log, d);
    OpenedMirrors(c, v);
    OpenedIndex(c, v);
    OpenedAnchors(c, v);
    OpenedAbs(c, v);
  }

  lemma ScansActive(c: Codec, log: Log, d: Disk)
    requires Scans(c, log, d)
    ensures log.segs != [] && LastId(log) in d.files && ScanOf(c, d, LastId(log)).Scanned?
    ensures ScanOf(c, d, LastId(log)).size == Size(c, Active(log.segs))
    ensures |ScanOf(c, d, LastId(log)).entries| == |Active(log.segs)|
  {
    hide ScanOf, Boundary;
  }

  lemma OpenedMirrors(c: Codec, v: View)
    requires Settled(c, v.log, v.disk) && !v.syncPending && v.log.segs != []
    requires v.segments.Keys == v.disk.files.Keys && LastId(v.log) in v.segments
    requires v.segments[LastId(v.log)] == Segment(Size(c, Active(v.log.segs)), |Active(v.log.segs)|)
    ensures Mirrors(c, v)
  {
    hide Boundary, LogOk;
    ImageSize(c, LastId(v.log), Active(v.log.segs));
  }

  lemma OpenedIndex(c: Codec, v: View)
    requires v.head <= |Flat(v.log.segs)| && v.pending == LogEntries(c, v.log.first, v.log.segs)[v.head..]
    requires IndexOf(v.pending, v.byId)
    ensures Indexed(c, v)
  {
    hide Flat, LogEntries;
  }

  lemma OpenedAnchors(c: Codec, v: View)
    requires Settled(c, v.log, v.disk) && v.disk.head == Some(v.cursor) && v.completed == {}
    requires v.floor == v.ceiling == Position(c, v.log, v.cursor) == v.head == v.asked <= |Flat(v.log.segs)|
    requires DistinctIds(Flat(v.log.segs)[v.head..])
    ensures Anchored(c, v) && Unreused(c, v)
  {
    hide Boundary, Position, Flat, LogOk, Image;
    assert Heads(v.disk) == {v.cursor};
    assert Flat(v.log.segs)[v.head..v.head] == [];
  }

  lemma OpenedAbs(c: Codec, v: View)
    requires Inv(c, v) && Settled(c, v.log, v.disk) && v.disk.head == Some(v.cursor)
    requires Boundary(c, v.log, v.cursor) && Position(c, v.log, v.cursor) == v.head == v.asked
    ensures Abs(c, v, 0, 0) == Queue(Flat(v.log.segs), v.head, v.head, |Flat(v.log.segs)|, {v.head}, v.head, v.head, 0, 0)
  {
    SettledInv(c, v.log, v.disk);
    assert Heads(v.disk) == {v.cursor};
    hide Boundary, Position, Flat, Settled, DiskInv, Inv, DurableTail;
    OneHead(c, v, v, 0, 0, v.cursor);
  }

  // ---- Facts the constructor needs --------------------------------------------------------------

  lemma CrashTopSafe(c: Codec, log: Log, d0: Disk, d: Disk)
    requires CrashSafe(c, log, d0) && Crash(d0, d)
    ensures HasTop(log, d)
  {
    hide DiskInv, Crash, Load, Flat, Boundary, Position;
    SafeRecovers(c, log, d0, d);
  }

  lemma LoadedScans(c: Codec, d: Disk, loaded: Loaded)
    requires LoadedFrom(c, d, loaded)
    ensures d.files.Keys != {} && loaded.scans.Keys == d.files.Keys
    ensures forall s | s in d.files :: loaded.scans[s] == ScanOf(c, d, s) && loaded.scans[s].Scanned?
  {
    hide Load, ScanOf, EffectiveHead, IndexOf;
  }

  lemma RepairedIs(c: Codec, d: Disk)
    requires d.files.Keys != {} && ScanOf(c, d, MaxOf(d.files.Keys)).Scanned?
    requires ScanOf(c, d, MaxOf(d.files.Keys)).size <= |d.files[MaxOf(d.files.Keys)].data|
    ensures Repaired(c, d) == RepairFile(d, MaxOf(d.files.Keys), ScanOf(c, d, MaxOf(d.files.Keys)).size)
  {
    hide ScanOf, MaxOf;
  }

  lemma SettledSafe(c: Codec, log: Log, d0: Disk, d: Disk)
    requires CrashSafe(c, log, d0) && Crash(d0, d) && HasTop(log, d)
    requires ScanOf(c, d, MaxOf(d.files.Keys)).Scanned?
    requires ScanOf(c, d, MaxOf(d.files.Keys)).size <= |d.files[MaxOf(d.files.Keys)].data|
    ensures CrashSafe(c, Survivors(c, log, d), Repaired(c, d))
  {
    hide CrashSafe, DiskInv, Crash, Load, Boundary, Position, Flat, ScanOf, Scans, Survivors, Repaired, Settled;
    hide HasTop, LogEntries, MaxOf;
    OpenedFacts(c, log, d0, d);
    CrashClean(d0, d);
    SettledDistinct(c, log, d0, d, Survivors(c, log, d), Repaired(c, d));
  }

  lemma SettledDistinct(c: Codec, log: Log, d0: Disk, d: Disk, kept: Log, fixed: Disk)
    requires CrashSafe(c, log, d0) && Settled(c, kept, fixed) && fixed.head == d.head && fixed.older == {}
    requires d.head.Some? && d.head.value in Heads(d0) && Boundary(c, log, d.head.value) && Boundary(c, kept, d.head.value)
    requires Position(c, kept, d.head.value) == Position(c, log, d.head.value) <= |Flat(kept.segs)|
    requires Flat(kept.segs) <= Flat(log.segs)
    ensures CrashSafe(c, kept, fixed) && DistinctIds(Flat(kept.segs)[Position(c, kept, d.head.value)..])
  {
    SettledInv(c, kept, fixed);
    hide DiskInv, Boundary, Position, Flat, Settled, DistinctIds;
    PrefixDistinct(Flat(kept.segs), Flat(log.segs), Position(c, kept, d.head.value));
    assert Heads(fixed) == {d.head.value};
  }

  lemma CanOpen(c: Codec, log: Log, d0: Disk, d: Disk, loaded: Loaded, last: nat)
    requires CrashSafe(c, log, d0) && Crash(d0, d) && LoadedFrom(c, d, loaded)
    ensures d.files.Keys != {} && HasTop(log, d) && d.head.Some? && Boundary(c, log, d.head.value)
    ensures forall s | s in loaded.scans :: loaded.scans[s].Scanned?
    ensures last == MaxOf(d.files.Keys) ==>
              && last in loaded.scans && last in d.files && loaded.scans[last].size <= |d.files[last].data|
              && ScanOf(c, d, last) == loaded.scans[last]
              && CrashSafe(c, Survivors(c, log, d), RepairFile(d, last, loaded.scans[last].size))
              && RepairFile(d, last, loaded.scans[last].size) == Repaired(c, d)
  {
    hide CrashSafe, Crash, LoadedFrom, Load, Survivors, Repaired, ScanOf, MaxOf, Settled, Flat, Position, Boundary;
    hide DiskInv;
    hide HasTop, RepairFile, Scans, LogEntries;
    CrashTopSafe(c, log, d0, d);
    OpenedFacts(c, log, d0, d);
    LoadedScans(c, d, loaded);
    SettledSafe(c, log, d0, d);
    RepairedIs(c, d);
  }

  lemma SavesOnly(c: Codec, v: View, syncs: nat, saves: nat, saves': nat)
    requires Inv(c, v)
    ensures Abs(c, v, syncs, saves') == Abs(c, v, syncs, saves).(saves := saves')
  {
    hide Inv, Flat, DurableTail, Boundary, Position;
  }

  lemma SegmentsAreFiles(c: Codec, v: View)
    requires Inv(c, v)
    ensures v.segments.Keys == v.disk.files.Keys
  {
    hide CrashSafe, Indexed, Anchored, Unreused;
  }

  lemma AskedBound(c: Codec, v: View)
    requires Inv(c, v)
    ensures v.head <= v.asked <= |Flat(v.log.segs)|
  {
    hide CrashSafe, Indexed, Mirrors, Unreused, Boundary, Position, Flat;
  }

  /** When the memory's checkpoint already is the live head, no completed ID is
      volatile. */
  lemma NothingVolatile(c: Codec, v: View)
    requires Inv(c, v) && v.log.segs != [] && v.head <= |Flat(v.log.segs)|
    requires v.cursor == LogCursor(c, v.log, v.head)
    ensures v.completed == {} && Boundary(c, v.log, v.cursor) && Position(c, v.log, v.cursor) == v.head
  {
    hide CrashSafe, Indexed, Mirrors, Anchored, Boundary, Position, Flat, LogCursor;
    LogCursorExact(c, v.log, v.head, v.cursor);
    assert Flat(v.log.segs)[v.head..v.head] == [];
  }

  // ---- Facts the append path needs ----------------------------------------------------------------

  lemma FreshIs(c: Codec, v: View, syncs: nat, saves: nat, es: seq<Envelope>)
    requires Inv(c, v) && Abs(c, v, syncs, saves).saved <= |Abs(c, v, syncs, saves).items|
    requires FreshFor(Abs(c, v, syncs, saves), es)
    ensures Fresh(c, v, es)
  {
    hide Inv, Flat, Boundary, Position, DistinctIds;
    AbsFields(c, v, syncs, saves);
  }

  /** An fsync whose result the memory does not record. */
  lemma ExtraFsync(c: Codec, v: View, syncs: nat, saves: nat)
    requires Inv(c, v)
    ensures v.log.segs != [] && LastId(v.log) in v.disk.files
    ensures Inv(c, v.(disk := Fsync(v.disk, LastId(v.log))))
    ensures Abs(c, v.(disk := Fsync(v.disk, LastId(v.log))), syncs, saves)
         == Abs(c, v, syncs, saves).(durable := |Flat(v.log.segs)|)
  {
    hide Inv, Abs, Flat;
    FsyncStep(c, v);
    FsyncAbs(c, v, syncs, syncs, saves);
    AbsFields(c, v, syncs, saves);
    PendingFlag(c, AfterFsync(v), v.syncPending, syncs, saves);
    assert AfterFsync(v).(syncPending := v.syncPending) == v.(disk := Fsync(v.disk, LastId(v.log)));
  }

  lemma PendingFlag(c: Codec, v: View, flag: bool, syncs: nat, saves: nat)
    requires Inv(c, v) && !v.syncPending
    ensures Inv(c, v.(syncPending := flag))
    ensures Abs(c, v.(syncPending := flag), syncs, saves) == Abs(c, v, syncs, saves)
  {
    hide CrashSafe, Flat, Boundary, Position, Image;
    var v' := v.(syncPending := flag);
    IndexedSame(c, v, v');
    AnchoredSame(c, v, v');
    UnreusedSame(c, v, v');
  }

  lemma WriteReady(c: Codec, v: View)
    requires Inv(c, v)
    ensures v.disk.recent == {} && v.log.segs != [] && LastId(v.log) in v.disk.files && LastId(v.log) in v.segments
    ensures v.disk.files[LastId(v.log)].data == Image(c, LastId(v.log), Active(v.log.segs))
    ensures |v.disk.files[LastId(v.log)].data| == v.segments[LastId(v.log)].byteSize
    ensures v.segments[LastId(v.log)] == Segment(Size(c, Active(v.log.segs)), |Active(v.log.segs)|)
    ensures !v.syncPending ==> v.disk.files[LastId(v.log)].synced == |v.disk.files[LastId(v.log)].data|
  {
    hide CrashSafe, Indexed, Unreused, Anchored, Image;
    ImageSize(c, LastId(v.log), Active(v.log.segs));
  }

  lemma FreshHeads(c: Codec, v: View, chunk: seq<Envelope>)
    requires Inv(c, v) && Fresh(c, v, chunk)
    ensures forall cur | cur in Heads(v.disk) && Boundary(c, v.log, cur) ::
              DistinctIds((Flat(v.log.segs) + chunk)[Position(c, v.log, cur)..])
  {
    hide CrashSafe, Mirrors, Indexed, Unreused, Anchored, Fresh, Flat, Boundary, Position, DistinctIds;
    FreshForHeads(c, v, chunk);
  }

  lemma FreshDistinct(c: Codec, v: View, chunk: seq<Envelope>)
    requires Inv(c, v) && Fresh(c, v, chunk)
    ensures DistinctIds(chunk)
  {
    InvAnchor(c, v);
    WithinHead(c, v);
    hide Inv, Flat, Boundary, Position;
    var es, from := Flat(v.log.segs), Position(c, v.log, v.cursor);
    SuffixOfDistinct(es + chunk, from, |es|);
    assert (es + chunk)[|es|..] == chunk;
  }

  lemma WithinHead(c: Codec, v: View)
    requires Inv(c, v)
    ensures v.head <= |Flat(v.log.segs)|
  {
    hide CrashSafe, Mirrors, Anchored, Unreused, Flat;
  }

  lemma AddsSnoc(m: map<Id, Stored>, m': map<Id, Stored>, entries: seq<Stored>, e: Stored)
    requires Adds(m, m', entries) && forall i | 0 <= i < |entries| :: entries[i].id != e.id
    ensures Adds(m, m'[e.id := e], entries + [e])
  {
    var all, m2 := entries + [e], m'[e.id := e];
    forall id | id in m2
      ensures id in m || exists i :: 0 <= i < |all| && all[i].id == id
    {
      if id == e.id {
        assert all[|entries|].id == id;
      } else if id !in m {
        var i :| 0 <= i < |entries| && entries[i].id == id;
        assert all[i].id == id;
      }
    }
    forall id | id in m && forall i | 0 <= i < |all| :: all[i].id != id
      ensures m2[id] == m[id]
    {
      assert all[|entries|].id != id;
      forall i | 0 <= i < |entries|
        ensures entries[i].id != id
      {
        assert all[i].id != id;
      }
    }
  }

  /** One more record of a chunk enters the index. */
  lemma ChunkSnoc(c: Codec, id: nat, start: nat, chunk: seq<Envelope>, i: nat)
    requires i < |chunk| && DistinctIds(chunk)
    ensures var done, offset := Entries(c, id, start, chunk[..i]), start + |Blob(c, chunk[..i])|;
            var e := Stored(chunk[i].id, id, offset, offset + |Frame(c, chunk[i])|);
            && Entries(c, id, start, chunk[..i + 1]) == done + [e]
            && |Blob(c, chunk[..i + 1])| == |Blob(c, chunk[..i])| + |Frame(c, chunk[i])|
            && forall k | 0 <= k < |done| :: done[k].id != e.id
  {
    hide Frame, Blob;
    var e := chunk[i];
    assert chunk[..i + 1] == chunk[..i] + [e];
    EntriesConcat(c, id, start, chunk[..i], [e]);
    BlobOfPrefix(c, chunk, i);
    assert [e][1..] == [];
    forall k | 0 <= k < i
      ensures Entries(c, id, start, chunk[..i])[k].id != e.id
    {
      EntryIds(c, id, start, chunk[..i], k);
      assert chunk[..i][k] == chunk[k];
    }
  }

  /** The IDs the Outbox knows: pending ones and volatile completed ones are
      exactly those at or after the saved head. */
  lemma KnownIds(c: Codec, v: View, syncs: nat, saves: nat)
    requires Inv(c, v)
    ensures var q := Abs(c, v, syncs, saves);
            q.saved <= q.head <= |q.items| && Ids(q.items[q.saved..]) == v.completed + v.byId.Keys
            && Ids(q.items[q.head..]) == v.byId.Keys
  {
    hide Inv, Flat, Boundary, Position, Abs, DistinctIds, Ids;
    AbsFields(c, v, syncs, saves);
    KeysArePending(c, v);
    CompletedIds(c, v);
    var es, from := Flat(v.log.segs), Position(c, v.log, v.cursor);
    IdsConcat(es[from..v.head], es[v.head..]);
    assert es[from..] == es[from..v.head] + es[v.head..];
  }

  lemma CompletedIds(c: Codec, v: View)
    requires Inv(c, v)
    ensures Boundary(c, v.log, v.cursor) && Position(c, v.log, v.cursor) <= v.head <= |Flat(v.log.segs)|
    ensures v.completed == Ids(Flat(v.log.segs)[Position(c, v.log, v.cursor)..v.head])
  {
    hide CrashSafe, Mirrors, Indexed, Anchored, Flat, Boundary, Position, DistinctIds, Ids;
  }

  lemma KeysArePending(c: Codec, v: View)
    requires Inv(c, v)
    ensures v.head <= |Flat(v.log.segs)| && Ids(Flat(v.log.segs)[v.head..]) == v.byId.Keys
  {
    hide Inv, Flat, LogEntries, Indexed;
    InvIndexed(c, v);
    IndexedLength(c, v);
    var es := Flat(v.log.segs)[v.head..];
    forall i | 0 <= i < |es|
      ensures es[i].id in v.byId
    {
      PendingIds(c, v, i);
      IndexedFacts(c, v);
    }
    forall id | id in v.byId
      ensures id in Ids(es)
    {
      var k := PendingOf(c, v, id);
      PendingIdIs(c, v, id, k);
      assert es[k].id == id;
    }
  }

  lemma {:induction false} IdsConcat(a: seq<Envelope>, b: seq<Envelope>)
    ensures Ids(a + b) == Ids(a) + Ids(b)
    decreases |b|
  {
    if b == [] {
      assert a + b == a;
    } else {
      var init := b[..|b| - 1];
      assert b == init + [b[|b| - 1]];
      assert a + b == (a + init) + [b[|b| - 1]];
      IdsConcat(a, init);
      IdsSnoc(a + init, b[|b| - 1]);
      IdsSnoc(init, b[|b| - 1]);
    }
  }

  lemma AskAbs(c: Codec, v: View, syncs: nat, saves: nat)
    requires Inv(c, v) && Inv(c, v.(asked := v.head + 1))
    ensures Abs(c, v.(asked := v.head + 1), syncs, saves) == Abs(c, v, syncs, saves).(asked := v.head + 1)
  {
    hide Inv, Flat, DurableTail, Boundary, Position;
  }

  /** The view after a chunk was written and, when asked, fsynced. */
  function AfterChunk(c: Codec, v: View, chunk: seq<Envelope>, byId: map<Id, Stored>, sync: bool): View
    requires v.log.segs != [] && LastId(v.log) in v.disk.files && LastId(v.log) in v.segments
  {
    var w := AfterWrite(c, v, chunk, byId);
    if sync then AfterFsync(w) else w
  }

  lemma ChunkStep(c: Codec, v: View, chunk: seq<Envelope>, byId: map<Id, Stored>, sync: bool, syncs: nat, saves: nat)
    requires Inv(c, v) && AllStorable(c, chunk) && Fresh(c, v, chunk)
    requires v.log.segs != [] && Adds(v.byId, byId, ChunkEntries(c, v.log, chunk))
    ensures LastId(v.log) in v.disk.files && LastId(v.log) in v.segments
    ensures var w := AfterChunk(c, v, chunk, byId, sync);
            && Inv(c, w)
            && ChunkWritten(Abs(c, v, syncs, saves), Abs(c, w, if sync then syncs + 1 else syncs, saves), chunk, sync)
  {
    hide Inv, Abs, Flat, Extend, Adds, Blob, AllStorable, Fresh, AfterWrite, AfterFsync;
    WriteStep(c, v, chunk, byId);
    WriteAbs(c, v, chunk, byId, syncs, saves);
    if sync {
      var w := AfterWrite(c, v, chunk, byId);
      FsyncStep(c, w);
      FsyncAbs(c, w, syncs, syncs + 1, saves);
      AbsFields(c, w, syncs, saves);
      AbsOk(c, w, syncs, saves);
    }
  }

  /** What writing a chunk does to the queue. */
  ghost predicate ChunkWritten(q: Queue, q': Queue, chunk: seq<Envelope>, sync: bool) {
    && q' == q.(items := q.items + chunk, durable := q'.durable, syncs := q'.syncs)
    && q.durable <= q'.durable
    && q'.syncs == (if sync then q.syncs + 1 else q.syncs)
    && (sync ==> q'.durable == |q'.items|)
  }

  lemma AddsNothing(m: map<Id, Stored>, c: Codec, id: nat, start: nat)
    ensures Adds(m, m, Entries(c, id, start, [])) && Entries(c, id, start, []) == [] && Blob(c, []) == []
  {
  }

  lemma VolatileIsBehind(c: Codec, v: View, syncs: nat, saves: nat)
    requires Inv(c, v) && v.completed != {}
    ensures Abs(c, v, syncs, saves).saved < Abs(c, v, syncs, saves).head
  {
    hide CrashSafe, Mirrors, Indexed, Anchored, Boundary, Position, Flat;
    assert Flat(v.log.segs)[v.head..v.head] == [];
  }

  lemma SyncWrote(q: Queue, q': Queue, added: seq<Envelope>)
    requires Synced(q, q', true) && q.durable <= |q.items|
    ensures Wrote(q, q', added, 0)
  {
    assert q.items + added[..0] == q.items;
  }

  lemma StrandWrote(q: Queue, q': Queue, added: seq<Envelope>, n: nat)
    requires n <= |added| && q' == q.(items := q.items + added[..n]) && q.durable <= |q.items|
    ensures Wrote(q, q', added, n)
  {
  }

  // ---- The chunk loop ---------------------------------------------------------------------------

  lemma RotationWrote(q: Queue, q': Queue, added: seq<Envelope>)
    requires q.durable <= |q.items|
    requires Synced(q, q', false)
          || (q' == q.(durable := |q.items|, heads := q'.heads, syncs := q'.syncs) && q'.heads <= q.heads && q.syncs <= q'.syncs)
    ensures Wrote(q, q', added, 0)
  {
    assert q.items + added[..0] == q.items;
  }

  lemma ChunkWrote(q: Queue, q': Queue, added: seq<Envelope>, n: nat, sync: bool)
    requires n <= |added| && ChunkWritten(q, q', added[..n], sync) && q'.durable <= |q'.items| && q.durable <= |q.items|
    ensures Wrote(q, q', added, n)
  {
  }

  /** The segments after a chunk and a rotation, as layouts. */
  lemma LogLayout(log: Log, chunk: seq<Envelope>)
    requires log.segs != []
    ensures Extend(log, chunk).segs == WithActive(log.segs, Active(log.segs) + chunk)
    ensures Rotated(log).segs == log.segs + [[]] && Active(Rotated(log).segs) == []
    ensures Flat(Extend(log, chunk).segs) == Flat(log.segs) + chunk
    ensures Flat(Rotated(log).segs) == Flat(log.segs)
  {
    FlatExtends(log, chunk);
  }

  lemma AbsBounds(c: Codec, v: View, syncs: nat, saves: nat)
    requires Inv(c, v)
    ensures var q := Abs(c, v, syncs, saves);
            q.Ok() && q.saved <= |q.items| && q.durable <= |q.items| && q.items == Flat(v.log.segs)
  {
    hide Inv, Abs, Flat;
    AbsOk(c, v, syncs, saves);
    AbsFields(c, v, syncs, saves);
  }

  lemma StorablePrefix(c: Codec, es: seq<Envelope>, n: nat)
    requires AllStorable(c, es) && n <= |es|
    ensures AllStorable(c, es[..n]) && AllStorable(c, es[n..])
  {
  }

  lemma NextChunk(c: Codec, items: seq<Envelope>, added: seq<Envelope>, n: nat, took: nat)
    requires n <= |added| && took <= |added[n..]|
    ensures added[n..][took..] == added[n + took..]
    ensures |Blob(c, added[..n + took])| == |Blob(c, added[..n])| + |Blob(c, added[n..][..took])|
    ensures (items + added[..n]) + added[n..][..took] == items + added[..n + took]
  {
    assert added[..n + took] == added[..n] + added[n..][..took];
    BlobConcat(c, added[..n], added[n..][..took]);
  }

  lemma WroteItems(q: Queue, q1: Queue, added: seq<Envelope>, n: nat)
    requires Wrote(q, q1, added, n)
    ensures n <= |added| && q1.items == q.items + added[..n]
  {
  }

  lemma AppendEachNothing(c: Codec, l: Limits, segs: Segments)
    requires segs != []
    ensures AppendEach(c, l, segs, []) == segs && Blob(c, []) == []
  {
  }

  lemma {:induction false} FlatStorable(c: Codec, segs: Segments)
    requires forall i | 0 <= i < |segs| :: AllStorable(c, segs[i])
    ensures AllStorable(c, Flat(segs))
  {
    if segs != [] {
      forall i | 0 <= i < |segs[1..]|
        ensures AllStorable(c, segs[1..][i])
      {
        assert segs[1..][i] == segs[i + 1];
      }
      FlatStorable(c, segs[1..]);
      assert AllStorable(c, segs[0]);
    }
  }

  lemma ItemsStorable(c: Codec, v: View)
    requires Inv(c, v)
    ensures AllStorable(c, Flat(v.log.segs))
  {
    hide Inv, DiskInv, LogOk, Flat, AllStorable;
    InvDisk(c, v);
    LogIsOk(c, v.log, v.disk);
    LogSegments(c, v.log);
    FlatStorable(c, v.log.segs);
  }

  /** Where an indexed ID is in the queue. */
  lemma PendingOf(c: Codec, v: View, id: Id) returns (k: nat)
    requires Inv(c, v) && id in v.byId
    ensures k < |v.pending| && v.byId[id] == v.pending[k]
  {
    InvIndexed(c, v);
    hide Inv, Flat, LogEntries;
    k :| 0 <= k < |v.pending| && v.pending[k].id == id;
  }

  lemma PendingIdIs(c: Codec, v: View, id: Id, k: nat)
    requires Inv(c, v) && id in v.byId && k < |v.pending| && v.byId[id] == v.pending[k]
    ensures v.head + k < |Flat(v.log.segs)| && Flat(v.log.segs)[v.head + k].id == id == v.pending[k].id
    ensures |Flat(v.log.segs)[v.head + k].body| <= MAX_RECORD_BYTES
  {
    InvIndexed(c, v);
    ItemsStorable(c, v);
    hide Inv, Flat, LogEntries;
    PendingIds(c, v, k);
    var i :| 0 <= i < |v.pending| && v.pending[i].id == id;
    assert v.byId[v.pending[i].id] == v.pending[i];
  }

  /** What deduplication leaves may be appended: it repeats no ID still on disk at
      or after the saved head. */
  lemma NewOnesFresh(c: Codec, v: View, syncs: nat, saves: nat, batch: seq<Envelope>)
    requires Inv(c, v) && v.completed !! Ids(batch)
    ensures var q := Abs(c, v, syncs, saves);
            q.saved <= |q.items| && FreshFor(q, NewOnes(batch, v.byId.Keys))
  {
    hide Inv, Abs, NewOnes, Ids, FreshFor, DistinctIds;
    AbsOk(c, v, syncs, saves);
    KnownIds(c, v, syncs, saves);
    NewOnesMeaning(batch, v.byId.Keys);
    FreshBatch(Abs(c, v, syncs, saves), NewOnes(batch, v.byId.Keys));
  }

  /** The repaired directory is a safe first moment of a new run. */
  lemma OpenedSnapshot(c: Codec, log: Log, d0: Disk, d: Disk, last: nat, size: nat)
    requires CrashSafe(c, log, d0) && Crash(d0, d) && HasTop(log, d) && d.head.Some? && Boundary(c, log, d.head.value)
    requires last in d.files && size <= |d.files[last].data|
    requires CrashSafe(c, Survivors(c, log, d), RepairFile(d, last, size))
    ensures var from := Position(c, log, d.head.value);
            SafeSnapshot(c, Taken(c, Survivors(c, log, d), RepairFile(d, last, size), from, from))
  {
    OpenedFacts(c, log, d0, d);
    CrashClean(d0, d);
    OneHeadLeft(d, last, size);
    hide CrashSafe, Crash, Survivors, Boundary, Position, Flat, RepairFile, HasTop, Heads;
  }

  lemma OneHeadLeft(d: Disk, last: nat, size: nat)
    requires d.head.Some? && d.older == {} && last in d.files && size <= |d.files[last].data|
    ensures Heads(RepairFile(d, last, size)) == {d.head.value}
  {
  }

  /** A crash and a reopening advance the run like any system call: a run may
      contain any number of them. */
  lemma ReopenAdvances(c: Codec, a: Snapshot, d: Disk)
    requires SafeSnapshot(c, a) && Crash(a.disk, d)
    ensures HasTop(a.log, d) && d.head.Some? && Boundary(c, a.log, d.head.value)
    ensures ScanOf(c, d, MaxOf(d.files.Keys)).Scanned?
    ensures ScanOf(c, d, MaxOf(d.files.Keys)).size <= |d.files[MaxOf(d.files.Keys)].data|
    ensures var from := Position(c, a.log, d.head.value);
            var b := Taken(c, Survivors(c, a.log, d), Repaired(c, d), from, from);
            SafeSnapshot(c, b) && Advances(c, a, b)
  {
    hide SafeSnapshot, CrashSafe, Crash, Survivors, Boundary, Position, Flat, Repaired, HasTop, Heads, DiskInv, Settled;
    hide ScanOf, MaxOf, RepairFile, Load, LogEntries, DurableTail, Scans;
    SafeParts(c, a);
    CrashTopSafe(c, a.log, a.disk, d);
    OpenedFacts(c, a.log, a.disk, d);
    MomentRecovers(c, a, d);
    var last := MaxOf(d.files.Keys);
    RepairedIs(c, d);
    SettledSafe(c, a.log, a.disk, d);
    OpenedSnapshot(c, a.log, a.disk, d, last, ScanOf(c, d, last).size);
    SettledInv(c, Survivors(c, a.log, d), Repaired(c, d));
    KeptItems(c, a, a, Flat(Survivors(c, a.log, d).segs));
  }

  lemma PendingList(c: Codec, v: View)
    requires Inv(c, v)
    ensures v.head <= |Flat(v.log.segs)| && |v.pending| == |Flat(v.log.segs)[v.head..]|
    ensures forall i | 0 <= i < |v.pending| :: v.pending[i].id == Flat(v.log.segs)[v.head..][i].id
    ensures forall e | e in Flat(v.log.segs)[v.head..] :: c.decode(e.body) == Some(e.id)
  {
    hide Inv, Flat, LogEntries, Indexed;
    InvIndexed(c, v);
    IndexedLength(c, v);
    ItemsStorable(c, v);
    forall i | 0 <= i < |v.pending|
      ensures v.pending[i].id == Flat(v.log.segs)[v.head..][i].id
    {
      PendingIds(c, v, i);
    }
    var es := Flat(v.log.segs);
    forall i | v.head <= i < |es|
      ensures c.decode(es[i].body) == Some(es[i].id)
    {
      assert Storable(c, es[i]);
    }
  }
}
