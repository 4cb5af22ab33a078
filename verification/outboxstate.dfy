/** The runtime index of an open Outbox and how it mirrors the directory. */
module OutboxState {
  import opened Wrappers
  import opened Framing
  import opened Layout
  import opened Directory
  import opened Loading
  import opened Recovery
  import opened Storage
  import opened QueueSpec

  datatype Segment = Segment(byteSize: nat, recordCount: nat)

  /** The fields of an Outbox together with its directory and the ghost log. */
  datatype View = View(
    segments: map<nat, Segment>,
    pending: seq<Stored>,
    byId: map<Id, Stored>,
    completed: set<Id>,
    cursor: Cursor,
    syncPending: bool,
    disk: Disk,
    log: Log,
    floor: nat,
    ceiling: nat,
    head: nat,
    asked: nat)

  // ---- Cursors of indexed records ---------------------------------------------

  function Tail(log: Log): Log
    requires log.segs != []
  {
    Log(log.first + 1, log.segs[1..], map[])
  }

  lemma WholeInExact(c: Codec, es: seq<Envelope>, k: nat)
    requires k <= |es|
    ensures WholeIn(c, es, |Blob(c, es[..k])|) == k
  {
    assert es[..k][..k] == es[..k];
    WholeInAll(c, es[..k]);
    BoundaryInPrefix(c, es, k, |Blob(c, es[..k])|);
  }

  lemma BoundaryTail(c: Codec, log: Log, cur: Cursor)
    requires |log.segs| > 1 && cur.segment > log.first
    ensures Boundary(c, log, cur) <==> Boundary(c, Tail(log), cur)
    ensures Boundary(c, log, cur) ==> Position(c, log, cur) == |log.segs[0]| + Position(c, Tail(log), cur)
  {
    hide WholeIn, Blob;
    if Boundary(c, log, cur) {
      var i := cur.segment - log.first;
      assert log.segs[..i] == [log.segs[0]] + log.segs[1..][..i - 1];
      FlatConcat([log.segs[0]], log.segs[1..][..i - 1]);
      FlatSnoc([], log.segs[0]);
      assert [] + [log.segs[0]] == [log.segs[0]];
    }
  }

  lemma PositionPastFirst(c: Codec, log: Log, cur: Cursor)
    requires Boundary(c, log, cur) && cur.segment > log.first
    ensures Position(c, log, cur) >= |log.segs[0]|
  {
    BoundaryTail(c, log, cur);
  }

  /** The p-th indexed record starts at the latest cursor of position p. */
  lemma {:induction false} EntryCursor(c: Codec, log: Log, p: nat, cur: Cursor)
    requires log.segs != [] && p < |Flat(log.segs)|
    ensures var e := LogEntries(c, log.first, log.segs)[p];
            var start := Cursor(e.segment, e.start);
            && Boundary(c, log, start) && Position(c, log, start) == p
            && (Boundary(c, log, cur) && Position(c, log, cur) <= p ==> cur.segment <= e.segment)
    decreases |log.segs|
  {
    hide Blob, WholeIn, Boundary, Position;
    var es := log.segs[0];
    if p < |es| {
      FirstEntry(c, log, p);
      if Boundary(c, log, cur) && cur.segment > log.first { PositionPastFirst(c, log, cur); }
    } else {
      assert |log.segs| > 1;
      EntryCursor(c, Tail(log), p - |es|, cur);
      var e := LogEntries(c, log.first + 1, log.segs[1..])[p - |es|];
      BoundarySegment(c, Tail(log), Cursor(e.segment, e.start));
      BoundaryTail(c, log, Cursor(e.segment, e.start));
      if Boundary(c, log, cur) && cur.segment > log.first { BoundaryTail(c, log, cur); }
    }
  }

  lemma FirstEntry(c: Codec, log: Log, p: nat)
    requires log.segs != [] && p < |log.segs[0]|
    ensures var e := LogEntries(c, log.first, log.segs)[p];
            var start := Cursor(e.segment, e.start);
            e.segment == log.first && Boundary(c, log, start) && Position(c, log, start) == p
  {
    hide Blob, WholeIn;
    var es := log.segs[0];
    EntryEnd(c, log.first, SEGMENT_HEADER_SIZE, es, p);
    EntryIds(c, log.first, SEGMENT_HEADER_SIZE, es, p);
    WholeInExact(c, es, p);
    assert log.segs[..0] == [];
  }

  lemma StartBoundary(c: Codec, log: Log)
    requires log.segs != []
    ensures var start := Cursor(log.first, SEGMENT_HEADER_SIZE); Boundary(c, log, start) && Position(c, log, start) == 0
  {
    var es := log.segs[0];
    assert es == [] || |Frame(c, es[0])| > 0;
    assert log.segs[..0] == [] && es[..0] == [];
  }

  function EndCursor(c: Codec, log: Log): Cursor
    requires log.segs != []
  {
    Cursor(LastId(log), Size(c, Active(log.segs)))
  }

  lemma EndCursorIsLast(c: Codec, log: Log)
    requires log.segs != []
    ensures Boundary(c, log, EndCursor(c, log)) && Position(c, log, EndCursor(c, log)) == |Flat(log.segs)|
  {
    hide Blob, WholeIn, Flat;
    var es := Active(log.segs);
    assert es[..|es|] == es;
    WholeInExact(c, es, |es|);
    FlatSnoc(log.segs[..|log.segs| - 1], es);
    assert log.segs == log.segs[..|log.segs| - 1] + [es];
  }

  /** Reading the p-th indexed record returns the bytes appended there. */
  lemma {:induction false} ReadIndexed(c: Codec, first: nat, segs: Segments, p: nat, data: bytes)
    requires p < |Flat(segs)| && (forall i | 0 <= i < |segs| :: AllStorable(c, segs[i]))
    requires var s := LogEntries(c, first, segs)[p].segment;
             first <= s < first + |segs| ==> Image(c, s, segs[s - first]) <= data
    ensures first <= LogEntries(c, first, segs)[p].segment < first + |segs|
    ensures ReadRecord(c, data, LogEntries(c, first, segs)[p]) == Some(Flat(segs)[p].body)
    decreases |segs|
  {
    hide ReadRecord, Frame, SegmentHeader;
    if p < |segs[0]| {
      EntryIds(c, first, SEGMENT_HEADER_SIZE, segs[0], p);
      ReadEntry(c, first, SegmentHeader(first), segs[0], data, p);
    } else {
      EntrySegment(c, first + 1, segs[1..], p - |segs[0]|);
      ReadIndexed(c, first + 1, segs[1..], p - |segs[0]|, data);
    }
  }

  lemma {:induction false} EntrySegment(c: Codec, first: nat, segs: Segments, p: nat)
    requires p < |Flat(segs)|
    ensures first <= LogEntries(c, first, segs)[p].segment < first + |segs|
    decreases |segs|
  {
    if p < |segs[0]| {
      EntryIds(c, first, SEGMENT_HEADER_SIZE, segs[0], p);
    } else {
      EntrySegment(c, first + 1, segs[1..], p - |segs[0]|);
    }
  }

  // ---- The invariant -----------------------------------------------------------

  /** `_segments` mirrors the directory, which has no unfinished rotation. */
  ghost predicate Mirrors(c: Codec, v: View) {
    && v.disk.recent == {} && v.segments.Keys == v.disk.files.Keys
    && v.log.segs != [] && LastId(v.log) in v.disk.files
    && v.segments[LastId(v.log)] == Segment(|v.disk.files[LastId(v.log)].data|, |Active(v.log.segs)|)
    && v.disk.files[LastId(v.log)].data == Image(c, LastId(v.log), Active(v.log.segs))
    && (!v.syncPending ==> v.disk.files[LastId(v.log)].synced == |v.disk.files[LastId(v.log)].data|)
  }

  /** `_pending` and `_pending_by_id` index the log from the live head. */
  ghost predicate Indexed(c: Codec, v: View) {
    && v.head <= |Flat(v.log.segs)|
    && v.pending == LogEntries(c, v.log.first, v.log.segs)[v.head..]
    && (forall i | 0 <= i < |v.pending| :: v.pending[i].id in v.byId && v.byId[v.pending[i].id] == v.pending[i])
    && (forall id | id in v.byId :: exists i :: 0 <= i < |v.pending| && v.pending[i].id == id)
  }

  /** The memory's checkpoint is the floor under every checkpoint on disk, and neither
      they nor their ceiling are past what a removal asked for. */
  ghost predicate Anchored(c: Codec, v: View) {
    && Boundary(c, v.log, v.cursor)
    && v.floor == Position(c, v.log, v.cursor) <= v.head <= v.asked <= v.head + 1 && v.asked <= |Flat(v.log.segs)|
    && v.ceiling <= v.asked
    && (forall s: nat | v.cursor.segment <= s <= LastId(v.log) :: s in v.disk.files)
    && (forall cur | cur in Heads(v.disk) ::
          && Boundary(c, v.log, cur) && v.cursor.segment <= cur.segment
          && Position(c, v.log, v.cursor) <= Position(c, v.log, cur) <= v.asked)
  }

  /** IDs stay distinct from the memory's checkpoint on, and `_volatile_completed_ids`
      are the ones removed since. */
  ghost predicate Unreused(c: Codec, v: View) {
    && Boundary(c, v.log, v.cursor) && Position(c, v.log, v.cursor) <= v.head <= |Flat(v.log.segs)|
    && DistinctIds(Flat(v.log.segs)[Position(c, v.log, v.cursor)..])
    && v.completed == Ids(Flat(v.log.segs)[Position(c, v.log, v.cursor)..v.head])
  }

  ghost predicate Inv(c: Codec, v: View) {
    CrashSafe(c, v.log, v.disk) && Mirrors(c, v) && Indexed(c, v) && Anchored(c, v) && Unreused(c, v)
  }

  /** The abstract queue an Outbox implements. */
  ghost function Abs(c: Codec, v: View, syncs: nat, saves: nat): Queue
    requires Inv(c, v)
  {
    Queue(Flat(v.log.segs), v.head, Position(c, v.log, v.cursor), DurableTail(c, v.log, v.disk),
          Spots(c, v.log, v.disk),
          Position(c, v.log, v.disk.head.value), v.asked, syncs, saves)
  }
}
