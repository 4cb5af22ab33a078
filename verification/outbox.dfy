/** `Outbox`: the segmented, crash-resistant FIFO (reliomq/outbox.py:95-684). */
module OutboxClass {
  import opened Wrappers
  import opened Framing
  import opened Layout
  import opened Directory
  import opened Loading
  import opened Recovery
  import opened Storage
  import opened QueueSpec
  import opened OutboxState
  import opened OutboxSteps
  import opened Openings

  /** Failed is OutboxError with the instance still usable. Wedged is OutboxError
      after which memory and directory disagree until the Outbox is reopened: a
      rotation whose directory fsync failed, or a write that could not be undone. */
  datatype Outcome = Done | Failed | Wedged

  /** `AppendResult`. */
  datatype Written = Written(count: nat, bytesWritten: nat, rotated: bool)

  /** Accepted is a normal return; Rejected is OutboxError because an ID names
      different content or an envelope is too large; the others as in Outcome. */
  datatype Appending = Accepted(result: Written) | Rejected | AppendFailed | AppendWedged

  class Outbox {
    const codec: Codec
    const limits: Limits
    const fs: FileSystem

    var segments: map<nat, Segment>
    var pending: seq<Stored>
    var pendingById: map<Id, Stored>
    var completed: set<Id>
    var cursor: Cursor
    var generation: nat
    var needsRewrite: bool
    var syncPending: bool
    var syncGeneration: nat

    ghost var head: nat
    ghost var asked: nat
    /** Once wedged: the queue that a crash of the directory follows. */
    ghost var shadow: Option<Queue>

    /** Adopts what the scan of `seen`, the directory as it was read at startup, returned,
        once `Settle` has made all of it durable. */
    constructor Open(c: Codec, l: Limits, settled: Disk, ghost seen: Disk, loaded: Loaded, ghost log0: Log, ghost d0: Disk)
      requires CrashSafe(c, log0, d0) && Crash(d0, seen) && LoadedFrom(c, seen, loaded) && l.Positive()
      requires seen.files.Keys != {} && MaxOf(seen.files.Keys) in loaded.scans && loaded.scans[MaxOf(seen.files.Keys)].Scanned?
      requires loaded.scans[MaxOf(seen.files.Keys)].size <= |seen.files[MaxOf(seen.files.Keys)].data|
      requires settled == RepairFile(seen, MaxOf(seen.files.Keys), loaded.scans[MaxOf(seen.files.Keys)].size)
      ensures Valid() && fresh(fs) && codec == c && limits == l
      ensures HasTop(log0, seen) && seen.head.Some? && Boundary(c, log0, seen.head.value)
      ensures var from, kept := Position(c, log0, seen.head.value), Flat(Survivors(c, log0, seen).segs);
              Queue() == QueueSpec.Queue(kept, from, from, |kept|, {from}, from, from, 0, 0)
    {
      hide FileSystem.Valid, Inv, CrashSafe, Crash, LoadedFrom, Survivors, Repaired, RepairFile, ScanOf, MaxOf;
      hide Flat, Position, Boundary;
      hide HasTop, Abs;
      LoadedScans(c, seen, loaded);
      ghost var last := MaxOf(seen.files.Keys);
      CanOpen(c, log0, d0, seen, loaded, last);
      OpenedSnapshot(c, log0, d0, seen, last, loaded.scans[last].size);
      codec, limits := c, l;
      fs := new FileSystem(c, settled, Survivors(c, log0, seen), Position(c, log0, seen.head.value));
      segments := map s | s in loaded.scans :: Segment(loaded.scans[s].size, |loaded.scans[s].entries|);
      pending, pendingById, completed, cursor := loaded.pending, loaded.byId, {}, loaded.head;
      generation, needsRewrite, syncPending, syncGeneration := 0, loaded.rewrite, false, 0;
      head := Position(c, log0, seen.head.value);
      asked := head;
      shadow := None;
      new;
      OpenedInv(c, log0, d0, seen, loaded, State());
    }

    /** What opening does to the directory: it truncates a torn tail, syncs the newest
        segment, then the directory and those above it, because a process that died may
        have left bytes and names that no crash has tested yet. Any of these may fail, the
        one numbered `fault` does, and what is found afterwards is as good as what was found
        before. */
    static method Settle(c: Codec, found: Disk, last: nat, scan: Scan, fault: Option<nat>, ghost log0: Log, ghost d0: Disk)
      returns (ok: bool, r: Disk, ghost log1: Log, ghost d1: Disk)
      requires CrashSafe(c, log0, d0) && Found(d0, found) && last in found.files && last == MaxOf(found.files.Keys)
      requires scan == ScanOf(c, Cached(found), last) && scan.Scanned? && scan.size <= |found.files[last].data|
      ensures last in Cached(found).files && scan.size <= |Cached(found).files[last].data|
      ensures ok ==> r == RepairFile(Cached(found), last, scan.size)
      ensures fault.None? ==> ok
      ensures !ok ==> Retries(c, log0, d0, log1, d1) && Found(d1, r)
    {
      hide CrashSafe, Found, ScanFile, MaxOf, RepairFile, Directory.Fsync, Directory.Truncate, Barrier, DiskInv;
      hide Retries, Survivors, HasTop;
      SafeInv(c, log0, d0);
      FoundFiles(c, log0, d0, found);
      if !scan.torn { UntornIsWhole(c, last, found.files[last].data, true); }
      SettlesAll(found, last, scan.size, scan.torn, scan.entries != []);
      RepairRetries(c, log0, d0, found, last);
      RetriesSame(c, log0, d0);
      r, log1, d1 := found, log0, d0;
      ok := fault != Some(1);
      if !ok { return; }
      if scan.torn {
        r := Directory.Truncate(r, last, scan.size);
      } else {
        TruncatesNothing(found, last);
      }
      log1, d1 := Survivors(c, log0, Cached(found)), r;
      FoundSame(r);
      if scan.torn {
        ok, r := SyncStep(c, last, r, fault == Some(2), log0, d0, log1);
        d1 := r;
        if !ok { return; }
      }
      if scan.entries != [] {
        ok, r := SyncStep(c, last, r, fault == Some(3), log0, d0, log1);
        d1 := r;
        if !ok { return; }
      }
      ok := fault != Some(4);
      if !ok { return; }
      BarrierRetries(c, log0, d0, log1, r);
      r := Barrier(r);
      d1 := r;
      FoundSame(r);
      // The directories above it.
      ok := fault != Some(5);
    }

    /** One fsync of the newest segment. */
    static method SyncStep(c: Codec, last: nat, d: Disk, fails: bool, ghost log0: Log, ghost d0: Disk, ghost log1: Log)
        returns (ok: bool, r: Disk)
      requires Retries(c, log0, d0, log1, d) && log1.segs != [] && last == LastId(log1) && last in d.files
      ensures ok == !fails && last in r.files && r == if ok then Directory.Fsync(d, last) else d
      ensures Retries(c, log0, d0, log1, r) && Found(r, r)
    {
      hide Retries, Found, LastId;
      r := d;
      ok := !fails;
      if ok {
        FsyncRetries(c, log0, d0, log1, d);
        r := Directory.Fsync(d, last);
      }
      FoundSame(r);
    }

    ghost function State(): View
      reads this, fs
    {
      View(segments, pending, pendingById, completed, cursor, syncPending, fs.disk, fs.log, fs.floor, fs.ceiling, head, asked)
    }

    ghost predicate Valid()
      reads this, fs
    {
      shadow.None? && fs.Valid() && codec == fs.codec && limits.Positive() && Inv(codec, State())
    }

    /** Memory and directory disagree, but a crash still leaves what `shadow` allows. */
    ghost predicate Stranded()
      reads this, fs
    {
      && shadow.Some? && fs.Valid() && codec == fs.codec && limits.Positive()
      && shadow.value.Ok() && Leaves(codec, shadow.value, fs.log, fs.disk)
    }

    /** The queue whose `Recovers` says what a crash may leave. */
    ghost function Model(): (q: Queue)
      requires Valid() || Stranded()
      reads this, fs
    {
      if shadow.Some? then shadow.value else Queue()
    }

    ghost function Queue(): (q: Queue)
      requires Valid()
      reads this, fs
    {
      Abs(codec, State(), syncGeneration, generation)
    }

    /** Some closed segment lies wholly before the live head. */
    ghost predicate ConsumedClosedSegment()
      reads this`head, fs
    {
      fs.log.segs != [] && head <= |Flat(fs.log.segs)|
      && exists s | s in fs.disk.files :: s < LogCursor(fs.codec, fs.log, head).segment && s < LastId(fs.log)
    }

    /** The generation counters are the queue's, and the queue is well formed. */
    lemma QueueFacts()
      requires Valid()
      ensures Queue().Ok() && Queue().syncs == syncGeneration && Queue().saves == generation
      ensures Queue().durable <= |Queue().items| && Queue().head <= |Queue().items|
    {
      hide FileSystem.Valid, Inv, Abs, Flat;
      AbsBounds(codec, State(), syncGeneration, generation);
      AbsFields(codec, State(), syncGeneration, generation);
    }

    /** The present moment of a usable Outbox is within whatever admits its queue. */
    lemma Moment(before: seq<Snapshot>, b: Bounds)
      requires Valid() && fs.Stepped(before) && Admits(b, Queue())
      ensures Moments(before, fs.visited, b)
    {
      hide FileSystem.Valid, Inv, Abs, Flat, Within;
      ViewWithin(codec, State(), syncGeneration, generation, b);
      OneMoment(before, fs.visited, fs.Now(), b);
    }

    lemma StrandedOk()
      requires Stranded()
      ensures shadow.Some? && shadow.value.Ok() && shadow.value.head <= |shadow.value.items|
    {
      hide FileSystem.Valid, Leaves;
    }

    /** The index lists the pending IDs in FIFO order, and every queued envelope decodes. */
    lemma PendingFacts()
      requires Valid()
      ensures Queue().head <= |Queue().items| && |pending| == |Queue().Pending()|
      ensures forall i | 0 <= i < |pending| :: pending[i].id == Queue().Pending()[i].id
      ensures forall e | e in Queue().Pending() :: codec.decode(e.body) == Some(e.id)
    {
      hide FileSystem.Valid, Inv, Abs, Flat, AllStorable;
      AbsFields(codec, State(), syncGeneration, generation);
      PendingList(codec, State());
    }

    // ---- Reading ------------------------------------------------------------------

    /** `_active_segment_locked`: the highest segment ID. */
    method ActiveId() returns (id: nat)
      requires Valid()
      ensures fs.log.segs != [] && id == LastId(fs.log) && id in segments && id in fs.disk.files
    {
      hide Inv;
      ActiveIsMax(codec, State());
      MaxExists(segments.Keys);
      id :| id in segments.Keys && forall s | s in segments.Keys :: s <= id;
    }

    /** `_read_envelope_locked` for the i-th pending record: the bytes that were
        appended, never an error. */
    method ReadPending(item: Stored, ghost i: nat) returns (body: bytes)
      requires Valid() && i < |pending| && item == pending[i]
      ensures head + i < |Queue().items| && item.id == Queue().items[head + i].id
      ensures body == Queue().items[head + i].body
    {
      hide FileSystem.Valid, Inv, ReadRecord, Flat, Abs;
      PendingReads(codec, State(), i);
      AbsFields(codec, State(), syncGeneration, generation);
      body := ReadRecord(codec, fs.disk.files[item.segment].data, item).value;
    }

    /** `_normalized_volatile_cursor_locked`. */
    method NormalizedCursor() returns (cur: Cursor)
      requires Valid()
      ensures fs.log.segs != [] && head <= |Flat(fs.log.segs)| && cur == LogCursor(codec, fs.log, head)
    {
      PendingCursor(codec, State(), 0);
      hide FileSystem.Valid, Inv, Flat, LogEntries;
      if pending != [] {
        cur := Cursor(pending[0].segment, pending[0].start);
      } else {
        var id := ActiveId();
        cur := Cursor(id, segments[id].byteSize);
      }
    }

    /** `_cursor_after_oldest_locked`. */
    method CursorAfterOldest() returns (cur: Cursor)
      requires Valid() && pending != []
      ensures fs.log.segs != [] && head < |Flat(fs.log.segs)| && cur == LogCursor(codec, fs.log, head + 1)
    {
      PendingCursor(codec, State(), 1);
      hide FileSystem.Valid, Inv, Flat, LogEntries;
      if |pending| > 1 {
        cur := Cursor(pending[1].segment, pending[1].start);
      } else {
        var id := ActiveId();
        cur := Cursor(id, segments[id].byteSize);
      }
    }

    // ---- Durability -----------------------------------------------------------------

    /** `_sync_data_locked`. */
    method SyncData() returns (ok: bool)
      requires Valid()
      modifies this`syncPending, this`syncGeneration, fs
      ensures Valid() && Synced(old(Queue()), Queue(), ok)
      ensures fs.log == old(fs.log) && Heads(fs.disk) == old(Heads(fs.disk))
      ensures ok ==> !syncPending
      ensures Moments(old(fs.visited), fs.visited, Resting(old(Queue())))
      ensures old(fs.faults) <= fs.faults
      ensures !ok ==> fs.faults > old(fs.faults)
    {
      hide FileSystem.Valid, Inv, Abs, CrashSafe;
      ghost var before, q := State(), Queue();
      AbsOk(codec, before, syncGeneration, generation);
      AbsFields(codec, before, syncGeneration, generation);
      if !syncPending {
        SyncedDurable(codec, before);
        assert Synced(q, q, true);
        NoMoments(fs.visited, Resting(q));
        return true;
      }
      var id := ActiveId();
      FsyncStep(codec, before);
      ok := fs.Fsync(id);
      if ok {
        syncPending := false;
        syncGeneration := syncGeneration + 1;
        assert State() == AfterFsync(before);
        FsyncAbs(codec, before, syncGeneration - 1, syncGeneration, generation);
        assert Synced(q, Queue(), true);
      } else {
        assert State() == before;
        assert Queue() == q;
        assert Synced(q, q, false);
      }
      Moment(old(fs.visited), Resting(q));
    }

    /** `_persist_checkpoint_locked` for the record at log position `p`. `renamed` says
        that it failed after the rename, in the directory fsync. */
    method PersistCheckpoint(cur: Cursor, ghost p: nat) returns (ok: bool, ghost renamed: bool)
      requires Valid() && !syncPending && head <= p <= asked
      requires fs.log.segs != [] && p <= |Flat(fs.log.segs)| && cur == LogCursor(codec, fs.log, p)
      modifies this`generation, this`needsRewrite, fs
      ensures Valid() && fs.log == old(fs.log)
      ensures ok ==> generation == old(generation) + 1 && !needsRewrite
      ensures ok ==> Heads(fs.disk) == {cur} && Queue() == old(Queue()).(heads := {p}, newest := p, saves := old(generation) + 1)
      ensures ok ==> !renamed
      ensures !ok ==> Queue() == if renamed then old(Queue()).(heads := old(Queue()).heads + {p}, newest := p) else old(Queue())
      ensures Moments(old(fs.visited), fs.visited, Installing(old(Queue()), p))
      ensures old(fs.faults) <= fs.faults
      ensures !ok ==> fs.faults > old(fs.faults)
    {
      hide FileSystem.Valid, Inv, Abs, CrashSafe, LogCursor, Flat, Position, Boundary, HeadOk, DistinctIds;
      ghost var b := Installing(Queue(), p);
      RaiseCeiling(p);
      ghost var v0, visited0 := State(), fs.visited;
      InstallStep(codec, v0, p);
      renamed := false;
      ok := fs.RenameHead(cur);
      if !ok {
        assert State() == v0;
        Moment(visited0, b);
        MoreMoments(old(fs.visited), visited0, fs.visited, b, b);
        return;
      }
      ghost var v1, visited1 := State(), fs.visited;
      assert v1 == AfterInstall(codec, v0, p);
      InstallAbs(codec, v0, p, syncGeneration, generation);
      BarrierStep(codec, v1);
      BarrierAbs(codec, v1, syncGeneration, generation + 1);
      SavesOnly(codec, v1, syncGeneration, generation, generation + 1);
      Moment(visited0, b);
      MoreMoments(old(fs.visited), visited0, visited1, b, b);
      ok := fs.FsyncDirectory();
      renamed := !ok;
      if ok {
        generation := generation + 1;
        needsRewrite := false;
        assert State() == AfterBarrier(v1);
      } else {
        assert State() == v1;
      }
      Moment(visited1, b);
      MoreMoments(old(fs.visited), visited1, fs.visited, b, b);
    }

    /** The checkpoint about to be installed is nowhere past what was asked for. */
    ghost method RaiseCeiling(p: nat)
      requires Valid() && p <= asked
      modifies fs`ceiling, fs`visited
      ensures Valid() && p <= fs.ceiling && Queue() == old(Queue())
      ensures Moments(old(fs.visited), fs.visited, Installing(Queue(), p))
    {
      hide FileSystem.Valid, Inv, Abs, CrashSafe, Flat;
      ghost var v, q := State(), Queue();
      if fs.ceiling < p {
        CeilingStep(codec, v, p, syncGeneration, generation);
        fs.RaiseCeiling(p);
        assert State() == v.(ceiling := p);
      }
      Moment(old(fs.visited), Installing(q, p));
    }

    /** `_cleanup_completed_segments_locked`: a failed unlink leaves the segment
        for a later cleanup; a failed directory fsync is only logged. */
    method CleanupCompletedSegments()
      requires Valid()
      modifies this`segments, fs
      ensures Valid() && fs.log == old(fs.log)
      ensures Queue() == old(Queue()).(heads := Queue().heads) && Queue().heads <= old(Queue()).heads
      ensures Moments(old(fs.visited), fs.visited, Resting(old(Queue())))
      ensures old(fs.faults) <= fs.faults
      ensures forall s | s in segments :: s in old(segments) && segments[s] == old(segments)[s]
      ensures forall s | s in old(segments) && s >= cursor.segment :: s in segments
      ensures fs.faults == old(fs.faults) ==> forall s | s in segments :: s >= cursor.segment || s >= LastId(fs.log)
    {
      hide FileSystem.Valid, Inv, Abs, CrashSafe, MinOf, Outbox.Valid, Outbox.Queue, Outbox.State;
      var active := ActiveId();
      ghost var b := Resting(Queue());
      NoMoments(fs.visited, b);
      var removable := set s | s in segments && s < cursor.segment && s < active;
      var removedAny := false;
      while removable != {}
        invariant Valid() && fs.log == old(fs.log) && Queue() == old(Queue())
        invariant removable <= segments.Keys && forall s | s in removable :: s < cursor.segment
        invariant Moments(old(fs.visited), fs.visited, b) && old(fs.faults) <= fs.faults
        invariant forall s | s in segments :: s in old(segments) && segments[s] == old(segments)[s]
        invariant forall s | s in old(segments) && s >= cursor.segment :: s in segments
        invariant fs.faults == old(fs.faults) ==> forall s | s in segments :: s >= cursor.segment || s >= active || s in removable
      {
        var id := MinKey(removable);
        ghost var before := fs.visited;
        var ok := DeleteSegment(id);
        MoreMoments(old(fs.visited), before, fs.visited, b, b);
        removable := removable - {id};
        if ok { removedAny := true; }
      }
      ghost var before := fs.visited;
      if removedAny { SyncCleanup(); } else { NoMoments(before, b); }
      MoreMoments(old(fs.visited), before, fs.visited, b, b);
    }

    method DeleteSegment(id: nat) returns (ok: bool)
      requires Valid() && id in segments && id < cursor.segment
      modifies this`segments, fs
      ensures Valid() && fs.log == old(fs.log) && Queue() == old(Queue())
      ensures Moments(old(fs.visited), fs.visited, Resting(old(Queue())))
      ensures segments == if ok then old(segments) - {id} else old(segments)
      ensures fs.faults == old(fs.faults) + if ok then 0 else 1
    {
      hide FileSystem.Valid, Inv, Abs, CrashSafe;
      ghost var v := State();
      SegmentsAreFiles(codec, v);
      UnlinkStep(codec, v, id);
      UnlinkAbs(codec, v, id, syncGeneration, generation);
      ok := fs.Unlink(id);
      if ok {
        segments := segments - {id};
        assert State() == AfterUnlink(v, id);
      } else {
        assert State() == v;
      }
      Moment(old(fs.visited), Resting(Queue()));
    }

    /** The directory fsync after a cleanup, whose failure is only logged. */
    method SyncCleanup()
      requires Valid()
      modifies fs
      ensures Valid() && fs.log == old(fs.log) && old(fs.faults) <= fs.faults
      ensures Moments(old(fs.visited), fs.visited, Resting(old(Queue())))
      ensures Queue() == old(Queue()).(heads := Queue().heads) && Queue().heads <= old(Queue()).heads
    {
      hide FileSystem.Valid, Inv, Abs, CrashSafe;
      ghost var v := State();
      BarrierStep(codec, v);
      BarrierAbs(codec, v, syncGeneration, generation);
      var ok := fs.FsyncDirectory();
      assert State() == if ok then AfterBarrier(v) else v;
      Moment(old(fs.visited), Resting(Queue()));
    }

    /** `checkpoint()`: sync data, persist the live head, clean old segments. */
    method Checkpoint() returns (ok: bool)
      requires Valid()
      modifies this`syncPending, this`syncGeneration, this`generation, this`needsRewrite, this`cursor, this`completed,
               this`segments, fs
      ensures Valid() && fs.log == old(fs.log) && Checkpointed(old(Queue()), Queue(), ok)
      ensures ok ==> completed == {}
      ensures Moments(old(fs.visited), fs.visited, Holding(old(Queue()), false))
      ensures old(fs.faults) <= fs.faults
      ensures !ok ==> fs.faults > old(fs.faults)
      ensures ok && fs.faults == old(fs.faults) ==> forall s | s in segments :: s >= cursor.segment || s >= LastId(fs.log)
    {
      hide FileSystem.Valid, Inv, Abs, CrashSafe, LogCursor, Flat, Position, Boundary, Moments;
      ghost var q0, b := Queue(), Holding(Queue(), false);
      ok := SyncData();
      WiderMoments(old(fs.visited), fs.visited, Resting(q0), b);
      if !ok { return; }
      var cur := NormalizedCursor();
      ghost var q, visited0 := Queue(), fs.visited;
      AbsFields(codec, State(), syncGeneration, generation);
      if cur != cursor || needsRewrite {
        AskedBound(codec, State());
        ghost var renamed;
        ok, renamed := PersistCheckpoint(cur, head);
        MoreMoments(old(fs.visited), visited0, fs.visited, b, b);
        if !ok { return; }
        ghost var visited1, q1 := fs.visited, Queue();
        AdoptCheckpoint(cur);
        MoreMoments(old(fs.visited), visited1, fs.visited, b, Resting(q1));
      } else {
        NothingVolatile(codec, State());
        completed := {};
        assert Queue() == q;
        CleanupCompletedSegments();
        MoreMoments(old(fs.visited), visited0, fs.visited, b, Resting(q));
        AbsOk(codec, State(), syncGeneration, generation);
      }
    }

    // ---- Removing ---------------------------------------------------------------------

    /** The durable half of `remove_oldest`: sync, then checkpoint past the head. */
    method PersistRemoval(next: Cursor) returns (ok: bool, ghost renamed: bool)
      requires Valid() && pending != []
      requires fs.log.segs != [] && head < |Flat(fs.log.segs)| && next == LogCursor(codec, fs.log, head + 1)
      modifies this`asked, this`syncPending, this`syncGeneration, this`generation, this`needsRewrite, fs
      ensures Valid() && fs.log == old(fs.log)
      ensures Moments(old(fs.visited), fs.visited, Holding(old(Queue()), true))
      ensures ok ==> Heads(fs.disk) == {next}
      ensures ok ==> var q := old(Queue());
                     && Queue() == q.(asked := q.head + 1, heads := {q.head + 1}, newest := q.head + 1, durable := |q.items|,
                                      syncs := Queue().syncs, saves := Queue().saves)
                     && q.syncs <= Queue().syncs && q.saves <= Queue().saves
      ensures ok ==> !renamed
      ensures !ok ==> Removed(old(Queue()), Queue(), true, false, renamed)
      ensures old(fs.faults) <= fs.faults
      ensures !ok ==> fs.faults > old(fs.faults)
    {
      hide FileSystem.Valid, Inv, Abs, CrashSafe, LogCursor, Flat, Position, Boundary, DistinctIds;
      ghost var v := State();
      AbsFields(codec, v, syncGeneration, generation);
      AskStep(codec, v);
      AskAbs(codec, v, syncGeneration, generation);
      asked := head + 1;
      assert State() == v.(asked := head + 1);
      ghost var b := Holding(Queue(), true);
      renamed := false;
      ok := SyncData();
      if !ok { return; }
      AbsFields(codec, State(), syncGeneration, generation);
      ghost var visited0 := fs.visited;
      ok, renamed := PersistCheckpoint(next, head + 1);
      MoreMoments(old(fs.visited), visited0, fs.visited, b, b);
    }

    /** The in-memory half of `remove_oldest`. */
    method PopHead()
      requires Valid() && pending != []
      modifies this`pending, this`pendingById, this`completed, this`head, this`asked
      ensures Valid() && head == old(head) + 1
      ensures Queue() == old(Queue()).(head := head, asked := head)
    {
      hide FileSystem.Valid, Inv, Abs, CrashSafe, Flat, Position, Boundary, DistinctIds;
      ghost var v := State();
      PopStep(codec, v);
      PopAbs(codec, v, syncGeneration, generation);
      var removed := pending[0];
      pending := pending[1..];
      pendingById := pendingById - {removed.id};
      completed := completed + {removed.id};
      head := head + 1;
      asked := head;
      assert State() == AfterPop(v);
    }

    /** The memory takes over an installed checkpoint at the live head. */
    method AdoptCheckpoint(next: Cursor)
      requires Valid() && fs.log.segs != [] && head <= |Flat(fs.log.segs)|
      requires next == LogCursor(codec, fs.log, head) && Heads(fs.disk) == {next}
      modifies this`cursor, this`completed, this`segments, fs
      ensures Valid() && fs.log == old(fs.log)
      ensures Moments(old(fs.visited), fs.visited, Resting(old(Queue())))
      ensures Queue() == old(Queue()).(saved := head) && completed == {}
      ensures old(fs.faults) <= fs.faults
      ensures fs.faults == old(fs.faults) ==> forall s | s in segments :: s >= cursor.segment || s >= LastId(fs.log)
    {
      hide FileSystem.Valid, Inv, Abs, CrashSafe, LogCursor, Flat, Position, Boundary, DistinctIds;
      ghost var v := State();
      SaveStep(codec, v);
      SaveAbs(codec, v, syncGeneration, generation, generation);
      AbsFields(codec, v, syncGeneration, generation);
      LogCursorExact(codec, fs.log, head, next);
      OneHead(codec, v, v, syncGeneration, generation, next);
      SaveFloor(codec, v);
      ghost var b := Resting(Queue());
      AbsOk(codec, v, syncGeneration, generation);
      fs.RaiseFloor(head);
      cursor := next;
      completed := {};
      assert State() == AfterSave(codec, v, head);
      Moment(old(fs.visited), b);
      ghost var visited0, q := fs.visited, Queue();
      CleanupCompletedSegments();
      MoreMoments(old(fs.visited), visited0, fs.visited, b, Resting(q));
      AbsOk(codec, State(), syncGeneration, generation);
    }

    /** `remove_oldest(expected, sync)`. `renamed` says that the head stays, but a
        checkpoint past it is already in place and only its directory fsync failed. */
    method RemoveOldest(expected: Envelope, sync: bool) returns (r: Removal, ghost renamed: bool)
      requires Valid()
      modifies this, fs
      ensures Valid() && fs.log == old(fs.log)
      ensures Moments(old(fs.visited), fs.visited, Holding(old(Queue()), true))
      ensures old(Queue()).head <= |old(Queue()).items|
      ensures r == NotHead <==> old(Queue()).Pending() == [] || old(Queue()).Pending()[0] != expected
      ensures r == NotHead ==> Queue() == old(Queue()) && !renamed
      ensures r != NotHead ==> Removed(old(Queue()), Queue(), sync, r == Advanced, renamed)
      ensures old(fs.faults) <= fs.faults
      ensures r == RemovalFailed ==> fs.faults > old(fs.faults)
      ensures r == Advanced && sync && fs.log.segs != [] && fs.faults == old(fs.faults) ==> forall s | s in segments :: s >= cursor.segment || s >= LastId(fs.log)
    {
      hide FileSystem.Valid, Inv, Abs, CrashSafe, LogCursor, Flat, Position, Boundary, DistinctIds, Moments, Within;
      AbsOk(codec, State(), syncGeneration, generation);
      AbsFields(codec, State(), syncGeneration, generation);
      PendingCursor(codec, State(), 0);
      renamed := false;
      ghost var b := Holding(Queue(), true);
      NoMoments(fs.visited, b);
      if pending == [] { return NotHead, false; }
      var body := ReadPending(pending[0], 0);
      if pending[0].id != expected.id || body != expected.body { return NotHead, false; }
      var next := CursorAfterOldest();
      if sync {
        var ok;
        ok, renamed := PersistRemoval(next);
        if !ok { return RemovalFailed, renamed; }
        PopHead();
        ghost var visited0, q := fs.visited, Queue();
        AdoptCheckpoint(next);
        MoreMoments(old(fs.visited), visited0, fs.visited, b, Resting(q));
      } else {
        PopHead();
      }
      r := Advanced;
    }

    // ---- Appending ------------------------------------------------------------------------

    /** One more moment, whose records are still within the plan. */
    lemma Join(start: seq<Snapshot>, middle: seq<Snapshot>, b: Bounds)
      requires fs.Stepped(middle) && Moments(start, middle, b)
      requires Flat(fs.log.segs) <= b.plan && Spots(fs.codec, fs.log, fs.disk) <= b.spots
      ensures Moments(start, fs.visited, b)
    {
      hide Flat, Spots;
      OneMoment(middle, fs.visited, fs.Now(), b);
      MoreMoments(start, middle, fs.visited, b, b);
    }

    /** The file half of `_rotate_locked`: the next segment's rename and its directory
        fsync, without which it is wedged. */
    method InstallNext(id: nat, ghost b: Bounds) returns (r: Outcome)
      requires fs.Valid() && codec == fs.codec && Inv(codec, State()) && !syncPending
      requires fs.log.segs != [] && id == LastId(fs.log) + 1 <= MAX_SEGMENT_ID && Within(fs.Now(), b)
      modifies fs`disk, fs`log, fs`visited, fs`faults
      ensures fs.Valid() && Moments(old(fs.visited), fs.visited, b)
      ensures r == Failed ==> fs.log == old(fs.log) && fs.disk == old(fs.disk)
      ensures r != Failed ==> fs.log == Rotated(old(fs.log))
      ensures r != Failed ==> var installed := InstallSegment(old(fs.disk), id, SegmentHeader(id));
                              fs.disk == if r == Done then Barrier(installed) else installed
      ensures old(fs.faults) <= fs.faults
      ensures r != Done ==> fs.faults > old(fs.faults)
    {
      hide FileSystem.Valid, Inv, CrashSafe, Flat, Rotated, SegmentHeader, Image, Moments, InstallSegment, Barrier;
      hide Spots, Heads;
      WriteReady(codec, State());
      SpotsRotate(codec, State());
      LogLayout(fs.log, []);
      NoMoments(fs.visited, b);
      var ok := fs.RenameSegment(id, SegmentHeader(id));
      Join(old(fs.visited), old(fs.visited), b);
      if !ok { return Failed; }
      ghost var visited0, installed := fs.visited, fs.disk;
      HeadsKept(installed, id);
      SpotsSame(codec, fs.log, installed, Barrier(installed));
      ok := fs.FsyncDirectory();
      Join(old(fs.visited), visited0, b);
      r := if ok then Done else Wedged;
    }

    /** `_rotate_locked`: sync, rename the next segment into place, sync the directory. */
    method Rotate() returns (r: Outcome)
      requires Valid()
      modifies this`syncPending, this`syncGeneration, this`segments, this`shadow, fs
      ensures fs.Valid()
      ensures Moments(old(fs.visited), fs.visited, Resting(old(Queue())))
      ensures r != Wedged ==> Valid()
      ensures r == Failed ==> fs.log == old(fs.log) && Synced(old(Queue()), Queue(), false)
      ensures r == Done ==> fs.log == Rotated(old(fs.log)) && !syncPending
      ensures r == Done ==> var q := old(Queue());
                            && Queue() == q.(durable := |q.items|, heads := Queue().heads, syncs := Queue().syncs)
                            && Queue().heads <= q.heads && q.syncs <= Queue().syncs
      ensures r == Wedged ==> Stranded() && Synced(old(Queue()), shadow.value, true)
      ensures old(fs.faults) <= fs.faults
      ensures r != Done ==> fs.faults > old(fs.faults)
    {
      hide FileSystem.Valid, Inv, Abs, CrashSafe, Flat, Rotated, SegmentHeader, Image, Leaves, Within, Moments;
      ghost var b := Resting(Queue());
      var ok := SyncData();
      if !ok { return Failed; }
      var id := ActiveId();
      if id + 1 > MAX_SEGMENT_ID {
        fs.Refuse();
        return Failed;
      }
      ghost var v := State();
      WriteReady(codec, v);
      RotateStep(codec, v);
      RotateAbs(codec, v, syncGeneration, generation);
      RotateLeaves(codec, v, syncGeneration, generation);
      AbsOk(codec, v, syncGeneration, generation);
      ghost var q, visited0 := Queue(), fs.visited;
      ViewWithin(codec, v, syncGeneration, generation, b);
      r := InstallNext(id + 1, b);
      MoreMoments(old(fs.visited), visited0, fs.visited, b, b);
      if r == Failed { return; }
      if r == Wedged {
        shadow := Some(q);
        return;
      }
      segments := segments[id + 1 := Segment(SEGMENT_HEADER_SIZE, 0)];
      assert State() == AfterRotate(v);
    }

    /** Adds the index entries of a chunk written from byte `start` on. */
    method IndexChunk(chunk: seq<Envelope>, id: nat, start: nat)
      requires DistinctIds(chunk)
      modifies this`pending, this`pendingById
      ensures pending == old(pending) + Entries(codec, id, start, chunk)
      ensures Adds(old(pendingById), pendingById, Entries(codec, id, start, chunk))
    {
      hide Adds, Blob, Entries, DistinctIds;
      AddsNothing(pendingById, codec, id, start);
      var i, offset := 0, start;
      while i < |chunk|
        invariant i <= |chunk| && offset == start + |Blob(codec, chunk[..i])|
        invariant pending == old(pending) + Entries(codec, id, start, chunk[..i])
        invariant Adds(old(pendingById), pendingById, Entries(codec, id, start, chunk[..i]))
      {
        ChunkSnoc(codec, id, start, chunk, i);
        var end := offset + |Frame(codec, chunk[i])|;
        var stored := Stored(chunk[i].id, id, offset, end);
        AddsSnoc(old(pendingById), pendingById, Entries(codec, id, start, chunk[..i]), stored);
        pending := pending + [stored];
        pendingById := pendingById[stored.id := stored];
        i, offset := i + 1, end;
      }
      assert chunk[..|chunk|] == chunk;
    }

    method SyncAgain(id: nat, ghost start: seq<Snapshot>, ghost b: Bounds) returns (ok: bool)
      requires fs.Valid() && id in fs.disk.files && id == LastId(fs.log)
      requires Moments(start, fs.visited, b) && Within(fs.Now(), b)
      modifies fs`disk, fs`visited, fs`faults
      ensures fs.Valid() && Moments(start, fs.visited, b)
      ensures fs.disk == if ok then Directory.Fsync(old(fs.disk), id) else old(fs.disk)
      ensures fs.faults == old(fs.faults) + if ok then 0 else 1
    {
      hide FileSystem.Valid, CrashSafe, Flat, Moments, Spots, Heads, Directory.Fsync;
      ghost var visited0, d := fs.visited, fs.disk;
      HeadsKept(d, id);
      SpotsSame(fs.codec, fs.log, d, Directory.Fsync(d, id));
      ok := fs.Fsync(id);
      Join(start, visited0, b);
    }

    /** The file half of `_write_chunk_locked`: write, fsync when asked, undo on
        failure. */
    method WriteBytes(id: nat, blob: bytes, ghost chunk: seq<Envelope>, originalSize: nat, sync: bool, ghost b: Bounds)
      returns (r: Outcome, ghost part: bytes)
      requires fs.Valid() && codec == fs.codec && Inv(codec, State()) && Fresh(codec, State(), chunk)
      requires AllStorable(codec, chunk) && blob == Blob(codec, chunk)
      requires fs.log.segs != [] && id == LastId(fs.log) && id in fs.disk.files
      requires originalSize == |fs.disk.files[id].data|
      requires Within(fs.Now(), b) && Flat(fs.log.segs) + chunk <= b.plan
      modifies fs`disk, fs`log, fs`visited, fs`faults
      ensures fs.Valid()
      ensures Moments(old(fs.visited), fs.visited, b)
      ensures r == Done ==> fs.log == Extend(old(fs.log), chunk)
      ensures r == Done ==> var written := Write(old(fs.disk), id, blob);
                            fs.disk == if sync then Directory.Fsync(written, id) else written
      ensures r == Failed ==> fs.log == old(fs.log)
      ensures r == Failed ==> fs.disk == old(fs.disk) || fs.disk == Directory.Fsync(old(fs.disk), id)
      ensures r == Wedged ==> fs.log == Extend(old(fs.log), chunk) && fs.disk == Write(old(fs.disk), id, part)
      ensures old(fs.faults) <= fs.faults
      ensures r != Done ==> fs.faults > old(fs.faults)
    {
      hide FileSystem.Valid, Inv, CrashSafe, Flat, Image, Position, Boundary, Extend, Blob, AllStorable, Fresh;
      hide DistinctIds;
      hide Moments, Spots, Heads, Directory.Fsync;
      ghost var before := fs.Now();
      fs.LastIsSafe();
      LogLayout(fs.log, chunk);
      NoMoments(fs.visited, b);
      WriteReady(codec, State());
      FreshHeads(codec, State(), chunk);
      ghost var v := State();
      var ok;
      ok, part := fs.Append(id, blob, chunk);
      SpotsWrite(codec, v, chunk, part);
      Join(old(fs.visited), old(fs.visited), b);
      if ok && sync {
        ok := SyncAgain(id, old(fs.visited), b);
      }
      if ok { return Done, part; }
      // Nothing was synced since the write, so truncating undoes it.
      ghost var visited1 := fs.visited;
      ok := fs.Truncate(id, originalSize, before, chunk, part);
      Join(old(fs.visited), visited1, b);
      if !ok { return Wedged, part; }
      if sync {
        var synced := SyncAgain(id, old(fs.visited), b);
      }
      r := Failed;
    }

    /** `_write_chunk_locked`. */
    method WriteChunk(chunk: seq<Envelope>, sync: bool) returns (r: Outcome)
      requires Valid() && AllStorable(codec, chunk)
      requires Queue().saved <= |Queue().items| && FreshFor(Queue(), chunk)
      modifies this`pending, this`pendingById, this`segments, this`syncPending, this`syncGeneration, this`shadow, fs
      ensures fs.Valid()
      ensures Moments(old(fs.visited), fs.visited, Growing(old(Queue()), chunk))
      ensures r != Wedged ==> Valid()
      ensures r == Failed ==> fs.log == old(fs.log) && Synced(old(Queue()), Queue(), false)
      ensures old(fs.log).segs != []
      ensures r == Done ==> fs.log == Extend(old(fs.log), chunk) && syncPending == !sync
      ensures r == Done ==> ChunkWritten(old(Queue()), Queue(), chunk, sync)
      ensures r == Wedged ==> Stranded() && shadow.value == old(Queue()).(items := old(Queue()).items + chunk)
      ensures old(fs.faults) <= fs.faults
      ensures r != Done ==> fs.faults > old(fs.faults)
    {
      hide FileSystem.Valid, Inv, Abs, CrashSafe, Flat, Image, Position, Boundary, Extend, Adds, Blob, AllStorable;
      hide Fresh, DistinctIds;
      hide ChunkWritten, Leaves, Within;
      ghost var v, q := State(), Queue();
      ghost var b := Growing(q, chunk);
      AbsFields(codec, v, syncGeneration, generation);
      ViewWithin(codec, v, syncGeneration, generation, b);
      FreshIs(codec, v, syncGeneration, generation, chunk);
      WriteReady(codec, v);
      FreshDistinct(codec, v, chunk);
      var id := ActiveId();
      var originalSize := segments[id].byteSize;
      var blob := Blob(codec, chunk);
      ghost var part;
      r, part := WriteBytes(id, blob, chunk, originalSize, sync, b);
      if r == Done {
        RecordChunk(chunk, id, |blob|, sync, v);
      } else if r == Wedged {
        Strand(v, q, chunk, part);
      } else {
        NotWritten(v);
      }
    }

    /** A write that failed and could not be undone. */
    ghost method Strand(v: View, q: Queue, chunk: seq<Envelope>, part: bytes)
      requires shadow.None? && Inv(codec, v) && codec == fs.codec && limits.Positive() && fs.Valid()
      requires v.log.segs != [] && LastId(v.log) in v.disk.files && q == Abs(codec, v, syncGeneration, generation)
      requires q.saved <= |q.items| && FreshFor(q, chunk)
      requires fs.log == Extend(v.log, chunk) && fs.disk == Write(v.disk, LastId(v.log), part)
      modifies this`shadow
      ensures Stranded() && shadow.value == q.(items := q.items + chunk)
    {
      hide FileSystem.Valid, Inv, Abs, CrashSafe, Flat, Extend, Write, Leaves, DistinctIds, FreshFor;
      hide QueueSpec.Queue.Ok;
      AbsOk(codec, v, syncGeneration, generation);
      GrownOk(q, chunk);
      fs.LastIsSafe();
      SafeParts(codec, fs.Now());
      WriteLeaves(codec, v, chunk, part, syncGeneration, generation);
      shadow := Some(q.(items := q.items + chunk));
    }

    /** The memory half of `_write_chunk_locked`, after the file half succeeded. */
    method RecordChunk(chunk: seq<Envelope>, id: nat, size: nat, sync: bool, ghost v: View)
      requires shadow.None? && Inv(codec, v) && codec == fs.codec && limits.Positive() && fs.Valid()
      requires AllStorable(codec, chunk) && Fresh(codec, v, chunk) && DistinctIds(chunk)
      requires v.log.segs != [] && id == LastId(v.log) && id in v.disk.files && id in v.segments
      requires v.segments[id].byteSize == Size(codec, Active(v.log.segs))
      requires size == |Blob(codec, chunk)|
      requires State() == v.(log := Extend(v.log, chunk), disk := fs.disk)
      requires var written := Write(v.disk, id, Blob(codec, chunk));
               fs.disk == if sync then Directory.Fsync(written, id) else written
      modifies this`pending, this`pendingById, this`segments, this`syncPending, this`syncGeneration
      ensures Valid() && syncPending == !sync
      ensures ChunkWritten(Abs(codec, v, old(syncGeneration), generation), Queue(), chunk, sync)
    {
      hide FileSystem.Valid, Inv, Abs, CrashSafe, Flat, Image, Position, Boundary, Extend, Adds, Blob, AllStorable;
      hide Fresh, DistinctIds;
      hide ChunkWritten, Entries;
      IndexChunk(chunk, id, segments[id].byteSize);
      segments := segments[id := Segment(segments[id].byteSize + size, segments[id].recordCount + |chunk|)];
      ChunkStep(codec, v, chunk, pendingById, sync, syncGeneration, generation);
      syncPending := !sync;
      if sync { syncGeneration := syncGeneration + 1; }
      assert State() == AfterChunk(codec, v, chunk, pendingById, sync);
    }

    /** After a failed and undone write nothing but the durable length moved. */
    ghost method NotWritten(v: View)
      requires shadow.None? && Inv(codec, v) && codec == fs.codec && limits.Positive() && fs.Valid()
      requires v.log.segs != [] && LastId(v.log) in v.disk.files
      requires State() == v.(log := fs.log, disk := fs.disk)
      ensures fs.log == v.log && (fs.disk == v.disk || fs.disk == Directory.Fsync(v.disk, LastId(v.log))) ==>
                Valid() && Synced(Abs(codec, v, syncGeneration, generation), Queue(), false)
    {
      hide FileSystem.Valid, Inv, Abs, CrashSafe, Flat, Fsync;
      if fs.log == v.log && (fs.disk == v.disk || fs.disk == Directory.Fsync(v.disk, LastId(v.log))) {
        ExtraFsync(codec, v, syncGeneration, generation);
        AbsOk(codec, v, syncGeneration, generation);
        AbsFields(codec, v, syncGeneration, generation);
        if fs.disk == v.disk { assert State() == v; }
      }
    }

    /** The `_would_rotate_locked` check before a chunk. */
    method MakeRoom(remaining: seq<Envelope>) returns (r: Outcome, rotated: bool)
      requires Valid() && remaining != []
      modifies this`segments, this`syncPending, this`syncGeneration, this`shadow, fs
      ensures fs.Valid() && old(fs.log).segs != []
      ensures Moments(old(fs.visited), fs.visited, Resting(old(Queue())))
      ensures r != Wedged ==> fs.log.segs != []
      ensures r != Wedged ==> Valid() && Wrote(old(Queue()), Queue(), remaining, 0)
      ensures r == Done ==> fs.log == if rotated then Rotated(old(fs.log)) else old(fs.log)
      ensures r == Done ==> !WouldRotate(codec, limits, Active(fs.log.segs), remaining[0])
      ensures r == Done ==> AppendEach(codec, limits, fs.log.segs, remaining)
                            == AppendEach(codec, limits, old(fs.log).segs, remaining)
      ensures r == Wedged ==> Stranded() && Wrote(old(Queue()), shadow.value, remaining, 0)
      ensures old(fs.faults) <= fs.faults
      ensures r != Done ==> fs.faults > old(fs.faults)
    {
      hide FileSystem.Valid, Inv, Abs, CrashSafe, Flat, Blob, AppendEach, Wrote, Rotated, Synced, WouldRotate;
      hide Frame, Leaves;
      AbsBounds(codec, State(), syncGeneration, generation);
      WriteReady(codec, State());
      LogLayout(fs.log, []);
      var id := ActiveId();
      rotated := WouldRotateFor(id, remaining[0]);
      if !rotated {
        WroteNothing(Queue(), remaining);
        NoMoments(fs.visited, Resting(Queue()));
        return Done, false;
      }
      ghost var q, segs := Queue(), fs.log.segs;
      r := Rotate();
      if r == Wedged {
        SyncWrote(q, shadow.value, remaining);
        return;
      }
      RotationWrote(q, Queue(), remaining);
      if r == Done {
        RotateEarly(codec, limits, segs, remaining);
        EmptyNeverRotates(codec, limits, remaining[0]);
      }
    }

    /** `_would_rotate_locked`, from the active segment's counters. */
    method WouldRotateFor(id: nat, e: Envelope) returns (b: bool)
      requires fs.log.segs != [] && id in segments
      requires segments[id] == Segment(Size(codec, Active(fs.log.segs)), |Active(fs.log.segs)|)
      ensures b <==> WouldRotate(codec, limits, Active(fs.log.segs), e)
    {
      hide Frame, Size;
      var active := segments[id];
      b := active.recordCount != 0
           && (active.recordCount >= limits.maxRecords || active.byteSize + |Frame(codec, e)| > limits.maxBytes);
    }

    /** Selects and writes one chunk. The selection is never empty, so the source's
        `if not chunk` branch cannot be reached. */
    method TakeChunk(remaining: seq<Envelope>, sync: bool) returns (r: Outcome, took: nat, used: nat)
      requires Valid() && remaining != [] && AllStorable(codec, remaining)
      requires fs.log.segs != [] && !WouldRotate(codec, limits, Active(fs.log.segs), remaining[0])
      requires Queue().saved <= |Queue().items| && FreshFor(Queue(), remaining)
      modifies this`pending, this`pendingById, this`segments, this`syncPending, this`syncGeneration, this`shadow, fs
      ensures fs.Valid() && took <= |remaining|
      ensures Moments(old(fs.visited), fs.visited, Growing(old(Queue()), remaining))
      ensures r != Wedged ==> Valid() && Wrote(old(Queue()), Queue(), remaining, if r == Done then took else 0)
      ensures r == Wedged ==> Stranded() && Wrote(old(Queue()), shadow.value, remaining, took)
      ensures r == Done ==> took > 0 && used == |Blob(codec, remaining[..took])|
      ensures r == Done ==> fs.log == Extend(old(fs.log), remaining[..took])
      ensures r == Done ==> AppendEach(codec, limits, fs.log.segs, remaining[took..])
                            == AppendEach(codec, limits, old(fs.log).segs, remaining)
      ensures r == Done && took < |remaining| ==> WouldRotate(codec, limits, Active(fs.log.segs), remaining[took])
      ensures r == Done && (sync || took < |remaining|) ==> Queue().durable == |Queue().items|
      ensures old(fs.faults) <= fs.faults
      ensures r != Done ==> fs.faults > old(fs.faults)
    {
      hide FileSystem.Valid, Inv, Abs, CrashSafe, Flat, Blob, AllStorable, AppendEach, Wrote, FreshFor, Extend, Synced;
      hide WithActive, WouldRotate, Frame, ChunkLength, Size, Leaves, Moments, Inside;
      ghost var q, segs := Queue(), fs.log.segs;
      AbsBounds(codec, State(), syncGeneration, generation);
      WriteReady(codec, State());
      var id := ActiveId();
      took, used := SelectChunk(codec, remaining, limits.maxRecords - segments[id].recordCount,
                                limits.maxBytes - segments[id].byteSize);
      assert took == ChunkFor(codec, limits, segs, remaining);
      ChunkRefines(codec, limits, segs, remaining);
      assert remaining == remaining[..took] + remaining[took..];
      FreshPrefix(q, remaining[..took], remaining[took..]);
      StorablePrefix(codec, remaining, took);
      LogLayout(fs.log, remaining[..took]);
      r := WriteChunk(remaining[..took], sync || took < |remaining|);
      HoldingGrows(q, remaining, took);
      WiderMoments(old(fs.visited), fs.visited, Growing(q, remaining[..took]), Growing(q, remaining));
      if r == Wedged {
        StrandWrote(q, shadow.value, remaining, took);
        return;
      }
      AbsBounds(codec, State(), syncGeneration, generation);
      if r == Done {
        ChunkWrote(q, Queue(), remaining, took, sync || took < |remaining|);
      } else {
        RotationWrote(q, Queue(), remaining);
      }
    }

    /** Writes a chunk and, while records remain, rotates. */
    method WriteThenRotate(remaining: seq<Envelope>, sync: bool) returns (r: Outcome, took: nat, used: nat)
      requires Valid() && remaining != [] && AllStorable(codec, remaining)
      requires fs.log.segs != [] && !WouldRotate(codec, limits, Active(fs.log.segs), remaining[0])
      requires Queue().saved <= |Queue().items| && FreshFor(Queue(), remaining)
      modifies this`pending, this`pendingById, this`segments, this`syncPending, this`syncGeneration, this`shadow, fs
      ensures fs.Valid() && took <= |remaining|
      ensures Moments(old(fs.visited), fs.visited, Growing(old(Queue()), remaining))
      ensures r != Wedged ==> Valid() && Wrote(old(Queue()), Queue(), remaining, took) && fs.log.segs != []
      ensures r == Wedged ==> Stranded() && Wrote(old(Queue()), shadow.value, remaining, took)
      ensures r == Done ==> took > 0 && used == |Blob(codec, remaining[..took])|
      ensures r == Done ==> AppendEach(codec, limits, fs.log.segs, remaining[took..])
                            == AppendEach(codec, limits, old(fs.log).segs, remaining)
      ensures r == Done && took == |remaining| && sync ==> Queue().durable == |Queue().items|
      ensures r == Failed ==> took < |remaining|
      ensures r == Failed && old(Queue()).durable == |old(Queue()).items| ==> Queue().durable == |Queue().items|
      ensures r == Done ==> |fs.log.segs| == |old(fs.log).segs| + if took < |remaining| then 1 else 0
      ensures r == Done && took < |remaining| ==> Queue().durable == |Queue().items|
      ensures old(fs.faults) <= fs.faults
      ensures r != Done ==> fs.faults > old(fs.faults)
    {
      hide FileSystem.Valid, Inv, Abs, CrashSafe, Flat, Blob, AllStorable, AppendEach, Wrote, FreshFor, Extend, Rotated;
      hide WithActive, WouldRotate, Synced, Leaves, QueueSpec.Queue.Ok, LastId, Moments, Inside, Resting, Growing;
      ghost var q, log := Queue(), fs.log;
      r, took, used := TakeChunk(remaining, sync);
      LogLayout(log, remaining[..took]);
      if r == Wedged { return; }
      ghost var q1, log1 := Queue(), fs.log;
      if r == Failed {
        took := 0;
        WriteReady(codec, State());
        if q.durable == |q.items| { WroteKeepsFull(q, q1, remaining); }
        return;
      }
      if took == |remaining| { return; }
      LogLayout(log1, []);
      AbsBounds(codec, State(), syncGeneration, generation);
      ghost var visited0 := fs.visited;
      r := Rotate();
      GrowingRest(q, q1, remaining, took);
      MoreMoments(old(fs.visited), visited0, fs.visited, Growing(q, remaining), Resting(q1));
      if r == Wedged {
        SyncWrote(q1, shadow.value, remaining[took..]);
        WroteMore(q, q1, shadow.value, remaining, took, 0);
        return;
      }
      WriteReady(codec, State());
      RotationWrote(q1, Queue(), remaining[took..]);
      WroteKeepsFull(q1, Queue(), remaining[took..]);
      WroteMore(q, q1, Queue(), remaining, took, 0);
      if r == Done { RotateEarly(codec, limits, log1.segs, remaining[took..]); }
    }

    /** One iteration of the `while remaining` loop of `_append_many_locked`:
        make room, write a chunk, and rotate again while records remain. */
    method AppendChunk(remaining: seq<Envelope>, sync: bool) returns (r: Outcome, took: nat, used: nat, rotated: bool)
      requires Valid() && remaining != [] && AllStorable(codec, remaining)
      requires Queue().saved <= |Queue().items| && FreshFor(Queue(), remaining)
      modifies this`pending, this`pendingById, this`segments, this`syncPending, this`syncGeneration, this`shadow, fs
      ensures fs.Valid() && took <= |remaining|
      ensures Moments(old(fs.visited), fs.visited, Growing(old(Queue()), remaining))
      ensures old(fs.log).segs != []
      ensures r != Wedged ==> Valid() && Wrote(old(Queue()), Queue(), remaining, took) && fs.log.segs != []
      ensures r == Wedged ==> Stranded() && Wrote(old(Queue()), shadow.value, remaining, took)
      ensures r == Done ==> took > 0 && used == |Blob(codec, remaining[..took])|
      ensures r == Done ==> AppendEach(codec, limits, fs.log.segs, remaining[took..])
                            == AppendEach(codec, limits, old(fs.log).segs, remaining)
      ensures r == Done && took == |remaining| && sync ==> Queue().durable == |Queue().items|
      ensures r == Failed ==> took < |remaining|
      ensures r == Failed && old(Queue()).durable == |old(Queue()).items| ==> Queue().durable == |Queue().items|
      ensures r == Done ==> |old(fs.log).segs| <= |fs.log.segs|
      ensures r == Done ==> (rotated <==> |old(fs.log).segs| < |fs.log.segs|)
      ensures r == Done && took < |remaining| ==> Queue().durable == |Queue().items|
      ensures old(fs.faults) <= fs.faults
      ensures r != Done ==> fs.faults > old(fs.faults)
    {
      hide FileSystem.Valid, Inv, Abs, CrashSafe, Flat, Blob, AllStorable, AppendEach, Wrote, FreshFor, Extend, Rotated;
      hide WithActive, WouldRotate, Synced, Leaves, Moments, Inside, Resting, Growing;
      ghost var q, log := Queue(), fs.log;
      took, used := 0, 0;
      HoldingGrows(q, remaining, 0);
      WriteReady(codec, State());
      LogLayout(log, []);
      assert remaining[..0] == [] && remaining[0..] == remaining;
      r, rotated := MakeRoom(remaining);
      WiderMoments(old(fs.visited), fs.visited, Resting(q), Growing(q, remaining));
      if r != Done {
        if r == Failed && q.durable == |q.items| { WroteKeepsFull(q, Queue(), remaining); }
        return;
      }
      ghost var q1, visited0 := Queue(), fs.visited;
      FreshRest(q, q1, remaining, 0);
      if q.durable == |q.items| { WroteKeepsFull(q, q1, remaining); }
      r, took, used := WriteThenRotate(remaining, sync);
      GrowingRest(q, q1, remaining, 0);
      MoreMoments(old(fs.visited), visited0, fs.visited, Growing(q, remaining), Growing(q1, remaining));
      if r == Wedged {
        WroteMore(q, q1, shadow.value, remaining, 0, took);
        return;
      }
      rotated := rotated || took < |remaining|;
      WroteMore(q, q1, Queue(), remaining, 0, took);
    }

    /** The `while remaining` loop of `_append_many_locked`. */
    method WriteAll(added: seq<Envelope>, sync: bool) returns (r: Outcome, result: Written, ghost count: nat)
      requires Valid() && added != [] && AllStorable(codec, added)
      requires Queue().saved <= |Queue().items| && FreshFor(Queue(), added)
      modifies this`pending, this`pendingById, this`segments, this`syncPending, this`syncGeneration, this`shadow, fs
      ensures fs.Valid() && count <= |added|
      ensures Moments(old(fs.visited), fs.visited, Growing(old(Queue()), added))
      ensures old(fs.log).segs != []
      ensures r != Wedged ==> Valid() && Wrote(old(Queue()), Queue(), added, count) && fs.log.segs != []
      ensures r == Wedged ==> Stranded() && Wrote(old(Queue()), shadow.value, added, count)
      ensures r == Done ==> count == |added| && fs.log.segs == AppendEach(codec, limits, old(fs.log).segs, added)
      ensures r == Done ==> result == Written(|added|, |Blob(codec, added)|, |old(fs.log).segs| < |fs.log.segs|)
      ensures r == Done && sync ==> Queue().durable == |Queue().items|
      ensures r == Failed ==> count < |added|
      ensures r != Wedged && sync && old(Queue()).durable == |old(Queue()).items| ==> Queue().durable == |Queue().items|
      ensures old(fs.faults) <= fs.faults
      ensures r != Done ==> fs.faults > old(fs.faults)
    {
      hide FileSystem.Valid, Inv, Abs, CrashSafe, Flat, Blob, AllStorable, AppendEach, Wrote, FreshFor, Leaves;
      hide Moments, Inside;
      hide Holding, Growing;
      ghost var q, segs := Queue(), fs.log.segs;
      NoMoments(fs.visited, Growing(q, added));
      WriteReady(codec, State());
      AbsBounds(codec, State(), syncGeneration, generation);
      WroteNothing(q, added);
      r, result, count := Done, Written(0, 0, false), 0;
      var remaining := added;
      assert added[0..] == added && added[..0] == [];
      AppendEachNothing(codec, limits, segs);
      while remaining != []
        invariant r == Done && Valid() && fs.log.segs != []
        invariant Moments(old(fs.visited), fs.visited, Growing(q, added))
        invariant count <= |added| && remaining == added[count..] && Wrote(q, Queue(), added, count)
        invariant AppendEach(codec, limits, fs.log.segs, remaining) == AppendEach(codec, limits, segs, added)
        invariant result == Written(count, |Blob(codec, added[..count])|, |segs| < |fs.log.segs|)
        invariant |segs| <= |fs.log.segs| && old(fs.faults) <= fs.faults
        invariant count == |added| && sync ==> Queue().durable == |Queue().items|
        invariant sync && q.durable == |q.items| ==> Queue().durable == |Queue().items|
        decreases |remaining|
      {
        ghost var q1, visited1 := Queue(), fs.visited;
        FreshRest(q, q1, added, count);
        StorablePrefix(codec, added, count);
        WroteItems(q, q1, added, count);
        AbsBounds(codec, State(), syncGeneration, generation);
        var took, used, rotated;
        r, took, used, rotated := AppendChunk(remaining, sync);
        GrowingRest(q, q1, added, count);
        MoreMoments(old(fs.visited), visited1, fs.visited, Growing(q, added), Growing(q1, remaining));
        NextChunk(codec, q.items, added, count, took);
        WroteMore(q, q1, if r == Wedged then shadow.value else Queue(), added, count, took);
        count := count + took;
        if r != Done { return; }
        result := Written(result.count + took, result.bytesWritten + used, result.rotated || rotated);
        remaining := remaining[took..];
      }
      AppendEachNothing(codec, limits, fs.log.segs);
      assert added[..|added|] == added;
    }

    ghost method Waiting() returns (es: seq<Envelope>)
      requires Valid()
      ensures Queue().head == head <= |Queue().items| && es == Queue().Pending() && Ids(es) == pendingById.Keys
    {
      hide FileSystem.Valid, Inv, Abs, Flat, Ids;
      KnownIds(codec, State(), syncGeneration, generation);
      AbsFields(codec, State(), syncGeneration, generation);
      es := Queue().items[head..];
    }

    /** Looks an envelope's ID up among the pending ones and compares contents. */
    method LookUp(e: Envelope) returns (known: bool, same: bool)
      requires Valid()
      ensures head <= |Queue().items| && (known <==> e.id in pendingById)
      ensures same <==> Agrees(Queue().items[head..], e)
      ensures !known ==> same
      ensures known && same ==> |e.body| <= MAX_RECORD_BYTES
    {
      hide FileSystem.Valid, Inv, Abs, Flat, DistinctIds, Ids, Agrees;
      KnownIds(codec, State(), syncGeneration, generation);
      AbsFields(codec, State(), syncGeneration, generation);
      if e.id !in pendingById {
        NotPending(Queue().items[head..], e);
        return false, true;
      }
      var existing := pendingById[e.id];
      ghost var k := PendingOf(codec, State(), e.id);
      var body := ReadPending(existing, k);
      AbsOk(codec, State(), syncGeneration, generation);
      PendingIdIs(codec, State(), e.id, k);
      OnlyPending(Queue(), k, e);
      known, same := true, body == e.body;
    }

    /** `get(message_id)`: the pending envelope with that ID, if any. */
    method Get(id: Id) returns (r: Option<Envelope>)
      requires Valid()
      ensures Queue().head <= |Queue().items| && (r.None? <==> id !in Ids(Queue().Pending()))
      ensures r.Some? ==> r.value in Queue().Pending() && r.value.id == id
    {
      hide FileSystem.Valid, Inv, Abs, Flat, Ids;
      ghost var waiting := Waiting();
      if id !in pendingById { return None; }
      var existing := pendingById[id];
      ghost var k := PendingOf(codec, State(), id);
      var body := ReadPending(existing, k);
      PendingIdIs(codec, State(), id, k);
      AbsFields(codec, State(), syncGeneration, generation);
      assert waiting[k] == Queue().items[head + k];
      r := Some(Envelope(id, body));
    }

    /** The first loop of `_append_many_locked`: drops repeats and already pending
        envelopes, and rejects an ID that names different content or an envelope
        too large for the length field. */
    method Deduplicate(batch: seq<Envelope>) returns (ok: bool, added: seq<Envelope>)
      requires Valid()
      ensures head <= |Queue().items| && (ok <==> Acceptable(batch, Queue().items[head..]))
      ensures ok ==> added == NewOnes(batch, pendingById.Keys)
    {
      hide FileSystem.Valid, Inv, Abs, Flat, Acceptable, NewOnes, Agrees, Seen, Ids, Outbox.Valid, Outbox.State;
      hide Outbox.Queue;
      ghost var waiting := Waiting();
      added := [];
      var batchById: map<Id, bytes> := map[];
      AcceptableNothing(waiting);
      NewOnesNothing(pendingById.Keys);
      SeenNothing();
      var i := 0;
      while i < |batch|
        invariant i <= |batch| && Acceptable(batch[..i], waiting) && Seen(batch[..i], batchById)
        invariant added == NewOnes(batch[..i], pendingById.Keys)
      {
        var e := batch[i];
        assert batch[..i + 1] == batch[..i] + [e];
        AcceptableSnoc(batch[..i], e, waiting);
        NewOnesSnoc(batch[..i], e, pendingById.Keys);
        if !Acceptable(batch[..i + 1], waiting) { NeverAcceptable(batch, i + 1, waiting); }
        if e.id in batchById {
          SeenAgain(batch[..i], batchById, e, waiting);
          if batchById[e.id] != e.body { return false, added; }
        } else {
          SeenFirst(batch[..i], batchById, e);
          batchById := batchById[e.id := e.body];
          var known, same := LookUp(e);
          if known && !same { return false, added; }
          if !known {
            if |e.body| > MAX_RECORD_BYTES { return false, added; }
            added := added + [e];
          }
        }
        i := i + 1;
      }
      assert batch[..|batch|] == batch;
      ok := true;
    }

    /** The checkpoint that lets a completed ID be used again. */
    method PrepareReuse(batch: seq<Envelope>) returns (ok: bool)
      requires Valid()
      modifies this`syncPending, this`syncGeneration, this`generation, this`needsRewrite, this`cursor, this`completed,
               this`segments, fs
      ensures Valid() && fs.log == old(fs.log)
      ensures Moments(old(fs.visited), fs.visited, Holding(old(Queue()), false))
      ensures ok ==> Prepared(old(Queue()), Queue()) && completed !! Ids(batch)
      ensures !ok ==> Checkpointed(old(Queue()), Queue(), false) && old(Queue()).saved < old(Queue()).head
      ensures old(fs.faults) <= fs.faults
      ensures !ok ==> fs.faults > old(fs.faults)
    {
      hide FileSystem.Valid, Inv, Abs, CrashSafe, Flat, Checkpointed;
      if exists e | e in batch :: e.id in completed {
        VolatileIsBehind(codec, State(), syncGeneration, generation);
        ok := Checkpoint();
      } else {
        ok := true;
        assert Queue() == old(Queue());
        NoMoments(fs.visited, Holding(Queue(), false));
      }
    }

    /** Nothing to write: only the data sync, when asked. */
    method SyncOnly(sync: bool, ghost q: Queue) returns (r: Appending)
      requires Valid() && q.Ok() && Prepared(q, Queue())
      modifies this`syncPending, this`syncGeneration, fs
      ensures Valid() && fs.log == old(fs.log)
      ensures Moments(old(fs.visited), fs.visited, Resting(old(Queue())))
      ensures r == Accepted(Written(0, 0, false)) || r == AppendFailed
      ensures Appended(q, Queue(), [], 0, sync, r.Accepted?)
      ensures old(fs.faults) <= fs.faults
      ensures r == AppendFailed ==> fs.faults > old(fs.faults)
    {
      hide FileSystem.Valid, Inv, Abs, CrashSafe, Flat, Prepared, Appended, QueueSpec.Queue.Ok;
      ghost var q1 := Queue();
      AbsBounds(codec, State(), syncGeneration, generation);
      r := Accepted(Written(0, 0, false));
      NoMoments(fs.visited, Resting(q1));
      if sync {
        var ok := SyncData();
        if !ok { r := AppendFailed; }
      }
      AbsBounds(codec, State(), syncGeneration, generation);
      PreparedSynced(q, q1, Queue(), sync, r.Accepted?);
    }

    /** The part of `_append_many_locked` after deduplication. */
    method AppendNew(added: seq<Envelope>, sync: bool, ghost q: Queue) returns (r: Appending, ghost count: nat)
      requires Valid() && AllStorable(codec, added) && q.Ok() && Prepared(q, Queue())
      requires Queue().saved <= |Queue().items| && FreshFor(Queue(), added)
      modifies this`pending, this`pendingById, this`segments, this`syncPending, this`syncGeneration, this`shadow, fs
      ensures fs.Valid() && old(fs.log).segs != []
      ensures Moments(old(fs.visited), fs.visited, Growing(old(Queue()), added))
      ensures count <= |added| && r != Rejected
      ensures r != AppendWedged ==> Valid() && Appended(q, Queue(), added, count, sync, r.Accepted?) && fs.log.segs != []
      ensures r == AppendWedged ==> Stranded() && Grew(q, shadow.value, added, count)
      ensures r.Accepted? ==> count == |added| && fs.log.segs == AppendEach(codec, limits, old(fs.log).segs, added)
      ensures r.Accepted? ==> r.result == Written(|added|, |Blob(codec, added)|, |old(fs.log).segs| < |fs.log.segs|)
      ensures old(fs.faults) <= fs.faults
      ensures !r.Accepted? ==> fs.faults > old(fs.faults)
    {
      hide FileSystem.Valid, Inv, Abs, CrashSafe, Flat, Prepared, Wrote, Appended, Synced, AppendEach, Blob;
      hide AllStorable, FreshFor, QueueSpec.Queue.Ok;
      hide Leaves, Grew, Moments, Inside, Resting, Growing;
      ghost var q1 := Queue();
      WriteReady(codec, State());
      AbsBounds(codec, State(), syncGeneration, generation);
      if added == [] {
        AppendEachNothing(codec, limits, fs.log.segs);
        HoldingGrows(q1, added, 0);
        r := SyncOnly(sync, q);
        WiderMoments(old(fs.visited), fs.visited, Resting(q1), Growing(q1, added));
        count := 0;
      } else {
        var done, result;
        done, result, count := WriteAll(added, sync);
        if done == Wedged {
          StrandedOk();
          PreparedGrew(q, q1, shadow.value, added, count);
          return AppendWedged, count;
        }
        AbsBounds(codec, State(), syncGeneration, generation);
        PreparedWrote(q, q1, Queue(), added, count, sync, done == Done);
        r := if done == Done then Accepted(result) else AppendFailed;
      }
    }

    /** Drops what is known and appends the rest. */
    method AppendPrepared(batch: seq<Envelope>, sync: bool, ghost q: Queue) returns (r: Appending, ghost count: nat)
      requires Valid() && forall e | e in batch :: codec.decode(e.body) == Some(e.id)
      requires q.Ok() && Prepared(q, Queue()) && completed !! Ids(batch)
      modifies this`pending, this`pendingById, this`segments, this`syncPending, this`syncGeneration, this`shadow, fs
      ensures fs.Valid() && old(fs.log).segs != [] && q.head <= |q.items|
      ensures r != AppendWedged ==> Valid() && fs.log.segs != []
      ensures var added := NewOnes(batch, Ids(q.Pending()));
              && count <= |added| && Moments(old(fs.visited), fs.visited, Growing(old(Queue()), added))
              && (r != AppendWedged ==> Appended(q, Queue(), added, count, sync, r.Accepted?))
              && (r == AppendWedged ==> Stranded() && Grew(q, shadow.value, added, count))
              && (r.Accepted? ==> fs.log.segs == AppendEach(codec, limits, old(fs.log).segs, added))
              && (r.Accepted? ==> r.result == Written(|added|, |Blob(codec, added)|, |old(fs.log).segs| < |fs.log.segs|))
      ensures r.Accepted? ==> Acceptable(batch, q.Pending())
      ensures r.Accepted? ==> Queue().head <= |Queue().items| && forall e | e in batch :: e in Queue().Pending()
      ensures r == Rejected ==> !Acceptable(batch, q.Pending())
      ensures old(fs.faults) <= fs.faults
      ensures r == AppendFailed || r == AppendWedged ==> fs.faults > old(fs.faults)
    {
      hide FileSystem.Valid, Inv, Abs, CrashSafe, Flat, Prepared, Appended, Acceptable, NewOnes, AppendEach, Blob;
      hide AllStorable, Ids;
      hide FreshFor, DistinctIds, Leaves, Grew, Moments, Growing, QueueSpec.Queue.Ok;
      AbsBounds(codec, State(), syncGeneration, generation);
      WriteReady(codec, State());
      QueueOrder(q);
      PreparedPending(q, Queue());
      ghost var waiting := Waiting();
      ghost var news := NewOnes(batch, Ids(waiting));
      NoMoments(fs.visited, Growing(Queue(), news));
      var ok, added := Deduplicate(batch);
      if !ok {
        PreparedWroteNothing(q, Queue(), news, sync);
        return Rejected, 0;
      }
      DecodingNewOnes(codec, batch, waiting);
      NewOnesFresh(codec, State(), syncGeneration, generation, batch);
      r, count := AppendNew(added, sync, q);
      if r.Accepted? { AppendedPending(q, Queue(), batch, sync); }
    }

    /** `append_many(batch, sync)`. */
    method AppendMany(batch: seq<Envelope>, sync: bool) returns (r: Appending, ghost count: nat)
      requires Valid() && forall e | e in batch :: codec.decode(e.body) == Some(e.id)
      modifies this, fs
      ensures fs.Valid() && old(fs.log).segs != []
      ensures r != AppendWedged ==> Valid() && fs.log.segs != []
      ensures old(Queue()).head <= |old(Queue()).items|
      ensures var q := old(Queue());
              var added := NewOnes(batch, Ids(q.Pending()));
              && count <= |added| && Moments(old(fs.visited), fs.visited, Growing(q, added))
              && (r != AppendWedged ==> Appended(q, Queue(), added, count, sync, r.Accepted?))
              && (r == AppendWedged ==> Stranded() && Grew(q, shadow.value, added, count))
              && (r.Accepted? ==> fs.log.segs == AppendEach(codec, limits, old(fs.log).segs, added))
              && (r.Accepted? ==> r.result.count == |added| && r.result.bytesWritten == |Blob(codec, added)|)
              && (r.Accepted? ==> (r.result.rotated <==> |old(fs.log).segs| < |fs.log.segs|))
      ensures r.Accepted? ==> Acceptable(batch, old(Queue()).Pending())
      ensures r.Accepted? ==> Queue().head <= |Queue().items| && forall e | e in batch :: e in Queue().Pending()
      ensures r == Rejected ==> !Acceptable(batch, old(Queue()).Pending())
      ensures old(fs.faults) <= fs.faults
      ensures r == AppendFailed || r == AppendWedged ==> fs.faults > old(fs.faults)
    {
      hide FileSystem.Valid, Inv, Abs, CrashSafe, Flat, Checkpointed, Prepared, Wrote, Appended, Synced, Acceptable;
      hide NewOnes, AppendEach, Blob;
      hide AllStorable, Ids, FreshFor, DistinctIds, Leaves, Grew, Moments, Inside, Holding, Resting, Growing;
      AbsBounds(codec, State(), syncGeneration, generation);
      WriteReady(codec, State());
      ghost var q := Queue();
      count := 0;
      if batch == [] {
        EmptyBatch(q);
        PreparedNothing(q);
        AppendEachNothing(codec, limits, fs.log.segs);
        HoldingGrows(q, [], 0);
        r := SyncOnly(sync, q);
        WiderMoments(old(fs.visited), fs.visited, Resting(q), Growing(q, []));
        if r.Accepted? { AppendedPending(q, Queue(), batch, sync); }
        return r, 0;
      }
      ghost var waiting := Waiting();
      ghost var news := NewOnes(batch, Ids(waiting));
      HoldingGrows(q, news, 0);
      var ok := PrepareReuse(batch);
      WiderMoments(old(fs.visited), fs.visited, Holding(q, false), Growing(q, news));
      AbsBounds(codec, State(), syncGeneration, generation);
      WriteReady(codec, State());
      if !ok {
        PreparedFailed(q, Queue(), NewOnes(batch, Ids(waiting)), sync);
        return AppendFailed, 0;
      }
      ghost var q1, visited1 := Queue(), fs.visited;
      r, count := AppendPrepared(batch, sync, q);
      PreparedInside(q, q1, news);
      MoreMoments(old(fs.visited), visited1, fs.visited, Growing(q, news), Growing(q1, news));
    }

    /** `append(envelope, sync)`: `appended` is its result when it returns. A
        pending ID is left alone without comparing contents. */
    method Append(e: Envelope, sync: bool) returns (r: Appending, appended: bool, ghost count: nat)
      requires Valid() && codec.decode(e.body) == Some(e.id)
      modifies this, fs
      ensures fs.Valid()
      ensures Moments(old(fs.visited), fs.visited, Growing(old(Queue()), [e]))
      ensures old(Queue()).head <= |old(Queue()).items|
      ensures appended ==> r.Accepted?
      ensures e.id in Ids(old(Queue()).Pending()) ==> r.Accepted? && !appended && Valid() && Queue() == old(Queue())
      ensures e.id !in Ids(old(Queue()).Pending()) && r != AppendWedged ==>
                Valid() && appended == r.Accepted? && Appended(old(Queue()), Queue(), [e], count, sync, appended)
      ensures r == AppendWedged ==> Stranded() && Grew(old(Queue()), shadow.value, [e], count)
      ensures r == AppendWedged ==> e.id !in Ids(old(Queue()).Pending())
      ensures e.id !in Ids(old(Queue()).Pending()) && r == Rejected ==> |e.body| > MAX_RECORD_BYTES
      ensures old(fs.faults) <= fs.faults
      ensures r == AppendFailed || r == AppendWedged ==> fs.faults > old(fs.faults)
    {
      hide FileSystem.Valid, Inv, Abs, Flat, Appended, NewOnes, Ids, Leaves, Grew;
      ghost var waiting := Waiting();
      NewOne(e, Ids(waiting));
      NoMoments(fs.visited, Growing(Queue(), [e]));
      if e.id in pendingById {
        return Accepted(Written(0, 0, false)), false, 0;
      }
      NotPending(waiting, e);
      AcceptableOne(e, waiting);
      r, count := AppendMany([e], sync);
      appended := r.Accepted? && r.result.count == 1;
    }

    /** `completed_closed_segment_pending()`: some closed segment lies wholly before
        the live head. */
    method CompletedClosedSegmentPending() returns (b: bool)
      requires Valid()
      ensures b <==> ConsumedClosedSegment()
    {
      hide FileSystem.Valid, Inv, Flat, LogCursor;
      var target := NormalizedCursor();
      var active := ActiveId();
      SegmentsAreFiles(codec, State());
      b := exists s | s in segments.Keys :: s < target.segment && s < active;
    }
  }

  lemma OpenFinds(c: Codec, log0: Log, d0: Disk, found: Disk)
    requires CrashSafe(c, log0, d0) && Found(d0, found)
    ensures Crash(d0, Cached(found)) && found.files.Keys != {} && Cached(found).files.Keys == found.files.Keys
    ensures Cached(found).head == found.head
    ensures forall s | s in found.files :: Cached(found).files[s].data == found.files[s].data
  {
    hide CrashSafe, DiskInv, Crash, Found;
    SafeInv(c, log0, d0);
    FoundFiles(c, log0, d0, found);
  }

  /** Opening a directory: load it, settle it, then adopt what was loaded. Whatever a running
      Outbox or a crash left, only a system call that fails, `fault` of them, makes this
      raise, and then the directory may be opened later as if nothing had happened. */
  method Reopen(c: Codec, l: Limits, d: Disk, fault: Option<nat>, ghost log0: Log, ghost d0: Disk)
      returns (o: Option<Outbox>, left: Disk, ghost log1: Log, ghost d1: Disk)
    requires CrashSafe(c, log0, d0) && Found(d0, d) && l.Positive()
    ensures fault.None? ==> o.Some?
    ensures o.None? ==> Retries(c, log0, d0, log1, d1) && Found(d1, left)
    ensures DiskInv(c, log0, d0) && HasTop(log0, Cached(d)) && Crash(d0, Cached(d))
    ensures d.head.Some? && d.head.value in Heads(d0) && Boundary(c, log0, d.head.value)
    ensures var from, kept := Position(c, log0, d.head.value), Flat(Survivors(c, log0, Cached(d)).segs);
            from <= |kept| && kept <= Flat(log0.segs) && DurableTail(c, log0, d0) <= |kept|
    ensures o.Some? ==> fresh(o.value) && fresh(o.value.fs) && o.value.Valid() && o.value.codec == c && o.value.limits == l
    ensures o.Some? ==>
              var from, kept := Position(c, log0, d.head.value), Flat(Survivors(c, log0, Cached(d)).segs);
              o.value.Queue() == QueueSpec.Queue(kept, from, from, |kept|, {from}, from, from, 0, 0)
  {
    hide FileSystem.Valid, Inv, CrashSafe, Crash, Load, Survivors, ScanOf, IndexOf, Flat, Position, Boundary;
    hide EffectiveHead;
    hide DiskInv, HasTop, LogEntries, Heads, Found, Cached, MaxOf, RepairFile, Retries, Repaired;
    OpenFinds(c, log0, d0, d);
    ghost var seen := Cached(d);
    SafeRecovers(c, log0, d0, seen);
    RetriesSame(c, log0, d0);
    o, left, log1, d1 := None, d, log0, d0;
    if fault == Some(0) { return; }
    var loaded := LoadStorage(c, Cached(d));
    LoadedScans(c, seen, loaded.value);
    var last := MaxKey(d.files.Keys);
    CanOpen(c, log0, d0, seen, loaded.value, last);
    var ok;
    ok, left, log1, d1 := Outbox.Settle(c, d, last, loaded.value.scans[last], fault, log0, d0);
    if !ok { return; }
    var outbox := new Outbox.Open(c, l, left, seen, loaded.value, log0, d0);
    o := Some(outbox);
  }

  /** A restart: whatever a crash or the death of the process leaves of an Outbox, running
      or wedged, also after openings that failed, a fresh one opens on it, unless that fails
      too, and its pending FIFO is one the abstract queue allows. */
  method Restart(old_: Outbox, d: Disk, fault: Option<nat>, ghost log: Log, ghost d0: Disk)
      returns (o: Option<Outbox>, left: Disk, ghost log1: Log, ghost d1: Disk)
    requires old_.Valid() || old_.Stranded()
    requires Retries(old_.codec, old_.fs.log, old_.fs.disk, log, d0) && Found(d0, d)
    ensures fault.None? ==> o.Some?
    ensures o.None? ==> Retries(old_.codec, old_.fs.log, old_.fs.disk, log1, d1) && Found(d1, left)
    ensures o.Some? ==> fresh(o.value) && fresh(o.value.fs) && o.value.Valid() && o.value.codec == old_.codec
    ensures o.Some? ==> o.value.Queue().head <= |o.value.Queue().items| && old_.Model().Recovers(o.value.Queue().Pending())
    ensures o.Some? ==> o.value.Queue().durable == |o.value.Queue().items| && o.value.Queue().heads == {o.value.Queue().head}
    ensures o.Some? ==> o.value.Queue().saved == o.value.Queue().head == o.value.Queue().asked
  {
    hide FileSystem.Valid, Inv, Abs, CrashSafe, Crash, Survivors, Flat, Position, Boundary, DiskInv, HasTop, Heads;
    hide DurableTail, Leaves, Load, ReadsAs, QueueSpec.Queue.Recovers, Found, Cached, Retries;
    if old_.Valid() { AbsLeaves(old_.codec, old_.State(), old_.syncGeneration, old_.generation); }
    RetriesSafe(old_.codec, old_.fs.log, old_.fs.disk, log, d0);
    OpenFinds(old_.codec, log, d0, d);
    ghost var pending := RetriesRecovers(old_.codec, old_.Model(), old_.fs.log, old_.fs.disk, log, d0, Cached(d));
    o, left, log1, d1 := Reopen(old_.codec, old_.limits, d, fault, log, d0);
    if o.None? { RetriesTwice(old_.codec, old_.fs.log, old_.fs.disk, log, d0, log1, d1); }
  }

  /** A restart after the process, or the machine, died inside a call that had the run
      grow from `before` within `b`: a fresh Outbox opens on what the call had done, and
      its pending FIFO is a stretch of the call's records. */
  method RestartInside(old_: Outbox, d: Disk, fault: Option<nat>, ghost before: seq<Snapshot>, ghost b: Bounds, ghost j: nat,
      ghost log: Log, ghost d0: Disk)
      returns (o: Option<Outbox>, left: Disk, ghost log1: Log, ghost d1: Disk, ghost from: nat, ghost to: nat)
    requires (old_.Valid() || old_.Stranded()) && before != [] && Moments(before, old_.fs.visited, b)
    requires |before| <= j < |old_.fs.visited|
    requires Retries(old_.codec, old_.fs.visited[j].log, old_.fs.visited[j].disk, log, d0) && Found(d0, d)
    ensures fault.None? ==> o.Some?
    ensures from in b.spots && from <= to <= |b.plan|
    ensures var a := before[|before| - 1]; DiskInv(old_.codec, a.log, a.disk) && DurableTail(old_.codec, a.log, a.disk) <= to
    ensures o.None? ==> Retries(old_.codec, old_.fs.visited[j].log, old_.fs.visited[j].disk, log1, d1) && Found(d1, left)
    ensures o.Some? ==> fresh(o.value) && fresh(o.value.fs) && o.value.Valid() && o.value.codec == old_.codec
    ensures o.Some? ==> o.value.Queue().head <= |o.value.Queue().items| && o.value.Queue().Pending() == b.plan[from..to]
    ensures o.Some? ==> o.value.Queue().durable == |o.value.Queue().items| && o.value.Queue().heads == {o.value.Queue().head}
    ensures o.Some? ==> o.value.Queue().saved == o.value.Queue().head == o.value.Queue().asked
  {
    hide FileSystem.Valid, Inv, Abs, CrashSafe, Crash, Survivors, Flat, Position, Boundary, DiskInv, HasTop, Heads;
    hide Run, Load;
    hide DurableTail, Leaves, Found, Cached, Moments, LogEntries, SafeSnapshot, QueueSpec.Queue.Ok, Retries, Spots;
    hide Advances;
    var c := old_.codec;
    ghost var a := old_.fs.visited[j];
    old_.fs.Visits(j);
    RetriesSafe(c, a.log, a.disk, log, d0);
    OpenFinds(c, log, d0, d);
    o, left, log1, d1 := Reopen(c, old_.limits, d, fault, log, d0);
    from, to := Position(c, log, d.head.value), |Flat(Survivors(c, log, Cached(d)).segs)|;
    RetriesWithin(c, before, old_.fs.visited, b, j, log, d0, d.head.value, Flat(Survivors(c, log, Cached(d)).segs));
    if o.None? { RetriesTwice(c, a.log, a.disk, log, d0, log1, d1); }
  }
}
