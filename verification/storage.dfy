/** The system calls the Outbox makes, each proved to leave the directory
    recoverable, so that a crash between any two of them is covered. */
module Storage {
  import opened Wrappers
  import opened Framing
  import opened Layout
  import opened Directory
  import opened Loading
  import opened Recovery

  /** A directory every crash image of which reopens (see CrashRecovery). */
  ghost predicate CrashSafe(c: Codec, log: Log, d: Disk) {
    && DiskInv(c, log, d)
    && forall cur | cur in Heads(d) && Boundary(c, log, cur) :: DistinctIds(Flat(log.segs)[Position(c, log, cur)..])
  }

  function Extend(log: Log, chunk: seq<Envelope>): (r: Log)
    requires log.segs != []
    ensures r.segs != [] && LastId(r) == LastId(log) && r.first == log.first
    ensures r.segs[..|r.segs| - 1] == log.segs[..|log.segs| - 1]
    ensures Active(r.segs) == Active(log.segs) + chunk
  {
    log.(segs := WithActive(log.segs, Active(log.segs) + chunk))
  }

  function Rotated(log: Log): Log {
    log.(segs := log.segs + [[]])
  }

  // ---- Positions in a growing log -------------------------------------------

  lemma BoundaryExtends(c: Codec, log: Log, chunk: seq<Envelope>, cur: Cursor)
    requires Boundary(c, log, cur)
    ensures Boundary(c, Extend(log, chunk), cur)
    ensures Position(c, Extend(log, chunk), cur) == Position(c, log, cur)
  {
    hide Blob, WholeIn, Flat;
    var r, i := Extend(log, chunk), cur.segment - log.first;
    assert r.segs[..i] == log.segs[..i];
    if i == |log.segs| - 1 {
      var es, n := log.segs[i], cur.offset - SEGMENT_HEADER_SIZE;
      var j := WholeIn(c, es, n);
      PrefixBlob(c, es, j, |es|);
      assert es[..|es|] == es && (es + chunk)[..|es|] == es;
      BoundaryInPrefix(c, es + chunk, |es|, n);
      assert (es + chunk)[..j] == es[..j];
    }
  }

  lemma BoundaryRotates(c: Codec, log: Log, cur: Cursor)
    requires Boundary(c, log, cur)
    ensures Boundary(c, Rotated(log), cur)
    ensures Position(c, Rotated(log), cur) == Position(c, log, cur)
  {
    hide Blob, WholeIn, Flat;
    var i := cur.segment - log.first;
    assert Rotated(log).segs[..i] == log.segs[..i];
  }

  lemma FlatExtends(log: Log, chunk: seq<Envelope>)
    requires log.segs != []
    ensures Flat(Extend(log, chunk).segs) == Flat(log.segs) + chunk
    ensures Flat(Rotated(log).segs) == Flat(log.segs)
  {
    FlatWithActive(log.segs, chunk);
  }

  // ---- Each system call keeps the directory recoverable ------------------------

  lemma ExtendLogOk(c: Codec, log: Log, chunk: seq<Envelope>)
    requires LogOk(c, log) && AllStorable(c, chunk)
    ensures LogOk(c, Extend(log, chunk))
  {
    var r := Extend(log, chunk);
    forall i | 0 <= i < |r.segs|
      ensures AllStorable(c, r.segs[i])
    {
      if i < |r.segs| - 1 { assert r.segs[i] == log.segs[i]; }
      assert AllStorable(c, log.segs[i]);
    }
  }

  lemma HoldsExtends(c: Codec, log: Log, chunk: seq<Envelope>, s: nat, f: File)
    requires Holds(c, log, s, f)
    ensures Holds(c, Extend(log, chunk), s, f)
  {
    hide Image, Blob;
    var r := Extend(log, chunk);
    if s < log.first {
    } else if s < LastId(log) {
      assert Records(r, s) == r.segs[..|r.segs| - 1][s - log.first] == log.segs[s - log.first];
    } else {
      ImageConcat(c, s, Records(log, s), chunk);
    }
  }

  lemma WrittenHolds(c: Codec, log: Log, s: nat, f: File, chunk: seq<Envelope>, part: bytes)
    requires Holds(c, log, s, f) && s == LastId(log)
    requires f.data == Image(c, s, Active(log.segs)) && part <= Blob(c, chunk)
    ensures Holds(c, Extend(log, chunk), s, f.(data := f.data + part))
  {
    hide Image, Blob;
    ImageConcat(c, s, Active(log.segs), chunk);
  }

  lemma WriteFiles(c: Codec, log: Log, d: Disk, chunk: seq<Envelope>, part: bytes)
    requires DiskInv(c, log, d)
    requires d.files[LastId(log)].data == Image(c, LastId(log), Active(log.segs))
    requires part <= Blob(c, chunk)
    ensures forall s | s in d.files :: Holds(c, Extend(log, chunk), s, Write(d, LastId(log), part).files[s])
    ensures forall s | s in d.dropped :: Holds(c, Extend(log, chunk), s, d.dropped[s])
  {
    assert log.segs != [];
    hide Image, Blob, Holds, HeadOk, Extend, LogOk;
    var r := Extend(log, chunk);
    forall s | s in d.files
      ensures Holds(c, r, s, Write(d, LastId(log), part).files[s])
    {
      if s == LastId(log) {
        WrittenHolds(c, log, s, d.files[s], chunk, part);
      } else {
        HoldsExtends(c, log, chunk, s, d.files[s]);
      }
    }
    forall s | s in d.dropped
      ensures Holds(c, r, s, d.dropped[s])
    {
      HoldsExtends(c, log, chunk, s, d.dropped[s]);
    }
  }

  lemma WriteHeads(c: Codec, log: Log, d: Disk, chunk: seq<Envelope>, part: bytes)
    requires DiskInv(c, log, d)
    ensures forall cur | cur in Heads(d) ::
              && HeadOk(c, Extend(log, chunk), Write(d, LastId(log), part), cur)
              && Boundary(c, log, cur) && Position(c, Extend(log, chunk), cur) == Position(c, log, cur)
  {
    assert log.segs != [];
    hide Boundary, Position, Holds, LogOk, Extend;
    forall cur | cur in Heads(d)
      ensures HeadOk(c, Extend(log, chunk), Write(d, LastId(log), part), cur)
      ensures Boundary(c, log, cur) && Position(c, Extend(log, chunk), cur) == Position(c, log, cur)
    {
      assert HeadOk(c, log, d, cur);
      BoundaryExtends(c, log, chunk, cur);
    }
  }

  lemma WriteInv(c: Codec, log: Log, d: Disk, chunk: seq<Envelope>, part: bytes)
    requires DiskInv(c, log, d) && AllStorable(c, chunk) && d.recent == {}
    requires d.files[LastId(log)].data == Image(c, LastId(log), Active(log.segs))
    requires part <= Blob(c, chunk)
    ensures DiskInv(c, Extend(log, chunk), Write(d, LastId(log), part))
  {
    assert log.segs != [];
    LogIsOk(c, log, d);
    hide Image, Blob, Holds, LogOk, Extend, HeadOk, AllStorable;
    ExtendLogOk(c, log, chunk);
    WriteFiles(c, log, d, chunk, part);
    WriteHeads(c, log, d, chunk, part);
  }

  /** Part of a chunk's bytes reached the active file. */
  lemma WriteSafe(c: Codec, log: Log, d: Disk, chunk: seq<Envelope>, part: bytes)
    requires CrashSafe(c, log, d) && AllStorable(c, chunk) && d.recent == {}
    requires d.files[LastId(log)].data == Image(c, LastId(log), Active(log.segs))
    requires part <= Blob(c, chunk)
    requires forall cur | cur in Heads(d) && Boundary(c, log, cur) ::
               DistinctIds((Flat(log.segs) + chunk)[Position(c, log, cur)..])
    ensures CrashSafe(c, Extend(log, chunk), Write(d, LastId(log), part))
  {
    assert log.segs != [];
    hide Image, Blob, Boundary, Position, DistinctIds, Flat, Extend, DiskInv, AllStorable;
    WriteInv(c, log, d, chunk, part);
    FlatExtends(log, chunk);
    WriteHeads(c, log, d, chunk, part);
  }

  /** Undoing a failed write returns to the log without the chunk. */
  lemma RollbackSafe(c: Codec, log: Log, d: Disk, id: nat, part: bytes)
    requires CrashSafe(c, log, d) && id == LastId(log)
    requires d.files[id].data == Image(c, id, Active(log.segs))
    ensures Truncate(Write(d, id, part), id, |d.files[id].data|) == d
  {
    ActiveFile(c, log, d);
    assert (d.files[id].data + part)[..|d.files[id].data|] == d.files[id].data;
    assert Holds(c, log, id, d.files[id]);
    assert Truncate(Write(d, id, part), id, |d.files[id].data|).files == d.files;
  }

  lemma FsyncSafe(c: Codec, log: Log, d: Disk)
    requires CrashSafe(c, log, d)
    ensures CrashSafe(c, log, Fsync(d, LastId(log)))
  {
    hide Image, WholeIn, Boundary, Position, DistinctIds, Flat;
    var d' := Fsync(d, LastId(log));
    forall s | s in d'.files
      ensures Holds(c, log, s, d'.files[s])
    {
      assert Holds(c, log, s, d.files[s]);
    }
    forall cur | cur in Heads(d')
      ensures HeadOk(c, log, d', cur)
    {
      assert HeadOk(c, log, d, cur);
    }
  }

  lemma HoldsRotates(c: Codec, log: Log, s: nat, f: File)
    requires Holds(c, log, s, f) && f.synced == |f.data|
    requires f.data == Image(c, s, Records(log, s))
    ensures Holds(c, Rotated(log), s, f)
  {
    assert s >= log.first ==> Rotated(log).segs[s - log.first] == log.segs[s - log.first];
  }

  lemma RotatedLogOk(c: Codec, log: Log)
    requires LogOk(c, log) && LastId(log) < MAX_SEGMENT_ID
    ensures LogOk(c, Rotated(log))
  {
    var r := Rotated(log);
    forall i | 0 <= i < |r.segs|
      ensures AllStorable(c, r.segs[i])
    {
      if i < |log.segs| { assert AllStorable(c, log.segs[i]); }
    }
  }

  /** A file of a closed segment is whole; so is the active one once synced. */
  lemma WholeFile(c: Codec, log: Log, s: nat, f: File)
    requires Holds(c, log, s, f) && s < LastId(log)
    ensures f.data == Image(c, s, Records(log, s)) && f.synced == |f.data|
  {
  }

  lemma NewSegmentHolds(c: Codec, log: Log)
    requires log.segs != []
    ensures Holds(c, Rotated(log), LastId(log) + 1, File(SegmentHeader(LastId(log) + 1), SEGMENT_HEADER_SIZE))
  {
    assert Blob(c, []) == [];
    assert Image(c, LastId(log) + 1, []) == SegmentHeader(LastId(log) + 1);
  }

  lemma NewSegmentImage(c: Codec, id: nat)
    ensures Image(c, id, []) == SegmentHeader(id)
  {
    assert Blob(c, []) == [];
  }

  /** A rotation's rename, made only after the active segment is synced. */
  lemma InstallSegmentSafe(c: Codec, log: Log, d: Disk)
    requires CrashSafe(c, log, d) && d.recent == {} && LastId(log) < MAX_SEGMENT_ID
    requires var f := d.files[LastId(log)];
             f.data == Image(c, LastId(log), Active(log.segs)) && f.synced == |f.data|
    ensures CrashSafe(c, Rotated(log), InstallSegment(d, LastId(log) + 1, SegmentHeader(LastId(log) + 1)))
  {
    hide Image, WholeIn, Boundary, Position, DistinctIds, Flat, LogOk, Holds, HeadOk, Rotated, SegmentHeader;
    SafeInv(c, log, d);
    LogIsOk(c, log, d);
    RotatedLogOk(c, log);
    RotatedLast(log);
    FlatExtends(log, []);
    RotatedFiles(c, log, d);
    RotatedHeads(c, log, d);
    SameHeads(d, LastId(log) + 1, SegmentHeader(LastId(log) + 1));
  }

  lemma RotatedLast(log: Log)
    requires log.segs != []
    ensures Rotated(log).segs != [] && LastId(Rotated(log)) == LastId(log) + 1 && Active(Rotated(log).segs) == []
  {
  }

  lemma RotatedFiles(c: Codec, log: Log, d: Disk)
    requires DiskInv(c, log, d) && d.recent == {}
    requires var f := d.files[LastId(log)];
             f.data == Image(c, LastId(log), Active(log.segs)) && f.synced == |f.data|
    ensures var id := LastId(log) + 1;
            var d' := InstallSegment(d, id, SegmentHeader(id));
            && id !in d.files
            && (forall s | s in d'.files :: Holds(c, Rotated(log), s, d'.files[s]))
            && (forall s | s in d'.dropped :: Holds(c, Rotated(log), s, d'.dropped[s]))
  {
    hide Image, LogOk, HeadOk;
    var id := LastId(log) + 1;
    NewSegmentHolds(c, log);
    forall s | s in d.files
      ensures s != id && Holds(c, Rotated(log), s, d.files[s])
    {
      assert Holds(c, log, s, d.files[s]);
      if s < LastId(log) { WholeFile(c, log, s, d.files[s]); }
      HoldsRotates(c, log, s, d.files[s]);
    }
    forall s | s in d.dropped
      ensures Holds(c, Rotated(log), s, d.dropped[s])
    {
      WholeFile(c, log, s, d.dropped[s]);
      HoldsRotates(c, log, s, d.dropped[s]);
    }
  }

  lemma RotatedHeads(c: Codec, log: Log, d: Disk)
    requires DiskInv(c, log, d)
    ensures var id := LastId(log) + 1;
            forall cur | cur in Heads(d) ::
              && HeadOk(c, Rotated(log), InstallSegment(d, id, SegmentHeader(id)), cur)
              && Boundary(c, log, cur) && Position(c, Rotated(log), cur) == Position(c, log, cur)
  {
    hide Boundary, Position, LogOk, Holds, SegmentHeader;
    ActiveFile(c, log, d);
    var id := LastId(log) + 1;
    forall cur | cur in Heads(d)
      ensures HeadOk(c, Rotated(log), InstallSegment(d, id, SegmentHeader(id)), cur)
      ensures Boundary(c, log, cur) && Position(c, Rotated(log), cur) == Position(c, log, cur)
    {
      assert HeadOk(c, log, d, cur);
      BoundarySegment(c, log, cur);
      BoundaryRotates(c, log, cur);
    }
  }

  /** A checkpoint's rename, made only at a synced position. */
  lemma InstallHeadSafe(c: Codec, log: Log, d: Disk, cursor: Cursor)
    requires CrashSafe(c, log, d) && HeadOk(c, log, d, cursor)
    requires DistinctIds(Flat(log.segs)[Position(c, log, cursor)..])
    ensures CrashSafe(c, log, InstallHead(d, cursor))
  {
    hide Holds, Boundary, Position, DistinctIds, Flat, LogOk;
    var d' := InstallHead(d, cursor);
    forall cur | cur in Heads(d')
      ensures HeadOk(c, log, d', cur)
    {
      if cur != cursor { assert cur in Heads(d); assert HeadOk(c, log, d, cur); }
    }
  }

  lemma BarrierSafe(c: Codec, log: Log, d: Disk)
    requires CrashSafe(c, log, d)
    ensures CrashSafe(c, log, Barrier(d))
  {
    hide Holds, Boundary, Position, DistinctIds, Flat, LogOk;
    var d' := Barrier(d);
    forall cur | cur in Heads(d')
      ensures HeadOk(c, log, d', cur)
    {
      assert HeadOk(c, log, d, cur);
    }
  }

  /** A completed segment's unlink, made only below every surviving checkpoint. */
  lemma UnlinkSafe(c: Codec, log: Log, d: Disk, id: nat)
    requires CrashSafe(c, log, d) && id in d.files && id < LastId(log) && id !in d.recent
    requires forall cur | cur in Heads(d) :: id < cur.segment
    ensures CrashSafe(c, log, Unlink(d, id))
  {
    hide Holds, Boundary, Position, DistinctIds, Flat, LogOk;
    var d' := Unlink(d, id);
    forall cur | cur in Heads(d')
      ensures HeadOk(c, log, d', cur)
    {
      assert HeadOk(c, log, d, cur);
    }
  }

  // ---- Runs ---------------------------------------------------------------------

  lemma DurableWithin(c: Codec, log: Log, d: Disk)
    requires DiskInv(c, log, d)
    ensures DurableTail(c, log, d) <= |Flat(log.segs)|
    ensures d.files[LastId(log)].synced >= Size(c, Active(log.segs)) ==> DurableTail(c, log, d) == |Flat(log.segs)|
  {
    ActiveFile(c, log, d);
    hide DiskInv, WholeIn, Flat, Blob;
    var es := Active(log.segs);
    FlatSnoc(log.segs[..|log.segs| - 1], es);
    assert log.segs == log.segs[..|log.segs| - 1] + [es];
    if d.files[LastId(log)].synced >= Size(c, es) {
      assert es[..|es|] == es;
      WholeInIsLargest(c, es, d.files[LastId(log)].synced - SEGMENT_HEADER_SIZE, |es|);
    }
  }

  /** One observed state of the directory: the log written so far, the files, the
      positions no checkpoint on disk is before and after, and where the checkpoints are. */
  datatype Snapshot = Snapshot(log: Log, disk: Disk, floor: nat, ceiling: nat, spots: set<nat>)

  /** The positions of the checkpoints a crash may leave. */
  ghost function Spots(c: Codec, log: Log, d: Disk): set<nat> {
    set cur | cur in Heads(d) && Boundary(c, log, cur) :: Position(c, log, cur)
  }

  ghost function Taken(c: Codec, log: Log, d: Disk, floor: nat, ceiling: nat): Snapshot {
    Snapshot(log, d, floor, ceiling, Spots(c, log, d))
  }

  ghost predicate SafeSnapshot(c: Codec, a: Snapshot) {
    && CrashSafe(c, a.log, a.disk) && a.spots == Spots(c, a.log, a.disk)
    && forall cur | cur in Heads(a.disk) && Boundary(c, a.log, cur) :: a.floor <= Position(c, a.log, cur) <= a.ceiling
  }

  ghost predicate Keeps(x: seq<Envelope>, n: nat, y: seq<Envelope>, m: nat) {
    n <= m <= |y| && n <= |x| && x[..n] == y[..n]
  }

  /** From one moment of a run to a later one no durable record is lost or
      changed, and the floor under the checkpoints never sinks. */
  ghost predicate Advances(c: Codec, a: Snapshot, b: Snapshot) {
    && DiskInv(c, a.log, a.disk) && DiskInv(c, b.log, b.disk) && a.floor <= b.floor
    && Keeps(Flat(a.log.segs), DurableTail(c, a.log, a.disk), Flat(b.log.segs), DurableTail(c, b.log, b.disk))
  }

  ghost predicate Run(c: Codec, run: seq<Snapshot>) {
    && (forall i | 0 <= i < |run| :: SafeSnapshot(c, run[i]))
    && (forall i, j | 0 <= i < j < |run| :: Advances(c, run[i], run[j]))
  }

  lemma AdvancesTransitive(c: Codec, x: Snapshot, y: Snapshot, z: Snapshot)
    requires Advances(c, x, y) && Advances(c, y, z)
    ensures Advances(c, x, z)
  {
    hide DiskInv, Flat, DurableTail;
    var n, m := DurableTail(c, x.log, x.disk), DurableTail(c, y.log, y.disk);
    assert Flat(y.log.segs)[..n] == Flat(y.log.segs)[..m][..n] == Flat(z.log.segs)[..m][..n] == Flat(z.log.segs)[..n];
  }

  lemma RunExtends(c: Codec, run: seq<Snapshot>, a: Snapshot)
    requires Run(c, run) && run != [] && SafeSnapshot(c, a) && Advances(c, run[|run| - 1], a)
    ensures Run(c, run + [a])
  {
    hide Advances, SafeSnapshot;
    var more := run + [a];
    forall i, j | 0 <= i < j < |more|
      ensures Advances(c, more[i], more[j])
    {
      if j == |run| && i < |run| - 1 { AdvancesTransitive(c, run[i], run[|run| - 1], a); }
    }
  }

  /** Crashing at moment `b` and reopening yields the log of that moment from a
      surviving checkpoint between the floor and the ceiling on, with every record that
      was durable at moment `a`. */
  ghost predicate Recovers(c: Codec, a: Snapshot, b: Snapshot, image: Disk) {
    && DiskInv(c, a.log, a.disk) && HasTop(b.log, image)
    && image.head.Some? && image.head.value in Heads(b.disk) && Boundary(c, b.log, image.head.value)
    && var from, kept := Position(c, b.log, image.head.value), Survivors(c, b.log, image);
       var durable := DurableTail(c, a.log, a.disk);
       && a.floor <= b.floor <= from <= b.ceiling && from <= |Flat(kept.segs)|
       && Load(c, image) == Some(LogEntries(c, b.log.first, kept.segs)[from..])
       && Flat(kept.segs) <= Flat(b.log.segs)
       && durable <= |Flat(kept.segs)| && durable <= |Flat(a.log.segs)|
       && Flat(kept.segs)[..durable] == Flat(a.log.segs)[..durable]
  }

  /** RUN SAFETY. Whatever moment of a run a crash hits, reopening keeps every
      record that was durable at that or any earlier moment, from a checkpoint on that
      is past no record the ceiling of that moment is not past. */
  lemma RunRecovers(c: Codec, run: seq<Snapshot>, i: nat, j: nat, image: Disk)
    requires Run(c, run) && i <= j < |run| && Crash(run[j].disk, image)
    ensures Recovers(c, run[i], run[j], image)
  {
    hide Run, Recovers, Advances, SafeSnapshot, Crash;
    RunPair(c, run, i, j);
    PairRecovers(c, run[i], run[j], image);
  }

  lemma PairRecovers(c: Codec, a: Snapshot, b: Snapshot, image: Disk)
    requires a == b || Advances(c, a, b)
    requires SafeSnapshot(c, b) && Crash(b.disk, image)
    ensures Recovers(c, a, b, image)
  {
    hide Load, Survivors, Boundary, Position, Flat, DurableTail, LogEntries, Crash, SafeSnapshot, DiskInv, Advances;
    hide HasTop;
    hide Heads;
    MomentRecovers(c, b, image);
    KeptItems(c, a, b, Flat(Survivors(c, b.log, image).segs));
  }

  lemma RunPair(c: Codec, run: seq<Snapshot>, i: nat, j: nat)
    requires Run(c, run) && i <= j < |run|
    ensures SafeSnapshot(c, run[j]) && (i < j ==> Advances(c, run[i], run[j]))
  {
    hide Advances, SafeSnapshot;
  }

  lemma MomentRecovers(c: Codec, b: Snapshot, image: Disk)
    requires SafeSnapshot(c, b) && Crash(b.disk, image)
    ensures DiskInv(c, b.log, b.disk) && HasTop(b.log, image)
    ensures image.head.Some? && image.head.value in Heads(b.disk) && Boundary(c, b.log, image.head.value)
    ensures var from, kept := Position(c, b.log, image.head.value), Survivors(c, b.log, image);
            && b.floor <= from <= b.ceiling && from <= |Flat(kept.segs)|
            && Load(c, image) == Some(LogEntries(c, b.log.first, kept.segs)[from..])
            && Flat(kept.segs) <= Flat(b.log.segs) && DurableTail(c, b.log, b.disk) <= |Flat(kept.segs)|
  {
    hide DiskInv, Crash, Load, Survivors, Boundary, Position, Flat, LogEntries;
    CrashRecovery(c, b.log, b.disk, image);
  }

  lemma KeptItems(c: Codec, a: Snapshot, b: Snapshot, kept: seq<Envelope>)
    requires a == b || Advances(c, a, b)
    requires DiskInv(c, b.log, b.disk) && kept <= Flat(b.log.segs) && DurableTail(c, b.log, b.disk) <= |kept|
    ensures DiskInv(c, a.log, a.disk) && a.floor <= b.floor
    ensures DurableTail(c, a.log, a.disk) <= |kept| && DurableTail(c, a.log, a.disk) <= |Flat(a.log.segs)|
    ensures kept[..DurableTail(c, a.log, a.disk)] == Flat(a.log.segs)[..DurableTail(c, a.log, a.disk)]
  {
    hide DiskInv, Flat, DurableTail;
    DurableWithin(c, b.log, b.disk);
    var n := DurableTail(c, a.log, a.disk);
    assert kept[..n] == Flat(b.log.segs)[..n];
  }

  /** CURSOR SAFETY. Whatever moment of a run a crash hits, the surviving checkpoint
      names an existing segment at one of its record boundaries, every segment from it
      to the newest exists, and no closed segment is torn. */
  lemma CursorSafety(c: Codec, run: seq<Snapshot>, j: nat, image: Disk)
    requires Run(c, run) && j < |run| && Crash(run[j].disk, image)
    ensures image.head.Some? && image.files.Keys != {} && image.head.value.segment in image.files
    ensures forall s: nat | image.head.value.segment <= s <= MaxOf(image.files.Keys) :: s in image.files
    ensures forall s | s in image.files :: ScanOf(c, image, s).Scanned?
    ensures forall s | s in image.files && s < MaxOf(image.files.Keys) :: !ScanOf(c, image, s).torn
    ensures EffectiveHead(c, image) == image.head.value
  {
    hide DiskInv, Crash, Load, Survivors, Boundary, Position, Flat, LogEntries, Advances, EffectiveHead, ScanFile;
    hide Heads;
    RunPair(c, run, j, j);
    var b := run[j];
    SafeParts(c, b);
    MomentRecovers(c, b, image);
    CrashScans(c, b.log, b.disk, image);
    HeadIsEffective(c, Survivors(c, b.log, image), image);
    ScansParts(c, Survivors(c, b.log, image), image);
  }

  lemma ScansParts(c: Codec, log: Log, d: Disk)
    requires Scans(c, log, d)
    ensures d.head.Some? && d.files.Keys != {} && d.head.value.segment in d.files
    ensures forall s: nat | d.head.value.segment <= s <= MaxOf(d.files.Keys) :: s in d.files
    ensures forall s | s in d.files :: ScanOf(c, d, s).Scanned?
    ensures forall s | s in d.files && s < MaxOf(d.files.Keys) :: !ScanOf(c, d, s).torn
  {
    hide ScanFrom, WholeIn, Blob, Entries, Known, Records;
    assert d.head.value.segment <= LastId(log);
  }

  // ---- Every system call advances the run -----------------------------------------

  lemma SameTailAdvances(c: Codec, log: Log, d: Disk, d': Disk, floor: nat, ceiling: nat)
    requires DiskInv(c, log, d) && DiskInv(c, log, d')
    requires d'.files[LastId(log)].synced >= d.files[LastId(log)].synced
    ensures Advances(c, Taken(c, log, d, floor, ceiling), Taken(c, log, d', floor, ceiling))
  {
    hide DiskInv, Flat, WholeIn;
    ActiveFile(c, log, d);
    ActiveFile(c, log, d');
    DurableWithin(c, log, d);
    DurableWithin(c, log, d');
    WholeInMonotone(c, Active(log.segs), d.files[LastId(log)].synced - SEGMENT_HEADER_SIZE,
                    d'.files[LastId(log)].synced - SEGMENT_HEADER_SIZE);
  }

  /** Unsynced bytes do not move the durable tail. */
  lemma WriteTail(c: Codec, log: Log, d: Disk, chunk: seq<Envelope>, part: bytes)
    requires DiskInv(c, log, d) && DiskInv(c, Extend(log, chunk), Write(d, LastId(log), part))
    ensures DurableTail(c, Extend(log, chunk), Write(d, LastId(log), part)) == DurableTail(c, log, d)
  {
    ActiveFile(c, log, d);
    ActiveSynced(c, log, d);
    hide DiskInv, Flat, WholeIn, Blob, DurableCount, Size, Extend;
    CountSame(c, log.segs, Extend(log, chunk).segs, chunk, d.files[LastId(log)].synced);
  }

  lemma CountSame(c: Codec, segs: Segments, segs': Segments, more: seq<Envelope>, synced: nat)
    requires segs != [] && segs' != [] && SEGMENT_HEADER_SIZE <= synced <= Size(c, Active(segs))
    requires segs'[..|segs'| - 1] == segs[..|segs| - 1] && Active(segs') == Active(segs) + more
    ensures DurableCount(c, segs', synced) == DurableCount(c, segs, synced)
  {
    hide Flat, WholeIn, Blob;
    var es := Active(segs);
    assert (es + more)[..|es|] == es;
    BoundaryInPrefix(c, es + more, |es|, synced - SEGMENT_HEADER_SIZE);
  }

  lemma ActiveSynced(c: Codec, log: Log, d: Disk)
    requires DiskInv(c, log, d)
    ensures d.files[LastId(log)].synced <= Size(c, Active(log.segs))
  {
    hide LogOk, HeadOk, Image;
    assert Holds(c, log, LastId(log), d.files[LastId(log)]);
    ImageSize(c, LastId(log), Active(log.segs));
  }

  lemma WriteAdvances(c: Codec, log: Log, d: Disk, chunk: seq<Envelope>, part: bytes, floor: nat, ceiling: nat)
    requires DiskInv(c, log, d) && DiskInv(c, Extend(log, chunk), Write(d, LastId(log), part))
    ensures var a, b := Taken(c, log, d, floor, ceiling), Taken(c, Extend(log, chunk), Write(d, LastId(log), part), floor, ceiling);
            Advances(c, a, b) && Advances(c, b, a)
  {
    hide DiskInv, Flat, WholeIn, Blob, DurableTail, Extend, Write;
    ActiveFile(c, log, d);
    WriteTail(c, log, d, chunk, part);
    DurableWithin(c, log, d);
    FlatExtends(log, chunk);
  }

  lemma RotateAdvances(c: Codec, log: Log, d: Disk, floor: nat, ceiling: nat)
    requires DiskInv(c, log, d) && d.files[LastId(log)].synced >= Size(c, Active(log.segs))
    requires DiskInv(c, Rotated(log), InstallSegment(d, LastId(log) + 1, SegmentHeader(LastId(log) + 1)))
    ensures Advances(c, Taken(c, log, d, floor, ceiling),
                     Taken(c, Rotated(log), InstallSegment(d, LastId(log) + 1, SegmentHeader(LastId(log) + 1)), floor, ceiling))
  {
    var d' := InstallSegment(d, LastId(log) + 1, SegmentHeader(LastId(log) + 1));
    assert log.segs != [] && LastId(Rotated(log)) == LastId(log) + 1;
    assert d'.files[LastId(log) + 1].synced == SEGMENT_HEADER_SIZE;
    NoRecords(c);
    hide DiskInv, Flat, WholeIn, Blob, DurableTail, SegmentHeader;
    DurableWithin(c, log, d);
    DurableWithin(c, Rotated(log), d');
    FlatExtends(log, []);
  }

  lemma NoRecords(c: Codec)
    ensures Size(c, []) == SEGMENT_HEADER_SIZE
  {
  }

  lemma CountLonger(c: Codec, segs: Segments, segs': Segments, more: seq<Envelope>, synced: nat)
    requires segs != [] && segs' != [] && synced >= SEGMENT_HEADER_SIZE
    requires segs'[..|segs'| - 1] == segs[..|segs| - 1] && Active(segs') == Active(segs) + more
    ensures DurableCount(c, segs', synced) >= DurableCount(c, segs, synced)
  {
    hide Flat, WholeIn;
    WholeInLonger(c, Active(segs), more, synced - SEGMENT_HEADER_SIZE);
  }

  lemma WholeInLonger(c: Codec, es: seq<Envelope>, more: seq<Envelope>, n: nat)
    ensures WholeIn(c, es + more, n) >= WholeIn(c, es, n)
  {
    var k := WholeIn(c, es, n);
    WholeInIsLargest(c, es, n, k);
    assert (es + more)[..k] == es[..k];
    WholeInIsLargest(c, es + more, n, k);
  }

  lemma WriteSnapshot(c: Codec, a: Snapshot, chunk: seq<Envelope>, part: bytes)
    requires CrashSafe(c, a.log, a.disk) && SafeSnapshot(c, a) && AllStorable(c, chunk) && a.disk.recent == {}
    requires a.disk.files[LastId(a.log)].data == Image(c, LastId(a.log), Active(a.log.segs))
    requires part <= Blob(c, chunk)
    requires forall cur | cur in Heads(a.disk) && Boundary(c, a.log, cur) ::
               DistinctIds((Flat(a.log.segs) + chunk)[Position(c, a.log, cur)..])
    ensures a.log.segs != []
    ensures var b := Taken(c, Extend(a.log, chunk), Write(a.disk, LastId(a.log), part), a.floor, a.ceiling);
            SafeSnapshot(c, b) && CrashSafe(c, b.log, b.disk) && Advances(c, a, b) && Advances(c, b, a)
  {
    assert a.log.segs != [];
    hide Image, Blob, Boundary, Position, DistinctIds, Flat, Extend, DiskInv, AllStorable, Advances;
    WriteSafe(c, a.log, a.disk, chunk, part);
    WriteAdvances(c, a.log, a.disk, chunk, part, a.floor, a.ceiling);
    WriteHeads(c, a.log, a.disk, chunk, part);
  }

  lemma FsyncSnapshot(c: Codec, a: Snapshot)
    requires SafeSnapshot(c, a)
    ensures a.log.segs != [] && LastId(a.log) in a.disk.files
    ensures var b := Taken(c, a.log, Fsync(a.disk, LastId(a.log)), a.floor, a.ceiling);
            SafeSnapshot(c, b) && CrashSafe(c, b.log, b.disk) && Advances(c, a, b)
  {
    ActiveFile(c, a.log, a.disk);
    assert Holds(c, a.log, LastId(a.log), a.disk.files[LastId(a.log)]);
    FsyncSafe(c, a.log, a.disk);
    hide DiskInv, Boundary, Position, DistinctIds, Flat, Holds;
    SameTailAdvances(c, a.log, a.disk, Fsync(a.disk, LastId(a.log)), a.floor, a.ceiling);
  }

  lemma RotateSnapshot(c: Codec, a: Snapshot)
    requires SafeSnapshot(c, a) && a.disk.recent == {} && LastId(a.log) < MAX_SEGMENT_ID
    requires var f := a.disk.files[LastId(a.log)];
             f.data == Image(c, LastId(a.log), Active(a.log.segs)) && f.synced == |f.data|
    ensures a.log.segs != []
    ensures var id := LastId(a.log) + 1;
            var b := Taken(c, Rotated(a.log), InstallSegment(a.disk, id, SegmentHeader(id)), a.floor, a.ceiling);
            SafeSnapshot(c, b) && CrashSafe(c, b.log, b.disk) && Advances(c, a, b)
  {
    hide Image, Boundary, Position, DistinctIds, Flat, DiskInv, SegmentHeader, Rotated, Advances, CrashSafe, Heads;
    SafeParts(c, a);
    ImageSize(c, LastId(a.log), Active(a.log.segs));
    InstallSegmentSafe(c, a.log, a.disk);
    var id := LastId(a.log) + 1;
    SafeInv(c, Rotated(a.log), InstallSegment(a.disk, id, SegmentHeader(id)));
    RotateAdvances(c, a.log, a.disk, a.floor, a.ceiling);
    RotatedHeads(c, a.log, a.disk);
    SameHeads(a.disk, id, SegmentHeader(id));
  }

  lemma SameHeads(d: Disk, id: nat, data: bytes)
    ensures Heads(InstallSegment(d, id, data)) == Heads(d)
  {
  }

  lemma SafeParts(c: Codec, a: Snapshot)
    requires SafeSnapshot(c, a)
    ensures CrashSafe(c, a.log, a.disk) && DiskInv(c, a.log, a.disk) && a.log.segs != []
    ensures forall cur | cur in Heads(a.disk) && Boundary(c, a.log, cur) :: a.floor <= Position(c, a.log, cur) <= a.ceiling
  {
    hide Boundary, Position, Flat, DistinctIds, Holds, HeadOk, Heads;
  }

  lemma SafeInv(c: Codec, log: Log, d: Disk)
    requires CrashSafe(c, log, d)
    ensures DiskInv(c, log, d)
  {
    hide DiskInv;
  }

  lemma HeadSnapshot(c: Codec, a: Snapshot, cursor: Cursor)
    requires SafeSnapshot(c, a) && HeadOk(c, a.log, a.disk, cursor) && a.floor <= Position(c, a.log, cursor) <= a.ceiling
    requires DistinctIds(Flat(a.log.segs)[Position(c, a.log, cursor)..])
    ensures var b := Taken(c, a.log, InstallHead(a.disk, cursor), a.floor, a.ceiling);
            SafeSnapshot(c, b) && CrashSafe(c, b.log, b.disk) && Advances(c, a, b)
  {
    InstallHeadSafe(c, a.log, a.disk, cursor);
    hide DiskInv, Boundary, Position, DistinctIds, Flat, HeadOk;
    SameTailAdvances(c, a.log, a.disk, InstallHead(a.disk, cursor), a.floor, a.ceiling);
    assert Heads(InstallHead(a.disk, cursor)) <= Heads(a.disk) + {cursor};
  }

  lemma BarrierSnapshot(c: Codec, a: Snapshot)
    requires SafeSnapshot(c, a)
    ensures var b := Taken(c, a.log, Barrier(a.disk), a.floor, a.ceiling);
            SafeSnapshot(c, b) && CrashSafe(c, b.log, b.disk) && Advances(c, a, b)
  {
    BarrierSafe(c, a.log, a.disk);
    hide DiskInv, Boundary, Position, DistinctIds, Flat;
    SameTailAdvances(c, a.log, a.disk, Barrier(a.disk), a.floor, a.ceiling);
  }

  lemma UnlinkSnapshot(c: Codec, a: Snapshot, id: nat)
    requires SafeSnapshot(c, a) && id in a.disk.files && id < LastId(a.log) && id !in a.disk.recent
    requires forall cur | cur in Heads(a.disk) :: id < cur.segment
    ensures var b := Taken(c, a.log, Unlink(a.disk, id), a.floor, a.ceiling);
            SafeSnapshot(c, b) && CrashSafe(c, b.log, b.disk) && Advances(c, a, b)
  {
    UnlinkSafe(c, a.log, a.disk, id);
    hide DiskInv, Boundary, Position, DistinctIds, Flat;
    SameTailAdvances(c, a.log, a.disk, Unlink(a.disk, id), a.floor, a.ceiling);
  }

  lemma FloorAdvances(c: Codec, a: Snapshot, f: nat)
    requires SafeSnapshot(c, a) && a.floor <= f
    requires forall cur | cur in Heads(a.disk) && Boundary(c, a.log, cur) :: f <= Position(c, a.log, cur)
    ensures var b := Taken(c, a.log, a.disk, f, a.ceiling); SafeSnapshot(c, b) && Advances(c, a, b)
  {
    hide DiskInv, Boundary, Position, DistinctIds, Flat, DurableTail;
    DurableWithin(c, a.log, a.disk);
  }

  lemma CeilingAdvances(c: Codec, a: Snapshot, f: nat)
    requires SafeSnapshot(c, a) && a.ceiling <= f
    ensures var b := a.(ceiling := f); SafeSnapshot(c, b) && Advances(c, a, b)
  {
    hide DiskInv, Boundary, Position, DistinctIds, Flat, DurableTail;
    DurableWithin(c, a.log, a.disk);
  }

  // ---- The moments of one call -----------------------------------------------------

  /** What the moments of a call may hold: records of `plan`, and checkpoints at `spots`. */
  datatype Bounds = Bounds(plan: seq<Envelope>, spots: set<nat>)

  ghost predicate Within(a: Snapshot, b: Bounds) {
    Flat(a.log.segs) <= b.plan && a.spots <= b.spots
  }

  /** The run went from `before` to `after`, and every moment it added is within `b`. */
  ghost predicate Moments(before: seq<Snapshot>, after: seq<Snapshot>, b: Bounds) {
    before <= after && forall i | |before| <= i < |after| :: Within(after[i], b)
  }

  /** Whatever is within `a` is within `b`. */
  ghost predicate Inside(a: Bounds, b: Bounds) {
    a.plan <= b.plan && a.spots <= b.spots
  }

  /** The same records, and no more checkpoints. */
  ghost predicate Narrows(a: Bounds, b: Bounds) {
    a.plan == b.plan && a.spots <= b.spots
  }

  lemma NarrowsTwice(a: Bounds, b: Bounds, c: Bounds)
    requires Narrows(a, b) && Narrows(b, c)
    ensures Narrows(a, c)
  {
  }

  lemma NarrowsSame(b: Bounds)
    ensures Narrows(b, b)
  {
  }

  lemma NoMoments(run: seq<Snapshot>, b: Bounds)
    ensures Moments(run, run, b)
  {
  }

  lemma OneMoment(before: seq<Snapshot>, after: seq<Snapshot>, a: Snapshot, b: Bounds)
    requires after == before || after == before + [a]
    requires Within(a, b)
    ensures Moments(before, after, b)
  {
    hide Flat;
  }

  lemma MoreMoments(x: seq<Snapshot>, y: seq<Snapshot>, z: seq<Snapshot>, b: Bounds, more: Bounds)
    requires Moments(x, y, b) && Moments(y, z, more) && Inside(more, b)
    ensures Moments(x, z, b)
  {
    hide Within;
    forall i | |x| <= i < |z|
      ensures Within(z[i], b)
    {
      if i < |y| { assert z[i] == y[i]; } else { WithinWider(z[i], more, b); }
    }
  }

  lemma WiderMoments(x: seq<Snapshot>, y: seq<Snapshot>, b: Bounds, wide: Bounds)
    requires Moments(x, y, b) && Inside(b, wide)
    ensures Moments(x, y, wide)
  {
    hide Inside;
    NoMoments(x, wide);
    MoreMoments(x, x, y, wide, b);
  }

  lemma Onward(x: seq<Snapshot>, y: seq<Snapshot>, z: seq<Snapshot>, b: Bounds, more: Bounds)
    requires Moments(x, y, b) && Moments(y, z, more) && Narrows(more, b)
    ensures Moments(x, z, b)
  {
    hide Moments;
    MoreMoments(x, y, z, b, more);
  }

  lemma WithinWider(a: Snapshot, b: Bounds, wide: Bounds)
    requires Within(a, b) && Inside(b, wide)
    ensures Within(a, wide)
  {
    hide Flat;
  }

  /** Wherever inside a call a crash hits, the log loads from one of the call's checkpoints
      on, with every record that was durable before the call. */
  lemma MomentRefines(c: Codec, before: seq<Snapshot>, after: seq<Snapshot>, b: Bounds, j: nat, image: Disk)
      returns (from: nat, to: nat)
    requires Run(c, after) && before != [] && Moments(before, after, b) && |before| <= j < |after|
    requires Crash(after[j].disk, image)
    ensures DiskInv(c, before[|before| - 1].log, before[|before| - 1].disk)
    ensures from in b.spots && from <= to <= |b.plan|
    ensures DurableTail(c, before[|before| - 1].log, before[|before| - 1].disk) <= to
    ensures HasTop(after[j].log, image) && image.head.Some? && Boundary(c, after[j].log, image.head.value)
    ensures from == Position(c, after[j].log, image.head.value) && to == |Flat(Survivors(c, after[j].log, image).segs)|
    ensures Flat(Survivors(c, after[j].log, image).segs) == b.plan[..to]
    ensures Load(c, image) == Some(LogEntries(c, after[j].log.first, Survivors(c, after[j].log, image).segs)[from..])
  {
    hide Run, Crash, Load, Survivors, Boundary, Position, Flat, LogEntries, DiskInv, DurableTail, HasTop, Heads;
    RunRecovers(c, after, |before| - 1, j, image);
    RunPair(c, after, j, j);
    assert Within(after[j], b);
    from := Position(c, after[j].log, image.head.value);
    to := |Flat(Survivors(c, after[j].log, image).segs)|;
  }

  /** The operating system under one storage directory. Every call may fail.
      `visited` records the directory after every call that changed it, so a crash
      between any two calls, or inside one, is a crash at a visited moment. */
  class FileSystem {
    const codec: Codec
    var disk: Disk
    ghost var log: Log
    ghost var floor: nat
    ghost var ceiling: nat
    ghost var visited: seq<Snapshot>
    /** How many calls have failed, or were not made because segment numbers are used up. */
    ghost var faults: nat

    ghost function Now(): Snapshot
      reads this`log, this`disk, this`floor, this`ceiling
    {
      Taken(codec, log, disk, floor, ceiling)
    }

    /** At most the present moment joined the run. */
    ghost predicate Stepped(before: seq<Snapshot>)
      reads this
    {
      visited == before || visited == before + [Now()]
    }

    ghost predicate Valid()
      reads this
    {
      && visited != [] && visited[|visited| - 1] == Now()
      && CrashSafe(codec, log, disk) && Run(codec, visited)
    }

    constructor (c: Codec, d: Disk, ghost l: Log, ghost f: nat)
      requires SafeSnapshot(c, Taken(c, l, d, f, f))
      ensures Valid() && codec == c && disk == d && log == l && floor == ceiling == f && visited == [Now()]
    {
      codec, disk, log, floor, ceiling, visited, faults := c, d, l, f, f, [Taken(c, l, d, f, f)], 0;
    }

    /** The current moment joins the run. */
    ghost method Visit()
      requires visited != [] && Run(codec, visited)
      requires SafeSnapshot(codec, Now())
      requires Advances(codec, visited[|visited| - 1], Now())
      modifies this`visited
      ensures Valid() && visited == old(visited) + [Now()]
    {
      hide Run, Advances, CrashSafe;
      RunExtends(codec, visited, Now());
      visited := visited + [Now()];
    }

    ghost predicate Unchanged(l: Log, d: Disk, v: seq<Snapshot>)
      reads this
    {
      log == l && disk == d && visited == v
    }

    /** Appends `data`, the frames of `chunk`, to the active file. A failed call
        may still have put some of the bytes there. */
    method Append(id: nat, data: bytes, ghost chunk: seq<Envelope>) returns (ok: bool, ghost part: bytes)
      requires Valid() && AllStorable(codec, chunk) && disk.recent == {}
      requires id in disk.files && id == LastId(log) && data == Blob(codec, chunk)
      requires disk.files[id].data == Image(codec, id, Active(log.segs))
      requires forall cur | cur in Heads(disk) && Boundary(codec, log, cur) ::
                 DistinctIds((Flat(log.segs) + chunk)[Position(codec, log, cur)..])
      modifies this`disk, this`log, this`visited, this`faults
      ensures Valid() && log == Extend(old(log), chunk) && part <= data
      ensures disk == Write(old(disk), id, part)
      ensures ok ==> part == data
      ensures Stepped(old(visited))
      ensures faults == old(faults) + if ok then 0 else 1
    {
      hide CrashSafe, Blob, Image, AllStorable, Extend, Flat, Boundary, Position, DistinctIds, Run, Advances, Write;
      hide Heads;
      var written := data;
      ok := true;
      if * {
        var n :| 0 <= n <= |data|;
        written, ok := data[..n], false;
      }
      part := written;
      if !ok { faults := faults + 1; }
      LastIsSafe();
      WriteSnapshot(codec, Now(), chunk, written);
      disk := Write(disk, id, written);
      log := Extend(log, chunk);
      Visit();
    }

    /** Truncates the active file back to the size it had before a failed
        append of `chunk` to `before`. */
    method Truncate(id: nat, size: nat, ghost before: Snapshot, ghost chunk: seq<Envelope>, ghost part: bytes)
      returns (ok: bool)
      requires Valid() && SafeSnapshot(codec, before) && before.floor == floor && before.ceiling == ceiling
      requires id == LastId(before.log) && id in before.disk.files
      requires before.disk.files[id].data == Image(codec, id, Active(before.log.segs))
      requires size == |before.disk.files[id].data|
      requires id in disk.files && disk == Write(before.disk, id, part) && log == Extend(before.log, chunk)
      modifies this`disk, this`log, this`visited, this`faults
      ensures Valid() && Stepped(old(visited))
      ensures ok ==> log == before.log && disk == before.disk
      ensures !ok ==> Unchanged(old(log), old(disk), old(visited))
      ensures faults == old(faults) + if ok then 0 else 1
    {
      hide Image, Extend, Flat, Boundary, Position, Run, Advances, Heads, DiskInv;
      ok := *;
      if ok {
        RollbackSafe(codec, before.log, before.disk, id, part);
        WriteAdvances(codec, before.log, before.disk, chunk, part, floor, ceiling);
        disk := Directory.Truncate(disk, id, size);
        log := before.log;
        Visit();
      } else {
        faults := faults + 1;
      }
    }

    method Fsync(id: nat) returns (ok: bool)
      requires Valid() && id in disk.files && id == LastId(log)
      modifies this`disk, this`visited, this`faults
      ensures Valid() && Stepped(old(visited))
      ensures disk == if ok then Directory.Fsync(old(disk), id) else old(disk)
      ensures faults == old(faults) + if ok then 0 else 1
    {
      hide CrashSafe, Run, Advances, Directory.Fsync, SafeSnapshot;
      ok := *;
      if ok {
        LastIsSafe();
        FsyncSnapshot(codec, Now());
        disk := Directory.Fsync(disk, id);
        Visit();
      } else {
        faults := faults + 1;
      }
    }

    lemma LastIsSafe()
      requires Valid()
      ensures SafeSnapshot(codec, Now())
    {
      hide CrashSafe, Advances, SafeSnapshot;
    }

    lemma Visits(j: nat)
      requires Valid() && j < |visited|
      ensures Run(codec, visited) && SafeSnapshot(codec, visited[j])
    {
      hide CrashSafe, Advances, SafeSnapshot;
    }

    /** Renames a written and synced temporary file to the next segment. */
    method RenameSegment(id: nat, header: bytes) returns (ok: bool)
      requires Valid() && disk.recent == {} && LastId(log) in disk.files
      requires LastId(log) < MAX_SEGMENT_ID && id == LastId(log) + 1 && header == SegmentHeader(id)
      requires var f := disk.files[LastId(log)];
               f.data == Image(codec, LastId(log), Active(log.segs)) && f.synced == |f.data|
      modifies this`disk, this`log, this`visited, this`faults
      ensures Valid() && Stepped(old(visited))
      ensures ok ==> log == Rotated(old(log)) && disk == InstallSegment(old(disk), id, header)
      ensures !ok ==> Unchanged(old(log), old(disk), old(visited))
      ensures faults == old(faults) + if ok then 0 else 1
    {
      hide CrashSafe, Image, HeadOk, Run, Advances, SafeSnapshot, InstallSegment, SegmentHeader, Rotated;
      ok := *;
      if ok {
        LastIsSafe();
        RotateSnapshot(codec, Now());
        disk := InstallSegment(disk, id, header);
        log := Rotated(log);
        Visit();
      } else {
        faults := faults + 1;
      }
    }

    /** Renames a written and synced temporary file over the checkpoint. */
    method RenameHead(cursor: Cursor) returns (ok: bool)
      requires Valid() && HeadOk(codec, log, disk, cursor)
      requires DistinctIds(Flat(log.segs)[Position(codec, log, cursor)..])
      requires floor <= Position(codec, log, cursor) <= ceiling
      modifies this`disk, this`visited, this`faults
      ensures Valid() && Stepped(old(visited))
      ensures disk == if ok then InstallHead(old(disk), cursor) else old(disk)
      ensures faults == old(faults) + if ok then 0 else 1
    {
      hide CrashSafe, HeadOk, Flat, Boundary, Position, DistinctIds, Run, Advances, SafeSnapshot, InstallHead;
      ok := *;
      if ok {
        LastIsSafe();
        HeadSnapshot(codec, Now(), cursor);
        disk := InstallHead(disk, cursor);
        Visit();
      } else {
        faults := faults + 1;
      }
    }

    method FsyncDirectory() returns (ok: bool)
      requires Valid()
      modifies this`disk, this`visited, this`faults
      ensures Valid() && Stepped(old(visited))
      ensures disk == if ok then Barrier(old(disk)) else old(disk)
      ensures faults == old(faults) + if ok then 0 else 1
    {
      hide CrashSafe, Run, Advances, SafeSnapshot, Barrier;
      ok := *;
      if ok {
        LastIsSafe();
        BarrierSnapshot(codec, Now());
        disk := Barrier(disk);
        Visit();
      } else {
        faults := faults + 1;
      }
    }

    method Unlink(id: nat) returns (ok: bool)
      requires Valid() && id in disk.files && id < LastId(log) && id !in disk.recent
      requires forall cur | cur in Heads(disk) :: id < cur.segment
      modifies this`disk, this`visited, this`faults
      ensures Valid() && Stepped(old(visited))
      ensures disk == if ok then Directory.Unlink(old(disk), id) else old(disk)
      ensures faults == old(faults) + if ok then 0 else 1
    {
      hide CrashSafe, Run, Advances, SafeSnapshot, Directory.Unlink, Heads;
      ok := *;
      if ok {
        LastIsSafe();
        UnlinkSnapshot(codec, Now(), id);
        disk := Directory.Unlink(disk, id);
        Visit();
      } else {
        faults := faults + 1;
      }
    }

    /** The next segment number would be out of range. */
    ghost method Refuse()
      requires Valid()
      modifies this`faults
      ensures Valid() && faults == old(faults) + 1
    {
      hide CrashSafe, Run, Advances, SafeSnapshot;
      faults := faults + 1;
    }

    /** Every checkpoint that may survive is at or after `f`. */
    ghost method RaiseFloor(f: nat)
      requires Valid() && floor <= f
      requires forall cur | cur in Heads(disk) && Boundary(codec, log, cur) :: f <= Position(codec, log, cur)
      modifies this`floor, this`visited
      ensures Valid() && Stepped(old(visited)) && floor == f
    {
      hide CrashSafe, Run, Heads, Boundary, Position;
      LastIsSafe();
      FloorAdvances(codec, Now(), f);
      floor := f;
      Visit();
    }

    /** A checkpoint up to `f` is about to be installed. */
    ghost method RaiseCeiling(f: nat)
      requires Valid() && ceiling <= f
      modifies this`ceiling, this`visited
      ensures Valid() && Stepped(old(visited)) && ceiling == f
    {
      hide CrashSafe, Run, SafeSnapshot;
      LastIsSafe();
      CeilingAdvances(codec, Now(), f);
      ceiling := f;
      Visit();
    }
  }
}
