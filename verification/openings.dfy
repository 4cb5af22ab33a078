/** Openings that fail (reliomq/outbox.py:154-174, 1015-1043): an I/O error in the repair, the
    data sync or a directory barrier leaves a directory that opens as if nothing had
    happened. */
module Openings {
  import opened Wrappers
  import opened Framing
  import opened Layout
  import opened Directory
  import opened Loading
  import opened Recovery
  import opened Storage
  import opened QueueSpec
  import opened OutboxState
  import opened OutboxSteps

  /** After openings that failed: another log and directory, from which a crash leaves
      nothing the first would not have left. */
  ghost predicate Retries(c: Codec, log: Log, d: Disk, log': Log, d': Disk) {
    && CrashSafe(c, log, d) && CrashSafe(c, log', d') && DiskInv(c, log, d) && DiskInv(c, log', d')
    && Flat(log'.segs) <= Flat(log.segs) && DurableTail(c, log, d) <= DurableTail(c, log', d')
    && Spots(c, log', d') <= Spots(c, log, d)
  }

  lemma RetriesSame(c: Codec, log: Log, d: Disk)
    requires CrashSafe(c, log, d)
    ensures Retries(c, log, d, log, d)
  {
    hide Boundary, Position, DistinctIds, DurableTail, Flat, Spots, Holds, HeadOk, LogOk;
  }

  lemma RetriesTwice(c: Codec, log: Log, d: Disk, log1: Log, d1: Disk, log2: Log, d2: Disk)
    requires Retries(c, log, d, log1, d1) && Retries(c, log1, d1, log2, d2)
    ensures Retries(c, log, d, log2, d2)
  {
    hide CrashSafe, DiskInv, DurableTail, Flat, Spots;
  }

  // ---- Truncating what a process that died left ------------------------------------------

  /** The newest segment of a directory no crash has tested. */
  ghost predicate Untested(c: Codec, log: Log, d: Disk, size: nat) {
    && DiskInv(c, log, d) && log.segs != [] && LastId(log) in d.files && HasTop(log, Cached(d)) && MaxOf(Cached(d).files.Keys) == LastId(log)
    && var es, data := Active(log.segs), d.files[LastId(log)].data;
       |data| >= SEGMENT_HEADER_SIZE && size == Offset(c, es, WholeIn(c, es, |data| - SEGMENT_HEADER_SIZE))
  }

  lemma UntestedFile(c: Codec, log: Log, d: Disk, size: nat)
    requires Untested(c, log, d, size)
    ensures log.segs != [] && LastId(log) in d.files && Holds(c, log, LastId(log), d.files[LastId(log)])
    ensures SEGMENT_HEADER_SIZE <= size <= |d.files[LastId(log)].data|
    ensures var kept := Survivors(c, log, Cached(d));
            && LastId(kept) == LastId(log) && kept.first == log.first && kept.stale == log.stale
            && kept.segs[..|kept.segs| - 1] == log.segs[..|log.segs| - 1] && Active(kept.segs) <= Active(log.segs)
            && d.files[LastId(log)].data[..size] == Image(c, LastId(log), Active(kept.segs)) && size == Size(c, Active(kept.segs))
  {
    hide LogOk, HeadOk, WholeIn, Image;
    var es, f := Active(log.segs), d.files[LastId(log)];
    assert Holds(c, log, LastId(log), f);
    TornTail(c, LastId(log), es, f.data);
    CutKeepsPrefix(c, LastId(log), es, f.data, WholeIn(c, es, |f.data| - SEGMENT_HEADER_SIZE));
  }

  lemma InvParts(c: Codec, log: Log, d: Disk)
    requires DiskInv(c, log, d)
    ensures LogOk(c, log) && log.segs != [] && LastId(log) in d.files
    ensures forall s | s in d.files :: Holds(c, log, s, d.files[s])
    ensures forall s | s in d.dropped :: Holds(c, log, s, d.dropped[s]) && s < LastId(log)
    ensures forall cur | cur in Heads(d) :: HeadOk(c, log, d, cur)
    ensures d.recent <= {LastId(log)} && (d.recent != {} ==> Active(log.segs) == []) && d.head.Some?
  {
    hide Holds, HeadOk, AllStorable;
  }

  /** The cursor keeps its place. */
  ghost predicate Stays(c: Codec, log: Log, kept: Log, cur: Cursor) {
    Boundary(c, log, cur) && Boundary(c, kept, cur) && Position(c, kept, cur) == Position(c, log, cur)
  }

  lemma HeadBytes(c: Codec, log: Log, d: Disk, cur: Cursor)
    requires DiskInv(c, log, d) && cur in Heads(d)
    ensures HeadOk(c, log, d, cur) && Boundary(c, log, cur) && cur.segment in d.files
    ensures cur.offset <= |d.files[cur.segment].data|
  {
    InvParts(c, log, d);
    hide Boundary, LogOk, DiskInv, Heads, Image;
    assert Holds(c, log, cur.segment, d.files[cur.segment]);
  }

  lemma TornHead(c: Codec, log: Log, d: Disk, size: nat, cur: Cursor)
    requires Untested(c, log, d, size) && cur in Heads(d)
    ensures HeadOk(c, log, d, cur) && Stays(c, log, Survivors(c, log, Cached(d)), cur)
    ensures log.segs != [] && (cur.segment == LastId(log) ==> cur.offset <= size)
  {
    hide *;
    CachedTop(c, log, d, size);
    HeadBytes(c, log, d, cur);
    CursorSurvives(c, log, Cached(d), cur);
    StaysIs(c, log, Survivors(c, log, Cached(d)), cur);
    if cur.segment == LastId(log) { BeforeCut(c, log, cur, |d.files[LastId(log)].data|, size); }
  }

  lemma StaysIs(c: Codec, log: Log, kept: Log, cur: Cursor)
    requires Boundary(c, log, cur) && Boundary(c, kept, cur) && Position(c, kept, cur) == Position(c, log, cur)
    ensures Stays(c, log, kept, cur)
  {
    hide Boundary, Position;
  }

  lemma CachedTop(c: Codec, log: Log, d: Disk, size: nat)
    requires Untested(c, log, d, size)
    ensures log.segs != [] && LastId(log) in d.files && DiskInv(c, log, d) && HasTop(log, Cached(d))
    ensures Cached(d).files.Keys == d.files.Keys != {}
    ensures log.first <= MaxOf(Cached(d).files.Keys) <= LastId(log)
    ensures |Cached(d).files[MaxOf(Cached(d).files.Keys)].data| >= SEGMENT_HEADER_SIZE
    ensures forall s | s in d.files :: Cached(d).files[s].data == d.files[s].data
    ensures |d.files[LastId(log)].data| >= SEGMENT_HEADER_SIZE
    ensures size == Offset(c, Active(log.segs), WholeIn(c, Active(log.segs), |d.files[LastId(log)].data| - SEGMENT_HEADER_SIZE))
  {
    hide DiskInv, WholeIn, Blob, MaxOf;
  }

  lemma BeforeCut(c: Codec, log: Log, cur: Cursor, length: nat, size: nat)
    requires Boundary(c, log, cur) && log.segs != [] && cur.segment == LastId(log) && cur.offset <= length
    requires length >= SEGMENT_HEADER_SIZE && size == Offset(c, Active(log.segs), WholeIn(c, Active(log.segs), length - SEGMENT_HEADER_SIZE))
    ensures cur.offset <= size
  {
    hide Blob, WholeIn, Boundary;
    BoundaryOffset(c, log, cur);
    WholeInMonotone(c, Active(log.segs), cur.offset - SEGMENT_HEADER_SIZE, length - SEGMENT_HEADER_SIZE);
    PrefixBlob(c, Active(log.segs), WholeIn(c, Active(log.segs), cur.offset - SEGMENT_HEADER_SIZE),
               WholeIn(c, Active(log.segs), length - SEGMENT_HEADER_SIZE));
  }

  lemma SameRecords(c: Codec, log: Log, kept: Log, s: nat, f: File)
    requires Holds(c, log, s, f) && s < LastId(log)
    requires kept.segs != [] && LastId(kept) == LastId(log) && kept.first == log.first && kept.stale == log.stale
    requires kept.segs[..|kept.segs| - 1] == log.segs[..|log.segs| - 1]
    ensures Holds(c, kept, s, f)
  {
    hide Image;
    if s >= log.first { assert kept.segs[s - log.first] == kept.segs[..|kept.segs| - 1][s - log.first]; }
  }

  /** Its torn tail truncated, but not yet synced. */
  lemma TornInv(c: Codec, log: Log, d: Disk, size: nat)
    requires Untested(c, log, d, size)
    ensures LastId(log) in d.files && size <= |d.files[LastId(log)].data|
    ensures DiskInv(c, Survivors(c, log, Cached(d)), Truncate(d, LastId(log), size))
  {
    InvParts(c, log, d);
    UntestedFile(c, log, d, size);
    SurvivorsLogOk(c, log, d, Cached(d));
    hide Boundary, Position, WholeIn, Image, Blob, LogOk, Holds, Survivors, MaxOf, DiskInv, HasTop;
    TornFiles(c, log, d, size);
    forall cur | cur in Heads(d)
      ensures HeadOk(c, Survivors(c, log, Cached(d)), Truncate(d, LastId(log), size), cur)
    {
      TornHead(c, log, d, size, cur);
    }
    TornWhole(c, log, d, size);
  }

  lemma InvFrom(c: Codec, log: Log, d: Disk)
    requires LogOk(c, log) && LastId(log) in d.files && d.head.Some? && d.recent <= {LastId(log)}
    requires forall s | s in d.files :: Holds(c, log, s, d.files[s])
    requires forall s | s in d.dropped :: Holds(c, log, s, d.dropped[s]) && s < LastId(log)
    requires d.recent != {} ==> Active(log.segs) == []
    requires forall cur | cur in Heads(d) :: HeadOk(c, log, d, cur)
    ensures DiskInv(c, log, d)
  {
    hide Holds, HeadOk, LogOk, Active, LastId, Heads;
  }

  lemma TornShape(c: Codec, log: Log, d: Disk, size: nat)
    requires Untested(c, log, d, size) && LastId(log) in d.files && size <= |d.files[LastId(log)].data|
    ensures var d' := Truncate(d, LastId(log), size);
            d'.head.Some? && d'.recent <= {LastId(log)} && d'.files.Keys == d.files.Keys && Heads(d') == Heads(d)
  {
    InvParts(c, log, d);
    hide Holds, HeadOk, MaxOf, HasTop, WholeIn, Untested, LogOk, Active, LastId, DiskInv;
  }

  lemma TornWhole(c: Codec, log: Log, d: Disk, size: nat)
    requires Untested(c, log, d, size) && LastId(log) in d.files && size <= |d.files[LastId(log)].data|
    requires var kept, d' := Survivors(c, log, Cached(d)), Truncate(d, LastId(log), size);
             && LogOk(c, kept) && (forall s | s in d'.files :: Holds(c, kept, s, d'.files[s]))
             && (forall s | s in d'.dropped :: Holds(c, kept, s, d'.dropped[s]) && s < LastId(kept))
             && (d'.recent != {} ==> Active(kept.segs) == []) && (forall cur | cur in Heads(d) :: HeadOk(c, kept, d', cur))
    ensures DiskInv(c, Survivors(c, log, Cached(d)), Truncate(d, LastId(log), size))
  {
    UntestedFile(c, log, d, size);
    TornShape(c, log, d, size);
    hide *;
    InvFrom(c, Survivors(c, log, Cached(d)), Truncate(d, LastId(log), size));
  }

  lemma TornFiles(c: Codec, log: Log, d: Disk, size: nat)
    requires Untested(c, log, d, size) && LastId(log) in d.files && size <= |d.files[LastId(log)].data|
    ensures var kept, d' := Survivors(c, log, Cached(d)), Truncate(d, LastId(log), size);
            && (forall s | s in d'.files :: Holds(c, kept, s, d'.files[s]))
            && (forall s | s in d'.dropped :: Holds(c, kept, s, d'.dropped[s]) && s < LastId(kept))
            && (d'.recent != {} ==> Active(kept.segs) == [])
  {
    InvParts(c, log, d);
    UntestedFile(c, log, d, size);
    hide WholeIn, Image, Blob, LogOk, HeadOk, Survivors, MaxOf, HasTop, DiskInv, Untested, Heads, Holds;
    var kept, d' := Survivors(c, log, Cached(d)), Truncate(d, LastId(log), size);
    forall s | s in d'.files
      ensures Holds(c, kept, s, d'.files[s])
    {
      if s == LastId(log) { TornActive(c, log, d, size); } else { BelowLast(c, log, d, s); SameRecords(c, log, kept, s, d.files[s]); }
    }
    forall s | s in d'.dropped
      ensures Holds(c, kept, s, d'.dropped[s]) && s < LastId(kept)
    {
      SameRecords(c, log, kept, s, d.dropped[s]);
    }
  }

  lemma BelowLast(c: Codec, log: Log, d: Disk, s: nat)
    requires DiskInv(c, log, d) && s in d.files
    ensures s <= LastId(log)
  {
    InvParts(c, log, d);
    hide HeadOk, LogOk, Image, DiskInv;
    assert Holds(c, log, s, d.files[s]);
  }

  lemma TornActive(c: Codec, log: Log, d: Disk, size: nat)
    requires Untested(c, log, d, size) && LastId(log) in d.files && size <= |d.files[LastId(log)].data|
    ensures Holds(c, Survivors(c, log, Cached(d)), LastId(log), Truncate(d, LastId(log), size).files[LastId(log)])
  {
    UntestedFile(c, log, d, size);
    hide WholeIn, Image, Blob, LogOk, HeadOk, Survivors, MaxOf, HasTop, DiskInv, Untested, Heads;
  }

  /** Truncating the torn tail of a process that died. */
  lemma TornRetries(c: Codec, log: Log, d: Disk, size: nat)
    requires Untested(c, log, d, size) && CrashSafe(c, log, d) && Crash(d, Cached(d))
    ensures LastId(log) in d.files && size <= |d.files[LastId(log)].data|
    ensures Retries(c, log, d, Survivors(c, log, Cached(d)), Truncate(d, LastId(log), size))
  {
    CachedTop(c, log, d, size);
    TornInv(c, log, d, size);
    hide Untested, CrashSafe, DiskInv, Flat, DurableTail, Survivors, Truncate, Crash, HasTop, MaxOf, Load;
    hide LogEntries, Blob, WholeIn;
    hide Boundary, Position, Heads, Spots;
    SafeRecovers(c, log, d, Cached(d));
    TornSpots(c, log, d, size);
    TornSafe(c, log, d, size);
    TornDurable(c, log, d, size);
  }

  lemma TornSpots(c: Codec, log: Log, d: Disk, size: nat)
    requires Untested(c, log, d, size) && LastId(log) in d.files && size <= |d.files[LastId(log)].data|
    ensures Spots(c, Survivors(c, log, Cached(d)), Truncate(d, LastId(log), size)) <= Spots(c, log, d)
  {
    CachedTop(c, log, d, size);
    hide Untested, Boundary, Position, Survivors, HasTop, MaxOf, Flat, HeadOk, DiskInv, WholeIn, Blob;
    var kept := Survivors(c, log, Cached(d));
    assert Heads(Truncate(d, LastId(log), size)) == Heads(d);
    hide Heads, Truncate;
    forall cur | cur in Heads(d) && Boundary(c, kept, cur)
      ensures Boundary(c, log, cur) && Position(c, kept, cur) == Position(c, log, cur)
    {
      TornHead(c, log, d, size, cur);
    }
  }

  lemma TornSafe(c: Codec, log: Log, d: Disk, size: nat)
    requires Untested(c, log, d, size) && CrashSafe(c, log, d)
    requires LastId(log) in d.files && size <= |d.files[LastId(log)].data|
    requires var kept := Survivors(c, log, Cached(d));
             Flat(kept.segs) <= Flat(log.segs) && DiskInv(c, kept, Truncate(d, LastId(log), size))
    ensures CrashSafe(c, Survivors(c, log, Cached(d)), Truncate(d, LastId(log), size))
  {
    CachedTop(c, log, d, size);
    hide Untested, DiskInv, Boundary, Position, Survivors, HasTop, MaxOf, Flat, HeadOk, DistinctIds, WholeIn, Blob;
    var kept := Survivors(c, log, Cached(d));
    assert Heads(Truncate(d, LastId(log), size)) == Heads(d);
    hide Heads, Truncate;
    forall cur | cur in Heads(d) && Boundary(c, kept, cur)
      ensures DistinctIds(Flat(kept.segs)[Position(c, kept, cur)..])
    {
      TornHead(c, log, d, size, cur);
      PrefixDistinct(Flat(kept.segs), Flat(log.segs), Position(c, kept, cur));
    }
  }

  lemma TornDurable(c: Codec, log: Log, d: Disk, size: nat)
    requires Untested(c, log, d, size) && LastId(log) in d.files && size <= |d.files[LastId(log)].data|
    requires var kept := Survivors(c, log, Cached(d));
             DiskInv(c, kept, Truncate(d, LastId(log), size)) && DurableTail(c, log, d) <= |Flat(kept.segs)|
    ensures DiskInv(c, log, d)
    ensures DurableTail(c, log, d) <= DurableTail(c, Survivors(c, log, Cached(d)), Truncate(d, LastId(log), size))
  {
    CachedTop(c, log, d, size);
    UntestedFile(c, log, d, size);
    hide *;
    var kept, d', synced := Survivors(c, log, Cached(d)), Truncate(d, LastId(log), size), d.files[LastId(log)].synced;
    DurableWithin(c, kept, d');
    TailOf(c, log, d);
    TailOf(c, kept, d');
    TruncatedSync(d, LastId(log), size);
    if synced <= size {
      SplitActive(log, kept);
      CountSame(c, kept.segs, log.segs, Active(log.segs)[|Active(kept.segs)|..], synced);
    }
  }

  lemma TailOf(c: Codec, log: Log, d: Disk)
    requires DiskInv(c, log, d)
    ensures log.segs != [] && LastId(log) in d.files && d.files[LastId(log)].synced >= SEGMENT_HEADER_SIZE
    ensures DurableTail(c, log, d) == DurableCount(c, log.segs, d.files[LastId(log)].synced)
  {
    ActiveFile(c, log, d);
    hide DiskInv, DurableCount;
  }

  lemma TruncatedSync(d: Disk, id: nat, size: nat)
    requires id in d.files && size <= |d.files[id].data|
    ensures id in Truncate(d, id, size).files
    ensures Truncate(d, id, size).files[id].synced == if d.files[id].synced <= size then d.files[id].synced else size
  {
  }

  lemma SplitActive(log: Log, kept: Log)
    requires log.segs != [] && kept.segs != [] && Active(kept.segs) <= Active(log.segs)
    ensures Active(log.segs) == Active(kept.segs) + Active(log.segs)[|Active(kept.segs)|..]
  {
  }

  /** What a new process finds, with its torn tail truncated and nothing synced. */
  lemma RepairRetries(c: Codec, log: Log, d0: Disk, found: Disk, last: nat)
    requires CrashSafe(c, log, d0) && Found(d0, found) && found.files.Keys != {} && last == MaxOf(found.files.Keys)
    ensures HasTop(log, Cached(found)) && last in Cached(found).files && ScanOf(c, Cached(found), last).Scanned?
    ensures var size := ScanOf(c, Cached(found), last).size;
            && size <= |found.files[last].data| && LastId(Survivors(c, log, Cached(found))) == last
            && Retries(c, log, d0, Survivors(c, log, Cached(found)), Truncate(found, last, size))
  {
    hide CrashSafe, DiskInv, Flat, DurableTail, Survivors, Truncate, HasTop, Load, LogEntries, Blob, WholeIn, Scans;
    hide Settled;
    hide Boundary, Position, Spots, Repaired, Found, Crash, Heads, ScanFile, Retries;
    SafeInv(c, log, d0);
    FoundFiles(c, log, d0, found);
    CachedAs(found);
    CrashTopSafe(c, log, d0, Cached(found));
    OpenedFacts(c, log, d0, Cached(found));
    ScansActive(c, Survivors(c, log, Cached(found)), Cached(found));
    FoundIs(d0, found);
    if found == d0 {
      DiedUntested(c, log, d0, last);
      TornRetries(c, log, d0, ScanOf(c, Cached(found), last).size);
    } else {
      CrashFound(c, log, d0, found);
      CrashedRetries(c, log, d0, found, last);
    }
  }

  lemma CrashFound(c: Codec, log: Log, d0: Disk, found: Disk)
    requires DiskInv(c, log, d0) && Crash(d0, found)
    ensures Cached(found) == found && found.older == {}
  {
    hide DiskInv, Crash;
    CrashClean(d0, found);
    forall s | s in found.files
      ensures found.files[s].synced == |found.files[s].data|
    {
      CrashFile(c, log, d0, found, s);
    }
  }

  lemma FoundIs(d0: Disk, found: Disk)
    requires Found(d0, found)
    ensures found == d0 || Crash(d0, found)
  {
    hide Crash;
  }

  lemma CachedAs(d: Disk)
    ensures Cached(d).files.Keys == d.files.Keys && forall s | s in d.files :: Cached(d).files[s].data == d.files[s].data
  {
  }

  lemma DiedUntested(c: Codec, log: Log, d: Disk, last: nat)
    requires DiskInv(c, log, d) && HasTop(log, Cached(d)) && d.files.Keys != {} && last == MaxOf(d.files.Keys)
    requires Cached(d).files.Keys == d.files.Keys && ScanOf(c, Cached(d), last).Scanned?
    requires ScanOf(c, Cached(d), last).size == Size(c, Active(Survivors(c, log, Cached(d)).segs))
    ensures Untested(c, log, d, ScanOf(c, Cached(d), last).size) && last == LastId(log)
  {
    hide *;
    TailOf(c, log, d);
    LastFound(c, log, d, last);
    CachedAs(d);
    LastLength(c, log, d);
    SurvivorSize(c, log, Cached(d));
    UntestedIs(c, log, d, ScanOf(c, Cached(d), last).size);
  }

  lemma LastFound(c: Codec, log: Log, d: Disk, last: nat)
    requires DiskInv(c, log, d) && log.segs != [] && LastId(log) in d.files
    requires d.files.Keys != {} && last == MaxOf(d.files.Keys)
    ensures last == LastId(log)
  {
    hide DiskInv;
    BelowLast(c, log, d, last);
    assert LastId(log) in d.files.Keys;
  }

  lemma SurvivorSize(c: Codec, log: Log, image: Disk)
    requires HasTop(log, image) && image.files.Keys != {} && log.segs != [] && MaxOf(image.files.Keys) == LastId(log)
    ensures LastId(log) in image.files && |image.files[LastId(log)].data| >= SEGMENT_HEADER_SIZE
    ensures var es := Active(log.segs);
            Size(c, Active(Survivors(c, log, image).segs)) == Offset(c, es, WholeIn(c, es, |image.files[LastId(log)].data| - SEGMENT_HEADER_SIZE))
  {
    hide Blob, WholeIn;
  }

  lemma UntestedIs(c: Codec, log: Log, d: Disk, size: nat)
    requires DiskInv(c, log, d) && log.segs != [] && LastId(log) in d.files && HasTop(log, Cached(d))
    requires Cached(d).files.Keys != {} && MaxOf(Cached(d).files.Keys) == LastId(log)
    requires |d.files[LastId(log)].data| >= SEGMENT_HEADER_SIZE
    requires size == Offset(c, Active(log.segs), WholeIn(c, Active(log.segs), |d.files[LastId(log)].data| - SEGMENT_HEADER_SIZE))
    ensures Untested(c, log, d, size)
  {
    hide DiskInv, HasTop, MaxOf, WholeIn, Blob;
  }

  lemma LastLength(c: Codec, log: Log, d: Disk)
    requires DiskInv(c, log, d)
    ensures log.segs != [] && LastId(log) in d.files && |d.files[LastId(log)].data| >= SEGMENT_HEADER_SIZE
  {
    InvParts(c, log, d);
    hide DiskInv, HeadOk, LogOk, Image;
    assert Holds(c, log, LastId(log), d.files[LastId(log)]);
  }

  /** After a crash of the machine every byte found is durable. */
  lemma CrashedRetries(c: Codec, log: Log, d0: Disk, found: Disk, last: nat)
    requires CrashSafe(c, log, d0) && Crash(d0, found) && found.files.Keys != {} && last == MaxOf(found.files.Keys)
    requires Cached(found) == found && HasTop(log, found) && ScanOf(c, found, last).Scanned?
    requires ScanOf(c, found, last).size <= |found.files[last].data|
    ensures Retries(c, log, d0, Survivors(c, log, found), Truncate(found, last, ScanOf(c, found, last).size))
  {
    hide CrashSafe, DiskInv, Flat, DurableTail, Survivors, HasTop, Load, LogEntries, Blob, WholeIn, Scans, Settled;
    hide MaxOf;
    hide Boundary, Position, Spots, Repaired, Crash, Heads, ScanFile;
    SafeInv(c, log, d0);
    SettledSafe(c, log, d0, found);
    OpenedFacts(c, log, d0, found);
    SafeRecovers(c, log, d0, found);
    SettledInv(c, Survivors(c, log, found), Repaired(c, found));
    CrashFile(c, log, d0, found, last);
    TruncateRepairs(c, found, last);
    CrashedSpots(c, log, d0, found);
  }

  lemma TruncateRepairs(c: Codec, found: Disk, last: nat)
    requires found.files.Keys != {} && last == MaxOf(found.files.Keys) && found.files[last].synced == |found.files[last].data|
    requires ScanOf(c, found, last).Scanned? && ScanOf(c, found, last).size <= |found.files[last].data|
    ensures Truncate(found, last, ScanOf(c, found, last).size) == Repaired(c, found)
  {
    hide ScanFile, MaxOf;
    var size := ScanOf(c, found, last).size;
    assert Truncate(found, last, size).files == Fsync(Truncate(found, last, size), last).files;
  }

  lemma CrashedSpots(c: Codec, log: Log, d0: Disk, found: Disk)
    requires found.head.Some? && found.head.value in Heads(d0) && Boundary(c, log, found.head.value) && HasTop(log, found)
    requires Boundary(c, Survivors(c, log, found), found.head.value)
    requires Position(c, Survivors(c, log, found), found.head.value) == Position(c, log, found.head.value)
    requires found.files.Keys != {} && ScanOf(c, found, MaxOf(found.files.Keys)).Scanned? && found.older == {}
    requires ScanOf(c, found, MaxOf(found.files.Keys)).size <= |found.files[MaxOf(found.files.Keys)].data|
    ensures Spots(c, Survivors(c, log, found), Repaired(c, found)) <= Spots(c, log, d0)
  {
    hide Boundary, Position, Survivors, HasTop, ScanFile, MaxOf;
    assert Heads(Repaired(c, found)) == {found.head.value};
  }

  /** Syncing the newest segment and the directory changes nothing of that. */
  lemma SyncRetries(c: Codec, log: Log, d: Disk)
    requires CrashSafe(c, log, d)
    ensures log.segs != [] && LastId(log) in d.files
    ensures Retries(c, log, d, log, Fsync(d, LastId(log))) && Retries(c, log, d, log, Barrier(d))
  {
    SafeInv(c, log, d);
    InvParts(c, log, d);
    FsyncSafe(c, log, d);
    BarrierSafe(c, log, d);
    SafeInv(c, log, Fsync(d, LastId(log)));
    SafeInv(c, log, Barrier(d));
    SyncedMore(c, log, d);
    HeadsKept(d, LastId(log));
    SpotsSame(c, log, d, Fsync(d, LastId(log)));
    SpotsSame(c, log, d, Barrier(d));
    hide CrashSafe, DiskInv, Flat, DurableTail, Fsync, Barrier, Spots, Heads;
    SameTailAdvances(c, log, d, Fsync(d, LastId(log)), 0, 0);
    SameTailAdvances(c, log, d, Barrier(d), 0, 0);
  }

  lemma SyncedMore(c: Codec, log: Log, d: Disk)
    requires DiskInv(c, log, d) && log.segs != [] && LastId(log) in d.files
    ensures Fsync(d, LastId(log)).files[LastId(log)].synced >= d.files[LastId(log)].synced
    ensures Barrier(d).files[LastId(log)].synced >= d.files[LastId(log)].synced
  {
    InvParts(c, log, d);
    hide DiskInv, HeadOk, LogOk, Image;
    assert Holds(c, log, LastId(log), d.files[LastId(log)]);
  }

  // ---- Facts openings need ----------------------------------------------------------------

  lemma FoundSame(d: Disk)
    ensures Found(d, d)
  {
    hide Crash;
  }

  lemma TruncatesNothing(d: Disk, last: nat)
    requires last in d.files && d.files[last].synced <= |d.files[last].data|
    ensures Truncate(d, last, |d.files[last].data|) == d
  {
    var data := d.files[last].data;
    assert data[..|data|] == data;
    assert Truncate(d, last, |data|).files == d.files;
  }

  lemma FsyncRetries(c: Codec, log0: Log, d0: Disk, log: Log, d: Disk)
    requires Retries(c, log0, d0, log, d)
    ensures log.segs != [] && LastId(log) in d.files && Retries(c, log0, d0, log, Fsync(d, LastId(log)))
  {
    RetriesSafe(c, log0, d0, log, d);
    hide Retries, CrashSafe, DiskInv, Fsync, Barrier;
    SyncRetries(c, log, d);
    RetriesTwice(c, log0, d0, log, d, log, Fsync(d, LastId(log)));
  }

  lemma BarrierRetries(c: Codec, log0: Log, d0: Disk, log: Log, d: Disk)
    requires Retries(c, log0, d0, log, d)
    ensures Retries(c, log0, d0, log, Barrier(d))
  {
    RetriesSafe(c, log0, d0, log, d);
    hide Retries, CrashSafe, DiskInv, Fsync, Barrier;
    SyncRetries(c, log, d);
    RetriesTwice(c, log0, d0, log, d, log, Barrier(d));
  }

  lemma RetriesSafe(c: Codec, log: Log, d: Disk, log': Log, d': Disk)
    requires Retries(c, log, d, log', d')
    ensures CrashSafe(c, log, d) && CrashSafe(c, log', d') && DiskInv(c, log, d) && DiskInv(c, log', d')
    ensures Flat(log'.segs) <= Flat(log.segs) && DurableTail(c, log, d) <= DurableTail(c, log', d')
    ensures Spots(c, log', d') <= Spots(c, log, d)
  {
    hide CrashSafe, DiskInv, Flat, DurableTail, Spots;
  }

  /** What a crash leaves after failed openings is still something the queue allows. */
  lemma RetriesRecovers(c: Codec, q: Queue, log: Log, d: Disk, log': Log, d': Disk, image: Disk) returns (pending: seq<Envelope>)
    requires Leaves(c, q, log, d) && Retries(c, log, d, log', d') && Crash(d', image)
    ensures q.Recovers(pending)
    ensures HasTop(log', image) && image.head.Some? && Boundary(c, log', image.head.value)
    ensures Position(c, log', image.head.value) <= |Flat(Survivors(c, log', image).segs)|
    ensures pending == Flat(Survivors(c, log', image).segs)[Position(c, log', image.head.value)..]
  {
    RetriesSafe(c, log, d, log', d');
    var q' := q.(items := Flat(log'.segs));
    RetriesLeaves(c, q, log, d, log', d');
    hide Retries, Leaves, CrashSafe, DiskInv, Flat, DurableTail, Spots, Crash, Survivors, HasTop, Boundary;
    hide Position, Load, ReadsAs;
    hide QueueSpec.Queue.Recovers;
    pending := LeavesRecovers(c, q', log', d', image);
    FewerRecover(q, q', pending);
  }

  lemma RetriesLeaves(c: Codec, q: Queue, log: Log, d: Disk, log': Log, d': Disk)
    requires Leaves(c, q, log, d) && Retries(c, log, d, log', d')
    ensures Flat(log'.segs) <= q.items && Leaves(c, q.(items := Flat(log'.segs)), log', d')
  {
    RetriesSafe(c, log, d, log', d');
    hide CrashSafe, DiskInv, Flat, DurableTail, Boundary, Position, Heads, Retries;
    forall cur | cur in Heads(d') && Boundary(c, log', cur)
      ensures Position(c, log', cur) in q.heads
    {
      assert Position(c, log', cur) in Spots(c, log', d');
    }
  }

  lemma FewerRecover(q: Queue, q': Queue, pending: seq<Envelope>)
    requires q'.items <= q.items && q' == q.(items := q'.items) && q'.Recovers(pending)
    ensures q.Recovers(pending)
  {
    var from, to: nat :| from in q'.heads && from <= to && q'.durable <= to <= |q'.items| && pending == q'.items[from..to];
    assert pending == q.items[from..to];
  }

  /** And still within the call that was cut short. */
  lemma RetriesWithin(c: Codec, before: seq<Snapshot>, after: seq<Snapshot>, b: Bounds, j: nat, log: Log, d: Disk,
                      cur: Cursor, kept: seq<Envelope>)
    requires Run(c, after) && before != [] && Moments(before, after, b) && |before| <= j < |after|
    requires Retries(c, after[j].log, after[j].disk, log, d) && cur in Heads(d) && Boundary(c, log, cur)
    requires DiskInv(c, log, d) && kept <= Flat(log.segs) && DurableTail(c, log, d) <= |kept|
    ensures Position(c, log, cur) in b.spots && kept <= b.plan
    ensures var a := before[|before| - 1]; DiskInv(c, a.log, a.disk) && DurableTail(c, a.log, a.disk) <= |kept|
  {
    RetriesSafe(c, after[j].log, after[j].disk, log, d);
    hide Retries, CrashSafe, DiskInv, Flat, DurableTail, Boundary, Position, Run, Heads;
    RunPair(c, after, |before| - 1, j);
    assert Within(after[j], b);
    assert Position(c, log, cur) in Spots(c, log, d);
  }
}
