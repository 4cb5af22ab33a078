/** What the directory of a running Outbox holds, and what reopening it after a
    crash returns. */
module Recovery {
  import opened Wrappers
  import opened Framing
  import opened Layout
  import opened Directory
  import opened Loading

  /** Every record appended to the segments from ID `first` on, and the contents
      of older, completed segments that may still be on disk. */
  datatype Log = Log(first: nat, segs: Segments, stale: map<nat, seq<Envelope>>)

  function LastId(log: Log): nat
    requires log.segs != []
  {
    log.first + |log.segs| - 1
  }

  ghost predicate LogOk(c: Codec, log: Log) {
    && log.segs != [] && LastId(log) <= MAX_SEGMENT_ID
    && (forall i | 0 <= i < |log.segs| :: AllStorable(c, log.segs[i]))
    && (forall s | s in log.stale :: s < log.first && AllStorable(c, log.stale[s]))
  }

  predicate Known(log: Log, s: nat)
    requires log.segs != []
  {
    log.first <= s <= LastId(log) || (s in log.stale && s < log.first)
  }

  function Records(log: Log, s: nat): seq<Envelope>
    requires log.segs != [] && Known(log, s)
  {
    if s < log.first then log.stale[s] else log.segs[s - log.first]
  }

  lemma RecordsStorable(c: Codec, log: Log, s: nat)
    requires LogOk(c, log) && Known(log, s)
    ensures AllStorable(c, Records(log, s)) && s <= MAX_SEGMENT_ID
  {
  }

  /** File `f` holds segment `s`: wholly and durably when the segment is closed,
      at least up to the synced boundary when it is active. */
  ghost predicate Holds(c: Codec, log: Log, s: nat, f: File) {
    && log.segs != [] && Known(log, s)
    && f.data <= Image(c, s, Records(log, s))
    && SEGMENT_HEADER_SIZE <= f.synced <= |f.data|
    && (s < LastId(log) ==> f.synced == |Image(c, s, Records(log, s))|)
  }

  /** A cursor at a record boundary of the log. */
  ghost predicate Boundary(c: Codec, log: Log, cur: Cursor) {
    && log.segs != [] && log.first <= cur.segment <= LastId(log)
    && cur.offset >= SEGMENT_HEADER_SIZE
    && var es := log.segs[cur.segment - log.first];
       Offset(c, es, WholeIn(c, es, cur.offset - SEGMENT_HEADER_SIZE)) == cur.offset
  }

  lemma FlatSplit(segs: Segments, i: nat)
    requires i < |segs|
    ensures Flat(segs) == Flat(segs[..i]) + segs[i] + Flat(segs[i + 1..])
  {
    assert segs == segs[..i] + segs[i..];
    FlatConcat(segs[..i], segs[i..]);
    assert segs[i..][1..] == segs[i + 1..];
  }

  /** The number of records before a cursor. */
  ghost function Position(c: Codec, log: Log, cur: Cursor): (p: nat)
    requires Boundary(c, log, cur)
    ensures p <= |Flat(log.segs)|
  {
    var i := cur.segment - log.first;
    FlatSplit(log.segs, i);
    |Flat(log.segs[..i])| + WholeIn(c, log.segs[i], cur.offset - SEGMENT_HEADER_SIZE)
  }

  /** A checkpoint that survives a crash: at a synced record boundary of a
      durably linked segment, with every later segment present. */
  ghost predicate HeadOk(c: Codec, log: Log, d: Disk, cur: Cursor) {
    && Boundary(c, log, cur)
    && cur.segment in d.files && cur.segment !in d.recent
    && cur.offset <= d.files[cur.segment].synced
    && forall s: nat | cur.segment <= s <= LastId(log) :: s in d.files
  }

  /** The directory invariant, kept by every system call the Outbox makes. */
  ghost predicate DiskInv(c: Codec, log: Log, d: Disk) {
    && LogOk(c, log)
    && (forall s | s in d.files :: Holds(c, log, s, d.files[s]))
    && (forall s | s in d.dropped :: Holds(c, log, s, d.dropped[s]) && s < LastId(log))
    && LastId(log) in d.files
    && d.recent <= {LastId(log)} && (d.recent != {} ==> Active(log.segs) == [])
    && d.head.Some?
    && (forall cur | cur in Heads(d) :: HeadOk(c, log, d, cur))
  }

  /** Records that survive any crash: those of closed segments and the synced
      ones of the active segment. */
  function DurableCount(c: Codec, segs: Segments, synced: nat): nat
    requires segs != [] && synced >= SEGMENT_HEADER_SIZE
  {
    |Flat(segs[..|segs| - 1])| + WholeIn(c, Active(segs), synced - SEGMENT_HEADER_SIZE)
  }

  ghost function DurableTail(c: Codec, log: Log, d: Disk): nat
    requires DiskInv(c, log, d)
  {
    DurableCount(c, log.segs, d.files[LastId(log)].synced)
  }

  // ---- Index entries of the whole log ---------------------------------------

  function LogEntries(c: Codec, first: nat, segs: Segments): (r: seq<Stored>)
    ensures |r| == |Flat(segs)|
    decreases |segs|
  {
    if segs == [] then []
    else Entries(c, first, SEGMENT_HEADER_SIZE, segs[0]) + LogEntries(c, first + 1, segs[1..])
  }

  lemma {:induction false} LogEntriesConcat(c: Codec, first: nat, a: Segments, b: Segments)
    ensures LogEntries(c, first, a + b) == LogEntries(c, first, a) + LogEntries(c, first + |a|, b)
    decreases |a|
  {
    if a == [] {
      assert a + b == b;
    } else {
      LogEntriesConcat(c, first + 1, a[1..], b);
      assert (a + b)[1..] == a[1..] + b;
    }
  }

  lemma LogEntriesOne(c: Codec, id: nat, es: seq<Envelope>)
    ensures LogEntries(c, id, [es]) == Entries(c, id, SEGMENT_HEADER_SIZE, es)
  {
    assert [es][1..] == [];
    assert LogEntries(c, id + 1, []) == [];
  }

  lemma {:induction false} EntryIds(c: Codec, seg: nat, start: nat, es: seq<Envelope>, k: nat)
    requires k < |es|
    ensures Entries(c, seg, start, es)[k].id == es[k].id
    ensures Entries(c, seg, start, es)[k].segment == seg
    decreases k
  {
    if k > 0 { EntryIds(c, seg, start + |Frame(c, es[0])|, es[1..], k - 1); }
  }

  lemma {:induction false} LogEntryIds(c: Codec, first: nat, segs: Segments, k: nat)
    requires k < |Flat(segs)|
    ensures LogEntries(c, first, segs)[k].id == Flat(segs)[k].id
    decreases |segs|
  {
    if k < |segs[0]| {
      EntryIds(c, first, SEGMENT_HEADER_SIZE, segs[0], k);
    } else {
      LogEntryIds(c, first + 1, segs[1..], k - |segs[0]|);
    }
  }

  ghost predicate DistinctIds(es: seq<Envelope>) {
    forall i, j | 0 <= i < j < |es| :: es[i].id != es[j].id
  }

  // ---- Reopening a directory whose files hold exactly a log -------------------

  /** Every file scans to its segment of `log`, and the checkpoint is at a
      boundary with all later segments present. */
  ghost predicate Scans(c: Codec, log: Log, d: Disk) {
    && log.segs != [] && d.files.Keys != {} && MaxOf(d.files.Keys) == LastId(log)
    && (forall s | s in d.files :: Known(log, s) && ScanOf(c, d, s).Scanned?
         && ScanOf(c, d, s).entries == Entries(c, s, SEGMENT_HEADER_SIZE, Records(log, s))
         && ScanOf(c, d, s).size == Size(c, Records(log, s)))
    && d.head.Some? && Boundary(c, log, d.head.value)
    && (forall s: nat | d.head.value.segment <= s <= LastId(log) :: s in d.files)
  }

  lemma {:induction false} AfterLater(cur: Cursor, c: Codec, seg: nat, start: nat, es: seq<Envelope>)
    requires seg > cur.segment || (seg == cur.segment && start >= cur.offset)
    ensures After(cur, Entries(c, seg, start, es)) == Entries(c, seg, start, es)
    decreases |es|
  {
    if es != [] { AfterLater(cur, c, seg, start + |Frame(c, es[0])|, es[1..]); }
  }

  lemma {:induction false} AfterWithin(c: Codec, seg: nat, start: nat, es: seq<Envelope>, k: nat)
    requires k <= |es|
    ensures After(Cursor(seg, start + |Blob(c, es[..k])|), Entries(c, seg, start, es))
         == Entries(c, seg, start, es)[k..]
    decreases k
  {
    var cur := Cursor(seg, start + |Blob(c, es[..k])|);
    if k == 0 {
      AfterLater(cur, c, seg, start, es);
    } else {
      assert es[..k][1..] == es[1..][..k - 1];
      AfterWithin(c, seg, start + |Frame(c, es[0])|, es[1..], k - 1);
    }
  }

  lemma {:induction false} PendingLater(c: Codec, first: nat, segs: Segments, d: Disk, cur: Cursor, s: nat, last: nat)
    requires segs != [] && last == first + |segs| - 1
    requires first <= s <= last + 1 && cur.segment < s
    requires forall i: nat | s <= i <= last :: i in d.files && ScanOf(c, d, i).Scanned?
    requires forall i: nat | s <= i <= last :: ScanOf(c, d, i).entries == Entries(c, i, SEGMENT_HEADER_SIZE, segs[i - first])
    ensures PendingFrom(c, d, cur, s, last) == LogEntries(c, s, segs[s - first..])
    decreases last + 1 - s
  {
    hide Entries, ScanOf;
    if s <= last {
      AfterLater(cur, c, s, SEGMENT_HEADER_SIZE, segs[s - first]);
      PendingLater(c, first, segs, d, cur, s + 1, last);
      assert segs[s - first..][1..] == segs[s + 1 - first..];
    }
  }

  lemma SplitAt(c: Codec, log: Log, cur: Cursor)
    requires Boundary(c, log, cur)
    ensures var i := cur.segment - log.first;
            var k := WholeIn(c, log.segs[i], cur.offset - SEGMENT_HEADER_SIZE);
            && LogEntries(c, log.first, log.segs)[Position(c, log, cur)..]
               == Entries(c, cur.segment, SEGMENT_HEADER_SIZE, log.segs[i])[k..]
                  + LogEntries(c, cur.segment + 1, log.segs[i + 1..])
  {
    hide WholeIn, Offset, Entries, LogEntries, Flat;
    var i := cur.segment - log.first;
    var head, tail := log.segs[..i], log.segs[i..];
    assert log.segs == head + tail;
    assert tail == [log.segs[i]] + log.segs[i + 1..];
    LogEntriesConcat(c, log.first, head, tail);
    LogEntriesConcat(c, cur.segment, [log.segs[i]], log.segs[i + 1..]);
    LogEntriesOne(c, cur.segment, log.segs[i]);
  }

  /** Reopening a directory that holds a log returns the log from the checkpoint. */
  lemma LoadExact(c: Codec, log: Log, d: Disk)
    requires Scans(c, log, d)
    requires DistinctIds(Flat(log.segs)[Position(c, log, d.head.value)..])
    ensures Load(c, d) == Some(LogEntries(c, log.first, log.segs)[Position(c, log, d.head.value)..])
  {
    hide WholeIn, Entries, LogEntries, ScanOf, Boundary, Position, EffectiveHead, PendingFrom;
    var p := Position(c, log, d.head.value);
    HeadIsEffective(c, log, d);
    PendingExact(c, log, d);
    SuffixDistinct(c, log.first, log.segs, p);
  }

  lemma SuffixDistinct(c: Codec, first: nat, segs: Segments, p: nat)
    requires p <= |Flat(segs)| && DistinctIds(Flat(segs)[p..])
    ensures DistinctStored(LogEntries(c, first, segs)[p..])
  {
    var entries := LogEntries(c, first, segs)[p..];
    forall i, j | 0 <= i < j < |entries|
      ensures entries[i].id != entries[j].id
    {
      LogEntryIds(c, first, segs, p + i);
      LogEntryIds(c, first, segs, p + j);
      assert Flat(segs)[p..][i].id != Flat(segs)[p..][j].id;
    }
  }

  lemma HeadIsEffective(c: Codec, log: Log, d: Disk)
    requires Scans(c, log, d)
    ensures EffectiveHead(c, d) == d.head.value
  {
    hide ScanOf, Entries, Frame, Blob;
    var cur := d.head.value;
    var es := log.segs[cur.segment - log.first];
    assert cur.segment in d.files;
    var k := WholeIn(c, es, cur.offset - SEGMENT_HEADER_SIZE);
    if k == 0 {
      EmptyBlob(c, es);
    } else {
      EntryEnd(c, cur.segment, SEGMENT_HEADER_SIZE, es, k - 1);
      assert Entries(c, cur.segment, SEGMENT_HEADER_SIZE, es)[k - 1] in ScanOf(c, d, cur.segment).entries;
    }
  }

  lemma EmptyBlob(c: Codec, es: seq<Envelope>)
    ensures Blob(c, es[..0]) == []
  {
  }

  /** Record k of a segment occupies the bytes between two offsets. */
  lemma {:induction false} EntryEnd(c: Codec, seg: nat, start: nat, es: seq<Envelope>, k: nat)
    requires k < |es|
    ensures Entries(c, seg, start, es)[k].end == start + |Blob(c, es[..k + 1])|
    ensures Entries(c, seg, start, es)[k].start == start + |Blob(c, es[..k])|
    decreases k
  {
    assert es[..k + 1][1..] == es[1..][..k];
    if k > 0 {
      assert es[..k][1..] == es[1..][..k - 1];
      EntryEnd(c, seg, start + |Frame(c, es[0])|, es[1..], k - 1);
    } else {
      assert Blob(c, es[..1]) == Frame(c, es[0]) + Blob(c, es[..1][1..]);
    }
  }

  lemma PendingExact(c: Codec, log: Log, d: Disk)
    requires Scans(c, log, d)
    ensures PendingFrom(c, d, d.head.value, d.head.value.segment, LastId(log))
         == LogEntries(c, log.first, log.segs)[Position(c, log, d.head.value)..]
  {
    hide Scans, Position, ScanOf, LogEntries, Entries, After, Flat, Blob, WholeIn, Boundary, PendingFrom;
    SegmentScans(c, log, d);
    HeadInScans(c, log, d);
    var cur := d.head.value;
    PendingSplit(c, log.first, log.segs, d, cur, LastId(log));
    SplitAt(c, log, cur);
  }

  lemma HeadInScans(c: Codec, log: Log, d: Disk)
    requires Scans(c, log, d)
    ensures log.segs != [] && d.head.Some? && Boundary(c, log, d.head.value)
    ensures var cur := d.head.value;
            && log.first <= cur.segment <= LastId(log) && cur.offset >= SEGMENT_HEADER_SIZE
            && var es := log.segs[cur.segment - log.first];
               Offset(c, es, WholeIn(c, es, cur.offset - SEGMENT_HEADER_SIZE)) == cur.offset
  {
    hide ScanOf, Entries, WholeIn, Offset;
  }

  lemma PendingSplit(c: Codec, first: nat, segs: Segments, d: Disk, cur: Cursor, last: nat)
    requires segs != [] && last == first + |segs| - 1 && first <= cur.segment <= last
    requires forall i: nat | cur.segment <= i <= last :: i in d.files && ScanOf(c, d, i).Scanned?
    requires forall i: nat | cur.segment <= i <= last :: ScanOf(c, d, i).entries == Entries(c, i, SEGMENT_HEADER_SIZE, segs[i - first])
    requires cur.offset >= SEGMENT_HEADER_SIZE
    requires var es := segs[cur.segment - first];
             Offset(c, es, WholeIn(c, es, cur.offset - SEGMENT_HEADER_SIZE)) == cur.offset
    ensures var es := segs[cur.segment - first];
            PendingFrom(c, d, cur, cur.segment, last)
            == Entries(c, cur.segment, SEGMENT_HEADER_SIZE, es)[WholeIn(c, es, cur.offset - SEGMENT_HEADER_SIZE)..]
               + LogEntries(c, cur.segment + 1, segs[cur.segment + 1 - first..])
  {
    hide ScanOf, LogEntries, Entries, After, Flat, Blob, WholeIn;
    var es := segs[cur.segment - first];
    var k := WholeIn(c, es, cur.offset - SEGMENT_HEADER_SIZE);
    AfterWithin(c, cur.segment, SEGMENT_HEADER_SIZE, es, k);
    assert cur == Cursor(cur.segment, SEGMENT_HEADER_SIZE + |Blob(c, es[..k])|);
    PendingLater(c, first, segs, d, cur, cur.segment + 1, last);
  }

  lemma SegmentScans(c: Codec, log: Log, d: Disk)
    requires Scans(c, log, d)
    ensures forall i: nat | d.head.value.segment <= i <= LastId(log) :: i in d.files && ScanOf(c, d, i).Scanned?
    ensures forall i: nat | d.head.value.segment <= i <= LastId(log) ::
              ScanOf(c, d, i).entries == Entries(c, i, SEGMENT_HEADER_SIZE, log.segs[i - log.first])
  {
    hide ScanOf, Entries;
  }

  // ---- What a crash leaves ----------------------------------------------------

  /** The newest segment file is one of the log's and has its header. */
  ghost predicate HasTop(log: Log, image: Disk) {
    && log.segs != [] && image.files.Keys != {} && log.first <= MaxOf(image.files.Keys) <= LastId(log)
    && |image.files[MaxOf(image.files.Keys)].data| >= SEGMENT_HEADER_SIZE
  }

  /** The log of the records a crash image still holds. */
  ghost function Survivors(c: Codec, log: Log, image: Disk): (r: Log)
    requires HasTop(log, image)
    ensures r.segs != [] && r.first == log.first && LastId(r) == MaxOf(image.files.Keys)
  {
    var i := MaxOf(image.files.Keys) - log.first;
    Prefix(log, i, WholeIn(c, log.segs[i], |image.files[log.first + i].data| - SEGMENT_HEADER_SIZE))
  }

  /** The repair of a torn active segment: truncate and fsync. */
  function RepairFile(d: Disk, id: nat, size: nat): Disk
    requires id in d.files && size <= |d.files[id].data|
  {
    Fsync(Truncate(d, id, size), id)
  }

  /** Truncating, syncing the newest segment when needed, and the directory barrier make
      what reading shows durable. */
  lemma SettlesAll(found: Disk, last: nat, size: nat, torn: bool, some: bool)
    requires last in found.files && size <= |found.files[last].data|
    requires forall s | s in found.files && s != last :: found.files[s].synced == |found.files[s].data|
    requires torn || (size == |found.files[last].data| && (some || found.files[last].synced == size))
    ensures last in Truncate(found, last, size).files
    ensures var r := if torn then Fsync(Truncate(found, last, size), last) else found;
            && last in r.files && last in Cached(found).files && size <= |Cached(found).files[last].data|
            && Barrier(if some then Fsync(r, last) else r) == RepairFile(Cached(found), last, size)
  {
    var r := if torn then Fsync(Truncate(found, last, size), last) else found;
    var data := found.files[last].data;
    assert !torn ==> data[..size] == data;
    assert Barrier(if some then Fsync(r, last) else r).files == RepairFile(Cached(found), last, size).files;
  }

  /** What the opening scan leaves of the directory. */
  ghost function Repaired(c: Codec, image: Disk): (r: Disk)
    requires image.files.Keys != {}
    requires ScanOf(c, image, MaxOf(image.files.Keys)).Scanned?
    requires ScanOf(c, image, MaxOf(image.files.Keys)).size <= |image.files[MaxOf(image.files.Keys)].data|
    ensures r.files.Keys == image.files.Keys && r.(files := image.files) == image
  {
    var last := MaxOf(image.files.Keys);
    RepairFile(image, last, ScanOf(c, image, last).size)
  }

  /** Only a rotation whose directory entry never became durable can be missing. */
  lemma CrashTop(c: Codec, log: Log, d: Disk, image: Disk)
    requires DiskInv(c, log, d) && Crash(d, image)
    ensures image.files.Keys != {}
    ensures log.first <= MaxOf(image.files.Keys) <= LastId(log)
    ensures MaxOf(image.files.Keys) != LastId(log) ==>
              MaxOf(image.files.Keys) == LastId(log) - 1 && Active(log.segs) == []
    ensures image.head.value.segment <= MaxOf(image.files.Keys)
  {
    hide Holds, Boundary;
    var cur := image.head.value;
    assert HeadOk(c, log, d, cur);
    assert log.first <= cur.segment <= LastId(log) by { BoundarySegment(c, log, cur); }
    assert cur.segment in image.files;
    forall s | s in image.files
      ensures s <= LastId(log)
    {
      KnownFile(c, log, d, s);
    }
    if LastId(log) !in image.files {
      assert LastId(log) in d.recent;
      assert LastId(log) - 1 in image.files;
    }
  }

  /** Only the newest file found may have bytes to sync, and what reading shows is
      something a crash could have left. */
  lemma FoundFiles(c: Codec, log: Log, d: Disk, found: Disk)
    requires DiskInv(c, log, d) && Found(d, found)
    ensures Crash(d, Cached(found)) && found.files.Keys != {}
    ensures forall s | s in found.files ::
              && SEGMENT_HEADER_SIZE <= found.files[s].synced <= |found.files[s].data|
              && (s != MaxOf(found.files.Keys) ==> found.files[s].synced == |found.files[s].data|)
  {
    hide HeadOk, LogOk, Image;
    if Crash(d, found) {
      CrashTop(c, log, d, found);
      forall s | s in found.files
        ensures SEGMENT_HEADER_SIZE <= found.files[s].synced == |found.files[s].data|
      {
        CrashFile(c, log, d, found, s);
      }
      assert Cached(found) == found;
    } else {
      forall s | s in found.files
        ensures SEGMENT_HEADER_SIZE <= found.files[s].synced <= |found.files[s].data|
        ensures s <= LastId(log) && (s < LastId(log) ==> found.files[s].synced == |found.files[s].data|)
      {
        assert Holds(c, log, s, d.files[s]);
        KnownFile(c, log, d, s);
      }
      AsFound(d);
    }
  }

  lemma AsFound(d: Disk)
    requires d.head.Some? && forall s | s in d.files :: d.files[s].synced <= |d.files[s].data|
    ensures Crash(d, Cached(d))
  {
  }

  lemma BoundarySegment(c: Codec, log: Log, cur: Cursor)
    requires Boundary(c, log, cur)
    ensures log.first <= cur.segment <= LastId(log)
  {
  }

  lemma KnownFile(c: Codec, log: Log, d: Disk, s: nat)
    requires DiskInv(c, log, d) && (s in d.files || s in d.dropped)
    ensures Known(log, s) && s <= LastId(log)
  {
  }

  /** Each file a crash leaves is a prefix of its segment that keeps the synced
      part, and a closed segment is whole. */
  lemma CrashFile(c: Codec, log: Log, d: Disk, image: Disk, s: nat)
    requires DiskInv(c, log, d) && Crash(d, image) && s in image.files
    ensures Known(log, s)
    ensures SEGMENT_HEADER_SIZE <= |image.files[s].data|
    ensures image.files[s].data <= Image(c, s, Records(log, s))
    ensures image.files[s].synced == |image.files[s].data|
    ensures s < LastId(log) ==> image.files[s].data == Image(c, s, Records(log, s))
    ensures s in d.files ==> d.files[s].synced <= |image.files[s].data|
  {
    hide Image, HeadOk;
    var f := if s in d.files then d.files[s] else d.dropped[s];
    assert Holds(c, log, s, f);
    assert CutOf(f, image.files[s]);
  }

  lemma SurvivorRecords(c: Codec, log: Log, d: Disk, image: Disk, s: nat)
    requires DiskInv(c, log, d) && Crash(d, image) && s in image.files
    requires HasTop(log, image)
    ensures var log' := Survivors(c, log, image);
            && LastId(log') == MaxOf(image.files.Keys) && Known(log', s)
            && (s < LastId(log') ==> Known(log, s) && Records(log', s) == Records(log, s))
  {
    hide DiskInv, Crash;
    KnownImageFile(c, log, d, image, s);
  }

  lemma KnownImageFile(c: Codec, log: Log, d: Disk, image: Disk, s: nat)
    requires DiskInv(c, log, d) && Crash(d, image) && s in image.files
    ensures Known(log, s)
  {
    KnownFile(c, log, d, s);
  }

  lemma CrashScan(c: Codec, log: Log, d: Disk, image: Disk, s: nat)
    requires DiskInv(c, log, d) && Crash(d, image) && s in image.files
    requires HasTop(log, image)
    ensures var log' := Survivors(c, log, image);
            && Known(log', s) && ScanOf(c, image, s).Scanned?
            && ScanOf(c, image, s).entries == Entries(c, s, SEGMENT_HEADER_SIZE, Records(log', s))
            && ScanOf(c, image, s).size == Size(c, Records(log', s)) <= |image.files[s].data|
            && (s < LastId(log') ==> ScanOf(c, image, s).size == |image.files[s].data|)
  {
    hide DiskInv, Crash, Image, ScanFile, Entries, WholeIn;
    CrashFile(c, log, d, image, s);
    SurvivorRecords(c, log, d, image, s);
    assert AllStorable(c, Records(log, s)) && s <= MAX_SEGMENT_ID by { LogIsOk(c, log, d); RecordsStorable(c, log, s); }
    var last := MaxOf(image.files.Keys);
    if s < last {
      WholeSegmentScans(c, s, Records(log, s), false);
      assert |Image(c, s, Records(log, s))| == Size(c, Records(log, s)) by { ImageSize(c, s, Records(log, s)); }
    } else {
      TornTailExact(c, s, Records(log, s), image.files[s].data, true);
    }
  }

  lemma LogIsOk(c: Codec, log: Log, d: Disk)
    requires DiskInv(c, log, d)
    ensures LogOk(c, log)
  {
  }

  lemma ImageSize(c: Codec, s: nat, es: seq<Envelope>)
    ensures |Image(c, s, es)| == Size(c, es)
  {
  }

  // ---- Positions ----------------------------------------------------------------

  /** A record boundary within the first `k` records is found there too. */
  lemma BoundaryInPrefix(c: Codec, es: seq<Envelope>, k: nat, n: nat)
    requires k <= |es| && n <= |Blob(c, es[..k])|
    ensures WholeIn(c, es[..k], n) == WholeIn(c, es, n)
  {
    var a, b := WholeIn(c, es[..k], n), WholeIn(c, es, n);
    WholeInIsLargest(c, es[..k], n, a);
    WholeInIsLargest(c, es, n, a);
    assert es[..k][..a] == es[..a];
    if k < |es| {
      BlobOfPrefix(c, es, k);
      WholeInIsLargest(c, es, n, k + 1);
    }
    WholeInIsLargest(c, es, n, b);
    WholeInIsLargest(c, es[..k], n, b);
    assert b <= k ==> es[..k][..b] == es[..b];
  }

  /** The first `i` segments of a log and the first `k` records of the next. */
  function Prefix(log: Log, i: nat, k: nat): (r: Log)
    requires i < |log.segs| && k <= |log.segs[i]|
    ensures r.segs != [] && LastId(r) == log.first + i && r.first == log.first
  {
    Log(log.first, log.segs[..i] + [log.segs[i][..k]], log.stale)
  }

  lemma CursorInPrefix(c: Codec, log: Log, i: nat, k: nat, cur: Cursor)
    requires i < |log.segs| && k <= |log.segs[i]|
    requires Boundary(c, log, cur)
    requires cur.segment < log.first + i
          || (cur.segment == log.first + i && cur.offset <= Offset(c, log.segs[i], k))
    ensures Boundary(c, Prefix(log, i, k), cur)
    ensures Position(c, Prefix(log, i, k), cur) == Position(c, log, cur)
  {
    hide Blob, Flat, WholeIn;
    var r := Prefix(log, i, k);
    assert r.segs[..cur.segment - log.first] == log.segs[..cur.segment - log.first];
    if cur.segment == log.first + i {
      var es, n := log.segs[i], cur.offset - SEGMENT_HEADER_SIZE;
      var j := WholeIn(c, es, n);
      BoundaryInPrefix(c, es, k, n);
      assert es[..k][..j] == es[..j];
    }
  }

  /** A checkpoint that may survive is at the same position of the surviving log,
      and not past the durable tail. */
  lemma HeadSurvives(c: Codec, log: Log, d: Disk, image: Disk)
    requires DiskInv(c, log, d) && Crash(d, image)
    requires HasTop(log, image)
    ensures image.head.Some? && Boundary(c, log, image.head.value)
    ensures Boundary(c, Survivors(c, log, image), image.head.value)
    ensures Position(c, Survivors(c, log, image), image.head.value) == Position(c, log, image.head.value)
  {
    HeadWithin(c, log, d, image);
    hide DiskInv, Crash, HeadOk;
    CursorSurvives(c, log, image, image.head.value);
  }

  lemma CursorSurvives(c: Codec, log: Log, image: Disk, cur: Cursor)
    requires image.files.Keys != {} && log.segs != [] && log.first <= MaxOf(image.files.Keys) <= LastId(log)
    requires |image.files[MaxOf(image.files.Keys)].data| >= SEGMENT_HEADER_SIZE
    requires Boundary(c, log, cur) && cur.segment in image.files
    requires cur.offset <= |image.files[cur.segment].data|
    ensures Boundary(c, Survivors(c, log, image), cur)
    ensures Position(c, Survivors(c, log, image), cur) == Position(c, log, cur)
  {
    hide Blob, Flat, WholeIn, Boundary, Position;
    BoundarySegment(c, log, cur);
    var last := MaxOf(image.files.Keys);
    var i := last - log.first;
    var k := WholeIn(c, log.segs[i], |image.files[last].data| - SEGMENT_HEADER_SIZE);
    if cur.segment == last {
      BoundaryOffset(c, log, cur);
      var j := WholeIn(c, log.segs[i], cur.offset - SEGMENT_HEADER_SIZE);
      WholeInIsLargest(c, log.segs[i], |image.files[last].data| - SEGMENT_HEADER_SIZE, j);
      PrefixBlob(c, log.segs[i], j, k);
    }
    CursorInPrefix(c, log, i, k, cur);
  }

  lemma BoundaryOffset(c: Codec, log: Log, cur: Cursor)
    requires Boundary(c, log, cur)
    ensures cur.offset >= SEGMENT_HEADER_SIZE
    ensures var es := log.segs[cur.segment - log.first];
            Offset(c, es, WholeIn(c, es, cur.offset - SEGMENT_HEADER_SIZE)) == cur.offset
  {
  }

  lemma PrefixBlob(c: Codec, es: seq<Envelope>, j: nat, k: nat)
    requires j <= k <= |es|
    ensures |Blob(c, es[..j])| <= |Blob(c, es[..k])|
  {
    assert es[..k] == es[..j] + es[j..k];
    BlobConcat(c, es[..j], es[j..k]);
  }

  lemma HeadWithin(c: Codec, log: Log, d: Disk, image: Disk)
    requires DiskInv(c, log, d) && Crash(d, image)
    ensures Boundary(c, log, image.head.value)
    ensures image.head.value.segment in image.files
    ensures image.head.value.offset <= |image.files[image.head.value.segment].data|
  {
    hide Boundary, Holds;
    assert HeadOk(c, log, d, image.head.value);
  }

  // ---- How much of the log survives -----------------------------------------------

  lemma WholeInMonotone(c: Codec, es: seq<Envelope>, m: nat, n: nat)
    requires m <= n
    ensures WholeIn(c, es, m) <= WholeIn(c, es, n)
  {
    WholeInIsLargest(c, es, m, WholeIn(c, es, m));
    WholeInIsLargest(c, es, n, WholeIn(c, es, m));
  }

  lemma WholeInAll(c: Codec, es: seq<Envelope>)
    ensures WholeIn(c, es, |Blob(c, es)|) == |es|
  {
    assert es[..|es|] == es;
    WholeInIsLargest(c, es, |Blob(c, es)|, |es|);
  }

  lemma PrefixFlat(log: Log, i: nat, k: nat)
    requires i < |log.segs| && k <= |log.segs[i]|
    ensures Flat(Prefix(log, i, k).segs) == Flat(log.segs[..i]) + log.segs[i][..k]
    ensures Flat(Prefix(log, i, k).segs) <= Flat(log.segs)
  {
    hide Flat;
    FlatSplit(log.segs, i);
    FlatSnoc(log.segs[..i], log.segs[i][..k]);
  }

  /** The survivors are a prefix of the log that keeps the durable tail. */
  lemma SurvivorsArePrefix(c: Codec, log: Log, d: Disk, image: Disk)
    requires DiskInv(c, log, d) && Crash(d, image) && HasTop(log, image)
    ensures Flat(Survivors(c, log, image).segs) <= Flat(log.segs)
    ensures DurableTail(c, log, d) <= |Flat(Survivors(c, log, image).segs)|
  {
    hide DiskInv, Crash, Image, WholeIn, Flat, Blob;
    var last := MaxOf(image.files.Keys);
    CrashTop(c, log, d, image);
    CrashFile(c, log, d, image, last);
    ActiveFile(c, log, d);
    var i := last - log.first;
    var size := |image.files[last].data| - SEGMENT_HEADER_SIZE;
    PrefixFlat(log, i, WholeIn(c, log.segs[i], size));
    if last == LastId(log) {
      WholeInMonotone(c, log.segs[i], d.files[last].synced - SEGMENT_HEADER_SIZE, size);
    } else {
      ImageSize(c, last, log.segs[i]);
      ClosedSurvivor(c, log.segs, i);
      WholeInNone(c, d.files[LastId(log)].synced - SEGMENT_HEADER_SIZE);
    }
  }

  lemma ClosedSurvivor(c: Codec, segs: Segments, i: nat)
    requires |segs| == i + 2
    ensures var k := WholeIn(c, segs[i], |Blob(c, segs[i])|);
            Flat(segs[..i]) + segs[i][..k] == Flat(segs[..i + 1])
  {
    WholeInAll(c, segs[i]);
    FlatSnoc(segs[..i], segs[i]);
    assert segs[..i] + [segs[i]] == segs[..i + 1];
  }

  lemma WholeInNone(c: Codec, n: nat)
    ensures WholeIn(c, [], n) == 0
  {
  }

  lemma ActiveFile(c: Codec, log: Log, d: Disk)
    requires DiskInv(c, log, d)
    ensures log.segs != [] && LastId(log) in d.files && d.files[LastId(log)].synced >= SEGMENT_HEADER_SIZE
  {
    assert Holds(c, log, LastId(log), d.files[LastId(log)]);
  }

  lemma CrashScans(c: Codec, log: Log, d: Disk, image: Disk)
    requires DiskInv(c, log, d) && Crash(d, image)
    requires HasTop(log, image)
    ensures Scans(c, Survivors(c, log, image), image)
  {
    hide DiskInv, Crash, ScanOf, Boundary, Entries, Known, Records, Size, Survivors;
    CrashTop(c, log, d, image);
    HeadSurvives(c, log, d, image);
    LaterPresent(c, log, d, image);
    forall s | s in image.files
      ensures var log' := Survivors(c, log, image);
              Known(log', s) && ScanOf(c, image, s).Scanned?
              && ScanOf(c, image, s).entries == Entries(c, s, SEGMENT_HEADER_SIZE, Records(log', s))
              && ScanOf(c, image, s).size == Size(c, Records(log', s))
    {
      CrashScan(c, log, d, image, s);
    }
  }

  lemma LaterPresent(c: Codec, log: Log, d: Disk, image: Disk)
    requires DiskInv(c, log, d) && Crash(d, image) && image.files.Keys != {}
    ensures image.head.Some?
    ensures forall s: nat | image.head.value.segment <= s <= MaxOf(image.files.Keys) :: s in image.files
  {
    hide Holds, Boundary;
    assert HeadOk(c, log, d, image.head.value);
    CrashTop(c, log, d, image);
  }

  /** CRASH REFINEMENT. Whatever a crash leaves of a directory that satisfies the
      invariant, reopening it does not raise and yields exactly the log from one
      of the installed checkpoints to some point at or after the durable tail. */
  lemma CrashRecovery(c: Codec, log: Log, d: Disk, image: Disk)
    requires DiskInv(c, log, d) && Crash(d, image)
    requires forall cur | cur in Heads(d) && Boundary(c, log, cur) :: DistinctIds(Flat(log.segs)[Position(c, log, cur)..])
    ensures image.head.Some? && image.head.value in Heads(d) && Boundary(c, log, image.head.value)
    ensures HasTop(log, image)
    ensures var from := Position(c, log, image.head.value);
            var kept := Survivors(c, log, image);
            && Flat(kept.segs) <= Flat(log.segs)
            && DurableTail(c, log, d) <= |Flat(kept.segs)|
            && from <= |Flat(kept.segs)|
            && Load(c, image) == Some(LogEntries(c, log.first, kept.segs)[from..])
  {
    hide DiskInv, DistinctIds, Boundary, Scans, Load;
    CrashTop(c, log, d, image);
    CrashFile(c, log, d, image, MaxOf(image.files.Keys));
    SurvivorsArePrefix(c, log, d, image);
    HeadSurvives(c, log, d, image);
    CrashScans(c, log, d, image);
    var from := Position(c, log, image.head.value);
    PrefixDistinct(Flat(Survivors(c, log, image).segs), Flat(log.segs), from);
    LoadExact(c, Survivors(c, log, image), image);
  }

  lemma PrefixDistinct(a: seq<Envelope>, b: seq<Envelope>, p: nat)
    requires a <= b && p <= |a| && DistinctIds(b[p..])
    ensures DistinctIds(a[p..])
  {
    forall i, j | 0 <= i < j < |a[p..]|
      ensures a[p..][i].id != a[p..][j].id
    {
      assert a[p..][i] == b[p..][i] && a[p..][j] == b[p..][j];
    }
  }

  lemma RepairedFile(c: Codec, log: Log, d: Disk, image: Disk, s: nat)
    requires DiskInv(c, log, d) && Crash(d, image) && s in image.files
    requires HasTop(log, image)
    requires ScanOf(c, image, MaxOf(image.files.Keys)).Scanned?
    requires ScanOf(c, image, MaxOf(image.files.Keys)).size <= |image.files[MaxOf(image.files.Keys)].data|
    ensures var kept := Survivors(c, log, image);
            var f := Repaired(c, image).files[s];
            Known(kept, s) && f.data == Image(c, s, Records(kept, s)) && f.synced == |f.data|
  {
    hide WholeIn, ScanFile, Image, DiskInv, Crash, Blob;
    CrashFile(c, log, d, image, s);
    SurvivorRecords(c, log, d, image, s);
    CrashScan(c, log, d, image, s);
    CrashScan(c, log, d, image, MaxOf(image.files.Keys));
    var last := MaxOf(image.files.Keys);
    if s == last {
      var es, data := Records(log, s), image.files[s].data;
      TornTail(c, s, es, data);
      CutKeepsPrefix(c, s, es, data, WholeIn(c, es, |data| - SEGMENT_HEADER_SIZE));
    }
  }

  lemma TornTail(c: Codec, s: nat, es: seq<Envelope>, data: bytes)
    requires SEGMENT_HEADER_SIZE <= |data|
    ensures Offset(c, es, WholeIn(c, es, |data| - SEGMENT_HEADER_SIZE)) <= |data|
  {
    WholeInIsLargest(c, es, |data| - SEGMENT_HEADER_SIZE, WholeIn(c, es, |data| - SEGMENT_HEADER_SIZE));
  }

  lemma PrefixLogOk(c: Codec, log: Log, i: nat, k: nat)
    requires LogOk(c, log) && i < |log.segs| && k <= |log.segs[i]|
    ensures LogOk(c, Prefix(log, i, k))
  {
    var r := Prefix(log, i, k);
    forall j | 0 <= j < |r.segs|
      ensures AllStorable(c, r.segs[j])
    {
      assert AllStorable(c, log.segs[j]);
    }
  }

  /** The boundary a cursor names is within its segment. */
  lemma BoundaryWithin(c: Codec, log: Log, cur: Cursor)
    requires Boundary(c, log, cur)
    ensures cur.offset <= Size(c, Records(log, cur.segment))
  {
    var es := Records(log, cur.segment);
    PrefixBlob(c, es, WholeIn(c, es, cur.offset - SEGMENT_HEADER_SIZE), |es|);
    assert es[..|es|] == es;
  }

  /** A directory whose files hold their segments wholly and durably. */
  ghost predicate Settled(c: Codec, log: Log, d: Disk) {
    && LogOk(c, log) && d.recent == {} && d.dropped == map[] && d.older == {}
    && (forall s | s in d.files :: Known(log, s)
         && d.files[s].data == Image(c, s, Records(log, s)) && d.files[s].synced == |d.files[s].data|)
    && LastId(log) in d.files
    && d.head.Some? && Boundary(c, log, d.head.value)
    && (forall s: nat | d.head.value.segment <= s <= LastId(log) :: s in d.files)
  }

  lemma SettledInv(c: Codec, log: Log, d: Disk)
    requires Settled(c, log, d)
    ensures DiskInv(c, log, d) && DurableTail(c, log, d) == |Flat(log.segs)|
  {
    hide Holds, HeadOk, Image, Flat, WholeIn, LogOk, Boundary, DurableCount;
    SettledFiles(c, log, d);
    SettledHead(c, log, d);
    SettledTail(c, log, d);
  }

  lemma SettledFiles(c: Codec, log: Log, d: Disk)
    requires Settled(c, log, d)
    ensures forall s | s in d.files :: Holds(c, log, s, d.files[s])
  {
    hide Boundary;
    forall s | s in d.files
      ensures Holds(c, log, s, d.files[s])
    {
      ImageSize(c, s, Records(log, s));
    }
  }

  lemma SettledHead(c: Codec, log: Log, d: Disk)
    requires Settled(c, log, d)
    ensures HeadOk(c, log, d, d.head.value)
  {
    var cur := d.head.value;
    hide WholeIn, Image, Flat, Boundary, LogOk;
    BoundarySegment(c, log, cur);
    BoundaryWithin(c, log, cur);
    assert cur.segment in d.files;
    ImageSize(c, cur.segment, Records(log, cur.segment));
  }

  lemma SettledTail(c: Codec, log: Log, d: Disk)
    requires Settled(c, log, d)
    ensures d.files[LastId(log)].synced == Size(c, Active(log.segs))
    ensures DurableCount(c, log.segs, d.files[LastId(log)].synced) == |Flat(log.segs)|
  {
    hide WholeIn, Boundary, Flat, Blob, Image, Holds, Known;
    ImageSize(c, LastId(log), Active(log.segs));
    WholeInAll(c, Active(log.segs));
    FlatSnoc(log.segs[..|log.segs| - 1], Active(log.segs));
    assert log.segs == log.segs[..|log.segs| - 1] + [Active(log.segs)];
  }

  lemma RepairedFiles(c: Codec, log: Log, d: Disk, image: Disk)
    requires DiskInv(c, log, d) && Crash(d, image) && HasTop(log, image)
    ensures ScanOf(c, image, MaxOf(image.files.Keys)).Scanned?
    ensures ScanOf(c, image, MaxOf(image.files.Keys)).size <= |image.files[MaxOf(image.files.Keys)].data|
    ensures forall s | s in image.files ::
              && Known(Survivors(c, log, image), s)
              && Repaired(c, image).files[s].data == Image(c, s, Records(Survivors(c, log, image), s))
              && Repaired(c, image).files[s].synced == |Repaired(c, image).files[s].data|
  {
    hide WholeIn, ScanOf, Image, DiskInv, Crash, Repaired, Survivors;
    CrashTop(c, log, d, image);
    CrashScan(c, log, d, image, MaxOf(image.files.Keys));
    forall s | s in image.files
      ensures Known(Survivors(c, log, image), s)
      ensures Repaired(c, image).files[s].data == Image(c, s, Records(Survivors(c, log, image), s))
      ensures Repaired(c, image).files[s].synced == |Repaired(c, image).files[s].data|
    {
      RepairedFile(c, log, d, image, s);
    }
  }

  /** Reopening repairs the directory: it holds exactly the survivors, all synced,
      so the invariant holds again and the next crash is covered too. */
  lemma RepairedSettled(c: Codec, log: Log, d: Disk, image: Disk)
    requires DiskInv(c, log, d) && Crash(d, image) && HasTop(log, image)
    ensures ScanOf(c, image, MaxOf(image.files.Keys)).Scanned?
    ensures ScanOf(c, image, MaxOf(image.files.Keys)).size <= |image.files[MaxOf(image.files.Keys)].data|
    ensures Settled(c, Survivors(c, log, image), Repaired(c, image))
  {
    hide WholeIn, ScanOf, Image, Boundary, DiskInv, Survivors, Repaired, LogOk;
    RepairedFiles(c, log, d, image);
    SurvivorsLogOk(c, log, d, image);
    CrashScans(c, log, d, image);
  }

  lemma SurvivorsLogOk(c: Codec, log: Log, d: Disk, image: Disk)
    requires DiskInv(c, log, d) && HasTop(log, image)
    ensures LogOk(c, Survivors(c, log, image))
  {
    hide DiskInv, LogOk, WholeIn, MaxOf;
    LogIsOk(c, log, d);
    var i := MaxOf(image.files.Keys) - log.first;
    PrefixLogOk(c, log, i, WholeIn(c, log.segs[i], |image.files[log.first + i].data| - SEGMENT_HEADER_SIZE));
  }
}
