/** Which FIFOs a restart may return (reliomq/outbox.py:154-174, 803-901): every one the
    abstract queue allows is left by some crash, so what it says is exact. */
module Restarts {
  import opened Wrappers
  import opened Framing
  import opened Layout
  import opened Directory
  import opened Loading
  import opened Recovery
  import opened Storage
  import opened QueueSpec
  import opened OutboxState
  import opened OutboxSteps

  /** Opening the directory returns exactly `es`, each readable. */
  ghost predicate ReadsBack(c: Codec, d: Disk, es: seq<Envelope>) {
    && Load(c, d).Some? && |Load(c, d).value| == |es|
    && forall k | 0 <= k < |es| :: ReadsAs(c, d, Load(c, d).value[k], es[k])
  }

  /** Whatever a crash leaves, a restart returns exactly `es`. */
  ghost predicate RestartsAs(c: Codec, d: Disk, es: seq<Envelope>) {
    forall image | Crash(d, image) :: ReadsBack(c, image, es)
  }

  // ---- A crash for every outcome ------------------------------------------------------

  /** The crash that keeps checkpoint `cur`, every file, and `cut` bytes of the newest. */
  ghost function CutAt(log: Log, d: Disk, cur: Cursor, cut: nat): Disk
    requires log.segs != [] && LastId(log) in d.files && cut <= |d.files[LastId(log)].data|
  {
    Disk(map s | s in d.files :: if s == LastId(log) then File(d.files[s].data[..cut], cut) else File(d.files[s].data, |d.files[s].data|),
         {}, map[], Some(cur), {})
  }

  lemma CutAtIsCrash(c: Codec, log: Log, d: Disk, cur: Cursor, cut: nat)
    requires DiskInv(c, log, d) && cur in Heads(d)
    requires d.files[LastId(log)].synced <= cut <= |d.files[LastId(log)].data|
    ensures Crash(d, CutAt(log, d, cur, cut))
  {
    hide HeadOk, LogOk, Heads, Image;
    var image := CutAt(log, d, cur, cut);
    forall s | s in image.files
      ensures s in d.files && CutOf(d.files[s], image.files[s])
    {
      assert Holds(c, log, s, d.files[s]);
    }
  }

  lemma CutAtTop(log: Log, d: Disk, cur: Cursor, cut: nat)
    requires log.segs != [] && LastId(log) in d.files && SEGMENT_HEADER_SIZE <= cut <= |d.files[LastId(log)].data|
    requires forall s | s in d.files :: s <= LastId(log)
    ensures CutAt(log, d, cur, cut).files.Keys == d.files.Keys
    ensures MaxOf(d.files.Keys) == LastId(log) && HasTop(log, CutAt(log, d, cur, cut))
    ensures |CutAt(log, d, cur, cut).files[LastId(log)].data| == cut
  {
    assert LastId(log) in CutAt(log, d, cur, cut).files;
  }

  /** Some cut keeps the synced bytes and exactly the first `k` records. */
  lemma CutForRecords(c: Codec, es: seq<Envelope>, synced: nat, k: nat) returns (cut: nat)
    requires k <= |es| && SEGMENT_HEADER_SIZE <= synced <= Size(c, es)
    requires WholeIn(c, es, synced - SEGMENT_HEADER_SIZE) <= k
    ensures synced <= cut <= Size(c, es) && WholeIn(c, es, cut - SEGMENT_HEADER_SIZE) == k
  {
    hide WholeIn, Blob;
    PrefixBlob(c, es, k, |es|);
    assert es[..|es|] == es;
    if synced <= Offset(c, es, k) {
      cut := Offset(c, es, k);
      WholeInExact(c, es, k);
    } else {
      cut := synced;
      WholeInIsLargest(c, es, synced - SEGMENT_HEADER_SIZE, k);
    }
  }

  lemma CutSurvivors(c: Codec, log: Log, image: Disk)
    requires HasTop(log, image) && MaxOf(image.files.Keys) == LastId(log)
    ensures |Flat(Survivors(c, log, image).segs)|
         == DurableCount(c, log.segs, |image.files[LastId(log)].data|)
  {
    hide Flat, WholeIn, MaxOf;
    var i := LastId(log) - log.first;
    var k := WholeIn(c, log.segs[i], |image.files[LastId(log)].data| - SEGMENT_HEADER_SIZE);
    PrefixFlat(log, i, k);
  }

  lemma TopFacts(c: Codec, v: View)
    requires Inv(c, v)
    ensures v.log.segs != [] && LastId(v.log) in v.disk.files && forall s | s in v.disk.files :: s <= LastId(v.log)
    ensures |v.disk.files[LastId(v.log)].data| == Size(c, Active(v.log.segs))
    ensures SEGMENT_HEADER_SIZE <= v.disk.files[LastId(v.log)].synced <= Size(c, Active(v.log.segs))
    ensures DurableTail(c, v.log, v.disk) == DurableCount(c, v.log.segs, v.disk.files[LastId(v.log)].synced)
  {
    InvDisk(c, v);
    ActiveFile(c, v.log, v.disk);
    ActiveSynced(c, v.log, v.disk);
    ActiveIsMax(c, v);
    hide Inv, DiskInv, DurableCount, Size, WholeIn;
    WriteReady(c, v);
  }

  lemma CountAt(c: Codec, segs: Segments, synced: nat, to: nat) returns (cut: nat)
    requires segs != [] && SEGMENT_HEADER_SIZE <= synced <= Size(c, Active(segs))
    requires DurableCount(c, segs, synced) <= to <= |Flat(segs)|
    ensures synced <= cut <= Size(c, Active(segs)) && DurableCount(c, segs, cut) == to
  {
    hide Flat, WholeIn;
    FlatSnoc(segs[..|segs| - 1], Active(segs));
    assert segs == segs[..|segs| - 1] + [Active(segs)];
    cut := CutForRecords(c, Active(segs), synced, to - |Flat(segs[..|segs| - 1])|);
  }

  /** EVERY OUTCOME OCCURS. Whatever the abstract queue allows a restart to return is
      returned after some crash. */
  lemma CrashReaches(c: Codec, v: View, syncs: nat, saves: nat, from: nat, to: nat) returns (image: Disk)
    requires Inv(c, v)
    requires var q := Abs(c, v, syncs, saves); from in q.heads && from <= to && q.durable <= to <= |q.items|
    ensures Crash(v.disk, image) && ReadsBack(c, image, Abs(c, v, syncs, saves).items[from..to])
  {
    hide Inv, CrashSafe, DiskInv, Abs, Flat, DurableCount, Size, Boundary, Position, ReadsBack, Survivors, Crash, Heads;
    hide DurableTail, HasTop;
    InvSafe(c, v);
    AbsFields(c, v, syncs, saves);
    var cur := HeadAt(c, v, syncs, saves, from);
    image := CutImage(c, v, cur, to);
    CutReads(c, v.log, v.disk, image, to);
    assert image.head == Some(cur);
  }

  lemma CutImage(c: Codec, v: View, cur: Cursor, to: nat) returns (image: Disk)
    requires Inv(c, v) && cur in Heads(v.disk) && DurableTail(c, v.log, v.disk) <= to <= |Flat(v.log.segs)|
    ensures Crash(v.disk, image) && image.head == Some(cur) && HasTop(v.log, image)
    ensures |Flat(Survivors(c, v.log, image).segs)| == to
  {
    InvDisk(c, v);
    TopFacts(c, v);
    hide Inv, DiskInv, Flat, DurableCount, Size, Survivors, Crash, Heads, DurableTail, MaxOf, CutAt, HasTop;
    var cut := CountAt(c, v.log.segs, v.disk.files[LastId(v.log)].synced, to);
    image := CutAt(v.log, v.disk, cur, cut);
    CutAtIsCrash(c, v.log, v.disk, cur, cut);
    CutAtTop(v.log, v.disk, cur, cut);
    CutAtHead(v.log, v.disk, cur, cut);
    CutSurvivors(c, v.log, image);
  }

  /** A crash image with `to` surviving records reads back from its checkpoint to there. */
  lemma CutReads(c: Codec, log: Log, d: Disk, image: Disk, to: nat)
    requires CrashSafe(c, log, d) && Crash(d, image) && HasTop(log, image)
    requires |Flat(Survivors(c, log, image).segs)| == to
    ensures image.head.Some? && Boundary(c, log, image.head.value) && Position(c, log, image.head.value) <= to <= |Flat(log.segs)|
    ensures ReadsBack(c, image, Flat(log.segs)[Position(c, log, image.head.value)..to])
  {
    hide CrashSafe, DiskInv, Flat, Boundary, Position, Load, ReadsAs, Survivors, Crash, Heads, DurableTail;
    hide LogEntries, HasTop;
    SafeRecovers(c, log, d, image);
    SurvivorsRead(c, log, d, image);
    var from := Position(c, log, image.head.value);
    assert Flat(Survivors(c, log, image).segs)[from..] == Flat(log.segs)[from..to];
  }

  lemma CutAtHead(log: Log, d: Disk, cur: Cursor, cut: nat)
    requires log.segs != [] && LastId(log) in d.files && cut <= |d.files[LastId(log)].data|
    ensures CutAt(log, d, cur, cut).head == Some(cur)
  {
  }

  lemma HeadAt(c: Codec, v: View, syncs: nat, saves: nat, from: nat) returns (cur: Cursor)
    requires Inv(c, v) && from in Abs(c, v, syncs, saves).heads
    ensures cur in Heads(v.disk) && Boundary(c, v.log, cur) && Position(c, v.log, cur) == from
  {
    hide Inv, Boundary, Position, Flat, Heads, DurableTail;
    cur :| cur in Heads(v.disk) && Boundary(c, v.log, cur) && Position(c, v.log, cur) == from;
  }

  // ---- Exact restarts ---------------------------------------------------------------------

  /** EXACT RESTART. Reopening returns exactly the pending FIFO after every crash if and
      only if every record is durable and each checkpoint a crash may leave, the file and
      those it replaced since the last directory barrier, is at the live head. */
  lemma RestartExact(c: Codec, v: View, syncs: nat, saves: nat)
    requires Inv(c, v)
    ensures var q := Abs(c, v, syncs, saves);
            && q.head <= |q.items|
            && (RestartsAs(c, v.disk, q.Pending()) <==> q.durable == |q.items| && q.heads == {q.head})
  {
    AbsOk(c, v, syncs, saves);
    hide Inv, Abs, Crash, ReadsBack, DistinctIds;
    var q := Abs(c, v, syncs, saves);
    if q.durable == |q.items| && q.heads == {q.head} {
      forall image | Crash(v.disk, image)
        ensures ReadsBack(c, image, q.Pending())
      {
        OnlyOutcome(c, v, syncs, saves, image);
      }
    } else {
      OtherOutcome(c, v, syncs, saves);
    }
  }

  lemma OnlyOutcome(c: Codec, v: View, syncs: nat, saves: nat, image: Disk)
    requires Inv(c, v) && Crash(v.disk, image)
    requires var q := Abs(c, v, syncs, saves); q.head <= |q.items| == q.durable && q.heads == {q.head}
    ensures ReadsBack(c, image, Abs(c, v, syncs, saves).Pending())
  {
    hide Inv, Abs, Crash, Load, ReadsAs;
    var q := Abs(c, v, syncs, saves);
    var pending := CrashRefinesQueue(c, v, syncs, saves, image);
    assert q.items[q.head..|q.items|] == q.Pending();
  }

  lemma OtherOutcome(c: Codec, v: View, syncs: nat, saves: nat)
    requires Inv(c, v) && Abs(c, v, syncs, saves).Ok()
    requires var q := Abs(c, v, syncs, saves); q.durable < |q.items| || q.heads != {q.head}
    ensures var q := Abs(c, v, syncs, saves); !RestartsAs(c, v.disk, q.Pending())
  {
    hide Inv, Abs, Crash, Load, ReadsAs, DistinctIds;
    var q := Abs(c, v, syncs, saves);
    var h := SomeHead(q);
    var short := CrashReaches(c, v, syncs, saves, h, q.durable);
    var long := CrashReaches(c, v, syncs, saves, h, |q.items|);
    assert |q.items[h..q.durable]| != |q.Pending()| || |q.items[h..|q.items|]| != |q.Pending()|;
    assert !ReadsBack(c, short, q.Pending()) || !ReadsBack(c, long, q.Pending());
  }

  /** A head other than the live one, if there is any. */
  lemma SomeHead(q: Queue) returns (h: nat)
    requires q.Ok()
    ensures h in q.heads && (q.heads != {q.head} ==> h != q.head)
  {
    h := q.newest;
    if h == q.head && q.heads != {q.head} {
      assert q.heads == {q.head} + (q.heads - {q.head});
      h :| h in q.heads - {q.head};
    }
  }
}
