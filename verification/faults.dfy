/** Why an Outbox whose rotation or rollback failed must be reopened before it is
    used again (reliomq/outbox.py:510-522, 564-577): memory and directory disagree
    about the active segment, and one more append can leave a directory that does not
    open. Exactly when that is so, for every state an Outbox can be in. */
module Faults {
  import opened Wrappers
  import opened Framing
  import opened Layout
  import opened Directory
  import opened Loading
  import opened Recovery
  import opened Storage
  import opened QueueSpec
  import opened OutboxState
  import opened OutboxSteps

  // ---- Bytes in a segment that is closed on disk ------------------------------------------

  /** An Outbox whose active segment is not empty and wholly synced, and a record that
      makes it rotate. */
  ghost predicate Rotating(c: Codec, l: Limits, v: View, e: Envelope) {
    && Inv(c, v) && v.log.segs != [] && !v.syncPending && LastId(v.log) < MAX_SEGMENT_ID && LastId(v.log) in v.disk.files
    && WouldRotate(c, l, Active(v.log.segs), e)
  }

  /** Records that the active segment still takes. */
  ghost predicate Fits(c: Codec, l: Limits, v: View, chunk: seq<Envelope>) {
    && v.log.segs != [] && chunk != [] && !WouldRotate(c, l, Active(v.log.segs), chunk[0])
    && AllStorable(c, chunk) && Fresh(c, v, chunk)
  }

  /** `part` of their bytes is in the segment, and segment `LastId + 1` follows it. */
  ghost function Late(v: View, part: bytes, synced: bool): Disk
    requires v.log.segs != [] && LastId(v.log) in v.disk.files
  {
    var id := LastId(v.log);
    var d := Write(v.disk, id, part);
    InstallSegment(if synced then Fsync(d, id) else d, id + 1, SegmentHeader(id + 1))
  }

  /** The bytes are those of whole records. */
  ghost predicate WholeRecords(c: Codec, chunk: seq<Envelope>, part: bytes) {
    exists n: nat :: n <= |chunk| && part == Blob(c, chunk[..n])
  }

  lemma RotatingParts(c: Codec, l: Limits, v: View, e: Envelope)
    requires Rotating(c, l, v, e)
    ensures CrashSafe(c, v.log, v.disk) && DiskInv(c, v.log, v.disk) && v.disk.recent == {}
    ensures v.disk.files[LastId(v.log)].data == Image(c, LastId(v.log), Active(v.log.segs))
    ensures v.disk.files[LastId(v.log)].synced == |v.disk.files[LastId(v.log)].data| >= SEGMENT_HEADER_SIZE
    ensures AllStorable(c, Active(v.log.segs)) && forall s | s in v.disk.files || s in v.disk.dropped :: s <= LastId(v.log)
  {
    InvSafe(c, v);
    InvDisk(c, v);
    WriteReady(c, v);
    ActiveFile(c, v.log, v.disk);
    LogIsOk(c, v.log, v.disk);
    LogSegments(c, v.log);
    hide Inv, CrashSafe, Image, HeadOk, LogOk, Holds;
    forall s | s in v.disk.files || s in v.disk.dropped
      ensures s <= LastId(v.log)
    {
      KnownFile(c, v.log, v.disk, s);
    }
  }

  /** Whole records in the closed segment are read like any others. */
  lemma WholeRecordsOpen(c: Codec, l: Limits, v: View, e: Envelope, chunk: seq<Envelope>, n: nat, image: Disk)
    requires Rotating(c, l, v, e) && Fits(c, l, v, chunk) && n <= |chunk|
    requires Crash(Late(v, Blob(c, chunk[..n]), true), image)
    ensures Load(c, image).Some?
  {
    hide Inv, CrashSafe, DiskInv, Image, Blob, Load, Crash, WouldRotate, AllStorable, Extend, Rotated;
    hide SegmentHeader, Boundary;
    hide Position, Flat, DistinctIds, Write, Fsync;
    RotatingParts(c, l, v, e);
    var id, some := LastId(v.log), chunk[..n];
    StorablePrefix(c, chunk, n);
    FreshPart(c, v, chunk, n);
    WriteSafe(c, v.log, v.disk, some, Blob(c, some));
    FsyncSafe(c, Extend(v.log, some), Write(v.disk, id, Blob(c, some)));
    ImageConcat(c, id, Active(v.log.segs), some);
    WrittenWhole(v.disk, id, Blob(c, some));
    InstallSegmentSafe(c, Extend(v.log, some), Fsync(Write(v.disk, id, Blob(c, some)), id));
    SafeRecovers(c, Rotated(Extend(v.log, some)), Late(v, Blob(c, some), true), image);
  }

  lemma WrittenWhole(d: Disk, id: nat, data: bytes)
    requires id in d.files
    ensures id in Write(d, id, data).files
    ensures var w := Fsync(Write(d, id, data), id);
            && w.recent == d.recent && id in w.files
            && w.files[id].data == d.files[id].data + data && w.files[id].synced == |w.files[id].data|
  {
  }

  lemma FreshPart(c: Codec, v: View, chunk: seq<Envelope>, n: nat)
    requires Inv(c, v) && Fresh(c, v, chunk) && n <= |chunk|
    ensures forall cur | cur in Heads(v.disk) && Boundary(c, v.log, cur) ::
              DistinctIds((Flat(v.log.segs) + chunk[..n])[Position(c, v.log, cur)..])
  {
    hide CrashSafe, Mirrors, Indexed, Unreused, Boundary, Position, Flat, DistinctIds, Heads;
    FreshForHeads(c, v, chunk);
    forall cur | cur in Heads(v.disk) && Boundary(c, v.log, cur)
      ensures DistinctIds((Flat(v.log.segs) + chunk[..n])[Position(c, v.log, cur)..])
    {
      PrefixDistinct(Flat(v.log.segs) + chunk[..n], Flat(v.log.segs) + chunk, Position(c, v.log, cur));
    }
  }

  /** A torn record in the closed segment makes opening fail. */
  lemma TornRecordFails(c: Codec, v: View, chunk: seq<Envelope>, part: bytes, image: Disk)
    requires v.log.segs != [] && LastId(v.log) < MAX_SEGMENT_ID && AllStorable(c, Active(v.log.segs)) && AllStorable(c, chunk)
    requires part <= Blob(c, chunk) && !WholeRecords(c, chunk, part)
    requires LastId(v.log) in image.files && LastId(v.log) + 1 in image.files
    requires image.files[LastId(v.log)].data == Image(c, LastId(v.log), Active(v.log.segs)) + part
    ensures Load(c, image).None?
  {
    hide Load, Image, WholeIn, ScanFile, Blob, WholeRecords, SegmentHeader, Entries;
    var id, es := LastId(v.log), Active(v.log.segs);
    var all := es + chunk;
    assert MaxOf(image.files.Keys) >= id + 1;
    ImageConcat(c, id, es, chunk);
    ImageSize(c, id, es);
    TornTailExact(c, id, all, image.files[id].data, false);
    var n := WholeIn(c, all, |image.files[id].data| - SEGMENT_HEADER_SIZE);
    if Offset(c, all, n) == |image.files[id].data| { BoundaryIsWhole(c, es, chunk, part, n); }
    assert ScanOf(c, image, id) == ScanBad;
    BadFails(c, image, id);
  }

  lemma BadFails(c: Codec, d: Disk, id: nat)
    requires id in d.files && ScanOf(c, d, id) == ScanBad
    ensures Load(c, d).None?
  {
    hide ScanOf;
  }

  lemma BoundaryIsWhole(c: Codec, es: seq<Envelope>, chunk: seq<Envelope>, part: bytes, n: nat)
    requires n <= |es + chunk| && part <= Blob(c, chunk) && Offset(c, es + chunk, n) == Size(c, es) + |part|
    ensures WholeRecords(c, chunk, part)
  {
    hide Blob;
    var all := es + chunk;
    if n < |es| {
      assert all[..n] == es[..n];
      PrefixBlob(c, es, n, |es|);
      assert es[..|es|] == es;
      if part == [] { assert part == Blob(c, chunk[..0]) by { NothingBlob(c, chunk); } }
    } else {
      assert all[..n] == es + chunk[..n - |es|];
      BlobConcat(c, es, chunk[..n - |es|]);
      BlobConcat(c, chunk[..n - |es|], chunk[n - |es|..]);
      assert chunk == chunk[..n - |es|] + chunk[n - |es|..];
      assert part == Blob(c, chunk[..n - |es|]);
    }
  }

  lemma NothingBlob(c: Codec, chunk: seq<Envelope>)
    ensures Blob(c, chunk[..0]) == []
  {
  }

  /** When the closed segment is left with `part`, opening works if and only if those are
      whole records. */
  lemma LateExact(c: Codec, l: Limits, v: View, e: Envelope, chunk: seq<Envelope>, part: bytes, image: Disk)
    requires Rotating(c, l, v, e) && Fits(c, l, v, chunk) && part <= Blob(c, chunk)
    requires Crash(Late(v, part, true), image) && LastId(v.log) + 1 in image.files
    ensures Load(c, image).Some? <==> WholeRecords(c, chunk, part)
  {
    RotatingParts(c, l, v, e);
    LateFile(v, part, true, image);
    hide Inv, CrashSafe, DiskInv, Image, Blob, Load, Crash, WouldRotate, AllStorable, SegmentHeader, Late;
    if WholeRecords(c, chunk, part) {
      var n: nat :| n <= |chunk| && part == Blob(c, chunk[..n]);
      WholeRecordsOpen(c, l, v, e, chunk, n, image);
    } else {
      TornRecordFails(c, v, chunk, part, image);
    }
  }

  /** What a crash keeps of the segment: all that is synced, and some prefix of the rest. */
  lemma LateFile(v: View, part: bytes, synced: bool, image: Disk)
    requires v.log.segs != [] && LastId(v.log) in v.disk.files && LastId(v.log) !in v.disk.recent
    requires v.disk.files[LastId(v.log)].synced == |v.disk.files[LastId(v.log)].data|
    requires Crash(Late(v, part, synced), image)
    ensures LastId(v.log) in image.files && v.disk.files[LastId(v.log)].data <= image.files[LastId(v.log)].data
    ensures var kept := image.files[LastId(v.log)].data[|v.disk.files[LastId(v.log)].data|..];
            kept <= part && (synced ==> kept == part) && Crash(Late(v, kept, true), image)
  {
    hide SegmentHeader;
    var id := LastId(v.log);
    var old_, f := v.disk.files[id].data, image.files[id];
    assert CutOf(Late(v, part, synced).files[id], f);
    var kept := f.data[|old_|..];
    assert f.data == old_ + kept;
    assert Late(v, kept, true).files[id] == File(old_ + kept, |old_ + kept|);
  }

  // ---- A rotation whose directory fsync failed ----------------------------------------------

  /** The rename of the next segment took effect, but memory still appends to the old one.
      Every crash of the directory opens, if and only if nothing was appended before the
      instance is reopened, or all of it was synced. */
  lemma StaleAppendReopens(c: Codec, l: Limits, v: View, e: Envelope, chunk: seq<Envelope>, part: bytes, synced: bool)
    requires Rotating(c, l, v, e) && Fits(c, l, v, chunk) && part <= Blob(c, chunk) && (synced ==> part == Blob(c, chunk))
    ensures (forall image | Crash(Late(v, part, synced), image) :: Load(c, image).Some?) <==> part == [] || synced
  {
    hide Inv, CrashSafe, DiskInv, Image, Blob, Load, Crash, WouldRotate, AllStorable, SegmentHeader, Late, Fits;
    if part == [] || synced {
      forall image | Crash(Late(v, part, synced), image)
        ensures Load(c, image).Some?
      {
        StaleOpens(c, l, v, e, chunk, part, synced, image);
      }
    } else {
      var image := OneByte(c, l, v, e, chunk, part);
      assert Crash(Late(v, part, synced), image) && Load(c, image).None?;
    }
  }

  lemma StaleOpens(c: Codec, l: Limits, v: View, e: Envelope, chunk: seq<Envelope>, part: bytes, synced: bool, image: Disk)
    requires Rotating(c, l, v, e) && Fits(c, l, v, chunk) && part <= Blob(c, chunk) && (part == [] || part == Blob(c, chunk))
    requires part == [] || synced
    requires Crash(Late(v, part, synced), image)
    ensures Load(c, image).Some?
  {
    RotatingParts(c, l, v, e);
    LateFile(v, part, synced, image);
    NothingBlob(c, chunk);
    assert chunk[..|chunk|] == chunk;
    hide Inv, CrashSafe, DiskInv, Image, Blob, Load, WouldRotate, AllStorable, SegmentHeader, Late, Crash;
    if LastId(v.log) + 1 in image.files {
      LateExact(c, l, v, e, chunk, part, image);
      assert part == Blob(c, chunk[..0]) || part == Blob(c, chunk[..|chunk|]);
    } else {
      Unrotated(c, l, v, e, chunk, part, image);
    }
  }

  /** The rename did not survive: the segment is the newest, and a torn tail is repaired. */
  lemma Unrotated(c: Codec, l: Limits, v: View, e: Envelope, chunk: seq<Envelope>, part: bytes, image: Disk)
    requires Rotating(c, l, v, e) && Fits(c, l, v, chunk) && part <= Blob(c, chunk)
    requires Crash(Late(v, part, true), image) && LastId(v.log) + 1 !in image.files
    ensures Load(c, image).Some?
  {
    RotatingParts(c, l, v, e);
    var w := Write(v.disk, LastId(v.log), part);
    assert Crash(w, image) by { WithoutNewest(v, part, image); }
    hide Inv, DiskInv, Image, Blob, Load, WouldRotate, SegmentHeader, Late, Crash, Write, Extend, Boundary;
    hide Position, Flat;
    hide CrashSafe, DistinctIds;
    FreshPart(c, v, chunk, |chunk|);
    assert chunk[..|chunk|] == chunk;
    WriteSafe(c, v.log, v.disk, chunk, part);
    SafeRecovers(c, Extend(v.log, chunk), w, image);
  }

  lemma WithoutNewest(v: View, part: bytes, image: Disk)
    requires v.log.segs != [] && LastId(v.log) in v.disk.files && v.disk.recent == {}
    requires v.disk.files[LastId(v.log)].synced == |v.disk.files[LastId(v.log)].data|
    requires LastId(v.log) + 1 !in v.disk.files
    requires Crash(Late(v, part, true), image) && LastId(v.log) + 1 !in image.files
    ensures Crash(Write(v.disk, LastId(v.log), part), image)
  {
    hide SegmentHeader;
    var d, w := Late(v, part, true), Write(v.disk, LastId(v.log), part);
    assert Heads(d) == Heads(w);
    forall s | s in image.files
      ensures (s in w.files && CutOf(w.files[s], image.files[s])) || (s !in w.files && s in w.dropped && CutOf(w.dropped[s], image.files[s]))
    {
    }
  }

  /** The crash that keeps a single byte of what was appended. */
  lemma OneByte(c: Codec, l: Limits, v: View, e: Envelope, chunk: seq<Envelope>, part: bytes) returns (image: Disk)
    requires Rotating(c, l, v, e) && Fits(c, l, v, chunk) && part <= Blob(c, chunk) && part != []
    ensures Crash(Late(v, part, false), image) && Load(c, image).None?
  {
    RotatingParts(c, l, v, e);
    image := KeptOf(v, part[..1]);
    KeptIsCrash(c, v, part, part[..1]);
    hide Inv, CrashSafe, DiskInv, Image, Load, WouldRotate, SegmentHeader, Late, Crash, KeptOf;
    OneByteIsTorn(c, chunk, part[..1]);
    TornRecordFails(c, v, chunk, part[..1], image);
  }

  lemma OneByteIsTorn(c: Codec, chunk: seq<Envelope>, part: bytes)
    requires |part| == 1
    ensures !WholeRecords(c, chunk, part)
  {
    hide Frame;
    forall n: nat | n <= |chunk|
      ensures part != Blob(c, chunk[..n])
    {
      if n > 0 { FrameSize(c, chunk[0]); }
    }
  }

  lemma FrameSize(c: Codec, e: Envelope)
    ensures |Frame(c, e)| >= RECORD_HEADER_SIZE
  {
  }

  /** Every file is kept, and `kept` of what was appended. */
  ghost function KeptOf(v: View, kept: bytes): Disk
    requires v.log.segs != [] && LastId(v.log) in v.disk.files && v.disk.head.Some?
  {
    Cached(Late(v, kept, true))
  }

  lemma KeptIsCrash(c: Codec, v: View, part: bytes, kept: bytes)
    requires DiskInv(c, v.log, v.disk) && v.disk.recent == {} && kept <= part
    requires v.disk.files[LastId(v.log)].synced == |v.disk.files[LastId(v.log)].data|
    ensures v.log.segs != [] && LastId(v.log) in v.disk.files && v.disk.head.Some?
    ensures Crash(Late(v, part, false), KeptOf(v, kept))
    ensures LastId(v.log) in KeptOf(v, kept).files && LastId(v.log) + 1 in KeptOf(v, kept).files
    ensures KeptOf(v, kept).files[LastId(v.log)].data == v.disk.files[LastId(v.log)].data + kept
  {
    hide HeadOk, LogOk, Image, SegmentHeader, LastId;
    var d, image := Late(v, part, false), KeptOf(v, kept);
    forall s | s in image.files
      ensures s in d.files && CutOf(d.files[s], image.files[s])
    {
      if s in v.disk.files { assert Holds(c, v.log, s, v.disk.files[s]); }
    }
  }

  // ---- A failed append that was not taken back ------------------------------------------------

  /** A failed write left `part` in the segment and could not be undone; a later record that
      does not fit rotates away from it, syncing it first only when earlier appends were
      unsynced. Every crash of the directory opens, if and only if nothing is left, or the
      segment was synced and whole records are left. */
  lemma LeftoverReopens(c: Codec, l: Limits, v: View, e: Envelope, chunk: seq<Envelope>, part: bytes, synced: bool)
    requires Rotating(c, l, v, e) && Fits(c, l, v, chunk) && part <= Blob(c, chunk)
    ensures (forall image | Crash(Barrier(Late(v, part, synced)), image) :: Load(c, image).Some?)
            <==> part == [] || (synced && WholeRecords(c, chunk, part))
  {
    hide Inv, CrashSafe, DiskInv, Image, Blob, Load, Crash, WouldRotate, AllStorable, SegmentHeader, Late, Fits;
    hide WholeRecords, Barrier;
    if part == [] || (synced && WholeRecords(c, chunk, part)) {
      forall image | Crash(Barrier(Late(v, part, synced)), image)
        ensures Load(c, image).Some?
      {
        LeftoverOpens(c, l, v, e, chunk, part, synced, image);
      }
    } else {
      var image := LeftoverFails(c, l, v, e, chunk, part, synced);
      assert Crash(Barrier(Late(v, part, synced)), image) && Load(c, image).None?;
    }
  }

  lemma LeftoverOpens(c: Codec, l: Limits, v: View, e: Envelope, chunk: seq<Envelope>, part: bytes, synced: bool, image: Disk)
    requires Rotating(c, l, v, e) && Fits(c, l, v, chunk) && part <= Blob(c, chunk)
    requires part == [] || (synced && WholeRecords(c, chunk, part))
    requires Crash(Barrier(Late(v, part, synced)), image)
    ensures Load(c, image).Some?
  {
    RotatingParts(c, l, v, e);
    BarrierCrash(v, part, synced, image);
    LateFile(v, part, synced, image);
    NothingBlob(c, chunk);
    hide Inv, CrashSafe, DiskInv, Image, Blob, Load, WouldRotate, AllStorable, SegmentHeader, Late, Crash;
    assert part == [] ==> part == Blob(c, chunk[..0]);
    LateExact(c, l, v, e, chunk, part, image);
  }

  lemma LeftoverFails(c: Codec, l: Limits, v: View, e: Envelope, chunk: seq<Envelope>, part: bytes, synced: bool)
      returns (image: Disk)
    requires Rotating(c, l, v, e) && Fits(c, l, v, chunk) && part <= Blob(c, chunk) && part != []
    requires synced ==> !WholeRecords(c, chunk, part)
    ensures Crash(Barrier(Late(v, part, synced)), image) && Load(c, image).None?
  {
    RotatingParts(c, l, v, e);
    var kept := if synced then part else part[..1];
    image := KeptOf(v, kept);
    KeptIsCrash(c, v, part, kept);
    KeptIsBarrierCrash(v, part, kept, synced);
    hide Inv, CrashSafe, DiskInv, Image, Load, WouldRotate, SegmentHeader, Late, Crash, KeptOf;
    if !synced { OneByteIsTorn(c, chunk, kept); }
    TornRecordFails(c, v, chunk, kept, image);
  }

  lemma BarrierCrash(v: View, part: bytes, synced: bool, image: Disk)
    requires v.log.segs != [] && LastId(v.log) in v.disk.files
    requires Crash(Barrier(Late(v, part, synced)), image)
    ensures Crash(Late(v, part, synced), image) && LastId(v.log) + 1 in image.files
  {
    hide SegmentHeader;
    var d := Late(v, part, synced);
    assert Heads(Barrier(d)) <= Heads(d) && Barrier(d).files == d.files;
    assert LastId(v.log) + 1 in d.files;
  }

  lemma KeptIsBarrierCrash(v: View, part: bytes, kept: bytes, synced: bool)
    requires v.log.segs != [] && LastId(v.log) in v.disk.files && v.disk.head.Some?
    requires Crash(Late(v, part, false), KeptOf(v, kept)) && (synced ==> kept == part)
    ensures Crash(Barrier(Late(v, part, synced)), KeptOf(v, kept))
  {
    hide SegmentHeader;
    var d, image := Late(v, part, synced), KeptOf(v, kept);
    forall s | s in image.files
      ensures s in Barrier(d).files && CutOf(Barrier(d).files[s], image.files[s])
    {
      assert s in Late(v, part, false).files;
    }
  }

  // ---- Both can happen --------------------------------------------------------------------------

  /** An Outbox holding one durable record. */
  ghost function OneHeld(c: Codec, a: Envelope): View {
    var entry := Entries(c, 1, SEGMENT_HEADER_SIZE, [a])[0];
    View(map[1 := Segment(Size(c, [a]), 1)], [entry], map[a.id := entry], {}, Cursor(1, SEGMENT_HEADER_SIZE), false,
         OneRecord(c, a), OneLog(a), 0, 0, 0, 0)
  }

  function OneLog(a: Envelope): Log {
    Log(1, [[a]], map[])
  }

  lemma OneFlat(a: Envelope)
    ensures Flat(OneLog(a).segs) == [a] && LastId(OneLog(a)) == 1 && Active(OneLog(a).segs) == [a]
  {
    assert [[a]][1..] == [];
    assert Flat([[a]]) == [a] + Flat([[a]][1..]);
  }

  lemma OneSettled(c: Codec, a: Envelope)
    requires Storable(c, a)
    ensures Settled(c, OneLog(a), OneRecord(c, a)) && Position(c, OneLog(a), Cursor(1, SEGMENT_HEADER_SIZE)) == 0
  {
    hide Image, WholeIn, Blob, Boundary, Position;
    OneFlat(a);
    StartBoundary(c, OneLog(a));
  }

  lemma OneIndexed(c: Codec, a: Envelope)
    ensures Indexed(c, OneHeld(c, a)) && OneHeld(c, a).pending[0].id == a.id
  {
    hide Frame;
    OneFlat(a);
    EntryIds(c, 1, SEGMENT_HEADER_SIZE, [a], 0);
    LogEntriesOne(c, 1, [a]);
    var v := OneHeld(c, a);
    assert v.pending == LogEntries(c, 1, [[a]])[0..];
  }

  lemma OneHeldInv(c: Codec, a: Envelope)
    requires Storable(c, a)
    ensures Inv(c, OneHeld(c, a))
  {
    hide Image, WholeIn, Blob, Boundary, Position, Flat, DiskInv, LogOk, Settled, Indexed, Mirrors, Anchored, Unreused;
    var v := OneHeld(c, a);
    OneFlat(a);
    OneSettled(c, a);
    OneIndexed(c, a);
    SettledInv(c, v.log, v.disk);
    OpenedMirrors(c, v);
    OpenedAnchors(c, v);
  }

  lemma LargerFrame(c: Codec, a: Envelope, b: Envelope, e: Envelope)
    requires |e.body| > |b.body|
    ensures var l := Limits(Size(c, [a]) + |Frame(c, b)|, 2); WouldRotate(c, l, [a], e) && !WouldRotate(c, l, [a], b)
  {
    hide Size;
  }

  lemma OneFresh(c: Codec, a: Envelope, b: Envelope)
    requires Storable(c, a) && a.id != b.id
    ensures Fresh(c, OneHeld(c, a), [b])
  {
    hide WholeIn, Blob, Boundary, Position, Flat, Image;
    OneFlat(a);
    StartBoundary(c, OneLog(a));
    assert ([a] + [b])[0..] == [a, b];
  }

  /** WITNESS. A record too large for what is left of the segment rotates, and a smaller one
      still goes into it: an Outbox with one record meets the hypotheses above. */
  lemma FaultsReachable(c: Codec, a: Envelope, b: Envelope, e: Envelope)
    requires Storable(c, a) && Storable(c, b) && a.id != b.id && |e.body| > |b.body|
    ensures var l := Limits(Size(c, [a]) + |Frame(c, b)|, 2);
            l.Positive() && Rotating(c, l, OneHeld(c, a), e) && Fits(c, l, OneHeld(c, a), [b])
  {
    hide Inv, Size, Frame, WouldRotate, Fresh, Storable, Image, Flat;
    OneFlat(a);
    OneHeldInv(c, a);
    OneFresh(c, a, b);
    LargerFrame(c, a, b, e);
  }

  // ---- A removal whose directory fsync failed --------------------------------------

  function OneRecord(c: Codec, e: Envelope): Disk {
    Disk(map[1 := File(Image(c, 1, [e]), |Image(c, 1, [e])|)], {}, map[], Some(Cursor(1, SEGMENT_HEADER_SIZE)), {})
  }

  /** The checkpoint past the record was renamed, but the directory fsync failed: the
      removal raises and the record stays pending in memory. */
  function HalfRemoved(c: Codec, e: Envelope): Disk {
    InstallHead(OneRecord(c, e), Cursor(1, Size(c, [e])))
  }

  /** Either checkpoint may survive a crash: reopening returns the record or nothing,
      although a sender that stops cleanly here still counts it as pending. */
  lemma HalfRemovedMayVanish(c: Codec, e: Envelope)
    requires Storable(c, e)
    ensures var kept := HalfRemoved(c, e).(older := {}); Crash(HalfRemoved(c, e), kept) && Load(c, kept) == Some([])
    ensures Crash(HalfRemoved(c, e), OneRecord(c, e)) && Load(c, OneRecord(c, e)).Some? && |Load(c, OneRecord(c, e)).value| == 1
  {
    hide Image, Load, ScanOf, Blob, WholeIn, Boundary, Position;
    var log := Log(1, [[e]], map[]);
    var kept := HalfRemoved(c, e).(older := {});
    HalfRemovedCrashes(c, e);
    assert Flat(log.segs) == [e] + Flat([[e]][1..]);
    OneRecordScans(c, e, OneRecord(c, e));
    OneRecordScans(c, e, kept);
    StartBoundary(c, log);
    EndCursorIsLast(c, log);
    LoadExact(c, log, OneRecord(c, e));
    LoadExact(c, log, kept);
  }

  lemma HalfRemovedCrashes(c: Codec, e: Envelope)
    ensures Crash(HalfRemoved(c, e), HalfRemoved(c, e).(older := {})) && Crash(HalfRemoved(c, e), OneRecord(c, e))
  {
    hide Image;
  }

  lemma OneRecordScans(c: Codec, e: Envelope, d: Disk)
    requires Storable(c, e) && d.files == OneRecord(c, e).files
    requires d.head == Some(Cursor(1, SEGMENT_HEADER_SIZE)) || d.head == Some(Cursor(1, Size(c, [e])))
    ensures Scans(c, Log(1, [[e]], map[]), d)
  {
    hide Image, ScanFile, Blob, WholeIn, Entries;
    var log := Log(1, [[e]], map[]);
    assert 1 in d.files && d.files.Keys == {1};
    WholeSegmentScans(c, 1, [e], true);
    ImageSize(c, 1, [e]);
    StartBoundary(c, log);
    EndCursorIsLast(c, log);
  }
}
