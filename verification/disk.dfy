/** The storage directory as the file system sees it: what each system call
    changes, and what a crash may leave behind. */
module Directory {
  import opened Wrappers
  import opened Framing

  datatype Cursor = Cursor(segment: nat, offset: nat)

  /** A file's bytes, of which the first `synced` are on stable storage. */
  datatype File = File(data: bytes, synced: nat)

  /** The directory: linked segment files, the ones whose rename or unlink has no
      directory barrier yet, the checkpoint file (None when missing or corrupt),
      and the checkpoints it replaced since the last barrier. */
  datatype Disk = Disk(
    files: map<nat, File>,
    recent: set<nat>,
    dropped: map<nat, File>,
    head: Option<Cursor>,
    older: set<Cursor>)

  // ---- System calls ---------------------------------------------------------

  function Write(d: Disk, id: nat, data: bytes): Disk
    requires id in d.files
  {
    d.(files := d.files[id := d.files[id].(data := d.files[id].data + data)])
  }

  function Truncate(d: Disk, id: nat, size: nat): Disk
    requires id in d.files && size <= |d.files[id].data|
  {
    var f := d.files[id];
    d.(files := d.files[id := File(f.data[..size], if f.synced <= size then f.synced else size)])
  }

  function Fsync(d: Disk, id: nat): Disk
    requires id in d.files
  {
    d.(files := d.files[id := d.files[id].(synced := |d.files[id].data|)])
  }

  /** Rename a written and synced temporary file to segment `id`. */
  function InstallSegment(d: Disk, id: nat, data: bytes): Disk {
    d.(files := d.files[id := File(data, |data|)], recent := d.recent + {id})
  }

  /** Rename a written and synced temporary file over the checkpoint. */
  function InstallHead(d: Disk, cursor: Cursor): Disk {
    d.(head := Some(cursor), older := d.older + if d.head == None then {} else {d.head.value})
  }

  function Unlink(d: Disk, id: nat): Disk
    requires id in d.files
  {
    d.(files := d.files - {id}, dropped := d.dropped[id := d.files[id]])
  }

  /** Directory fsync: every rename and unlink so far becomes durable. */
  function Barrier(d: Disk): Disk {
    d.(recent := {}, dropped := map[], older := {})
  }

  // ---- Crashes ----------------------------------------------------------------

  /** What a crash leaves of a file: any prefix that keeps the synced bytes. */
  ghost predicate CutOf(f: File, cut: File) {
    f.synced <= |cut.data| && cut.data <= f.data && cut.synced == |cut.data|
  }

  function Heads(d: Disk): set<Cursor> {
    d.older + if d.head == None then {} else {d.head.value}
  }

  /** A crash keeps any allowed prefix of each file and either outcome of each
      rename and unlink since the last barrier. */
  ghost predicate Crash(d: Disk, image: Disk) {
    && image.recent == {} && image.dropped == map[] && image.older == {}
    && image.head.Some? && image.head.value in Heads(d)
    && d.files.Keys - d.recent <= image.files.Keys
    && forall s | s in image.files ::
         || (s in d.files && CutOf(d.files[s], image.files[s]))
         || (s !in d.files && s in d.dropped && CutOf(d.dropped[s], image.files[s]))
  }

  /** What a new process finds: what a crash of the machine left, or, when only the old
      process died, the directory as it was, with bytes and names still to be synced. */
  ghost predicate Found(d: Disk, found: Disk) {
    Crash(d, found) || found == d
  }

  /** What reading the directory shows, synced or not. */
  function Cached(d: Disk): Disk {
    Disk(map s | s in d.files :: File(d.files[s].data, |d.files[s].data|), {}, map[], d.head, {})
  }
}

/** Reopening a storage directory (reliomq/outbox.py:803-901). */
module Loading {
  import opened Wrappers
  import opened Framing
  import opened Directory

  function After(cursor: Cursor, entries: seq<Stored>): (r: seq<Stored>)
    ensures |r| <= |entries|
  {
    if entries == [] then []
    else
      var e := entries[0];
      var keep := e.segment > cursor.segment || (e.segment == cursor.segment && e.start >= cursor.offset);
      (if keep then [e] else []) + After(cursor, entries[1..])
  }

  ghost predicate DistinctStored(es: seq<Stored>) {
    forall i, j | 0 <= i < j < |es| :: es[i].id != es[j].id
  }

  lemma {:induction false} MaxExists(s: set<nat>)
    requires s != {}
    ensures exists m :: m in s && forall t | t in s :: t <= m
  {
    var x :| x in s;
    if s != {x} {
      MaxExists(s - {x});
      var m :| m in s - {x} && forall t | t in s - {x} :: t <= m;
      assert forall t | t in s :: t == x || t in s - {x};
      var top := if m < x then x else m;
      assert top in s && forall t | t in s :: t <= top;
    }
  }

  ghost predicate Least(s: set<nat>, m: nat) {
    m in s && forall t | t in s :: m <= t
  }

  lemma LeastOfMore(s: set<nat>, x: nat, m: nat)
    requires x in s && Least(s - {x}, m)
    ensures Least(s, if m < x then m else x)
  {
    assert forall t | t in s :: t == x || t in s - {x};
  }

  lemma {:induction false} MinExists(s: set<nat>)
    requires s != {}
    ensures exists m :: Least(s, m)
  {
    var x :| x in s;
    if s == {x} {
      assert Least(s, x);
    } else {
      hide Least;
      MinExists(s - {x});
      var m :| Least(s - {x}, m);
      LeastOfMore(s, x, m);
    }
  }

  ghost function MaxOf(s: set<nat>): (m: nat)
    requires s != {}
    ensures m in s && forall t | t in s :: t <= m
  {
    MaxExists(s);
    var m :| m in s && forall t | t in s :: t <= m;
    m
  }

  ghost function MinOf(s: set<nat>): (m: nat)
    requires s != {}
    ensures m in s && forall t | t in s :: m <= t
  {
    MinExists(s);
    var m :| Least(s, m);
    m
  }

  /** The scan of one segment; the highest ID is active. */
  ghost function ScanOf(c: Codec, d: Disk, s: nat): Scan
    requires s in d.files
  {
    ScanFile(c, s, d.files[s].data, s == MaxOf(d.files.Keys))
  }

  predicate AtBoundary(scan: Scan, offset: nat)
    requires scan.Scanned?
  {
    || offset == SEGMENT_HEADER_SIZE || offset == scan.size
    || exists e | e in scan.entries :: e.start == offset || e.end == offset
  }

  /** The checkpoint, or the earliest surviving position when it is missing,
      names a missing segment or is not at a record boundary. */
  ghost function EffectiveHead(c: Codec, d: Disk): Cursor
    requires d.files.Keys != {}
    requires forall s | s in d.files :: ScanOf(c, d, s).Scanned?
  {
    if d.head.Some? && d.head.value.segment in d.files
       && AtBoundary(ScanOf(c, d, d.head.value.segment), d.head.value.offset)
    then d.head.value
    else Cursor(MinOf(d.files.Keys), SEGMENT_HEADER_SIZE)
  }

  ghost function PendingFrom(c: Codec, d: Disk, cursor: Cursor, s: nat, last: nat): seq<Stored>
    requires forall i | s <= i <= last :: i in d.files && ScanOf(c, d, i).Scanned?
    decreases last + 1 - s
  {
    if s > last then []
    else After(cursor, ScanOf(c, d, s).entries) + PendingFrom(c, d, cursor, s + 1, last)
  }

  /** `_load_segmented_storage`; None is OutboxError. */
  ghost function Load(c: Codec, d: Disk): Option<seq<Stored>> {
    if d.files.Keys == {} then None
    else if exists s | s in d.files :: ScanOf(c, d, s) == ScanBad then None
    else
      var cursor := EffectiveHead(c, d);
      var last := MaxOf(d.files.Keys);
      if exists s: nat | cursor.segment <= s <= last :: s !in d.files then None
      else
        var pending := PendingFrom(c, d, cursor, cursor.segment, last);
        if DistinctStored(pending) then Some(pending) else None
  }

  /** Everything the scan leaves in memory. */
  datatype Loaded = Loaded(
    scans: map<nat, Scan>,
    head: Cursor,
    rewrite: bool,
    pending: seq<Stored>,
    byId: map<Id, Stored>)

  /** `_pending_by_id` holds exactly the pending entries. */
  ghost predicate IndexOf(pending: seq<Stored>, m: map<Id, Stored>) {
    && (forall i | 0 <= i < |pending| :: pending[i].id in m && m[pending[i].id] == pending[i])
    && (forall id | id in m :: exists i :: 0 <= i < |pending| && pending[i].id == id)
  }

  method MaxKey(s: set<nat>) returns (m: nat)
    requires s != {}
    ensures m == MaxOf(s)
  {
    MaxExists(s);
    m :| m in s && forall t | t in s :: t <= m;
  }

  method MinKey(s: set<nat>) returns (m: nat)
    requires s != {}
    ensures m == MinOf(s)
  {
    MinExists(s);
    m :| m in s && forall t | t in s :: m <= t;
  }

  /** The per-segment loop of `_load_segmented_storage`, in ID order. */
  method ScanAll(c: Codec, d: Disk) returns (ok: bool, scans: map<nat, Scan>)
    requires d.files.Keys != {}
    ensures ok <==> !exists s | s in d.files :: ScanOf(c, d, s) == ScanBad
    ensures ok ==> scans.Keys == d.files.Keys && forall s | s in d.files :: scans[s] == ScanOf(c, d, s)
  {
    hide ScanFile, MaxOf, MinOf;
    var last := MaxKey(d.files.Keys);
    scans := map[];
    var todo := d.files.Keys;
    while todo != {}
      invariant todo <= d.files.Keys && scans.Keys == d.files.Keys - todo
      invariant forall s | s in scans :: scans[s] == ScanOf(c, d, s) != ScanBad
    {
      var id := MinKey(todo);
      var scan := ScanSegment(c, id, d.files[id].data, id == last);
      if scan == ScanBad {
        assert ScanOf(c, d, id) == ScanBad;
        return false, scans;
      }
      scans := scans[id := scan];
      todo := todo - {id};
    }
    ok := true;
  }

  /** Indexes the pending entries by ID; fails on a duplicate. */
  method IndexPending(pending: seq<Stored>) returns (ok: bool, byId: map<Id, Stored>)
    ensures ok <==> DistinctStored(pending)
    ensures ok ==> IndexOf(pending, byId)
  {
    byId := map[];
    var i := 0;
    while i < |pending|
      invariant i <= |pending|
      invariant forall j | 0 <= j < i :: pending[j].id in byId && byId[pending[j].id] == pending[j]
      invariant forall id | id in byId :: exists j :: 0 <= j < i && pending[j].id == id
      invariant forall j, k | 0 <= j < k < i :: pending[j].id != pending[k].id
    {
      if pending[i].id in byId {
        var j :| 0 <= j < i && pending[j].id == pending[i].id;
        return false, byId;
      }
      byId := byId[pending[i].id := pending[i]];
      i := i + 1;
    }
    ok := true;
  }

  lemma {:induction false} PendingSnoc(c: Codec, d: Disk, cursor: Cursor, s: nat, last: nat)
    requires s <= last + 1
    requires forall i | s <= i <= last + 1 :: i in d.files && ScanOf(c, d, i).Scanned?
    ensures PendingFrom(c, d, cursor, s, last + 1)
         == PendingFrom(c, d, cursor, s, last) + After(cursor, ScanOf(c, d, last + 1).entries)
    decreases last + 1 - s
  {
    hide ScanOf, After;
    if s <= last {
      PendingSnoc(c, d, cursor, s + 1, last);
    }
  }

  /** `_load_segmented_storage`. */
  method LoadStorage(c: Codec, d: Disk) returns (r: Option<Loaded>)
    ensures r.Some? <==> Load(c, d).Some?
    ensures r.Some? ==>
              && d.files.Keys != {} && (forall s | s in d.files :: ScanOf(c, d, s).Scanned?)
              && r.value.pending == Load(c, d).value && IndexOf(r.value.pending, r.value.byId)
              && r.value.head == EffectiveHead(c, d) && (d.head == Some(r.value.head) || r.value.rewrite)
              && r.value.scans.Keys == d.files.Keys
              && (forall s | s in d.files :: r.value.scans[s] == ScanOf(c, d, s))
  {
    hide ScanOf, MaxOf, MinOf, After;
    if d.files.Keys == {} { return None; }
    var good, scans := ScanAll(c, d);
    if !good { return None; }
    forall s | s in d.files
      ensures ScanOf(c, d, s).Scanned?
    {
    }
    var last := MaxKey(d.files.Keys);
    var first := MinKey(d.files.Keys);
    var valid := d.head.Some? && d.head.value.segment in d.files
                 && AtBoundary(scans[d.head.value.segment], d.head.value.offset);
    var cur := if valid then d.head.value else Cursor(first, SEGMENT_HEADER_SIZE);
    assert cur == EffectiveHead(c, d);
    var pending: seq<Stored> := [];
    var s := cur.segment;
    while s <= last
      invariant cur.segment <= s <= last + 1
      invariant forall i: nat | cur.segment <= i < s :: i in d.files
      invariant pending == if s == cur.segment then [] else PendingFrom(c, d, cur, cur.segment, s - 1)
    {
      if s !in d.files {
        return None;
      }
      pending := pending + After(cur, scans[s].entries);
      if s > cur.segment { PendingSnoc(c, d, cur, cur.segment, s - 1); }
      s := s + 1;
    }
    var distinct, byId := IndexPending(pending);
    if !distinct { return None; }
    r := Some(Loaded(scans, cur, !valid, pending, byId));
  }
}
