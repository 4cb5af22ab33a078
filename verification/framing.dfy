/** Byte layout of one segment file and the scan that reads it back
    (reliomq/outbox.py:80-85, 955-1043, 1182-1190). */
module Framing {
  import opened Wrappers

  type byte = b: int | 0 <= b < 256
  type bytes = seq<byte>
  type Id = string

  const SEGMENT_MAGIC: bytes := [0x52, 0x4C, 0x4D, 0x51, 0x53, 0x45, 0x47, 0x31]
  const RECORD_MAGIC: bytes := [0x4D, 0x53, 0x47, 0x31]
  const SEGMENT_HEADER_SIZE := 16
  const RECORD_HEADER_SIZE := 12
  const MAX_RECORD_BYTES := 0xFFFF_FFFF
  const MAX_SEGMENT_ID := 0xFFFF_FFFF_FFFF_FFFF

  /** The two functions the format depends on but does not define: the checksum
      and the strict envelope decoder (None is ProtocolError). */
  datatype Codec = Codec(crc: bytes -> nat, decode: bytes -> Option<Id>)

  /** An envelope is its message ID with its canonical wire bytes. */
  datatype Envelope = Envelope(id: Id, body: bytes)

  /** What `to_bytes` and `from_bytes` guarantee, and what fits the length field. */
  predicate Storable(c: Codec, e: Envelope) {
    c.decode(e.body) == Some(e.id) && |e.body| <= MAX_RECORD_BYTES
  }

  predicate AllStorable(c: Codec, es: seq<Envelope>) {
    forall i | 0 <= i < |es| :: Storable(c, es[i])
  }

  // ---- Big-endian integers ----------------------------------------------

  function Pow256(w: nat): (p: nat)
    ensures p > 0
  {
    if w == 0 then 1 else 256 * Pow256(w - 1)
  }

  function BigEndian(n: nat, w: nat): (s: bytes)
    ensures |s| == w
  {
    if w == 0 then [] else BigEndian(n / 256, w - 1) + [n % 256]
  }

  function FromBigEndian(s: bytes): nat {
    if s == [] then 0 else FromBigEndian(s[..|s| - 1]) * 256 + s[|s| - 1]
  }

  lemma {:induction false} BigEndianRoundTrip(n: nat, w: nat)
    requires n < Pow256(w)
    ensures FromBigEndian(BigEndian(n, w)) == n
  {
    if w > 0 {
      BigEndianRoundTrip(n / 256, w - 1);
      assert BigEndian(n, w)[..w - 1] == BigEndian(n / 256, w - 1);
    }
  }

  lemma Pow256Values()
    ensures Pow256(4) == MAX_RECORD_BYTES + 1 && Pow256(8) == MAX_SEGMENT_ID + 1
  {
    assert Pow256(4) == 256 * Pow256(3) == 256 * 256 * Pow256(2);
    assert Pow256(8) == 256 * Pow256(7) == 256 * 256 * Pow256(6) == 256 * 256 * 256 * Pow256(5);
  }

  // ---- Frames -------------------------------------------------------------

  function SegmentHeader(id: nat): (h: bytes)
    ensures |h| == SEGMENT_HEADER_SIZE
  {
    SEGMENT_MAGIC + BigEndian(id, 8)
  }

  function Checksum(c: Codec, body: bytes): nat {
    c.crc(body) % 0x1_0000_0000
  }

  function Frame(c: Codec, e: Envelope): (f: bytes)
    ensures |f| == RECORD_HEADER_SIZE + |e.body|
  {
    RECORD_MAGIC + BigEndian(|e.body|, 4) + BigEndian(Checksum(c, e.body), 4) + e.body
  }

  function Blob(c: Codec, es: seq<Envelope>): bytes {
    if es == [] then [] else Frame(c, es[0]) + Blob(c, es[1..])
  }

  /** The bytes of a whole segment file. */
  function Image(c: Codec, id: nat, es: seq<Envelope>): bytes {
    SegmentHeader(id) + Blob(c, es)
  }

  /** Byte offset of the boundary after the first `n` records of `es`. */
  function Offset(c: Codec, es: seq<Envelope>, n: nat): nat
    requires n <= |es|
  {
    SEGMENT_HEADER_SIZE + |Blob(c, es[..n])|
  }

  datatype Stored = Stored(id: Id, segment: nat, start: nat, end: nat)

  /** The index entries of records `es` laid out from byte `start` on. */
  function Entries(c: Codec, seg: nat, start: nat, es: seq<Envelope>): (r: seq<Stored>)
    ensures |r| == |es|
    decreases |es|
  {
    if es == [] then []
    else var end := start + |Frame(c, es[0])|;
         [Stored(es[0].id, seg, start, end)] + Entries(c, seg, end, es[1..])
  }

  /** How many records of `es` lie wholly within the first `n` bytes of their blob. */
  function WholeIn(c: Codec, es: seq<Envelope>, n: nat): (k: nat)
    ensures k <= |es|
  {
    if es == [] || n < |Frame(c, es[0])| then 0
    else 1 + WholeIn(c, es[1..], n - |Frame(c, es[0])|)
  }

  lemma {:induction false} BlobConcat(c: Codec, a: seq<Envelope>, b: seq<Envelope>)
    ensures Blob(c, a + b) == Blob(c, a) + Blob(c, b)
  {
    if a == [] {
      assert a + b == b;
    } else {
      BlobConcat(c, a[1..], b);
      assert (a + b)[1..] == a[1..] + b;
    }
  }

  lemma {:induction false} EntriesConcat(c: Codec, seg: nat, start: nat, a: seq<Envelope>, b: seq<Envelope>)
    ensures Entries(c, seg, start, a + b)
         == Entries(c, seg, start, a) + Entries(c, seg, start + |Blob(c, a)|, b)
    decreases |a|
  {
    if a == [] {
      assert a + b == b;
    } else {
      EntriesConcat(c, seg, start + |Frame(c, a[0])|, a[1..], b);
      assert (a + b)[1..] == a[1..] + b;
    }
  }

  /** WholeIn is the largest number of records whose blob fits in `n` bytes. */
  lemma {:induction false} WholeInIsLargest(c: Codec, es: seq<Envelope>, n: nat, k: nat)
    requires k <= |es|
    ensures k <= WholeIn(c, es, n) <==> |Blob(c, es[..k])| <= n
  {
    if k > 0 {
      assert es[..k][1..] == es[1..][..k - 1];
      if n >= |Frame(c, es[0])| {
        WholeInIsLargest(c, es[1..], n - |Frame(c, es[0])|, k - 1);
      }
    }
  }

  // ---- Scanning -------------------------------------------------------------

  /** ScanBad is OutboxError; otherwise the index entries, the byte size the
      segment is left with, and whether a torn tail starts there. */
  datatype Scan = ScanBad | Scanned(entries: seq<Stored>, size: nat, torn: bool)

  /** A scan that already found `entries`. */
  function Prepend(entries: seq<Stored>, rest: Scan): Scan {
    if rest.ScanBad? then ScanBad else Scanned(entries + rest.entries, rest.size, rest.torn)
  }

  lemma PrependOne(entries: seq<Stored>, e: Stored, rest: Scan)
    ensures Prepend(entries, Prepend([e], rest)) == Prepend(entries + [e], rest)
  {
    if rest.Scanned? {
      assert (entries + [e]) + rest.entries == entries + ([e] + rest.entries);
    }
  }

  lemma PrependEnds(entries: seq<Stored>, size: nat, torn: bool, rest: Scan)
    ensures Prepend([], rest) == rest && Prepend(entries, ScanBad) == ScanBad
    ensures Prepend(entries, Scanned([], size, torn)) == Scanned(entries, size, torn)
  {
  }

  function ScanFrom(c: Codec, seg: nat, data: bytes, off: nat): Scan
    requires off <= |data|
    decreases |data| - off
  {
    if off == |data| then Scanned([], off, false)
    else if |data| - off < RECORD_HEADER_SIZE then Scanned([], off, true)
    else if data[off..off + 4] != RECORD_MAGIC then ScanBad
    else
      var size := FromBigEndian(data[off + 4..off + 8]);
      if size > |data| - (off + RECORD_HEADER_SIZE) then Scanned([], off, true)
      else
        var end := off + RECORD_HEADER_SIZE + size;
        var body := data[off + RECORD_HEADER_SIZE..end];
        if Checksum(c, body) != FromBigEndian(data[off + 8..off + 12]) then ScanBad
        else match c.decode(body)
          case None => ScanBad
          case Some(id) => Prepend([Stored(id, seg, off, end)], ScanFrom(c, seg, data, end))
  }

  /** A whole segment file: the header check, then the record scan; a torn tail
      is an error in a closed segment. */
  function ScanFile(c: Codec, seg: nat, data: bytes, active: bool): Scan {
    if |data| < SEGMENT_HEADER_SIZE then ScanBad
    else if data[..8] != SEGMENT_MAGIC || FromBigEndian(data[8..16]) != seg then ScanBad
    else match ScanFrom(c, seg, data, SEGMENT_HEADER_SIZE)
      case ScanBad => ScanBad
      case Scanned(es, sz, torn) => if torn && !active then ScanBad else Scanned(es, sz, torn)
  }

  /** `_scan_segment`, a loop over record headers. */
  method ScanSegment(c: Codec, seg: nat, data: bytes, active: bool) returns (r: Scan)
    ensures r == ScanFile(c, seg, data, active)
  {
    hide Prepend, FromBigEndian, Checksum;
    if |data| < SEGMENT_HEADER_SIZE { return ScanBad; }
    if data[..8] != SEGMENT_MAGIC || FromBigEndian(data[8..16]) != seg { return ScanBad; }
    var entries: seq<Stored> := [];
    var off := SEGMENT_HEADER_SIZE;
    var torn := false;
    ghost var all := ScanFrom(c, seg, data, SEGMENT_HEADER_SIZE);
    PrependEnds([], 0, false, all);
    while off < |data| && !torn
      invariant SEGMENT_HEADER_SIZE <= off <= |data|
      invariant all == Prepend(entries, if torn then Scanned([], off, true) else ScanFrom(c, seg, data, off))
      decreases |data| - off, !torn
    {
      PrependEnds(entries, off, true, ScanBad);
      if |data| - off < RECORD_HEADER_SIZE {
        torn := true;
      } else {
        if data[off..off + 4] != RECORD_MAGIC { return ScanBad; }
        var size := FromBigEndian(data[off + 4..off + 8]);
        if size > |data| - (off + RECORD_HEADER_SIZE) {
          torn := true;
        } else {
          var end := off + RECORD_HEADER_SIZE + size;
          var body := data[off + RECORD_HEADER_SIZE..end];
          if Checksum(c, body) != FromBigEndian(data[off + 8..off + 12]) { return ScanBad; }
          var id := c.decode(body);
          if id == None { return ScanBad; }
          var stored := Stored(id.value, seg, off, end);
          PrependOne(entries, stored, ScanFrom(c, seg, data, end));
          entries := entries + [stored];
          off := end;
        }
      }
    }
    PrependEnds(entries, off, torn, ScanBad);
    if torn && !active { return ScanBad; }
    r := Scanned(entries, off, torn);
  }

  /** A scan that reports no torn tail reached the end of the file. */
  lemma {:induction false} ScanEnds(c: Codec, seg: nat, data: bytes, off: nat)
    requires off <= |data| && ScanFrom(c, seg, data, off).Scanned?
    ensures var r := ScanFrom(c, seg, data, off); !r.torn ==> r.size == |data| && (r.entries == [] ==> off == |data|)
    decreases |data| - off
  {
    hide FromBigEndian, Checksum;
    if |data| - off >= RECORD_HEADER_SIZE {
      var end := off + RECORD_HEADER_SIZE + FromBigEndian(data[off + 4..off + 8]);
      if end <= |data| && ScanFrom(c, seg, data, end).Scanned? { ScanEnds(c, seg, data, end); }
    }
  }

  lemma UntornIsWhole(c: Codec, seg: nat, data: bytes, active: bool)
    requires ScanFile(c, seg, data, active).Scanned? && !ScanFile(c, seg, data, active).torn
    ensures ScanFile(c, seg, data, active).size == |data|
    ensures ScanFile(c, seg, data, active).entries == [] ==> |data| == SEGMENT_HEADER_SIZE
  {
    hide FromBigEndian, ScanFrom;
    ScanEnds(c, seg, data, SEGMENT_HEADER_SIZE);
  }

  // ---- Exactness of the scan ------------------------------------------------

  /** Reading the three header fields of a frame found at `off`. */
  lemma FrameFields(c: Codec, e: Envelope, data: bytes, off: nat)
    requires Storable(c, e)
    requires off + RECORD_HEADER_SIZE <= |data|
    requires data[off..off + RECORD_HEADER_SIZE] == Frame(c, e)[..RECORD_HEADER_SIZE]
    ensures data[off..off + 4] == RECORD_MAGIC
    ensures FromBigEndian(data[off + 4..off + 8]) == |e.body|
    ensures FromBigEndian(data[off + 8..off + 12]) == Checksum(c, e.body)
  {
    Pow256Values();
    BigEndianRoundTrip(|e.body|, 4);
    BigEndianRoundTrip(Checksum(c, e.body), 4);
    var h := data[off..off + RECORD_HEADER_SIZE];
    assert data[off..off + 4] == h[..4] == RECORD_MAGIC;
    assert data[off + 4..off + 8] == h[4..8] == BigEndian(|e.body|, 4);
    assert data[off + 8..off + 12] == h[8..12] == BigEndian(Checksum(c, e.body), 4);
  }

  /** One step of the scan over a frame that is wholly present. */
  lemma ScanStep(c: Codec, seg: nat, e: Envelope, data: bytes, off: nat)
    requires Storable(c, e)
    requires off + |Frame(c, e)| <= |data|
    requires data[off..off + |Frame(c, e)|] == Frame(c, e)
    ensures ScanFrom(c, seg, data, off)
         == Prepend([Stored(e.id, seg, off, off + |Frame(c, e)|)], ScanFrom(c, seg, data, off + |Frame(c, e)|))
  {
    var f := data[off..off + |Frame(c, e)|];
    assert data[off..off + RECORD_HEADER_SIZE] == f[..RECORD_HEADER_SIZE];
    FrameFields(c, e, data, off);
    assert data[off + RECORD_HEADER_SIZE..off + |Frame(c, e)|] == f[RECORD_HEADER_SIZE..] == e.body;
  }

  /** The scan stops, torn, at a frame of which only a proper prefix is present. */
  lemma ScanCut(c: Codec, seg: nat, e: Envelope, data: bytes, off: nat)
    requires Storable(c, e)
    requires off < |data| < off + |Frame(c, e)|
    requires data[off..] == Frame(c, e)[..|data| - off]
    ensures ScanFrom(c, seg, data, off) == Scanned([], off, true)
  {
    if |data| - off >= RECORD_HEADER_SIZE {
      assert data[off..off + RECORD_HEADER_SIZE] == data[off..][..RECORD_HEADER_SIZE];
      FrameFields(c, e, data, off);
    }
  }

  /** The scan's answer on records `es` written from byte `start` on, of which
      `len` bytes of the file are present. */
  function ExpectedScan(c: Codec, seg: nat, start: nat, es: seq<Envelope>, len: nat): Scan
    requires start <= len
  {
    var n := WholeIn(c, es, len - start);
    var size := start + |Blob(c, es[..n])|;
    Scanned(Entries(c, seg, start, es[..n]), size, size != len)
  }

  lemma ExpectedScanStep(c: Codec, seg: nat, start: nat, es: seq<Envelope>, len: nat)
    requires es != [] && start + |Frame(c, es[0])| <= len
    ensures var end := start + |Frame(c, es[0])|;
            ExpectedScan(c, seg, start, es, len)
            == Prepend([Stored(es[0].id, seg, start, end)], ExpectedScan(c, seg, end, es[1..], len))
  {
    var n := WholeIn(c, es[1..], len - start - |Frame(c, es[0])|);
    assert es[..n + 1][1..] == es[1..][..n];
  }

  /** Scanning records `es` written after `pre` and cut anywhere returns exactly
      the records lying wholly before the cut. */
  lemma {:induction false} ScanExact(c: Codec, seg: nat, pre: bytes, es: seq<Envelope>, data: bytes)
    requires AllStorable(c, es)
    requires |pre| <= |data| && data <= pre + Blob(c, es)
    ensures ScanFrom(c, seg, data, |pre|) == ExpectedScan(c, seg, |pre|, es, |data|)
    decreases |es|
  {
    hide Frame, BigEndian, FromBigEndian;
    if es == [] {
      assert data == pre;
    } else {
      var f, rest := Frame(c, es[0]), Blob(c, es[1..]);
      assert pre + Blob(c, es) == (pre + f) + rest;
      FramePresent(pre, f, rest, data);
      if |data| >= |pre| + |f| {
        ScanStep(c, seg, es[0], data, |pre|);
        ScanExact(c, seg, pre + f, es[1..], data);
        ExpectedScanStep(c, seg, |pre|, es, |data|);
      } else {
        assert es[..0] == [];
        if |data| > |pre| {
          ScanCut(c, seg, es[0], data, |pre|);
        }
      }
    }
  }

  lemma FramePresent(pre: bytes, f: bytes, rest: bytes, data: bytes)
    requires |pre| <= |data| && data <= (pre + f) + rest
    ensures |data| >= |pre| + |f| ==> data[|pre|..|pre| + |f|] == f
    ensures |data| < |pre| + |f| ==> data[|pre|..] == f[..|data| - |pre|]
  {
    var whole := (pre + f) + rest;
    assert data == whole[..|data|];
    if |data| >= |pre| + |f| {
      assert data[|pre|..|pre| + |f|] == whole[|pre|..|pre| + |f|];
    }
  }

  lemma HeaderReads(seg: nat, blob: bytes, data: bytes)
    requires seg <= MAX_SEGMENT_ID
    requires SEGMENT_HEADER_SIZE <= |data| && data <= SegmentHeader(seg) + blob
    ensures data[..8] == SEGMENT_MAGIC && FromBigEndian(data[8..16]) == seg
  {
    var image := SegmentHeader(seg) + blob;
    Pow256Values();
    BigEndianRoundTrip(seg, 8);
    assert data[..8] == image[..8] == SEGMENT_MAGIC;
    assert data[8..16] == image[8..16] == BigEndian(seg, 8);
  }

  /** Torn-tail recovery: cut a segment file at any byte at or after its header. */
  lemma TornTailExact(c: Codec, seg: nat, es: seq<Envelope>, data: bytes, active: bool)
    requires AllStorable(c, es) && seg <= MAX_SEGMENT_ID
    requires SEGMENT_HEADER_SIZE <= |data| && data <= Image(c, seg, es)
    ensures var n := WholeIn(c, es, |data| - SEGMENT_HEADER_SIZE);
            var size := Offset(c, es, n);
            && (forall k: nat | k <= |es| :: k <= n <==> Offset(c, es, k) <= |data|)
            && size <= |data|
            && ScanFile(c, seg, data, active) ==
                 if size != |data| && !active then ScanBad
                 else Scanned(Entries(c, seg, SEGMENT_HEADER_SIZE, es[..n]), size, size != |data|)
  {
    hide Frame, BigEndian, FromBigEndian, SegmentHeader, WholeIn, ScanFrom, Blob, Entries;
    HeaderReads(seg, Blob(c, es), data);
    ScanExact(c, seg, SegmentHeader(seg), es, data);
    forall k: nat | k <= |es|
      ensures k <= WholeIn(c, es, |data| - SEGMENT_HEADER_SIZE) <==> Offset(c, es, k) <= |data|
    {
      WholeInIsLargest(c, es, |data| - SEGMENT_HEADER_SIZE, k);
    }
  }

  /** A whole segment scans to all its records. */
  lemma WholeSegmentScans(c: Codec, seg: nat, es: seq<Envelope>, active: bool)
    requires AllStorable(c, es) && seg <= MAX_SEGMENT_ID
    ensures ScanFile(c, seg, Image(c, seg, es), active)
         == Scanned(Entries(c, seg, SEGMENT_HEADER_SIZE, es), |Image(c, seg, es)|, false)
  {
    assert es[..|es|] == es;
    assert Offset(c, es, |es|) == |Image(c, seg, es)|;
    TornTailExact(c, seg, es, Image(c, seg, es), active);
  }

  lemma ImageConcat(c: Codec, seg: nat, a: seq<Envelope>, b: seq<Envelope>)
    ensures Image(c, seg, a + b) == Image(c, seg, a) + Blob(c, b)
  {
    BlobConcat(c, a, b);
  }

  /** A file cut at or after record boundary `n` begins with the first `n` records. */
  lemma CutKeepsPrefix(c: Codec, seg: nat, es: seq<Envelope>, data: bytes, n: nat)
    requires n <= |es| && Offset(c, es, n) <= |data| && data <= Image(c, seg, es)
    ensures |Image(c, seg, es[..n])| == Offset(c, es, n)
    ensures data[..Offset(c, es, n)] == Image(c, seg, es[..n])
  {
    hide Frame, BigEndian;
    assert es == es[..n] + es[n..];
    ImageConcat(c, seg, es[..n], es[n..]);
  }

  lemma StorableParts(c: Codec, es: seq<Envelope>, more: seq<Envelope>, n: nat)
    requires AllStorable(c, es) && AllStorable(c, more) && n <= |es|
    ensures AllStorable(c, es[..n] + more)
  {
  }

  /** Repair then append: truncating at the reported size and writing more
      records rescans to the survivors followed by the new records. */
  lemma RepairThenAppend(c: Codec, seg: nat, es: seq<Envelope>, data: bytes, more: seq<Envelope>)
    requires AllStorable(c, es) && AllStorable(c, more) && seg <= MAX_SEGMENT_ID
    requires SEGMENT_HEADER_SIZE <= |data| && data <= Image(c, seg, es)
    ensures var scan := ScanFile(c, seg, data, true);
            && scan.Scanned? && scan.size <= |data|
            && ScanFile(c, seg, data[..scan.size] + Blob(c, more), true)
               == Scanned(Entries(c, seg, SEGMENT_HEADER_SIZE,
                                  es[..WholeIn(c, es, |data| - SEGMENT_HEADER_SIZE)] + more),
                          scan.size + |Blob(c, more)|, false)
  {
    hide Image, Blob, ScanFile, WholeIn, Entries, AllStorable;
    StorableParts(c, es, more, WholeIn(c, es, |data| - SEGMENT_HEADER_SIZE));
    var n := WholeIn(c, es, |data| - SEGMENT_HEADER_SIZE);
    TornTailExact(c, seg, es, data, true);
    CutKeepsPrefix(c, seg, es, data, n);
    ImageConcat(c, seg, es[..n], more);
    WholeSegmentScans(c, seg, es[..n] + more, true);
  }

  // ---- Reading one indexed record -------------------------------------------

  /** `_read_envelope_locked`: the body of one indexed record; None is OutboxError. */
  function ReadRecord(c: Codec, data: bytes, item: Stored): Option<bytes> {
    if !(item.start <= item.end <= |data|) then None
    else
      var raw := data[item.start..item.end];
      if |raw| < RECORD_HEADER_SIZE then None
      else
        var body := raw[RECORD_HEADER_SIZE..];
        if raw[..4] != RECORD_MAGIC || FromBigEndian(raw[4..8]) != |body|
           || FromBigEndian(raw[8..12]) != Checksum(c, body) then None
        else if c.decode(body) != Some(item.id) then None
        else Some(body)
  }

  lemma ReadFrame(c: Codec, seg: nat, e: Envelope, data: bytes, off: nat)
    requires Storable(c, e)
    requires off + |Frame(c, e)| <= |data| && data[off..off + |Frame(c, e)|] == Frame(c, e)
    ensures ReadRecord(c, data, Stored(e.id, seg, off, off + |Frame(c, e)|)) == Some(e.body)
  {
    var f := Frame(c, e);
    assert f[0..RECORD_HEADER_SIZE] == f[..RECORD_HEADER_SIZE];
    FrameFields(c, e, f, 0);
    assert f[0..4] == f[..4];
    assert f[RECORD_HEADER_SIZE..] == e.body;
  }

  /** Reading the k-th entry of a segment returns the k-th record's bytes, even
      after more bytes were appended to the file. */
  lemma {:induction false} ReadEntry(c: Codec, seg: nat, pre: bytes, es: seq<Envelope>, data: bytes, k: nat)
    requires AllStorable(c, es) && k < |es|
    requires pre + Blob(c, es) <= data
    ensures ReadRecord(c, data, Entries(c, seg, |pre|, es)[k]) == Some(es[k].body)
    decreases k
  {
    hide Frame, BigEndian, FromBigEndian, ReadRecord;
    var f, rest := Frame(c, es[0]), Blob(c, es[1..]);
    assert pre + Blob(c, es) == (pre + f) + rest;
    if k == 0 {
      assert data[|pre|..|pre| + |f|] == ((pre + f) + rest)[|pre|..|pre| + |f|] == f;
      ReadFrame(c, seg, es[0], data, |pre|);
    } else {
      ReadEntry(c, seg, pre + f, es[1..], data, k - 1);
    }
  }
}
