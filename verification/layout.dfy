/** How records are distributed over numbered segments: one at a time, in
    batches, and when a storage directory is built from scratch
    (reliomq/outbox.py:437-485, 541-547, 756-788). */
module Layout {
  import opened Framing

  /** Segment contents in ID order; the last one is active. */
  type Segments = seq<seq<Envelope>>

  datatype Limits = Limits(maxBytes: nat, maxRecords: nat) {
    /** The constructor rejects non-positive limits. */
    predicate Positive() { maxBytes > 0 && maxRecords > 0 }
  }

  function Flat(segs: Segments): seq<Envelope> {
    if segs == [] then [] else segs[0] + Flat(segs[1..])
  }

  lemma {:induction false} FlatConcat(a: Segments, b: Segments)
    ensures Flat(a + b) == Flat(a) + Flat(b)
    decreases |a|
  {
    if a == [] {
      assert a + b == b;
    } else {
      FlatConcat(a[1..], b);
      assert (a + b)[1..] == a[1..] + b;
    }
  }

  lemma FlatSnoc(segs: Segments, es: seq<Envelope>)
    ensures Flat(segs + [es]) == Flat(segs) + es
  {
    FlatConcat(segs, [es]);
    assert Flat([es]) == es + Flat([es][1..]);
  }

  function Active(segs: Segments): seq<Envelope>
    requires segs != []
  {
    segs[|segs| - 1]
  }

  function WithActive(segs: Segments, es: seq<Envelope>): (r: Segments)
    requires segs != []
    ensures |r| == |segs| && Active(r) == es && r[..|r| - 1] == segs[..|segs| - 1]
  {
    segs[..|segs| - 1] + [es]
  }

  lemma FlatWithActive(segs: Segments, more: seq<Envelope>)
    requires segs != []
    ensures Flat(WithActive(segs, Active(segs) + more)) == Flat(segs) + more
    ensures Flat(segs + [[]]) == Flat(segs)
  {
    var init := segs[..|segs| - 1];
    assert segs == init + [Active(segs)];
    FlatSnoc(init, Active(segs));
    FlatSnoc(init, Active(segs) + more);
    FlatSnoc(segs, []);
    assert Flat(init) + (Active(segs) + more) == (Flat(init) + Active(segs)) + more;
  }

  /** Byte size of a segment file holding `es`. */
  function Size(c: Codec, es: seq<Envelope>): nat {
    SEGMENT_HEADER_SIZE + |Blob(c, es)|
  }

  /** `_would_rotate_locked`. */
  predicate WouldRotate(c: Codec, l: Limits, es: seq<Envelope>, e: Envelope) {
    es != [] && (|es| >= l.maxRecords || Size(c, es) + |Frame(c, e)| > l.maxBytes)
  }

  /** Appending a single record, rotating first when it would not fit. */
  function AppendOne(c: Codec, l: Limits, segs: Segments, e: Envelope): (r: Segments)
    requires segs != []
    ensures r != []
  {
    if WouldRotate(c, l, Active(segs), e) then segs + [[e]]
    else WithActive(segs, Active(segs) + [e])
  }

  /** Appending records one at a time: the reference layout. */
  function AppendEach(c: Codec, l: Limits, segs: Segments, es: seq<Envelope>): (r: Segments)
    requires segs != []
    ensures r != []
    decreases |es|
  {
    if es == [] then segs else AppendEach(c, l, AppendOne(c, l, segs, es[0]), es[1..])
  }

  /** How many more of `es` the chunk loop takes after `taken` records of `used` bytes. */
  function ChunkLength(c: Codec, es: seq<Envelope>, records: int, space: int, taken: nat, used: nat): (n: nat)
    ensures n <= |es|
    decreases |es|
  {
    if es == [] then 0
    else
      var size := |Frame(c, es[0])|;
      if taken > 0 && (taken >= records || used + size > space) then 0
      else if taken == 0 && size > space then 1
      else if taken >= records || used + size > space then 0
      else 1 + ChunkLength(c, es[1..], records, space, taken + 1, used + size)
  }

  /** The `for envelope, frame in remaining` loop of `_append_many_locked`. */
  method SelectChunk(c: Codec, es: seq<Envelope>, records: int, space: int) returns (n: nat, used: nat)
    ensures n == ChunkLength(c, es, records, space, 0, 0)
    ensures n <= |es| && used == |Blob(c, es[..n])|
  {
    n, used := 0, 0;
    ghost var goal := ChunkLength(c, es, records, space, 0, 0);
    while n < |es|
      invariant n <= |es| && used == |Blob(c, es[..n])|
      invariant goal == n + ChunkLength(c, es[n..], records, space, n, used)
    {
      var size := |Frame(c, es[n])|;
      BlobOfPrefix(c, es, n);
      if n > 0 && (n >= records || used + size > space) { return; }
      if n == 0 && size > space {
        // A record larger than a whole segment gets one to itself.
        return 1, used + size;
      }
      if n >= records || used + size > space { return; }
      assert es[n..][1..] == es[n + 1..];
      n, used := n + 1, used + size;
    }
  }

  lemma BlobOfPrefix(c: Codec, es: seq<Envelope>, n: nat)
    requires n < |es|
    ensures |Blob(c, es[..n + 1])| == |Blob(c, es[..n])| + |Frame(c, es[n])|
  {
    assert es[..n + 1] == es[..n] + [es[n]];
    BlobConcat(c, es[..n], [es[n]]);
  }

  /** The batch loop: rotate if the first record would not fit, take a chunk,
      rotate again while records remain. */
  function AppendBatch(c: Codec, l: Limits, segs: Segments, es: seq<Envelope>): Segments
    requires segs != [] && l.Positive()
    decreases |es|
  {
    if es == [] then segs
    else
      var segs1 := if WouldRotate(c, l, Active(segs), es[0]) then segs + [[]] else segs;
      var n := ChunkFor(c, l, segs1, es);
      var segs2 := WithActive(segs1, Active(segs1) + es[..n]);
      if n == |es| then segs2 else AppendBatch(c, l, segs2 + [[]], es[n..])
  }

  /** The chunk taken when the active segment does not want to rotate. It is
      never empty, so the `if not chunk` branch is dead code. */
  function ChunkFor(c: Codec, l: Limits, segs: Segments, es: seq<Envelope>): (n: nat)
    requires segs != [] && l.Positive() && es != [] && !WouldRotate(c, l, Active(segs), es[0])
    ensures 1 <= n <= |es|
  {
    ChunkLength(c, es, l.maxRecords - |Active(segs)|, l.maxBytes - Size(c, Active(segs)), 0, 0)
  }

  lemma RotateEarly(c: Codec, l: Limits, segs: Segments, es: seq<Envelope>)
    requires segs != [] && es != [] && WouldRotate(c, l, Active(segs), es[0])
    ensures AppendEach(c, l, segs + [[]], es) == AppendEach(c, l, segs, es)
  {
    assert (segs + [[]])[..|segs|] == segs;
    assert [] + [es[0]] == [es[0]];
  }

  /** None of the first `n` records of `es` makes a segment holding `start` rotate. */
  ghost predicate AllFit(c: Codec, l: Limits, start: seq<Envelope>, es: seq<Envelope>, n: nat)
    requires n <= |es|
    decreases n
  {
    n == 0 || (!WouldRotate(c, l, start, es[0]) && AllFit(c, l, start + [es[0]], es[1..], n - 1))
  }

  lemma SizeSnoc(c: Codec, a: seq<Envelope>, e: Envelope)
    ensures |Blob(c, a + [e])| == |Blob(c, a)| + |Frame(c, e)|
  {
    BlobConcat(c, a, [e]);
    assert Blob(c, [e]) == Frame(c, e) + Blob(c, [e][1..]);
  }

  /** After a non-empty chunk prefix `got`, the chunk loop takes exactly the
      records that fit, and the next one would have rotated. */
  lemma {:induction false} ChunkTail(c: Codec, l: Limits, start: seq<Envelope>, got: seq<Envelope>, es: seq<Envelope>)
    requires got != []
    ensures var n := ChunkLength(c, es, l.maxRecords - |start|, l.maxBytes - Size(c, start), |got|, |Blob(c, got)|);
            && AllFit(c, l, start + got, es, n)
            && (n < |es| ==> WouldRotate(c, l, (start + got) + es[..n], es[n]))
    decreases |es|
  {
    hide Frame, Blob;
    BlobConcat(c, start, got);
    var n := ChunkLength(c, es, l.maxRecords - |start|, l.maxBytes - Size(c, start), |got|, |Blob(c, got)|);
    if n == 0 {
      assert (start + got) + es[..0] == start + got;
    } else {
      SizeSnoc(c, got, es[0]);
      ChunkTail(c, l, start, got + [es[0]], es[1..]);
      assert start + (got + [es[0]]) == (start + got) + [es[0]];
      assert ((start + got) + [es[0]]) + es[1..][..n - 1] == (start + got) + es[..n];
    }
  }

  /** Records that fit go to the active segment one at a time. */
  lemma {:induction false} FittingRecords(c: Codec, l: Limits, segs: Segments, es: seq<Envelope>, n: nat)
    requires segs != [] && n <= |es| && AllFit(c, l, Active(segs), es, n)
    ensures AppendEach(c, l, segs, es) == AppendEach(c, l, WithActive(segs, Active(segs) + es[..n]), es[n..])
    decreases n
  {
    hide WouldRotate;
    if n == 0 {
      assert Active(segs) + es[..0] == Active(segs);
      assert WithActive(segs, Active(segs)) == segs;
      assert es[0..] == es;
    } else {
      var next := WithActive(segs, Active(segs) + [es[0]]);
      FittingRecords(c, l, next, es[1..], n - 1);
      assert Active(next) + es[1..][..n - 1] == Active(segs) + es[..n];
      assert es[1..][n - 1..] == es[n..];
    }
  }

  /** A whole chunk, including the oversized singleton. */
  lemma ChunkRefines(c: Codec, l: Limits, segs: Segments, es: seq<Envelope>)
    requires segs != [] && l.Positive() && es != [] && !WouldRotate(c, l, Active(segs), es[0])
    ensures var n := ChunkFor(c, l, segs, es);
            && AppendEach(c, l, segs, es)
               == AppendEach(c, l, WithActive(segs, Active(segs) + es[..n]), es[n..])
            && (n < |es| ==> WouldRotate(c, l, Active(segs) + es[..n], es[n]))
  {
    hide WouldRotate, AllFit, ChunkLength, AppendEach, AppendOne, WithActive, Size;
    ChunkFits(c, l, Active(segs), es);
    FittingRecords(c, l, segs, es, ChunkFor(c, l, segs, es));
  }

  lemma ChunkFits(c: Codec, l: Limits, start: seq<Envelope>, es: seq<Envelope>)
    requires l.Positive() && es != [] && !WouldRotate(c, l, start, es[0])
    ensures var n := ChunkLength(c, es, l.maxRecords - |start|, l.maxBytes - Size(c, start), 0, 0);
            && AllFit(c, l, start, es, n)
            && (n < |es| ==> WouldRotate(c, l, start + es[..n], es[n]))
  {
    hide Blob, Frame, WouldRotate, AllFit;
    var space := l.maxBytes - Size(c, start);
    if |Frame(c, es[0])| <= space {
      FirstFits(c, l, start, es);
      assert l.maxRecords - |start| > 0 by { RoomLeft(c, l, start, es[0]); }
    } else {
      Oversized(c, l, start, es);
    }
  }

  lemma RoomLeft(c: Codec, l: Limits, start: seq<Envelope>, e: Envelope)
    requires l.Positive() && !WouldRotate(c, l, start, e)
    ensures |start| < l.maxRecords
  {
  }

  lemma FirstFits(c: Codec, l: Limits, start: seq<Envelope>, es: seq<Envelope>)
    requires es != [] && !WouldRotate(c, l, start, es[0])
    ensures var n := 1 + ChunkLength(c, es[1..], l.maxRecords - |start|, l.maxBytes - Size(c, start), 1,
                                     |Frame(c, es[0])|);
            && AllFit(c, l, start, es, n)
            && (n < |es| ==> WouldRotate(c, l, start + es[..n], es[n]))
  {
    hide Blob, Frame, WouldRotate, ChunkLength;
    var first, rest := [es[0]], es[1..];
    SingletonSize(c, es[0]);
    var m := ChunkLength(c, rest, l.maxRecords - |start|, l.maxBytes - Size(c, start), 1, |Frame(c, es[0])|);
    ChunkTail(c, l, start, first, rest);
    PrefixShift(start, es, m);
  }

  lemma SingletonSize(c: Codec, e: Envelope)
    ensures |Blob(c, [e])| == |Frame(c, e)|
  {
    assert Blob(c, [e]) == Frame(c, e) + Blob(c, [e][1..]);
  }

  lemma PrefixShift(start: seq<Envelope>, es: seq<Envelope>, m: nat)
    requires m < |es|
    ensures (start + [es[0]]) + es[1..][..m] == start + es[..m + 1]
  {
  }

  lemma Oversized(c: Codec, l: Limits, start: seq<Envelope>, es: seq<Envelope>)
    requires es != [] && !WouldRotate(c, l, start, es[0]) && |Frame(c, es[0])| > l.maxBytes - Size(c, start)
    ensures AllFit(c, l, start, es, 1)
    ensures 1 < |es| ==> WouldRotate(c, l, start + es[..1], es[1])
  {
    hide Frame, Blob;
    SizeSnoc(c, start, es[0]);
    assert es[..1] == [es[0]];
    assert AllFit(c, l, start + [es[0]], es[1..], 0);
  }

  /** Batch append leaves exactly the layout of appending one at a time. */
  lemma {:induction false} BatchRefinesSingles(c: Codec, l: Limits, segs: Segments, es: seq<Envelope>)
    requires segs != [] && l.Positive()
    ensures AppendBatch(c, l, segs, es) == AppendEach(c, l, segs, es)
    decreases |es|
  {
    hide WouldRotate, WithActive, ChunkLength;
    if es != [] {
      var segs1 := segs;
      if WouldRotate(c, l, Active(segs), es[0]) {
        RotateEarly(c, l, segs, es);
        segs1 := segs + [[]];
        EmptyNeverRotates(c, l, es[0]);
      }
      ChunkRefines(c, l, segs1, es);
      var n := ChunkFor(c, l, segs1, es);
      var segs2 := WithActive(segs1, Active(segs1) + es[..n]);
      if n < |es| {
        RotateEarly(c, l, segs2, es[n..]);
        BatchRefinesSingles(c, l, segs2 + [[]], es[n..]);
      } else {
        assert es[n..] == [];
      }
    }
  }

  lemma EmptyNeverRotates(c: Codec, l: Limits, e: Envelope)
    ensures !WouldRotate(c, l, [], e)
  {
  }

  lemma {:induction false} AppendEachSnoc(c: Codec, l: Limits, segs: Segments, es: seq<Envelope>, e: Envelope)
    requires segs != []
    ensures AppendEach(c, l, segs, es + [e]) == AppendOne(c, l, AppendEach(c, l, segs, es), e)
    decreases |es|
  {
    hide AppendOne;
    if es == [] {
      assert AppendEach(c, l, segs, [e]) == AppendEach(c, l, AppendOne(c, l, segs, e), [e][1..]);
      assert [] + [e] == [e];
    } else {
      AppendEachSnoc(c, l, AppendOne(c, l, segs, es[0]), es[1..], e);
      assert (es + [e])[1..] == es[1..] + [e];
    }
  }

  lemma AppendOneFlat(c: Codec, l: Limits, segs: Segments, e: Envelope)
    requires segs != []
    ensures Flat(AppendOne(c, l, segs, e)) == Flat(segs) + [e]
  {
    hide WouldRotate, WithActive, Flat;
    FlatWithActive(segs, [e]);
    FlatSnoc(segs, [e]);
  }

  /** No record is lost, repeated or reordered by any of the three layouts. */
  lemma {:induction false} AppendEachFlat(c: Codec, l: Limits, segs: Segments, es: seq<Envelope>)
    requires segs != []
    ensures Flat(AppendEach(c, l, segs, es)) == Flat(segs) + es
    decreases |es|
  {
    hide AppendOne, Flat;
    if es != [] {
      AppendOneFlat(c, l, segs, es[0]);
      AppendEachFlat(c, l, AppendOne(c, l, segs, es[0]), es[1..]);
      assert es == [es[0]] + es[1..];
      assert Flat(segs) + es == (Flat(segs) + [es[0]]) + es[1..];
    }
  }

  /** `_build_storage_directory`: the segments written for a list of envelopes. */
  method BuildSegments(c: Codec, l: Limits, pending: seq<Envelope>) returns (segs: Segments)
    requires l.Positive()
    ensures segs == AppendEach(c, l, [[]], pending)
  {
    var written: Segments := [];
    var current: seq<Envelope> := [];
    var size := SEGMENT_HEADER_SIZE;
    var i := 0;
    while i < |pending|
      invariant i <= |pending| && size == Size(c, current)
      invariant written + [current] == AppendEach(c, l, [[]], pending[..i])
    {
      hide Frame, Blob, AppendEach, AppendOne, WouldRotate;
      var e := pending[i];
      BuildOne(c, l, pending, i, written, current);
      if current != [] && (|current| >= l.maxRecords || size + |Frame(c, e)| > l.maxBytes) {
        written := written + [current];
        current := [];
        size := SEGMENT_HEADER_SIZE;
      }
      SizeSnoc(c, current, e);
      current := current + [e];
      size := size + |Frame(c, e)|;
      i := i + 1;
    }
    assert pending[..|pending|] == pending;
    segs := written + [current];
  }

  lemma BuildOne(c: Codec, l: Limits, pending: seq<Envelope>, i: nat, written: Segments, current: seq<Envelope>)
    requires i < |pending| && written + [current] == AppendEach(c, l, [[]], pending[..i])
    ensures AppendEach(c, l, [[]], pending[..i + 1])
         == if current != [] && (|current| >= l.maxRecords || Size(c, current) + |Frame(c, pending[i])| > l.maxBytes)
            then written + [current] + [[] + [pending[i]]] else written + [current + [pending[i]]]
    ensures Size(c, []) == SEGMENT_HEADER_SIZE
  {
    hide Frame, AppendEach;
    assert pending[..i + 1] == pending[..i] + [pending[i]];
    AppendEachSnoc(c, l, [[]], pending[..i], pending[i]);
    assert (written + [current])[..|written|] == written;
    assert [] + [pending[i]] == [pending[i]];
  }
}
