/** The consumer's bounded duplicate filter (examples/consumer_dedup.py:38-65). */
module ConsumerDedup {
  import opened Framing

  const MAX_REMEMBERED_IDS: nat := 10_000

  predicate NoRepeats(s: seq<Id>) {
    forall i, j | 0 <= i < j < |s| :: s[i] != s[j]
  }

  function Remove(s: seq<Id>, x: Id): (r: seq<Id>)
    ensures |r| <= |s|
  {
    if s == [] then [] else if s[0] == x then s[1..] else [s[0]] + Remove(s[1..], x)
  }

  /** The IDs of a stream, least recently seen first. */
  function Recent(t: seq<Id>): seq<Id> {
    if t == [] then [] else Remove(Recent(t[..|t| - 1]), t[|t| - 1]) + [t[|t| - 1]]
  }

  function Newest(s: seq<Id>, n: nat): (r: seq<Id>)
    ensures |r| <= n && |r| <= |s|
  {
    if |s| <= n then s else s[|s| - n..]
  }

  lemma {:induction false} RemoveAbsent(s: seq<Id>, x: Id)
    requires x !in s
    ensures Remove(s, x) == s
  {
    if s != [] { RemoveAbsent(s[1..], x); }
  }

  lemma {:induction false} RemoveSplit(a: seq<Id>, x: Id, b: seq<Id>)
    requires x !in a
    ensures Remove(a + [x] + b, x) == a + b
  {
    if a == [] {
      assert ([] + [x] + b)[1..] == b;
    } else {
      RemoveSplit(a[1..], x, b);
      RemoveHead(a[0], a[1..] + [x] + b, x);
      assert a + [x] + b == [a[0]] + (a[1..] + [x] + b);
      assert a + b == [a[0]] + (a[1..] + b);
    }
  }

  lemma RemoveHead(h: Id, s: seq<Id>, x: Id)
    requires h != x
    ensures Remove([h] + s, x) == [h] + Remove(s, x)
  {
    assert ([h] + s)[1..] == s;
  }

  lemma {:induction false} RemoveMembers(s: seq<Id>, x: Id)
    requires NoRepeats(s)
    ensures NoRepeats(Remove(s, x)) && x !in Remove(s, x)
    ensures forall y | y != x :: y in Remove(s, x) <==> y in s
  {
    if s != [] {
      assert NoRepeats(s[1..]);
      RemoveMembers(s[1..], x);
      assert s == [s[0]] + s[1..];
      assert s[0] !in s[1..];
    }
  }

  lemma {:induction false} RecentMembers(t: seq<Id>)
    ensures NoRepeats(Recent(t)) && forall y :: y in Recent(t) <==> y in t
    decreases |t|
  {
    if t != [] {
      var init, x := t[..|t| - 1], t[|t| - 1];
      RecentMembers(init);
      RemoveMembers(Recent(init), x);
      assert t == init + [x];
    }
  }

  function Members(t: seq<Id>): set<Id> {
    set i | 0 <= i < |t| :: t[i]
  }

  lemma {:induction false} CountDistinct(s: seq<Id>)
    requires NoRepeats(s)
    ensures |Members(s)| == |s|
  {
    if s != [] {
      assert NoRepeats(s[1..]);
      CountDistinct(s[1..]);
      assert Members(s) == Members(s[1..]) + {s[0]} by {
        assert s == [s[0]] + s[1..];
        forall y | y in Members(s)
          ensures y in Members(s[1..]) + {s[0]}
        {
          var i :| 0 <= i < |s| && s[i] == y;
          if i > 0 { assert s[1..][i - 1] == y; }
        }
      }
      assert s[0] !in Members(s[1..]);
    }
  }

  /** `x` was last seen `|d|` distinct other IDs ago. */
  predicate LastSeen(t: seq<Id>, x: Id, i: nat) {
    i < |t| && t[i] == x && forall k | i < k < |t| :: t[k] != x
  }

  /** The IDs seen since are exactly those listed after `x`. */
  lemma {:induction false} RecentAround(t: seq<Id>, x: Id, i: nat) returns (a: seq<Id>, b: seq<Id>)
    requires LastSeen(t, x, i)
    ensures Recent(t) == a + [x] + b && x !in a && NoRepeats(b) && Members(b) == Members(t[i + 1..])
    decreases |t|
  {
    var init, y := t[..|t| - 1], t[|t| - 1];
    assert t == init + [y];
    RecentMembers(init);
    if i == |t| - 1 {
      RemoveMembers(Recent(init), x);
      a, b := Remove(Recent(init), x), [];
      assert t[i + 1..] == [];
    } else {
      var a0, b0 := RecentAround(init, x, i);
      a, b := TouchAround(a0, x, b0, y);
      assert t[i + 1..] == init[i + 1..] + [y];
      MembersSnoc(init[i + 1..], y);
    }
  }

  lemma MembersSnoc(s: seq<Id>, y: Id)
    ensures Members(s + [y]) == Members(s) + {y}
  {
    forall z | z in Members(s) + {y}
      ensures z in Members(s + [y])
    {
      if z in Members(s) {
        var i :| 0 <= i < |s| && s[i] == z;
        assert (s + [y])[i] == z;
      } else {
        assert (s + [y])[|s|] == z;
      }
    }
  }

  lemma TouchAround(a0: seq<Id>, x: Id, b0: seq<Id>, y: Id) returns (a: seq<Id>, b: seq<Id>)
    requires y != x && NoRepeats(a0 + [x] + b0)
    ensures Remove(a0 + [x] + b0, y) + [y] == a + [x] + b
    ensures x !in a && NoRepeats(b) && Members(b) == Members(b0) + {y}
  {
    Parts(a0, x, b0);
    if y in a0 {
      a, b := TouchLeft(a0, x, b0, y);
    } else if y in b0 {
      a, b := TouchRight(a0, x, b0, y);
    } else {
      RemoveAbsent(a0 + [x] + b0, y);
      a, b := a0, b0 + [y];
      assert a0 + [x] + b0 + [y] == a + [x] + b;
      AppendDistinct(b0, y);
    }
  }

  lemma TouchLeft(a0: seq<Id>, x: Id, b0: seq<Id>, y: Id) returns (a: seq<Id>, b: seq<Id>)
    requires y in a0 && x !in a0 && NoRepeats(a0) && NoRepeats(b0) && y !in b0
    ensures Remove(a0 + [x] + b0, y) + [y] == a + [x] + b
    ensures x !in a && NoRepeats(b) && Members(b) == Members(b0) + {y}
  {
    hide Remove, Members;
    var k :| 0 <= k < |a0| && a0[k] == y;
    var left, right := a0[..k], a0[k + 1..] + [x] + b0;
    assert a0 + [x] + b0 == left + [y] + right;
    RemoveSplit(left, y, right);
    a, b := left + a0[k + 1..], b0 + [y];
    assert left + right + [y] == a + [x] + b;
    AppendDistinct(b0, y);
  }

  lemma TouchRight(a0: seq<Id>, x: Id, b0: seq<Id>, y: Id) returns (a: seq<Id>, b: seq<Id>)
    requires y in b0 && y != x && y !in a0 && x !in a0 && NoRepeats(b0)
    ensures Remove(a0 + [x] + b0, y) + [y] == a + [x] + b
    ensures x !in a && NoRepeats(b) && Members(b) == Members(b0) + {y}
  {
    hide Remove, Members;
    var k :| 0 <= k < |b0| && b0[k] == y;
    var left, right := a0 + [x] + b0[..k], b0[k + 1..];
    assert a0 + [x] + b0 == left + [y] + right;
    RemoveSplit(left, y, right);
    a, b := a0, b0[..k] + right + [y];
    assert left + right + [y] == a + [x] + b;
    Rotated(b0, k);
    MemberOf(b0, k);
  }

  lemma MemberOf(b: seq<Id>, k: nat)
    requires k < |b|
    ensures b[k] in Members(b)
  {
  }

  lemma Parts(a: seq<Id>, x: Id, b: seq<Id>)
    requires NoRepeats(a + [x] + b)
    ensures NoRepeats(a) && NoRepeats(b) && x !in a && x !in b && (forall y | y in a :: y !in b)
  {
    var s := a + [x] + b;
    assert s[|a|] == x;
    assert forall i | 0 <= i < |a| :: s[i] == a[i];
    assert forall i | 0 <= i < |b| :: s[|a| + 1 + i] == b[i];
  }

  lemma AppendDistinct(b: seq<Id>, y: Id)
    requires NoRepeats(b) && y !in b
    ensures NoRepeats(b + [y]) && Members(b + [y]) == Members(b) + {y}
  {
    MembersSnoc(b, y);
  }

  lemma Rotated(b: seq<Id>, k: nat)
    requires NoRepeats(b) && k < |b|
    ensures NoRepeats(b[..k] + b[k + 1..] + [b[k]]) && Members(b[..k] + b[k + 1..] + [b[k]]) == Members(b) + {b[k]}
  {
    var r := b[..k] + b[k + 1..] + [b[k]];
    forall y | y in Members(b)
      ensures y in Members(r)
    {
      var i :| 0 <= i < |b| && b[i] == y;
      assert r[if i < k then i else if i == k then |b| - 1 else i - 1] == y;
    }
  }

  /** The `n` most recently seen IDs contain `x` exactly when fewer than `n` distinct
      others were seen since. */
  lemma NewestContains(t: seq<Id>, x: Id, i: nat, n: nat)
    requires LastSeen(t, x, i)
    ensures x in Newest(Recent(t), n) <==> |Members(t[i + 1..])| < n
  {
    var a, b := RecentAround(t, x, i);
    CountDistinct(b);
    RecentMembers(t);
    var r := Recent(t);
    Parts(a, x, b);
    if |b| < n {
      assert |r| <= n || r[|r| - n..][|a| - (|r| - n)] == x;
      assert |r| <= n ==> r[|a|] == x;
    } else if |r| > n {
      assert r[|r| - n..] == b[|b| - n..];
    }
  }

  /** One step of the bounded filter keeps the most recent IDs of the stream. */
  lemma NewestTouch(r: seq<Id>, x: Id, n: nat)
    requires NoRepeats(r) && n > 0
    ensures var s := Newest(r, n);
            Newest(Remove(r, x) + [x], n) ==
              if x in s then Remove(s, x) + [x]
              else if |s + [x]| > n then (s + [x])[1..] else s + [x]
  {
    var s := Newest(r, n);
    if x in s {
      TouchNewest(r, x, n);
    } else if x in r {
      TouchOlder(r, x, n);
    } else {
      RemoveAbsent(r, x);
    }
  }

  lemma Position(r: seq<Id>, x: Id) returns (k: nat)
    requires NoRepeats(r) && x in r
    ensures k < |r| && r[k] == x && x !in r[..k] && r == r[..k] + [x] + r[k + 1..]
    ensures Remove(r, x) == r[..k] + r[k + 1..]
  {
    k :| 0 <= k < |r| && r[k] == x;
    assert r == r[..k] + [x] + r[k + 1..];
    RemoveSplit(r[..k], x, r[k + 1..]);
  }

  lemma TouchNewest(r: seq<Id>, x: Id, n: nat)
    requires NoRepeats(r) && x in Newest(r, n)
    ensures Newest(Remove(r, x) + [x], n) == Remove(Newest(r, n), x) + [x]
  {
    var s := Newest(r, n);
    var a := r[..|r| - |s|];
    assert r == a + s;
    NotBoth(a, s, x);
    RemoveAfter(a, s, x);
    var k := Position(s, x);
    assert a + Remove(s, x) + [x] == a + (Remove(s, x) + [x]);
  }

  lemma NotBoth(a: seq<Id>, b: seq<Id>, x: Id)
    requires NoRepeats(a + b) && x in b
    ensures x !in a && NoRepeats(b)
  {
    assert forall i | 0 <= i < |a| :: (a + b)[i] == a[i];
    assert forall i | 0 <= i < |b| :: (a + b)[|a| + i] == b[i];
  }

  lemma {:induction false} RemoveAfter(a: seq<Id>, b: seq<Id>, x: Id)
    requires x !in a
    ensures Remove(a + b, x) == a + Remove(b, x)
  {
    if a == [] {
      assert a + b == b;
    } else {
      RemoveAfter(a[1..], b, x);
      RemoveHead(a[0], a[1..] + b, x);
      assert a + b == [a[0]] + (a[1..] + b);
      assert a + Remove(b, x) == [a[0]] + (a[1..] + Remove(b, x));
    }
  }

  lemma NewestIndex(r: seq<Id>, n: nat, j: nat)
    requires j < |r| && j >= |r| - |Newest(r, n)|
    ensures r[j] in Newest(r, n)
  {
    assert Newest(r, n)[j - (|r| - |Newest(r, n)|)] == r[j];
  }

  lemma TouchOlder(r: seq<Id>, x: Id, n: nat)
    requires NoRepeats(r) && x in r && x !in Newest(r, n) && n > 0
    ensures |r| > n && Newest(Remove(r, x) + [x], n) == (Newest(r, n) + [x])[1..]
  {
    hide Remove;
    var s := Newest(r, n);
    var j := Position(r, x);
    var d := |r| - |s|;
    if j >= d { NewestIndex(r, n, j); assert false; }
    assert Remove(r, x) + [x] == r[..j] + r[j + 1..] + [x];
  }

  /** Seen before, with at most `n - 1` distinct other IDs since. */
  ghost predicate Remembered(t: seq<Id>, x: Id, n: nat) {
    exists i :: LastSeen(t, x, i) && |Members(t[i + 1..])| <= n - 1
  }

  lemma {:induction false} LastExists(t: seq<Id>, x: Id)
    requires x in t
    ensures exists i :: LastSeen(t, x, i)
    decreases |t|
  {
    var y := t[|t| - 1];
    if y == x {
      assert LastSeen(t, x, |t| - 1);
    } else {
      var init := t[..|t| - 1];
      assert t == init + [y];
      LastExists(init, x);
      var i :| LastSeen(init, x, i);
      assert LastSeen(t, x, i);
    }
  }

  lemma RememberedIsNewest(t: seq<Id>, x: Id, n: nat)
    ensures x in Newest(Recent(t), n) <==> Remembered(t, x, n)
  {
    hide LastSeen, Recent, Members;
    RecentMembers(t);
    if x in t {
      LastExists(t, x);
      var i :| LastSeen(t, x, i);
      NewestContains(t, x, i, n);
      forall j | LastSeen(t, x, j)
        ensures i == j
      {
        LastUnique(t, x, i, j);
      }
      LastIndex(t, x, i);
    } else {
      NewestWithin(Recent(t), n, x);
      forall j | LastSeen(t, x, j)
        ensures false
      {
        LastIndex(t, x, j);
      }
    }
  }

  lemma LastIndex(t: seq<Id>, x: Id, i: nat)
    requires LastSeen(t, x, i)
    ensures i < |t| && x in t
  {
  }

  lemma LastUnique(t: seq<Id>, x: Id, i: nat, j: nat)
    requires LastSeen(t, x, i) && LastSeen(t, x, j)
    ensures i == j
  {
  }

  lemma NewestWithin(r: seq<Id>, n: nat, x: Id)
    requires x !in r
    ensures x !in Newest(r, n)
  {
  }

  class Deduplicator {
    /** The keys of `_seen_message_ids`, in order. */
    var seen: seq<Id>
    /** Every ID asked about so far. */
    ghost var stream: seq<Id>

    ghost predicate Valid()
      reads this
    {
      seen == Newest(Recent(stream), MAX_REMEMBERED_IDS)
    }

    constructor ()
      ensures Valid() && stream == []
    {
      seen, stream := [], [];
    }

    /** `already_processed`. */
    method AlreadyProcessed(id: Id) returns (known: bool)
      requires Valid()
      modifies this
      ensures Valid() && stream == old(stream) + [id]
      ensures known <==> Remembered(old(stream), id, MAX_REMEMBERED_IDS)
    {
      RememberedIsNewest(stream, id, MAX_REMEMBERED_IDS);
      RecentMembers(stream);
      NewestTouch(Recent(stream), id, MAX_REMEMBERED_IDS);
      assert (stream + [id])[..|stream|] == stream;
      stream := stream + [id];
      if id in seen {
        seen := Remove(seen, id) + [id];
        return true;
      }
      seen := seen + [id];
      if |seen| > MAX_REMEMBERED_IDS { seen := seen[1..]; }
      known := false;
    }
  }

  // ---- Handling each message once -----------------------------------------------------

  /** The positions of a delivery stream at which a message is handled. */
  ghost predicate Handles(t: seq<Id>, k: nat) {
    k < |t| && !Remembered(t[..k], t[k], MAX_REMEMBERED_IDS)
  }

  /** Every repetition of `x` comes within the window of its previous delivery. */
  ghost predicate WithinWindow(t: seq<Id>, x: Id) {
    forall i, k | 0 <= i < k < |t| && t[k] == x && LastSeen(t[..k], x, i) :: |Members(t[i + 1..k])| <= MAX_REMEMBERED_IDS - 1
  }

  lemma {:induction false} FirstExists(t: seq<Id>, x: Id) returns (k: nat)
    requires x in t
    ensures k < |t| && t[k] == x && x !in t[..k]
  {
    if t[0] == x {
      k := 0;
    } else {
      assert t == [t[0]] + t[1..];
      var j := FirstExists(t[1..], x);
      k := j + 1;
      assert t[..k] == [t[0]] + t[1..][..j];
    }
  }

  /** EXACTLY ONCE. A delivered message whose repetitions stay inside the window is
      handled at exactly one delivery, its first. */
  lemma HandledOnce(t: seq<Id>, x: Id) returns (first: nat)
    requires x in t && WithinWindow(t, x)
    ensures first < |t| && t[first] == x && x !in t[..first] && Handles(t, first)
    ensures forall k | 0 <= k < |t| && t[k] == x && Handles(t, k) :: k == first
  {
    first := FirstExists(t, x);
    ghost var f := first;
    assert !Remembered(t[..f], x, MAX_REMEMBERED_IDS);
    forall k | f < k < |t| && t[k] == x
      ensures !Handles(t, k)
    {
      RepeatNotHandled(t, x, f, k);
    }
    forall k | 0 <= k < f
      ensures t[k] != x
    {
      assert t[..f][k] == t[k];
    }
  }

  lemma RepeatNotHandled(t: seq<Id>, x: Id, first: nat, k: nat)
    requires first < k < |t| && t[first] == x == t[k] && WithinWindow(t, x)
    ensures !Handles(t, k)
  {
    assert t[..k][first] == x;
    LastExists(t[..k], x);
    var i :| LastSeen(t[..k], x, i);
    assert t[..k][i + 1..] == t[i + 1..k];
  }
}
