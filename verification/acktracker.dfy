/** `AckTracker` (reliomq/ack.py): correlation of one in-flight acknowledgement.
    Each method is one critical section, so every interleaving of threads is a
    sequence of the steps below; `wait` is the event wait followed by the locked
    decision, and other steps may fall between the two. */
module Acknowledgements {
  import opened Wrappers
  import opened Framing

  datatype Step = Begin(id: Id) | Match(id: Id) | Decide(signalled: bool) | Interrupt | End

  datatype Tracker = Tracker(event: bool, expected: Option<Id>, matched: bool, interrupted: bool)

  const IDLE := Tracker(false, None, false, false)

  function Fresh(id: Id): Tracker {
    Tracker(false, Some(id), false, false)
  }

  predicate Accepts(s: Tracker, id: Id) {
    s.expected == Some(id) && !s.interrupted
  }

  function Apply(s: Tracker, step: Step): Tracker {
    match step
    case Begin(id) => Fresh(id)
    case Match(id) => if Accepts(s, id) then s.(matched := true, event := true) else s
    case Decide(signalled) => if !signalled && !s.matched then s.(interrupted := true) else s
    case Interrupt => s.(interrupted := true, event := true)
    case End => IDLE
  }

  function Run(s: Tracker, trace: seq<Step>): Tracker
    decreases |trace|
  {
    if trace == [] then s else Run(Apply(s, trace[0]), trace[1..])
  }

  lemma {:induction false} RunConcat(s: Tracker, a: seq<Step>, b: seq<Step>)
    ensures Run(s, a + b) == Run(Run(s, a), b)
    decreases |a|
  {
    hide Apply;
    if a == [] {
      assert a + b == b;
    } else {
      RunConcat(Apply(s, a[0]), a[1..], b);
      assert (a + b)[1..] == a[1..] + b;
    }
  }

  // ---- One expectation ------------------------------------------------------------

  /** The steps of one expectation: neither begun anew nor ended. */
  predicate Within(w: seq<Step>) {
    forall k | 0 <= k < |w| :: !w[k].Begin? && !w[k].End?
  }

  /** A matching acknowledgement arrived before any wait timed out, and nothing
      interrupted the expectation. */
  predicate Confirmed(w: seq<Step>, id: Id) {
    && (exists m :: 0 <= m < |w| && w[m] == Match(id) && forall k | 0 <= k < m :: w[k] != Decide(false))
    && (forall k | 0 <= k < |w| :: w[k] != Interrupt)
  }

  predicate MatchedIn(w: seq<Step>, id: Id) {
    exists m :: 0 <= m < |w| && w[m] == Match(id) && forall k | 0 <= k < m :: w[k] != Decide(false) && w[k] != Interrupt
  }

  predicate InterruptedIn(w: seq<Step>, id: Id) {
    exists k :: 0 <= k < |w| && (w[k] == Interrupt || (w[k] == Decide(false) && !MatchedIn(w[..k], id)))
  }

  lemma MatchedSnoc(w: seq<Step>, x: Step, id: Id)
    ensures MatchedIn(w + [x], id) <==>
              MatchedIn(w, id) || (x == Match(id) && forall k | 0 <= k < |w| :: w[k] != Decide(false) && w[k] != Interrupt)
  {
    var v := w + [x];
    assert forall k | 0 <= k < |w| :: v[k] == w[k];
    assert v[|w|] == x;
    if MatchedIn(v, id) {
      var m :| 0 <= m < |v| && v[m] == Match(id) && forall k | 0 <= k < m :: v[k] != Decide(false) && v[k] != Interrupt;
      assert m < |w| ==> w[m] == Match(id);
    }
    if MatchedIn(w, id) {
      var m :| 0 <= m < |w| && w[m] == Match(id) && forall k | 0 <= k < m :: w[k] != Decide(false) && w[k] != Interrupt;
      assert v[m] == Match(id) && forall k | 0 <= k < m :: v[k] != Decide(false) && v[k] != Interrupt;
    }
  }

  lemma InterruptedSnoc(w: seq<Step>, x: Step, id: Id)
    ensures InterruptedIn(w + [x], id) <==>
              InterruptedIn(w, id) || x == Interrupt || (x == Decide(false) && !MatchedIn(w, id))
  {
    var v := w + [x];
    assert forall k | 0 <= k <= |w| :: v[..k] == w[..k];
    assert w[..|w|] == w && v[|w|] == x;
    if InterruptedIn(w, id) {
      var k :| 0 <= k < |w| && (w[k] == Interrupt || (w[k] == Decide(false) && !MatchedIn(w[..k], id)));
      assert v[k] == w[k];
    }
  }

  /** The fields of the tracker say exactly what happened in the expectation. */
  lemma {:induction false} RunWithin(w: seq<Step>, id: Id)
    requires Within(w)
    ensures var s := Run(Fresh(id), w);
            s.expected == Some(id) && (s.matched <==> MatchedIn(w, id)) && (s.interrupted <==> InterruptedIn(w, id))
    decreases |w|
  {
    if w != [] {
      var init, x := w[..|w| - 1], w[|w| - 1];
      assert w == init + [x];
      RunWithin(init, id);
      RunConcat(Fresh(id), init, [x]);
      assert Run(Run(Fresh(id), init), [x]) == Apply(Run(Fresh(id), init), x) by { assert [x][1..] == []; }
      MatchedSnoc(init, x, id);
      InterruptedSnoc(init, x, id);
      CleanUnlessInterrupted(init, id);
    }
  }

  /** Until it is interrupted, an expectation without a match saw no timeout either. */
  lemma CleanUnlessInterrupted(w: seq<Step>, id: Id)
    ensures !InterruptedIn(w, id) ==>
              MatchedIn(w, id) || forall k | 0 <= k < |w| :: w[k] != Decide(false) && w[k] != Interrupt
  {
    if !InterruptedIn(w, id) && !MatchedIn(w, id) {
      forall k | 0 <= k < |w|
        ensures w[k] != Decide(false) && w[k] != Interrupt
      {
        if MatchedIn(w[..k], id) { PrefixMatched(w, k, id); }
      }
    }
  }

  lemma PrefixMatched(w: seq<Step>, n: nat, id: Id)
    requires n <= |w| && MatchedIn(w[..n], id)
    ensures MatchedIn(w, id)
  {
    var v := w[..n];
    var m :| 0 <= m < |v| && v[m] == Match(id) && forall k | 0 <= k < m :: v[k] != Decide(false) && v[k] != Interrupt;
    assert w[m] == Match(id) && forall k | 0 <= k < m :: w[k] != Decide(false) && w[k] != Interrupt;
  }

  /** ACK CORRELATION. The decision of `wait` is true exactly when a match for the
      begun ID came before it, before any timeout, with no interruption. */
  lemma WaitExact(w: seq<Step>, id: Id)
    requires Within(w)
    ensures var s := Run(Fresh(id), w); s.matched && !s.interrupted <==> Confirmed(w, id)
  {
    RunWithin(w, id);
    if Confirmed(w, id) {
      var m :| 0 <= m < |w| && w[m] == Match(id) && forall k | 0 <= k < m :: w[k] != Decide(false);
      forall k | 0 <= k < |w| && w[k] == Decide(false)
        ensures MatchedIn(w[..k], id)
      {
        assert w[..k][m] == Match(id) && forall j | 0 <= j < m :: w[..k][j] != Decide(false) && w[..k][j] != Interrupt;
      }
    }
  }

  /** A match for another ID, after an interruption or timeout, or with no expectation
      changes nothing, now or in any later expectation. */
  lemma LateMatchHarmless(s: Tracker, a: seq<Step>, id: Id, b: seq<Step>)
    requires !Accepts(Run(s, a), id)
    ensures Run(s, a + [Match(id)] + b) == Run(s, a + b)
  {
    RunConcat(s, a, [Match(id)]);
    RunConcat(s, a + [Match(id)], b);
    RunConcat(s, a, b);
    assert [Match(id)][1..] == [];
  }

  // ---- The object ------------------------------------------------------------------------

  /** `begin`: accepted, ValueError, or RuntimeError. */
  datatype Beginning = Begun | BadId | AlreadyActive

  class AckTracker {
    var event: bool
    var expected: Option<Id>
    var matched: bool
    var interrupted: bool
    /** The steps taken since construction. */
    ghost var trace: seq<Step>

    ghost function State(): Tracker
      reads this
    {
      Tracker(event, expected, matched, interrupted)
    }

    ghost predicate Valid()
      reads this
    {
      State() == Run(IDLE, trace)
    }

    constructor ()
      ensures Valid() && State() == IDLE && trace == []
    {
      event, expected, matched, interrupted, trace := false, None, false, false, [];
    }

    ghost method Record(step: Step)
      requires State() == Apply(Run(IDLE, trace), step)
      modifies this`trace
      ensures Valid() && trace == old(trace) + [step]
    {
      hide Apply;
      RunConcat(IDLE, trace, [step]);
      assert [step][1..] == [];
      trace := trace + [step];
    }

    /** `begin(message_id)`. */
    method Begin(id: Id) returns (r: Beginning)
      requires Valid()
      modifies this
      ensures Valid() && (r == Begun <==> id != "" && old(expected).None?)
      ensures State() == if r == Begun then Fresh(id) else old(State())
      ensures trace == old(trace) + if r == Begun then [Step.Begin(id)] else []
    {
      if id == "" { return BadId; }
      if expected.Some? { return AlreadyActive; }
      event := false;
      expected := Some(id);
      matched := false;
      interrupted := false;
      Record(Step.Begin(id));
      r := Begun;
    }

    /** `match(message_id)`. */
    method Match(id: Id) returns (ok: bool)
      requires Valid()
      modifies this
      ensures Valid() && ok == Accepts(old(State()), id)
      ensures State() == Apply(old(State()), Step.Match(id))
      ensures trace == old(trace) + [Step.Match(id)]
    {
      ok := expected.Some? && !interrupted && expected.value == id;
      if ok {
        matched := true;
        event := true;
      }
      Record(Step.Match(id));
    }

    /** The locked half of `wait`, with what the event wait reported. `w` are the steps
        since the expectation `id` began. */
    method Decide(signalled: bool, ghost before: seq<Step>, ghost id: Id, ghost w: seq<Step>) returns (ok: bool)
      requires Valid() && trace == before + [Step.Begin(id)] + w && Within(w)
      modifies this
      ensures Valid() && trace == old(trace) + [Step.Decide(signalled)]
      ensures State() == Apply(old(State()), Step.Decide(signalled))
      ensures (ok <==> Confirmed(w, id)) && (ok ==> matched)
    {
      RunConcat(IDLE, before, [Step.Begin(id)]);
      RunConcat(IDLE, before + [Step.Begin(id)], w);
      assert [Step.Begin(id)][1..] == [];
      WaitExact(w, id);
      if !signalled && !matched {
        interrupted := true;
      }
      ok := matched && !interrupted;
      Record(Step.Decide(signalled));
    }

    /** `interrupt()`. */
    method Interrupt()
      requires Valid()
      modifies this
      ensures Valid() && trace == old(trace) + [Step.Interrupt]
      ensures State() == Apply(old(State()), Step.Interrupt)
    {
      interrupted := true;
      event := true;
      Record(Step.Interrupt);
    }

    /** `end()`. */
    method End()
      requires Valid()
      modifies this
      ensures Valid() && State() == IDLE && trace == old(trace) + [Step.End]
    {
      expected := None;
      matched := false;
      interrupted := false;
      event := false;
      Record(Step.End);
    }
  }
}
