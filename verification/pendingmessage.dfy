/** FIFO metadata of one message (reliomq/sender.py:55-94) and lists of them. */
module Messages {
  import opened Wrappers
  import opened Framing
  import opened Recovery
  import opened QueueSpec

  datatype StorageState = RamOnly | Persisting | DiskBacked

  /** `content` is what the message holds for its whole life, wherever it is stored. */
  class PendingMessage {
    const id: Id
    const encodedSize: nat
    const enqueuedAt: real
    ghost const content: bytes
    var encoded: Option<bytes>
    var state: StorageState
    var spillAttempted: bool

    constructor InRam(e: Envelope, at: real)
      ensures Env() == e && encodedSize == |e.body| && enqueuedAt == at
      ensures encoded == Some(e.body) && state == RamOnly && !spillAttempted
    {
      id, encodedSize, enqueuedAt, content := e.id, |e.body|, at, e.body;
      encoded, state, spillAttempted := Some(e.body), RamOnly, false;
    }

    constructor OnDisk(messageId: Id, ghost body: bytes, size: nat, at: real)
      ensures Env() == Envelope(messageId, body) && encodedSize == size && enqueuedAt == at
      ensures encoded == None && state == DiskBacked && !spillAttempted
    {
      id, encodedSize, enqueuedAt, content := messageId, size, at, body;
      encoded, state, spillAttempted := None, DiskBacked, false;
    }

    ghost function Env(): Envelope {
      Envelope(id, content)
    }
  }

  ghost function Envs(ms: seq<PendingMessage>): (es: seq<Envelope>)
    ensures |es| == |ms| && forall i | 0 <= i < |ms| :: es[i] == ms[i].Env()
  {
    seq(|ms|, i requires 0 <= i < |ms| => ms[i].Env())
  }

  function Bytes(ms: seq<PendingMessage>): nat {
    if ms == [] then 0 else ms[0].encodedSize + Bytes(ms[1..])
  }

  lemma EnvsConcat(a: seq<PendingMessage>, b: seq<PendingMessage>)
    ensures Envs(a + b) == Envs(a) + Envs(b)
  {
  }

  lemma {:induction false} BytesConcat(a: seq<PendingMessage>, b: seq<PendingMessage>)
    ensures Bytes(a + b) == Bytes(a) + Bytes(b)
    decreases |a|
  {
    if a == [] {
      assert a + b == b;
    } else {
      BytesConcat(a[1..], b);
      assert (a + b)[1..] == a[1..] + b;
    }
  }

  lemma BytesSnoc(a: seq<PendingMessage>, m: PendingMessage)
    ensures Bytes(a + [m]) == Bytes(a) + m.encodedSize
  {
    BytesConcat(a, [m]);
    assert [m][1..] == [];
  }

  lemma BytesSplit(ms: seq<PendingMessage>, n: nat)
    requires n <= |ms|
    ensures Bytes(ms) == Bytes(ms[..n]) + Bytes(ms[n..])
  {
    assert ms == ms[..n] + ms[n..];
    BytesConcat(ms[..n], ms[n..]);
  }
}
