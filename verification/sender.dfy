/** `Sender`: the live FIFO, FastMode RAM ownership and completion
    (reliomq/sender.py:554-1070). */
module SenderClass {
  import opened Wrappers
  import opened Framing
  import opened Layout
  import opened Recovery
  import opened Storage
  import opened QueueSpec
  import opened Backing
  import opened OutboxState
  import opened OutboxSteps
  import opened Restarts
  import opened OutboxClass
  import opened Modes
  import opened Policy
  import opened Messages

  /** A spill's result; SpillFailed is OutboxError, SpillWedged one after which the
      Outbox must be reopened. */
  datatype Spill = Spilled(count: nat) | SpillFailed | SpillWedged

  /** `DeliveryStatus`. */
  datatype Delivery =
    | EmptyFifo | NotReady | MessageDelivered | RetryScheduled | StorageFailed | SenderStopped

  /** What the delivery worker found to do. */
  datatype Pick = NoAttempt(status: Delivery) | Picked(item: PendingMessage, envelope: Envelope)

  /** The end of one delivery attempt: the DeliveryStatus of a matched acknowledgement. */
  datatype Completion = Delivered | StoreError | Stopped

  /** What timed maintenance did. */
  datatype Maintenance = Idle | Postponed | Ran | Errored | MaintenanceWedged

  /** `publish`: a new message; the same message again; its ID pending with other
      content (ValueError); FastQueueFullError; OutboxError. */
  datatype Publishing = AcceptedMessage | Duplicate | Conflict | QueueFull | NotStored

  datatype FastTimer = FastTimer(generation: nat, deadline: real)

  function Earlier(a: Option<real>, b: real): Option<real> {
    if a.None? || b < a.value then Some(b) else a
  }

  predicate Near(a: real, b: real) {
    -0.000000001 < a - b < 0.000000001
  }

  ghost predicate DueBy(deadline: real, target: real, retry: real) {
    deadline < (if target < retry then retry else target) + 0.000000001
  }

  ghost predicate Decodable(c: Codec, ms: seq<PendingMessage>) {
    forall m | m in ms :: c.decode(m.content) == Some(m.id)
  }

  /** The list of disk-backed messages, then the RAM-owned ones. */
  ghost predicate Ordered(pending: seq<PendingMessage>, ram: seq<PendingMessage>) {
    |ram| <= |pending| && pending[|pending| - |ram|..] == ram && DistinctIds(Envs(pending))
  }

  ghost function OnDisk(pending: seq<PendingMessage>, ram: seq<PendingMessage>): seq<PendingMessage>
    requires |ram| <= |pending|
  {
    pending[..|pending| - |ram|]
  }

  ghost predicate IndexedById(pending: seq<PendingMessage>, m: map<Id, PendingMessage>) {
    && (forall p | p in pending :: p.id in m && m[p.id] == p)
    && (forall id | id in m :: m[id] in pending && m[id].id == id)
  }

  /** The Outbox holds the disk-backed messages and the first `stored` RAM-owned ones. */
  ghost predicate StoresPrefix(q: Queue, pending: seq<PendingMessage>, ram: seq<PendingMessage>, stored: nat) {
    && |ram| <= |pending| && stored <= |ram| && q.head <= |q.items|
    && q.Pending() == Envs(OnDisk(pending, ram)) + Envs(ram)[..stored]
  }

  lemma DistinctMessages(pending: seq<PendingMessage>, i: nat, j: nat)
    requires DistinctIds(Envs(pending)) && i < j < |pending|
    ensures pending[i] != pending[j] && pending[i].id != pending[j].id
  {
    assert Envs(pending)[i].id != Envs(pending)[j].id;
  }

  lemma OrderedSplit(pending: seq<PendingMessage>, ram: seq<PendingMessage>)
    requires Ordered(pending, ram)
    ensures pending == OnDisk(pending, ram) + ram
    ensures Envs(pending) == Envs(OnDisk(pending, ram)) + Envs(ram)
    ensures DistinctIds(Envs(OnDisk(pending, ram)) + Envs(ram))
  {
    EnvsConcat(OnDisk(pending, ram), ram);
  }

  lemma DistinctRam(pending: seq<PendingMessage>, ram: seq<PendingMessage>, i: nat, j: nat)
    requires Ordered(pending, ram) && i < j < |ram|
    ensures ram[i] != ram[j]
  {
    DistinctMessages(pending, |pending| - |ram| + i, |pending| - |ram| + j);
  }

  lemma BatchDecodes(c: Codec, pending: seq<PendingMessage>, ram: seq<PendingMessage>, n: nat)
    requires Ordered(pending, ram) && Decodable(c, pending) && n <= |ram|
    ensures Envs(ram[..n]) == Envs(ram)[..n]
    ensures forall e | e in Envs(ram[..n]) :: c.decode(e.body) == Some(e.id)
  {
    forall i | 0 <= i < n
      ensures ram[i] in pending
    {
      assert ram[i] == pending[|pending| - |ram| + i];
    }
  }

  lemma PrefixApart(pending: seq<PendingMessage>, ram: seq<PendingMessage>, n: nat)
    requires Ordered(pending, ram) && n <= |ram|
    ensures forall i | n <= i < |ram| :: ram[i] !in ram[..n]
  {
    forall i, j | 0 <= j < n <= i < |ram|
      ensures ram[i] != ram[j]
    {
      DistinctRam(pending, ram, j, i);
    }
  }

  lemma RamIsNotOnDisk(pending: seq<PendingMessage>, ram: seq<PendingMessage>)
    requires Ordered(pending, ram)
    ensures forall m | m in ram :: m !in OnDisk(pending, ram)
  {
    forall i, j | 0 <= i < |ram| && 0 <= j < |pending| - |ram|
      ensures ram[i] != pending[j]
    {
      DistinctMessages(pending, j, |pending| - |ram| + i);
    }
  }

  /** Some message is too large for a record. */
  ghost predicate TooLarge(ms: seq<PendingMessage>) {
    exists m :: m in ms && |m.content| > MAX_RECORD_BYTES
  }

  lemma TooLargeSuffix(a: seq<PendingMessage>, b: seq<PendingMessage>)
    requires Suffix(a, b) && TooLarge(a)
    ensures TooLarge(b)
  {
    SuffixMembers(a, b);
  }

  lemma RecordsFit(ms: seq<PendingMessage>, n: nat)
    requires !TooLarge(ms) && n <= |ms|
    ensures forall e | e in Envs(ms)[..n] :: |e.body| <= MAX_RECORD_BYTES
  {
    forall i | 0 <= i < n
      ensures |Envs(ms)[i].body| <= MAX_RECORD_BYTES
    {
      assert ms[i] in ms;
    }
  }

  ghost predicate Suffix(a: seq<PendingMessage>, b: seq<PendingMessage>) {
    |a| <= |b| && b[|b| - |a|..] == a
  }

  function Ceil(x: real): int {
    if x.Floor as real == x then x.Floor else x.Floor + 1
  }

  function AtLeastOne(n: int): int {
    if n < 1 then 1 else n
  }

  lemma OrderedParts(pending: seq<PendingMessage>, ram: seq<PendingMessage>)
    requires Ordered(pending, ram)
    ensures |ram| <= |pending| && pending[|pending| - |ram|..] == ram
  {
  }

  lemma OthersDiffer(pending: seq<PendingMessage>, ram: seq<PendingMessage>, i: nat)
    requires Ordered(pending, ram) && i < |ram|
    ensures forall j | i < j < |ram| :: ram[j] != ram[i]
  {
    forall j | i < j < |ram|
      ensures ram[j] != ram[i]
    {
      DistinctRam(pending, ram, i, j);
    }
  }

  lemma BytesHead(ram: seq<PendingMessage>, i: nat)
    requires i < |ram|
    ensures ram[i..][0] == ram[i] && ram[i..][1..] == ram[i + 1..]
    ensures Bytes(ram[i..]) == ram[i].encodedSize + Bytes(ram[i + 1..])
  {
    assert ram[i..][1..] == ram[i + 1..];
  }

  /** RAM ownership of the first `n` messages is released. */
  lemma OrderedRelease(q: Queue, pending: seq<PendingMessage>, ram: seq<PendingMessage>, stored: nat, n: nat)
    requires Ordered(pending, ram) && n <= |ram| && StoresPrefix(q, pending, ram, stored) && n <= stored
    ensures Ordered(pending, ram[n..]) && StoresPrefix(q, pending, ram[n..], stored - n)
    ensures OnDisk(pending, ram[n..]) == OnDisk(pending, ram) + ram[..n]
  {
    hide DistinctIds;
    ReleaseDisk(pending, ram, n);
    EnvsConcat(OnDisk(pending, ram), ram[..n]);
    ReleasePrefix(Envs(OnDisk(pending, ram)), ram, n, stored);
  }

  lemma ReleaseDisk(pending: seq<PendingMessage>, ram: seq<PendingMessage>, n: nat)
    requires |ram| <= |pending| && pending[|pending| - |ram|..] == ram && n <= |ram|
    ensures |ram[n..]| <= |pending| && pending[|pending| - |ram[n..]|..] == ram[n..]
    ensures OnDisk(pending, ram[n..]) == OnDisk(pending, ram) + ram[..n]
  {
    assert pending == pending[..|pending| - |ram|] + ram;
  }

  lemma ReleasePrefix(disk: seq<Envelope>, ram: seq<PendingMessage>, n: nat, stored: nat)
    requires n <= stored <= |ram|
    ensures disk + Envs(ram)[..stored] == (disk + Envs(ram[..n])) + Envs(ram[n..])[..stored - n]
  {
    assert ram == ram[..n] + ram[n..];
    EnvsConcat(ram[..n], ram[n..]);
    assert Envs(ram)[..stored] == Envs(ram[..n]) + Envs(ram[n..])[..stored - n];
  }

  /** A message joins both lists. */
  lemma OrderedAppend(q: Queue, pending: seq<PendingMessage>, ram: seq<PendingMessage>, stored: nat, m: PendingMessage)
    requires Ordered(pending, ram) && StoresPrefix(q, pending, ram, stored)
    requires m.id !in Ids(Envs(pending))
    ensures Ordered(pending + [m], ram + [m]) && StoresPrefix(q, pending + [m], ram + [m], stored)
    ensures OnDisk(pending + [m], ram + [m]) == OnDisk(pending, ram)
    ensures Envs(pending + [m]) == Envs(pending) + [m.Env()]
  {
    EnvsConcat(pending, [m]);
    assert Envs([m]) == [m.Env()];
    assert Envs(ram + [m])[..stored] == Envs(ram)[..stored];
    var es := Envs(pending + [m]);
    forall i, j | 0 <= i < j < |es|
      ensures es[i].id != es[j].id
    {
      assert Envs(pending)[i].id in Ids(Envs(pending));
      if j < |pending| { assert Envs(pending)[i].id != Envs(pending)[j].id; }
    }
  }

  lemma NewInIndex(es: seq<Envelope>, ms: seq<PendingMessage>, byId: map<Id, PendingMessage>, m: PendingMessage, i: nat)
    requires DistinctIds(es) && i < |es| && Envs(ms) == es[..i] && m.Env() == es[i] && IndexedById(ms, byId)
    ensures Envs(ms + [m]) == es[..i + 1] && IndexedById(ms + [m], byId[m.id := m])
  {
    forall p | p in ms
      ensures p.id != m.id
    {
      var j :| 0 <= j < |ms| && ms[j] == p;
      assert Envs(ms)[j] == es[j];
    }
  }

  /** A disk-backed message is pending in the Outbox with its own content. */
  lemma DiskContent(q: Queue, pending: seq<PendingMessage>, ram: seq<PendingMessage>, stored: nat, m: PendingMessage)
    requires StoresPrefix(q, pending, ram, stored) && DistinctIds(q.Pending()) && m in OnDisk(pending, ram)
    ensures m.id in Ids(q.Pending())
    ensures forall e | e in q.Pending() && e.id == m.id :: e == m.Env()
  {
    var i :| 0 <= i < |pending| - |ram| && OnDisk(pending, ram)[i] == m;
    assert q.Pending()[i] == Envs(OnDisk(pending, ram))[i] == m.Env();
  }

  lemma NotListed(pending: seq<PendingMessage>, byId: map<Id, PendingMessage>, id: Id)
    requires IndexedById(pending, byId) && id !in byId
    ensures id !in Ids(Envs(pending))
  {
  }

  lemma IndexAdd(pending: seq<PendingMessage>, byId: map<Id, PendingMessage>, m: PendingMessage)
    requires IndexedById(pending, byId) && m.id !in byId
    ensures IndexedById(pending + [m], byId[m.id := m])
  {
  }

  lemma StoredWithin(q: Queue, pending: seq<PendingMessage>, ram: seq<PendingMessage>, stored: nat)
    requires StoresPrefix(q, pending, ram, stored)
    ensures stored <= |ram| <= |pending|
  {
  }

  lemma SuffixMembers(a: seq<PendingMessage>, b: seq<PendingMessage>)
    requires Suffix(a, b)
    ensures forall m | m in a :: m in b
  {
  }

  lemma DistinctAppend(pending: seq<PendingMessage>, m: PendingMessage)
    requires Ordered(pending, []) && m.id !in Ids(Envs(pending))
    ensures Ordered(pending + [m], []) && Envs(pending + [m]) == Envs(pending) + [m.Env()]
  {
    EnvsConcat(pending, [m]);
    assert Envs([m]) == [m.Env()];
    DistinctSnoc(Envs(pending), m.Env());
  }

  /** The Outbox holds what it held before, less the FIFO head. */
  ghost predicate RemovedFrom(q: Queue, pending: seq<PendingMessage>, ram: seq<PendingMessage>, stored: nat) {
    && |ram| < |pending| && stored <= |ram| && q.head <= |q.items|
    && q.Pending() == Envs(OnDisk(pending, ram))[1..] + Envs(ram)[..stored]
  }

  lemma HeadLeaves(q: Queue, q': Queue, pending: seq<PendingMessage>, ram: seq<PendingMessage>, stored: nat, e: Envelope,
                   r: Removal, renamed: bool)
    requires StoresPrefix(q, pending, ram, stored) && |ram| < |pending| && q'.Ok()
    requires CompletedOne(q, q', e, r, renamed) && e == pending[0].Env()
    ensures r != NotHead && q'.head <= |q'.items|
    ensures r == Advanced ==> RemovedFrom(q', pending, ram, stored)
    ensures r == RemovalFailed ==> StoresPrefix(q', pending, ram, stored)
  {
    assert q.Pending()[0] == Envs(OnDisk(pending, ram))[0] == e;
    if r == Advanced { assert q'.Pending() == q.Pending()[1..]; }
  }

  lemma DropHead(q: Queue, pending: seq<PendingMessage>, ram: seq<PendingMessage>, byId: map<Id, PendingMessage>)
    requires Ordered(pending, ram) && |ram| < |pending| && IndexedById(pending, byId)
    ensures Ordered(pending[1..], ram) && IndexedById(pending[1..], byId - {pending[0].id})
    ensures OnDisk(pending[1..], ram) == OnDisk(pending, ram)[1..]
    ensures Envs(OnDisk(pending[1..], ram)) == Envs(OnDisk(pending, ram))[1..]
  {
    DropIndex(pending, byId);
    DropOrdered(pending, ram);
    assert Envs(OnDisk(pending, ram)[1..]) == Envs(OnDisk(pending, ram))[1..];
  }

  lemma DropOrdered(pending: seq<PendingMessage>, ram: seq<PendingMessage>)
    requires Ordered(pending, ram) && |ram| < |pending|
    ensures Ordered(pending[1..], ram) && OnDisk(pending[1..], ram) == OnDisk(pending, ram)[1..]
  {
    var es := Envs(pending);
    assert Envs(pending[1..]) == es[1..];
    assert forall i | 0 <= i < |es[1..]| :: es[1..][i] == es[i + 1];
  }

  lemma DropIndex(pending: seq<PendingMessage>, byId: map<Id, PendingMessage>)
    requires pending != [] && DistinctIds(Envs(pending)) && IndexedById(pending, byId)
    ensures IndexedById(pending[1..], byId - {pending[0].id})
  {
    var rest, m := pending[1..], byId - {pending[0].id};
    forall i | 0 <= i < |rest|
      ensures rest[i].id != pending[0].id
    {
      DistinctMessages(pending, 0, i + 1);
    }
    forall id | id in m
      ensures m[id] in rest
    {
      assert m[id] in pending && m[id] != pending[0];
    }
  }

  lemma DropRamHead(q: Queue, pending: seq<PendingMessage>, byId: map<Id, PendingMessage>)
    requires Ordered(pending, pending) && pending != [] && IndexedById(pending, byId)
    requires StoresPrefix(q, pending, pending, 0)
    ensures Ordered(pending[1..], pending[1..]) && IndexedById(pending[1..], byId - {pending[0].id})
    ensures StoresPrefix(q, pending[1..], pending[1..], 0)
  {
    DropIndex(pending, byId);
    assert Envs(pending[1..]) == Envs(pending)[1..];
    assert OnDisk(pending, pending) == [] && OnDisk(pending[1..], pending[1..]) == [];
  }

  lemma FirstMembers(ms: seq<PendingMessage>, n: nat)
    requires n <= |ms|
    ensures n > 0 ==> ms[0] in ms[..n]
  {
    if n > 0 { assert ms[..n][0] == ms[0]; }
  }

  lemma AllInRam(pending: seq<PendingMessage>, ram: seq<PendingMessage>)
    requires Ordered(pending, ram)
    ensures |ram| == |pending| ==> ram == pending
  {
  }

  /** The Outbox holds a prefix of the FIFO. */
  lemma StoredIsPrefix(q: Queue, pending: seq<PendingMessage>, ram: seq<PendingMessage>, stored: nat)
    requires StoresPrefix(q, pending, ram, stored) && Ordered(pending, ram)
    ensures q.head <= |q.items| && q.Pending() <= Envs(pending)
  {
    OrderedSplit(pending, ram);
  }

  method SetStates(ms: seq<PendingMessage>, s: StorageState)
    modifies ms`state
    ensures forall m | m in ms :: m.state == s
  {
    var i := 0;
    while i < |ms|
      invariant i <= |ms|
      invariant forall j | 0 <= j < i :: ms[j].state == s
    {
      ms[i].state := s;
      i := i + 1;
    }
  }

  method SetAttempted(ms: seq<PendingMessage>)
    modifies ms`spillAttempted
    ensures forall m | m in ms :: m.spillAttempted
  {
    var i := 0;
    while i < |ms|
      invariant i <= |ms|
      invariant forall j | 0 <= j < i :: ms[j].spillAttempted
    {
      ms[i].spillAttempted := true;
      i := i + 1;
    }
  }

  class Sender {
    const policy: PersistencePolicy
    const outbox: Outbox
    const mode: Mode
    const retryInterval: real

    var time: real
    var pending: seq<PendingMessage>
    var pendingById: map<Id, PendingMessage>
    var fastQueue: seq<PendingMessage>
    var fastRamBytes: int
    var fastRetryNotBefore: real
    var disconnectedSince: Option<real>
    var stopped: bool

    var fastTimer: Option<FastTimer>
    var fastGeneration: nat
    ghost var fastArmed: set<nat>

    /** How many RAM-owned messages a failed spill already left in the Outbox. */
    ghost var stored: nat
    /** The messages that left the FIFO since the Outbox was opened. */
    ghost var left: seq<Envelope>
    /** The head's removal was asked for and failed. */
    ghost var asking: bool
    /** The checkpoint past the head was renamed into place, but its directory fsync
        failed, so the head is still pending. */
    ghost var halfRemoved: bool

    /** Who holds the bytes of each message, and how many are in RAM. The first `n`
        RAM-owned messages are being persisted. */
    ghost predicate OwnedAs(n: nat)
      reads this`pending, this`fastQueue, this`fastRamBytes, pending`state, pending`encoded, fastQueue`state, fastQueue`encoded
    {
      && |fastQueue| <= |pending|
      && (forall i | 0 <= i < |fastQueue| :: fastQueue[i].state == if i < n then Persisting else RamOnly)
      && (forall m | m in fastQueue :: m.encoded == Some(m.content) && m.encodedSize == |m.content|)
      && (forall m | m in OnDisk(pending, fastQueue) :: m.state == DiskBacked && m.encoded == None)
      && fastRamBytes == Bytes(fastQueue)
      && (if mode.Fast? then |fastQueue| <= mode.fast.ramMaxMessages && fastRamBytes <= mode.fast.ramMaxBytes
          else fastQueue == [])
    }

    ghost predicate Owned()
      reads this`pending, this`fastQueue, this`fastRamBytes, pending`state, pending`encoded, fastQueue`state, fastQueue`encoded
    {
      OwnedAs(0)
    }

    ghost predicate Mirrored()
      reads this`pending, this`fastQueue, this`stored, this`left, this`asking, this`halfRemoved, fastQueue`spillAttempted,
            outbox, outbox.fs
    {
      && outbox.Valid() && StoresPrefix(outbox.Queue(), pending, fastQueue, stored)
      && (forall m | m in fastQueue[..stored] :: m.spillAttempted)
      && Backs(outbox.Queue(), mode.Group?, left, asking, halfRemoved)
    }

    /** The Outbox wedged and must be reopened: a crash leaves messages that left the
        FIFO and then some prefix of `fifo`. */
    ghost predicate Broken(fifo: seq<Envelope>)
      reads this`left, this`asking, outbox, outbox.fs
    {
      outbox.Stranded() && Salvages(outbox.shadow.value, left, asking, fifo)
    }

    ghost predicate Ready()
      reads policy, policy.outbox, policy.outbox.fs
    {
      policy.outbox == outbox && policy.mode == mode && policy.Valid() && policy.DataBounded() && policy.AckBounded()
    }

    ghost predicate Valid()
      reads this`pending, this`pendingById, this`fastQueue, this`fastRamBytes, this`stored, this`left, this`asking,
            this`halfRemoved, pending`state, pending`encoded, fastQueue`state, fastQueue`encoded, fastQueue`spillAttempted,
            policy, policy.outbox, policy.outbox.fs, outbox, outbox.fs
    {
      && Ready() && Ordered(pending, fastQueue) && IndexedById(pending, pendingById)
      && Owned() && Mirrored() && Decodable(outbox.codec, pending)
    }

    /** The messages in RAM. */
    ghost function Ram(): set<PendingMessage>
      reads this`fastQueue
    {
      set m | m in fastQueue
    }

    /** The logical FIFO. */
    ghost function Fifo(): seq<Envelope>
      reads this`pending
    {
      Envs(pending)
    }

    /** Work that has an interval has one armed timer, and only then. */
    ghost predicate TimersArmed()
      reads policy
    {
      policy.DataDisciplined() && policy.AckDisciplined()
    }

    /** What a crash may leave inside a call that may store `more` and, with `ask`, remove
        the head. */
    ghost function Extent(more: seq<Envelope>, ask: bool): Bounds
      requires Mirrored()
      reads this`pending, this`fastQueue, this`stored, this`left, this`asking, this`halfRemoved, fastQueue`spillAttempted,
            outbox, outbox.fs
    {
      Reach(outbox.Queue(), Fifo(), more, ask)
    }

    lemma ExtentStart()
      requires Valid()
      ensures Mirrored() && Owned()
      ensures Moments(outbox.fs.visited, outbox.fs.visited, Extent([], false))
      ensures Narrows(Extent([], false), Extent([], false))
    {
      hide Mirrored, Owned, Ready, Ordered, IndexedById, Decodable, Reach;
      NoMoments(outbox.fs.visited, Extent([], false));
    }

    lemma ExtentAsked()
      requires Mirrored()
      ensures Inside(Extent([], false), Extent([], true))
    {
      hide Outbox.Valid, Outbox.Queue, Backs, Reach, Inside, QueueSpec.Queue.Ok;
      outbox.QueueFacts();
      AskedReach(outbox.Queue(), Fifo());
    }

    lemma ExtentRest(q: Queue, b: Bounds, asked: Bounds)
      requires Mirrored() && q.head == outbox.Queue().head <= |q.items| && Narrows(Extent([], false), b)
      requires b == Reach(q, Fifo(), [], false) && asked == Reach(q, Fifo(), [], true)
      ensures Narrows(Extent([], true), asked)
    {
      hide Outbox.Valid, Outbox.Queue, Backs, Reach, Narrows;
      NarrowsAsked(q, outbox.Queue(), Fifo());
    }

    lemma ExtentIs(more: seq<Envelope>, ask: bool)
      requires Mirrored()
      ensures outbox.Valid() && outbox.Queue().head <= |outbox.Queue().items|
      ensures Extent(more, ask) == Reach(outbox.Queue(), Fifo(), more, ask)
    {
      hide Outbox.Valid, Outbox.Queue, Backs, Reach;
    }

    lemma ExtentLonger(e: Envelope)
      requires Mirrored()
      ensures Extent([e], false) == Longer(Extent([], false), e) && Inside(Extent([], false), Extent([e], false))
    {
      hide Outbox.Valid, Outbox.Queue, Backs, Reach, Longer, Inside;
      LongerReach(outbox.Queue(), Fifo(), e);
    }

    /** A Sender over an Outbox just opened: every recovered message is on disk. */
    constructor (p: PersistencePolicy, o: Outbox, retry: real, now: real)
      requires p.outbox == o && p.Valid() && p.DataBounded() && p.AckBounded()
      requires o.Queue().durable == |o.Queue().items| && o.Queue().heads == {o.Queue().head}
      requires o.Queue().saved == o.Queue().head == o.Queue().asked
      ensures Valid() && policy == p && outbox == o && mode == p.mode
      ensures o.Queue().head <= |o.Queue().items| && Fifo() == o.Queue().Pending()
      ensures fastQueue == [] && !stopped && Scheduled()
      ensures left == [] && !asking && !halfRemoved && forall m | m in pending :: fresh(m)
    {
      hide Outbox.Valid, Outbox.Queue, QueueSpec.Queue.Ok, Tracks, Covered, Backs;
      o.QueueFacts();
      o.PendingFacts();
      PendingDistinctIds(o.Queue());
      BacksOpened(o.Queue(), p.mode.Group?);
      var ms, byId := Recovered(o, now);
      policy, outbox, mode, retryInterval, time := p, o, p.mode, retry, now;
      pending, pendingById, fastQueue, fastRamBytes := ms, byId, [], 0;
      fastRetryNotBefore, disconnectedSince, stopped := 0.0, None, false;
      fastTimer, fastGeneration, fastArmed := None, 0, {};
      stored, left, asking, halfRemoved := 0, [], false, false;
    }

    /** FIFO metadata for the IDs an Outbox recovered. */
    static method Recovered(o: Outbox, now: real) returns (ms: seq<PendingMessage>, byId: map<Id, PendingMessage>)
      requires o.Valid()
      ensures o.Queue().head <= |o.Queue().items| && Envs(ms) == o.Queue().Pending()
      ensures IndexedById(ms, byId)
      ensures forall m | m in ms :: fresh(m) && m.state == DiskBacked && m.encoded == None
    {
      hide Outbox.Valid, Outbox.Queue, QueueSpec.Queue.Ok, DistinctIds;
      o.QueueFacts();
      o.PendingFacts();
      PendingDistinctIds(o.Queue());
      ghost var es := o.Queue().Pending();
      ms, byId := [], map[];
      var i := 0;
      while i < |o.pending|
        invariant i <= |o.pending| && |ms| == i && Envs(ms) == es[..i]
        invariant IndexedById(ms, byId)
        invariant forall m | m in ms :: fresh(m) && m.state == DiskBacked && m.encoded == None
      {
        var m := new PendingMessage.OnDisk(o.pending[i].id, es[i].body, 0, now);
        NewInIndex(es, ms, byId, m, i);
        ms, byId := ms + [m], byId[m.id := m];
        i := i + 1;
      }
    }

    /** Why storing `ram` may fail: a system call failed since `before`, or a message is
        too large for a record. */
    ghost predicate Excused(before: nat, ram: seq<PendingMessage>)
      reads outbox.fs
    {
      outbox.fs.faults > before || TooLarge(ram)
    }

    lemma ExcusedEarlier(before: nat, ram: seq<PendingMessage>, later: nat, rest: seq<PendingMessage>)
      requires Excused(later, rest) && before <= later && Suffix(rest, ram)
      ensures Excused(before, ram)
    {
      hide FileSystem.Valid;
      if TooLarge(rest) { TooLargeSuffix(rest, ram); }
    }

    // ---- Spilling -------------------------------------------------------------------

    /** Selects a spill batch: the longest RAM prefix within both batch limits, but at
        least one message. */
    method SelectBatch(limit: nat) returns (m: nat)
      requires mode.Fast? && Owned()
      ensures m <= |fastQueue| && m <= limit && (fastQueue != [] && limit > 0 ==> m > 0)
      ensures m <= 1 || Bytes(fastQueue[..m]) <= mode.fast.spillBatchBytes
      ensures m < |fastQueue| && m < limit ==> Bytes(fastQueue[..m + 1]) > mode.fast.spillBatchBytes
    {
      m := 0;
      var selectedBytes := 0;
      while m < |fastQueue|
        invariant m <= |fastQueue| && m <= limit && selectedBytes == Bytes(fastQueue[..m])
        invariant m <= 1 || selectedBytes <= mode.fast.spillBatchBytes
      {
        assert fastQueue[..m + 1] == fastQueue[..m] + [fastQueue[m]];
        BytesSnoc(fastQueue[..m], fastQueue[m]);
        if m >= limit { break; }
        if m > 0 && selectedBytes + fastQueue[m].encodedSize > mode.fast.spillBatchBytes { break; }
        selectedBytes := selectedBytes + fastQueue[m].encodedSize;
        m := m + 1;
      }
    }

    /** `append_many_durable` of a RAM prefix, committed wholly or up to some chunk. */
    method AppendBatch(batch: seq<Envelope>) returns (r: Appending)
      requires mode.Fast? && Ready() && Mirrored() && Ordered(pending, fastQueue)
      requires |batch| <= |fastQueue| && batch == Envs(fastQueue)[..|batch|]
      requires forall e | e in batch :: outbox.codec.decode(e.body) == Some(e.id)
      requires forall m | m in fastQueue[..|batch|] :: m.spillAttempted
      modifies this`stored, outbox, outbox.fs
      ensures Moments(old(outbox.fs.visited), outbox.fs.visited, old(Extent([], false)))
      ensures r != AppendWedged ==> Ready() && Mirrored() && stored >= old(stored)
      ensures r != AppendWedged ==> Narrows(Extent([], false), old(Extent([], false)))
      ensures r != AppendWedged ==> outbox.Queue().head == old(outbox.Queue()).head
      ensures r == AppendWedged ==> Broken(Fifo())
      ensures r.Accepted? ==> |batch| <= stored <= |fastQueue| && forall e | e in batch :: e in outbox.Queue().Pending()
      ensures old(outbox.fs.faults) <= outbox.fs.faults
      ensures !r.Accepted? ==> Excused(old(outbox.fs.faults), old(fastQueue))
    {
      hide Outbox.Valid, Outbox.Queue, FileSystem.Valid, Appended, NewOnes, Acceptable, Tracks, Covered, Ids;
      hide QueueSpec.Queue.Ok;
      hide DistinctIds, Grew, Leaves, Replays, Backs, Salvages, Outbox.Stranded, TooLarge, StoresPrefix, Ordered;
      hide Moments, Inside, Narrows, Growing, Reach;
      ghost var q, b := outbox.Queue(), Extent([], false);
      outbox.QueueFacts();
      BacksParts(q);
      BatchFits(q, |batch|);
      ghost var count;
      r, count := outbox.AppendMany(batch, true);
      ghost var added := NewOnes(batch, Ids(q.Pending()));
      BatchReached(q, |batch|);
      WiderMoments(old(outbox.fs.visited), outbox.fs.visited, Growing(q, added), b);
      if r == AppendWedged {
        outbox.StrandedOk();
        SpillBreaks(q, outbox.shadow.value, |batch|, count);
        return;
      }
      outbox.QueueFacts();
      SpillKeepsPrefix(q, outbox.Queue(), |batch|, count, r.Accepted?);
      SpillBacks(q, outbox.Queue(), added, count, r.Accepted?);
      AppendedReach(q, outbox.Queue(), added, count, r.Accepted?);
      stored := if |batch| <= stored then stored else stored + count;
    }

    lemma BatchReached(q: Queue, m: nat)
      requires StoresPrefix(q, pending, fastQueue, stored) && Ordered(pending, fastQueue) && m <= |fastQueue|
      ensures q.head <= |q.items|
      ensures Inside(Growing(q, NewOnes(Envs(fastQueue)[..m], Ids(q.Pending()))), Reach(q, Fifo(), [], false))
    {
      hide DistinctIds, NewOnes, Ids, Inside, Growing, Reach;
      OrderedSplit(pending, fastQueue);
      SpillReached(q, Envs(OnDisk(pending, fastQueue)), Envs(fastQueue), stored, m);
    }

    lemma AppendedReach(q: Queue, q': Queue, added: seq<Envelope>, count: nat, done: bool)
      requires q.Ok() && Appended(q, q', added, count, true, done)
      ensures q.head == q'.head <= |q'.items| && q.head <= |q.items|
      ensures Narrows(Reach(q', Fifo(), [], false), Reach(q, Fifo(), [], false))
    {
      hide DistinctIds, Inside, Reach;
      GrewReach(q, q', added, count, Fifo());
    }

    lemma BatchFits(q: Queue, m: nat)
      requires StoresPrefix(q, pending, fastQueue, stored) && Ordered(pending, fastQueue) && m <= |fastQueue|
      ensures !TooLarge(fastQueue) ==> Acceptable(Envs(fastQueue)[..m], q.Pending())
    {
      hide DistinctIds, TooLarge, Acceptable;
      OrderedSplit(pending, fastQueue);
      if !TooLarge(fastQueue) {
        RecordsFit(fastQueue, m);
        PrefixAcceptable(Envs(OnDisk(pending, fastQueue)), Envs(fastQueue), stored, m);
      }
    }

    /** What is stored after a spill of the first `m` messages. */
    lemma SpillKeepsPrefix(q: Queue, q': Queue, m: nat, count: nat, done: bool)
      requires StoresPrefix(q, pending, fastQueue, stored) && Ordered(pending, fastQueue) && m <= |fastQueue|
      requires Appended(q, q', NewOnes(Envs(fastQueue)[..m], Ids(q.Pending())), count, true, done)
      ensures stored <= |fastQueue| && q.head <= |q.items|
      ensures StoresPrefix(q', pending, fastQueue, if m <= stored then stored else stored + count)
      ensures (m > stored ==> stored + count <= m) && (done && m > stored ==> count == m - stored)
    {
      hide DistinctIds, Appended, NewOnes, Ids;
      OrderedSplit(pending, fastQueue);
      SpillStores(q, q', Envs(OnDisk(pending, fastQueue)), Envs(fastQueue), stored, m, count, done);
    }

    lemma SpillBreaks(q: Queue, q': Queue, m: nat, count: nat)
      requires StoresPrefix(q, pending, fastQueue, stored) && Ordered(pending, fastQueue) && m <= |fastQueue|
      requires q.head <= |q.items| && Grew(q, q', NewOnes(Envs(fastQueue)[..m], Ids(q.Pending())), count)
      requires Replays(q, left, asking) && q'.Ok()
      ensures Salvages(q', left, asking, Fifo())
    {
      hide DistinctIds, Grew, NewOnes, Ids, Replays, Salvages;
      OrderedSplit(pending, fastQueue);
      SpillSalvages(q, q', Envs(OnDisk(pending, fastQueue)), Envs(fastQueue), stored, m, count, left, asking);
    }

    lemma BacksParts(q: Queue)
      requires Backs(q, mode.Group?, left, asking, halfRemoved)
      ensures Replays(q, left, asking) && (!mode.Group? ==> q.saved == q.head && q.durable == |q.items|)
    {
      hide DistinctIds;
    }

    lemma SpillBacks(q: Queue, q': Queue, added: seq<Envelope>, count: nat, done: bool)
      requires Backs(q, mode.Group?, left, asking, halfRemoved) && mode.Fast?
      requires Appended(q, q', added, count, true, done) && q'.Ok()
      ensures Backs(q', mode.Group?, left, asking, halfRemoved)
    {
      hide Grew, Replays;
      BacksGrew(q, q', added, count, false, left, asking, halfRemoved);
    }

    /** Whether every message of the batch reads back from the Outbox as it was accepted. */
    method ReadBack(batch: seq<Envelope>) returns (same: bool)
      requires Ready() && forall e | e in batch :: e in outbox.Queue().Pending()
      ensures same
    {
      hide Outbox.Valid, Outbox.Queue, FileSystem.Valid, Tracks, Covered, QueueSpec.Queue.Ok, Ids, Backs;
      ghost var q := outbox.Queue();
      outbox.QueueFacts();
      PendingDistinctIds(q);
      var i := 0;
      while i < |batch|
        invariant i <= |batch|
      {
        var got := outbox.Get(batch[i].id);
        StillStored(q, batch[i], got);
        if got != Some(batch[i]) { return false; }
        i := i + 1;
      }
      same := true;
    }

    /** After a batch that was partly stored before: every message must be in the
        Outbox with its exact content, and the data is synced once more. */
    method Confirm(batch: seq<Envelope>) returns (ok: bool)
      requires mode.Fast? && Ready() && Mirrored() && Ordered(pending, fastQueue)
      requires forall e | e in batch :: e in outbox.Queue().Pending()
      modifies outbox`syncPending, outbox`syncGeneration, outbox.fs
      ensures Moments(old(outbox.fs.visited), outbox.fs.visited, old(Extent([], false)))
      ensures Ready() && Mirrored()
      ensures Narrows(Extent([], false), old(Extent([], false)))
      ensures outbox.Queue().head == old(outbox.Queue()).head
      ensures ok ==> forall e | e in batch :: e in outbox.Queue().Pending()
      ensures old(outbox.fs.faults) <= outbox.fs.faults
      ensures !ok ==> outbox.fs.faults > old(outbox.fs.faults)
    {
      hide Outbox.Valid, Outbox.Queue, FileSystem.Valid, Tracks, Covered, QueueSpec.Queue.Ok, Ids, Backs, Moments;
      hide Inside, Narrows, Resting, Reach;
      ghost var q := outbox.Queue();
      outbox.QueueFacts();
      StoredIsPrefix(q, pending, fastQueue, stored);
      HoldingReached(q, Fifo(), false);
      ok := ReadBack(batch);
      if !ok { return; }
      ok := outbox.SyncData();
      outbox.QueueFacts();
      WiderMoments(old(outbox.fs.visited), outbox.fs.visited, Resting(q), Reach(q, Fifo(), [], false));
      SyncedReach(q, outbox.Queue(), ok, Fifo());
      BacksSynced(q, outbox.Queue(), ok, mode.Group?, left, asking, halfRemoved);
    }

    lemma StillStored(q: Queue, e: Envelope, got: Option<Envelope>)
      requires q.head <= |q.items| && DistinctIds(q.Pending()) && e in q.Pending()
      requires got.None? <==> e.id !in Ids(q.Pending())
      requires got.Some? ==> got.value in q.Pending() && got.value.id == e.id
      ensures got == Some(e)
    {
      PendingId(q.Pending(), e);
      SamePending(q.Pending(), e, got.value);
    }

    /** Appends the selected messages durably. When some were already there, each is
        read back and compared, and the data synced again, before ownership moves. */
    method StoreSelected(batch: seq<Envelope>) returns (r: Spill)
      requires mode.Fast? && Ready() && Mirrored() && Ordered(pending, fastQueue)
      requires |batch| <= |fastQueue| && batch == Envs(fastQueue)[..|batch|]
      requires forall e | e in batch :: outbox.codec.decode(e.body) == Some(e.id)
      requires forall m | m in fastQueue[..|batch|] :: m.spillAttempted
      modifies this`stored, outbox, outbox.fs
      ensures Moments(old(outbox.fs.visited), outbox.fs.visited, old(Extent([], false)))
      ensures r != SpillWedged ==> Ready() && Mirrored() && stored >= old(stored)
      ensures r != SpillWedged ==> Narrows(Extent([], false), old(Extent([], false)))
      ensures r != SpillWedged ==> outbox.Queue().head == old(outbox.Queue()).head
      ensures r == SpillWedged ==> Broken(Fifo())
      ensures r.Spilled? ==> r.count == |batch| <= stored <= |fastQueue|
      ensures old(outbox.fs.faults) <= outbox.fs.faults
      ensures !r.Spilled? ==> Excused(old(outbox.fs.faults), old(fastQueue))
    {
      hide Outbox.Valid, Outbox.Queue, FileSystem.Valid, Acceptable, Tracks, Covered, QueueSpec.Queue.Ok, Ready;
      hide Mirrored;
      hide Broken, TooLarge, Moments, Inside, Narrows, Reach;
      ghost var b := Extent([], false);
      var appending := AppendBatch(batch);
      if appending == AppendWedged { return SpillWedged; }
      if !appending.Accepted? { return SpillFailed; }
      if appending.result.count != |batch| {
        // A retry after a spill that failed half way.
        ghost var visited0, b0 := outbox.fs.visited, Extent([], false);
        var confirmed := Confirm(batch);
        Onward(old(outbox.fs.visited), visited0, outbox.fs.visited, b, b0);
        NarrowsTwice(Extent([], false), b0, b);
        if !confirmed { return SpillFailed; }
      }
      r := Spilled(|batch|);
    }

    /** The envelopes of RAM-owned messages. */
    static method Envelopes(ms: seq<PendingMessage>) returns (es: seq<Envelope>)
      requires forall m | m in ms :: m.encoded == Some(m.content)
      ensures es == Envs(ms)
    {
      es := [];
      var i := 0;
      while i < |ms|
        invariant i <= |ms| && es == Envs(ms)[..i]
      {
        es := es + [Envelope(ms[i].id, ms[i].encoded.value)];
        i := i + 1;
      }
    }

    /** The loop that hands the first `n` RAM-owned messages over to the Outbox. */
    method PopLoop(n: nat)
      requires Ordered(pending, fastQueue) && n <= |fastQueue| && fastRamBytes == Bytes(fastQueue)
      requires forall m | m in fastQueue[n..] :: m.state == RamOnly && m.encoded == Some(m.content)
      modifies this`fastQueue, this`fastRamBytes, fastQueue`state, fastQueue`encoded
      ensures fastQueue == old(fastQueue)[n..] && fastRamBytes == Bytes(fastQueue)
      ensures forall m | m in old(fastQueue)[..n] :: m.state == DiskBacked && m.encoded == None
      ensures forall m | m in fastQueue :: m.state == RamOnly && m.encoded == Some(m.content)
    {
      hide DistinctIds, Ordered, Bytes, OnDisk;
      ghost var ram := fastQueue;
      var i := 0;
      assert ram[0..] == ram;
      while i < n
        invariant i <= n && fastQueue == ram[i..] && fastRamBytes == Bytes(ram[i..])
        invariant forall j | 0 <= j < i :: ram[j].state == DiskBacked && ram[j].encoded == None
        invariant forall j | i <= j < |ram| :: ram[j].state == old(ram[j].state) && ram[j].encoded == old(ram[j].encoded)
      {
        var item := fastQueue[0];
        OthersDiffer(pending, ram, i);
        BytesHead(ram, i);
        fastQueue := fastQueue[1..];
        fastRamBytes := fastRamBytes - item.encodedSize;
        item.state := DiskBacked;
        item.encoded := None;
        i := i + 1;
      }
    }

    method PopPersisted(n: nat)
      requires Ordered(pending, fastQueue) && OwnedAs(n) && n <= |fastQueue|
      modifies this`fastQueue, this`fastRamBytes, fastQueue`state, fastQueue`encoded
      ensures fastQueue == old(fastQueue)[n..] && Owned()
      ensures OnDisk(pending, fastQueue) == OnDisk(pending, old(fastQueue)) + old(fastQueue)[..n]
    {
      hide DistinctIds, Ordered, Bytes;
      ghost var ram, disk := fastQueue, pending[..|pending| - |fastQueue|];
      OrderedParts(pending, ram);
      ReleaseDisk(pending, ram, n);
      RamIsNotOnDisk(pending, ram);
      RestInRam(n);
      assert forall m | m in disk :: m !in ram && m.state == DiskBacked && m.encoded == None;
      PopLoop(n);
      forall m | m in disk
        ensures m.state == DiskBacked && m.encoded == None
      {
        assert m !in ram;
      }
    }

    lemma RestInRam(n: nat)
      requires OwnedAs(n) && n <= |fastQueue|
      ensures forall m | m in fastQueue[n..] :: m.state == RamOnly && m.encoded == Some(m.content) && m.encodedSize == |m.content|
      ensures Bytes(fastQueue[n..]) <= Bytes(fastQueue)
    {
      BytesSplit(fastQueue, n);
      hide Bytes;
      assert forall m | m in fastQueue[n..] :: m in fastQueue;
    }

    /** Releases RAM ownership of the first `n` messages, which the Outbox stores. */
    method Release(n: nat)
      requires Ready() && Ordered(pending, fastQueue) && Mirrored() && OwnedAs(n) && n <= stored <= |fastQueue|
      modifies this`fastQueue, this`fastRamBytes, this`stored, fastQueue`state, fastQueue`encoded
      ensures Ready() && Ordered(pending, fastQueue) && Mirrored() && Owned()
      ensures fastQueue == old(fastQueue)[n..] && stored == old(stored) - n
      ensures Extent([], false) == old(Extent([], false))
    {
      hide Ready, Outbox.Valid, Outbox.Queue, Ordered, OwnedAs, StoresPrefix, Backs, Reach;
      ghost var ram, before := fastQueue, stored;
      OrderedRelease(outbox.Queue(), pending, ram, stored, n);
      PopPersisted(n);
      stored := stored - n;
      assert forall m | m in fastQueue[..stored] :: m in ram[..before];
    }

    /** `_spill_fast_batch_locked`: persists one bounded RAM prefix. Ownership moves
        only when the whole prefix is stored and synced; otherwise nothing in RAM
        changes but the mark that a spill was attempted. */
    method SpillBatch(eligible: Option<nat>) returns (r: Spill)
      requires Valid()
      modifies this`fastQueue, this`fastRamBytes, this`stored, this`fastRetryNotBefore, outbox, outbox.fs,
               fastQueue`state, fastQueue`encoded, fastQueue`spillAttempted
      ensures Moments(old(outbox.fs.visited), outbox.fs.visited, old(Extent([], false)))
      ensures r != SpillWedged ==> Valid()
      ensures r != SpillWedged ==> Narrows(Extent([], false), old(Extent([], false)))
      ensures r != SpillWedged ==> outbox.Queue().head == old(outbox.Queue()).head
      ensures r == SpillWedged ==> Broken(Fifo())
      ensures Owned()
      ensures r.Spilled? ==> r.count <= |old(fastQueue)| && fastQueue == old(fastQueue)[r.count..]
      ensures r.Spilled? && mode.Fast? && old(fastQueue) != [] && eligible != Some(0) ==> r.count > 0
      ensures !r.Spilled? ==> fastQueue == old(fastQueue) && fastRetryNotBefore == old(fastRetryNotBefore)
      ensures old(outbox.fs.faults) <= outbox.fs.faults
      ensures !r.Spilled? ==> Excused(old(outbox.fs.faults), old(fastQueue))
    {
      hide Ready, Mirrored, Broken, Outbox.Valid, Outbox.Queue, Ordered, IndexedById, Bytes, Decodable, OwnedAs;
      hide Moments, Inside, Narrows, Reach;
      ExtentStart();
      if !mode.Fast? || fastQueue == [] { return Spilled(0); }
      var limit := mode.fast.spillBatchMessages;
      if eligible.Some? && eligible.value < limit { limit := eligible.value; }
      PositiveBatch();
      var n := SelectBatch(limit);
      if n == 0 { return Spilled(0); }
      r := PersistPrefix(n);
      if r.Spilled? { fastRetryNotBefore := 0.0; }
    }

    /** Persists the first `n` RAM-owned messages. */
    method PersistPrefix(n: nat) returns (r: Spill)
      requires Valid() && mode.Fast? && n <= |fastQueue|
      modifies this`fastQueue, this`fastRamBytes, this`stored, outbox, outbox.fs,
               fastQueue`state, fastQueue`encoded, fastQueue`spillAttempted
      ensures Moments(old(outbox.fs.visited), outbox.fs.visited, old(Extent([], false)))
      ensures r != SpillWedged ==> Valid()
      ensures r != SpillWedged ==> Narrows(Extent([], false), old(Extent([], false)))
      ensures r != SpillWedged ==> outbox.Queue().head == old(outbox.Queue()).head
      ensures r == SpillWedged ==> Broken(Fifo())
      ensures Owned()
      ensures r.Spilled? ==> r.count == n && fastQueue == old(fastQueue)[n..]
      ensures !r.Spilled? ==> fastQueue == old(fastQueue)
      ensures old(outbox.fs.faults) <= outbox.fs.faults
      ensures !r.Spilled? ==> Excused(old(outbox.fs.faults), old(fastQueue))
    {
      hide Ready, Mirrored, Broken, Outbox.Valid, Outbox.Queue, Ordered, IndexedById, Bytes, Decodable, OwnedAs;
      hide FileSystem.Valid;
      hide Moments, Narrows, Extent, Excused, TooLarge;
      var selected := fastQueue[..n];
      Mark(n);
      var batch := Envelopes(selected);
      BatchDecodes(outbox.codec, pending, fastQueue, n);
      r := HandOver(n, batch);
    }

    /** Stores the first `n` RAM-owned messages and lets RAM go of them. */
    method HandOver(n: nat, batch: seq<Envelope>) returns (r: Spill)
      requires Ready() && Mirrored() && Ordered(pending, fastQueue) && IndexedById(pending, pendingById)
      requires OwnedAs(n) && Decodable(outbox.codec, pending) && mode.Fast? && n <= |fastQueue|
      requires batch == Envs(fastQueue)[..n] && forall m | m in fastQueue[..n] :: m.spillAttempted
      requires forall e | e in batch :: outbox.codec.decode(e.body) == Some(e.id)
      modifies this`fastQueue, this`fastRamBytes, this`stored, outbox, outbox.fs, fastQueue`state, fastQueue`encoded
      ensures Moments(old(outbox.fs.visited), outbox.fs.visited, old(Extent([], false)))
      ensures r != SpillWedged ==> Valid()
      ensures r != SpillWedged ==> Narrows(Extent([], false), old(Extent([], false)))
      ensures r != SpillWedged ==> outbox.Queue().head == old(outbox.Queue()).head
      ensures r == SpillWedged ==> Broken(Fifo())
      ensures Owned()
      ensures r.Spilled? ==> r.count == n && fastQueue == old(fastQueue)[n..]
      ensures !r.Spilled? ==> fastQueue == old(fastQueue)
      ensures old(outbox.fs.faults) <= outbox.fs.faults
      ensures !r.Spilled? ==> Excused(old(outbox.fs.faults), old(fastQueue))
    {
      hide Ready, Mirrored, Broken, Outbox.Valid, Outbox.Queue, Ordered, IndexedById, Bytes, Decodable, OwnedAs;
      hide FileSystem.Valid;
      hide Moments, Narrows, Extent, Excused, TooLarge, Envs;
      r := StoreSelected(batch);
      if r.Spilled? {
        Release(n);
      } else {
        Unmark(n);
      }
    }

    /** The first `n` RAM-owned messages are being persisted, and may already be in
        the Outbox when that fails. */
    method Mark(n: nat)
      requires Owned() && Ordered(pending, fastQueue) && n <= |fastQueue| && Mirrored()
      modifies fastQueue`state, fastQueue`spillAttempted
      ensures OwnedAs(n) && Mirrored() && forall m | m in fastQueue[..n] :: m.spillAttempted
      ensures forall m | m in fastQueue[..n] :: m.encoded == Some(m.content)
      ensures Extent([], false) == old(Extent([], false))
    {
      hide Mirrored, Bytes, Ordered, Outbox.Queue, Reach;
      PrefixApart(pending, fastQueue, n);
      RamIsNotOnDisk(pending, fastQueue);
      SetStates(fastQueue[..n], Persisting);
      MarkAttempted(n);
      forall i | 0 <= i < n
        ensures fastQueue[i].state == Persisting
      {
        assert fastQueue[i] in fastQueue[..n];
      }
    }

    method MarkAttempted(n: nat)
      requires n <= |fastQueue| && Mirrored()
      modifies fastQueue`spillAttempted
      ensures Mirrored() && forall m | m in fastQueue[..n] :: m.spillAttempted
    {
      hide Outbox.Valid, Outbox.Queue, Backs;
      assert forall m | m in fastQueue[..n] :: m in fastQueue;
      label before:
      SetAttempted(fastQueue[..n]);
      assert forall m | m in fastQueue :: old@before(m.spillAttempted) ==> m.spillAttempted;
    }

    method Unmark(n: nat)
      requires OwnedAs(n) && Ordered(pending, fastQueue) && n <= |fastQueue|
      modifies fastQueue`state
      ensures Owned()
    {
      hide Bytes, Ordered;
      RamIsNotOnDisk(pending, fastQueue);
      SetStates(fastQueue[..n], RamOnly);
      forall i | 0 <= i < n
        ensures fastQueue[i].state == RamOnly
      {
        assert fastQueue[i] in fastQueue[..n];
      }
    }

    lemma PositiveBatch()
      requires Ready() && mode.Fast?
      ensures mode.fast.spillBatchMessages > 0 && mode.fast.ramMaxMessages > 0 && mode.Ok()
    {
      hide Outbox.Valid, Outbox.Queue, Tracks;
    }

    /** `_spill_unpersisted_fast_locked`: persists every RAM-owned message. */
    method SpillAll() returns (r: Spill)
      requires Valid()
      modifies this`fastQueue, this`fastRamBytes, this`stored, this`fastRetryNotBefore, outbox, outbox.fs,
               fastQueue`state, fastQueue`encoded, fastQueue`spillAttempted
      ensures Moments(old(outbox.fs.visited), outbox.fs.visited, old(Extent([], false)))
      ensures r != SpillWedged ==> Valid()
      ensures r != SpillWedged ==> Narrows(Extent([], false), old(Extent([], false)))
      ensures r == SpillWedged ==> Broken(Fifo())
      ensures Owned() && Suffix(fastQueue, old(fastQueue))
      ensures r.Spilled? ==> fastQueue == []
      ensures old(outbox.fs.faults) <= outbox.fs.faults
      ensures !r.Spilled? ==> Excused(old(outbox.fs.faults), old(fastQueue))
    {
      hide Ready, Mirrored, Broken, Outbox.Valid, Outbox.Queue, Ordered, IndexedById, Bytes, Decodable, OwnedAs;
      hide FileSystem.Valid;
      hide Moments, Inside, Narrows, Extent, Excused, TooLarge;
      ghost var ram, b := fastQueue, Extent([], false);
      ExtentStart();
      r := Spilled(0);
      while fastQueue != []
        invariant r.Spilled? && Valid() && Suffix(fastQueue, ram) && old(outbox.fs.faults) <= outbox.fs.faults
        invariant Moments(old(outbox.fs.visited), outbox.fs.visited, b) && Narrows(Extent([], false), b)
        decreases |fastQueue|
      {
        NotFastIsEmpty();
        ghost var before, rest, visited0, b0 := outbox.fs.faults, fastQueue, outbox.fs.visited, Extent([], false);
        r := SpillBatch(None);
        Onward(old(outbox.fs.visited), visited0, outbox.fs.visited, b, b0);
        if r != SpillWedged { NarrowsTwice(Extent([], false), b0, b); }
        if !r.Spilled? {
          ExcusedEarlier(old(outbox.fs.faults), ram, before, rest);
          return;
        }
      }
    }

    lemma NotFastIsEmpty()
      requires Owned()
      ensures !mode.Fast? ==> fastQueue == []
    {
    }

    /** `_make_fast_room_locked`: room is false for FastQueueFullError. */
    method MakeRoom(size: nat) returns (room: bool, wedged: bool)
      requires Valid() && mode.Fast?
      modifies this`fastQueue, this`fastRamBytes, this`stored, this`fastRetryNotBefore, outbox, outbox.fs,
               fastQueue`state, fastQueue`encoded, fastQueue`spillAttempted
      ensures Moments(old(outbox.fs.visited), outbox.fs.visited, old(Extent([], false)))
      ensures !wedged ==> Valid()
      ensures !wedged ==> Narrows(Extent([], false), old(Extent([], false)))
      ensures wedged ==> Broken(Fifo())
      ensures wedged ==> !room
      ensures Owned() && Suffix(fastQueue, old(fastQueue))
      ensures room ==> |fastQueue| + 1 <= mode.fast.ramMaxMessages && fastRamBytes + size <= mode.fast.ramMaxBytes
      ensures size > mode.fast.ramMaxBytes ==> !room && fastQueue == old(fastQueue)
      ensures old(outbox.fs.faults) <= outbox.fs.faults
      ensures !room ==> size > mode.fast.ramMaxBytes || Excused(old(outbox.fs.faults), old(fastQueue))
      ensures wedged ==> Excused(old(outbox.fs.faults), old(fastQueue))
    {
      hide Ready, Mirrored, Broken, Outbox.Valid, Outbox.Queue, Ordered, IndexedById, Decodable, OwnedAs;
      hide FileSystem.Valid;
      hide Moments, Inside, Narrows, Extent, Excused, TooLarge;
      ghost var ram, b := fastQueue, Extent([], false);
      ExtentStart();
      if size > mode.fast.ramMaxBytes { return false, false; }
      while |fastQueue| + 1 > mode.fast.ramMaxMessages || fastRamBytes + size > mode.fast.ramMaxBytes
        invariant Valid() && Suffix(fastQueue, ram) && old(outbox.fs.faults) <= outbox.fs.faults
        invariant Moments(old(outbox.fs.visited), outbox.fs.visited, b) && Narrows(Extent([], false), b)
        decreases |fastQueue|
      {
        if fastQueue == [] {
          // An empty RAM queue always has room.
          EmptyHasRoom();
          assert false;
        }
        ghost var before, rest, visited0, b0 := outbox.fs.faults, fastQueue, outbox.fs.visited, Extent([], false);
        var spilled := SpillBatch(None);
        Onward(old(outbox.fs.visited), visited0, outbox.fs.visited, b, b0);
        if spilled != SpillWedged { NarrowsTwice(Extent([], false), b0, b); }
        if !spilled.Spilled? {
          ExcusedEarlier(old(outbox.fs.faults), ram, before, rest);
          return false, spilled == SpillWedged;
        }
        if spilled.count == 0 {
          // A spill of a non-empty queue moves something.
          assert false;
        }
      }
      room, wedged := true, false;
    }

    lemma EmptyHasRoom()
      requires Ready() && Owned() && mode.Fast? && fastQueue == []
      ensures fastRamBytes == 0 && mode.fast.ramMaxMessages > 0
    {
      hide PersistencePolicy.Valid, PersistencePolicy.DataBounded, PersistencePolicy.AckBounded;
      policy.OutboxValid();
    }

    /** `_fast_high_water_reached_locked`. */
    function HighWater(): bool
      reads this`fastQueue, this`fastRamBytes
    {
      if !mode.Fast? || fastQueue == [] || mode.fast.highWatermark.None? then false
      else
        var messageMark := AtLeastOne(Ceil(mode.fast.ramMaxMessages as real * mode.fast.highWatermark.value));
        var byteMark := AtLeastOne(Ceil(mode.fast.ramMaxBytes as real * mode.fast.highWatermark.value));
        |fastQueue| >= messageMark || fastRamBytes >= byteMark
    }

    /** `_spill_fast_high_water_locked`: errors leave the message in RAM for later. */
    method SpillHighWater() returns (wedged: bool)
      requires Valid()
      modifies this`time, this`fastQueue, this`fastRamBytes, this`stored, this`fastRetryNotBefore, outbox, outbox.fs,
               fastQueue`state, fastQueue`encoded, fastQueue`spillAttempted
      ensures Moments(old(outbox.fs.visited), outbox.fs.visited, old(Extent([], false)))
      ensures !wedged ==> Valid()
      ensures wedged ==> Broken(Fifo())
      ensures Owned() && Suffix(fastQueue, old(fastQueue)) && old(time) <= time
      ensures !wedged && HighWater() ==> fastRetryNotBefore == time + retryInterval
      ensures old(outbox.fs.faults) <= outbox.fs.faults
      ensures wedged || HighWater() ==> Excused(old(outbox.fs.faults), old(fastQueue))
    {
      hide Ready, Mirrored, Broken, Outbox.Valid, Outbox.Queue, Ordered, IndexedById, Bytes, Decodable, OwnedAs;
      hide FileSystem.Valid;
      hide Moments, Inside, Narrows, Extent, Excused, TooLarge;
      ghost var ram, b := fastQueue, Extent([], false);
      ExtentStart();
      wedged := false;
      while HighWater()
        invariant Valid() && Suffix(fastQueue, ram) && time == old(time) && old(outbox.fs.faults) <= outbox.fs.faults
        invariant Moments(old(outbox.fs.visited), outbox.fs.visited, b) && Narrows(Extent([], false), b)
        decreases |fastQueue|
      {
        ghost var before, rest, visited0, b0 := outbox.fs.faults, fastQueue, outbox.fs.visited, Extent([], false);
        var spilled := SpillBatch(None);
        Onward(old(outbox.fs.visited), visited0, outbox.fs.visited, b, b0);
        if spilled != SpillWedged { NarrowsTwice(Extent([], false), b0, b); }
        if !spilled.Spilled? {
          ExcusedEarlier(old(outbox.fs.faults), ram, before, rest);
          var now := Clock();
          fastRetryNotBefore := now + retryInterval;
          return spilled == SpillWedged;
        }
        if spilled.count == 0 { break; }
      }
    }

    method Clock() returns (now: real)
      modifies this`time
      ensures old(time) <= now == time
    {
      var step: real :| step >= 0.0;
      time := time + step;
      now := time;
    }

    // ---- Timed maintenance -------------------------------------------------------------

    method CancelFastTimer()
      modifies this`fastTimer, this`fastGeneration, this`fastArmed
      ensures fastTimer == None && fastArmed == {} && fastGeneration == old(fastGeneration) + 1
    {
      fastGeneration := fastGeneration + 1;
      fastTimer := None;
      fastArmed := {};
    }

    /** One timer of the current generation, or none. */
    ghost predicate FastTracked()
      reads this`fastTimer, this`fastGeneration, this`fastArmed
    {
      match fastTimer
      case None => fastArmed == {}
      case Some(t) => t.generation == fastGeneration && fastArmed == {fastGeneration}
    }

    /** A timer will run maintenance by the time the oldest RAM message is overdue or
        the disconnect grace ends, or at the retry time when that is later. */
    ghost predicate Scheduled()
      reads this`fastTimer, this`fastGeneration, this`fastArmed, this`fastQueue, this`fastRetryNotBefore,
            this`disconnectedSince
    {
      && FastTracked()
      && (!mode.Fast? || fastQueue == [] ==> fastTimer == None)
      && (mode.Fast? && fastQueue != [] && mode.fast.maxRamAge.Some? ==>
            fastTimer.Some? && DueBy(fastTimer.value.deadline, fastQueue[0].enqueuedAt + mode.fast.maxRamAge.value, fastRetryNotBefore))
      && (mode.Fast? && fastQueue != [] && disconnectedSince.Some? && mode.fast.disconnectGrace.Some? ==>
            fastTimer.Some? && DueBy(fastTimer.value.deadline, disconnectedSince.value + mode.fast.disconnectGrace.value, fastRetryNotBefore))
    }

    /** `_schedule_fast_maintenance_locked`. */
    method Schedule()
      requires FastTracked()
      modifies this`time, this`fastTimer, this`fastGeneration, this`fastArmed
      ensures Scheduled() && old(time) <= time
    {
      if !mode.Fast? || fastQueue == [] {
        CancelFastTimer();
        return;
      }
      var now := Clock();
      var deadline: Option<real> := None;
      if mode.fast.maxRamAge.Some? {
        deadline := Earlier(deadline, fastQueue[0].enqueuedAt + mode.fast.maxRamAge.value);
      }
      if disconnectedSince.Some? && mode.fast.disconnectGrace.Some? {
        deadline := Earlier(deadline, disconnectedSince.value + mode.fast.disconnectGrace.value);
      }
      if fastRetryNotBefore > now {
        deadline := Earlier(deadline, fastRetryNotBefore);
      }
      if deadline.None? {
        CancelFastTimer();
        return;
      }
      var due := deadline.value;
      if fastRetryNotBefore > now && due <= now {
        due := fastRetryNotBefore;
      }
      if fastTimer.Some? && Near(fastTimer.value.deadline, due) { return; }
      CancelFastTimer();
      fastTimer := Some(FastTimer(fastGeneration, due));
      fastArmed := fastArmed + {fastGeneration};
    }

    predicate Overdue(m: PendingMessage, now: real)
    {
      mode.Fast? && mode.fast.maxRamAge.Some? && m.enqueuedAt + mode.fast.maxRamAge.value <= now
    }

    method CountOverdue(now: real) returns (eligible: nat)
      ensures eligible == 0 <==> forall m | m in fastQueue :: !Overdue(m, now)
    {
      eligible := 0;
      var i := 0;
      while i < |fastQueue|
        invariant i <= |fastQueue|
        invariant eligible == 0 <==> forall m | m in fastQueue[..i] :: !Overdue(m, now)
      {
        assert fastQueue[..i + 1] == fastQueue[..i] + [fastQueue[i]];
        if Overdue(fastQueue[i], now) { eligible := eligible + 1; }
        i := i + 1;
      }
      assert fastQueue[..i] == fastQueue;
    }

    /** Spills while any RAM message is overdue. */
    method SpillOverdue(now: real) returns (r: Spill)
      requires Valid() && mode.Fast?
      modifies this`fastQueue, this`fastRamBytes, this`stored, this`fastRetryNotBefore, outbox, outbox.fs,
               fastQueue`state, fastQueue`encoded, fastQueue`spillAttempted
      ensures Moments(old(outbox.fs.visited), outbox.fs.visited, old(Extent([], false)))
      ensures r != SpillWedged ==> Valid()
      ensures r != SpillWedged ==> Narrows(Extent([], false), old(Extent([], false)))
      ensures r == SpillWedged ==> Broken(Fifo())
      ensures Owned() && Suffix(fastQueue, old(fastQueue))
      ensures r.Spilled? ==> forall m | m in fastQueue :: !Overdue(m, now)
      ensures old(outbox.fs.faults) <= outbox.fs.faults
      ensures !r.Spilled? ==> Excused(old(outbox.fs.faults), old(fastQueue))
    {
      hide Ready, Mirrored, Broken, Outbox.Valid, Outbox.Queue, Ordered, IndexedById, Bytes, Decodable, OwnedAs;
      hide FileSystem.Valid;
      hide Moments, Inside, Narrows, Extent, Excused, TooLarge;
      ghost var ram, b := fastQueue, Extent([], false);
      ExtentStart();
      r := Spilled(0);
      while fastQueue != [] && mode.fast.maxRamAge.Some?
        invariant r.Spilled? && Valid() && Suffix(fastQueue, ram) && old(outbox.fs.faults) <= outbox.fs.faults
        invariant Moments(old(outbox.fs.visited), outbox.fs.visited, b) && Narrows(Extent([], false), b)
        decreases |fastQueue|
      {
        var eligible := CountOverdue(now);
        if eligible == 0 { break; }
        ghost var before, rest, visited0, b0 := outbox.fs.faults, fastQueue, outbox.fs.visited, Extent([], false);
        r := SpillBatch(Some(eligible));
        Onward(old(outbox.fs.visited), visited0, outbox.fs.visited, b, b0);
        if r != SpillWedged { NarrowsTwice(Extent([], false), b0, b); }
        if !r.Spilled? {
          ExcusedEarlier(old(outbox.fs.faults), ram, before, rest);
          return;
        }
      }
    }

    /** The high-water loop of timed maintenance, which lets errors out. */
    method SpillBelowMarks() returns (r: Spill)
      requires Valid() && mode.Fast?
      modifies this`fastQueue, this`fastRamBytes, this`stored, this`fastRetryNotBefore, outbox, outbox.fs,
               fastQueue`state, fastQueue`encoded, fastQueue`spillAttempted
      ensures Moments(old(outbox.fs.visited), outbox.fs.visited, old(Extent([], false)))
      ensures r != SpillWedged ==> Valid()
      ensures r == SpillWedged ==> Broken(Fifo())
      ensures Owned() && Suffix(fastQueue, old(fastQueue))
      ensures r.Spilled? ==> !HighWater()
      ensures old(outbox.fs.faults) <= outbox.fs.faults
      ensures !r.Spilled? ==> Excused(old(outbox.fs.faults), old(fastQueue))
    {
      hide Ready, Mirrored, Broken, Outbox.Valid, Outbox.Queue, Ordered, IndexedById, Bytes, Decodable, OwnedAs;
      hide FileSystem.Valid;
      hide Moments, Inside, Narrows, Extent, Excused, TooLarge;
      ghost var ram, b := fastQueue, Extent([], false);
      ExtentStart();
      r := Spilled(0);
      while HighWater()
        invariant r.Spilled? && Valid() && Suffix(fastQueue, ram) && old(outbox.fs.faults) <= outbox.fs.faults
        invariant Moments(old(outbox.fs.visited), outbox.fs.visited, b) && Narrows(Extent([], false), b)
        decreases |fastQueue|
      {
        ghost var before, rest, visited0, b0 := outbox.fs.faults, fastQueue, outbox.fs.visited, Extent([], false);
        r := SpillBatch(None);
        Onward(old(outbox.fs.visited), visited0, outbox.fs.visited, b, b0);
        if r != SpillWedged { NarrowsTwice(Extent([], false), b0, b); }
        if !r.Spilled? {
          ExcusedEarlier(old(outbox.fs.faults), ram, before, rest);
          return;
        }
      }
    }

    /** The body of `_run_fast_maintenance_locked` once it is due. */
    method SpillDue(now: real) returns (r: Spill)
      requires Valid() && mode.Fast?
      modifies this`fastQueue, this`fastRamBytes, this`stored, this`fastRetryNotBefore, outbox, outbox.fs,
               fastQueue`state, fastQueue`encoded, fastQueue`spillAttempted
      ensures Moments(old(outbox.fs.visited), outbox.fs.visited, old(Extent([], false)))
      ensures r != SpillWedged ==> Valid()
      ensures r == SpillWedged ==> Broken(Fifo())
      ensures Owned() && Suffix(fastQueue, old(fastQueue))
      ensures r.Spilled? ==> !HighWater() && forall m | m in fastQueue :: !Overdue(m, now)
      ensures r.Spilled? && DisconnectDue(now) ==> fastQueue == []
      ensures old(outbox.fs.faults) <= outbox.fs.faults
      ensures !r.Spilled? ==> Excused(old(outbox.fs.faults), old(fastQueue))
    {
      hide Ready, Mirrored, Broken, Outbox.Valid, Outbox.Queue, Ordered, IndexedById, Bytes, Decodable, OwnedAs;
      hide FileSystem.Valid;
      hide Owned, Moments, Inside, Narrows, Reach;
      if DisconnectDue(now) {
        r := SpillAll();
      } else {
        ghost var ram, b := fastQueue, Extent([], false);
        r := SpillOverdue(now);
        if !r.Spilled? { return; }
        ghost var before, rest, visited0, b0 := outbox.fs.faults, fastQueue, outbox.fs.visited, Extent([], false);
        r := SpillBelowMarks();
        Onward(old(outbox.fs.visited), visited0, outbox.fs.visited, b, b0);
        if !r.Spilled? { ExcusedEarlier(old(outbox.fs.faults), ram, before, rest); }
      }
    }

    predicate DisconnectDue(now: real)
      reads this`disconnectedSince
    {
      mode.Fast? && disconnectedSince.Some? && mode.fast.disconnectGrace.Some?
      && now - disconnectedSince.value >= mode.fast.disconnectGrace.value
    }

    /** Maintenance up to the scheduling of the next one. */
    method Maintain() returns (r: Maintenance, ghost now: real)
      requires Valid()
      modifies this`time, this`fastQueue, this`fastRamBytes, this`stored, this`fastRetryNotBefore, outbox, outbox.fs,
               fastQueue`state, fastQueue`encoded, fastQueue`spillAttempted
      ensures Moments(old(outbox.fs.visited), outbox.fs.visited, old(Extent([], false)))
      ensures r != MaintenanceWedged ==> Valid()
      ensures r == MaintenanceWedged ==> Broken(Fifo())
      ensures Owned() && Suffix(fastQueue, old(fastQueue)) && fresh(Ram() - old(Ram())) && old(time) <= now <= time
      ensures r == Idle ==> fastQueue == []
      ensures r == Postponed ==> fastQueue == old(fastQueue) && now < fastRetryNotBefore
      ensures r == Ran ==> !HighWater() && forall m | m in fastQueue :: !Overdue(m, now)
      ensures r == Ran && DisconnectDue(now) ==> fastQueue == []
      ensures r == Errored ==> fastRetryNotBefore == now + retryInterval
      ensures old(outbox.fs.faults) <= outbox.fs.faults
      ensures r == Errored || r == MaintenanceWedged ==> Excused(old(outbox.fs.faults), old(fastQueue))
    {
      hide Ready, Mirrored, Broken, Outbox.Valid, Outbox.Queue, Ordered, IndexedById, Bytes, Decodable, OwnedAs;
      hide FileSystem.Valid;
      hide HighWater, DisconnectDue, Moments, Narrows, Extent, Valid, Owned, Excused, TooLarge;
      ExtentStart();
      now := time;
      if !mode.Fast? || fastQueue == [] {
        NotFastIsEmpty();
        return Idle, now;
      }
      var t := Clock();
      now := t;
      if fastRetryNotBefore > t { return Postponed, now; }
      var spilled := SpillDue(t);
      r := Ran;
      if !spilled.Spilled? {
        fastRetryNotBefore := t + retryInterval;
        r := if spilled == SpillWedged then MaintenanceWedged else Errored;
      }
    }

    /** `_run_fast_maintenance_locked`. */
    method RunMaintenance() returns (r: Maintenance, ghost now: real)
      requires Valid() && FastTracked()
      modifies this`time, this`fastQueue, this`fastRamBytes, this`stored, this`fastRetryNotBefore, this`fastTimer,
               this`fastGeneration, this`fastArmed, outbox, outbox.fs,
               fastQueue`state, fastQueue`encoded, fastQueue`spillAttempted
      ensures Moments(old(outbox.fs.visited), outbox.fs.visited, old(Extent([], false)))
      ensures r != MaintenanceWedged ==> Valid()
      ensures r == MaintenanceWedged ==> Broken(Fifo())
      ensures Scheduled() && Owned() && Suffix(fastQueue, old(fastQueue)) && fresh(Ram() - old(Ram())) && old(time) <= now <= time
      ensures r == Idle ==> fastQueue == []
      ensures r == Postponed ==> fastQueue == old(fastQueue) && now < fastRetryNotBefore
      ensures r == Ran ==> !HighWater() && forall m | m in fastQueue :: !Overdue(m, now)
      ensures r == Ran && DisconnectDue(now) ==> fastQueue == []
      ensures r == Errored ==> fastRetryNotBefore == now + retryInterval
      ensures old(outbox.fs.faults) <= outbox.fs.faults
      ensures r == Errored || r == MaintenanceWedged ==> Excused(old(outbox.fs.faults), old(fastQueue))
    {
      hide Ready, Mirrored, Broken, Outbox.Valid, Outbox.Queue, Ordered, IndexedById, Bytes, Decodable, OwnedAs;
      hide FileSystem.Valid;
      hide Scheduled, HighWater, DisconnectDue, Moments, Narrows, Extent, Valid, Owned, Excused, TooLarge, Suffix;
      hide Ram, Overdue;
      r, now := Maintain();
      Schedule();
    }

    /** `_on_fast_maintenance_timer`: a superseded timer changes nothing. */
    method OnFastTimer(generation: nat) returns (wedged: bool)
      requires Valid() && FastTracked()
      modifies this`time, this`fastQueue, this`fastRamBytes, this`stored, this`fastRetryNotBefore, this`fastTimer,
               this`fastGeneration, this`fastArmed, outbox, outbox.fs,
               fastQueue`state, fastQueue`encoded, fastQueue`spillAttempted
      ensures Moments(old(outbox.fs.visited), outbox.fs.visited, old(Extent([], false)))
      ensures !wedged ==> Valid()
      ensures wedged ==> Broken(Fifo())
      ensures generation != old(fastGeneration) ==>
                unchanged(this) && unchanged(outbox) && unchanged(outbox.fs) && unchanged(old(fastQueue))
      ensures generation == old(fastGeneration) ==> Scheduled()
      ensures FastTracked() && Suffix(fastQueue, old(fastQueue)) && fresh(Ram() - old(Ram()))
      ensures pending == old(pending) && left == old(left) && asking == old(asking) && stopped == old(stopped)
      ensures old(outbox.fs.faults) <= outbox.fs.faults
      ensures wedged ==> Excused(old(outbox.fs.faults), old(fastQueue))
    {
      hide Valid, Ready, Mirrored, Outbox.Valid, Outbox.Queue, Owned, OwnedAs, FileSystem.Valid, Scheduled, HighWater;
      hide DisconnectDue, Broken, Overdue, Excused, TooLarge;
      hide FastTracked, Suffix, Ram;
      RamSame();
      if generation != fastGeneration { return false; }
      wedged := Fire();
    }

    lemma RamSame()
      ensures Suffix(fastQueue, fastQueue)
    {
    }

    /** The current timer fires. */
    method Fire() returns (wedged: bool)
      requires Valid() && FastTracked()
      modifies this`time, this`fastQueue, this`fastRamBytes, this`stored, this`fastRetryNotBefore, this`fastTimer,
               this`fastGeneration, this`fastArmed, outbox, outbox.fs,
               fastQueue`state, fastQueue`encoded, fastQueue`spillAttempted
      ensures Moments(old(outbox.fs.visited), outbox.fs.visited, old(Extent([], false)))
      ensures !wedged ==> Valid()
      ensures wedged ==> Broken(Fifo())
      ensures Scheduled() && FastTracked() && Suffix(fastQueue, old(fastQueue)) && fresh(Ram() - old(Ram()))
      ensures old(outbox.fs.faults) <= outbox.fs.faults
      ensures wedged ==> Excused(old(outbox.fs.faults), old(fastQueue))
    {
      hide Valid, Ready, Mirrored, Outbox.Valid, Outbox.Queue, Owned, OwnedAs, FileSystem.Valid, HighWater;
      hide DisconnectDue, Broken, Overdue, Excused, TooLarge, Suffix, Scheduled;
      fastTimer := None;
      fastArmed := {};
      var r, now := RunMaintenance();
      Tracked();
      wedged := r == MaintenanceWedged;
    }

    // ---- Publishing -----------------------------------------------------------------------

    /** `_PendingMessage.encoded`: from RAM, or read back from the Outbox. */
    method EncodedOf(item: PendingMessage) returns (body: bytes)
      requires Valid() && item in pending
      ensures body == item.content
    {
      hide Ready, Outbox.Valid, Outbox.Queue, IndexedById, Bytes, Decodable, FileSystem.Valid, Ids, Backs;
      if item.encoded.Some? {
        RamContent(item);
        return item.encoded.value;
      }
      outbox.QueueFacts();
      PendingDistinctIds(outbox.Queue());
      DiskContent(outbox.Queue(), pending, fastQueue, stored, item);
      var got := outbox.Get(item.id);
      body := got.value.body;
    }

    lemma RamContent(item: PendingMessage)
      requires Owned() && Ordered(pending, fastQueue) && item in pending
      ensures item.encoded.Some? ==> item in fastQueue && item.encoded == Some(item.content)
      ensures item.encoded.None? ==> item in OnDisk(pending, fastQueue)
    {
      hide DistinctIds;
    }

    /** The new message joins the FIFO and the RAM queue, which has room for it. */
    method Enqueue(e: Envelope)
      requires Valid() && mode.Fast? && e.id !in pendingById && outbox.codec.decode(e.body) == Some(e.id)
      requires |fastQueue| + 1 <= mode.fast.ramMaxMessages && fastRamBytes + |e.body| <= mode.fast.ramMaxBytes
      modifies this`time, this`pending, this`pendingById, this`fastQueue, this`fastRamBytes
      ensures Valid() && Fifo() == old(Fifo()) + [e] && old(time) <= time
      ensures |fastQueue| == |old(fastQueue)| + 1 && fastQueue[..|old(fastQueue)|] == old(fastQueue)
      ensures fresh(fastQueue[|old(fastQueue)|]) && pending == old(pending) + [fastQueue[|old(fastQueue)|]]
      ensures fastQueue[|old(fastQueue)|].content == e.body
      ensures Narrows(Extent([], false), old(Extent([e], false)))
    {
      hide Ready, Outbox.Valid, Outbox.Queue, IndexedById, Bytes, DistinctIds, Ordered, StoresPrefix, OwnedAs;
      hide Backs, Reach, Narrows;
      StoredIsPrefix(outbox.Queue(), pending, fastQueue, stored);
      LongerReach(outbox.Queue(), Fifo(), e);
      var now := Clock();
      var item := new PendingMessage.InRam(e, now);
      NotListed(pending, pendingById, e.id);
      IndexAdd(pending, pendingById, item);
      OrderedAppend(outbox.Queue(), pending, fastQueue, stored, item);
      StoredWithin(outbox.Queue(), pending, fastQueue, stored);
      assert (fastQueue + [item])[..stored] == fastQueue[..stored];
      pendingById := pendingById[item.id := item];
      Push(item);
    }

    method Push(item: PendingMessage)
      requires Owned() && mode.Fast? && |fastQueue| + 1 <= mode.fast.ramMaxMessages
      requires fastRamBytes + item.encodedSize <= mode.fast.ramMaxBytes
      requires item.state == RamOnly && item.encoded == Some(item.content) && item.encodedSize == |item.content|
      requires |fastQueue| <= |pending| && OnDisk(pending + [item], fastQueue + [item]) == OnDisk(pending, fastQueue)
      modifies this`pending, this`fastQueue, this`fastRamBytes
      ensures Owned() && pending == old(pending) + [item] && fastQueue == old(fastQueue) + [item]
    {
      hide Bytes, OnDisk;
      BytesSnoc(fastQueue, item);
      pending := pending + [item];
      fastQueue := fastQueue + [item];
      fastRamBytes := fastRamBytes + item.encodedSize;
    }

    /** `publish` of a new message in FastMode. */
    method PublishFast(e: Envelope) returns (r: Publishing, wedged: bool)
      requires Valid() && FastTracked() && mode.Fast? && e.id !in pendingById
      requires outbox.codec.decode(e.body) == Some(e.id)
      modifies this, outbox, outbox.fs, fastQueue`state, fastQueue`encoded, fastQueue`spillAttempted
      ensures Moments(old(outbox.fs.visited), outbox.fs.visited, old(Extent([e], false)))
      ensures !wedged ==> Valid()
      ensures wedged ==> Broken(Fifo())
      ensures FastTracked() && Owned() && (r == AcceptedMessage || r == QueueFull)
      ensures Fifo() == old(Fifo()) + (if r == AcceptedMessage then [e] else []) && old(pending) <= pending
      ensures fresh(Ram() - old(Ram()))
      ensures stopped == old(stopped) && left == old(left) && asking == old(asking) && halfRemoved == old(halfRemoved)
      ensures r == AcceptedMessage ==> Scheduled()
      ensures r == AcceptedMessage && HighWater() ==> wedged || fastRetryNotBefore >= old(time) + retryInterval
      ensures |e.body| > mode.fast.ramMaxBytes ==> r == QueueFull && pending == old(pending) && fastQueue == old(fastQueue)
      ensures old(outbox.fs.faults) <= outbox.fs.faults
      ensures r == QueueFull ==> |e.body| > mode.fast.ramMaxBytes || Excused(old(outbox.fs.faults), old(fastQueue))
      ensures wedged || (r == AcceptedMessage && HighWater()) ==>
                |e.body| > MAX_RECORD_BYTES || Excused(old(outbox.fs.faults), old(fastQueue))
    {
      hide Ready, Mirrored, Broken, Outbox.Valid, Outbox.Queue, Ordered, IndexedById, Bytes, Decodable, OwnedAs;
      hide FileSystem.Valid;
      hide Scheduled, HighWater, FastTracked, Owned, Valid, TooLarge, Excused, Moments, Inside, Narrows, Extent;
      hide Longer, Envs, Suffix;
      ExtentStart();
      ExtentLonger(e);
      ghost var ram, small, b := fastQueue, Extent([], false), Extent([e], false);
      var room;
      room, wedged := MakeRoom(|e.body|);
      WiderMoments(old(outbox.fs.visited), outbox.fs.visited, small, b);
      SuffixMembers(fastQueue, ram);
      if !room { return QueueFull, wedged; }
      ExtentStart();
      ExtentLonger(e);
      ghost var before, rest, visited0, b0 := outbox.fs.faults, fastQueue, outbox.fs.visited, Extent([e], false);
      NarrowsLonger(Extent([], false), small, e);
      assert forall i | 0 <= i < |fastQueue| :: fastQueue[i] in ram;
      wedged := TakeIn(e);
      Onward(old(outbox.fs.visited), visited0, outbox.fs.visited, b, b0);
      if Excused(before, rest) { ExcusedEarlier(old(outbox.fs.faults), ram, before, rest); }
      r := AcceptedMessage;
    }

    /** A new message that has room joins the RAM queue, which is then spilled below its
        high-water marks. */
    method TakeIn(e: Envelope) returns (wedged: bool)
      requires Valid() && FastTracked() && mode.Fast? && e.id !in pendingById && outbox.codec.decode(e.body) == Some(e.id)
      requires |fastQueue| + 1 <= mode.fast.ramMaxMessages && fastRamBytes + |e.body| <= mode.fast.ramMaxBytes
      modifies this`time, this`pending, this`pendingById, this`fastQueue, this`fastRamBytes, this`stored,
               this`fastRetryNotBefore, this`fastTimer, this`fastGeneration, this`fastArmed, outbox, outbox.fs,
               fastQueue`state, fastQueue`encoded, fastQueue`spillAttempted
      ensures Moments(old(outbox.fs.visited), outbox.fs.visited, old(Extent([e], false)))
      ensures !wedged ==> Valid()
      ensures wedged ==> Broken(Fifo())
      ensures FastTracked() && Owned() && Scheduled() && old(time) <= time
      ensures Fifo() == old(Fifo()) + [e] && old(pending) <= pending
      ensures fresh(Ram() - old(Ram()))
      ensures HighWater() ==> wedged || fastRetryNotBefore >= old(time) + retryInterval
      ensures old(outbox.fs.faults) <= outbox.fs.faults
      ensures wedged || HighWater() ==> |e.body| > MAX_RECORD_BYTES || Excused(old(outbox.fs.faults), old(fastQueue))
    {
      hide Ready, Mirrored, Broken, Outbox.Valid, Outbox.Queue, Ordered, IndexedById, Bytes, Decodable, OwnedAs;
      hide FileSystem.Valid;
      hide Scheduled, HighWater, FastTracked, Valid, Owned, TooLarge, Excused, Moments, Extent, Ram, Envs;
      wedged := QueueUp(e);
      Schedule();
      Tracked();
    }

    method QueueUp(e: Envelope) returns (wedged: bool)
      requires Valid() && mode.Fast? && e.id !in pendingById && outbox.codec.decode(e.body) == Some(e.id)
      requires |fastQueue| + 1 <= mode.fast.ramMaxMessages && fastRamBytes + |e.body| <= mode.fast.ramMaxBytes
      modifies this`time, this`pending, this`pendingById, this`fastQueue, this`fastRamBytes, this`stored,
               this`fastRetryNotBefore, outbox, outbox.fs, fastQueue`state, fastQueue`encoded, fastQueue`spillAttempted
      ensures Moments(old(outbox.fs.visited), outbox.fs.visited, old(Extent([e], false)))
      ensures !wedged ==> Valid()
      ensures wedged ==> Broken(Fifo())
      ensures Owned() && old(time) <= time && Fifo() == old(Fifo()) + [e] && old(pending) <= pending
      ensures fresh(Ram() - old(Ram()))
      ensures HighWater() ==> wedged || fastRetryNotBefore >= old(time) + retryInterval
      ensures old(outbox.fs.faults) <= outbox.fs.faults
      ensures wedged || HighWater() ==> |e.body| > MAX_RECORD_BYTES || Excused(old(outbox.fs.faults), old(fastQueue))
    {
      hide Ready, Mirrored, Broken, Outbox.Valid, Outbox.Queue, Ordered, IndexedById, Bytes, Decodable, OwnedAs;
      hide FileSystem.Valid;
      hide HighWater, Valid, Owned, TooLarge, Excused, Moments, Narrows, Extent, Envs;
      ExtentStart();
      ghost var ram, b := fastQueue, Extent([e], false);
      NoMoments(outbox.fs.visited, b);
      Enqueue(e);
      ExtentStart();
      ghost var queued, visited0, b0 := fastQueue, outbox.fs.visited, Extent([], false);
      wedged := SpillHighWater();
      Onward(old(outbox.fs.visited), visited0, outbox.fs.visited, b, b0);
      SuffixMembers(fastQueue, queued);
      QueuedExcused(old(outbox.fs.faults), ram, queued, e);
    }

    lemma QueuedExcused(before: nat, ram: seq<PendingMessage>, queued: seq<PendingMessage>, e: Envelope)
      requires |queued| == |ram| + 1 && queued[..|ram|] == ram && queued[|ram|].content == e.body
      ensures Excused(before, queued) ==> |e.body| > MAX_RECORD_BYTES || Excused(before, ram)
    {
      hide FileSystem.Valid;
      if Excused(before, queued) && outbox.fs.faults <= before {
        var m :| m in queued && |m.content| > MAX_RECORD_BYTES;
        assert m == queued[|ram|] || m in ram;
      }
    }

    lemma Tracked()
      ensures Scheduled() ==> FastTracked()
    {
    }

    /** `publish` of a new message in DurableMode and GroupMode. */
    method PublishStored(e: Envelope) returns (r: Publishing, wedged: bool)
      requires Valid() && !mode.Fast? && e.id !in pendingById
      requires outbox.codec.decode(e.body) == Some(e.id)
      modifies this`time, this`pending, this`pendingById, policy, outbox, outbox.fs
      ensures Moments(old(outbox.fs.visited), outbox.fs.visited, old(Extent([e], false)))
      ensures !wedged ==> Valid()
      ensures wedged ==> Broken(Fifo() + [e]) && r == NotStored
      ensures r == AcceptedMessage || r == NotStored
      ensures Fifo() == old(Fifo()) + (if r == AcceptedMessage then [e] else []) && old(pending) <= pending
      ensures old(TimersArmed()) ==> TimersArmed()
      ensures old(outbox.fs.faults) <= outbox.fs.faults
      ensures r == NotStored ==> outbox.fs.faults > old(outbox.fs.faults) || |e.body| > MAX_RECORD_BYTES
      ensures wedged ==> outbox.fs.faults > old(outbox.fs.faults)
    {
      hide Ready, Outbox.Valid, Outbox.Queue, IndexedById, Bytes, DistinctIds, FileSystem.Valid, Ids, Ordered;
      hide Mirrored, OwnedAs;
      hide Backs, Broken;
      NotListed(pending, pendingById, e.id);
      var appended;
      appended, wedged := AppendStored(e);
      if wedged { return NotStored, true; }
      r := NotStored;
      if appended {
        var now := Clock();
        var item := new PendingMessage.OnDisk(e.id, e.body, |e.body|, now);
        IndexAdd(pending, pendingById, item);
        DistinctAppend(pending, item);
        pendingById := pendingById[item.id := item];
        PushStored(item);
        r := AcceptedMessage;
      }
      MirrorStored();
    }

    /** The append itself. A message whose ID is pending nowhere is never reported as
        already pending. */
    method AppendStored(e: Envelope) returns (appended: bool, wedged: bool)
      requires Ready() && Mirrored() && Owned() && Ordered(pending, fastQueue) && !mode.Fast?
      requires e.id !in Ids(Fifo()) && outbox.codec.decode(e.body) == Some(e.id)
      modifies policy, outbox, outbox.fs
      ensures Moments(old(outbox.fs.visited), outbox.fs.visited, old(Extent([e], false)))
      ensures fastQueue == [] && stored == 0
      ensures !wedged ==> Ready() && outbox.Valid() && outbox.Queue().head <= |outbox.Queue().items|
      ensures !wedged ==> outbox.Queue().Pending() == Fifo() + if appended then [e] else []
      ensures !wedged ==> Backs(outbox.Queue(), mode.Group?, left, asking, halfRemoved)
      ensures wedged ==> Broken(Fifo() + [e]) && !appended
      ensures old(TimersArmed()) ==> TimersArmed()
      ensures old(outbox.fs.faults) <= outbox.fs.faults
      ensures !appended ==> outbox.fs.faults > old(outbox.fs.faults) || |e.body| > MAX_RECORD_BYTES
      ensures wedged ==> outbox.fs.faults > old(outbox.fs.faults)
    {
      hide Outbox.Valid, Outbox.Queue, FileSystem.Valid, PersistencePolicy.Valid, PersistencePolicy.DataBounded;
      hide PersistencePolicy.AckBounded, Ids, Ordered, AppendedOne, Mirrored, OwnedAs, Backs, Replays, Salvages;
      hide MayHold;
      hide Outbox.Stranded, Moments, Inside, Growing, Reach;
      StoredFifo();
      ghost var q := outbox.Queue();
      BacksParts(q);
      AppendReached(q, e);
      ghost var b := Extent([e], false);
      var appending;
      appending, appended := policy.Append(e);
      WiderMoments(old(outbox.fs.visited), outbox.fs.visited, Growing(q, [e]), b);
      if appending == AppendWedged {
        outbox.StrandedOk();
        AppendSalvages(q, outbox.shadow.value, e, Fifo(), left, asking);
        return false, true;
      }
      policy.OutboxValid();
      outbox.QueueFacts();
      AppendedFifo(q, outbox.Queue(), e, appending.Accepted?, appended);
      BacksAppendedOne(q, outbox.Queue(), e, appending.Accepted?, appended, mode.Group?, left, asking, halfRemoved);
      wedged := false;
    }

    method PushStored(item: PendingMessage)
      requires Owned() && fastQueue == [] && item.state == DiskBacked && item.encoded == None
      modifies this`pending
      ensures Owned() && pending == old(pending) + [item]
    {
      hide Bytes;
      assert OnDisk(pending, fastQueue) == pending;
      pending := pending + [item];
      assert OnDisk(pending, fastQueue) == pending;
    }

    lemma MirrorStored()
      requires outbox.Valid() && fastQueue == [] && stored == 0 && outbox.Queue().head <= |outbox.Queue().items|
      requires outbox.Queue().Pending() == Fifo()
      requires Backs(outbox.Queue(), mode.Group?, left, asking, halfRemoved)
      ensures Mirrored()
    {
      hide Outbox.Valid, Outbox.Queue, Backs;
      assert OnDisk(pending, fastQueue) == pending;
    }

    /** Without a RAM queue the Outbox holds exactly the FIFO. */
    lemma StoredFifo()
      requires Mirrored() && Owned() && Ordered(pending, fastQueue) && !mode.Fast?
      ensures outbox.Valid() && fastQueue == [] && stored == 0 && outbox.Queue().head <= |outbox.Queue().items|
      ensures outbox.Queue().Pending() == Fifo()
      ensures Backs(outbox.Queue(), mode.Group?, left, asking, halfRemoved)
    {
      hide Outbox.Valid, Outbox.Queue, DistinctIds, Backs;
      assert OnDisk(pending, fastQueue) == pending;
    }

    /** `publish` under its locks, with the envelope already encoded. `wedged` means the
        Outbox must be reopened; the message list is right even then. */
    method Publish(e: Envelope) returns (r: Publishing, wedged: bool)
      requires Valid() && FastTracked() && outbox.codec.decode(e.body) == Some(e.id)
      modifies this, outbox, outbox.fs, policy, fastQueue`state, fastQueue`encoded, fastQueue`spillAttempted
      ensures Moments(old(outbox.fs.visited), outbox.fs.visited, old(Extent([e], false)))
      ensures !wedged ==> Valid()
      ensures wedged ==> Broken(Fifo() + if r == NotStored then [e] else [])
      ensures FastTracked() && (mode.Fast? ==> Owned()) && old(pending) <= pending
      ensures fresh(Ram() - old(Ram()))
      ensures stopped == old(stopped) && left == old(left) && asking == old(asking) && halfRemoved == old(halfRemoved)
      ensures r == Duplicate ==> e in old(Fifo())
      ensures r == Conflict ==> e.id in Ids(old(Fifo())) && e !in old(Fifo())
      ensures r == Duplicate || r == Conflict ==> unchanged(outbox) && unchanged(outbox.fs)
      ensures r != Duplicate && r != Conflict ==> e.id !in Ids(old(Fifo()))
      ensures Fifo() == old(Fifo()) + if r == AcceptedMessage then [e] else []
      ensures old(TimersArmed()) ==> TimersArmed()
      ensures old(outbox.fs.faults) <= outbox.fs.faults
      ensures r == QueueFull ==> mode.Fast? && (|e.body| > mode.fast.ramMaxBytes || Excused(old(outbox.fs.faults), old(fastQueue)))
      ensures r == NotStored ==> !mode.Fast? && (outbox.fs.faults > old(outbox.fs.faults) || |e.body| > MAX_RECORD_BYTES)
      ensures wedged || (mode.Fast? && r == AcceptedMessage && HighWater()) ==>
                |e.body| > MAX_RECORD_BYTES || Excused(old(outbox.fs.faults), old(fastQueue))
    {
      hide Ready, Mirrored, Broken, Outbox.Valid, Outbox.Queue, Ordered, IndexedById, Bytes, Decodable, OwnedAs;
      hide FileSystem.Valid;
      hide Scheduled, HighWater, FastTracked, Ids, Owned;
      wedged := false;
      if e.id in pendingById {
        ListedContent(e);
        var existing := pendingById[e.id];
        var body := EncodedOf(existing);
        return if body != e.body then Conflict else Duplicate, false;
      }
      NotListed(pending, pendingById, e.id);
      if mode.Fast? {
        r, wedged := PublishFast(e);
      } else {
        r, wedged := PublishStored(e);
      }
      assert Fifo() + [] == Fifo();
    }

    lemma ListedContent(e: Envelope)
      requires Valid() && e.id in pendingById
      ensures pendingById[e.id] in pending && e.id in Ids(Fifo())
      ensures e in Fifo() <==> pendingById[e.id].content == e.body
    {
      hide Ready, Mirrored, Broken, Owned, Bytes, Outbox.Valid, Outbox.Queue;
      var m := pendingById[e.id];
      var i :| 0 <= i < |pending| && pending[i] == m;
      assert Fifo()[i] == m.Env();
      if e in Fifo() {
        var j :| 0 <= j < |pending| && Fifo()[j] == e;
        assert pending[j] in pending;
      }
    }

    // ---- Completion ----------------------------------------------------------------------------

    /** The head leaves the Outbox: a durable checkpoint in DurableMode and FastMode, a
        volatile one in GroupMode. Under the invariant the Outbox never disagrees
        about which message is oldest. */
    method RemoveStored(e: Envelope) returns (removed: bool, ghost renamed: bool)
      requires Ready() && Mirrored() && Ordered(pending, fastQueue) && Owned()
      requires pending != [] && pending[0].state == DiskBacked && e == pending[0].Env()
      modifies this`left, this`asking, this`halfRemoved, policy, outbox, outbox.fs
      ensures Moments(old(outbox.fs.visited), outbox.fs.visited, old(Extent([], true)))
      ensures Ready() && outbox.Valid() && (mode.Group? ==> removed)
      ensures !removed ==> Mirrored()
      ensures removed ==> RemovedFrom(outbox.Queue(), pending, fastQueue, stored)
      ensures removed ==> forall m | m in fastQueue[..stored] :: m.spillAttempted
      ensures removed ==> Backs(outbox.Queue(), mode.Group?, left, asking, halfRemoved)
      ensures left == old(left) + (if removed then [e] else []) && asking == !removed
      ensures halfRemoved == (!removed && (old(halfRemoved) || renamed)) && (renamed ==> !removed)
      ensures old(TimersArmed()) ==> TimersArmed()
      ensures old(outbox.fs.faults) <= outbox.fs.faults
      ensures !removed ==> outbox.fs.faults > old(outbox.fs.faults)
    {
      hide Outbox.Valid, Outbox.Queue, FileSystem.Valid, PersistencePolicy.Valid, PersistencePolicy.DataBounded;
      hide PersistencePolicy.AckBounded, DistinctIds, Bytes, Ordered, Backs, CompletedOne, StoresPrefix, RemovedFrom;
      hide Moments, Inside, Holding, Reach, QueueSpec.Queue.Ok;
      outbox.QueueFacts();
      ghost var q, b := outbox.Queue(), Extent([], true);
      HeadIsStored(q);
      StoredIsPrefix(q, pending, fastQueue, stored);
      HoldingReached(q, Fifo(), true);
      policy.OutboxValid();
      var r;
      r, renamed := policy.Complete(e);
      WiderMoments(old(outbox.fs.visited), outbox.fs.visited, Holding(q, true), b);
      policy.OutboxValid();
      outbox.QueueFacts();
      removed := r == Advanced;
      HeadLeaves(q, outbox.Queue(), pending, fastQueue, stored, e, r, renamed);
      BacksCompleted(q, outbox.Queue(), e, r, renamed, mode.Group?, left, asking, halfRemoved);
      if removed {
        left, asking, halfRemoved := left + [e], false, false;
      } else {
        asking, halfRemoved := true, halfRemoved || renamed;
      }
    }

    lemma HeadIsStored(q: Queue)
      requires StoresPrefix(q, pending, fastQueue, stored) && Ordered(pending, fastQueue) && Owned()
      requires pending != [] && pending[0].state == DiskBacked
      ensures |fastQueue| < |pending| && q.Pending() != [] && q.Pending()[0] == pending[0].Env()
    {
      hide DistinctIds;
      AllInRam(pending, fastQueue);
    }

    /** The head is dropped from the FIFO once the Outbox let it go. */
    method DropStored()
      requires Ready() && outbox.Valid() && Ordered(pending, fastQueue) && Owned()
      requires IndexedById(pending, pendingById) && Decodable(outbox.codec, pending)
      requires |fastQueue| < |pending| && RemovedFrom(outbox.Queue(), pending, fastQueue, stored)
      requires forall m | m in fastQueue[..stored] :: m.spillAttempted
      requires Backs(outbox.Queue(), mode.Group?, left, asking, halfRemoved)
      modifies this`pending, this`pendingById
      ensures Valid() && pending == old(pending)[1..]
    {
      hide Ready, Outbox.Valid, Outbox.Queue, Bytes, DistinctIds, Ordered, IndexedById, Backs;
      DropHead(outbox.Queue(), pending, fastQueue, pendingById);
      pendingById := pendingById - {pending[0].id};
      pending := pending[1..];
    }

    method CompleteStored(e: Envelope) returns (removed: bool, ghost renamed: bool)
      requires Valid() && pending != [] && |fastQueue| < |pending|
      requires pending[0].state == DiskBacked && e == pending[0].Env()
      modifies this`pending, this`pendingById, this`left, this`asking, this`halfRemoved, policy, outbox, outbox.fs
      ensures Moments(old(outbox.fs.visited), outbox.fs.visited, old(Extent([], true)))
      ensures Valid() && (mode.Group? ==> removed)
      ensures pending == if removed then old(pending)[1..] else old(pending)
      ensures left == old(left) + (if removed then [e] else []) && asking == !removed
      ensures halfRemoved == (!removed && (old(halfRemoved) || renamed)) && (renamed ==> !removed)
      ensures old(TimersArmed()) ==> TimersArmed()
      ensures old(outbox.fs.faults) <= outbox.fs.faults
      ensures !removed ==> outbox.fs.faults > old(outbox.fs.faults)
    {
      hide Ready, Mirrored, Broken, Outbox.Valid, Outbox.Queue, Ordered, IndexedById, Bytes, OwnedAs, FileSystem.Valid;
      removed, renamed := RemoveStored(e);
      if removed { DropStored(); }
    }

    /** A RAM-only head no spill ever tried to store: it is in no Outbox record. */
    method DropFromRam()
      requires Valid() && pending != [] && pending[0].state == RamOnly && !pending[0].spillAttempted
      modifies this`pending, this`pendingById, this`fastQueue, this`fastRamBytes, this`left, this`asking, this`halfRemoved
      ensures Valid() && pending == old(pending)[1..] && Suffix(fastQueue, old(fastQueue))
      ensures left == old(left) + [old(pending[0].Env())] && !asking && !halfRemoved && !old(halfRemoved)
    {
      hide Ready, Outbox.Valid, Outbox.Queue, DistinctIds, Ordered, IndexedById, OwnedAs, StoresPrefix, Backs;
      RamHead();
      NothingStored();
      DropRamHead(outbox.Queue(), pending, pendingById);
      HalfIsPending(outbox.Queue(), mode.Group?, left, asking, halfRemoved);
      BacksRamLeft(outbox.Queue(), pending[0].Env(), mode.Group?, left, asking);
      left, asking, halfRemoved := left + [pending[0].Env()], false, false;
      pendingById := pendingById - {pending[0].id};
      PopRam();
    }

    lemma NothingStored()
      requires Mirrored() && fastQueue == pending && stored == 0
      ensures outbox.Queue().head <= |outbox.Queue().items| && outbox.Queue().Pending() == []
    {
      hide Outbox.Valid, Outbox.Queue, Backs;
    }

    method PopRam()
      requires Owned() && fastQueue == pending && pending != []
      modifies this`pending, this`fastQueue, this`fastRamBytes
      ensures Owned() && pending == old(pending)[1..] && fastQueue == pending
    {
      hide Bytes;
      BytesHead(fastQueue, 0);
      assert fastQueue[0..] == fastQueue;
      fastRamBytes := fastRamBytes - fastQueue[0].encodedSize;
      fastQueue := fastQueue[1..];
      pending := pending[1..];
      assert OnDisk(pending, fastQueue) == [];
    }

    lemma RamHead()
      requires Ordered(pending, fastQueue) && Owned() && Mirrored() && pending != []
      requires pending[0].state == RamOnly && !pending[0].spillAttempted
      ensures fastQueue == pending && stored == 0 && mode.Fast?
    {
      hide Outbox.Valid, Outbox.Queue, DistinctIds, Backs;
      FirstMembers(pending, |pending| - |fastQueue|);
      FirstMembers(fastQueue, stored);
    }

    /** `_complete_item` under the commit lock: an acknowledged head leaves the FIFO and
        whatever holds its bytes, or neither. After the stop flag nothing leaves.
        `renamed` says that the checkpoint past the head was renamed into place, but the
        directory fsync failed. */
    method CompleteItem(item: PendingMessage) returns (r: Completion, wedged: bool, ghost renamed: bool)
      requires Valid() && FastTracked() && item in pending
      modifies this, policy, outbox, outbox.fs, fastQueue`state, fastQueue`encoded, fastQueue`spillAttempted
      ensures Moments(old(outbox.fs.visited), outbox.fs.visited, old(Extent([], true)))
      ensures !wedged ==> Valid()
      ensures wedged ==> Broken(Fifo())
      ensures FastTracked() && stopped == old(stopped) && Owned() && Suffix(fastQueue, old(fastQueue))
      ensures r == Delivered ==> old(pending) != [] && item == old(pending[0]) && pending == old(pending)[1..] && !wedged
      ensures r != Delivered ==> pending == old(pending)
      ensures left == old(left) + if r == Delivered then [item.Env()] else []
      ensures asking ==> r != Delivered && (old(asking) || (!old(stopped) && old(pending) != [] && item == old(pending[0])))
      ensures halfRemoved == (r != Delivered && (old(halfRemoved) || renamed))
      ensures renamed ==> !mode.Group? && outbox.fs.faults > old(outbox.fs.faults)
      ensures r == Stopped <==> old(stopped)
      ensures r == Stopped ==> fastQueue == old(fastQueue) && !wedged && unchanged(outbox) && unchanged(outbox.fs)
      ensures old(!stopped && pending != [] && pending[0] == item && mode.Group?) ==> r == Delivered
      ensures old(TimersArmed()) ==> TimersArmed()
      ensures old(outbox.fs.faults) <= outbox.fs.faults
      ensures old(!stopped && pending != [] && pending[0] == item) && r != Delivered ==> Excused(old(outbox.fs.faults), old(fastQueue))
      ensures wedged ==> Excused(old(outbox.fs.faults), old(fastQueue))
    {
      hide Ready, Mirrored, Broken, Outbox.Valid, Outbox.Queue, Ordered, IndexedById, Bytes, Decodable, OwnedAs;
      hide FileSystem.Valid;
      hide Scheduled, HighWater, FastTracked;
      wedged, renamed := false, false;
      var body := EncodedOf(item);
      if stopped { return Stopped, false, false; }
      if pending == [] || pending[0] != item { return StoreError, false, false; }
      var gone;
      gone, wedged, renamed := CompleteHead(body);
      if !gone { return StoreError, wedged, renamed; }
      Schedule();
      Tracked();
      r := Delivered;
    }

    /** Takes the acknowledged head out of the FIFO and of its store. A head whose spill
        may have half happened is persisted first. */
    method CompleteHead(body: bytes) returns (gone: bool, wedged: bool, ghost renamed: bool)
      requires Valid() && pending != [] && body == pending[0].content
      modifies this`pending, this`pendingById, this`fastQueue, this`fastRamBytes, this`stored, this`fastRetryNotBefore,
               this`left, this`asking, this`halfRemoved, policy, outbox, outbox.fs, fastQueue`state, fastQueue`encoded, fastQueue`spillAttempted
      ensures Moments(old(outbox.fs.visited), outbox.fs.visited, old(Extent([], true)))
      ensures !wedged ==> Valid()
      ensures wedged ==> Broken(Fifo())
      ensures Owned() && Suffix(fastQueue, old(fastQueue)) && old(outbox.fs.faults) <= outbox.fs.faults
      ensures pending == if gone then old(pending)[1..] else old(pending)
      ensures left == old(left) + if gone then [old(pending[0].Env())] else []
      ensures (gone ==> !asking) && halfRemoved == (!gone && (old(halfRemoved) || renamed))
      ensures renamed ==> !mode.Group? && outbox.fs.faults > old(outbox.fs.faults)
      ensures (gone ==> !wedged) && (!gone ==> Excused(old(outbox.fs.faults), old(fastQueue))) && (mode.Group? ==> gone)
      ensures old(TimersArmed()) ==> TimersArmed()
    {
      hide Ready, Mirrored, Broken, Outbox.Valid, Outbox.Queue, Ordered, IndexedById, Bytes, Decodable, OwnedAs;
      hide FileSystem.Valid;
      hide Moments, Inside, Narrows, Extent;
      gone, wedged, renamed := false, false, false;
      ExtentStart();
      ExtentAsked();
      ExtentIs([], false);
      ExtentIs([], true);
      ghost var b := Extent([], true);
      NoMoments(outbox.fs.visited, b);
      NarrowsSame(b);
      var item := pending[0];
      StateOf(item);
      if item.state != DiskBacked && item.spillAttempted {
        ghost var q, b0 := outbox.Queue(), Extent([], false);
        var spilled := SpillBatch(None);
        WiderMoments(old(outbox.fs.visited), outbox.fs.visited, b0, b);
        if !spilled.Spilled? { return false, spilled == SpillWedged, false; }
        ExtentRest(q, b0, b);
        StateOf(item);
      }
      if item.state == DiskBacked {
        StateOf(item);
        ghost var visited1, b1 := outbox.fs.visited, Extent([], true);
        gone, renamed := CompleteStored(Envelope(item.id, body));
        Onward(old(outbox.fs.visited), visited1, outbox.fs.visited, b, b1);
      } else {
        DropFromRam();
        gone := true;
      }
    }

    lemma StateOf(item: PendingMessage)
      requires Owned() && Ordered(pending, fastQueue) && item in pending
      ensures item.state == DiskBacked || item.state == RamOnly
      ensures item.state == RamOnly ==> mode.Fast?
      ensures item.state == RamOnly && pending[0] == item ==> fastQueue == pending
      ensures item.state == DiskBacked && pending[0] == item ==> |fastQueue| < |pending|
    {
      RamContent(item);
      hide DistinctIds, Bytes;
      FirstMembers(pending, |pending| - |fastQueue|);
    }

    // ---- Delivery attempts ----------------------------------------------------------------------

    /** `_promote_fast_for_retry`: a message must be on disk before a later retry relies
        on it. */
    method PromoteForRetry(item: PendingMessage) returns (ok: bool, wedged: bool)
      requires Valid() && FastTracked()
      modifies this`time, this`fastQueue, this`fastRamBytes, this`stored, this`fastRetryNotBefore, this`fastTimer,
               this`fastGeneration, this`fastArmed, outbox, outbox.fs,
               fastQueue`state, fastQueue`encoded, fastQueue`spillAttempted
      ensures Moments(old(outbox.fs.visited), outbox.fs.visited, old(Extent([], false)))
      ensures !wedged ==> Valid()
      ensures wedged ==> Broken(Fifo())
      ensures FastTracked() && Owned() && Suffix(fastQueue, old(fastQueue))
      ensures ok && item in pending && pending[0] == item ==> item.state == DiskBacked
      ensures old(outbox.fs.faults) <= outbox.fs.faults
      ensures !ok && item in pending ==> pending[0] != item || Excused(old(outbox.fs.faults), old(fastQueue))
      ensures wedged ==> Excused(old(outbox.fs.faults), old(fastQueue))
    {
      hide Ready, Mirrored, Broken, Outbox.Valid, Outbox.Queue, Ordered, IndexedById, Bytes, Decodable, OwnedAs;
      hide FileSystem.Valid;
      hide Scheduled, HighWater, FastTracked;
      wedged := false;
      if item.state == DiskBacked { return true, false; }
      ListedItem(item);
      if item.id !in pendingById || pendingById[item.id] != item { return true, false; }
      StateOf(item);
      if fastQueue == [] || fastQueue[0] != item { return false, false; }
      var spilled := SpillBatch(None);
      if !spilled.Spilled? { return false, spilled == SpillWedged; }
      StateOf(item);
      Schedule();
      Tracked();
      ok := true;
    }

    lemma ListedItem(item: PendingMessage)
      requires IndexedById(pending, pendingById)
      ensures item in pending <==> item.id in pendingById && pendingById[item.id] == item
    {
    }

    /** After a failed attempt FastMode spills the head, unless the connection is down:
        then only the timed triggers apply. */
    method PrepareRetry(item: PendingMessage, connected: bool) returns (ok: bool, wedged: bool)
      requires Valid() && FastTracked()
      modifies this`time, this`fastQueue, this`fastRamBytes, this`stored, this`fastRetryNotBefore, this`fastTimer,
               this`fastGeneration, this`fastArmed, outbox, outbox.fs,
               fastQueue`state, fastQueue`encoded, fastQueue`spillAttempted
      ensures Moments(old(outbox.fs.visited), outbox.fs.visited, old(Extent([], false)))
      ensures !wedged ==> Valid()
      ensures wedged ==> Broken(Fifo())
      ensures FastTracked() && Owned() && Suffix(fastQueue, old(fastQueue))
      ensures ok && connected && mode.Fast? && pending != [] && pending[0] == item ==> item.state == DiskBacked
      ensures old(outbox.fs.faults) <= outbox.fs.faults
      ensures !ok && item in pending ==> pending[0] != item || Excused(old(outbox.fs.faults), old(fastQueue))
      ensures wedged ==> Excused(old(outbox.fs.faults), old(fastQueue))
    {
      hide Ready, Mirrored, Broken, Outbox.Valid, Outbox.Queue, Ordered, IndexedById, Bytes, Decodable, OwnedAs;
      hide FileSystem.Valid;
      hide Scheduled, HighWater, FastTracked;
      ok, wedged := true, false;
      if !mode.Fast? { return; }
      if connected {
        ok, wedged := PromoteForRetry(item);
      } else {
        ghost var now;
        var m;
        m, now := RunMaintenance();
        Tracked();
        wedged := m == MaintenanceWedged;
      }
    }

    /** The first section of `_process_oldest_once`: the oldest message and its bytes, or
        why there is no attempt. `ready` says whether the connection is up and subscribed. */
    method PickOldest(ready: bool) returns (r: Pick, wedged: bool)
      requires Valid() && FastTracked()
      modifies this`time, this`fastQueue, this`fastRamBytes, this`stored, this`fastRetryNotBefore, this`fastTimer,
               this`fastGeneration, this`fastArmed, outbox, outbox.fs,
               fastQueue`state, fastQueue`encoded, fastQueue`spillAttempted
      ensures Moments(old(outbox.fs.visited), outbox.fs.visited, old(Extent([], false)))
      ensures !wedged ==> Valid()
      ensures wedged ==> Broken(Fifo())
      ensures FastTracked() && Owned() && Suffix(fastQueue, old(fastQueue)) && fresh(Ram() - old(Ram()))
      ensures pending == old(pending) && left == old(left) && asking == old(asking) && stopped == old(stopped)
      ensures r == NoAttempt(SenderStopped) <==> stopped
      ensures r == NoAttempt(EmptyFifo) <==> !stopped && pending == []
      ensures r == NoAttempt(NotReady) <==> !stopped && pending != [] && !ready
      ensures r.Picked? <==> !stopped && pending != [] && ready
      ensures r.NoAttempt? || (pending != [] && r == Picked(pending[0], Fifo()[0]))
      ensures r.Picked? ==> !wedged && fastQueue == old(fastQueue) && unchanged(outbox) && unchanged(outbox.fs)
      ensures old(outbox.fs.faults) <= outbox.fs.faults
      ensures wedged ==> Excused(old(outbox.fs.faults), old(fastQueue))
    {
      hide Ready, Mirrored, Broken, Outbox.Valid, Outbox.Queue, Ordered, IndexedById, Bytes, Decodable, OwnedAs;
      hide FileSystem.Valid;
      hide Scheduled, HighWater, FastTracked, TooLarge;
      wedged := false;
      if stopped { return NoAttempt(SenderStopped), false; }
      if pending == [] { return NoAttempt(EmptyFifo), false; }
      var item := pending[0];
      var body := EncodedOf(item);
      if ready { return Picked(item, Envelope(item.id, body)), false; }
      var ok;
      ok, wedged := PrepareRetry(item, false);
      r := NoAttempt(NotReady);
    }

    /** The last section, once MQTT confirmed the publish or not, and a DeliveryAck for
        this ID was matched before the wait closed or not. Publishes, timers, spills and
        the stop flag may have come in between. The head leaves only when both came. */
    method FinishAttempt(item: PendingMessage, published: bool, matched: bool, connected: bool)
      returns (r: Delivery, wedged: bool, ghost renamed: bool)
      requires Valid() && FastTracked() && item in pending
      modifies this, policy, outbox, outbox.fs, fastQueue`state, fastQueue`encoded, fastQueue`spillAttempted
      ensures Moments(old(outbox.fs.visited), outbox.fs.visited, old(Extent([], published && matched && !stopped)))
      ensures !wedged ==> Valid()
      ensures wedged ==> Broken(Fifo())
      ensures FastTracked() && Owned() && Suffix(fastQueue, old(fastQueue)) && fresh(Ram() - old(Ram())) && stopped == old(stopped)
      ensures r == MessageDelivered ==> published && matched && !wedged && old(pending) != [] && item == old(pending[0])
      ensures pending == if r == MessageDelivered then old(pending)[1..] else old(pending)
      ensures left == old(left) + if r == MessageDelivered then [item.Env()] else []
      ensures asking ==> r != MessageDelivered && (old(asking) || (published && matched && !old(stopped)))
      ensures halfRemoved == (r != MessageDelivered && (old(halfRemoved) || renamed))
      ensures renamed ==> !mode.Group? && outbox.fs.faults > old(outbox.fs.faults)
      ensures r == SenderStopped <==> old(stopped)
      ensures published && matched && !old(stopped) && old(pending) != [] && item == old(pending[0]) ==>
                r == MessageDelivered || (r == StorageFailed && !mode.Group?)
      ensures r == StorageFailed && old(pending)[0] == item ==> Excused(old(outbox.fs.faults), old(fastQueue))
      ensures !(published && matched) && !old(stopped) ==> r == RetryScheduled || r == StorageFailed
      ensures r == RetryScheduled && connected && mode.Fast? && pending[0] == item ==> item.state == DiskBacked
      ensures old(TimersArmed()) ==> TimersArmed()
      ensures old(outbox.fs.faults) <= outbox.fs.faults
      ensures wedged ==> Excused(old(outbox.fs.faults), old(fastQueue))
    {
      hide Ready, Mirrored, Broken, Outbox.Valid, Outbox.Queue, Ordered, IndexedById, Bytes, Decodable, OwnedAs;
      hide FileSystem.Valid;
      hide Scheduled, HighWater, FastTracked, TooLarge;
      wedged, renamed := false, false;
      if published && matched {
        var completion;
        completion, wedged, renamed := CompleteItem(item);
        r := match completion case Delivered => MessageDelivered case Stopped => SenderStopped case StoreError => StorageFailed;
        return;
      }
      if stopped { return SenderStopped, false, false; }
      var ok;
      ok, wedged := PrepareRetry(item, connected);
      r := if ok then RetryScheduled else StorageFailed;
    }

    // ---- GroupMode timers -----------------------------------------------------------------------

    /** `_on_data_timer` beside a running Sender. */
    method OnDataTimer(generation: nat)
      requires Valid() && mode.Group?
      modifies policy, outbox, outbox.fs
      ensures Moments(old(outbox.fs.visited), outbox.fs.visited, old(Extent([], false)))
      ensures Valid() && old(outbox.fs.faults) <= outbox.fs.faults
      ensures generation != old(policy.dataGeneration) ==> unchanged(policy) && unchanged(outbox) && unchanged(outbox.fs)
      ensures old(TimersArmed()) ==> TimersArmed()
    {
      hide Outbox.Valid, Outbox.Queue, FileSystem.Valid, PersistencePolicy.Valid, PersistencePolicy.DataBounded;
      hide PersistencePolicy.AckBounded, Ordered, IndexedById, Bytes, Decodable, OwnedAs, Backs, Settles;
      TimerReach();
      ghost var q, b := outbox.Queue(), Extent([], false);
      policy.OnDataTimer(generation);
      WiderMoments(old(outbox.fs.visited), outbox.fs.visited, Holding(q, false), b);
      policy.OutboxValid();
      TimerSettled(q);
    }

    /** `_on_ack_timer` beside a running Sender. */
    method OnAckTimer(generation: nat)
      requires Valid() && mode.Group?
      modifies policy, outbox, outbox.fs
      ensures Moments(old(outbox.fs.visited), outbox.fs.visited, old(Extent([], false)))
      ensures Valid() && old(outbox.fs.faults) <= outbox.fs.faults
      ensures generation != old(policy.ackGeneration) ==> unchanged(policy) && unchanged(outbox) && unchanged(outbox.fs)
      ensures old(TimersArmed()) ==> TimersArmed()
    {
      hide Outbox.Valid, Outbox.Queue, FileSystem.Valid, PersistencePolicy.Valid, PersistencePolicy.DataBounded;
      hide PersistencePolicy.AckBounded, Ordered, IndexedById, Bytes, Decodable, OwnedAs, Backs, Settles;
      TimerReach();
      ghost var q, b := outbox.Queue(), Extent([], false);
      policy.OnAckTimer(generation);
      WiderMoments(old(outbox.fs.visited), outbox.fs.visited, Holding(q, false), b);
      policy.OutboxValid();
      TimerSettled(q);
    }

    /** A sync or checkpoint stays within what the Sender's call may reach. */
    lemma TimerReach()
      requires Mirrored() && Ordered(pending, fastQueue)
      ensures outbox.Valid() && Inside(Holding(outbox.Queue(), false), Extent([], false))
    {
      hide Outbox.Valid, Outbox.Queue, Inside, Holding, Reach, Backs, Ordered, StoresPrefix, QueueSpec.Queue.Ok;
      outbox.QueueFacts();
      StoredIsPrefix(outbox.Queue(), pending, fastQueue, stored);
      HoldingReached(outbox.Queue(), Fifo(), false);
    }

    lemma TimerSettled(q: Queue)
      requires outbox.Valid() && Settles(q, outbox.Queue()) && mode.Group?
      requires StoresPrefix(q, pending, fastQueue, stored) && Backs(q, mode.Group?, left, asking, halfRemoved)
      ensures StoresPrefix(outbox.Queue(), pending, fastQueue, stored)
      ensures Backs(outbox.Queue(), mode.Group?, left, asking, halfRemoved)
    {
      hide Outbox.Valid, Outbox.Queue, DistinctIds, Replays;
      outbox.QueueFacts();
      BacksSettled(q, outbox.Queue(), left, asking);
    }

    // ---- Shutdown ----------------------------------------------------------------------------------

    /** The stop flag, set under the commit lock. */
    method SignalStop()
      modifies this`stopped
      ensures stopped
    {
      stopped := true;
    }

    /** The persistence half of `stop`: spill everything in RAM, then flush. When it
        returns without raising, a restart returns exactly the pending FIFO, whatever a
        crash does, if and only if no removal of the head got as far as renaming its
        checkpoint and then failed in the directory fsync. */
    method Shutdown() returns (ok: bool, wedged: bool)
      requires Valid() && FastTracked()
      modifies this, policy, outbox, outbox.fs, fastQueue`state, fastQueue`encoded, fastQueue`spillAttempted
      ensures Moments(old(outbox.fs.visited), outbox.fs.visited, old(Extent([], false)))
      ensures !wedged ==> Valid()
      ensures wedged ==> Broken(Fifo())
      ensures FastTracked() && pending == old(pending) && stopped == old(stopped) && Suffix(fastQueue, old(fastQueue)) && fresh(Ram() - old(Ram()))
      ensures left == old(left) && asking == old(asking) && halfRemoved == old(halfRemoved)
      ensures ok ==> !wedged && fastQueue == [] && outbox.Queue().Ok() && outbox.Queue().Pending() == Fifo()
      ensures ok ==> (RestartsAs(outbox.codec, outbox.fs.disk, Fifo()) <==> !halfRemoved)
      ensures ok ==> TimersArmed()
      ensures old(outbox.fs.faults) <= outbox.fs.faults
      ensures !ok ==> Excused(old(outbox.fs.faults), old(fastQueue))
    {
      hide Ready, Mirrored, Broken, Outbox.Valid, Outbox.Queue, Ordered, IndexedById, Bytes, Decodable, OwnedAs;
      hide FileSystem.Valid;
      hide Scheduled, HighWater, RestartsAs, TooLarge, Moments, Narrows, Extent, TimersArmed, Valid, Owned, Envs;
      hide QueueSpec.Queue.Ok;
      CancelFastTimer();
      disconnectedSince := None;
      ExtentStart();
      ghost var b := Extent([], false);
      var spilled := SpillAll();
      if spilled == SpillWedged { return false, true; }
      ExtentStart();
      ghost var visited0, b0 := outbox.fs.visited, Extent([], false);
      var flushed := FlushPolicy();
      Onward(old(outbox.fs.visited), visited0, outbox.fs.visited, b, b0);
      ok, wedged := spilled.Spilled? && flushed, false;
      if ok { RestartsExactly(); }
    }

    method FlushPolicy() returns (ok: bool)
      requires Valid()
      modifies policy, outbox, outbox.fs
      ensures Moments(old(outbox.fs.visited), outbox.fs.visited, old(Extent([], false)))
      ensures Valid()
      ensures ok && mode.Group? ==>
                outbox.Queue().heads == {outbox.Queue().head} && outbox.Queue().durable == |outbox.Queue().items|
      ensures ok ==> TimersArmed()
      ensures old(outbox.fs.faults) <= outbox.fs.faults
      ensures !ok ==> outbox.fs.faults > old(outbox.fs.faults)
    {
      hide Outbox.Valid, Outbox.Queue, FileSystem.Valid, PersistencePolicy.Valid, PersistencePolicy.DataBounded;
      hide PersistencePolicy.AckBounded, Backs, Settles, Moments, Inside, Holding, Extent, Ordered;
      hide PersistencePolicy.DataDisciplined;
      hide PersistencePolicy.AckDisciplined, Owned, IndexedById, Decodable;
      TimerReach();
      ghost var q, b := outbox.Queue(), Extent([], false);
      ok := policy.Flush();
      WiderMoments(old(outbox.fs.visited), outbox.fs.visited, Holding(q, false), b);
      policy.OutboxValid();
      if mode.Group? { TimerSettled(q); } else { policy.NoTimers(); }
    }

    lemma RestartsExactly()
      requires Valid() && fastQueue == []
      requires mode.Group? ==>
                 outbox.Queue().heads == {outbox.Queue().head} && outbox.Queue().durable == |outbox.Queue().items|
      ensures outbox.Queue().Ok() && outbox.Queue().Pending() == Fifo()
      ensures RestartsAs(outbox.codec, outbox.fs.disk, Fifo()) <==> !halfRemoved
    {
      hide FileSystem.Valid, Inv, Abs, RestartsAs, DistinctIds, Ready, Ordered, IndexedById, Owned, Decodable;
      outbox.QueueFacts();
      RestartExact(outbox.codec, outbox.State(), outbox.syncGeneration, outbox.generation);
      assert OnDisk(pending, fastQueue) == pending;
      assert Envs(fastQueue)[..stored] == [];
    }
  }
}
