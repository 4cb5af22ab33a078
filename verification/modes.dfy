/** The three client modes (reliomq/durability.py:67-190). */
module Modes {
  import opened Wrappers

  datatype GroupMode = GroupMode(
    syncMessages: Option<nat>,
    syncInterval: Option<real>,
    syncBytes: Option<nat>,
    ackMessages: Option<nat>,
    ackInterval: Option<real>)
  {
    /** What the constructor enforces. */
    predicate Ok() {
      && (syncMessages.Some? ==> syncMessages.value > 0) && (syncBytes.Some? ==> syncBytes.value > 0)
      && (syncInterval.Some? ==> syncInterval.value > 0.0)
      && (ackMessages.Some? ==> ackMessages.value > 0) && (ackInterval.Some? ==> ackInterval.value > 0.0)
      && (syncMessages.Some? || syncInterval.Some? || syncBytes.Some?)
      && (ackMessages.Some? || ackInterval.Some?)
    }
  }

  datatype FastMode = FastMode(
    ramMaxMessages: nat,
    ramMaxBytes: nat,
    highWatermark: Option<real>,
    maxRamAge: Option<real>,
    disconnectGrace: Option<real>,
    spillBatchMessages: nat,
    spillBatchBytes: nat)
  {
    predicate Ok() {
      && ramMaxMessages > 0 && ramMaxBytes > 0 && spillBatchMessages > 0 && spillBatchBytes > 0
      && (highWatermark.Some? ==> 0.0 < highWatermark.value <= 1.0)
      && (maxRamAge.Some? ==> maxRamAge.value > 0.0)
      && (disconnectGrace.Some? ==> disconnectGrace.value >= 0.0)
    }
  }

  datatype Mode = Durable | Group(group: GroupMode) | Fast(fast: FastMode) {
    predicate Ok() {
      (Group? ==> group.Ok()) && (Fast? ==> fast.Ok())
    }
  }
}
