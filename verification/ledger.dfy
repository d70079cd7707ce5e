/**
 The world state as both contracts see it: a finite map from string keys to
 stored values, owned by the host. Every contract operation is a pure
 transition from the state before the call to the state after it, together
 with what the call returns.

 The host's store can refuse a read, a write or a range scan for reasons the
 contracts cannot see; `HostFaults` says which of those refusals happen
 during one call, so the error branches of the contracts are modelled
 without modelling the host.
 */
module Ledger {

  datatype Result<+T, +E> = Success(value: T) | Failure(error: E)

  /** What one contract call returns, and the world state after it */
  datatype Step<+R, V> = Step(out: R, state: map<string, V>)

  /** Which host operations fail during one call: `GetState`, `PutState`,
      and `GetStateByRange` together with its iterator's `Next` */
  datatype HostFaults = HostFaults(readFails: bool, writeFails: bool, scanFails: bool)

  /** A host on which every read, write and scan succeeds */
  const Reliable := HostFaults(false, false, false)

  /** `after` agrees with `before` on every key except `key` */
  ghost predicate SameExcept<V>(before: map<string, V>, after: map<string, V>, key: string) {
    forall k :: k != key ==> (k in before <==> k in after) && (k in before ==> before[k] == after[k])
  }
}
