/** The lock bracket, the polling lock built from a check-and-set, and the
    lock keyed by the call's arguments. */
module Lock {
  import opened Wrappers

  /** The calls `withLock` makes, in order. */
  datatype Step<A> = CallLock | CallF(args: A) | CallUnlock

  /** `withLock(lock, unlock, f)(...args)`. `lockFailure` is `Some(e)` when
      awaiting `lock()` rejects with `e`; `outcome` is how `f(...args)`
      settles. The result pairs the calls made with the settled promise the
      bracket returns. */
  function WithLock<A, R, E>(args: A, lockFailure: Option<E>, outcome: Result<R, E>): (r: (seq<Step<A>>, Result<R, E>))
    // a failed lock: `f` never runs and nothing is unlocked
    ensures lockFailure.Some? ==> r.0 == [CallLock] && r.1 == Err(lockFailure.value)
    // otherwise, on the success path and the failure path alike: one lock
    // first, one call of `f` on the caller's arguments, one unlock last, and
    // `f`'s value or error passed through unchanged
    ensures lockFailure.None? ==>
      && multiset(r.0)[CallLock] == 1 && r.0[0] == CallLock
      && multiset(r.0)[CallF(args)] == 1 && |r.0| == 3
      && multiset(r.0)[CallUnlock] == 1 && r.0[|r.0| - 1] == CallUnlock
      && r.1 == outcome
  {
    match lockFailure
    case Some(e) => ([CallLock], Err(e))
    case None =>
      match outcome
      case Ok(v) => ([CallLock, CallF(args), CallUnlock], Ok(v))
      case Err(e) => ([CallLock, CallF(args), CallUnlock], Err(e))
  }

  /** The lock half of `makeLockUnlockWithId(set, unset)`, run for one id.
      `answers[i]` is what the `i`-th call of `set(id)` resolves to; what
      other callers do during each sleep decides it. The loop calls `set`,
      sleeps after every false answer, and leaves after the first true one.
      When `answers` runs out without a true answer the caller is still
      polling. (The unlock half is `unset` itself: the classes built on this
      lock call their own `Unset` directly.) */
  method AwaitLock(answers: seq<bool>) returns (calls: nat, sleeps: nat, acquired: bool)
    ensures acquired <==> true in answers
    ensures acquired ==> 0 < calls <= |answers| && answers[calls - 1]
    ensures calls <= |answers|
    ensures forall i :: 0 <= i < calls - 1 ==> !answers[i]
    ensures !acquired ==> calls == |answers|
    ensures sleeps == if acquired then calls - 1 else calls
  {
    calls, sleeps, acquired := 0, 0, false;
    while calls < |answers| && !acquired
      invariant calls <= |answers|
      invariant acquired ==> 0 < calls && answers[calls - 1]
      invariant forall i :: 0 <= i < calls - 1 ==> !answers[i]
      invariant !acquired ==> forall i :: 0 <= i < calls ==> !answers[i]
      invariant sleeps == if acquired then calls - 1 else calls
    {
      acquired := answers[calls];
      calls := calls + 1;
      if !acquired {
        sleeps := sleeps + 1;
      }
    }
  }

  /** The calls `withLockByInput` makes: the lock and unlock carry an id. */
  datatype KeyedStep<A, I> = LockId(id: I) | Call(args: A) | UnlockId(id: I)

  /** Gives the lock calls of a bracket the id `id`. */
  function Tagged<A, I>(steps: seq<Step<A>>, id: I): (r: seq<KeyedStep<A, I>>)
    ensures |r| == |steps|
    ensures forall i :: 0 <= i < |steps| ==> r[i] == match steps[i]
      case CallLock => LockId(id)
      case CallF(a) => Call(a)
      case CallUnlock => UnlockId(id)
  {
    if steps == [] then []
    else
      [match steps[0] case CallLock => LockId(id) case CallF(a) => Call(a) case CallUnlock => UnlockId(id)]
      + Tagged(steps[1..], id)
  }

  /** `withLockByInput(argsToLockId, lock, unlock, f)(...args)`: the bracket
      of `withLock` around `f`, with `lock` and `unlock` both given
      `argsToLockId(...args)`. */
  function WithLockByInput<A, I, R, E>(argsToLockId: A -> I, args: A, lockFailure: Option<E>, outcome: Result<R, E>)
    : (r: (seq<KeyedStep<A, I>>, Result<R, E>))
    // the same outcome as the plain bracket
    ensures r.1 == WithLock(args, lockFailure, outcome).1
    // a failed keyed lock: `f` never runs and nothing is unlocked
    ensures lockFailure.Some? ==> r.0 == [LockId(argsToLockId(args))]
    // otherwise `f` runs once on the caller's arguments, between the keyed
    // lock and the keyed unlock
    ensures lockFailure.None? ==> r.0 == [LockId(argsToLockId(args)), Call(args), UnlockId(argsToLockId(args))]
  {
    var (steps, result) := WithLock(args, lockFailure, outcome);
    (Tagged(steps, argsToLockId(args)), result)
  }
}
