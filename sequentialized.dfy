/** `sequentialized(f)`: calls are pushed on a queue; one draining loop,
    gated by `lock.isLocked`, shifts the oldest task, awaits `f` on its
    arguments and settles that task's own promise with the outcome. The
    await splits the loop: a `Call` event pushes (and starts the loop when it
    is not running), a `Resume` event is the awaited `f` settling. */
module Sequential {
  import opened Wrappers

  /** A queued `[args, resolve, reject]`: the promise is named by the call's
      arrival number. */
  datatype Pending<A> = Pending(id: nat, args: A)

  class Sequentializer<A, R, E> {
    /** The wrapped function, by the outcome its promise settles with:
        `f(t, a)` is how its call for task `t` on `a` settles (the loop calls
        it once per task, in task order), so calls on equal arguments may
        settle differently. */
    const f: (nat, A) -> Result<R, E>
    /** `queue` */
    var queue: seq<Pending<A>>
    /** `lock.isLocked` */
    var isLocked: bool
    /** The task whose `f` the draining loop is awaiting. */
    var current: Option<Pending<A>>
    /** The settled promises. */
    var settled: map<nat, Result<R, E>>
    /** How many calls were made so far; the next call's promise is named by it. */
    var calls: nat
    /** The arguments of every call so far, by arrival. */
    ghost var arrivals: seq<A>
    /** How many tasks the loop has shifted so far. */
    ghost var shifted: nat
    /** The arguments `f` was called with, in call order. */
    ghost var invoked: seq<A>

    /** FIFO: the loop has shifted the first `shifted` arrivals, in order;
        the queue holds the rest, in order; `f` ran on exactly the shifted
        ones, in arrival order; a loop runs exactly when `isLocked`, and then
        it awaits the last task shifted; every other shifted task is settled
        with `f`'s outcome on its own arguments. */
    ghost predicate Valid()
      reads this
    {
      && calls == |arrivals|
      && shifted <= |arrivals|
      && |queue| == |arrivals| - shifted
      && (forall i :: 0 <= i < |queue| ==> queue[i] == Pending(shifted + i, arrivals[shifted + i]))
      && invoked == arrivals[..shifted]
      && (!isLocked ==> queue == [] && current.None?)
      && (isLocked ==> 0 < shifted && current == Some(Pending(shifted - 1, arrivals[shifted - 1])))
      && (forall t: nat :: t in settled <==> t < shifted && (current.None? || t != current.value.id))
      && (forall t :: t in settled ==> settled[t] == f(t, arrivals[t]))
    }

    constructor (f: (nat, A) -> Result<R, E>)
      ensures Valid() && this.f == f
      ensures queue == [] && !isLocked && settled == map[] && arrivals == []
    {
      this.f := f;
      queue := [];
      isLocked := false;
      current := None;
      settled := map[];
      calls := 0;
      arrivals := [];
      shifted := 0;
      invoked := [];
    }

    /** A call: push; then, unless a loop already runs, take the lock and
        start the loop, which shifts this very task and calls `f`. */
    method Call(args: A) returns (id: nat)
      requires Valid()
      modifies this
      ensures Valid()
      ensures id == |old(arrivals)| && arrivals == old(arrivals) + [args]
      ensures settled == old(settled) && isLocked
      // a call made while locked only enqueues
      ensures old(isLocked) ==> queue == old(queue) + [Pending(id, args)] && current == old(current) && invoked == old(invoked)
      // otherwise it runs at once
      ensures !old(isLocked) ==> queue == [] && current == Some(Pending(id, args)) && invoked == old(invoked) + [args]
    {
      id := calls;
      calls := calls + 1;
      arrivals := arrivals + [args];
      queue := queue + [Pending(id, args)];
      if isLocked {
        return;
      }
      isLocked := true;
      current := Some(queue[0]);
      queue := queue[1..];
      invoked := invoked + [args];
      shifted := shifted + 1;
    }

    /** The awaited `f` of the current task settles: its own promise gets
        `f`'s outcome on its own arguments, success or failure alike; then the
        loop shifts the next task, or, with the queue empty, unlocks. */
    method Resume()
      requires Valid() && isLocked
      modifies this
      ensures Valid()
      ensures arrivals == old(arrivals)
      ensures settled == old(settled)[old(current).value.id := f(old(current).value.id, old(current).value.args)]
      ensures old(queue) != [] ==>
        (isLocked && current == Some(old(queue)[0]) && queue == old(queue)[1..]
         && invoked == old(invoked) + [old(queue)[0].args])
      ensures old(queue) == [] ==> !isLocked && current.None? && queue == [] && invoked == old(invoked)
      // once the loop stops, every call so far has settled
      ensures !isLocked ==> forall t :: 0 <= t < |arrivals| ==> t in settled
    {
      var task := current.value;
      settled := settled[task.id := f(task.id, task.args)];
      if queue != [] {
        var next := queue[0];
        current := Some(next);
        queue := queue[1..];
        invoked := invoked + [next.args];
        shifted := shifted + 1;
        assert invoked == arrivals[..shifted];
      } else {
        isLocked := false;
        current := None;
      }
    }
  }

  /** Three calls on equal arguments issued together, the second failing:
      `f` runs on them in arrival order, each promise settles with its own
      outcome, and the failure does not stop the third. */
  method ThreeCallsScenario()
  {
    var s := new Sequentializer<int, int, int>((t, x) => if t == 1 then Err(x) else Ok(10 * t + x));
    var c1 := s.Call(5);
    var c2 := s.Call(5);
    var c3 := s.Call(5);
    assert s.invoked == [5];
    s.Resume();
    s.Resume();
    s.Resume();
    assert !s.isLocked;
    assert s.invoked == [5, 5, 5];
    assert s.settled == map[c1 := Ok(5), c2 := Err(5), c3 := Ok(25)];
  }
}
