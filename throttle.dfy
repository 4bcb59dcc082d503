/** `throttle(maxParallelism, f)`: the lock bracket over a counting
    check-and-set on `lockObj.count`. Every call of the throttled function
    is a task; the events are a call (with its first `set` attempt), a
    polling attempt after a sleep, and the end of a running `f`. */
module Throttle {
  import opened Wrappers

  /** Where one call of the throttled function is. */
  datatype Phase<A, R, E> =
    | Waiting(args: A)               // polling the acquire predicate
    | Running(args: A)               // holds a slot; `f(...args)` is in flight
    | Settled(outcome: Result<R, E>) // released its slot; its promise settled

  /** The number of tasks that hold a slot. */
  function RunningCount<A, R, E>(tasks: seq<Phase<A, R, E>>): nat
  {
    if tasks == [] then 0
    else RunningCount(tasks[..|tasks| - 1]) + (if tasks[|tasks| - 1].Running? then 1 else 0)
  }

  /** Replacing one task's phase changes the count by that task alone. */
  lemma {:induction false} RunningCountUpdate<A, R, E>(tasks: seq<Phase<A, R, E>>, i: nat, p: Phase<A, R, E>)
    requires i < |tasks|
    ensures RunningCount(tasks[i := p]) ==
      RunningCount(tasks) - (if tasks[i].Running? then 1 else 0) + (if p.Running? then 1 else 0)
  {
    var n := |tasks| - 1;
    if i < n {
      RunningCountUpdate(tasks[..n], i, p);
      assert tasks[i := p][..n] == tasks[..n][i := p];
    } else {
      assert tasks[i := p][..n] == tasks[..n];
    }
  }

  /** A new task that does not hold a slot leaves the count alone; one that
      does adds one. */
  lemma RunningCountAppend<A, R, E>(tasks: seq<Phase<A, R, E>>, p: Phase<A, R, E>)
    ensures RunningCount(tasks + [p]) == RunningCount(tasks) + (if p.Running? then 1 else 0)
  {
    assert (tasks + [p])[..|tasks|] == tasks;
  }

  class Throttler<A, R, E> {
    /** The configured bound. */
    const maxParallelism: int
    /** The wrapped function, by the outcome its promise settles with:
        `f(t, a)` is how the call made by task `t` on `a` settles, so calls on
        equal arguments may settle differently. */
    const f: (nat, A) -> Result<R, E>
    /** `lockObj.count` */
    var count: int
    /** Every call so far, by arrival. */
    var tasks: seq<Phase<A, R, E>>

    /** The counter is the number of running tasks, and it never exceeds the
        bound (a bound of zero or less lets no task run at all). */
    ghost predicate Valid()
      reads this
    {
      count == RunningCount(tasks) && (count <= maxParallelism || count == 0)
    }

    constructor (maxParallelism: int, f: (nat, A) -> Result<R, E>)
      ensures Valid()
      ensures this.maxParallelism == maxParallelism && this.f == f
      ensures count == 0 && tasks == []
    {
      this.maxParallelism := maxParallelism;
      this.f := f;
      count := 0;
      tasks := [];
    }

    /** The acquire predicate: below the bound it increments and succeeds,
        otherwise it fails and leaves the counter alone. */
    method TrySet() returns (ok: bool)
      modifies this`count
      ensures ok <==> old(count) < maxParallelism
      ensures count == if ok then old(count) + 1 else old(count)
    {
      if count < maxParallelism {
        count := count + 1;
        ok := true;
      } else {
        ok := false;
      }
    }

    /** The release: decrement. */
    method Unset()
      modifies this`count
      ensures count == old(count) - 1
    {
      count := count - 1;
    }

    /** A call of the throttled function: the lock makes its first attempt
        at once; on success `f` starts, otherwise the call polls. */
    method Call(args: A) returns (id: nat)
      requires Valid()
      modifies this
      ensures Valid()
      ensures id == |old(tasks)|
      ensures tasks == old(tasks) + [if old(count) < maxParallelism then Running(args) else Waiting(args)]
    {
      id := |tasks|;
      var ok := TrySet();
      var p := if ok then Running(args) else Waiting(args);
      RunningCountAppend(tasks, p);
      tasks := tasks + [p];
    }

    /** A waiting task's next attempt, after its sleep. */
    method Poll(id: nat)
      requires Valid() && id < |tasks| && tasks[id].Waiting?
      modifies this
      ensures Valid()
      ensures tasks == old(tasks)[id := if old(count) < maxParallelism then Running(old(tasks)[id].args) else old(tasks)[id]]
    {
      var ok := TrySet();
      if ok {
        RunningCountUpdate(tasks, id, Running(tasks[id].args));
        tasks := tasks[id := Running(tasks[id].args)];
      }
    }

    /** The running `f` of task `id` settles: the bracket releases the slot,
        then the task's promise settles with `f`'s own outcome. */
    method Finish(id: nat)
      requires Valid() && id < |tasks| && tasks[id].Running?
      modifies this
      ensures Valid()
      ensures count == old(count) - 1
      ensures tasks == old(tasks)[id := Settled(f(id, old(tasks)[id].args))]
    {
      var outcome := f(id, tasks[id].args);
      Unset();
      RunningCountUpdate(tasks, id, Settled(outcome));
      tasks := tasks[id := Settled(outcome)];
    }
  }

  /** Two slots, three calls: the third waits until a slot is released. */
  method TwoSlotsScenario()
  {
    var t := new Throttler<int, int, bool>(2, (n, x) => Ok(x + 1));
    var a := t.Call(10);
    var b := t.Call(20);
    var c := t.Call(30);
    assert t.tasks == [Running(10), Running(20), Waiting(30)];
    t.Poll(c);
    assert t.tasks[c] == Waiting(30);
    t.Finish(a);
    t.Poll(c);
    assert t.tasks == [Settled(Ok(11)), Running(20), Running(30)];
    assert t.count == 2;
  }
}
