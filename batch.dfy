/** `batch(keyFn, waitTime, execute)` with its two runners. Every call
    pushes a task on the list of its key and schedules its own timer; all
    timers have the same delay, so they fire in the order they were set. A
    fire hands the key's inputs to `execute`, which may call `clear` and
    `resolve` (the positional fan-out); a failure of `execute` rejects every
    task of the batch with the same error. */
module Batch {
  import opened Wrappers

  /** A queued `{resolve, reject, input}`: the promise is named by the call's
      arrival number. */
  datatype Task<A> = Task(id: nat, input: A)

  /** What `execute` does with the two callbacks it is given, in order:
      `clear()` or `resolve(outputs)`. */
  datatype Effect<R> = Clear | ResolveAll(outputs: seq<R>)

  /** One run of `execute(clear, resolve)(inputs)`: its callback calls, and
      `Some(e)` when its promise rejects with `e`. */
  datatype Execution<R, E> = Execution(effects: seq<Effect<R>>, failure: Option<E>)

  /** An attempt to settle the promise of call `id`. */
  type Settlement<R, E> = (nat, Result<R, E>)

  // ----------------------------------------------------------------------
  // positional fan-out
  // ----------------------------------------------------------------------

  /** The local `stack`, which zips with Ramda's `zip`: it stops at the
      shorter list, applying the `i`-th function to the `i`-th value. */
  function Stack<X, Y>(functions: seq<X -> Y>, values: seq<X>): (r: seq<Y>)
    ensures |r| == if |functions| <= |values| then |functions| else |values|
    ensures forall i :: 0 <= i < |r| ==> r[i] == functions[i](values[i])
  {
    if functions == [] || values == [] then []
    else [functions[0](values[0])] + Stack(functions[1..], values[1..])
  }

  /** Ramda's `juxt(functions)(x)`: every function applied to `x`. */
  function Juxt<X, Y>(functions: seq<X -> Y>, x: X): (r: seq<Y>)
    ensures |r| == |functions|
    ensures forall i :: 0 <= i < |r| ==> r[i] == functions[i](x)
  {
    if functions == [] then [] else [functions[0](x)] + Juxt(functions[1..], x)
  }

  /** `map(prop("input"))` */
  function Inputs<A>(batch: seq<Task<A>>): (r: seq<A>)
    ensures |r| == |batch|
    ensures forall i :: 0 <= i < |batch| ==> r[i] == batch[i].input
  {
    if batch == [] then [] else [batch[0].input] + Inputs(batch[1..])
  }

  /** `map(prop("resolve"))`: the resolve function of each task. */
  function Resolvers<A, R, E>(batch: seq<Task<A>>): seq<R -> Settlement<R, E>>
  {
    seq(|batch|, i requires 0 <= i < |batch| => (o: R) => (batch[i].id, Ok(o)))
  }

  /** `map(prop("reject"))`: the reject function of each task. */
  function Rejecters<A, R, E>(batch: seq<Task<A>>): seq<E -> Settlement<R, E>>
  {
    seq(|batch|, i requires 0 <= i < |batch| => (e: E) => (batch[i].id, Err(e)))
  }

  /** Promises settled one attempt after another; a promise that has
      settled ignores every later attempt. */
  function SettleAll<R, E>(settled: map<nat, Result<R, E>>, attempts: seq<Settlement<R, E>>): map<nat, Result<R, E>>
  {
    if attempts == [] then settled
    else
      var s := SettleAll(settled, attempts[..|attempts| - 1]);
      var (id, outcome) := attempts[|attempts| - 1];
      if id in s then s else s[id := outcome]
  }

  /** A promise no attempt names keeps its state; a settled one never
      changes. */
  lemma {:induction false} SettleAllOthers<R, E>(settled: map<nat, Result<R, E>>, attempts: seq<Settlement<R, E>>, id: nat)
    requires id in settled || forall i :: 0 <= i < |attempts| ==> attempts[i].0 != id
    ensures id in SettleAll(settled, attempts) <==> id in settled
    ensures id in settled ==> SettleAll(settled, attempts)[id] == settled[id]
  {
    if attempts != [] {
      SettleAllOthers(settled, attempts[..|attempts| - 1], id);
    }
  }

  /** An unsettled promise takes the outcome of the first attempt that
      names it. */
  lemma {:induction false} SettleAllFirst<R, E>(settled: map<nat, Result<R, E>>, attempts: seq<Settlement<R, E>>, i: nat)
    requires i < |attempts| && attempts[i].0 !in settled
    requires forall j :: 0 <= j < i ==> attempts[j].0 != attempts[i].0
    ensures attempts[i].0 in SettleAll(settled, attempts)
    ensures SettleAll(settled, attempts)[attempts[i].0] == attempts[i].1
  {
    var n := |attempts| - 1;
    if i < n {
      SettleAllFirst(settled, attempts[..n], i);
    } else {
      SettleAllOthers(settled, attempts[..n], attempts[i].0);
    }
  }

  /** Task ids strictly increase along a batch (arrival order), so no two
      tasks share a promise. */
  ghost predicate IncreasingIds<A>(batch: seq<Task<A>>)
  {
    forall i, j :: 0 <= i < j < |batch| ==> batch[i].id < batch[j].id
  }

  /** `stack(resolves)(outputs)`: the `i`-th output resolves the `i`-th task;
      tasks past the end of the outputs are left pending, and a task already
      settled keeps its outcome. */
  lemma FanOutPositional<A, R, E>(settled: map<nat, Result<R, E>>, batch: seq<Task<A>>, outputs: seq<R>, i: nat)
    requires IncreasingIds(batch) && i < |batch|
    ensures var r := SettleAll(settled, Stack(Resolvers<A, R, E>(batch), outputs)); var id := batch[i].id;
      if id in settled then id in r && r[id] == settled[id]
      else if i < |outputs| then id in r && r[id] == Ok(outputs[i])
      else id !in r
  {
    var attempts := Stack(Resolvers<A, R, E>(batch), outputs);
    var id := batch[i].id;
    assert forall j :: 0 <= j < |attempts| ==> attempts[j] == (batch[j].id, Ok(outputs[j]));
    if id in settled || i >= |outputs| {
      SettleAllOthers(settled, attempts, id);
    } else {
      SettleAllFirst(settled, attempts, i);
    }
  }

  /** Fan-out settles no promise outside the batch. */
  lemma FanOutOthers<A, R, E>(settled: map<nat, Result<R, E>>, batch: seq<Task<A>>, outputs: seq<R>, id: nat)
    requires forall i :: 0 <= i < |batch| ==> batch[i].id != id
    ensures var r := SettleAll(settled, Stack(Resolvers<A, R, E>(batch), outputs));
      (id in r <==> id in settled) && (id in settled ==> r[id] == settled[id])
  {
    var attempts := Stack(Resolvers<A, R, E>(batch), outputs);
    assert forall j :: 0 <= j < |attempts| ==> attempts[j].0 == batch[j].id;
    SettleAllOthers(settled, attempts, id);
  }

  /** `juxt(rejects)(error)`: every pending task of the batch is rejected
      with that same error; settled ones keep their outcome. */
  lemma BroadcastFailure<A, R, E>(settled: map<nat, Result<R, E>>, batch: seq<Task<A>>, error: E, i: nat)
    requires IncreasingIds(batch) && i < |batch|
    ensures var r := SettleAll(settled, Juxt(Rejecters<A, R, E>(batch), error)); var id := batch[i].id;
      id in r && r[id] == if id in settled then settled[id] else Err(error)
  {
    var attempts := Juxt(Rejecters<A, R, E>(batch), error);
    assert forall j :: 0 <= j < |attempts| ==> attempts[j] == (batch[j].id, Err(error));
    if batch[i].id in settled {
      SettleAllOthers(settled, attempts, batch[i].id);
    } else {
      SettleAllFirst(settled, attempts, i);
    }
  }

  // ----------------------------------------------------------------------
  // one fire: `execute` run on a batch
  // ----------------------------------------------------------------------

  /** The callbacks `execute` calls, applied in order: `clear` deletes the
      key's list, `resolve` fans the outputs out over the batch. */
  function ApplyEffects<A, K(==), R, E>(queues: map<K, seq<Task<A>>>, key: K, batch: seq<Task<A>>,
                                        settled: map<nat, Result<R, E>>, effects: seq<Effect<R>>)
    : (map<K, seq<Task<A>>>, map<nat, Result<R, E>>)
    decreases |effects|
  {
    if effects == [] then (queues, settled)
    else
      match effects[0]
      case Clear => ApplyEffects(queues - {key}, key, batch, settled, effects[1..])
      case ResolveAll(outputs) =>
        ApplyEffects(queues, key, batch, SettleAll(settled, Stack(Resolvers(batch), outputs)), effects[1..])
  }

  /** `clear` touches only the key fired, and only by deleting it. */
  lemma {:induction false} ApplyEffectsQueues<A, K, R, E>(queues: map<K, seq<Task<A>>>, key: K, batch: seq<Task<A>>,
                                                            settled: map<nat, Result<R, E>>, effects: seq<Effect<R>>)
    ensures var q := ApplyEffects(queues, key, batch, settled, effects).0;
      q == if Clear in effects then queues - {key} else queues
    decreases |effects|
  {
    if effects != [] {
      ApplyEffectsQueues(if effects[0].Clear? then queues - {key} else queues, key, batch,
        if effects[0].Clear? then settled else SettleAll(settled, Stack(Resolvers(batch), effects[0].outputs)),
        effects[1..]);
      assert effects == [effects[0]] + effects[1..];
      if effects[0].Clear? {
        assert queues - {key} - {key} == queues - {key};
      }
    }
  }

  /** `asyncExcepts(execute(clear, resolve), reject)(inputs)`: the callbacks,
      then, if the run fails, the rejection of the whole batch. */
  function RunExecution<A, K(==), R, E>(queues: map<K, seq<Task<A>>>, key: K, batch: seq<Task<A>>,
                                       settled: map<nat, Result<R, E>>, run: Execution<R, E>)
    : (map<K, seq<Task<A>>>, map<nat, Result<R, E>>)
  {
    var (q, s) := ApplyEffects(queues, key, batch, settled, run.effects);
    match run.failure
    case None => (q, s)
    case Some(e) => (q, SettleAll(s, Juxt(Rejecters(batch), e)))
  }

  // ----------------------------------------------------------------------
  // the runners
  // ----------------------------------------------------------------------

  /** `executeConditionally(executeQueue, condition)(clear, resolveAll)(inputs)`:
      nothing at all when `condition` fails; otherwise `clear`, then
      `executeQueue`, then `resolveAll` of its outputs, or its failure. */
  function ExecuteConditionally<A, R, E>(executeQueue: seq<A> -> Result<seq<R>, E>, condition: seq<A> -> bool,
                                         inputs: seq<A>): Execution<R, E>
  {
    if !condition(inputs) then Execution([], None)
    else
      match executeQueue(inputs)
      case Ok(outputs) => Execution([Clear, ResolveAll(outputs)], None)
      case Err(e) => Execution([Clear], Some(e))
  }

  /** A fire whose `execute` is `executeConditionally`: a failed condition
      changes nothing; otherwise the key's list is deleted, and the batch is
      either resolved positionally by the outputs of `executeQueue` or
      rejected as a whole by its error. */
  lemma FireConditionally<A, K, R, E>(queues: map<K, seq<Task<A>>>, key: K, batch: seq<Task<A>>,
                                         settled: map<nat, Result<R, E>>,
                                         executeQueue: seq<A> -> Result<seq<R>, E>, condition: seq<A> -> bool)
    ensures var r := RunExecution(queues, key, batch, settled, ExecuteConditionally(executeQueue, condition, Inputs(batch)));
      if !condition(Inputs(batch)) then r == (queues, settled)
      else
        && r.0 == queues - {key}
        && r.1 == match executeQueue(Inputs(batch))
             case Ok(outputs) => SettleAll(settled, Stack(Resolvers(batch), outputs))
             case Err(e) => SettleAll(settled, Juxt(Rejecters(batch), e))
  {
    var inputs := Inputs(batch);
    if condition(inputs) {
      match executeQueue(inputs)
      case Ok(outputs) =>
        var resolved := SettleAll(settled, Stack(Resolvers(batch), outputs));
        assert [ResolveAll(outputs)][1..] == [];
        assert ApplyEffects(queues - {key}, key, batch, settled, [ResolveAll(outputs)]) == (queues - {key}, resolved);
        assert [Clear, ResolveAll(outputs)][1..] == [ResolveAll(outputs)];
      case Err(e) =>
        var effects: seq<Effect<R>> := [Clear];
        assert effects[1..] == [];
    }
  }

  /** `singleToMultiple(merge, split, f)(tasks)`: the calls of `f` it makes,
      and how its promise settles. */
  function SingleToMultiple<A, M, S, R, E>(merge: seq<A> -> M, split: (seq<A>, S) -> seq<R>, f: M -> Result<S, E>,
                                           tasks: seq<A>): (seq<M>, Result<seq<R>, E>)
  {
    var merged := merge(tasks);
    match f(merged)
    case Ok(results) => ([merged], Ok(split(tasks, results)))
    case Err(e) => ([merged], Err(e))
  }

  /** The adapter calls `f` exactly once, on the merged tasks; on success
      it settles with `split` of the original tasks and `f`'s result, on
      failure with `f`'s error. Given to `batch` through
      `executeConditionally`, that split list resolves the batch task by
      task. */
  lemma SingleCallFanOut<A, M, S, R, E>(merge: seq<A> -> M, split: (seq<A>, S) -> seq<R>, f: M -> Result<S, E>,
                                        settled: map<nat, Result<R, E>>, batch: seq<Task<A>>, i: nat)
    requires IncreasingIds(batch) && i < |batch| && batch[i].id !in settled
    ensures SingleToMultiple(merge, split, f, Inputs(batch)).0 == [merge(Inputs(batch))]
    ensures f(merge(Inputs(batch))).Err? ==> SingleToMultiple(merge, split, f, Inputs(batch)).1 == Err(f(merge(Inputs(batch))).error)
    ensures f(merge(Inputs(batch))).Ok? ==>
      var outputs := split(Inputs(batch), f(merge(Inputs(batch))).value);
      && SingleToMultiple(merge, split, f, Inputs(batch)).1 == Ok(outputs)
      && (i < |outputs| ==> var r := SettleAll(settled, Stack(Resolvers<A, R, E>(batch), outputs));
            batch[i].id in r && r[batch[i].id] == Ok(outputs[i]))
  {
    if f(merge(Inputs(batch))).Ok? {
      FanOutPositional(settled, batch, split(Inputs(batch), f(merge(Inputs(batch))).value), i);
    }
  }

  // ----------------------------------------------------------------------
  // the batcher
  // ----------------------------------------------------------------------

  class Batcher<A, K(==), R, E> {
    /** `keyFn`, by the key it resolves to. */
    const keyFn: A -> K
    /** `execute`, by what it does when run on a list of inputs:
        `execute(n, inputs)` is its `n`-th run, so equal batches may fare
        differently. */
    const execute: (nat, seq<A>) -> Execution<R, E>
    /** `queues` */
    var queues: map<K, seq<Task<A>>>
    /** The keys of the timers not yet fired, in firing order. */
    var timers: seq<K>
    /** The settled promises. */
    var settled: map<nat, Result<R, E>>
    /** How many calls were made so far; the next call's promise is named by it. */
    var calls: nat
    /** How many times `execute` was run so far. */
    var runs: nat
    /** The input of every call so far, by arrival. */
    ghost var inputs: seq<A>

    /** Each list holds, in arrival order, calls whose key it is. */
    ghost predicate Valid()
      reads this
    {
      && calls == |inputs|
      && forall k :: k in queues ==>
           && IncreasingIds(queues[k])
           && forall i :: 0 <= i < |queues[k]| ==>
                queues[k][i].id < calls && queues[k][i].input == inputs[queues[k][i].id]
                && keyFn(queues[k][i].input) == k
    }

    constructor (keyFn: A -> K, execute: (nat, seq<A>) -> Execution<R, E>)
      ensures Valid() && this.keyFn == keyFn && this.execute == execute
      ensures queues == map[] && timers == [] && settled == map[] && inputs == [] && runs == 0
    {
      this.keyFn := keyFn;
      this.execute := execute;
      queues := map[];
      timers := [];
      settled := map[];
      calls := 0;
      runs := 0;
      inputs := [];
    }

    /** A call: its task goes to the end of its key's list, created when
        absent; other keys are untouched; its timer is set. */
    method Call(input: A) returns (id: nat)
      requires Valid()
      modifies this
      ensures Valid()
      ensures id == old(calls) && inputs == old(inputs) + [input] && settled == old(settled) && runs == old(runs)
      ensures timers == old(timers) + [keyFn(input)]
      ensures queues == old(queues)[keyFn(input) :=
        (if keyFn(input) in old(queues) then old(queues)[keyFn(input)] else []) + [Task(id, input)]]
      ensures forall k :: k != keyFn(input) ==>
        (k in queues <==> k in old(queues)) && (k in queues ==> queues[k] == old(queues)[k])
    {
      id := calls;
      var key := keyFn(input);
      var list := if key in queues then queues[key] else [];
      queues := queues[key := list + [Task(id, input)]];
      timers := timers + [key];
      calls := calls + 1;
      inputs := inputs + [input];
    }

    /** The oldest timer fires. With no list under its key (already cleared)
        it does nothing; otherwise `execute` gets the list's inputs in
        arrival order, and its callbacks and failure settle the batch. */
    method Fire() returns (handed: Option<seq<A>>)
      requires Valid() && timers != []
      modifies this
      ensures Valid()
      ensures timers == old(timers)[1..] && calls == old(calls) && inputs == old(inputs)
      ensures old(timers)[0] !in old(queues) ==>
        handed.None? && queues == old(queues) && settled == old(settled) && runs == old(runs)
      ensures old(timers)[0] in old(queues) ==>
        var batch := old(queues)[old(timers)[0]];
        && handed == Some(Inputs(batch)) && runs == old(runs) + 1
        && (forall i :: 0 <= i < |batch| ==> handed.value[i] == inputs[batch[i].id])
        && IncreasingIds(batch)
        && (queues, settled) == RunExecution(old(queues), old(timers)[0], batch, old(settled), execute(old(runs), Inputs(batch)))
    {
      var key := timers[0];
      timers := timers[1..];
      if key !in queues {
        return None;
      }
      var batch := queues[key];
      var ins := Inputs(batch);
      handed := Some(ins);
      var run := execute(runs, ins);
      runs := runs + 1;
      ApplyEffectsQueues(queues, key, batch, settled, run.effects);
      var next := RunExecution(queues, key, batch, settled, run);
      queues, settled := next.0, next.1;
    }
  }

  /** The bulk function of the example below: doubles every input. */
  function DoubleAll(xs: seq<int>): Result<seq<int>, bool>
  {
    Ok(seq(|xs|, i requires 0 <= i < |xs| => 2 * xs[i]))
  }

  /** The example's `executeQueue`: the whole batch merged as it is, and the
      bulk result split as it is. */
  function DoubleQueue(tasks: seq<int>): Result<seq<int>, bool>
  {
    SingleToMultiple(ts => ts, (ts, rs) => rs, DoubleAll, tasks).1
  }

  /** The example's `keyFn`: one key for every input. */
  function OneKey(x: int): int
  {
    0
  }

  /** The example's condition: a batch always runs. */
  function Always(inputs: seq<int>): bool
  {
    true
  }

  /** The example's `execute`, the same on every run. */
  function DoubleExecute(run: nat, inputs: seq<int>): Execution<int, bool>
  {
    ExecuteConditionally(DoubleQueue, Always, inputs)
  }

  /** Three tasks reaching `DoubleExecute` together: their list is deleted
      and they get `2, 4, 6`, each its own. */
  lemma DoublingFire(batch: seq<Task<int>>)
    requires batch == [Task(0, 1), Task(1, 2), Task(2, 3)]
    ensures RunExecution(map[0 := batch], 0, batch, map[], DoubleExecute(0, Inputs(batch)))
      == (map[], map[0 := Ok(2), 1 := Ok(4), 2 := Ok(6)])
  {
    assert Inputs(batch) == [1, 2, 3];
    var doubled := DoubleAll([1, 2, 3]).value;
    assert |doubled| == 3 && doubled[0] == 2 && doubled[1] == 4 && doubled[2] == 6;
    assert doubled == [2, 4, 6];
    assert DoubleQueue([1, 2, 3]) == Ok([2, 4, 6]);
    FireConditionally<int, int, int, bool>(map[0 := batch], 0, batch, map[], DoubleQueue, Always);
    var r := SettleAll(map[], Stack(Resolvers<int, int, bool>(batch), [2, 4, 6]));
    FanOutPositional<int, int, bool>(map[], batch, [2, 4, 6], 0);
    FanOutPositional<int, int, bool>(map[], batch, [2, 4, 6], 1);
    FanOutPositional<int, int, bool>(map[], batch, [2, 4, 6], 2);
    forall id: nat | id > 2
      ensures id !in r
    {
      FanOutOthers<int, int, bool>(map[], batch, [2, 4, 6], id);
    }
    assert r == map[0 := Ok(2), 1 := Ok(4), 2 := Ok(6)];
  }

  /** Doubling by one bulk call: three calls under one key inside the
      window reach `execute` as one batch `[1, 2, 3]` and get `2, 4, 6`
      back, each its own; the two later timers find the key cleared. */
  method DoublingScenario()
  {
    var b := new Batcher<int, int, int, bool>(OneKey, DoubleExecute);
    var c1 := b.Call(1);
    assert c1 == 0 && 0 in b.queues && b.queues[0] == [Task(0, 1)];
    assert b.queues == map[0 := [Task(0, 1)]];
    var c2 := b.Call(2);
    assert c2 == 1 && 0 in b.queues && b.queues[0] == [Task(0, 1), Task(1, 2)];
    assert b.queues == map[0 := [Task(0, 1), Task(1, 2)]];
    var c3 := b.Call(3);
    var batch := [Task(0, 1), Task(1, 2), Task(2, 3)];
    assert c3 == 2 && 0 in b.queues && b.queues[0] == batch;
    assert b.queues == map[0 := batch];
    assert b.timers == [0, 0, 0] && b.settled == map[] && b.runs == 0;
    ThreeTasksFire(b, batch);
  }

  /** The first timer delivers the batch; the later ones find nothing. */
  method ThreeTasksFire(b: Batcher<int, int, int, bool>, batch: seq<Task<int>>)
    requires b.Valid() && b.execute == DoubleExecute
    requires batch == [Task(0, 1), Task(1, 2), Task(2, 3)]
    requires b.queues == map[0 := batch] && b.timers == [0, 0, 0] && b.settled == map[] && b.runs == 0
    modifies b
  {
    DoublingFire(batch);
    assert Inputs(batch) == [1, 2, 3];
    var handed := b.Fire();
    assert handed == Some([1, 2, 3]);
    assert b.queues == map[];
    assert b.settled == map[0 := Ok(2), 1 := Ok(4), 2 := Ok(6)];
    handed := b.Fire();
    assert handed.None?;
  }
}
