/** `singleton(factory)`: a memoised factory per cache key. It keeps the
    `instances` cache and, in `lockObj`, a flag per key, taken by a
    check-and-set and removed on unlock. Every call is a task; the events are
    a call (the cache check and the first attempt at the key's flag), a
    polling attempt after a sleep, and the factory's promise settling. */
module Singleton {
  import opened Wrappers

  /** Where one call is. */
  datatype Phase<A, V, E> =
    | Waiting(args: A)               // polling for the key's flag
    | Building(args: A, call: nat)   // holds the flag; the `call`-th `factory(...args)` is in flight
    | Settled(outcome: Result<V, E>) // its promise settled

  class Memo<A, K(==), V, E> {
    /** `getCacheKey(args)`, whose definition is not part of this model. */
    const cacheKey: A -> K
    /** The factory, by the outcome its promise settles with: `factory(n, a)`
        is how its `n`-th call, made on `a`, settles, so a call on the same
        arguments may fail once and succeed later. */
    const factory: (nat, A) -> Result<V, E>
    /** JavaScript truthiness of a stored instance. */
    const truthy: V -> bool
    /** `instances` */
    var instances: map<K, V>
    /** The keys whose `lockObj` flag is set. */
    var lockObj: set<K>
    /** Every call so far, by arrival. */
    var tasks: seq<Phase<A, V, E>>
    /** How many times `factory` was called so far. */
    var factoryRuns: nat
    /** The task holding each set flag. */
    ghost var holder: map<K, nat>
    /** Every call of `factory`, in order. */
    ghost var factoryCalls: seq<A>

    /** A flag is set exactly for the key of a building task, and names that
        task; every building task is the factory call it records; no key being
        built has a truthy cached value (both cache checks missed); every
        cached value is a fulfilled factory result for its key. */
    ghost predicate Valid()
      reads this
    {
      && factoryRuns == |factoryCalls|
      && lockObj == holder.Keys
      && (forall k :: k in holder ==>
            holder[k] < |tasks| && tasks[holder[k]].Building? && cacheKey(tasks[holder[k]].args) == k)
      && (forall t :: 0 <= t < |tasks| && tasks[t].Building? ==> BuildingValid(t))
      && (forall k :: k in instances ==> Fulfilled(k, instances[k]))
    }

    /** Building task `t` holds its key's flag, is the factory call it
        records, and its key is not a cache hit. */
    ghost predicate BuildingValid(t: nat)
      requires t < |tasks| && tasks[t].Building?
      reads this
    {
      var args := tasks[t].args;
      && cacheKey(args) in holder && holder[cacheKey(args)] == t
      && tasks[t].call < |factoryCalls| && factoryCalls[tasks[t].call] == args
      && !Hit(cacheKey(args))
    }

    /** `v` is what some call of `factory` for key `k` fulfilled with. */
    ghost predicate Fulfilled(k: K, v: V)
      reads this
    {
      exists i :: 0 <= i < |factoryCalls| && cacheKey(factoryCalls[i]) == k && factory(i, factoryCalls[i]) == Ok(v)
    }

    /** At most one holder per key: two building tasks never share a key. */
    ghost predicate Exclusive()
      reads this
    {
      forall t, u ::
        (0 <= t < |tasks| && 0 <= u < |tasks| && tasks[t].Building? && tasks[u].Building?
         && cacheKey(tasks[t].args) == cacheKey(tasks[u].args)) ==> t == u
    }

    lemma ValidIsExclusive()
      requires Valid()
      ensures Exclusive()
    {
    }

    /** A cache hit: a stored value that is truthy. */
    predicate Hit(key: K)
      reads this
    {
      key in instances && truthy(instances[key])
    }

    constructor (cacheKey: A -> K, factory: (nat, A) -> Result<V, E>, truthy: V -> bool)
      ensures Valid()
      ensures this.cacheKey == cacheKey && this.factory == factory && this.truthy == truthy
      ensures instances == map[] && lockObj == {} && tasks == [] && factoryCalls == []
    {
      this.cacheKey := cacheKey;
      this.factory := factory;
      this.truthy := truthy;
      instances := map[];
      lockObj := {};
      tasks := [];
      factoryRuns := 0;
      holder := map[];
      factoryCalls := [];
    }

    /** The check-and-set: it fails while the key's flag is set, and
        otherwise sets it. Other keys are not looked at. */
    method TrySet(id: K) returns (ok: bool)
      modifies this`lockObj
      ensures ok <==> id !in old(lockObj)
      ensures lockObj == old(lockObj) + {id}
    {
      if id in lockObj {
        return false;
      }
      lockObj := lockObj + {id};
      return true;
    }

    /** The unlock: delete the key's flag, and only that one. */
    method Unset(id: K)
      modifies this`lockObj
      ensures lockObj == old(lockObj) - {id}
    {
      lockObj := lockObj - {id};
    }

    /** A task that has just taken the flag of its key checks the cache
        again: a hit releases the flag and returns the cached value, a miss
        starts `factory`. (The requires are `Valid()` with that one flag
        taken but not yet recorded.) */
    method Acquired(id: nat)
      requires id < |tasks| && tasks[id].Waiting?
      requires factoryRuns == |factoryCalls|
      requires cacheKey(tasks[id].args) in lockObj && cacheKey(tasks[id].args) !in holder
      requires lockObj == holder.Keys + {cacheKey(tasks[id].args)}
      requires forall k :: k in holder ==>
        holder[k] < |tasks| && tasks[holder[k]].Building? && cacheKey(tasks[holder[k]].args) == k
      requires forall t :: 0 <= t < |tasks| && tasks[t].Building? ==> BuildingValid(t)
      requires forall k :: k in instances ==> Fulfilled(k, instances[k])
      modifies this
      ensures Valid()
      ensures instances == old(instances)
      ensures var args := old(tasks)[id].args; var key := cacheKey(args);
        if Hit(key) then
          tasks == old(tasks)[id := Settled(Ok(instances[key]))] && factoryCalls == old(factoryCalls)
          && lockObj == old(lockObj) - {key}
        else
          tasks == old(tasks)[id := Building(args, |old(factoryCalls)|)] && factoryCalls == old(factoryCalls) + [args]
          && lockObj == old(lockObj)
    {
      var args := tasks[id].args;
      var key := cacheKey(args);
      if key in instances && truthy(instances[key]) {
        Unset(key);
        tasks := tasks[id := Settled(Ok(instances[key]))];
      } else {
        ghost var before := factoryCalls;
        tasks := tasks[id := Building(args, factoryRuns)];
        factoryCalls := factoryCalls + [args];
        factoryRuns := factoryRuns + 1;
        holder := holder[key := id];
        forall k | k in instances
          ensures Fulfilled(k, instances[k])
        {
          var i :| 0 <= i < |before| && cacheKey(before[i]) == k && factory(i, before[i]) == Ok(instances[k]);
          assert factoryCalls[i] == before[i];
        }
      }
    }

    /** A call: a truthy cached instance is returned at once, without the
        lock or the factory; otherwise the lock makes its first attempt at
        the key's flag. The cache is not written. */
    method Call(args: A) returns (id: nat)
      requires Valid()
      modifies this
      ensures Valid()
      ensures id == |old(tasks)| && |tasks| == id + 1 && tasks[..id] == old(tasks)
      ensures instances == old(instances)
      ensures var key := cacheKey(args);
        if Hit(key) then
          tasks[id] == Settled(Ok(instances[key])) && factoryCalls == old(factoryCalls) && lockObj == old(lockObj)
        else if key in old(lockObj) then
          tasks[id] == Waiting(args) && factoryCalls == old(factoryCalls) && lockObj == old(lockObj)
        else
          tasks[id] == Building(args, |old(factoryCalls)|) && factoryCalls == old(factoryCalls) + [args]
          && lockObj == old(lockObj) + {key}
    {
      id := |tasks|;
      var key := cacheKey(args);
      if key in instances && truthy(instances[key]) {
        tasks := tasks + [Settled(Ok(instances[key]))];
        return;
      }
      tasks := tasks + [Waiting(args)];
      var ok := TrySet(key);
      if ok {
        Acquired(id);
      }
    }

    /** A waiting task's next attempt at its key's flag, after its sleep. The
        cache is not written. */
    method Poll(id: nat)
      requires Valid() && id < |tasks| && tasks[id].Waiting?
      modifies this
      ensures Valid()
      ensures instances == old(instances)
      ensures var args := old(tasks)[id].args; var key := cacheKey(args);
        if key in old(lockObj) then
          tasks == old(tasks) && factoryCalls == old(factoryCalls) && lockObj == old(lockObj)
        else if Hit(key) then
          tasks == old(tasks)[id := Settled(Ok(instances[key]))] && factoryCalls == old(factoryCalls)
          && lockObj == old(lockObj)
        else
          tasks == old(tasks)[id := Building(args, |old(factoryCalls)|)] && factoryCalls == old(factoryCalls) + [args]
          && lockObj == old(lockObj) + {key}
    {
      var key := cacheKey(tasks[id].args);
      var ok := TrySet(key);
      if ok {
        Acquired(id);
      }
    }

    /** The factory call of building task `id` settles. On success the value
        is stored under the key (truthy or not) and returned; on failure the
        cache is left as it was and the error passed on. Either way the key's
        flag is removed, so a later call can try again. A truthy cached value
        is never replaced: the building key was not a hit. */
    method Settle(id: nat)
      requires Valid() && id < |tasks| && tasks[id].Building?
      modifies this
      ensures Valid()
      ensures factoryCalls == old(factoryCalls)
      ensures var args := old(tasks)[id].args; var key := cacheKey(args);
        var outcome := factory(old(tasks)[id].call, args);
        && lockObj == old(lockObj) - {key}
        && tasks == old(tasks)[id := Settled(outcome)]
        && instances == match outcome
             case Ok(v) => old(instances)[key := v]
             case Err(_) => old(instances)
      ensures forall k :: k in old(instances) && truthy(old(instances)[k]) ==>
        k in instances && instances[k] == old(instances)[k]
    {
      var args := tasks[id].args;
      var key := cacheKey(args);
      var call := tasks[id].call;
      assert BuildingValid(id);
      match factory(call, args)
      case Ok(v) =>
        assert Fulfilled(key, v) by {
          assert cacheKey(factoryCalls[call]) == key && factory(call, factoryCalls[call]) == Ok(v);
        }
        instances := instances[key := v];
        Unset(key);
        holder := holder - {key};
        tasks := tasks[id := Settled(Ok(v))];
      case Err(e) =>
        Unset(key);
        holder := holder - {key};
        tasks := tasks[id := Settled(Err(e))];
    }
  }

  /** Two concurrent calls for one key run the factory once and both get
      its value. */
  method SameKeyScenario()
  {
    var m := new Memo<int, int, int, bool>(a => a, (n, a) => Ok(a + 100), v => v != 0);
    var first := m.Call(7);
    assert m.tasks == [Building(7, 0)];
    var second := m.Call(7);
    assert m.tasks == [Building(7, 0), Waiting(7)];
    m.Settle(first);
    assert m.instances == map[7 := 107];
    m.Poll(second);
    assert m.tasks == [Settled(Ok(107)), Settled(Ok(107))];
    assert m.factoryCalls == [7];
  }

  /** A factory that fails on its first call leaves nothing cached and
      releases the key, so the next call runs it again, and that value is
      then kept: a later call does not run the factory. */
  method RetryAfterFailureScenario()
  {
    var m := new Memo<int, int, int, bool>(a => a, (n, a) => if n == 0 then Err(true) else Ok(a + 1), v => v != 0);
    var failing := m.Call(0);
    assert m.tasks == [Building(0, 0)];
    m.Settle(failing);
    assert m.tasks == [Settled(Err(true))];
    assert m.instances == map[] && m.lockObj == {};
    var retry := m.Call(0);
    assert m.tasks[retry] == Building(0, 1);
    m.Settle(retry);
    assert m.instances == map[0 := 1];
    var cached := m.Call(0);
    assert m.tasks[cached] == Settled(Ok(1));
    assert m.factoryCalls == [0, 0];
  }
}
