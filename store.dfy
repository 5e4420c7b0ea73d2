/** The in-memory branch of the key-value store (src/lib/db.js:8-33): a
    JavaScript `Map` with `get`, `set` (with `nx` and `ex`), `incr` and `keys`.
    The functions over `State` specify each operation; `MemoryStore` is the
    object the route handlers call, and each of its methods is proved to move
    its fields exactly as the matching function says. A pending `setTimeout`
    deletion is a `Timer`; `Expire` and `MemoryStore.FireTimer` are the step
    in which the timer runs. */
module Store {
  import opened Wrappers
  import opened Values
  import opened Glob

  /** A deletion of `key` scheduled by `set` with `ex`, due `seconds` seconds later. */
  datatype Timer = Timer(key: string, seconds: nat)

  /** The options of `set`: `nx` (only if absent) and `ex` (expire after
      seconds; 0 stands for an absent `ex`, which is falsy and schedules nothing). */
  datatype SetOptions = SetOptions(nx: bool, ex: nat)

  const NoOptions := SetOptions(false, 0)

  /** What `set` resolves to: `'OK'` or `null`. */
  datatype SetReply = OK | Null

  /** The Map (its keys in insertion order and their values) and the timers
      that have been scheduled and have not run yet. */
  datatype State = State(order: seq<string>, entries: map<string, Value>, timers: seq<Timer>)

  const Empty := State([], map[], [])

  ghost predicate Distinct(s: seq<string>) {
    forall i, j :: 0 <= i < j < |s| ==> s[i] != s[j]
  }

  /** `r` lists some of the elements of `s`, in the order they have in `s`. */
  ghost predicate Subsequence(r: seq<string>, s: seq<string>)
    decreases |s|
  {
    if r == [] then true
    else if s == [] then false
    else if r[0] == s[0] then Subsequence(r[1..], s[1..])
    else Subsequence(r, s[1..])
  }

  /** The insertion order lists every key of the Map exactly once. */
  ghost predicate WellFormed(st: State) {
    Distinct(st.order) && forall k :: k in st.entries <==> k in st.order
  }

  /** `storage.get(key)`: the stored value, or `undefined` for an absent key. */
  function Lookup(st: State, key: string): (r: Option<Value>)
    ensures r.Some? <==> key in st.entries
    ensures r.Some? ==> r.value == st.entries[key]
  {
    if key in st.entries then Some(st.entries[key]) else None
  }

  datatype SetResult = SetResult(state: State, reply: SetReply)

  /** `set(key, value, options)`: refused with `null` when `nx` is set and the
      key is present; otherwise the value is stored (a new key goes to the end
      of the insertion order, an existing key keeps its place) and, when `ex`
      is given, one deletion of the key is scheduled. */
  function Assign(st: State, key: string, value: Value, options: SetOptions): (r: SetResult)
    ensures r.reply == Null <==> options.nx && Lookup(st, key).Some?
    ensures r.reply == Null ==> r.state == st
    ensures r.reply == OK ==> Lookup(r.state, key) == Some(value)
    ensures forall k :: k != key ==> Lookup(r.state, k) == Lookup(st, k)
    ensures r.reply == OK ==>
              r.state.order == if key in st.entries then st.order else st.order + [key]
    ensures r.state.timers ==
              if r.reply == OK && options.ex > 0 then st.timers + [Timer(key, options.ex)] else st.timers
    ensures WellFormed(st) ==> WellFormed(r.state)
  {
    if options.nx && key in st.entries then SetResult(st, Null)
    else
      var order := if key in st.entries then st.order else st.order + [key];
      var timers := if options.ex > 0 then st.timers + [Timer(key, options.ex)] else st.timers;
      SetResult(State(order, st.entries[key := value], timers), OK)
  }

  /** `incr` is modelled for absent keys and keys that hold an integer. */
  predicate Countable(st: State, key: string) {
    key !in st.entries || st.entries[key].Int?
  }

  /** The counter under `key`, 0 when absent. */
  function Count(st: State, key: string): int
    requires Countable(st, key)
  {
    if key in st.entries then st.entries[key].n else 0
  }

  datatype IncrResult = IncrResult(state: State, value: int)

  /** `incr(key)`: `(storage.get(key) || 0) + 1` is stored and returned. */
  function Increment(st: State, key: string): (r: IncrResult)
    requires Countable(st, key)
    ensures r.value == (if key in st.entries then st.entries[key].n + 1 else 1)
    ensures Lookup(r.state, key) == Some(Int(r.value))
    ensures forall k :: k != key ==> Lookup(r.state, k) == Lookup(st, k)
    ensures r.state.order == if key in st.entries then st.order else st.order + [key]
    ensures r.state.timers == st.timers
    ensures WellFormed(st) ==> WellFormed(r.state)
  {
    var next := Count(st, key) + 1;
    IncrResult(Assign(st, key, Int(next), NoOptions).state, next)
  }

  /** The keys of `keys`, in the order they are listed in `keys`, that the pattern matches. */
  function Filter(keys: seq<string>, pattern: string): (r: seq<string>)
    ensures forall k :: k in r <==> k in keys && Matches(pattern, k)
    ensures Subsequence(r, keys)
    ensures Distinct(keys) ==> Distinct(r)
  {
    if keys == [] then []
    else
      var rest := Filter(keys[1..], pattern);
      if Matches(pattern, keys[0]) then
        assert Distinct(keys) ==> keys[0] !in keys[1..] && Distinct(keys[1..]) by {
          if Distinct(keys) {
            forall i | 0 <= i < |keys[1..]| ensures keys[1..][i] != keys[0] {
              assert keys[1..][i] == keys[i + 1];
            }
          }
        }
        [keys[0]] + rest
      else
        assert Distinct(keys) ==> Distinct(keys[1..]) by {
          if Distinct(keys) {
            forall i, j | 0 <= i < j < |keys[1..]| ensures keys[1..][i] != keys[1..][j] {
              assert keys[1..][i] == keys[i + 1] && keys[1..][j] == keys[j + 1];
            }
          }
        }
        rest
  }

  /** `s` without the element `k`: what `Map.delete` does to the insertion
      order. The other elements keep their order. */
  function Remove(s: seq<string>, k: string): (r: seq<string>)
    ensures forall x :: x in r <==> x in s && x != k
    ensures Subsequence(r, s)
    ensures Distinct(s) ==> Distinct(r)
  {
    if s == [] then []
    else
      var rest := Remove(s[1..], k);
      assert Distinct(s) ==> s[0] !in s[1..] && Distinct(s[1..]) by {
        if Distinct(s) {
          forall i | 0 <= i < |s[1..]| ensures s[1..][i] != s[0] {
            assert s[1..][i] == s[i + 1];
          }
          forall i, j | 0 <= i < j < |s[1..]| ensures s[1..][i] != s[1..][j] {
            assert s[1..][i] == s[i + 1] && s[1..][j] == s[j + 1];
          }
        }
      }
      if s[0] == k then
        assert rest != [] ==> rest[0] != s[0] by {
          if rest != [] { assert rest[0] in rest; }
        }
        rest
      else
        assert ([s[0]] + rest)[1..] == rest;
        [s[0]] + rest
  }

  /** The timer at position `i` runs: `storage.delete(key)` removes the key
      whatever it holds now, and the timer is no longer pending. */
  function Expire(st: State, i: nat): (r: State)
    requires i < |st.timers|
    ensures Lookup(r, st.timers[i].key) == None
    ensures forall k :: k != st.timers[i].key ==> Lookup(r, k) == Lookup(st, k)
    ensures r.order == Remove(st.order, st.timers[i].key)
    ensures r.timers == st.timers[..i] + st.timers[i + 1..]
    ensures WellFormed(st) ==> WellFormed(r)
  {
    var key := st.timers[i].key;
    State(Remove(st.order, key), st.entries - {key}, st.timers[..i] + st.timers[i + 1..])
  }

  /** A key written with `ex` is deleted when its timer runs, even if it was
      written again, without `ex`, in the meantime. */
  lemma {:induction false} ExpiryIgnoresRewrite(st: State, key: string, v1: Value, v2: Value, ex: nat)
    requires ex > 0 && Lookup(st, key).None?
    ensures var s1 := Assign(st, key, v1, SetOptions(true, ex)).state;
            var s2 := Assign(s1, key, v2, NoOptions).state;
            |st.timers| < |s2.timers| && s2.timers[|st.timers|] == Timer(key, ex) &&
            Lookup(s2, key) == Some(v2) &&
            Lookup(Expire(s2, |st.timers|), key) == None
  {
    var s1 := Assign(st, key, v1, SetOptions(true, ex)).state;
    assert s1.timers == st.timers + [Timer(key, ex)];
    var s2 := Assign(s1, key, v2, NoOptions).state;
    assert s2.timers == s1.timers;
  }

  /** `incr` called `n` times in a row: the final state and the values returned. */
  function IncrementTimes(st: State, key: string, n: nat): (r: (State, seq<int>))
    requires Countable(st, key)
    ensures |r.1| == n
    ensures forall k :: k != key ==> Lookup(r.0, k) == Lookup(st, k)
    decreases n
  {
    if n == 0 then (st, [])
    else
      var r := Increment(st, key);
      var rest := IncrementTimes(r.state, key, n - 1);
      (rest.0, [r.value] + rest.1)
  }

  /** `n` successive `incr` calls count on from the stored value: on an absent
      key they return 1, 2, ..., n, and the key then holds n. No other key changes. */
  lemma {:induction false} IncrementTimesCounts(st: State, key: string, n: nat)
    requires Countable(st, key)
    decreases n
    ensures var (final, values) := IncrementTimes(st, key, n);
            |values| == n &&
            (forall i :: 0 <= i < n ==> values[i] == Count(st, key) + i + 1) &&
            (n > 0 ==> Lookup(final, key) == Some(Int(Count(st, key) + n))) &&
            (forall k :: k != key ==> Lookup(final, k) == Lookup(st, k))
  {
    if n > 0 {
      var r := Increment(st, key);
      IncrementTimesCounts(r.state, key, n - 1);
      assert Count(r.state, key) == Count(st, key) + 1;
    }
  }

  /** The object the route handlers call. */
  class MemoryStore {
    var order: seq<string>
    var storage: map<string, Value>
    var pending: seq<Timer>

    function Snapshot(): State
      reads this
    {
      State(order, storage, pending)
    }

    ghost predicate Valid()
      reads this
    {
      WellFormed(Snapshot())
    }

    /** `new Map()`, with no timer pending. */
    constructor ()
      ensures Valid() && Snapshot() == Empty
    {
      order, storage, pending := [], map[], [];
    }

    /** `get(key)`: the stored value, or `undefined`. */
    method Get(key: string) returns (r: Option<Value>)
      ensures r.Some? <==> key in storage
      ensures r.Some? ==> r.value == storage[key]
    {
      r := if key in storage then Some(storage[key]) else None;
    }

    /** `set(key, value, options)`. */
    method Set(key: string, value: Value, options: SetOptions) returns (reply: SetReply)
      requires Valid()
      modifies this
      ensures Valid()
      ensures SetResult(Snapshot(), reply) == Assign(old(Snapshot()), key, value, options)
    {
      if options.nx && key in storage {
        return Null;
      }
      if key !in storage {
        order := order + [key];
      }
      storage := storage[key := value];
      if options.ex > 0 {
        pending := pending + [Timer(key, options.ex)];
      }
      return OK;
    }

    /** `incr(key)`. */
    method Incr(key: string) returns (next: int)
      requires Valid() && Countable(Snapshot(), key)
      modifies this
      ensures Valid()
      ensures IncrResult(Snapshot(), next) == Increment(old(Snapshot()), key)
    {
      var current := if key in storage then storage[key].n else 0;
      next := current + 1;
      if key !in storage {
        order := order + [key];
      }
      storage := storage[key := Int(next)];
    }

    /** `keys(pattern)`: every stored key the pattern matches in full, once
        each, in insertion order. */
    method Keys(pattern: string) returns (r: seq<string>)
      requires Valid() && IsGlob(pattern)
      ensures forall k :: k in r <==> k in storage && Matches(pattern, k)
      ensures Distinct(r) && Subsequence(r, order)
    {
      r := Filter(order, pattern);
    }

    /** The pending timer at position `i` runs `storage.delete(key)`. */
    method FireTimer(i: nat)
      requires Valid() && i < |pending|
      modifies this
      ensures Valid()
      ensures Snapshot() == Expire(old(Snapshot()), i)
    {
      var key := pending[i].key;
      pending := pending[..i] + pending[i + 1..];
      storage := storage - {key};
      order := Remove(order, key);
    }
  }
}
