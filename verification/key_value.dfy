/**
 * An abstract Redis database, the one collaborator both decorator files talk to.
 *
 * The store holds three kinds of value: strings (with an optional absolute expiry time, as
 * set by SET and SETEX), integer counters (INCR) and append-only lists (RPUSH / LRANGE), plus
 * an integer clock that only moves when a caller advances it. Expiry is lazy: an expired entry
 * stays in the map but reads as absent, and the next write replaces it.
 *
 * A decorated callable is modelled as an `Op`: given the current store and an argument it
 * reports the commands it issues, in order, and its result. An `Invoke` event marks a call of
 * the wrapped function itself (the URL fetch), which leaves the store alone.
 */
module KeyValue {

  datatype Option<T> = None | Some(value: T)

  /** A string value; `expiresAt` is the first clock value at which it no longer reads back. */
  datatype Entry = Entry(value: string, expiresAt: Option<nat>)

  datatype Store = Store(
    strings: map<string, Entry>,
    counters: map<string, int>,
    lists: map<string, seq<string>>,
    clock: nat)

  /** One command sent to the store, or one call of a wrapped function. */
  datatype Event =
    | Incr(key: string)
    | RPush(key: string, item: string)
    | Set(key: string, value: string)
    | SetEx(key: string, ttl: nat, value: string)
    | Invoke(arg: string)

  /** What a decorated call did: the events it caused, in order, and what it returned. */
  datatype Step<R> = Step(events: seq<Event>, result: R)

  /** A callable over the store, such as a method of the cache or a decorated function. */
  type Op<!A, R> = (Store, A) -> Step<R>

  predicate Live(e: Entry, now: nat) {
    e.expiresAt.None? || now < e.expiresAt.value
  }

  /** GET: the value under `key`, absent when there is none or it has expired. */
  function Lookup(s: Store, key: string): Option<string> {
    if key in s.strings && Live(s.strings[key], s.clock) then Some(s.strings[key].value) else None
  }

  /** The counter under `key`; INCR treats a missing counter as zero. */
  function Count(s: Store, key: string): int {
    if key in s.counters then s.counters[key] else 0
  }

  /** LRANGE key 0 -1: the whole list, empty when there is none. */
  function Items(s: Store, key: string): seq<string> {
    if key in s.lists then s.lists[key] else []
  }

  predicate InUse(s: Store, key: string) {
    key in s.strings || key in s.counters || key in s.lists
  }

  /** Whether `e` writes `key`. */
  predicate Mentions(e: Event, key: string) {
    match e
    case Invoke(_) => false
    case _ => e.key == key
  }

  predicate Untouched(es: seq<Event>, key: string) {
    forall i :: 0 <= i < |es| ==> !Mentions(es[i], key)
  }

  /** `s` and `t` hold the same thing (or nothing) under `key`, in every namespace. */
  predicate SameAt(s: Store, t: Store, key: string) {
    && (key in s.strings <==> key in t.strings)
    && (key in s.strings ==> s.strings[key] == t.strings[key])
    && (key in s.counters <==> key in t.counters)
    && (key in s.counters ==> s.counters[key] == t.counters[key])
    && (key in s.lists <==> key in t.lists)
    && (key in s.lists ==> s.lists[key] == t.lists[key])
  }

  lemma SameAtTransitive(s: Store, t: Store, u: Store, key: string)
    requires SameAt(s, t, key) && SameAt(t, u, key)
    ensures SameAt(s, u, key)
  {
  }

  /** The effect of one event on the store. */
  function Exec(s: Store, e: Event): (r: Store)
    ensures r.clock == s.clock
    ensures forall k :: !Mentions(e, k) ==> SameAt(s, r, k)
    ensures forall k :: InUse(s, k) ==> InUse(r, k)
  {
    match e
    case Incr(k) => s.(counters := s.counters[k := Count(s, k) + 1])
    case RPush(k, x) => s.(lists := s.lists[k := Items(s, k) + [x]])
    case Set(k, v) => s.(strings := s.strings[k := Entry(v, None)])
    case SetEx(k, ttl, v) => s.(strings := s.strings[k := Entry(v, Some(s.clock + ttl))])
    case Invoke(_) => s
  }

  /** The effect of a sequence of events, applied first to last. */
  function ExecAll(s: Store, es: seq<Event>): (r: Store)
    ensures r.clock == s.clock
    ensures forall k :: Untouched(es, k) ==> SameAt(s, r, k)
    ensures forall k :: InUse(s, k) ==> InUse(r, k)
    decreases |es|
  {
    if es == [] then s
    else
      assert forall k :: Untouched(es, k) ==> !Mentions(es[0], k) && Untouched(es[1..], k) by {
        forall k | Untouched(es, k) ensures Untouched(es[1..], k) {
          assert forall i :: 0 <= i < |es[1..]| ==> es[1..][i] == es[i + 1];
        }
      }
      ExecAll(Exec(s, es[0]), es[1..])
  }

  lemma {:induction false} ExecAllAppend(s: Store, a: seq<Event>, b: seq<Event>)
    ensures ExecAll(s, a + b) == ExecAll(ExecAll(s, a), b)
    decreases |a|
  {
    if a == [] {
      assert a + b == b;
    } else {
      assert (a + b)[0] == a[0];
      assert (a + b)[1..] == a[1..] + b;
      ExecAllAppend(Exec(s, a[0]), a[1..], b);
    }
  }

  lemma ExecAllCons(s: Store, e: Event, es: seq<Event>)
    ensures ExecAll(s, [e] + es) == ExecAll(Exec(s, e), es)
  {
    assert ([e] + es)[1..] == es;
  }

  /** FLUSHDB: nothing is left, only the clock keeps running. */
  function Flush(s: Store): (r: Store)
    ensures forall k :: !InUse(r, k) && Lookup(r, k) == None && Count(r, k) == 0 && Items(r, k) == []
    ensures r.clock == s.clock
  {
    Store(map[], map[], map[], s.clock)
  }

  /** Let `d` time units pass. */
  function Tick(s: Store, d: nat): (r: Store)
    ensures r.clock == s.clock + d
    ensures forall k :: SameAt(s, r, k)
  {
    s.(clock := s.clock + d)
  }
}
