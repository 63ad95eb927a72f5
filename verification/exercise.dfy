/**
 * The instrumented cache of `0x02-redis_basic/exercise.py`.
 *
 * `count_calls` and `call_history` wrap a method so that every call bumps a counter and
 * records its arguments and result in two lists, all keyed by the method's qualified name.
 * `Cache.store` wears both (counting outside, history inside) and writes its data under a
 * fresh random key. The Redis database is the explicit `Store` value threaded through every
 * call; `uuid4()` is the oracle `keySource`.
 */
module Exercise {
  import opened KeyValue
  import opened Decimal

  // ---------------------------------------------------------------------------------------
  // Keys derived from a method's qualified name

  function CallsKey(name: string): string {
    name + ":calls"
  }

  function InputsKey(name: string): string {
    name + ":inputs"
  }

  function OutputsKey(name: string): string {
    name + ":outputs"
  }

  /** Distinct methods never share a counter or a list, and no inputs list is an outputs list. */
  lemma KeysIdentifyMethod(a: string, b: string)
    ensures CallsKey(a) == CallsKey(b) <==> a == b
    ensures InputsKey(a) == InputsKey(b) <==> a == b
    ensures OutputsKey(a) == OutputsKey(b) <==> a == b
    ensures InputsKey(a) != OutputsKey(b)
  {
    if CallsKey(a) == CallsKey(b) {
      assert a == CallsKey(a)[..|a|] && b == CallsKey(b)[..|b|];
    }
    if InputsKey(a) == InputsKey(b) {
      assert a == InputsKey(a)[..|a|] && b == InputsKey(b)[..|b|];
    }
    if OutputsKey(a) == OutputsKey(b) {
      assert a == OutputsKey(a)[..|a|] && b == OutputsKey(b)[..|b|];
    }
    // Five characters from the end, an inputs key holds the 'n' of ":inputs" and an
    // outputs key the 't' of ":outputs".
    assert InputsKey(a)[|InputsKey(a)| - 5] == 'n';
    assert OutputsKey(b)[|OutputsKey(b)| - 5] == 't';
  }

  /** Every counter and history key contains a colon. */
  lemma InstrumentationKeysHaveColon(name: string)
    ensures ':' in CallsKey(name) && ':' in InputsKey(name) && ':' in OutputsKey(name)
  {
    assert CallsKey(name)[|name|] == ':';
    assert InputsKey(name)[|name|] == ':';
    assert OutputsKey(name)[|name|] == ':';
  }

  // ---------------------------------------------------------------------------------------
  // The two decorators

  /** `count_calls`: INCR the method's counter, then run the method on the updated store. */
  function CountCalls<A, R>(name: string, wrapped: Op<A, R>, s: Store, a: A): Step<R> {
    var inner := wrapped(Exec(s, Incr(CallsKey(name))), a);
    Step([Incr(CallsKey(name))] + inner.events, inner.result)
  }

  /**
   * `call_history`: append the printed arguments to the inputs list, run the method, append
   * the printed result to the outputs list.
   */
  function CallHistory<A, R>(name: string, showArgs: A -> string, showResult: R -> string,
                             wrapped: Op<A, R>, s: Store, a: A): Step<R>
  {
    var pushInput := RPush(InputsKey(name), showArgs(a));
    var inner := wrapped(Exec(s, pushInput), a);
    Step([pushInput] + inner.events + [RPush(OutputsKey(name), showResult(inner.result))], inner.result)
  }

  /**
   * For any method that does not itself write the counter, one decorated call raises the
   * counter by exactly one, the increment is the first command issued, and the method's
   * result passes through unchanged.
   */
  lemma CountCallsCounts<A, R>(name: string, wrapped: Op<A, R>, s: Store, a: A)
    requires Untouched(wrapped(Exec(s, Incr(CallsKey(name))), a).events, CallsKey(name))
    ensures var r := CountCalls(name, wrapped, s, a);
      && r.events[0] == Incr(CallsKey(name))
      && Count(ExecAll(s, r.events), CallsKey(name)) == Count(s, CallsKey(name)) + 1
      && r.result == wrapped(Exec(s, Incr(CallsKey(name))), a).result
  {
    var r := CountCalls(name, wrapped, s, a);
    var inner := wrapped(Exec(s, Incr(CallsKey(name))), a);
    ExecAllAppend(s, [Incr(CallsKey(name))], inner.events);
  }

  /**
   * For any method that does not itself write the history lists, one decorated call appends
   * exactly one element to each list: the printed arguments to the inputs, the printed
   * result to the outputs; the input is recorded before the method runs and the output after.
   */
  lemma CallHistoryRecords<A, R>(name: string, showArgs: A -> string, showResult: R -> string,
                                 wrapped: Op<A, R>, s: Store, a: A)
    requires var inner := wrapped(Exec(s, RPush(InputsKey(name), showArgs(a))), a);
      Untouched(inner.events, InputsKey(name)) && Untouched(inner.events, OutputsKey(name))
    ensures var r := CallHistory(name, showArgs, showResult, wrapped, s, a);
      var t := ExecAll(s, r.events);
      && r.events[0] == RPush(InputsKey(name), showArgs(a))
      && r.events[|r.events| - 1] == RPush(OutputsKey(name), showResult(r.result))
      && Items(t, InputsKey(name)) == Items(s, InputsKey(name)) + [showArgs(a)]
      && Items(t, OutputsKey(name)) == Items(s, OutputsKey(name)) + [showResult(r.result)]
  {
    var pushInput := RPush(InputsKey(name), showArgs(a));
    var inner := wrapped(Exec(s, pushInput), a);
    var pushOutput := RPush(OutputsKey(name), showResult(inner.result));
    KeysIdentifyMethod(name, name);
    ExecAllAppend(s, [pushInput], inner.events);
    ExecAllAppend(s, [pushInput] + inner.events, [pushOutput]);
    var s1 := Exec(s, pushInput);
    var s2 := ExecAll(s1, inner.events);
    assert ExecAll(s, [pushInput]) == s1;
    assert ExecAll(s2, [pushOutput]) == Exec(s2, pushOutput);
  }

  // ---------------------------------------------------------------------------------------
  // Cache.store

  /** `Cache.store`'s qualified name, which keys its counter and history. */
  const StoreName := "Cache.store"

  /** What `store` accepts: a str, a bytes value (its octets as characters) or an int. */
  datatype Data = Text(text: string) | Bytes(octets: string) | Integer(number: int)

  /** What the Redis client writes for SET: text as it is, an int as its decimal form. */
  function Encode(d: Data): string {
    match d
    case Text(t) => t
    case Bytes(b) => b
    case Integer(n) => IntToDecimal(n)
  }

  /** `str(args)` for the one-element positional argument tuple `(data,)`; bytes print with a `b` prefix. */
  function ArgsRepr(d: Data): string {
    match d
    case Text(t) => "('" + t + "',)"
    case Bytes(b) => "(b'" + b + "',)"
    case Integer(n) => "(" + IntToDecimal(n) + ",)"
  }

  /**
   * What `str(uuid.uuid4())` is relied on for: a key nobody uses yet. A uuid is hex digits
   * and hyphens, so it also has no colon.
   */
  ghost predicate FreshKeySource(keySource: Store -> string) {
    forall t: Store :: !InUse(t, keySource(t)) && ':' !in keySource(t)
  }

  /** The undecorated body of `store`: draw a key, SET the data under it, return the key. */
  function StoreBody(keySource: Store -> string, s: Store, data: Data): Step<string> {
    var key := keySource(s);
    Step([Set(key, Encode(data))], key)
  }

  /** `Cache.store` as decorated: `count_calls(call_history(store))`. */
  function StoreStep(keySource: Store -> string, s: Store, data: Data): (r: Step<string>)
    requires FreshKeySource(keySource)
    ensures r.events == [Incr(CallsKey(StoreName)), RPush(InputsKey(StoreName), ArgsRepr(data)),
                         Set(r.result, Encode(data)), RPush(OutputsKey(StoreName), r.result)]
    ensures !InUse(s, r.result) && ':' !in r.result
  {
    CountCalls(StoreName,
      (t: Store, d: Data) => CallHistory(StoreName, ArgsRepr, (k: string) => k,
        (u: Store, e: Data) => StoreBody(keySource, u, e), t, d),
      s, data)
  }

  /** The store after a `store` call, and the key the call returned. */
  datatype Stored = Stored(store: Store, key: string)

  /**
   * One call of `Cache.store`: the returned key was unused and now holds the data; besides
   * it only the calls counter and the two history lists change, each by one step.
   */
  function CacheStore(s: Store, data: Data, keySource: Store -> string): (r: Stored)
    requires FreshKeySource(keySource)
    ensures !InUse(s, r.key) && ':' !in r.key
    ensures r.store.strings == s.strings[r.key := Entry(Encode(data), None)]
    ensures r.store.counters == s.counters[CallsKey(StoreName) := Count(s, CallsKey(StoreName)) + 1]
    ensures r.store.lists == s.lists[InputsKey(StoreName) := Items(s, InputsKey(StoreName)) + [ArgsRepr(data)]]
                                    [OutputsKey(StoreName) := Items(s, OutputsKey(StoreName)) + [r.key]]
    ensures r.store.clock == s.clock
  {
    var step := StoreStep(keySource, s, data);
    StoreEventsEffect(s, data, step.result);
    Stored(ExecAll(s, step.events), step.result)
  }

  /** One `store` call advances the counter and both history lists by one step each. */
  lemma StoreHistoryStep(s: Store, data: Data, keySource: Store -> string)
    requires FreshKeySource(keySource)
    ensures var r := CacheStore(s, data, keySource);
      && Count(r.store, CallsKey(StoreName)) == Count(s, CallsKey(StoreName)) + 1
      && Items(r.store, InputsKey(StoreName)) == Items(s, InputsKey(StoreName)) + [ArgsRepr(data)]
      && Items(r.store, OutputsKey(StoreName)) == Items(s, OutputsKey(StoreName)) + [r.key]
  {
    KeysIdentifyMethod(StoreName, StoreName);
  }

  /** A `store` call leaves alone every key other than its own and the instrumentation keys. */
  lemma StoreFrame(s: Store, data: Data, keySource: Store -> string, k: string)
    requires FreshKeySource(keySource)
    requires ':' !in k && k != CacheStore(s, data, keySource).key
    ensures SameAt(s, CacheStore(s, data, keySource).store, k)
  {
    InstrumentationKeysHaveColon(StoreName);
  }

  /** The four commands of one `store` call, applied in order. */
  lemma StoreEventsEffect(s: Store, data: Data, key: string)
    ensures ExecAll(s, [Incr(CallsKey(StoreName)), RPush(InputsKey(StoreName), ArgsRepr(data)),
                        Set(key, Encode(data)), RPush(OutputsKey(StoreName), key)])
         == s.(strings := s.strings[key := Entry(Encode(data), None)],
               counters := s.counters[CallsKey(StoreName) := Count(s, CallsKey(StoreName)) + 1],
               lists := s.lists[InputsKey(StoreName) := Items(s, InputsKey(StoreName)) + [ArgsRepr(data)]]
                               [OutputsKey(StoreName) := Items(s, OutputsKey(StoreName)) + [key]])
  {
    var e0 := Incr(CallsKey(StoreName));
    var e1 := RPush(InputsKey(StoreName), ArgsRepr(data));
    var e2 := Set(key, Encode(data));
    var e3 := RPush(OutputsKey(StoreName), key);
    KeysIdentifyMethod(StoreName, StoreName);
    var s1 := Exec(s, e0);
    var s2 := Exec(s1, e1);
    var s3 := Exec(s2, e2);
    var s4 := Exec(s3, e3);
    assert [e0, e1, e2, e3] == [e0] + ([e1] + ([e2] + ([e3] + [])));
    ExecAllCons(s, e0, [e1] + ([e2] + ([e3] + [])));
    ExecAllCons(s1, e1, [e2] + ([e3] + []));
    ExecAllCons(s2, e2, [e3] + []);
    ExecAllCons(s3, e3, []);
    assert Items(s2, OutputsKey(StoreName)) == Items(s, OutputsKey(StoreName));
  }

  // ---------------------------------------------------------------------------------------
  // Cache.get, get_str, get_int

  /** `get(key, fn)`: absent stays absent and `fn` is not applied; a value is converted. */
  function GetWith<T>(s: Store, key: string, fn: string -> T): (r: Option<T>)
    ensures r.None? <==> Lookup(s, key).None?
    ensures r.Some? ==> r.value == fn(Lookup(s, key).value)
  {
    match Lookup(s, key)
    case None => None
    case Some(data) => Some(fn(data))
  }

  /** `get(key)` with no conversion: the raw stored value. */
  function Get(s: Store, key: string): (r: Option<string>)
    ensures r == Lookup(s, key)
  {
    GetWith(s, key, (data: string) => data)
  }

  /** UTF-8 decoding; bytes and text are one in this model, so it is the identity. */
  function Utf8Decode(data: string): string {
    data
  }

  /** `get_str`: the stored text, the same as the raw value `get` returns. */
  function GetStr(s: Store, key: string): (r: Option<string>)
    ensures r.None? <==> Lookup(s, key).None?
    ensures r.Some? ==> r == Get(s, key)
  {
    GetWith(s, key, Utf8Decode)
  }

  /** `get_int`: absent, the number the stored text spells, or the ValueError `int()` raises. */
  function GetInt(s: Store, key: string): (r: Option<IntParse>)
    ensures r.None? <==> Lookup(s, key).None?
    ensures r.Some? ==> (r.value.ValueError? <==> !IsNumeral(Lookup(s, key).value))
  {
    GetWith(s, key, ParseInt)
  }

  /** Reading back the key `store` returned gives the data, converted by `fn`. */
  lemma StoreThenGet<T>(s: Store, data: Data, keySource: Store -> string, fn: string -> T)
    requires FreshKeySource(keySource)
    ensures var r := CacheStore(s, data, keySource);
      && Get(r.store, r.key) == Some(Encode(data))
      && GetWith(r.store, r.key, fn) == Some(fn(Encode(data)))
  {
  }

  /** A stored str reads back through `get_str`, stored bytes through `get`, a stored int through `get_int`. */
  lemma StoreThenGetTyped(s: Store, data: Data, keySource: Store -> string)
    requires FreshKeySource(keySource)
    ensures var r := CacheStore(s, data, keySource);
      && (data.Text? ==> GetStr(r.store, r.key) == Some(data.text))
      && (data.Bytes? ==> Get(r.store, r.key) == Some(data.octets))
      && (data.Integer? ==> GetInt(r.store, r.key) == Some(Int(data.number)))
  {
    if data.Integer? {
      IntRoundTrip(data.number);
    }
  }

  // ---------------------------------------------------------------------------------------
  // Cache.__init__ and sequences of store calls

  /** Calls counted and both history lists the same length: nothing has been lost or added. */
  predicate Lockstep(s: Store, name: string) {
    |Items(s, InputsKey(name))| == |Items(s, OutputsKey(name))| == Count(s, CallsKey(name))
  }

  /** `Cache.__init__`: FLUSHDB; afterwards no key is in use and every history is in lockstep. */
  function NewCache(s: Store): (r: Store)
    ensures forall k :: !InUse(r, k)
    ensures forall name :: Lockstep(r, name)
    ensures r.clock == s.clock
  {
    Flush(s)
  }

  /** A `store` call keeps the counter and the history lists of every method in lockstep. */
  lemma StorePreservesLockstep(s: Store, data: Data, keySource: Store -> string, name: string)
    requires FreshKeySource(keySource) && Lockstep(s, name)
    ensures Lockstep(CacheStore(s, data, keySource).store, name)
  {
    KeysIdentifyMethod(name, StoreName);
    KeysIdentifyMethod(StoreName, name);
  }

  /** `str(args)` of each call, in call order. */
  function Reprs(ds: seq<Data>): (r: seq<string>)
    ensures |r| == |ds|
  {
    if ds == [] then [] else [ArgsRepr(ds[0])] + Reprs(ds[1..])
  }

  lemma AppendAssoc<T>(a: seq<T>, b: seq<T>, c: seq<T>)
    ensures (a + b) + c == a + (b + c)
  {
  }

  datatype StoredAll = StoredAll(store: Store, keys: seq<string>)

  /** `store(ds[0])`, `store(ds[1])`, ... one after the other. */
  function StoreAll(s: Store, ds: seq<Data>, keySource: Store -> string): (r: StoredAll)
    requires FreshKeySource(keySource)
    ensures |r.keys| == |ds|
    ensures r.store.clock == s.clock
    decreases |ds|
  {
    if ds == [] then StoredAll(s, [])
    else
      var first := CacheStore(s, ds[0], keySource);
      var rest := StoreAll(first.store, ds[1..], keySource);
      StoredAll(rest.store, [first.key] + rest.keys)
  }

  /**
   * After n `store` calls the counter has risen by n, the inputs list has gained the n
   * printed arguments and the outputs list the n returned keys, in call order.
   */
  lemma {:induction false} StoreAllHistory(s: Store, ds: seq<Data>, keySource: Store -> string)
    requires FreshKeySource(keySource)
    ensures var r := StoreAll(s, ds, keySource);
      && Count(r.store, CallsKey(StoreName)) == Count(s, CallsKey(StoreName)) + |ds|
      && Items(r.store, InputsKey(StoreName)) == Items(s, InputsKey(StoreName)) + Reprs(ds)
      && Items(r.store, OutputsKey(StoreName)) == Items(s, OutputsKey(StoreName)) + r.keys
    decreases |ds|
  {
    if ds != [] {
      var first := CacheStore(s, ds[0], keySource);
      var rest := StoreAll(first.store, ds[1..], keySource);
      var r := StoreAll(s, ds, keySource);
      assert r.store == rest.store && r.keys == [first.key] + rest.keys;
      StoreAllHistory(first.store, ds[1..], keySource);
      StoreHistoryStep(s, ds[0], keySource);
      var ins, outs := Items(s, InputsKey(StoreName)), Items(s, OutputsKey(StoreName));
      AppendAssoc(ins, [ArgsRepr(ds[0])], Reprs(ds[1..]));
      AppendAssoc(outs, [first.key], rest.keys);
    }
  }

  /** None of `keys` was in use in `s`, and none has a colon. */
  predicate UnusedKeys(s: Store, keys: seq<string>) {
    forall i :: 0 <= i < |keys| ==> !InUse(s, keys[i]) && ':' !in keys[i]
  }

  predicate Distinct(keys: seq<string>) {
    forall i, j :: 0 <= i < j < |keys| ==> keys[i] != keys[j]
  }

  /**
   * The keys n `store` calls return are distinct, were unused before the first call and
   * contain no colon.
   */
  lemma {:induction false} StoreAllKeys(s: Store, ds: seq<Data>, keySource: Store -> string)
    requires FreshKeySource(keySource)
    ensures UnusedKeys(s, StoreAll(s, ds, keySource).keys)
    ensures Distinct(StoreAll(s, ds, keySource).keys)
    decreases |ds|
  {
    if ds != [] {
      var first := CacheStore(s, ds[0], keySource);
      var rest := StoreAll(first.store, ds[1..], keySource);
      var r := StoreAll(s, ds, keySource);
      StoreAllKeys(first.store, ds[1..], keySource);
      assert r.keys == [first.key] + rest.keys;
      assert InUse(first.store, first.key);
      forall i | 0 <= i < |ds|
        ensures !InUse(s, r.keys[i]) && ':' !in r.keys[i]
      {
        if i == 0 {
          assert r.keys[i] == first.key;
        } else {
          var k := rest.keys[i - 1];
          assert r.keys[i] == k;
          assert !InUse(first.store, k) && ':' !in k;
          assert InUse(s, k) ==> InUse(first.store, k);
        }
      }
      forall i, j | 0 <= i < j < |ds|
        ensures r.keys[i] != r.keys[j]
      {
        var kj := rest.keys[j - 1];
        assert r.keys[j] == kj && !InUse(first.store, kj);
        if i == 0 {
          assert r.keys[i] == first.key;
        } else {
          assert r.keys[i] == rest.keys[i - 1];
        }
      }
    }
  }

  /** n `store` calls leave every key that has no colon and was not returned as it was. */
  lemma {:induction false} StoreAllFrame(s: Store, ds: seq<Data>, keySource: Store -> string)
    requires FreshKeySource(keySource)
    ensures var r := StoreAll(s, ds, keySource);
      forall k :: ':' !in k && k !in r.keys ==> SameAt(s, r.store, k)
    decreases |ds|
  {
    if ds != [] {
      var first := CacheStore(s, ds[0], keySource);
      var rest := StoreAll(first.store, ds[1..], keySource);
      var r := StoreAll(s, ds, keySource);
      StoreAllFrame(first.store, ds[1..], keySource);
      assert r.keys == [first.key] + rest.keys && r.store == rest.store;
      forall k | ':' !in k && k !in r.keys
        ensures SameAt(s, r.store, k)
      {
        StoreFrame(s, ds[0], keySource, k);
        SameAtTransitive(s, first.store, rest.store, k);
      }
    }
  }

  /** Each of `keys` reads back the encoding of the data at the same position. */
  predicate ReadsBack(s: Store, keys: seq<string>, ds: seq<Data>) {
    |keys| == |ds| && forall i :: 0 <= i < |ds| ==> Lookup(s, keys[i]) == Some(Encode(ds[i]))
  }

  /** Each key n `store` calls return reads back the data of its own call. */
  lemma {:induction false} StoreAllReadBack(s: Store, ds: seq<Data>, keySource: Store -> string)
    requires FreshKeySource(keySource)
    ensures ReadsBack(StoreAll(s, ds, keySource).store, StoreAll(s, ds, keySource).keys, ds)
    decreases |ds|
  {
    if ds != [] {
      var first := CacheStore(s, ds[0], keySource);
      var rest := StoreAll(first.store, ds[1..], keySource);
      var r := StoreAll(s, ds, keySource);
      assert r.keys == [first.key] + rest.keys && r.store == rest.store;
      StoreAllReadBack(first.store, ds[1..], keySource);
      StoreAllKeys(first.store, ds[1..], keySource);
      StoreAllFrame(first.store, ds[1..], keySource);
      assert InUse(first.store, first.key);
      assert first.key !in rest.keys;
      assert SameAt(first.store, rest.store, first.key);
      assert Lookup(first.store, first.key) == Some(Encode(ds[0]));
      forall i | 0 <= i < |ds|
        ensures Lookup(r.store, r.keys[i]) == Some(Encode(ds[i]))
      {
        if i > 0 {
          assert r.keys[i] == rest.keys[i - 1] && ds[i] == ds[1..][i - 1];
        }
      }
    }
  }

  /**
   * Straight after construction, n `store` calls leave the counter at n and both history
   * lists with n elements: the printed arguments and the returned keys, in call order.
   */
  lemma HistoryAfterConstruction(s: Store, ds: seq<Data>, keySource: Store -> string)
    requires FreshKeySource(keySource)
    ensures var r := StoreAll(NewCache(s), ds, keySource);
      && Count(r.store, CallsKey(StoreName)) == |ds|
      && Items(r.store, InputsKey(StoreName)) == Reprs(ds)
      && Items(r.store, OutputsKey(StoreName)) == r.keys
      && Lockstep(r.store, StoreName)
  {
    var c := NewCache(s);
    StoreAllHistory(c, ds, keySource);
    assert Items(c, InputsKey(StoreName)) == [] && Items(c, OutputsKey(StoreName)) == [];
  }

  // ---------------------------------------------------------------------------------------
  // Cache.replay

  /** One "Call i:" block of the transcript. */
  datatype Line = Line(number: nat, input: string, output: string)

  function Min(a: nat, b: nat): nat {
    if a <= b then a else b
  }

  /**
   * `replay(method)`: read the method's two lists and pair them by position, numbering the
   * calls from 1; extra elements of the longer list are dropped, and no history gives an
   * empty transcript.
   */
  method Replay(s: Store, name: string) returns (transcript: seq<Line>)
    ensures |transcript| == Min(|Items(s, InputsKey(name))|, |Items(s, OutputsKey(name))|)
    ensures forall i :: 0 <= i < |transcript| ==>
      transcript[i] == Line(i + 1, Items(s, InputsKey(name))[i], Items(s, OutputsKey(name))[i])
  {
    var inputs := Items(s, InputsKey(name));
    var outputs := Items(s, OutputsKey(name));
    transcript := [];
    var i := 0;
    while i < |inputs| && i < |outputs|
      invariant i <= |inputs| && i <= |outputs|
      invariant |transcript| == i
      invariant forall j :: 0 <= j < i ==> transcript[j] == Line(j + 1, inputs[j], outputs[j])
    {
      transcript := transcript + [Line(i + 1, inputs[i], outputs[i])];
      i := i + 1;
    }
  }

  /**
   * Construct the cache, store `ds` one by one, replay `store`: one line per call, numbered
   * from 1, pairing each call's printed arguments with the key it returned.
   */
  method ReplayAfterStores(s: Store, ds: seq<Data>, keySource: Store -> string)
    returns (keys: seq<string>, transcript: seq<Line>)
    requires FreshKeySource(keySource)
    ensures keys == StoreAll(NewCache(s), ds, keySource).keys
    ensures |keys| == |ds| && |transcript| == |ds|
    ensures forall i :: 0 <= i < |ds| ==> transcript[i] == Line(i + 1, ArgsRepr(ds[i]), keys[i])
    ensures forall i :: 0 <= i < |ds| ==> Get(StoreAll(NewCache(s), ds, keySource).store, keys[i]) == Some(Encode(ds[i]))
  {
    var c := NewCache(s);
    var r := StoreAll(c, ds, keySource);
    StoreAllReadBack(c, ds, keySource);
    HistoryAfterConstruction(s, ds, keySource);
    ReprsAt(ds);
    keys := r.keys;
    transcript := Replay(r.store, StoreName);
  }

  lemma {:induction false} ReprsAt(ds: seq<Data>)
    ensures forall i :: 0 <= i < |ds| ==> Reprs(ds)[i] == ArgsRepr(ds[i])
    decreases |ds|
  {
    if ds != [] {
      ReprsAt(ds[1..]);
      assert Reprs(ds) == [ArgsRepr(ds[0])] + Reprs(ds[1..]);
    }
  }
}
