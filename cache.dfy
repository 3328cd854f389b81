/**
 * The build cache of src/cache.ts.
 *
 * `createBuildCache(buildCallback)` closes over a map from key to the pair
 * (last input seen for that key, output the callback produced for it) and
 * hands back `getOrCompute(key, input)`. The callback is run only on a miss:
 * the key is absent, or its stored input differs from the new one.
 *
 * The callback is a deterministic function here; an `Err` stands for a
 * rejected promise (or a throw), which propagates out of the call before
 * anything is stored. Calls are sequential: the `await` is not interleaved.
 */
module BuildCache {
  import opened Wrappers

  /** One cache slot: the input that produced `output`. */
  datatype Entry = Entry(input: string, output: string)

  /** The `buildCallback` given to `createBuildCache`. */
  type Callback = (string, string) -> Result<string>

  /** A call of the callback, as recorded in the invocation log. */
  datatype Invocation = Invocation(key: string, input: string)

  /** A hit: the key has an entry whose input is exactly the new input. */
  predicate IsHit(entries: map<string, Entry>, key: string, input: string)
  {
    key in entries && entries[key].input == input
  }

  /** What one call does: the new map, what it hands back, and whether it ran the callback. */
  datatype Step = Step(entries: map<string, Entry>, result: Result<string>, invoked: bool)

  /** One call of `getOrCompute(key, input)` on the map `entries`. */
  function Call(entries: map<string, Entry>, build: Callback, key: string, input: string): (s: Step)
    // the callback runs exactly on a miss
    ensures s.invoked <==> !IsHit(entries, key, input)
    // a hit hands back the stored output and changes nothing
    ensures !s.invoked ==> s.result == Ok(entries[key].output) && s.entries == entries
    // a miss hands back what the callback produced
    ensures s.invoked ==> s.result == build(key, input)
    // after a successful call the slot holds the new input and the returned output
    ensures s.result.Ok? ==> key in s.entries && s.entries[key] == Entry(input, s.result.value)
    // a callback that throws leaves the map as it was
    ensures s.result.Err? ==> s.entries == entries
    // the key set only grows, and only by `key`
    ensures s.entries.Keys == entries.Keys + (if s.result.Ok? then {key} else {})
    // no other slot is touched
    ensures forall k :: k in entries && k != key ==> s.entries[k] == entries[k]
  {
    if IsHit(entries, key, input) then
      Step(entries, Ok(entries[key].output), false)
    else
      match build(key, input)
      case Ok(output) => Step(entries[key := Entry(input, output)], Ok(output), true)
      case Err(e) => Step(entries, Err(e), true)
  }

  /**
   * Every slot holds what the callback produces for the slot's key and input.
   * Since the callback is deterministic, this holds of every map a cache
   * builds from the empty one.
   */
  ghost predicate Consistent(entries: map<string, Entry>, build: Callback)
  {
    forall k :: k in entries ==> build(k, entries[k].input) == Ok(entries[k].output)
  }

  /** The cache is transparent: a consistent map answers what the callback would, and stays consistent. */
  lemma CallTransparent(entries: map<string, Entry>, build: Callback, key: string, input: string)
    requires Consistent(entries, build)
    ensures Call(entries, build, key, input).result == build(key, input)
    ensures Consistent(Call(entries, build, key, input).entries, build)
  {
  }

  /** A second call with the same key and input, right after a successful one, is a hit with the same answer. */
  lemma SecondCallHits(entries: map<string, Entry>, build: Callback, key: string, input: string)
    requires Call(entries, build, key, input).result.Ok?
    ensures var first := Call(entries, build, key, input);
            var second := Call(first.entries, build, key, input);
            !second.invoked && second.result == first.result && second.entries == first.entries
  {
  }

  /** The outcome of a run of sequential calls. */
  datatype Trace = Trace(entries: map<string, Entry>, results: seq<Result<string>>, invoked: seq<Invocation>)

  /** The calls `calls`, in order, starting from `entries`. */
  function Replay(entries: map<string, Entry>, build: Callback, calls: seq<Invocation>): (t: Trace)
    ensures |t.results| == |calls|
    ensures |t.invoked| <= |calls|
    ensures entries.Keys <= t.entries.Keys
    ensures forall j :: 0 <= j < |t.invoked| ==> t.invoked[j] in calls
    ensures forall k :: k in entries && (forall j :: 0 <= j < |calls| ==> calls[j].key != k) ==>
              t.entries[k] == entries[k]
    decreases |calls|
  {
    if calls == [] then Trace(entries, [], [])
    else
      var c := calls[|calls| - 1];
      var before := Replay(entries, build, calls[..|calls| - 1]);
      var s := Call(before.entries, build, c.key, c.input);
      Trace(s.entries, before.results + [s.result], before.invoked + if s.invoked then [c] else [])
  }

  /** Memoisation changes no answer: from a consistent map, every call returns what the callback would. */
  lemma {:induction false} ReplayTransparent(entries: map<string, Entry>, build: Callback, calls: seq<Invocation>)
    requires Consistent(entries, build)
    ensures Consistent(Replay(entries, build, calls).entries, build)
    ensures forall j :: 0 <= j < |calls| ==>
              Replay(entries, build, calls).results[j] == build(calls[j].key, calls[j].input)
    decreases |calls|
  {
    if calls != [] {
      var prefix := calls[..|calls| - 1];
      ReplayTransparent(entries, build, prefix);
      var before := Replay(entries, build, prefix);
      CallTransparent(before.entries, build, calls[|calls| - 1].key, calls[|calls| - 1].input);
    }
  }

  /** Repeating one successful call any number of times runs the callback at most once. */
  lemma {:induction false} RepeatedCallRunsCallbackOnce(entries: map<string, Entry>, build: Callback, c: Invocation, n: nat)
    requires build(c.key, c.input).Ok?
    ensures var t := Replay(entries, build, seq(n, _ => c));
            |t.invoked| <= 1 && (n > 0 ==> IsHit(t.entries, c.key, c.input))
    ensures n > 0 && IsHit(entries, c.key, c.input) ==> Replay(entries, build, seq(n, _ => c)).invoked == []
    decreases n
  {
    if n > 0 {
      var calls := seq(n, _ => c);
      assert calls[..n - 1] == seq(n - 1, _ => c);
      RepeatedCallRunsCallbackOnce(entries, build, c, n - 1);
      var before := Replay(entries, build, calls[..n - 1]);
      if n - 1 > 0 {
        assert IsHit(before.entries, c.key, c.input);
      }
    }
  }

  /** The state `createBuildCache` closes over, with the callback it was given. */
  class Cache {
    var entries: map<string, Entry>
    const build: Callback
    /** Every run of the callback, in order. */
    ghost var invocations: seq<Invocation>

    ghost predicate Valid()
      reads this
    {
      Consistent(entries, build)
    }

    /** `createBuildCache(build)`: an empty map, no callback run yet. */
    constructor (build: Callback)
      ensures Valid()
      ensures this.build == build && entries == map[] && invocations == []
    {
      this.build := build;
      entries := map[];
      invocations := [];
    }

    /** `getOrCompute(key, input)`, the closure `createBuildCache` returns. */
    method GetOrCompute(key: string, input: string) returns (r: Result<string>)
      requires Valid()
      modifies this
      ensures Valid()
      // the answer is always the callback's answer for (key, input)
      ensures r == build(key, input)
      ensures entries == Call(old(entries), build, key, input).entries
      // the callback is run once on a miss and never on a hit
      ensures invocations == old(invocations) + if IsHit(old(entries), key, input) then [] else [Invocation(key, input)]
      ensures r.Ok? ==> key in entries && entries[key] == Entry(input, r.value)
      ensures forall k :: k in old(entries) ==> k in entries
      ensures forall k :: k in old(entries) && k != key ==> entries[k] == old(entries)[k]
    {
      var cached := if key in entries then Some(entries[key]) else None;
      if cached.None? || cached.value.input != input {
        invocations := invocations + [Invocation(key, input)];
        var built := build(key, input);
        if built.Err? {
          return built;
        }
        entries := entries[key := Entry(input, built.value)];
        return Ok(built.value);
      }
      return Ok(cached.value.output);
    }
  }
}
