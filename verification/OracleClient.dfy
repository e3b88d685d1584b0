/** The cache and the client as they run, other users of the cache free to run at every
    await (asas_oracle/cache.py and client.py). */
module OracleClient {
  import opened Wrappers
  import opened OracleCache
  import opened OraclePolicy
  import opened OracleProofs

  class MemoryCache {
    var values: Values

    constructor ()
      ensures values == map[]
    {
      values := map[];
    }

    /** `_live`: what the key holds, an expired entry dropped on the way. */
    method LookUp(key: Key, now: int) returns (r: Option<Cell>)
      modifies this
      ensures r == Live(old(values), key, now) && values == Swept(old(values), key, now)
    {
      if key !in values {
        return None;
      }
      if now >= values[key].expires {
        values := values - {key};
        return None;
      }
      r := Some(values[key].cell);
    }

    method Get(key: Key, now: int) returns (r: Option<Cell>)
      modifies this
      ensures values == Swept(old(values), key, now)
      ensures r == match Live(old(values), key, now)
                   case Some(Page(b, stamp, at)) => Some(Page(b, stamp, at))
                   case _ => None
    {
      r := LookUp(key, now);
      if r.Some? && !r.value.Page? {
        r := None;
      }
    }

    method Set(key: Key, value: Cell, ttl: int, now: int)
      modifies this
      ensures values == Put(old(values), key, value, ttl, now)
    {
      if ttl > 0 {
        values := values[key := Entry(now + ttl, value)];
      }
    }

    method GetInt(key: Key, now: int) returns (n: int)
      modifies this
      ensures n == CountAt(old(values), key, now) && values == Swept(old(values), key, now)
    {
      var value := LookUp(key, now);
      n := if value.Some? && value.value.Count? then value.value.count else 0;
    }

    method Incr(key: Key, ttl: int, now: int) returns (n: int)
      modifies this
      ensures n == CountAt(old(values), key, now) + 1
      ensures values == Incremented(old(values), key, ttl, now)
    {
      var before := GetInt(key, now);
      n := before + 1;
      values := values[key := Entry(now + (if ttl > 1 then ttl else 1), Count(n))];
    }
  }

  /** What a call meets on its way: what others make of the cache at its `n`th await, and
      the time, the server's changes and whether the server can be reached after that. */
  datatype Weather = Weather(
    others: (nat, Values) -> Values, time: nat -> int, server: nat -> nat, reached: nat -> bool)

  function AwaitsLeft(read: Read): nat {
    match read
    case Versioning(_) => 4
    case Looking(_, _) => 3
    case Fetching(_, _) => 2
    case Storing(_, _, _, _) => 1
    case Answered(_, _, _) => 0
  }

  /** `read` carried to its end, one move after each await; a server that cannot be
      reached ends it where it stands. */
  function RunRead(pod: Pod, w: Weather, values: Values, clock: nat, read: Read): (Values, nat, Read)
    decreases AwaitsLeft(read)
  {
    if read.Answered? then (values, clock, read)
    else
      var seen := w.others(clock, values);
      if read.Fetching? && !w.reached(clock) then (seen, clock + 1, read)
      else
        var (values', read') := MoveRead(pod, seen, w.time(clock), w.server(clock), read);
        RunRead(pod, w, values', clock + 1, read')
  }

  /** The weather is that of a run: before each of the moves of read `r`, others have
      taken the steps of the next gap, which leave `r` to its own. */
  ghost predicate IsWeatherOf(pod: Pod, w: Weather, s: State, clock: nat, r: nat, gaps: seq<seq<Action>>)
    decreases |gaps|
  {
    && r in s.readers
    && (s.readers[r].Answered? ||
        (&& gaps != [] && Legal(pod, s, gaps[0])
         && var t := After(pod, s, gaps[0]);
            && r in t.readers && t.readers[r] == s.readers[r]
            && w.others(clock, s.cache) == t.cache
            && w.time(clock) == t.now && w.server(clock) == t.server && w.reached(clock)
            && IsWeatherOf(pod, w, Apply(pod, t, StepRead(r)), clock + 1, r, gaps[1..])))
  }

  /** A read as the client carries it out, among others who take steps of their own, is
      part of a run: what holds of every run holds of it. */
  lemma {:induction false} ReadIsARun(pod: Pod, w: Weather, s: State, clock: nat, r: nat, gaps: seq<seq<Action>>)
    returns (run: seq<Action>)
    requires IsWeatherOf(pod, w, s, clock, r, gaps)
    ensures Legal(pod, s, run) && r in After(pod, s, run).readers
    ensures var (values, _, read) := RunRead(pod, w, s.cache, clock, s.readers[r]);
            read.Answered? && After(pod, s, run).cache == values && After(pod, s, run).readers[r] == read
    decreases |gaps|
  {
    run := [];
    if !s.readers[r].Answered? {
      var t := After(pod, s, gaps[0]);
      var next := Apply(pod, t, StepRead(r));
      var first := Then(pod, s, gaps[0], t, StepRead(r), next);
      var rest := ReadIsARun(pod, w, next, clock + 1, r, gaps[1..]);
      Concat(pod, s, first, rest);
      run := first + rest;
    }
  }

  /** A read that the caller does not let go by the cache, or whose resource is not cached,
      is the server's answer, if it can be reached, and leaves the cache to others. */
  lemma UncachedReads(
    pod: Pod, w: Weather, values: Values, clock: nat, path: string, params: map<string, Option<string>>,
    headers: map<string, string>, useCache: bool, resource: string)
    requires Names(path, resource) && !(useCache && CachesFor(pod, resource))
    ensures var request := Normalised(path, params, headers);
            var begun := BeginRead(pod, path, params, headers, useCache);
            var (values', clock', read) := RunRead(pod, w, values, clock, begun);
            && values' == w.others(clock, values) && clock' == clock + 1
            && (if w.reached(clock)
                then read == Answered(request, pod.answer(w.server(clock), request), w.server(clock))
                else !read.Answered?)
  {
    ResourceIs(path, resource);
    CachedIs(pod, path, useCache);
    var begun := BeginRead(pod, path, params, headers, useCache);
    var (seen, _, _) := RunRead(pod, w, values, clock, begun);
    if w.reached(clock) {
      var (values', read) := MoveRead(pod, w.others(clock, values), w.time(clock), w.server(clock), begun);
      assert RunRead(pod, w, values', clock + 1, read) == (values', clock + 1, read);
    }
  }

  /** The counters of `stale` raised one after the other. */
  ghost function RaiseAll(pod: Pod, w: Weather, values: Values, clock: nat, stale: seq<string>): (Values, nat)
    decreases |stale|
  {
    if stale == [] then (values, clock)
    else
      var raised := Incremented(w.others(clock, values), VersionKey(stale[0]), CounterTtl(pod), w.time(clock));
      RaiseAll(pod, w, raised, clock + 1, stale[1..])
  }

  /** Nobody else runs, and no time passes. */
  ghost predicate Idle(w: Weather, now: int) {
    (forall n: nat, values :: w.others(n, values) == values) && forall n: nat :: w.time(n) == now
  }

  ghost predicate RaisesEach(stale: seq<string>, before: Values, after: Values, now: int) {
    && (forall resource :: resource in stale ==>
          && VersionKey(resource) in after
          && CountAt(after, VersionKey(resource), now) > CountAt(before, VersionKey(resource), now))
    && (forall key: Key :: !(key.VersionKey? && key.resource in stale) ==>
          (key in after <==> key in before) && (key in before ==> after[key] == before[key]))
  }

  lemma {:induction false} RaiseAllRaises(
    pod: Pod, w: Weather, values: Values, clock: nat, stale: seq<string>, now: int)
    requires Idle(w, now)
    ensures RaisesEach(stale, values, RaiseAll(pod, w, values, clock, stale).0, now)
    decreases |stale|
  {
    if stale != [] {
      var raised := Incremented(values, VersionKey(stale[0]), CounterTtl(pod), now);
      assert w.others(clock, values) == values && w.time(clock) == now;
      RaiseAllRaises(pod, w, raised, clock + 1, stale[1..], now);
      RaisesFirst(stale, values, raised, RaiseAll(pod, w, raised, clock + 1, stale[1..]).0, now);
    }
  }

  lemma RaisesFirst(stale: seq<string>, before: Values, raised: Values, after: Values, now: int)
    requires stale != [] && RaisesEach(stale[..1], before, raised, now) && RaisesEach(stale[1..], raised, after, now)
    ensures RaisesEach(stale, before, after, now)
  {
    assert stale == stale[..1] + stale[1..];
    forall resource
      ensures CountAt(after, VersionKey(resource), now) >= CountAt(raised, VersionKey(resource), now)
      ensures CountAt(raised, VersionKey(resource), now) >= CountAt(before, VersionKey(resource), now)
    {
      if resource !in stale[1..] { assert VersionKey(resource) in after <==> VersionKey(resource) in raised; }
      if resource !in stale[..1] { assert VersionKey(resource) in raised <==> VersionKey(resource) in before; }
    }
  }

  /** The counter of every resource the write is declared to make stale is above what it
      was, and nothing else in the cache is different. */
  ghost predicate Raises(pod: Pod, path: string, before: Values, after: Values, now: int) {
    && (forall resource :: Displaces(pod, path, resource) ==>
          && VersionKey(resource) in after
          && CountAt(after, VersionKey(resource), now) > CountAt(before, VersionKey(resource), now))
    && (forall key: Key :: !(key.VersionKey? && Displaces(pod, path, key.resource)) ==>
          (key in after <==> key in before) && (key in before ==> after[key] == before[key]))
  }

  lemma RaisesDeclared(pod: Pod, path: string, before: Values, after: Values, now: int)
    requires RaisesEach(Stale(pod, path), before, after, now)
    ensures Raises(pod, path, before, after, now)
  {
    forall resource
      ensures resource in Stale(pod, path) <==> Displaces(pod, path, resource)
    {
      StaleIs(pod, path, resource);
    }
  }

  class Client {
    const pod: Pod
    const weather: Weather
    const cache: MemoryCache
    var clock: nat

    constructor (pod: Pod, weather: Weather, cache: MemoryCache)
      ensures this.pod == pod && this.weather == weather && this.cache == cache && clock == 0
    {
      this.pod, this.weather, this.cache, clock := pod, weather, cache, 0;
    }

    /** An await: others run, then the clock is read. */
    method Await() returns (at: nat)
      modifies this, cache
      ensures at == old(clock) && clock == at + 1 && cache.values == weather.others(at, old(cache.values))
    {
      at := clock;
      cache.values := weather.others(at, cache.values);
      clock := clock + 1;
    }

    method LongestTtl() returns (longest: int)
      ensures longest == Longest(pod)
    {
      longest := 0;
      var left := pod.ttls.Keys;
      while left != {}
        invariant left <= pod.ttls.Keys
        invariant left == pod.ttls.Keys ==> longest == 0
        invariant left != pod.ttls.Keys ==> exists name :: name in pod.ttls.Keys - left && longest == pod.ttls[name]
        invariant forall name :: name in pod.ttls.Keys - left ==> pod.ttls[name] <= longest
        decreases left
      {
        var name :| name in left;
        if left == pod.ttls.Keys || pod.ttls[name] > longest {
          longest := pod.ttls[name];
        }
        left := left - {name};
      }
      assert IsLongest(pod.ttls, longest) by {
        if pod.ttls != map[] { assert pod.ttls.Keys != {}; }
      }
    }

    /** `_invalidate`. */
    method Invalidate(path: string)
      modifies this, cache
      ensures (cache.values, clock) == RaiseAll(pod, weather, old(cache.values), old(clock), Stale(pod, path))
      ensures forall now :: Idle(weather, now) ==> Raises(pod, path, old(cache.values), cache.values, now)
    {
      var stale := Stale(pod, path);
      var longest := LongestTtl();
      for i := 0 to |stale|
        invariant RaiseAll(pod, weather, old(cache.values), old(clock), stale)
               == RaiseAll(pod, weather, cache.values, clock, stale[i..])
      {
        var at := Await();
        var n := cache.Incr(VersionKey(stale[i]), if longest > DAY then longest else DAY, weather.time(at));
        assert stale[i..][1..] == stale[i + 1..];
      }
      forall now | Idle(weather, now)
        ensures Raises(pod, path, old(cache.values), cache.values, now)
      {
        RaiseAllRaises(pod, weather, old(cache.values), old(clock), stale, now);
        RaisesDeclared(pod, path, old(cache.values), cache.values, now);
      }
    }

    /** `_cache_key`: the first move of a cached read. */
    method CacheKey(request: Request) returns (key: Key)
      modifies this, cache
      ensures RunRead(pod, weather, old(cache.values), old(clock), Versioning(request))
           == RunRead(pod, weather, cache.values, clock, Looking(request, key))
    {
      var resource := Resource(request.path);
      var at := Await();
      var version := cache.GetInt(VersionKey(resource), weather.time(at));
      key := BodyKey(resource, version, request);
    }

    /** The cache's part of `get`. */
    method Look(request: Request, key: Key) returns (found: Option<Body>)
      modifies this, cache
      ensures var whole := RunRead(pod, weather, old(cache.values), old(clock), Looking(request, key));
              match found
              case Some(body) =>
                whole.0 == cache.values && whole.1 == clock && whole.2.Answered? && whole.2.body == body
              case None => whole == RunRead(pod, weather, cache.values, clock, Fetching(request, Some(key)))
    {
      ghost var before := cache.values;
      var at := Await();
      var cached := cache.Get(key, weather.time(at));
      if cached.None? {
        return None;
      }
      var Page(body, stamp, _) := cached.value;
      assert MoveRead(pod, weather.others(at, before), weather.time(at), weather.server(at), Looking(request, key))
          == (cache.values, Answered(request, body, stamp));
      found := Some(body);
    }

    /** The server's part of `get`, and keeping its answer under `under`. */
    method Ask(request: Request, under: Option<Key>) returns (r: Result<Body, string>)
      modifies this, cache
      ensures var (values', clock', read) :=
                RunRead(pod, weather, old(cache.values), old(clock), Fetching(request, under));
              && cache.values == values' && clock == clock'
              && (r.Ok? <==> read.Answered?) && (r.Ok? ==> r.value == read.body)
    {
      ghost var whole := RunRead(pod, weather, cache.values, clock, Fetching(request, under));
      var at := Await();
      if !weather.reached(at) {
        return Err("unavailable");
      }
      var stamp := weather.server(at);
      var body := pod.answer(stamp, request);
      if under.Some? {
        assert whole == RunRead(pod, weather, cache.values, clock, Storing(request, under.value, body, stamp));
        var ttl := Ttl(pod, Resource(request.path));
        if body.noItems && pod.emptyTtl < ttl {
          ttl := pod.emptyTtl;
        }
        at := Await();
        cache.Set(under.value, Page(body, stamp, weather.time(at)), ttl, weather.time(at));
      }
      r := Ok(body);
    }

    /** `get`: exactly the moves of one read, others running at each await. */
    method Get(path: string, params: map<string, Option<string>>, headers: map<string, string>, useCache: bool)
      returns (r: Result<Body, string>)
      modifies this, cache
      ensures var begun := BeginRead(pod, path, params, headers, useCache);
              var (values', clock', read) := RunRead(pod, weather, old(cache.values), old(clock), begun);
              && cache.values == values' && clock == clock'
              && (r.Ok? <==> read.Answered?) && (r.Ok? ==> r.value == read.body)
    {
      var request := Normalised(path, params, headers);
      var under := None;
      if useCache && Ttl(pod, Resource(path)) > 0 && pod.configured {
        var key := CacheKey(request);
        under := Some(key);
        var cached := Look(request, key);
        if cached.Some? {
          return Ok(cached.value);
        }
      }
      r := Ask(request, under);
    }

    /** `post` and `patch`: the counters go up before the request, and again once the
        server has answered it. */
    method Write(path: string) returns (ok: bool)
      modifies this, cache
      ensures var (before, sent) := RaiseAll(pod, weather, old(cache.values), old(clock), Stale(pod, path));
              var seen := weather.others(sent, before);
              && ok == weather.reached(sent)
              && (cache.values, clock) ==
                   if ok then RaiseAll(pod, weather, seen, sent + 1, Stale(pod, path)) else (seen, sent + 1)
      ensures forall now :: Idle(weather, now) ==> Raises(pod, path, old(cache.values), cache.values, now)
    {
      Invalidate(path);
      var at := Await();
      ok := weather.reached(at);
      if ok {
        Invalidate(path);
      }
    }
  }
}
