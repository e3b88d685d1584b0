/** The layered prompt store (asas_llm/prompts.py): the registry first, the copy it last
    gave second, the shipped file third. */
module PromptStore {
  import opened Wrappers

  datatype Prompt = Prompt(name: string, content: string, version: Option<int>, source: string)

  datatype Key = Key(name: string, tag: Option<string>, version: Option<int>)

  datatype Cached = Cached(prompt: Prompt, fetchedAt: real)

  /** Why a layer did not serve. */
  datatype Miss = Registry(error: string) | NoCopy | CopyDisabled | Local(error: string) | NoFallback

  datatype Settings = Settings(cacheTtl: real, staleOk: bool, logEvery: real)

  /** `tried` lists the layers in the order they were tried. */
  type Served = Result<Prompt, seq<Miss>>

  type Answer = Result<Prompt, string>

  datatype Store = Store(cache: map<Key, Cached>, lastLogged: map<string, real>)

  /** What one `get` did: what it served, whether it asked the registry, and logged. */
  datatype Turn = Turn(store: Store, served: Served, asked: bool, logged: bool)

  const EMPTY := Store(map[], map[])

  predicate IsFresh(cfg: Settings, cache: map<Key, Cached>, key: Key, now: real) {
    key in cache && now - cache[key].fetchedAt < cfg.cacheTtl
  }

  predicate LogDue(cfg: Settings, lastLogged: map<string, real>, name: string, now: real) {
    name !in lastLogged || now - lastLogged[name] >= cfg.logEvery
  }

  /** `_degraded`: the registry has failed with `error`. */
  function Degraded(cfg: Settings, cached: Option<Cached>, error: string, fallback: Option<Answer>): Served {
    if cached.Some? && cfg.staleOk then Ok(cached.value.prompt.(source := "cache"))
    else
      var tried := [Registry(error), if cached.None? then NoCopy else CopyDisabled];
      match fallback
      case None => Err(tried + [NoFallback])
      case Some(Ok(prompt)) => Ok(prompt)
      case Some(Err(e)) => Err(tried + [Local(e)])
  }

  /** `get` at `now`, given what the registry and the fallback would answer; `later` is
      the clock when a failure comes to be logged. */
  function GetTurn(
    cfg: Settings, s: Store, key: Key, now: real, later: real, registry: Answer, fallback: Option<Answer>): Turn
  {
    if IsFresh(cfg, s.cache, key, now) then Turn(s, Ok(s.cache[key].prompt), false, false)
    else if registry.Ok? then
      Turn(s.(cache := s.cache[key := Cached(registry.value, now)]), Ok(registry.value), true, false)
    else
      var cached := if key in s.cache then Some(s.cache[key]) else None;
      var served := Degraded(cfg, cached, registry.error, fallback);
      if served.Err? then Turn(s, served, true, false)
      else
        var logs := LogDue(cfg, s.lastLogged, key.name, later);
        Turn(Store(s.cache[key := Cached(served.value, now)],
               if logs then s.lastLogged[key.name := later] else s.lastLogged),
             served, true, logs)
  }

  /** `invalidate`, of one name or of all. */
  function Cleared(s: Store, name: Option<string>): Store {
    s.(cache := map key | key in s.cache && name.Some? && key.name != name.value :: s.cache[key])
  }

  // ---------------------------------------------------------------------------
  // The store as an object
  // ---------------------------------------------------------------------------

  /** Somewhere prompts are fetched from; what it answers may change from one request to
      the next. */
  class Source {
    const answers: (Key, nat) -> Answer
    var asked: nat

    constructor (answers: (Key, nat) -> Answer)
      ensures this.answers == answers && asked == 0
    {
      this.answers, asked := answers, 0;
    }

    method Get(key: Key) returns (r: Answer)
      modifies this
      ensures r == answers(key, old(asked)) && asked == old(asked) + 1
    {
      r := answers(key, asked);
      asked := asked + 1;
    }
  }

  class LayeredPromptStore {
    const cfg: Settings
    const primary: Source
    const fallback: Option<Source>
    var cache: map<Key, Cached>
    var lastLogged: map<string, real>

    constructor (cfg: Settings, primary: Source, fallback: Option<Source>)
      ensures this.cfg == cfg && this.primary == primary && this.fallback == fallback && Value() == EMPTY
    {
      this.cfg, this.primary, this.fallback, cache, lastLogged := cfg, primary, fallback, map[], map[];
    }

    function Value(): Store
      reads this
    {
      Store(cache, lastLogged)
    }

    ghost function Sources(): set<object> {
      {primary} + if fallback.Some? then {fallback.value} else {}
    }

    /** What the fallback would answer next. */
    function Shipped(key: Key): Option<Answer>
      reads if fallback.Some? then {fallback.value} else {}
    {
      if fallback.Some? then Some(fallback.value.answers(key, fallback.value.asked)) else None
    }

    /** `_log`, at most one line per name in `logEvery` seconds. */
    method Log(name: string, now: real) returns (logged: bool)
      modifies this`lastLogged
      ensures logged == LogDue(cfg, old(lastLogged), name, now)
      ensures lastLogged == if logged then old(lastLogged)[name := now] else old(lastLogged)
    {
      logged := name !in lastLogged || now - lastLogged[name] >= cfg.logEvery;
      if logged {
        lastLogged := lastLogged[name := now];
      }
    }

    method Degrade(key: Key, cached: Option<Cached>, error: string, later: real) returns (served: Served, logged: bool)
      requires fallback.Some? ==> fallback.value != primary
      modifies this`lastLogged, if fallback.Some? then {fallback.value} else {}
      ensures served == Degraded(cfg, cached, error, old(Shipped(key)))
      ensures logged == (served.Ok? && LogDue(cfg, old(lastLogged), key.name, later))
      ensures lastLogged == if logged then old(lastLogged)[key.name := later] else old(lastLogged)
    {
      logged := false;
      var tried := [Registry(error)];
      if cached.Some? && cfg.staleOk {
        logged := Log(key.name, later);
        return Ok(cached.value.prompt.(source := "cache")), logged;
      }
      tried := tried + [if cached.None? then NoCopy else CopyDisabled];
      assert tried == [Registry(error), if cached.None? then NoCopy else CopyDisabled];
      if fallback.Some? {
        var local := fallback.value.Get(key);
        if local.Err? {
          tried := tried + [Local(local.error)];
        } else {
          logged := Log(key.name, later);
          return Ok(local.value), logged;
        }
      } else {
        tried := tried + [NoFallback];
      }
      served := Err(tried);
    }

    method Get(key: Key, now: real, later: real) returns (served: Served, ghost logged: bool)
      requires fallback.Some? ==> fallback.value != primary
      modifies this, Sources()
      ensures var turn := GetTurn(cfg, old(Value()), key, now, later, primary.answers(key, old(primary.asked)),
                                  old(Shipped(key)));
              && Value() == turn.store && served == turn.served && logged == turn.logged
              && primary.asked == old(primary.asked) + if turn.asked then 1 else 0
    {
      if key in cache && now - cache[key].fetchedAt < cfg.cacheTtl {
        return Ok(cache[key].prompt), false;
      }
      var cached := if key in cache then Some(cache[key]) else None;
      var fetched := primary.Get(key);
      if fetched.Err? {
        served, logged := Degrade(key, cached, fetched.error, later);
        if served.Ok? {
          cache := cache[key := Cached(served.value, now)];
        }
        return;
      }
      cache := cache[key := Cached(fetched.value, now)];
      return Ok(fetched.value), false;
    }

    method Invalidate(name: Option<string>)
      modifies this`cache
      ensures Value() == Cleared(old(Value()), name)
    {
      if name.None? {
        cache := map[];
        return;
      }
      var left := cache.Keys;
      while left != {}
        invariant left <= old(cache).Keys && cache.Keys <= old(cache).Keys
        invariant forall key :: key in old(cache) ==> (key in cache <==> key in left || key.name != name.value)
        invariant forall key :: key in cache ==> cache[key] == old(cache)[key]
        decreases left
      {
        var key :| key in left;
        left := left - {key};
        if key.name == name.value {
          cache := cache - {key};
        }
      }
    }
  }

  // ---------------------------------------------------------------------------
  // Runs
  // ---------------------------------------------------------------------------

  /** One call, with what the sources would answer to it. */
  datatype Call =
    | Get(key: Key, now: real, later: real, registry: Answer, fallback: Option<Answer>)
    | Invalidate(name: Option<string>)

  function After(cfg: Settings, calls: seq<Call>): Store
    decreases |calls|, 0
  {
    if calls == [] then EMPTY
    else
      var last := |calls| - 1;
      match calls[last]
      case Invalidate(name) => Cleared(After(cfg, calls[..last]), name)
      case Get(_, _, _, _, _) => TurnOf(cfg, calls, last).store
  }

  /** What the `n`th call did. */
  function TurnOf(cfg: Settings, calls: seq<Call>, n: nat): Turn
    requires n < |calls| && calls[n].Get?
    decreases n, 1
  {
    var c := calls[n];
    GetTurn(cfg, After(cfg, calls[..n]), c.key, c.now, c.later, c.registry, c.fallback)
  }

  predicate Probes(cfg: Settings, calls: seq<Call>, n: nat, key: Key) {
    n < |calls| && calls[n].Get? && calls[n].key == key && TurnOf(cfg, calls, n).asked
  }

  /** The `n`th call asked the registry for `key` and was answered. */
  predicate Fetches(cfg: Settings, calls: seq<Call>, n: nat, key: Key) {
    Probes(cfg, calls, n, key) && calls[n].registry.Ok?
  }

  predicate Clears(c: Call, key: Key) {
    c.Invalidate? && (c.name.None? || c.name.value == key.name)
  }

  /** No clock reading is earlier than one in an earlier call. */
  predicate Monotone(calls: seq<Call>) {
    && (forall i, j :: 0 <= i <= j < |calls| && calls[i].Get? && calls[j].Get? ==> calls[i].now <= calls[j].now)
    && (forall i, j :: 0 <= i <= j < |calls| && calls[i].Get? && calls[j].Get? ==> calls[i].later <= calls[j].later)
  }
}
