/** The Oracle client's versioned read cache (asas_oracle/cache.py and client.py): reads
    keyed by a version counter per resource, writes that raise the counters of the
    resources they make stale, before and after the server takes them. */
module OracleCache {
  import opened Wrappers

  /** One read as sent; its path, query and headers all go into the cache key. */
  datatype Request = Request(path: string, query: map<string, string>, headers: map<string, string>)

  datatype Key = VersionKey(resource: string) | BodyKey(resource: string, version: int, request: Request)

  datatype Body = Body(text: string, noItems: bool)

  /** A stored value: a counter, or a body with the number of changes the server had
      taken when it answered and the time it was stored. */
  datatype Cell = Count(count: int) | Page(body: Body, stamp: nat, stored: int)

  datatype Entry = Entry(expires: int, cell: Cell)

  type Values = map<Key, Entry>

  // ---------------------------------------------------------------------------
  // The store
  // ---------------------------------------------------------------------------

  function Live(values: Values, key: Key, now: int): Option<Cell> {
    if key in values && now < values[key].expires then Some(values[key].cell) else None
  }

  /** A look at a key drops its entry when that has expired. */
  function Swept(values: Values, key: Key, now: int): Values {
    if Live(values, key, now).None? then values - {key} else values
  }

  function Put(values: Values, key: Key, cell: Cell, ttl: int, now: int): Values {
    if ttl > 0 then values[key := Entry(now + ttl, cell)] else values
  }

  function CountAt(values: Values, key: Key, now: int): int {
    match Live(values, key, now)
    case Some(Count(n)) => n
    case _ => 0
  }

  function Incremented(values: Values, key: Key, ttl: int, now: int): Values {
    values[key := Entry(now + (if ttl > 1 then ttl else 1), Count(CountAt(values, key, now) + 1))]
  }

  // ---------------------------------------------------------------------------
  // The client
  // ---------------------------------------------------------------------------

  const DAY := 86_400

  /** What the host configured, and the server: what it answers after `n` changes. */
  datatype Pod = Pod(
    ttls: map<string, int>, staleOnWrite: map<string, seq<string>>, emptyTtl: int, configured: bool,
    answer: (nat, Request) -> Body)

  function TrimSlashes(path: string): string {
    if path != "" && path[0] == '/' then TrimSlashes(path[1..]) else path
  }

  function UpTo(text: string, stop: char): string {
    if text == "" || text[0] == stop then "" else [text[0]] + UpTo(text[1..], stop)
  }

  /** The first path segment, without a query. */
  function Resource(path: string): string {
    UpTo(UpTo(TrimSlashes(path), '/'), '?')
  }

  function Ttl(pod: Pod, resource: string): int {
    if resource in pod.ttls then pod.ttls[resource] else 0
  }

  /** An empty collection is kept for less. */
  function BodyTtl(pod: Pod, resource: string, body: Body): int {
    var ttl := Ttl(pod, resource);
    if body.noItems && pod.emptyTtl < ttl then pod.emptyTtl else ttl
  }

  function Stale(pod: Pod, path: string): seq<string> {
    if Resource(path) in pod.staleOnWrite then pod.staleOnWrite[Resource(path)] else []
  }

  ghost predicate IsLongest(ttls: map<string, int>, longest: int) {
    if ttls == map[] then longest == 0
    else longest in ttls.Values && forall ttl :: ttl in ttls.Values ==> ttl <= longest
  }

  lemma {:induction false} LongestIn(ttls: map<string, int>) returns (longest: int)
    ensures IsLongest(ttls, longest)
    decreases |ttls|
  {
    longest := 0;
    if ttls != map[] {
      var name :| name in ttls;
      var rest := ttls - {name};
      var other := LongestIn(rest);
      longest := if rest == map[] || other <= ttls[name] then ttls[name] else other;
      assert forall key :: key in ttls ==> key == name || rest[key] in rest.Values;
    }
  }

  ghost function Longest(pod: Pod): (longest: int)
    ensures IsLongest(pod.ttls, longest)
  {
    assert exists longest :: IsLongest(pod.ttls, longest) by { var longest := LongestIn(pod.ttls); }
    var longest :| IsLongest(pod.ttls, longest);
    longest
  }

  ghost function CounterTtl(pod: Pod): int {
    if Longest(pod) > DAY then Longest(pod) else DAY
  }

  function Normalised(path: string, params: map<string, Option<string>>, headers: map<string, string>): Request {
    Request(path,
      map["onlyData" := "true"] + map name | name in params && params[name].Some? :: params[name].value, headers)
  }

  predicate IsCached(pod: Pod, path: string, useCache: bool) {
    useCache && Ttl(pod, Resource(path)) > 0 && pod.configured
  }

  /** A read between two of its awaits; `under` is the key it will store under, if any. */
  datatype Read =
    | Versioning(request: Request)
    | Looking(request: Request, key: Key)
    | Fetching(request: Request, under: Option<Key>)
    | Storing(request: Request, key: Key, body: Body, stamp: nat)
    | Answered(request: Request, body: Body, stamp: nat)

  function BeginRead(
    pod: Pod, path: string, params: map<string, Option<string>>, headers: map<string, string>, useCache: bool): Read
  {
    var request := Normalised(path, params, headers);
    if IsCached(pod, path, useCache) then Versioning(request) else Fetching(request, None)
  }

  /** What a read does between two awaits: take the version into its key, look in the
      cache, take the server's answer, store it. */
  function MoveRead(pod: Pod, values: Values, now: int, server: nat, read: Read): (Values, Read) {
    match read
    case Versioning(request) =>
      var key := VersionKey(Resource(request.path));
      (Swept(values, key, now), Looking(request, BodyKey(key.resource, CountAt(values, key, now), request)))
    case Looking(request, key) =>
      (Swept(values, key, now),
       match Live(values, key, now)
       case Some(Page(body, stamp, _)) => Answered(request, body, stamp)
       case _ => Fetching(request, Some(key)))
    case Fetching(request, under) =>
      var body := pod.answer(server, request);
      (values, if under.Some? then Storing(request, under.value, body, server) else Answered(request, body, server))
    case Storing(request, key, body, stamp) =>
      (Put(values, key, Page(body, stamp, now), BodyTtl(pod, Resource(request.path), body), now),
       Answered(request, body, stamp))
    case Answered(_, _, _) => (values, read)
  }

  // ---------------------------------------------------------------------------
  // Concurrent reads and writes
  // ---------------------------------------------------------------------------

  /** A write that began when the server had taken `began` changes: raising counters,
      `k` of them done; then, the server having taken it as change `stamp`, again. */
  datatype Write =
    | Before(path: string, began: nat, k: nat)
    | Landed(path: string, began: nat, stamp: nat, k: nat)
    | Returned(path: string, began: nat, stamp: nat)

  /** A counter went to `version` when the server had taken `stamp` changes. */
  datatype Seal = Seal(resource: string, version: int, stamp: nat)

  datatype State = State(
    now: int, server: nat, cache: Values, readers: map<nat, Read>, writers: map<nat, Write>, seals: set<Seal>)

  datatype Action =
    | Advance(seconds: nat)
    | ForeignChange
    | Start(r: nat, path: string, params: map<string, Option<string>>, headers: map<string, string>, useCache: bool)
    | StepRead(r: nat)
    | FailRead(r: nat)
    | Write(w: nat, path: string)
    | Invalidate(w: nat)
    | Land(w: nat)
    | Reply(w: nat)
    | FailWrite(w: nat)

  const INITIAL := State(0, 0, map[], map[], map[], {})

  ghost predicate Enabled(pod: Pod, s: State, a: Action) {
    match a
    case Advance(_) => true
    case ForeignChange => true
    case Start(r, _, _, _, _) => r !in s.readers
    case StepRead(r) => r in s.readers && !s.readers[r].Answered?
    case FailRead(r) => r in s.readers && !s.readers[r].Answered?
    case Write(w, _) => w !in s.writers
    case Invalidate(w) =>
      && w in s.writers && !s.writers[w].Returned? && s.writers[w].k < |Stale(pod, s.writers[w].path)|
    case Land(w) => w in s.writers && s.writers[w].Before? && s.writers[w].k == |Stale(pod, s.writers[w].path)|
    case Reply(w) => w in s.writers && s.writers[w].Landed? && s.writers[w].k == |Stale(pod, s.writers[w].path)|
    case FailWrite(w) => w in s.writers && !s.writers[w].Returned?
  }

  /** The counter of `resource` goes up by one. */
  ghost function Raised(pod: Pod, s: State, resource: string): State {
    var key := VersionKey(resource);
    s.(cache := Incremented(s.cache, key, CounterTtl(pod), s.now),
       seals := s.seals + {Seal(resource, CountAt(s.cache, key, s.now) + 1, s.server)})
  }

  ghost function Apply(pod: Pod, s: State, a: Action): State
    requires Enabled(pod, s, a)
  {
    match a
    case Advance(seconds) => s.(now := s.now + seconds)
    case ForeignChange => s.(server := s.server + 1)
    case Start(r, path, params, headers, useCache) =>
      s.(readers := s.readers[r := BeginRead(pod, path, params, headers, useCache)])
    case StepRead(r) =>
      var (cache, read) := MoveRead(pod, s.cache, s.now, s.server, s.readers[r]);
      s.(cache := cache, readers := s.readers[r := read])
    case FailRead(r) => s.(readers := s.readers - {r})
    case Write(w, path) => s.(writers := s.writers[w := Before(path, s.server, 0)])
    case Invalidate(w) =>
      var write := s.writers[w];
      Raised(pod, s, Stale(pod, write.path)[write.k]).(writers := s.writers[w := write.(k := write.k + 1)])
    case Land(w) =>
      var write := s.writers[w];
      s.(server := s.server + 1, writers := s.writers[w := Landed(write.path, write.began, s.server + 1, 0)])
    case Reply(w) =>
      var write := s.writers[w];
      s.(writers := s.writers[w := Returned(write.path, write.began, write.stamp)])
    case FailWrite(w) => s.(writers := s.writers - {w})
  }

  ghost predicate Legal(pod: Pod, s: State, run: seq<Action>)
    decreases |run|
  {
    run == [] || (Enabled(pod, s, run[0]) && Legal(pod, Apply(pod, s, run[0]), run[1..]))
  }

  ghost function After(pod: Pod, s: State, run: seq<Action>): State
    requires Legal(pod, s, run)
    decreases |run|
  {
    if run == [] then s else After(pod, Apply(pod, s, run[0]), run[1..])
  }

  /** The counter of `resource`, once set, has not expired. */
  ghost predicate CounterLive(s: State, resource: string) {
    VersionKey(resource) in s.cache ==> s.now < s.cache[VersionKey(resource)].expires
  }

  /** The stated assumption: the counter of `resource` never expires on the way. */
  ghost predicate CounterHolds(pod: Pod, s: State, run: seq<Action>, resource: string)
    requires Legal(pod, s, run)
    decreases |run|
  {
    CounterLive(s, resource) && (run == [] || CounterHolds(pod, Apply(pod, s, run[0]), run[1..], resource))
  }
}
