/** How long the versioned read cache is fresh: exactly as long as its counters live. */
module OracleFreshness {
  import opened Wrappers
  import opened OracleCache
  import opened OraclePolicy
  import opened OracleProofs

  /** A read of `resource` that started after write `w` returned has answered. */
  ghost predicate ReadAfterWrite(
    pod: Pod, resource: string, first: seq<Action>, second: seq<Action>, w: nat, r: nat)
  {
    && Legal(pod, INITIAL, first) && Legal(pod, After(pod, INITIAL, first), second)
    && var s := After(pod, INITIAL, first);
       && w in s.writers && s.writers[w].Returned? && Displaces(pod, s.writers[w].path, resource) && r !in s.readers
       && HasRead(After(pod, s, second), r, resource)
  }

  /** In the first `seconds` of every run, every such read answers with what the server
      held once it had taken that write, or later. */
  ghost predicate FreshFor(pod: Pod, resource: string, seconds: int) {
    forall first, second, w, r :: ReadAfterWrite(pod, resource, first, second, w, r) ==>
      var s := After(pod, INITIAL, first);
      var s' := After(pod, s, second);
      s'.now <= seconds ==> s.writers[w].stamp <= s'.readers[r].stamp
  }

  /** A request `get` can send: it always says something about `onlyData`. */
  predicate IsSent(request: Request) {
    "onlyData" in request.query
  }

  /** What the server answers to `request` after `n` changes is kept: its resource is
      cached, and it has items or empty answers are kept too. */
  predicate IsKept(pod: Pod, n: nat, request: Request, resource: string) {
    IsSent(request) && CachesFor(pod, resource) && (pod.answer(n, request).noItems ==> pod.emptyTtl > 0)
  }

  ghost predicate KeepsNone(pod: Pod, resource: string) {
    forall n: nat, request: Request :: Names(request.path, resource) ==> !IsKept(pod, n, request, resource)
  }

  ghost predicate MadeStale(pod: Pod, resource: string) {
    exists written :: Displaces(pod, written, resource)
  }

  lemma KeptIs(pod: Pod, n: nat, request: Request)
    ensures Names(request.path, Resource(request.path))
    ensures IsKept(pod, n, request, Resource(request.path)) <==>
              && IsSent(request) && IsCached(pod, request.path, true)
              && BodyTtl(pod, Resource(request.path), pod.answer(n, request)) > 0
  {
    ResourceIs(request.path, Resource(request.path));
  }

  // ---------------------------------------------------------------------------
  // While the first counters live
  // ---------------------------------------------------------------------------

  /** No counter was set to expire before the first could. */
  ghost predicate LongLived(pod: Pod, s: State) {
    s.now >= 0 && forall key :: key in s.cache && key.VersionKey? ==> s.cache[key].expires >= CounterTtl(pod)
  }

  lemma LongLivedStep(pod: Pod, s: State, a: Action)
    requires Authentic(pod, s) && LongLived(pod, s) && Enabled(pod, s, a)
    ensures LongLived(pod, Apply(pod, s, a)) && s.now <= Apply(pod, s, a).now
  {
    if a.StepRead? { assert ReaderOk(pod, s, s.readers[a.r]); }
  }

  lemma {:induction false} LongLivedRun(pod: Pod, s: State, run: seq<Action>)
    requires Authentic(pod, s) && LongLived(pod, s) && Legal(pod, s, run)
    ensures LongLived(pod, After(pod, s, run)) && s.now <= After(pod, s, run).now
    decreases |run|
  {
    if run != [] {
      AuthenticStep(pod, s, run[0]);
      LongLivedStep(pod, s, run[0]);
      LongLivedRun(pod, Apply(pod, s, run[0]), run[1..]);
    }
  }

  lemma {:induction false} ShortRunsHold(pod: Pod, s: State, run: seq<Action>, resource: string)
    requires Authentic(pod, s) && LongLived(pod, s) && Legal(pod, s, run)
    requires After(pod, s, run).now < CounterTtl(pod)
    ensures CounterHolds(pod, s, run, resource)
    decreases |run|
  {
    LongLivedRun(pod, s, run);
    if run != [] {
      AuthenticStep(pod, s, run[0]);
      LongLivedStep(pod, s, run[0]);
      ShortRunsHold(pod, Apply(pod, s, run[0]), run[1..], resource);
    }
  }

  lemma FreshWhileShort(pod: Pod, resource: string, seconds: int)
    requires seconds < CounterTtl(pod)
    ensures FreshFor(pod, resource, seconds)
  {
    forall first, second, w, r | ReadAfterWrite(pod, resource, first, second, w, r)
      && After(pod, After(pod, INITIAL, first), second).now <= seconds
      ensures After(pod, INITIAL, first).writers[w].stamp
           <= After(pod, After(pod, INITIAL, first), second).readers[r].stamp
    {
      var s := After(pod, INITIAL, first);
      RunAuthentic(pod, INITIAL, first);
      LongLivedRun(pod, INITIAL, first);
      LongLivedRun(pod, s, second);
      ShortRunsHold(pod, INITIAL, first, resource);
      ShortRunsHold(pod, s, second, resource);
      ReadsSeeReturnedWrites(pod, first, second, w, r, resource);
    }
  }

  // ---------------------------------------------------------------------------
  // When no body is kept
  // ---------------------------------------------------------------------------

  predicate ReaderSends(pod: Pod, read: Read) {
    && IsSent(read.request)
    && (read.Answered? || read == Fetching(read.request, None) || IsCached(pod, read.request.path, true))
  }

  /** Nothing of `resource` is stored. */
  ghost predicate KeepsNothing(pod: Pod, s: State, resource: string) {
    && Authentic(pod, s)
    && (forall key :: key in s.cache && key.BodyKey? ==> key.resource != resource)
    && (forall r :: r in s.readers ==> ReaderSends(pod, s.readers[r]))
    && (forall w :: w in s.writers ==> WriterOk(s, s.writers[w]))
  }

  lemma NothingStep(pod: Pod, s: State, a: Action, resource: string)
    requires KeepsNone(pod, resource) && KeepsNothing(pod, s, resource) && Enabled(pod, s, a)
    ensures KeepsNothing(pod, Apply(pod, s, a), resource) && s.server <= Apply(pod, s, a).server
  {
    AuthenticStep(pod, s, a);
    if a.StepRead? {
      var read := s.readers[a.r];
      assert ReaderOk(pod, s, read) && ReaderSends(pod, read);
      if read.Storing? && read.key.resource == resource {
        KeptIs(pod, read.stamp, read.request);
        assert !IsKept(pod, read.stamp, read.request, resource);
      }
    }
    forall w | w in Apply(pod, s, a).writers ensures WriterOk(Apply(pod, s, a), Apply(pod, s, a).writers[w]) {
      if w in s.writers { assert WriterOk(s, s.writers[w]); }
    }
  }

  lemma {:induction false} NothingRun(pod: Pod, s: State, run: seq<Action>, resource: string)
    requires KeepsNone(pod, resource) && KeepsNothing(pod, s, resource) && Legal(pod, s, run)
    ensures KeepsNothing(pod, After(pod, s, run), resource)
    decreases |run|
  {
    if run != [] {
      NothingStep(pod, s, run[0], resource);
      NothingRun(pod, Apply(pod, s, run[0]), run[1..], resource);
    }
  }

  /** What a read of `resource` has from the server is at least as of change `stamp`. */
  predicate AsOf(read: Read, resource: string, stamp: nat) {
    Resource(read.request.path) == resource && (read.Storing? || read.Answered?) ==> stamp <= read.stamp
  }

  lemma AsOfStep(pod: Pod, s: State, a: Action, resource: string, r: nat, stamp: nat)
    requires KeepsNothing(pod, s, resource) && Enabled(pod, s, a)
    requires stamp <= s.server && (r in s.readers ==> AsOf(s.readers[r], resource, stamp))
    ensures r in Apply(pod, s, a).readers ==> AsOf(Apply(pod, s, a).readers[r], resource, stamp)
  {
    if a == StepRead(r) { assert ReaderOk(pod, s, s.readers[r]); }
  }

  lemma {:induction false} AsOfRun(pod: Pod, s: State, run: seq<Action>, resource: string, r: nat, stamp: nat)
    requires KeepsNone(pod, resource) && KeepsNothing(pod, s, resource) && Legal(pod, s, run)
    requires stamp <= s.server && (r in s.readers ==> AsOf(s.readers[r], resource, stamp))
    ensures r in After(pod, s, run).readers ==> AsOf(After(pod, s, run).readers[r], resource, stamp)
    decreases |run|
  {
    if run != [] {
      NothingStep(pod, s, run[0], resource);
      AsOfStep(pod, s, run[0], resource, r, stamp);
      AsOfRun(pod, Apply(pod, s, run[0]), run[1..], resource, r, stamp);
    }
  }

  lemma FreshWithNothingKept(pod: Pod, resource: string, seconds: int)
    requires KeepsNone(pod, resource)
    ensures FreshFor(pod, resource, seconds)
  {
    forall first, second, w, r | ReadAfterWrite(pod, resource, first, second, w, r)
      ensures After(pod, INITIAL, first).writers[w].stamp
           <= After(pod, After(pod, INITIAL, first), second).readers[r].stamp
    {
      var s := After(pod, INITIAL, first);
      NothingRun(pod, INITIAL, first, resource);
      assert WriterOk(s, s.writers[w]);
      AsOfRun(pod, s, second, resource, r, s.writers[w].stamp);
      ResourceIs(After(pod, s, second).readers[r].request.path, resource);
    }
  }

  // ---------------------------------------------------------------------------
  // When a counter expires
  // ---------------------------------------------------------------------------

  function CountIn(names: seq<string>, name: string, n: nat): nat
    requires n <= |names|
  {
    if n == 0 then 0 else CountIn(names, name, n - 1) + if names[n - 1] == name then 1 else 0
  }

  lemma {:induction false} CountsSome(names: seq<string>, name: string)
    requires name in names
    ensures CountIn(names, name, |names|) > 0
  {
    var i :| 0 <= i < |names| && names[i] == name;
    for k := i + 1 to |names|
      invariant CountIn(names, name, k) > 0
    {
    }
  }

  ghost predicate SameBodies(a: Values, b: Values) {
    forall key: Key :: key.BodyKey? ==> (key in a <==> key in b) && (key in a ==> a[key] == b[key])
  }

  /** The counter of `resource` was raised `n` times just now. */
  ghost predicate RaisedBy(pod: Pod, s: State, s': State, resource: string, n: nat) {
    var key := VersionKey(resource);
    if n == 0 then (key in s'.cache <==> key in s.cache) && (key in s.cache ==> s'.cache[key] == s.cache[key])
    else key in s'.cache && s'.cache[key] == Entry(s.now + CounterTtl(pod), Count(CountAt(s.cache, key, s.now) + n))
  }

  /** `s'` is `s` after the first `k` counters of write `w` went up. */
  ghost predicate Raising(pod: Pod, s: State, s': State, w: nat, stale: seq<string>, resource: string, k: nat)
    requires k <= |stale|
  {
    && w in s.writers && !s.writers[w].Returned?
    && s' == s.(cache := s'.cache, seals := s'.seals, writers := s.writers[w := s.writers[w].(k := k)])
    && SameBodies(s.cache, s'.cache) && RaisedBy(pod, s, s', resource, CountIn(stale, resource, k))
  }

  lemma RaiseNext(pod: Pod, start: State, run: seq<Action>, s: State, mid: State, w: nat, resource: string, k: nat)
    returns (longer: seq<Action>, next: State)
    requires Reaches(pod, start, run, mid) && w in s.writers && k < |Stale(pod, s.writers[w].path)|
    requires Raising(pod, s, mid, w, Stale(pod, s.writers[w].path), resource, k)
    ensures Reaches(pod, start, longer, next)
            && Raising(pod, s, next, w, Stale(pod, s.writers[w].path), resource, k + 1)
  {
    var raised := Stale(pod, s.writers[w].path)[k];
    next := Raised(pod, mid, raised).(writers := mid.writers[w := mid.writers[w].(k := k + 1)]);
    longer := Then(pod, start, run, mid, Invalidate(w), next);
    assert next.writers == s.writers[w := s.writers[w].(k := k + 1)];
  }

  lemma RaiseEach(pod: Pod, start: State, run: seq<Action>, s: State, w: nat, resource: string)
    returns (longer: seq<Action>, next: State)
    requires Reaches(pod, start, run, s) && w in s.writers && !s.writers[w].Returned? && s.writers[w].k == 0
    ensures Reaches(pod, start, longer, next)
    ensures var stale := Stale(pod, s.writers[w].path); Raising(pod, s, next, w, stale, resource, |stale|)
  {
    longer, next := run, s;
    assert s.writers[w := s.writers[w].(k := 0)] == s.writers;
    for k := 0 to |Stale(pod, s.writers[w].path)|
      invariant Reaches(pod, start, longer, next)
                && Raising(pod, s, next, w, Stale(pod, s.writers[w].path), resource, k)
    {
      longer, next := RaiseNext(pod, start, longer, s, next, w, resource, k);
    }
  }

  /** `s'` is `s` after one undisturbed write, which raised the counter of `resource`
      `n` times before the request and `n` times after. */
  ghost predicate Wrote(pod: Pod, s: State, s': State, w: nat, path: string, resource: string, n: nat) {
    && s' == s.(server := s.server + 1, cache := s'.cache, seals := s'.seals,
                writers := s.writers[w := Returned(path, s.server, s.server + 1)])
    && SameBodies(s.cache, s'.cache) && RaisedBy(pod, s, s', resource, 2 * n)
  }

  lemma WriteOnce(pod: Pod, start: State, run: seq<Action>, s: State, w: nat, path: string, resource: string)
    returns (longer: seq<Action>, next: State, n: nat)
    requires Reaches(pod, start, run, s) && w !in s.writers && resource in Stale(pod, path)
    ensures Reaches(pod, start, longer, next) && Wrote(pod, s, next, w, path, resource, n)
    ensures n == CountIn(Stale(pod, path), resource, |Stale(pod, path)|) > 0
  {
    n := CountIn(Stale(pod, path), resource, |Stale(pod, path)|);
    CountsSome(Stale(pod, path), resource);
    var s1 := s.(writers := s.writers[w := Before(path, s.server, 0)]);
    longer := Then(pod, start, run, s, Write(w, path), s1);
    var s2;
    longer, s2 := RaiseEach(pod, start, longer, s1, w, resource);
    longer, next := LandAndReply(pod, start, longer, s2, w, resource, n);
    RaisesAdd(pod, s, s2, next, resource, n);
  }

  lemma RaisesAdd(pod: Pod, s: State, mid: State, s': State, resource: string, n: nat)
    requires n > 0 && mid.now == s.now && RaisedBy(pod, s, mid, resource, n) && RaisedBy(pod, mid, s', resource, n)
    ensures RaisedBy(pod, s, s', resource, 2 * n)
  {
  }

  lemma LandAndReply(pod: Pod, start: State, run: seq<Action>, s: State, w: nat, resource: string, n: nat)
    returns (longer: seq<Action>, next: State)
    requires Reaches(pod, start, run, s) && w in s.writers && s.writers[w].Before?
    requires var stale := Stale(pod, s.writers[w].path);
             s.writers[w].k == |stale| && n == CountIn(stale, resource, |stale|)
    ensures Reaches(pod, start, longer, next)
    ensures var write := s.writers[w];
            next == s.(server := s.server + 1, cache := next.cache, seals := next.seals,
                       writers := s.writers[w := Returned(write.path, write.began, s.server + 1)])
    ensures SameBodies(s.cache, next.cache) && RaisedBy(pod, s, next, resource, n)
  {
    var Before(path, began, _) := s.writers[w];
    var s1 := s.(server := s.server + 1, writers := s.writers[w := Landed(path, began, s.server + 1, 0)]);
    longer := Then(pod, start, run, s, Land(w), s1);
    var s2;
    longer, s2 := RaiseEach(pod, start, longer, s1, w, resource);
    next := s2.(writers := s2.writers[w := Returned(path, began, s.server + 1)]);
    longer := Then(pod, start, longer, s2, Reply(w), next);
    assert next.writers == s.writers[w := Returned(path, began, s.server + 1)];
  }

  /** `n` changes of the server's own. */
  lemma ForeignChanges(pod: Pod, n: nat) returns (run: seq<Action>, s: State)
    ensures Reaches(pod, INITIAL, run, s) && s == INITIAL.(server := n)
  {
    run, s := [], INITIAL;
    for k := 0 to n
      invariant Reaches(pod, INITIAL, run, s) && s == INITIAL.(server := k)
    {
      var next := INITIAL.(server := k + 1);
      run := Then(pod, INITIAL, run, s, ForeignChange, next);
      s := next;
    }
  }

  lemma ParamsOf(request: Request) returns (params: map<string, Option<string>>)
    requires IsSent(request)
    ensures Normalised(request.path, params, request.headers) == request
  {
    params := map name | name in request.query :: Some(request.query[name]);
  }

  /** A cached read starts and takes the version into its key. */
  lemma StartToLook(pod: Pod, start: State, run: seq<Action>, s: State, r: nat, request: Request)
    returns (longer: seq<Action>, next: State)
    requires Reaches(pod, start, run, s) && r !in s.readers && IsSent(request) && IsCached(pod, request.path, true)
    ensures Reaches(pod, start, longer, next)
    ensures var resource := Resource(request.path);
            next == s.(cache := Swept(s.cache, VersionKey(resource), s.now),
                       readers := s.readers[r := Looking(request, BodyKey(resource, Version(s, resource), request))])
  {
    var params := ParamsOf(request);
    var s1 := s.(readers := s.readers[r := Versioning(request)]);
    longer := Then(pod, start, run, s, Start(r, request.path, params, request.headers, true), s1);
    var resource := Resource(request.path);
    next := s.(cache := Swept(s.cache, VersionKey(resource), s.now),
               readers := s.readers[r := Looking(request, BodyKey(resource, Version(s, resource), request))]);
    longer := Then(pod, start, longer, s1, StepRead(r), next);
  }

  /** With nothing cached, a read gets as far as having its answer in hand. */
  lemma ReadUntilStoring(pod: Pod, n: nat, request: Request) returns (run: seq<Action>, s: State)
    requires IsSent(request) && IsCached(pod, request.path, true)
    ensures Reaches(pod, INITIAL, run, s)
    ensures var key := BodyKey(Resource(request.path), 0, request);
            s == INITIAL.(server := n, readers := map[0 := Storing(request, key, pod.answer(n, request), n)])
  {
    var key := BodyKey(Resource(request.path), 0, request);
    var s0, s1;
    run, s0 := ForeignChanges(pod, n);
    run, s1 := StartToLook(pod, INITIAL, run, s0, 0, request);
    assert s1.cache == map[];
    var s2 := s0.(readers := map[0 := Fetching(request, Some(key))]);
    run := Then(pod, INITIAL, run, s1, StepRead(0), s2);
    s := s0.(readers := map[0 := Storing(request, key, pod.answer(n, request), n)]);
    run := Then(pod, INITIAL, run, s2, StepRead(0), s);
  }

  /** A counter lives a day or the longest time to live, counted from its last raise, and
      starts over at 0, so its numbers come back. Whatever body of a resource some write
      makes stale is kept at all, and however briefly: a slow read that took it before the
      write can store it once the counter has expired, and a read started after the write
      returned answers with it, as soon as that time is over. */
  lemma ExpiredCounterServesOldBody(pod: Pod, written: string, n: nat, request: Request, resource: string)
    returns (first: seq<Action>, second: seq<Action>)
    requires Names(request.path, resource) && IsKept(pod, n, request, resource) && Displaces(pod, written, resource)
    ensures ReadAfterWrite(pod, resource, first, second, 0, 1)
    ensures var s, s' := After(pod, INITIAL, first), After(pod, After(pod, INITIAL, first), second);
            s'.now == CounterTtl(pod) && s'.readers[1].stamp == n < s.writers[0].stamp == n + 1
  {
    ResourceIs(request.path, resource);
    StaleIs(pod, written, resource);
    KeptIs(pod, n, request);
    var body := pod.answer(n, request);
    var key := BodyKey(resource, 0, request);
    var s0, s, m;
    first, s0 := ReadUntilStoring(pod, n, request);
    first, s, m := WriteOnce(pod, INITIAL, first, s0, 0, written, resource);
    var t := s.(now := CounterTtl(pod));
    second := Then(pod, s, [], s, Advance(CounterTtl(pod)), t);
    var u := t.(cache := Put(t.cache, key, Page(body, n, t.now), BodyTtl(pod, resource, body), t.now),
                readers := t.readers[0 := Answered(request, body, n)]);
    second := Then(pod, s, second, t, StepRead(0), u);
    assert Version(u, resource) == 0;
    var v;
    second, v := StartToLook(pod, s, second, u, 1, request);
    second := Then(pod, s, second, v, StepRead(1), Apply(pod, v, StepRead(1)));
  }

  // ---------------------------------------------------------------------------
  // Main results
  // ---------------------------------------------------------------------------

  /** Reads are fresh for `seconds` if and only if the first counter outlives that time,
      no write makes the resource stale, or no body of it is ever kept. */
  lemma FreshForIff(pod: Pod, resource: string, seconds: int, life: int)
    requires IsLife(pod, life)
    ensures FreshFor(pod, resource, seconds) <==>
              seconds < life || !MadeStale(pod, resource) || KeepsNone(pod, resource)
  {
    CounterTtlIs(pod, life);
    if seconds < life {
      FreshWhileShort(pod, resource, seconds);
    } else if KeepsNone(pod, resource) {
      FreshWithNothingKept(pod, resource, seconds);
    } else if MadeStale(pod, resource) {
      var written :| Displaces(pod, written, resource);
      var n: nat, request: Request :| Names(request.path, resource) && IsKept(pod, n, request, resource);
      var first, second := ExpiredCounterServesOldBody(pod, written, n, request, resource);
      assert ReadAfterWrite(pod, resource, first, second, 0, 1);
    }
  }

  /** Reads of a resource that some write makes stale are fresh for good if and only if
      no body of it is ever kept. */
  lemma AlwaysFreshIff(pod: Pod, resource: string)
    requires MadeStale(pod, resource)
    ensures (forall seconds :: FreshFor(pod, resource, seconds)) <==> KeepsNone(pod, resource)
  {
    var life := CounterTtl(pod);
    CounterTtlIs(pod, life);
    forall seconds ensures FreshFor(pod, resource, seconds) <==> seconds < life || KeepsNone(pod, resource) {
      FreshForIff(pod, resource, seconds, life);
    }
    assert FreshFor(pod, resource, life) <==> KeepsNone(pod, resource);
  }

  /** In the host's terms: if the server ever answers a read of it with items, or empty
      answers are kept too, that means the resource is not cached. */
  lemma AlwaysFreshIffUncached(pod: Pod, resource: string, n: nat, request: Request)
    requires MadeStale(pod, resource) && IsSent(request) && Names(request.path, resource)
    requires !pod.answer(n, request).noItems || pod.emptyTtl > 0
    ensures (forall seconds :: FreshFor(pod, resource, seconds)) <==> !CachesFor(pod, resource)
  {
    AlwaysFreshIff(pod, resource);
    if CachesFor(pod, resource) {
      assert IsKept(pod, n, request, resource);
    }
  }
}
