/** What the versioned read cache guarantees, over every interleaving of reads and
    writes, and where it needs its counters to live. */
module OracleProofs {
  import opened Wrappers
  import opened OracleCache
  import opened OraclePolicy

  // ---------------------------------------------------------------------------
  // Invariants
  // ---------------------------------------------------------------------------

  ghost predicate EntryOk(pod: Pod, s: State, key: Key)
    requires key in s.cache
  {
    var entry := s.cache[key];
    match key
    case VersionKey(_) => entry.cell.Count?
    case BodyKey(resource, _, request) =>
      && entry.cell.Page?
      && entry.cell.body == pod.answer(entry.cell.stamp, request) && entry.cell.stamp <= s.server
      && entry.cell.stored <= s.now && entry.expires == entry.cell.stored + BodyTtl(pod, resource, entry.cell.body)
      && BodyTtl(pod, resource, entry.cell.body) > 0
  }

  predicate KeyOf(key: Key, request: Request) {
    key.BodyKey? && key.request == request && key.resource == Resource(request.path)
  }

  ghost predicate ReaderOk(pod: Pod, s: State, read: Read) {
    match read
    case Versioning(_) => true
    case Looking(request, key) => KeyOf(key, request)
    case Fetching(request, under) => under.Some? ==> KeyOf(under.value, request)
    case Storing(request, key, body, stamp) =>
      KeyOf(key, request) && body == pod.answer(stamp, request) && stamp <= s.server
    case Answered(request, body, stamp) => body == pod.answer(stamp, request) && stamp <= s.server
  }

  /** Every stored or returned body is what the server answered to that very request. */
  ghost predicate Authentic(pod: Pod, s: State) {
    && (forall key :: key in s.cache ==> EntryOk(pod, s, key))
    && (forall r :: r in s.readers ==> ReaderOk(pod, s, s.readers[r]))
  }

  function Version(s: State, resource: string): int {
    CountAt(s.cache, VersionKey(resource), s.now)
  }

  /** A body fetched at `stamp` may stand under `version`: the counter had not got there
      before some change the body does not show. */
  predicate Fits(seals: set<Seal>, resource: string, version: int, stamp: nat) {
    forall seal :: seal in seals && seal.resource == resource && seal.version <= version ==> seal.stamp <= stamp
  }

  predicate SealOk(s: State, seal: Seal) {
    seal.version <= Version(s, seal.resource) && seal.stamp <= s.server
  }

  predicate Sealed(seals: set<Seal>, resource: string, stamp: nat) {
    exists seal :: seal in seals && seal.resource == resource && seal.stamp >= stamp
  }

  predicate CellFits(s: State, key: Key, resource: string) {
    key in s.cache && key.BodyKey? && key.resource == resource && s.cache[key].cell.Page? ==>
      key.version <= Version(s, resource) && Fits(s.seals, resource, key.version, s.cache[key].cell.stamp)
  }

  predicate KeyFits(s: State, key: Key, resource: string) {
    key.BodyKey? && key.resource == resource ==> key.version <= Version(s, resource)
  }

  predicate ReaderFits(s: State, read: Read, resource: string) {
    match read
    case Looking(_, key) => KeyFits(s, key, resource)
    case Fetching(_, under) => under.Some? ==> KeyFits(s, under.value, resource)
    case Storing(_, key, _, stamp) =>
      KeyFits(s, key, resource)
        && (key.BodyKey? && key.resource == resource ==> Fits(s.seals, resource, key.version, stamp))
    case _ => true
  }

  /** What the counters already raised for this write stand for. */
  predicate WriterSealed(pod: Pod, s: State, write: Write, resource: string) {
    var stale := Stale(pod, write.path);
    match write
    case Before(_, began, k) =>
      forall i :: 0 <= i < k && i < |stale| && stale[i] == resource ==> Sealed(s.seals, resource, began)
    case Landed(_, began, stamp, k) =>
      && (resource in stale ==> Sealed(s.seals, resource, began))
      && (forall i :: 0 <= i < k && i < |stale| && stale[i] == resource ==> Sealed(s.seals, resource, stamp))
    case Returned(_, began, stamp) =>
      resource in stale ==> Sealed(s.seals, resource, began) && Sealed(s.seals, resource, stamp)
  }

  predicate WriterOk(s: State, write: Write) {
    write.began <= s.server && (!write.Before? ==> write.stamp <= s.server)
  }

  ghost predicate Versioned(pod: Pod, s: State, resource: string) {
    && (forall seal :: seal in s.seals && seal.resource == resource ==> SealOk(s, seal))
    && (forall key :: key in s.cache ==> CellFits(s, key, resource))
    && (forall r :: r in s.readers ==> ReaderFits(s, s.readers[r], resource))
    && (forall w :: w in s.writers ==> WriterSealed(pod, s, s.writers[w], resource) && WriterOk(s, s.writers[w]))
  }

  lemma AuthenticStep(pod: Pod, s: State, a: Action)
    requires Authentic(pod, s) && Enabled(pod, s, a)
    ensures Authentic(pod, Apply(pod, s, a))
  {
    var s' := Apply(pod, s, a);
    forall key | key in s'.cache
      ensures EntryOk(pod, s', key)
    {
      if key in s.cache { assert EntryOk(pod, s, key); }
    }
    forall r | r in s'.readers
      ensures ReaderOk(pod, s', s'.readers[r])
    {
      if r in s.readers { assert ReaderOk(pod, s, s.readers[r]); }
    }
  }

  /** Nothing that matters to `resource` but its readers moved. */
  predicate SameCounter(s: State, s': State, resource: string) {
    && Version(s', resource) == Version(s, resource)
    && s'.seals == s.seals && s'.server >= s.server
    && (forall key :: key in s'.cache && key.BodyKey? ==> key in s.cache && s'.cache[key] == s.cache[key])
  }

  lemma SameCounterKeeps(pod: Pod, s: State, s': State, resource: string)
    requires Versioned(pod, s, resource) && SameCounter(s, s', resource)
    ensures forall seal :: seal in s'.seals && seal.resource == resource ==> SealOk(s', seal)
    ensures forall key :: key in s'.cache ==> CellFits(s', key, resource)
    ensures forall r :: r in s.readers ==> ReaderFits(s', s.readers[r], resource)
    ensures forall w :: w in s.writers ==> WriterSealed(pod, s', s.writers[w], resource) && WriterOk(s', s.writers[w])
  {
    forall seal | seal in s'.seals && seal.resource == resource ensures SealOk(s', seal) {
      assert SealOk(s, seal);
    }
    forall key | key in s'.cache ensures CellFits(s', key, resource) {
      if key.BodyKey? { assert CellFits(s, key, resource); }
    }
    forall r | r in s.readers ensures ReaderFits(s', s.readers[r], resource) {
      assert ReaderFits(s, s.readers[r], resource);
    }
    forall w | w in s.writers ensures WriterSealed(pod, s', s.writers[w], resource) && WriterOk(s', s.writers[w]) {
      assert WriterSealed(pod, s, s.writers[w], resource) && WriterOk(s, s.writers[w]);
    }
  }

  lemma ReadStep(pod: Pod, s: State, a: Action, resource: string)
    requires Authentic(pod, s) && Versioned(pod, s, resource) && Enabled(pod, s, a)
    requires a.Start? || a.FailRead? || (a.StepRead? && !s.readers[a.r].Storing?)
    requires CounterLive(s, resource)
    ensures Versioned(pod, Apply(pod, s, a), resource)
  {
    var s' := Apply(pod, s, a);
    assert SameCounter(s, s', resource);
    SameCounterKeeps(pod, s, s', resource);
    assert a.r in s.readers ==> ReaderOk(pod, s, s.readers[a.r]) && ReaderFits(s, s.readers[a.r], resource);
    if a.StepRead? && s.readers[a.r].Fetching? {
      forall seal | seal in s.seals && seal.resource == resource ensures seal.stamp <= s.server {
        assert SealOk(s, seal);
      }
    }
    assert a.r in s'.readers ==> ReaderFits(s', s'.readers[a.r], resource);
  }

  lemma StoreStep(pod: Pod, s: State, r: nat, resource: string)
    requires Authentic(pod, s) && Versioned(pod, s, resource) && r in s.readers && s.readers[r].Storing?
    ensures Versioned(pod, Apply(pod, s, StepRead(r)), resource)
  {
    var s' := Apply(pod, s, StepRead(r));
    var read := s.readers[r];
    assert ReaderOk(pod, s, read) && ReaderFits(s, read, resource);
    assert Version(s', resource) == Version(s, resource);
    var before := s'.(cache := s.cache);
    SameCounterKeeps(pod, s, before, resource);
    forall key | key in s'.cache ensures CellFits(s', key, resource) {
      assert key in s.cache ==> CellFits(s, key, resource);
    }
    forall q | q in s'.readers ensures ReaderFits(s', s'.readers[q], resource) {
      if q != r { assert ReaderFits(s, s.readers[q], resource); }
    }
    forall seal | seal in s'.seals && seal.resource == resource ensures SealOk(s', seal) {
      assert SealOk(s, seal);
    }
    forall w | w in s'.writers ensures WriterSealed(pod, s', s'.writers[w], resource) && WriterOk(s', s'.writers[w]) {
      assert WriterSealed(pod, s, s.writers[w], resource) && WriterOk(s, s.writers[w]);
    }
  }

  lemma PlainWriteStep(pod: Pod, s: State, a: Action, resource: string)
    requires Versioned(pod, s, resource) && Enabled(pod, s, a)
    requires a.ForeignChange? || a.Write? || a.Land? || a.Reply? || a.FailWrite?
    ensures Versioned(pod, Apply(pod, s, a), resource)
  {
    var s' := Apply(pod, s, a);
    SameCounterKeeps(pod, s, s', resource);
    if !a.ForeignChange? && a.w in s.writers {
      assert WriterSealed(pod, s, s.writers[a.w], resource) && WriterOk(s, s.writers[a.w]);
    }
    if !a.ForeignChange? && a.w in s'.writers {
      assert WriterSealed(pod, s', s'.writers[a.w], resource) && WriterOk(s', s'.writers[a.w]);
    }
  }

  lemma MoreSeals(fewer: set<Seal>, more: set<Seal>, resource: string, stamp: nat)
    requires fewer <= more && Sealed(fewer, resource, stamp)
    ensures Sealed(more, resource, stamp)
  {
    var seal :| seal in fewer && seal.resource == resource && seal.stamp >= stamp;
    assert seal in more;
  }

  lemma WriterKept(pod: Pod, s: State, s': State, write: Write, resource: string)
    requires WriterSealed(pod, s, write, resource) && WriterOk(s, write) && s.seals <= s'.seals && s.server <= s'.server
    ensures WriterSealed(pod, s', write, resource) && WriterOk(s', write)
  {
    forall stamp | Sealed(s.seals, resource, stamp) ensures Sealed(s'.seals, resource, stamp) {
      MoreSeals(s.seals, s'.seals, resource, stamp);
    }
  }

  /** Raising a counter: what stands under the old versions is out of reach from now on. */
  lemma RaiseStep(pod: Pod, s: State, w: nat, resource: string)
    requires Authentic(pod, s) && Versioned(pod, s, resource) && Enabled(pod, s, Invalidate(w))
             && CounterLive(s, resource)
    ensures Versioned(pod, Apply(pod, s, Invalidate(w)), resource)
  {
    var s' := Apply(pod, s, Invalidate(w));
    var write := s.writers[w];
    var raised := Stale(pod, write.path)[write.k];
    var seal := Seal(raised, Version(s, raised) + 1, s.server);
    assert s'.seals == s.seals + {seal};
    assert Version(s', resource) == Version(s, resource) + if raised == resource then 1 else 0;
    forall key | key in s'.cache ensures CellFits(s', key, resource) {
      if key in s.cache { assert CellFits(s, key, resource); }
    }
    forall r | r in s'.readers ensures ReaderFits(s', s'.readers[r], resource) {
      assert ReaderFits(s, s.readers[r], resource);
    }
    forall q | q in s'.seals && q.resource == resource ensures SealOk(s', q) {
      if q in s.seals { assert SealOk(s, q); }
    }
    forall v | v in s'.writers ensures WriterSealed(pod, s', s'.writers[v], resource) && WriterOk(s', s'.writers[v]) {
      WriterKept(pod, s, s', s.writers[v], resource);
      if v == w && raised == resource {
        assert seal in s'.seals;
      }
    }
  }

  lemma VersionedStep(pod: Pod, s: State, a: Action, resource: string)
    requires Authentic(pod, s) && Versioned(pod, s, resource) && Enabled(pod, s, a)
    requires CounterLive(s, resource) && CounterLive(Apply(pod, s, a), resource)
    ensures Versioned(pod, Apply(pod, s, a), resource)
  {
    if a.Advance? { SameCounterKeeps(pod, s, Apply(pod, s, a), resource); }
    else if a.StepRead? && s.readers[a.r].Storing? { StoreStep(pod, s, a.r, resource); }
    else if a.Invalidate? { RaiseStep(pod, s, a.w, resource); }
    else if a.ForeignChange? || a.Write? || a.Land? || a.Reply? || a.FailWrite? { PlainWriteStep(pod, s, a, resource); }
    else { ReadStep(pod, s, a, resource); }
  }

  lemma {:induction false} RunKeeps(pod: Pod, s: State, run: seq<Action>, resource: string)
    requires Authentic(pod, s) && Versioned(pod, s, resource) && Legal(pod, s, run)
             && CounterHolds(pod, s, run, resource)
    ensures Authentic(pod, After(pod, s, run)) && Versioned(pod, After(pod, s, run), resource)
    ensures CounterLive(After(pod, s, run), resource)
    decreases |run|
  {
    if run != [] {
      AuthenticStep(pod, s, run[0]);
      VersionedStep(pod, s, run[0], resource);
      RunKeeps(pod, Apply(pod, s, run[0]), run[1..], resource);
    }
  }

  lemma {:induction false} RunAuthentic(pod: Pod, s: State, run: seq<Action>)
    requires Authentic(pod, s) && Legal(pod, s, run)
    ensures Authentic(pod, After(pod, s, run))
    decreases |run|
  {
    if run != [] {
      AuthenticStep(pod, s, run[0]);
      RunAuthentic(pod, Apply(pod, s, run[0]), run[1..]);
    }
  }

  // ---------------------------------------------------------------------------
  // Reads that start after a counter was raised
  // ---------------------------------------------------------------------------

  /** What a read begun after `seal` works with is no older than it. */
  predicate NoOlder(read: Read, seal: Seal) {
    Resource(read.request.path) == seal.resource ==>
      match read
      case Versioning(_) => true
      case Looking(_, key) => key.BodyKey? && key.version >= seal.version
      case Fetching(_, under) => under.Some? ==> under.value.BodyKey? && under.value.version >= seal.version
      case Storing(_, _, _, stamp) => stamp >= seal.stamp
      case Answered(_, _, stamp) => stamp >= seal.stamp
  }

  lemma NoOlderStep(pod: Pod, s: State, a: Action, r: nat, seal: Seal)
    requires Authentic(pod, s) && Versioned(pod, s, seal.resource) && Enabled(pod, s, a)
    requires seal in s.seals && (r in s.readers ==> NoOlder(s.readers[r], seal))
    ensures var s' := Apply(pod, s, a); seal in s'.seals && (r in s'.readers ==> NoOlder(s'.readers[r], seal))
  {
    assert SealOk(s, seal);
    if a.StepRead? && a.r == r && s.readers[r].Looking? {
      var read := s.readers[r];
      assert ReaderOk(pod, s, read);
      if read.key in s.cache {
        assert EntryOk(pod, s, read.key) && CellFits(s, read.key, seal.resource);
      }
    }
  }

  lemma {:induction false} NoOlderRun(pod: Pod, s: State, run: seq<Action>, r: nat, seal: Seal)
    requires Authentic(pod, s) && Versioned(pod, s, seal.resource) && Legal(pod, s, run)
    requires CounterHolds(pod, s, run, seal.resource)
    requires seal in s.seals && (r in s.readers ==> NoOlder(s.readers[r], seal))
    ensures var s' := After(pod, s, run); r in s'.readers ==> NoOlder(s'.readers[r], seal)
    decreases |run|
  {
    if run != [] {
      AuthenticStep(pod, s, run[0]);
      VersionedStep(pod, s, run[0], seal.resource);
      NoOlderStep(pod, s, run[0], r, seal);
      NoOlderRun(pod, Apply(pod, s, run[0]), run[1..], r, seal);
    }
  }

  /** A read of `resource` has answered. */
  ghost predicate HasRead(s: State, r: nat, resource: string) {
    r in s.readers && s.readers[r].Answered? && Names(s.readers[r].request.path, resource)
  }

  lemma LaterReads(pod: Pod, first: seq<Action>, second: seq<Action>, resource: string, r: nat, stamp: nat)
    requires Legal(pod, INITIAL, first) && CounterHolds(pod, INITIAL, first, resource)
    requires Legal(pod, After(pod, INITIAL, first), second)
    requires CounterHolds(pod, After(pod, INITIAL, first), second, resource)
    requires r !in After(pod, INITIAL, first).readers
    requires Sealed(After(pod, INITIAL, first).seals, resource, stamp)
    requires HasRead(After(pod, After(pod, INITIAL, first), second), r, resource)
    ensures var s := After(pod, After(pod, INITIAL, first), second);
            var read := s.readers[r];
            stamp <= read.stamp <= s.server && read.body == pod.answer(read.stamp, read.request)
  {
    var s := After(pod, INITIAL, first);
    RunKeeps(pod, INITIAL, first, resource);
    var seal :| seal in s.seals && seal.resource == resource && seal.stamp >= stamp;
    NoOlderRun(pod, s, second, r, seal);
    ResourceIs(After(pod, s, second).readers[r].request.path, resource);
    RunAuthentic(pod, s, second);
    assert ReaderOk(pod, After(pod, s, second), After(pod, s, second).readers[r]);
  }

  // ---------------------------------------------------------------------------
  // Main results
  // ---------------------------------------------------------------------------

  /** A read started after a write returned, of a resource that write makes stale,
      answers with what the server held once it had taken that write or later, slow
      reads still in flight or not; given that resource's counter never expired. */
  lemma ReadsSeeReturnedWrites(pod: Pod, first: seq<Action>, second: seq<Action>, w: nat, r: nat, resource: string)
    requires Legal(pod, INITIAL, first) && CounterHolds(pod, INITIAL, first, resource)
    requires Legal(pod, After(pod, INITIAL, first), second)
    requires CounterHolds(pod, After(pod, INITIAL, first), second, resource)
    requires var s := After(pod, INITIAL, first);
             w in s.writers && s.writers[w].Returned? && Displaces(pod, s.writers[w].path, resource) && r !in s.readers
    requires HasRead(After(pod, After(pod, INITIAL, first), second), r, resource)
    ensures var s, s' := After(pod, INITIAL, first), After(pod, After(pod, INITIAL, first), second);
            var read := s'.readers[r];
            s.writers[w].stamp <= read.stamp <= s'.server && read.body == pod.answer(read.stamp, read.request)
  {
    var s := After(pod, INITIAL, first);
    RunKeeps(pod, INITIAL, first, resource);
    StaleIs(pod, s.writers[w].path, resource);
    assert WriterSealed(pod, s, s.writers[w], resource);
    LaterReads(pod, first, second, resource, r, s.writers[w].stamp);
  }

  /** A read started once a write has raised its counters the first time never answers
      with a body fetched before that write began, whatever becomes of the write. */
  lemma ReadsForgetWhatWritesDisplace(
    pod: Pod, first: seq<Action>, second: seq<Action>, w: nat, r: nat, resource: string)
    requires Legal(pod, INITIAL, first) && CounterHolds(pod, INITIAL, first, resource)
    requires Legal(pod, After(pod, INITIAL, first), second)
    requires CounterHolds(pod, After(pod, INITIAL, first), second, resource)
    requires var s := After(pod, INITIAL, first);
             && w in s.writers && Displaces(pod, s.writers[w].path, resource) && r !in s.readers
             && (s.writers[w].Before? ==> s.writers[w].k == |Stale(pod, s.writers[w].path)|)
    requires HasRead(After(pod, After(pod, INITIAL, first), second), r, resource)
    ensures var s, s' := After(pod, INITIAL, first), After(pod, After(pod, INITIAL, first), second);
            s.writers[w].began <= s'.readers[r].stamp
  {
    var s := After(pod, INITIAL, first);
    RunKeeps(pod, INITIAL, first, resource);
    StaleIs(pod, s.writers[w].path, resource);
    assert WriterSealed(pod, s, s.writers[w], resource);
    LaterReads(pod, first, second, resource, r, s.writers[w].began);
  }

  /** The key a read in flight looks or will store under. */
  function UnderKey(read: Read): Option<Key> {
    match read
    case Looking(_, key) => Some(key)
    case Fetching(_, under) => under
    case Storing(_, key, _, _) => Some(key)
    case _ => None
  }

  predicate Below(key: Key, resource: string, version: int) {
    key.BodyKey? && key.resource == resource ==> key.version < version
  }

  /** Raising a counter puts out of reach whatever is stored for that resource, and
      whatever reads in flight will still store: later reads look under the new version. */
  lemma RaisingPutsOutOfReach(pod: Pod, run: seq<Action>, w: nat)
    requires Legal(pod, INITIAL, run) && Enabled(pod, After(pod, INITIAL, run), Invalidate(w))
    requires var write := After(pod, INITIAL, run).writers[w];
             CounterHolds(pod, INITIAL, run, Stale(pod, write.path)[write.k])
    ensures var s := After(pod, INITIAL, run);
            var resource := Stale(pod, s.writers[w].path)[s.writers[w].k];
            var s' := Apply(pod, s, Invalidate(w));
            && Version(s', resource) == Version(s, resource) + 1
            && (forall key :: key in s'.cache ==> Below(key, resource, Version(s', resource)))
            && (forall r :: r in s'.readers && UnderKey(s'.readers[r]).Some? ==>
                  Below(UnderKey(s'.readers[r]).value, resource, Version(s', resource)))
  {
    var s := After(pod, INITIAL, run);
    var resource := Stale(pod, s.writers[w].path)[s.writers[w].k];
    var s' := Apply(pod, s, Invalidate(w));
    RunKeeps(pod, INITIAL, run, resource);
    assert Version(s', resource) == Version(s, resource) + 1;
    forall key | key in s'.cache ensures Below(key, resource, Version(s', resource)) {
      if key in s.cache { assert EntryOk(pod, s, key) && CellFits(s, key, resource); }
    }
    forall r | r in s'.readers && UnderKey(s'.readers[r]).Some?
      ensures Below(UnderKey(s'.readers[r]).value, resource, Version(s', resource))
    {
      assert ReaderFits(s, s.readers[r], resource);
    }
  }

  /** Expired counters or not, what the cache answers was stored less than its time to
      live ago, an empty collection less than the shorter time, by a read of the same
      path, query and headers. */
  lemma AnswersAreYoung(pod: Pod, run: seq<Action>, r: nat)
    requires Legal(pod, INITIAL, run)
    requires var s := After(pod, INITIAL, run);
             r in s.readers && s.readers[r].Looking? && Apply(pod, s, StepRead(r)).readers[r].Answered?
    ensures var s := After(pod, INITIAL, run);
            var Looking(request, key) := s.readers[r];
            var Answered(_, body, stamp) := Apply(pod, s, StepRead(r)).readers[r];
            && key in s.cache && s.cache[key].cell.Page? && key.BodyKey? && key.request == request
            && body == pod.answer(stamp, request)
            && Names(request.path, key.resource) && key.resource in pod.ttls
            && s.cache[key].cell.stored <= s.now < s.cache[key].cell.stored + pod.ttls[key.resource]
            && (body.noItems ==> s.now < s.cache[key].cell.stored + pod.emptyTtl)
  {
    RunAuthentic(pod, INITIAL, run);
    var s := After(pod, INITIAL, run);
    assert ReaderOk(pod, s, s.readers[r]);
    assert EntryOk(pod, s, s.readers[r].key);
    ResourceIs(s.readers[r].request.path, s.readers[r].key.resource);
  }

  /** How long a body of `resource` is kept, in the host's numbers. */
  function KeptFor(pod: Pod, resource: string, body: Body): int
    requires resource in pod.ttls
  {
    if body.noItems && pod.emptyTtl < pod.ttls[resource] then pod.emptyTtl else pod.ttls[resource]
  }

  /** A read that looks in the cache is answered from it if and only if a body is stored
      under its key and has been for less than its time; otherwise it asks the server. */
  lemma AnsweredFromCacheIff(pod: Pod, run: seq<Action>, r: nat)
    requires Legal(pod, INITIAL, run)
    requires var s := After(pod, INITIAL, run); r in s.readers && s.readers[r].Looking?
    ensures var s := After(pod, INITIAL, run);
            var Looking(request, key), read := s.readers[r], Apply(pod, s, StepRead(r)).readers[r];
            && (key in s.cache ==> s.cache[key].cell.Page? && key.BodyKey? && key.resource in pod.ttls)
            && (if key in s.cache
                   && s.now < s.cache[key].cell.stored + KeptFor(pod, key.resource, s.cache[key].cell.body)
                then read == Answered(request, s.cache[key].cell.body, s.cache[key].cell.stamp)
                else read == Fetching(request, Some(key)))
  {
    RunAuthentic(pod, INITIAL, run);
    var s := After(pod, INITIAL, run);
    assert ReaderOk(pod, s, s.readers[r]);
    if s.readers[r].key in s.cache { assert EntryOk(pod, s, s.readers[r].key); }
  }

  /** A read that has its answer stores it if and only if the host has its resource cached
      for some time and, should it be empty, keeps empty answers; nothing else is stored. */
  lemma StoresWhatIsKept(pod: Pod, run: seq<Action>, r: nat)
    requires Legal(pod, INITIAL, run)
    requires var s := After(pod, INITIAL, run); r in s.readers && s.readers[r].Storing?
    ensures var s := After(pod, INITIAL, run);
            var Storing(request, key, body, stamp), s' := s.readers[r], Apply(pod, s, StepRead(r));
            && Names(request.path, key.resource) && s'.readers[r] == Answered(request, body, stamp)
            && (if key.resource in pod.ttls && KeptFor(pod, key.resource, body) > 0 then
                  var expires := s.now + KeptFor(pod, key.resource, body);
                  s'.cache == s.cache[key := Entry(expires, Page(body, stamp, s.now))]
                else s'.cache == s.cache)
  {
    RunAuthentic(pod, INITIAL, run);
    var s := After(pod, INITIAL, run);
    assert ReaderOk(pod, s, s.readers[r]);
    ResourceIs(s.readers[r].request.path, s.readers[r].key.resource);
  }

  /** A read goes by the cache exactly if the caller allows it and the host has its resource
      cached; it is then keyed by the resource's version, its path, query and headers, and
      otherwise neither looks nor stores. */
  lemma ReadsBegin(
    pod: Pod, s: State, r: nat, path: string, params: map<string, Option<string>>, headers: map<string, string>,
    useCache: bool, resource: string)
    requires Enabled(pod, s, Start(r, path, params, headers, useCache)) && Names(path, resource)
    ensures var request := Normalised(path, params, headers);
            var s1 := Apply(pod, s, Start(r, path, params, headers, useCache));
            var key := BodyKey(resource, Version(s, resource), request);
            if useCache && CachesFor(pod, resource) then
              && s1.readers[r] == Versioning(request)
              && Apply(pod, s1, StepRead(r)).readers[r] == Looking(request, key)
            else
              && s1.readers[r] == Fetching(request, None)
              && Apply(pod, s1, StepRead(r)).readers[r] == Answered(request, pod.answer(s.server, request), s.server)
              && Apply(pod, s1, StepRead(r)).cache == s.cache
  {
    ResourceIs(path, resource);
    CachedIs(pod, path, useCache);
  }

  // ---------------------------------------------------------------------------
  // Runs put together
  // ---------------------------------------------------------------------------

  lemma {:induction false} Concat(pod: Pod, s: State, first: seq<Action>, second: seq<Action>)
    requires Legal(pod, s, first) && Legal(pod, After(pod, s, first), second)
    ensures Legal(pod, s, first + second)
    ensures After(pod, s, first + second) == After(pod, After(pod, s, first), second)
    decreases |first|
  {
    if first == [] {
      assert first + second == second;
    } else {
      Concat(pod, Apply(pod, s, first[0]), first[1..], second);
      assert (first + second)[1..] == first[1..] + second;
    }
  }

  ghost predicate Reaches(pod: Pod, start: State, run: seq<Action>, s: State) {
    Legal(pod, start, run) && After(pod, start, run) == s
  }

  lemma Then(pod: Pod, start: State, run: seq<Action>, s: State, a: Action, next: State) returns (longer: seq<Action>)
    requires Reaches(pod, start, run, s) && Enabled(pod, s, a) && Apply(pod, s, a) == next
    ensures Reaches(pod, start, longer, next)
  {
    assert [a][1..] == [];
    Concat(pod, start, run, [a]);
    longer := run + [a];
  }
}
