/** What a caller of the layered prompt store can rely on, over every sequence of calls,
    outages and invalidations. */
module PromptProofs {
  import opened Wrappers
  import opened PromptStore

  /** The store after `n + 1` calls is what the `n`th call made of it after `n`. */
  lemma AfterNext(cfg: Settings, calls: seq<Call>, n: nat)
    requires n < |calls|
    ensures var before, s := After(cfg, calls[..n]), After(cfg, calls[..n + 1]);
            s == if calls[n].Get? then TurnOf(cfg, calls, n).store else Cleared(before, calls[n].name)
  {
    assert calls[..n + 1][..n] == calls[..n];
  }

  /** The `n`th call asked the registry for `key` and served something. */
  predicate Serves(cfg: Settings, calls: seq<Call>, n: nat, key: Key) {
    Probes(cfg, calls, n, key) && TurnOf(cfg, calls, n).served.Ok?
  }

  /** What the store holds for `key` after `n` calls. */
  function Held(cfg: Settings, calls: seq<Call>, n: nat, key: Key): Option<Cached>
    requires n <= |calls|
  {
    var cache := After(cfg, calls[..n]).cache;
    if key in cache then Some(cache[key]) else None
  }

  /** A copy is taken exactly when a call that asked served something, and lost exactly
      by an invalidation. */
  lemma HeldNext(cfg: Settings, calls: seq<Call>, n: nat, key: Key)
    requires n < |calls|
    ensures Held(cfg, calls, n + 1, key) ==
              if Clears(calls[n], key) then None
              else if Serves(cfg, calls, n, key) then Some(Cached(TurnOf(cfg, calls, n).served.value, calls[n].now))
              else Held(cfg, calls, n, key)
  {
    AfterNext(cfg, calls, n);
  }

  /** One call in terms of what is held for its key. */
  lemma TurnIs(cfg: Settings, calls: seq<Call>, n: nat)
    requires n < |calls| && calls[n].Get?
    ensures var c, held := calls[n], Held(cfg, calls, n, calls[n].key);
            var turn := TurnOf(cfg, calls, n);
            && turn.asked == !(held.Some? && c.now - held.value.fetchedAt < cfg.cacheTtl)
            && turn.served ==
                 if !turn.asked then Ok(held.value.prompt)
                 else if c.registry.Ok? then Ok(c.registry.value)
                 else Degraded(cfg, held, c.registry.error, c.fallback)
  {
  }

  /** Nothing but the mark of where it came from may change. */
  predicate SameCopy(served: Prompt, copy: Prompt) {
    served == copy || served == copy.(source := "cache")
  }

  predicate Undisturbed(cfg: Settings, calls: seq<Call>, i: nat, n: nat, key: Key) {
    forall k :: i < k < n && k < |calls| ==> !Clears(calls[k], key) && !Fetches(cfg, calls, k, key)
  }

  lemma {:induction false} CopyIsKept(cfg: Settings, calls: seq<Call>, i: nat, n: nat, key: Key)
    requires cfg.staleOk && i < n <= |calls| && Serves(cfg, calls, i, key) && Undisturbed(cfg, calls, i, n, key)
    ensures var held := Held(cfg, calls, n, key);
            held.Some? && SameCopy(held.value.prompt, TurnOf(cfg, calls, i).served.value)
    decreases n
  {
    HeldNext(cfg, calls, n - 1, key);
    if i < n - 1 {
      assert !Clears(calls[n - 1], key) && !Fetches(cfg, calls, n - 1, key);
      if Serves(cfg, calls, n - 1, key) { TurnIs(cfg, calls, n - 1); }
      CopyIsKept(cfg, calls, i, n - 1, key);
    }
  }

  // ---------------------------------------------------------------------------
  // Main results
  // ---------------------------------------------------------------------------

  /** With stale copies allowed: once a call has been served by the registry or by the
      shipped file, and until the next answer of the registry or an invalidation, no call
      for that key raises, and each that the registry does not answer itself serves the
      very copy that call was served. */
  lemma ServesTheLastCopy(cfg: Settings, calls: seq<Call>, i: nat, n: nat)
    requires cfg.staleOk && i < n < |calls| && calls[n].Get?
    requires Serves(cfg, calls, i, calls[n].key) && Undisturbed(cfg, calls, i, n, calls[n].key)
    ensures var turn := TurnOf(cfg, calls, n);
            && turn.served.Ok?
            && if Fetches(cfg, calls, n, calls[n].key) then turn.served.value == calls[n].registry.value
               else SameCopy(turn.served.value, TurnOf(cfg, calls, i).served.value)
  {
    CopyIsKept(cfg, calls, i, n, calls[n].key);
    TurnIs(cfg, calls, n);
  }

  predicate LastFetch(cfg: Settings, calls: seq<Call>, i: nat, n: nat, key: Key) {
    i < n && Fetches(cfg, calls, i, key) && Undisturbed(cfg, calls, i, n, key)
  }

  /** So after one answer of the registry and until invalidated, `get` never raises, and
      what it serves is the latest answer of the registry, its own included. */
  lemma {:induction false} NeverRaisesAfterAFetch(cfg: Settings, calls: seq<Call>, first: nat, n: nat)
    requires cfg.staleOk && first < n < |calls| && calls[n].Get? && Fetches(cfg, calls, first, calls[n].key)
    requires forall k :: first < k < n ==> !Clears(calls[k], calls[n].key)
    ensures var turn, key := TurnOf(cfg, calls, n), calls[n].key;
            && turn.served.Ok?
            && if Fetches(cfg, calls, n, key) then turn.served.value == calls[n].registry.value
               else exists i: nat ::
                 LastFetch(cfg, calls, i, n, key) && first <= i && SameCopy(turn.served.value, calls[i].registry.value)
    decreases n - first
  {
    var key := calls[n].key;
    if k :| first < k < n && Fetches(cfg, calls, k, key) {
      NeverRaisesAfterAFetch(cfg, calls, k, n);
    } else {
      assert LastFetch(cfg, calls, first, n, key);
      ServesTheLastCopy(cfg, calls, first, n);
    }
  }

  lemma {:induction false} WindowIsKept(cfg: Settings, calls: seq<Call>, i: nat, n: nat, key: Key)
    requires i < n <= |calls| && Serves(cfg, calls, i, key) && Monotone(calls)
    requires forall k :: i < k < n ==> !Clears(calls[k], key)
    ensures var held := Held(cfg, calls, n, key); held.Some? && held.value.fetchedAt >= calls[i].now
    decreases n
  {
    HeldNext(cfg, calls, n - 1, key);
    if i < n - 1 { WindowIsKept(cfg, calls, i, n - 1, key); }
  }

  /** Outage or not, a registry that was asked and something served is asked again for
      that key only a full window later, unless it is invalidated. */
  lemma OneProbePerWindow(cfg: Settings, calls: seq<Call>, i: nat, j: nat, key: Key)
    requires Monotone(calls) && i < j < |calls| && Serves(cfg, calls, i, key) && Probes(cfg, calls, j, key)
    requires forall k :: i < k < j ==> !Clears(calls[k], key)
    ensures calls[j].now - calls[i].now >= cfg.cacheTtl
  {
    WindowIsKept(cfg, calls, i, j, key);
    TurnIs(cfg, calls, j);
  }

  predicate Unasked(calls: seq<Call>, i: nat, n: nat, key: Key) {
    forall k :: i < k < n && k < |calls| ==> !Clears(calls[k], key) && !(calls[k].Get? && calls[k].key == key)
  }

  lemma {:induction false} EntryIsKept(cfg: Settings, calls: seq<Call>, i: nat, n: nat, key: Key)
    requires i < n <= |calls| && Unasked(calls, i, n, key) && calls[i].Get?
    ensures Held(cfg, calls, n, key) == Held(cfg, calls, i + 1, key)
    decreases n
  {
    HeldNext(cfg, calls, n - 1, key);
    if i < n - 1 {
      assert !Clears(calls[n - 1], key) && !(calls[n - 1].Get? && calls[n - 1].key == key);
      EntryIsKept(cfg, calls, i, n - 1, key);
    }
  }

  /** Exactly when the next call for a key asks again: when the call that last asked had
      nothing to serve, or its window is over. */
  lemma NextProbe(cfg: Settings, calls: seq<Call>, i: nat, j: nat, key: Key)
    requires Monotone(calls) && i < j < |calls| && Probes(cfg, calls, i, key) && Unasked(calls, i, j, key)
    requires calls[j].Get? && calls[j].key == key
    ensures Probes(cfg, calls, j, key) <==>
              TurnOf(cfg, calls, i).served.Err? || calls[j].now - calls[i].now >= cfg.cacheTtl
  {
    HeldNext(cfg, calls, i, key);
    EntryIsKept(cfg, calls, i, j, key);
    TurnIs(cfg, calls, i);
    TurnIs(cfg, calls, j);
    assert calls[i].now <= calls[j].now;
  }

  /** What a call that asked was given: the registry's answer, or the shipped file's. */
  predicate Given(c: Call, prompt: Prompt) {
    c.Get? && (c.registry == Ok(prompt) || (c.registry.Err? && c.fallback == Some(Ok(prompt))))
  }

  /** Call `i` asked for `key` and was given `prompt` at `at`. */
  predicate GivenAt(cfg: Settings, calls: seq<Call>, i: nat, key: Key, prompt: Prompt, at: real) {
    Probes(cfg, calls, i, key) && Given(calls[i], prompt) && calls[i].now == at
  }

  lemma {:induction false} EveryCopyWasGiven(cfg: Settings, calls: seq<Call>, n: nat, key: Key)
    requires !cfg.staleOk && n <= |calls| && Held(cfg, calls, n, key).Some?
    ensures var entry := Held(cfg, calls, n, key).value;
            exists i :: 0 <= i < n && GivenAt(cfg, calls, i, key, entry.prompt, entry.fetchedAt)
    decreases n
  {
    if n > 0 {
      HeldNext(cfg, calls, n - 1, key);
      if Serves(cfg, calls, n - 1, key) {
        TurnIs(cfg, calls, n - 1);
        assert GivenAt(cfg, calls, n - 1, key, TurnOf(cfg, calls, n - 1).served.value, calls[n - 1].now);
      } else {
        EveryCopyWasGiven(cfg, calls, n - 1, key);
      }
    }
  }

  /** With stale copies off, what is served was given, unaltered, by the registry or the
      shipped file to this call or to one less than a window ago. */
  lemma NothingStaleIsServed(cfg: Settings, calls: seq<Call>, n: nat)
    requires !cfg.staleOk && n < |calls| && calls[n].Get? && TurnOf(cfg, calls, n).served.Ok?
    ensures exists i, at :: 0 <= i <= n && GivenAt(cfg, calls, i, calls[n].key, TurnOf(cfg, calls, n).served.value, at)
              && (i == n || calls[n].now - at < cfg.cacheTtl)
  {
    var key, turn := calls[n].key, TurnOf(cfg, calls, n);
    TurnIs(cfg, calls, n);
    if turn.asked {
      assert GivenAt(cfg, calls, n, key, turn.served.value, calls[n].now);
    } else {
      EveryCopyWasGiven(cfg, calls, n, key);
    }
  }

  predicate LoggedSince(cfg: Settings, calls: seq<Call>, n: nat, name: string, since: real)
    requires n <= |calls|
  {
    var s := After(cfg, calls[..n]);
    name in s.lastLogged && s.lastLogged[name] >= since
  }

  lemma LoggedNext(cfg: Settings, calls: seq<Call>, k: nat, name: string, since: real)
    requires k < |calls| && LoggedSince(cfg, calls, k, name, since) && (calls[k].Get? ==> since <= calls[k].later)
    ensures LoggedSince(cfg, calls, k + 1, name, since)
  {
    AfterNext(cfg, calls, k);
  }

  lemma {:induction false} LogIsKept(cfg: Settings, calls: seq<Call>, i: nat, n: nat)
    requires i < n <= |calls| && Monotone(calls) && calls[i].Get? && TurnOf(cfg, calls, i).logged
    ensures LoggedSince(cfg, calls, n, calls[i].key.name, calls[i].later)
    decreases n
  {
    if i == n - 1 {
      AfterNext(cfg, calls, i);
    } else {
      LogIsKept(cfg, calls, i, n - 1);
      LoggedNext(cfg, calls, n - 1, calls[i].key.name, calls[i].later);
    }
  }

  /** An outage is logged at most once per name in `logEvery` seconds, invalidations and
      other keys of the name included. */
  lemma LogsAreSpaced(cfg: Settings, calls: seq<Call>, i: nat, j: nat)
    requires Monotone(calls) && i < j < |calls| && calls[i].Get? && calls[j].Get?
    requires calls[i].key.name == calls[j].key.name && TurnOf(cfg, calls, i).logged && TurnOf(cfg, calls, j).logged
    ensures calls[j].later - calls[i].later >= cfg.logEvery
  {
    LogIsKept(cfg, calls, i, j);
  }

  // ---------------------------------------------------------------------------
  // What the mark "cache" means
  // ---------------------------------------------------------------------------

  /** No source hands out a prompt that already carries the mark. */
  predicate Unmarked(calls: seq<Call>) {
    forall k :: 0 <= k < |calls| && calls[k].Get? ==>
      && (calls[k].registry.Ok? ==> calls[k].registry.value.source != "cache")
      && (calls[k].fallback.Some? && calls[k].fallback.value.Ok? ==> calls[k].fallback.value.value.source != "cache")
  }

  predicate Uncleared(calls: seq<Call>, i: nat, n: nat, key: Key) {
    forall k :: i < k < n && k < |calls| ==> !Clears(calls[k], key)
  }

  /** Call `i` filled the empty slot of `key`, and it has not been emptied since. */
  predicate Fills(cfg: Settings, calls: seq<Call>, i: nat, n: nat, key: Key) {
    i < n <= |calls| && Serves(cfg, calls, i, key) && Held(cfg, calls, i, key).None? && Uncleared(calls, i, n, key)
  }

  /** The registry answered some call for `key`, and the copy was not cleared. */
  ghost predicate HasFetch(cfg: Settings, calls: seq<Call>, n: nat, key: Key) {
    exists j: nat :: j < n && Fetches(cfg, calls, j, key) && Uncleared(calls, j, n, key)
  }

  lemma NothingHeldFirst(cfg: Settings, calls: seq<Call>, key: Key)
    ensures Held(cfg, calls, 0, key).None?
  {
    assert calls[..0] == [];
  }

  /** Every held copy goes back to the call that filled the empty slot. */
  lemma {:induction false} Origin(cfg: Settings, calls: seq<Call>, n: nat, key: Key) returns (i: nat)
    requires n <= |calls| && Held(cfg, calls, n, key).Some?
    ensures Fills(cfg, calls, i, n, key)
    decreases n
  {
    NothingHeldFirst(cfg, calls, key);
    if n > 0 {
      HeldNext(cfg, calls, n - 1, key);
      if Held(cfg, calls, n - 1, key).Some? {
        i := Origin(cfg, calls, n - 1, key);
      } else {
        i := n - 1;
      }
    }
  }

  lemma {:induction false} StaysHeld(cfg: Settings, calls: seq<Call>, j: nat, n: nat, key: Key)
    requires j < n <= |calls| && Serves(cfg, calls, j, key) && Uncleared(calls, j, n, key)
    ensures Held(cfg, calls, n, key).Some?
    decreases n
  {
    HeldNext(cfg, calls, n - 1, key);
    if j < n - 1 { StaysHeld(cfg, calls, j, n - 1, key); }
  }

  /** No uncleared answer is older than the call that filled the slot. */
  lemma FetchesFollowOrigin(cfg: Settings, calls: seq<Call>, i: nat, j: nat, n: nat, key: Key)
    requires Fills(cfg, calls, i, n, key) && j < n && Fetches(cfg, calls, j, key) && Uncleared(calls, j, n, key)
    ensures i <= j
  {
    if j < i {
      TurnIs(cfg, calls, j);
      StaysHeld(cfg, calls, j, i, key);
    }
  }

  /** A prompt served with the mark is a held copy. */
  lemma MarkedIsHeld(cfg: Settings, calls: seq<Call>, n: nat)
    requires Unmarked(calls) && n < |calls| && calls[n].Get?
    requires TurnOf(cfg, calls, n).served.Ok? && TurnOf(cfg, calls, n).served.value.source == "cache"
    ensures Held(cfg, calls, n, calls[n].key).Some? && !Fetches(cfg, calls, n, calls[n].key)
  {
    TurnIs(cfg, calls, n);
  }

  /** With stale copies allowed, a prompt served with the mark "cache" is the latest answer
      of the registry if and only if the registry answered the call that filled the empty
      slot or a later one; otherwise it is the shipped copy that call was given. */
  lemma CacheMarkIsLastGoodIff(cfg: Settings, calls: seq<Call>, n: nat) returns (i: nat)
    requires cfg.staleOk && Unmarked(calls) && n < |calls| && calls[n].Get?
    requires TurnOf(cfg, calls, n).served.Ok? && TurnOf(cfg, calls, n).served.value.source == "cache"
    ensures Fills(cfg, calls, i, n, calls[n].key)
    ensures var key, served := calls[n].key, TurnOf(cfg, calls, n).served.value;
            && (HasFetch(cfg, calls, n, key) <==>
                  calls[i].registry.Ok? || exists j: nat :: i < j < n && Fetches(cfg, calls, j, key))
            && (if HasFetch(cfg, calls, n, key)
                then exists j: nat ::
                  i <= j && LastFetch(cfg, calls, j, n, key) && SameCopy(served, calls[j].registry.value)
                else calls[i].fallback.Some? && calls[i].fallback.value.Ok?
                     && SameCopy(served, calls[i].fallback.value.value))
  {
    var key := calls[n].key;
    MarkedIsHeld(cfg, calls, n);
    i := Origin(cfg, calls, n, key);
    TurnIs(cfg, calls, i);
    forall j: nat | j < n && Fetches(cfg, calls, j, key) && Uncleared(calls, j, n, key)
      ensures i <= j
    {
      FetchesFollowOrigin(cfg, calls, i, j, n, key);
    }
    if j: nat :| i <= j < n && Fetches(cfg, calls, j, key) {
      assert Uncleared(calls, j, n, key);
      NeverRaisesAfterAFetch(cfg, calls, j, n);
    } else {
      assert !Fetches(cfg, calls, i, key);
      ServesTheLastCopy(cfg, calls, i, n);
    }
  }

  /** In particular always when no fallback is configured. */
  lemma CacheMarkWithoutFallback(cfg: Settings, calls: seq<Call>, n: nat)
    requires cfg.staleOk && Unmarked(calls) && n < |calls| && calls[n].Get?
    requires forall k :: 0 <= k < n && calls[k].Get? ==> calls[k].fallback.None?
    requires TurnOf(cfg, calls, n).served.Ok? && TurnOf(cfg, calls, n).served.value.source == "cache"
    ensures HasFetch(cfg, calls, n, calls[n].key)
  {
    var i := CacheMarkIsLastGoodIff(cfg, calls, n);
  }

  /** Nothing of `key` is held before call `first`: no call for it since the start or
      since the last clear. */
  predicate FirstCall(calls: seq<Call>, first: nat, key: Key) {
    && first < |calls| && calls[first].Get? && calls[first].key == key
    && exists c: int :: -1 <= c < first && (c >= 0 ==> Clears(calls[c], key))
         && forall k :: c < k < first ==> !(calls[k].Get? && calls[k].key == key)
  }

  lemma {:induction false} EmptySince(cfg: Settings, calls: seq<Call>, c: int, n: nat, key: Key)
    requires -1 <= c < n <= |calls| && (c >= 0 ==> Clears(calls[c], key))
    requires forall k :: c < k < n ==> !(calls[k].Get? && calls[k].key == key)
    ensures Held(cfg, calls, n, key).None?
    decreases n
  {
    NothingHeldFirst(cfg, calls, key);
    if n > 0 {
      HeldNext(cfg, calls, n - 1, key);
      if c < n - 1 { EmptySince(cfg, calls, c, n - 1, key); }
    }
  }

  /** And whenever the registry answered the first call since the last clear. */
  lemma CacheMarkAfterAFirstAnswer(cfg: Settings, calls: seq<Call>, first: nat, n: nat)
    requires first < n < |calls| && calls[n].Get? && FirstCall(calls, first, calls[n].key)
    requires calls[first].registry.Ok? && Uncleared(calls, first, n, calls[n].key)
    ensures HasFetch(cfg, calls, n, calls[n].key)
  {
    var key := calls[n].key;
    var c: int :| -1 <= c < first && (c >= 0 ==> Clears(calls[c], key))
      && forall k :: c < k < first ==> !(calls[k].Get? && calls[k].key == key);
    EmptySince(cfg, calls, c, first, key);
    TurnIs(cfg, calls, first);
    assert Fetches(cfg, calls, first, key);
  }

  /** The mark "cache" does not mean that the registry ever answered: a shipped file's
      copy is cached like an answer, and carries that mark from the next outage call on. */
  lemma CacheMarkWithoutAFetch(cfg: Settings, key: Key, prompt: Prompt, error: string)
    requires cfg.staleOk
    ensures exists calls: seq<Call> ::
              && |calls| == 2 && Monotone(calls) && calls[1].Get?
              && (forall n: nat :: !Fetches(cfg, calls, n, key))
              && TurnOf(cfg, calls, 1).served == Ok(prompt.(source := "cache"))
  {
    var wait := if cfg.cacheTtl > 0.0 then cfg.cacheTtl else 0.0;
    var down: Answer := Err(error);
    var calls := [Get(key, 0.0, 0.0, down, Some(Ok(prompt))), Get(key, wait, wait, down, Some(Ok(prompt)))];
    assert TurnOf(cfg, calls, 0).served == Ok(prompt);
    AfterNext(cfg, calls, 0);
    assert TurnOf(cfg, calls, 1).served == Ok(prompt.(source := "cache"));
    assert |calls| == 2 && Monotone(calls) && calls[1].Get?;
    assert forall n: nat :: !Fetches(cfg, calls, n, key);
  }

  // ---------------------------------------------------------------------------
  // Which layer serves
  // ---------------------------------------------------------------------------

  /** A call is served by the first layer that can: a copy still fresh, the registry, an
      older copy if those are allowed, the shipped file; it fails only if none can, and
      then says of each in turn why not. Whatever it got it keeps, a failure it does not. */
  lemma FirstLayerServes(cfg: Settings, calls: seq<Call>, n: nat)
    requires n < |calls| && calls[n].Get?
    ensures var s, turn := After(cfg, calls[..n]), TurnOf(cfg, calls, n);
            var Get(key, now, later, registry, fallback) := calls[n];
            if key in s.cache && now - s.cache[key].fetchedAt < cfg.cacheTtl then
              turn.served == Ok(s.cache[key].prompt) && turn.store == s && !turn.asked && !turn.logged
            else
              && turn.asked
              && (turn.served.Ok? ==> turn.store.cache == s.cache[key := Cached(turn.served.value, now)])
              && (turn.served.Err? ==> turn.store == s)
              && (registry.Ok? ==> turn.served == Ok(registry.value) && !turn.logged)
              && (registry.Err? ==>
                    && (turn.logged <==> turn.served.Ok? && (key.name !in s.lastLogged
                                                             || later - s.lastLogged[key.name] >= cfg.logEvery))
                    && (if key in s.cache && cfg.staleOk then
                          && turn.served.Ok? && turn.served.value.source == "cache"
                          && turn.served.value == s.cache[key].prompt.(source := "cache")
                        else if fallback.Some? && fallback.value.Ok? then turn.served == Ok(fallback.value.value)
                        else
                          turn.served == Err([Registry(registry.error), if key in s.cache then CopyDisabled else NoCopy,
                                              if fallback.None? then NoFallback else Local(fallback.value.error)])))
  {
    var c, s := calls[n], After(cfg, calls[..n]);
    if c.registry.Err? {
      var tried := [Registry(c.registry.error), if c.key in s.cache then CopyDisabled else NoCopy];
      assert tried + [NoFallback] == [tried[0], tried[1], NoFallback];
      if c.fallback.Some? && c.fallback.value.Err? {
        assert tried + [Local(c.fallback.value.error)] == [tried[0], tried[1], Local(c.fallback.value.error)];
      }
    }
  }
}
