/** Runs that make more attempts of a delivery than MAX_ATTEMPTS, by overlap alone and by
    crashes alone. */
module OutboxRuns {
  import opened Wrappers
  import opened Outbox
  import opened OutboxProofs
  import opened OutboxAttempts

  /** A run from the start to `s` in which no pass holds a claim for more than `seconds`. */
  ghost predicate ReachesWithin(run: seq<Action>, s: State, seconds: int) {
    Legal(INITIAL, run) && Within(INITIAL, run, seconds) && After(INITIAL, run) == s
  }

  /** A timely run from the start to `s`. */
  ghost predicate Reaches(run: seq<Action>, s: State) {
    ReachesWithin(run, s, STALE_CLAIM_SECONDS)
  }

  predicate CrashFree(run: seq<Action>) {
    forall i :: 0 <= i < |run| ==> !run[i].Crash?
  }

  predicate FinishFree(run: seq<Action>) {
    forall i :: 0 <= i < |run| ==> !run[i].Finish?
  }

  lemma ThenWithin(run: seq<Action>, s: State, a: Action, next: State, seconds: int) returns (longer: seq<Action>)
    requires ReachesWithin(run, s, seconds) && Enabled(s, a) && Apply(s, a) == next && HoldsAtMost(next, seconds)
    ensures ReachesWithin(longer, next, seconds)
    ensures CrashFree(run) && !a.Crash? ==> CrashFree(longer)
    ensures FinishFree(run) && !a.Finish? ==> FinishFree(longer)
  {
    assert [a][1..] == [];
    EndsWithin(INITIAL, run, seconds);
    Concat(INITIAL, run, [a]);
    ConcatWithin(INITIAL, run, [a], seconds);
    longer := run + [a];
  }

  lemma Then(run: seq<Action>, s: State, a: Action, next: State) returns (longer: seq<Action>)
    requires Reaches(run, s) && Enabled(s, a) && Apply(s, a) == next && OnTime(next)
    ensures Reaches(longer, next)
    ensures CrashFree(run) && !a.Crash? ==> CrashFree(longer)
    ensures FinishFree(run) && !a.Finish? ==> FinishFree(longer)
  {
    longer := ThenWithin(run, s, a, next, STALE_CLAIM_SECONDS);
  }

  lemma {:induction false} EndsWithin(s: State, run: seq<Action>, seconds: int)
    requires Legal(s, run) && Within(s, run, seconds)
    ensures HoldsAtMost(After(s, run), seconds)
    decreases |run|
  {
    if run != [] { EndsWithin(Apply(s, run[0]), run[1..], seconds); }
  }

  ghost predicate NoneHolds(s: State) {
    forall p :: p in s.passes ==> !Holds(s.passes[p])
  }

  lemma Begin() returns (run: seq<Action>, s: State)
    ensures Reaches(run, s) && CrashFree(run) && FinishFree(run)
    ensures s == INITIAL.(rows := map[0 := NEW_DELIVERY])
  {
    s := Apply(INITIAL, Emit(0));
    run := Then([], INITIAL, Emit(0), s);
  }

  // ---------------------------------------------------------------------------
  // Overlap
  // ---------------------------------------------------------------------------

  /** The first `n` passes have read the row as new and wait for their turn. */
  ghost predicate AllRead(s: State, n: nat) {
    && s.rows == map[0 := NEW_DELIVERY] && s.tallies == map[]
    && forall p: nat :: (p in s.passes <==> p < n) && (p < n ==> s.passes[p] == Between([Scan(0, 0)]))
  }

  lemma OpenOne(run: seq<Action>, s: State, n: nat) returns (longer: seq<Action>, next: State)
    requires Reaches(run, s) && CrashFree(run) && AllRead(s, n)
    ensures Reaches(longer, next) && CrashFree(longer) && AllRead(next, n + 1)
  {
    assert Reclaimed(s.rows, s.now) == s.rows;
    assert Scans(s.rows, [0]) == [Scan(0, 0)];
    next := s.(passes := s.passes[n := Between([Scan(0, 0)])]);
    longer := Then(run, s, Open(n, [0]), next);
  }

  lemma OpenMany(n: nat) returns (run: seq<Action>, s: State)
    ensures Reaches(run, s) && CrashFree(run) && AllRead(s, n)
  {
    run, s := Begin();
    for k := 0 to n
      invariant Reaches(run, s) && CrashFree(run) && AllRead(s, k)
    {
      run, s := OpenOne(run, s, k);
    }
  }

  /** The first `k` of `n` such passes have had their turn and failed. */
  ghost predicate HaveFailed(s: State, k: nat, n: nat) {
    && s.rows.Keys == {0} && s.rows[0].status == Pending && s.rows[0].attempts == (if k == 0 then 0 else 1)
    && TallyOf(s, 0).made == k
    && NoneHolds(s)
    && forall p: nat :: k <= p < n ==> p in s.passes && s.passes[p] == Between([Scan(0, 0)])
  }

  lemma FailOne(run: seq<Action>, s: State, k: nat, n: nat, error: string) returns (longer: seq<Action>, next: State)
    requires Reaches(run, s) && CrashFree(run) && HaveFailed(s, k, n) && k < n
    ensures Reaches(longer, next) && CrashFree(longer) && HaveFailed(next, k + 1, n)
  {
    assert [Scan(0, 0)][1..] == [];
    var s1 := s.(rows := Claimed(s.rows, 0, s.now), passes := s.passes[k := InSend(Scan(0, 0), s.now, [])]);
    longer := Then(run, s, Claim(k), s1);
    var o := SendError(error);
    var s2 := s1.(passes := s.passes[k := InHand(Scan(0, 0), s.now, o, [])],
                  tallies := s.tallies[0 := Attempted(TallyOf(s, 0), o)]);
    longer := Then(longer, s1, Send(k, o), s2);
    next := Apply(s2, Finish(k));
    longer := Then(longer, s2, Finish(k), next);
  }

  /** MAX_ATTEMPTS does not bound the attempts of a delivery: on time and without a crash,
      any number of them leave it waiting for one more, its row recording at most one. */
  lemma MaxAttemptsCanBePassed(n: nat, error: string) returns (run: seq<Action>)
    ensures Legal(INITIAL, run) && Timely(INITIAL, run) && CrashFree(run)
    ensures var s := After(INITIAL, run);
            TallyOf(s, 0).made == n && Selectable(s.rows, 0) && s.rows[0].attempts <= 1
  {
    var s;
    run, s := OpenMany(n);
    for k := 0 to n
      invariant Reaches(run, s) && CrashFree(run) && HaveFailed(s, k, n)
    {
      run, s := FailOne(run, s, k, n, error);
    }
  }

  // ---------------------------------------------------------------------------
  // Crashes
  // ---------------------------------------------------------------------------

  /** `k` passes have each made an attempt and died before writing it. */
  ghost predicate Died(s: State, k: nat) {
    && s.passes == map[] && s.rows.Keys == {0} && TallyOf(s, 0).made == k
    && Selectable(Reclaimed(s.rows, s.now), 0) && Reclaimed(s.rows, s.now)[0].attempts == 0
  }

  lemma DieOnce(run: seq<Action>, s: State, k: nat, error: string) returns (longer: seq<Action>, next: State)
    requires Reaches(run, s) && FinishFree(run) && Died(s, k)
    ensures Reaches(longer, next) && FinishFree(longer) && Died(next, k + 1)
  {
    var rows := Reclaimed(s.rows, s.now);
    assert Scans(rows, [0]) == [Scan(0, 0)] && [Scan(0, 0)][1..] == [];
    var s1 := s.(rows := rows, passes := map[k := Between([Scan(0, 0)])]);
    longer := Then(run, s, Open(k, [0]), s1);
    var s2 := s1.(rows := Claimed(rows, 0, s.now), passes := map[k := InSend(Scan(0, 0), s.now, [])]);
    longer := Then(longer, s1, Claim(k), s2);
    longer, next := SendAndDie(longer, s2, k, error);
  }

  lemma SendAndDie(run: seq<Action>, s: State, k: nat, error: string) returns (longer: seq<Action>, next: State)
    requires Reaches(run, s) && FinishFree(run) && s.passes == map[k := InSend(Scan(0, 0), s.now, [])]
    requires s.rows.Keys == {0} && s.rows[0].status == Sending && s.rows[0].claimedAt == Some(s.now)
             && s.rows[0].attempts == 0
    ensures Reaches(longer, next) && FinishFree(longer) && Died(next, TallyOf(s, 0).made + 1)
  {
    var o := SendError(error);
    var s1 := s.(passes := map[k := InHand(Scan(0, 0), s.now, o, [])],
                 tallies := s.tallies[0 := Attempted(TallyOf(s, 0), o)]);
    longer := Then(run, s, Send(k, o), s1);
    var s2 := s1.(passes := map[], tallies := s1.tallies[0 := Dropped(TallyOf(s1, 0), o)]);
    assert s1.passes - {k} == map[];
    longer := Then(longer, s1, Crash(k), s2);
    next := s2.(now := s2.now + STALE_CLAIM_SECONDS + 1);
    longer := Then(longer, s2, Advance(STALE_CLAIM_SECONDS + 1), next);
  }

  lemma {:induction false} FinishFreeIsFresh(s: State, run: seq<Action>)
    requires Legal(s, run) && FinishFree(run)
    ensures AllFresh(s, run)
    decreases |run|
  {
    if run != [] { FinishFreeIsFresh(Apply(s, run[0]), run[1..]); }
  }

  /** Nor do fresh reads alone give the bound: a delivery whose passes die before they
      write is attempted any number of times, and its row records none of them. */
  lemma CrashesAreNotCounted(n: nat, error: string) returns (run: seq<Action>)
    ensures Legal(INITIAL, run) && Timely(INITIAL, run) && AllFresh(INITIAL, run)
    ensures var s := After(INITIAL, run);
            && TallyOf(s, 0).made == n
            && Selectable(Reclaimed(s.rows, s.now), 0) && Reclaimed(s.rows, s.now)[0].attempts == 0
  {
    var s;
    run, s := Begin();
    for k := 0 to n
      invariant Reaches(run, s) && FinishFree(run) && Died(s, k)
    {
      run, s := DieOnce(run, s, k, error);
    }
    FinishFreeIsFresh(INITIAL, run);
  }
}
