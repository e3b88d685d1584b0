/** How long a send may take before a delivery is sent more often than passes crash: exactly
    as long as a claim takes to become stale, and past that there is no bound at all. */
module OutboxDuplicates {
  import opened Wrappers
  import opened Outbox
  import opened OutboxProofs
  import opened OutboxRuns

  /** With every send and its mark done within `seconds`, a delivery is sent at most once
      more than a pass dies between the two. */
  ghost predicate SentOncePlusCrashes(seconds: int) {
    forall run, id :: Legal(INITIAL, run) && Within(INITIAL, run, seconds) ==>
      TallyOf(After(INITIAL, run), id).sends <= TallyOf(After(INITIAL, run), id).crashes + 1
  }

  lemma {:induction false} WithinLonger(s: State, run: seq<Action>, seconds: int, more: int)
    requires Legal(s, run) && Within(s, run, seconds) && seconds <= more
    ensures Within(s, run, more)
    decreases |run|
  {
    if run != [] { WithinLonger(Apply(s, run[0]), run[1..], seconds, more); }
  }

  // ---------------------------------------------------------------------------
  // A crowd that holds one row
  // ---------------------------------------------------------------------------

  const SLOW := STALE_CLAIM_SECONDS + 1

  ghost predicate InSendFrom(s: State, from: nat, to: nat, since: int) {
    forall p: nat :: from <= p < to ==> p in s.passes && s.passes[p] == InSend(Scan(0, 0), since, [])
  }

  ghost predicate Waiting(s: State, from: nat, to: nat) {
    forall p: nat :: from <= p < to ==> p in s.passes && s.passes[p] == Between([Scan(0, 0)])
  }

  /** Passes `a` to `b` claimed the row as long ago as a send may take, `b` to `c` just
      now; up to `total` the rest have read it as new and wait for their turn. */
  ghost predicate Members(s: State, a: nat, b: nat, c: nat, total: nat, unused: nat) {
    && a <= b <= c <= total <= unused
    && InSendFrom(s, a, b, s.now - SLOW) && InSendFrom(s, b, c, s.now) && Waiting(s, c, total)
    && (forall p :: p in s.passes ==> p < unused && (Holds(s.passes[p]) ==> a <= p < c))
  }

  ghost predicate Crowd(s: State, a: nat, b: nat, c: nat, total: nat, unused: nat) {
    && Members(s, a, b, c, total, unused)
    && s.rows.Keys == {0} && s.rows[0].status == Sending && s.rows[0].claimedAt == Some(s.now)
    && TallyOf(s, 0).sends == 0
  }

  lemma MemberJoins(s: State, next: State, a: nat, b: nat, c: nat, total: nat, unused: nat)
    requires Members(s, a, b, c, total, unused) && c < total
    requires next.now == s.now && next.passes == s.passes[c := InSend(Scan(0, 0), s.now, [])]
    ensures Members(next, a, b, c + 1, total, unused)
  {
  }

  lemma MemberLeaves(s: State, next: State, a: nat, b: nat, c: nat, total: nat, unused: nat)
    requires Members(s, a, b, c, total, unused) && a < b
    requires next.now == s.now && next.passes == s.passes[a := Between([])]
    ensures Members(next, a + 1, b, c, total, unused)
  {
  }

  lemma MembersWait(s: State, next: State, a: nat, c: nat, total: nat, unused: nat)
    requires Members(s, a, a, c, total, unused)
    requires next.now == s.now + SLOW && next.passes == s.passes[unused := Between([])]
    ensures Members(next, a, c, c, total, unused + 1)
  {
  }

  /** The next of those waiting takes the row, which is pending. */
  lemma NextClaims(run: seq<Action>, s: State, c: nat) returns (longer: seq<Action>, next: State)
    requires ReachesWithin(run, s, SLOW) && CrashFree(run) && HoldsAtMost(s, SLOW)
    requires IsPending(s.rows, 0) && c in s.passes && s.passes[c] == Between([Scan(0, 0)])
    ensures ReachesWithin(longer, next, SLOW) && CrashFree(longer)
    ensures next == s.(rows := Claimed(s.rows, 0, s.now), passes := s.passes[c := InSend(Scan(0, 0), s.now, [])])
  {
    assert [Scan(0, 0)][1..] == [];
    next := s.(rows := Claimed(s.rows, 0, s.now), passes := s.passes[c := InSend(Scan(0, 0), s.now, [])]);
    longer := ThenWithin(run, s, Claim(c), next, SLOW);
  }

  lemma FirstClaim(total: nat) returns (run: seq<Action>, s: State)
    requires total > 0
    ensures ReachesWithin(run, s, SLOW) && CrashFree(run) && Crowd(s, 0, 0, 1, total, total)
  {
    run, s := OpenMany(total);
    WithinLonger(INITIAL, run, STALE_CLAIM_SECONDS, SLOW);
    run, s := NextClaims(run, s, 0);
  }

  /** The claim grows stale and a pass that reads nothing puts the row back. */
  lemma PutBack(run: seq<Action>, s: State, unused: nat) returns (longer: seq<Action>, next: State)
    requires ReachesWithin(run, s, SLOW) && CrashFree(run) && unused !in s.passes
    requires forall p :: p in s.passes && Holds(s.passes[p]) ==> s.passes[p].since == s.now
    requires s.rows.Keys == {0} && s.rows[0].status == Sending && s.rows[0].claimedAt == Some(s.now)
    ensures ReachesWithin(longer, next, SLOW) && CrashFree(longer)
    ensures next.now == s.now + SLOW && next.passes == s.passes[unused := Between([])] && next.tallies == s.tallies
    ensures next.rows.Keys == {0} && IsPending(next.rows, 0)
  {
    var s1 := s.(now := s.now + SLOW);
    longer := ThenWithin(run, s, Advance(SLOW), s1, SLOW);
    next := s1.(rows := Reclaimed(s1.rows, s1.now), passes := s1.passes[unused := Between([])]);
    assert Scans(next.rows, []) == [];
    longer := ThenWithin(longer, s1, Open(unused, []), next, SLOW);
  }

  /** So one more claims it. */
  lemma OneMore(run: seq<Action>, s: State, a: nat, c: nat, total: nat, unused: nat)
    returns (longer: seq<Action>, next: State)
    requires ReachesWithin(run, s, SLOW) && CrashFree(run) && Crowd(s, a, a, c, total, unused) && c < total
    ensures ReachesWithin(longer, next, SLOW) && CrashFree(longer) && Crowd(next, a, c, c + 1, total, unused + 1)
  {
    var s1;
    longer, s1 := PutBack(run, s, unused);
    MembersWait(s, s1, a, c, total, unused);
    longer, next := NextClaims(longer, s1, c);
    MemberJoins(s1, next, a, c, c, total, unused + 1);
  }

  /** A pass that holds the row fails, which puts it back whoever else holds it. */
  lemma Fails(run: seq<Action>, s: State, p: nat) returns (longer: seq<Action>, next: State)
    requires ReachesWithin(run, s, SLOW) && CrashFree(run) && HoldsAtMost(s, SLOW) && s.rows.Keys == {0}
    requires p in s.passes && s.passes[p].InSend? && s.passes[p].row == Scan(0, 0) && s.passes[p].todo == []
    ensures ReachesWithin(longer, next, SLOW) && CrashFree(longer)
    ensures next.now == s.now && next.passes == s.passes[p := Between([])]
    ensures next.rows.Keys == {0} && IsPending(next.rows, 0) && TallyOf(next, 0).sends == TallyOf(s, 0).sends
  {
    var o := SendError("");
    var s1 := s.(passes := s.passes[p := InHand(Scan(0, 0), s.passes[p].since, o, [])],
                 tallies := s.tallies[0 := Attempted(TallyOf(s, 0), o)]);
    longer := ThenWithin(run, s, Send(p, o), s1, SLOW);
    next := Apply(s1, Finish(p));
    assert next.passes == s.passes[p := Between([])];
    longer := ThenWithin(longer, s1, Finish(p), next, SLOW);
  }

  /** The first of the crowd fails, and the next takes the row. */
  lemma HandOver(run: seq<Action>, s: State, a: nat, b: nat, c: nat, total: nat, unused: nat)
    returns (longer: seq<Action>, next: State)
    requires ReachesWithin(run, s, SLOW) && CrashFree(run) && Crowd(s, a, b, c, total, unused) && a < b && c < total
    ensures ReachesWithin(longer, next, SLOW) && CrashFree(longer) && Crowd(next, a + 1, b, c + 1, total, unused)
  {
    var s1;
    longer, s1 := Fails(run, s, a);
    MemberLeaves(s, s1, a, b, c, total, unused);
    longer, next := NextClaims(longer, s1, c);
    MemberJoins(s1, next, a + 1, b, c, total, unused);
  }

  /** With as many waiting as it has members and one more, a crowd grows by one. */
  lemma Grow(run: seq<Action>, s: State, a: nat, c: nat, total: nat, unused: nat)
    returns (longer: seq<Action>, next: State)
    requires ReachesWithin(run, s, SLOW) && CrashFree(run) && Crowd(s, a, a, c, total, unused) && c + c - a < total
    ensures ReachesWithin(longer, next, SLOW) && CrashFree(longer)
    ensures Crowd(next, c, c, c + c - a + 1, total, unused + 1)
  {
    longer, next := OneMore(run, s, a, c, total, unused);
    for i := 0 to c - a
      invariant ReachesWithin(longer, next, SLOW) && CrashFree(longer)
      invariant Crowd(next, a + i, c, c + 1 + i, total, unused + 1)
    {
      longer, next := HandOver(longer, next, a + i, c, c + 1 + i, total, unused + 1);
    }
  }

  /** How many turns it takes until `k` passes hold the row. */
  function Turns(k: nat): nat {
    if k == 0 then 0 else Turns(k - 1) + k
  }

  lemma TurnsGrow(k: nat, n: nat)
    requires k <= n
    ensures Turns(k) <= Turns(n)
  {
    for i := k to n
      invariant Turns(k) <= Turns(i)
    {
    }
  }

  lemma GatherCrowd(n: nat) returns (run: seq<Action>, s: State, unused: nat)
    requires n > 0
    ensures ReachesWithin(run, s, SLOW) && CrashFree(run)
    ensures Crowd(s, Turns(n - 1), Turns(n - 1), Turns(n), Turns(n), unused)
  {
    TurnsGrow(1, n);
    run, s := FirstClaim(Turns(n));
    unused := Turns(n);
    for k := 1 to n
      invariant ReachesWithin(run, s, SLOW) && CrashFree(run)
      invariant Crowd(s, Turns(k - 1), Turns(k - 1), Turns(k), Turns(n), unused)
    {
      TurnsGrow(k + 1, n);
      run, s := Grow(run, s, Turns(k - 1), Turns(k), Turns(n), unused);
      unused := unused + 1;
    }
  }

  // ---------------------------------------------------------------------------
  // Main results
  // ---------------------------------------------------------------------------

  /** Passes `b` to `c` are about to send; `sends` were delivered. */
  ghost predicate AboutToSend(s: State, b: nat, c: nat, sends: nat) {
    && b <= c && InSendFrom(s, b, c, s.now) && TallyOf(s, 0).sends == sends
    && forall p :: p in s.passes && Holds(s.passes[p]) ==> s.passes[p].since == s.now
  }

  lemma SendNext(run: seq<Action>, s: State, b: nat, c: nat, sends: nat) returns (longer: seq<Action>, next: State)
    requires ReachesWithin(run, s, SLOW) && CrashFree(run) && AboutToSend(s, b, c, sends) && b < c
    ensures ReachesWithin(longer, next, SLOW) && CrashFree(longer) && AboutToSend(next, b + 1, c, sends + 1)
  {
    next := s.(passes := s.passes[b := InHand(Scan(0, 0), s.now, Delivered, [])],
               tallies := s.tallies[0 := Attempted(TallyOf(s, 0), Delivered)]);
    longer := ThenWithin(run, s, Send(b, Delivered), next, SLOW);
  }

  /** Once sends may take a second longer than a claim takes to become stale, one delivery
      can be sent any number of times although no pass crashes. */
  lemma SlowSendsAreUnbounded(n: nat) returns (run: seq<Action>)
    ensures Legal(INITIAL, run) && Within(INITIAL, run, STALE_CLAIM_SECONDS + 1) && CrashFree(run)
    ensures TallyOf(After(INITIAL, run), 0).sends == n
  {
    run := [];
    if n > 0 {
      var s, unused;
      run, s, unused := GatherCrowd(n);
      var first := Turns(n - 1);
      for k := 0 to n
        invariant ReachesWithin(run, s, SLOW) && CrashFree(run) && AboutToSend(s, first + k, Turns(n), k)
      {
        run, s := SendNext(run, s, first + k, Turns(n), k);
      }
    }
  }

  lemma {:induction false} NoCrashesCounted(s: State, run: seq<Action>, id: nat)
    requires Legal(s, run) && CrashFree(run)
    ensures TallyOf(After(s, run), id).crashes == TallyOf(s, id).crashes
    decreases |run|
  {
    if run != [] { NoCrashesCounted(Apply(s, run[0]), run[1..], id); }
  }

  /** A delivery is sent at most once more than passes crash between send and mark, in
      every run in which that takes at most `seconds`, if and only if `seconds` is at most
      the time a claim takes to become stale. */
  lemma SentOncePlusCrashesIff(seconds: int)
    ensures SentOncePlusCrashes(seconds) <==> seconds <= STALE_CLAIM_SECONDS
  {
    if seconds <= STALE_CLAIM_SECONDS {
      forall run, id | Legal(INITIAL, run) && Within(INITIAL, run, seconds)
        ensures TallyOf(After(INITIAL, run), id).sends <= TallyOf(After(INITIAL, run), id).crashes + 1
      {
        WithinLonger(INITIAL, run, seconds, STALE_CLAIM_SECONDS);
        DuplicatesNeedCrashes(run, id);
      }
    } else {
      var run := SlowSendsAreUnbounded(2);
      WithinLonger(INITIAL, run, SLOW, seconds);
      NoCrashesCounted(INITIAL, run, 0);
    }
  }
}
