/** What every run of the job system keeps: the worker-id compare-and-set is as good as
    a claim number, each job moves a bounded number of times, and an idempotency key
    names at most one active job. */
module JobProofs {
  import opened Wrappers
  import opened JobTable
  import opened JobMachine

  // ---------------------------------------------------------------------------
  // Rows
  // ---------------------------------------------------------------------------

  /** Queued rows have attempts left; running rows are between their first and last
      attempt with a claimant and a lease; nobody holds the others. */
  predicate RowOk(j: Job) {
    && j.maxAttempts > 0
    && (j.status == Queued ==> j.attempts < j.maxAttempts)
    && (j.status == Active ==> 1 <= j.attempts <= j.maxAttempts && j.claimedBy.Some? && j.lease.Some?)
    && (j.status != Active ==> j.claimedBy.None? && j.lease.None?)
  }

  ghost predicate TableOk(db: Db) {
    forall id :: id in db.rows ==> id < db.nextId && RowOk(db.rows[id])
  }

  predicate SameIdentity(o: Job, n: Job) {
    && n.kind == o.kind && n.payload == o.payload && n.org == o.org && n.maxAttempts == o.maxAttempts
    && n.scheduleId == o.scheduleId && n.dedupe == o.dedupe
  }

  /** The moves a row may make: a claim, or the end of a claim. */
  predicate Edge(o: Job, n: Job) {
    && SameIdentity(o, n)
    && (n == o
        || (o.status == Queued && n.status == Active && n.attempts == o.attempts + 1)
        || (o.status == Active && n.status in {Queued, Succeeded, Failed} && n.attempts == o.attempts))
  }

  ghost predicate Evolves(rows: map<nat, Job>, rows': map<nat, Job>) {
    && (forall id :: id in rows ==> id in rows' && Edge(rows[id], rows'[id]))
    && (forall id :: id in rows' && id !in rows ==>
          rows'[id].status == Queued && rows'[id].attempts == 0)
  }

  // ---------------------------------------------------------------------------
  // Claims
  // ---------------------------------------------------------------------------

  /** The row is still running under the claim numbered `token`. */
  predicate Owns(s: State, id: nat, token: nat) {
    id in s.db.rows && s.db.rows[id].status == Active && id in s.tokens && s.tokens[id] == token
  }

  predicate HoldsClaim(k: Worker) {
    k.Busy? || k.Judged?
  }

  ghost predicate ClaimOk(s: State, w: string, k: Worker)
    requires HoldsClaim(k)
  {
    && k.id in s.db.rows && k.id in s.tokens
    && k.token <= s.tokens[k.id]
    && (HeldBy(s.db.rows, k.id, w) <==> Owns(s, k.id, k.token))
    && (k.Judged? ==> k.maxAttempts == s.db.rows[k.id].maxAttempts)
    && (k.Judged? && Owns(s, k.id, k.token) ==> k.attempts == s.db.rows[k.id].attempts)
  }

  ghost predicate ClaimsOk(s: State) {
    && (forall id :: id in s.tokens ==> s.tokens[id] < s.nextToken)
    && (forall w :: w in s.workers && HoldsClaim(s.workers[w]) ==> ClaimOk(s, w, s.workers[w]))
  }

  // ---------------------------------------------------------------------------
  // Idempotency keys
  // ---------------------------------------------------------------------------

  /** Two active rows of one idempotency identity. */
  predicate ShareKey(j: Job, k: Job) {
    && IsActive(j) && IsActive(k)
    && j.dedupe.Some? && j.dedupe == k.dedupe && j.kind == k.kind && j.org == k.org
  }

  ghost predicate KeysUnique(rows: map<nat, Job>) {
    forall a, b {:trigger ShareKey(rows[a], rows[b])} :: a in rows && b in rows && ShareKey(rows[a], rows[b]) ==> a == b
  }

  predicate MatchesRequest(j: Job, r: Request) {
    j.kind == r.kind && j.org == r.org && j.dedupe == r.dedupe
  }

  predicate ProducerOk(rows: map<nat, Job>, p: Producer) {
    && p.request.maxAttempts > 0
    && p.request.scheduleId.None?
    && (p.Returned? ==> p.id in rows && MatchesRequest(rows[p.id], p.request))
  }

  ghost predicate ProducersOk(s: State) {
    forall p :: p in s.producers ==> ProducerOk(s.db.rows, s.producers[p])
  }

  ghost predicate Inv(s: State) {
    TableOk(s.db) && ClaimsOk(s) && KeysUnique(s.db.rows) && ProducersOk(s)
  }

  // ---------------------------------------------------------------------------
  // Steps
  // ---------------------------------------------------------------------------

  lemma SucceedIsEdge(db: Db, id: nat, w: string, now: int)
    requires TableOk(db)
    ensures Evolves(db.rows, Succeed(db, id, w, now).rows) && TableOk(Succeed(db, id, w, now))
  {
  }

  lemma FailIsEdge(db: Db, id: nat, w: string, v: Verdict, error: string, now: int)
    requires TableOk(db) && (HeldBy(db.rows, id, w) && v.Retry? ==> db.rows[id].attempts < db.rows[id].maxAttempts)
    ensures Evolves(db.rows, Fail(db, id, w, v, error, now).rows) && TableOk(Fail(db, id, w, v, error, now))
  {
  }

  lemma SettleIsEdge(s: State, a: Action)
    requires Inv(s) && Enabled(s, a) && (a.SettleOk? || a.SettleFailed? || a.SettleDead?)
    ensures Evolves(s.db.rows, Apply(s, a).db.rows) && TableOk(Apply(s, a).db)
  {
    var k := s.workers[a.w];
    assert ClaimOk(s, a.w, k);
    if a.SettleOk? { SucceedIsEdge(s.db, k.id, a.w, a.now); }
    else if a.SettleDead? { FailIsEdge(s.db, k.id, a.w, DeadLetter, a.error, a.now); }
    else { FailIsEdge(s.db, k.id, a.w, Judge(false, k.attempts, k.maxAttempts), a.error, a.now); }
  }

  /** A reclaim changes a row if and only if it runs under a lapsed lease, and then ends
      its claim: failed for good after its last attempt, due at once before. */
  lemma ReclaimedRow(db: Db, now: int, id: nat)
    requires TableOk(db) && id in db.rows
    ensures id in Reclaim(db, now).rows
    ensures var j, j' := db.rows[id], Reclaim(db, now).rows[id];
            && j' == RequeuedRow(BuriedRow(j, now), now)
            && Edge(j, j') && RowOk(j')
            && (j' != j <==> j.status == Active && j.lease.Some? && j.lease.value < now)
            && (j' != j ==>
                  && j'.attempts == j.attempts && j'.claimedBy.None? && j'.lease.None?
                  && (if j.attempts == j.maxAttempts
                      then j'.status == Failed && j'.finishedAt == Some(now) && j'.runAt == j.runAt
                      else j'.status == Queued && j'.runAt == now && j'.finishedAt == j.finishedAt))
  {
    assert Bury(db.rows, now)[id] == BuriedRow(db.rows[id], now);
  }

  lemma ReclaimIsEdge(db: Db, now: int)
    requires TableOk(db)
    ensures Evolves(db.rows, Reclaim(db, now).rows) && TableOk(Reclaim(db, now))
  {
    assert Bury(db.rows, now).Keys == db.rows.Keys;
    assert Reclaim(db, now).rows.Keys == db.rows.Keys;
    forall id | id in db.rows
      ensures Edge(db.rows[id], Reclaim(db, now).rows[id]) && RowOk(Reclaim(db, now).rows[id])
    {
      ReclaimedRow(db, now, id);
    }
  }

  /** `s'` has the rows of `s`, or one new queued row besides. */
  ghost predicate Grows(db: Db, db': Db) {
    && db.nextId <= db'.nextId
    && (forall id :: id in db.rows ==> id in db'.rows && db'.rows[id] == db.rows[id])
    && (forall id :: id in db'.rows && id !in db.rows ==>
          id == db.nextId < db'.nextId && RowOk(db'.rows[id]) && db'.rows[id].status == Queued
            && db'.rows[id].attempts == 0)
  }

  lemma TickGrows(db: Db, snap: Snapshot, now: int)
    requires TableOk(db)
    ensures Grows(db, Tick(db, snap, now))
  {
  }

  lemma GrowthEvolves(db: Db, db': Db)
    requires TableOk(db) && Grows(db, db')
    ensures Evolves(db.rows, db'.rows) && TableOk(db')
  {
  }

  /** Every step that neither claims, settles nor reclaims. */
  predicate Outside(a: Action) {
    !(a.ClaimCas? || a.SettleOk? || a.SettleFailed? || a.SettleDead? || a.ReclaimExpired?)
  }

  lemma OutsideKeepsTokens(s: State, a: Action)
    requires Enabled(s, a) && Outside(a)
    ensures Apply(s, a).tokens == s.tokens && Apply(s, a).nextToken == s.nextToken
  {
  }

  lemma OutsideGrows(s: State, a: Action)
    requires Inv(s) && Enabled(s, a) && Outside(a)
    ensures Grows(s.db, Apply(s, a).db)
  {
    if a.TickOne? { TickGrows(s.db, s.tickers[a.t].pending[0], s.tickers[a.t].now); }
  }

  lemma ClaimIsEdge(db: Db, id: nat, worker: string, lease: int, now: int)
    requires TableOk(db)
    ensures Evolves(db.rows, Claim(db, id, worker, lease, now).rows) && TableOk(Claim(db, id, worker, lease, now))
  {
  }

  lemma StepEvolves(s: State, a: Action)
    requires Inv(s) && Enabled(s, a)
    ensures Evolves(s.db.rows, Apply(s, a).db.rows) && TableOk(Apply(s, a).db)
  {
    if Outside(a) {
      OutsideGrows(s, a);
      GrowthEvolves(s.db, Apply(s, a).db);
    } else if a.ReclaimExpired? {
      ReclaimIsEdge(s.db, a.now);
    } else if a.ClaimCas? {
      ClaimIsEdge(s.db, s.workers[a.w].id, a.w, a.lease, a.now);
    } else {
      SettleIsEdge(s, a);
    }
  }

  lemma ClaimKeepsClaims(s: State, w: string, lease: int, now: int)
    requires Inv(s) && Enabled(s, ClaimCas(w, lease, now))
    ensures ClaimsOk(Apply(s, ClaimCas(w, lease, now)))
  {
    var s' := Apply(s, ClaimCas(w, lease, now));
    var id := s.workers[w].id;
    forall v | v in s'.workers && HoldsClaim(s'.workers[v])
      ensures ClaimOk(s', v, s'.workers[v])
    {
      if v != w { assert s'.workers[v] == s.workers[v] && ClaimOk(s, v, s.workers[v]); }
    }
  }

  /** A step that ends one claim, or ends none. */
  lemma SettleKeepsClaims(s: State, a: Action)
    requires Inv(s) && Enabled(s, a) && (a.SettleOk? || a.SettleFailed? || a.SettleDead?)
    ensures ClaimsOk(Apply(s, a))
  {
    var s' := Apply(s, a);
    forall v | v in s'.workers && HoldsClaim(s'.workers[v])
      ensures ClaimOk(s', v, s'.workers[v])
    {
      assert s'.workers[v] == s.workers[v] && ClaimOk(s, v, s.workers[v]);
    }
  }

  lemma ReclaimKeepsClaims(s: State, now: int)
    requires Inv(s)
    ensures ClaimsOk(s.(db := Reclaim(s.db, now)))
  {
    var s' := s.(db := Reclaim(s.db, now));
    forall v | v in s'.workers && HoldsClaim(s'.workers[v])
      ensures ClaimOk(s', v, s'.workers[v])
    {
      var k := s.workers[v];
      assert ClaimOk(s, v, k);
      ReclaimedRow(s.db, now, k.id);
    }
  }

  lemma OutsideKeepsClaims(s: State, a: Action)
    requires Inv(s) && Enabled(s, a) && Outside(a)
    ensures ClaimsOk(Apply(s, a))
  {
    var s' := Apply(s, a);
    OutsideGrows(s, a);
    OutsideKeepsTokens(s, a);
    forall v | v in s'.workers && HoldsClaim(s'.workers[v])
      ensures ClaimOk(s', v, s'.workers[v])
    {
      assert v in s.workers && HoldsClaim(s.workers[v]) && ClaimOk(s, v, s.workers[v]);
    }
  }

  lemma StepKeepsClaims(s: State, a: Action)
    requires Inv(s) && Enabled(s, a)
    ensures ClaimsOk(Apply(s, a))
  {
    if Outside(a) {
      OutsideKeepsClaims(s, a);
    } else if a.ReclaimExpired? {
      ReclaimKeepsClaims(s, a.now);
    } else if a.ClaimCas? {
      ClaimKeepsClaims(s, a.w, a.lease, a.now);
    } else {
      SettleKeepsClaims(s, a);
    }
  }

  /** Rows only evolve and a new keyed row collides with none: keys stay unique. */
  lemma EvolveKeepsKeys(rows: map<nat, Job>, rows': map<nat, Job>, newId: nat)
    requires KeysUnique(rows) && Evolves(rows, rows')
    requires forall id :: id in rows' && id !in rows ==> id == newId && !Collides(rows, rows'[id])
    ensures KeysUnique(rows')
  {
    forall a, b | a in rows' && b in rows' && ShareKey(rows'[a], rows'[b])
      ensures a == b
    {
      if a in rows { assert Edge(rows[a], rows'[a]); }
      if b in rows { assert Edge(rows[b], rows'[b]); }
      if a in rows && b in rows { assert ShareKey(rows[a], rows[b]); }
      if a in rows && b !in rows { assert IsDuplicate(rows, a, rows'[b].kind, rows'[b].org, rows'[b].dedupe.value); }
      if a !in rows && b in rows { assert IsDuplicate(rows, b, rows'[a].kind, rows'[a].org, rows'[a].dedupe.value); }
    }
  }

  lemma OnlyInsertsAdd(s: State, a: Action)
    requires Enabled(s, a) && !a.TickOne? && !a.TryInsert?
    ensures forall id :: id in Apply(s, a).db.rows ==> id in s.db.rows
  {
    if a.ReclaimExpired? { assert Bury(s.db.rows, a.now).Keys == s.db.rows.Keys; }
  }

  lemma NewRowCollidesWithNone(s: State, a: Action, id: nat)
    requires Enabled(s, a) && id in Apply(s, a).db.rows && id !in s.db.rows
    ensures id == s.db.nextId && !Collides(s.db.rows, Apply(s, a).db.rows[id])
  {
    if !a.TryInsert? && !a.TickOne? { OnlyInsertsAdd(s, a); }
  }

  lemma StepKeepsKeys(s: State, a: Action)
    requires Inv(s) && Enabled(s, a)
    ensures KeysUnique(Apply(s, a).db.rows)
  {
    var rows := Apply(s, a).db.rows;
    StepEvolves(s, a);
    forall id | id in rows && id !in s.db.rows
      ensures id == s.db.nextId && !Collides(s.db.rows, rows[id])
    {
      NewRowCollidesWithNone(s, a, id);
    }
    EvolveKeepsKeys(s.db.rows, rows, s.db.nextId);
  }

  lemma UnmovedProducer(s: State, s': State, p: nat)
    requires ProducersOk(s) && Evolves(s.db.rows, s'.db.rows) && p in s.producers
    ensures ProducerOk(s'.db.rows, s.producers[p])
  {
    if s.producers[p].Returned? {
      var id := s.producers[p].id;
      assert Edge(s.db.rows[id], s'.db.rows[id]);
    }
  }

  lemma ProducerStep(s: State, a: Action)
    requires ProducersOk(s) && Enabled(s, a) && (a.Lookup? || a.LookAgain?)
    ensures ProducersOk(Apply(s, a))
  {
    var s' := Apply(s, a);
    forall p | p in s'.producers
      ensures ProducerOk(s'.db.rows, s'.producers[p])
    {
      if p in s.producers { assert ProducerOk(s.db.rows, s.producers[p]); }
    }
  }

  lemma InsertStep(s: State, p: nat)
    requires ProducersOk(s) && Enabled(s, TryInsert(p)) && Evolves(s.db.rows, Apply(s, TryInsert(p)).db.rows)
    ensures ProducersOk(Apply(s, TryInsert(p)))
  {
    var s' := Apply(s, TryInsert(p));
    forall q | q in s'.producers
      ensures ProducerOk(s'.db.rows, s'.producers[q])
    {
      if q != p { UnmovedProducer(s, s', q); } else { assert ProducerOk(s.db.rows, s.producers[p]); }
    }
  }

  lemma SameProducers(s: State, s': State)
    requires ProducersOk(s) && Evolves(s.db.rows, s'.db.rows) && s'.producers == s.producers
    ensures ProducersOk(s')
  {
    forall p | p in s'.producers
      ensures ProducerOk(s'.db.rows, s'.producers[p])
    {
      UnmovedProducer(s, s', p);
    }
  }

  lemma StepKeepsProducers(s: State, a: Action)
    requires Inv(s) && Enabled(s, a)
    ensures ProducersOk(Apply(s, a))
  {
    StepEvolves(s, a);
    if a.Lookup? || a.LookAgain? {
      ProducerStep(s, a);
    } else if a.TryInsert? {
      InsertStep(s, a.p);
    } else {
      SameProducers(s, Apply(s, a));
    }
  }

  lemma StepKeeps(s: State, a: Action)
    requires Inv(s) && Enabled(s, a)
    ensures Inv(Apply(s, a))
  {
    StepEvolves(s, a);
    StepKeepsClaims(s, a);
    StepKeepsKeys(s, a);
    StepKeepsProducers(s, a);
  }

  lemma {:induction false} RunKeeps(s: State, run: seq<Action>)
    requires Inv(s) && Legal(s, run)
    ensures Inv(After(s, run))
    decreases |run|
  {
    if run != [] {
      StepKeeps(s, run[0]);
      RunKeeps(Apply(s, run[0]), run[1..]);
    }
  }

  // ---------------------------------------------------------------------------
  // Main results
  // ---------------------------------------------------------------------------

  /** What a settle changes: the row, when the compare-and-set holds. */
  ghost function SettledRow(s: State, a: Action): Job
    requires Enabled(s, a) && (a.SettleOk? || a.SettleFailed? || a.SettleDead?)
    requires WorkerAt(s, a.w).id in s.db.rows
  {
    var j := s.db.rows[WorkerAt(s, a.w).id];
    match a
    case SettleOk(_, now) => Settled(j, Succeeded, now)
    case SettleFailed(w, error, now) =>
      Failing(j, Judge(false, WorkerAt(s, w).attempts, WorkerAt(s, w).maxAttempts), error, now)
    case SettleDead(_, error, now) => Failing(j, DeadLetter, error, now)
  }

  /** In every reachable state, comparing the worker id decides exactly what comparing
      the claim number would: a settle goes through if and only if the row is still
      under the claim its handler ran under, it then settles that row alone, and a
      settle from a lapsed claim leaves the whole database as it was. */
  lemma WorkerIdIsAToken(run: seq<Action>, a: Action)
    requires Legal(Initial(), run) && Enabled(After(Initial(), run), a)
    requires a.SettleOk? || a.SettleFailed? || a.SettleDead?
    ensures var s := After(Initial(), run);
            var k := WorkerAt(s, a.w);
            && k.id in s.db.rows
            && (HeldBy(s.db.rows, k.id, a.w) <==> Owns(s, k.id, k.token))
            && Apply(s, a).db == if Owns(s, k.id, k.token)
                                 then s.db.(rows := s.db.rows[k.id := SettledRow(s, a)]) else s.db
  {
    RunKeeps(Initial(), run);
    var s := After(Initial(), run);
    assert ClaimOk(s, a.w, s.workers[a.w]);
  }

  /** The attempts `mark_failed` read are the ones its update meets, whenever the
      update goes through: a failed attempt is retried exactly while attempts remain. */
  lemma VerdictFitsTheRow(run: seq<Action>, w: string, error: string, now: int)
    requires Legal(Initial(), run) && Enabled(After(Initial(), run), SettleFailed(w, error, now))
    ensures var s := After(Initial(), run);
            var k := WorkerAt(s, w);
            HeldBy(s.db.rows, k.id, w) ==>
              var j := s.db.rows[k.id];
              var j' := Apply(s, SettleFailed(w, error, now)).db.rows[k.id];
              && (j.attempts < j.maxAttempts <==> j'.status == Queued)
              && (j.attempts == j.maxAttempts <==> j'.status == Failed)
              && (j'.status == Queued ==> j'.runAt == now + Backoff(j.attempts))
  {
    RunKeeps(Initial(), run);
    var s := After(Initial(), run);
    var k := s.workers[w];
    assert ClaimOk(s, w, k);
  }

  /** The delay starts at thirty seconds and doubles with every attempt, up to an hour. */
  lemma BackoffDoubles(attempts: nat)
    requires attempts > 0
    ensures Backoff(1) == 30
    ensures Backoff(attempts + 1) == if 2 * Backoff(attempts) < 3600 then 2 * Backoff(attempts) else 3600
  {
    assert Pow2(attempts) == 2 * Pow2(attempts - 1);
  }

  lemma {:induction false} QueuedStays(s: State, run: seq<Action>, id: nat)
    requires Inv(s) && Legal(s, run) && id in s.db.rows
    ensures var s' := After(s, run);
            id in s'.db.rows && s.db.rows[id].attempts <= s'.db.rows[id].attempts
    ensures var s' := After(s, run);
            s.db.rows[id].status == Queued && s'.db.rows[id].attempts == s.db.rows[id].attempts ==>
              s'.db.rows[id] == s.db.rows[id]
    decreases |run|
  {
    if run != [] {
      StepEvolves(s, run[0]);
      StepKeeps(s, run[0]);
      assert Edge(s.db.rows[id], Apply(s, run[0]).db.rows[id]);
      QueuedStays(Apply(s, run[0]), run[1..], id);
    }
  }

  /** Over all runs, a worker selects a job only by a clock that reads its `run_at` or
      later; so a job that a failed attempt put back at `t` is not selected again by any
      clock that has not reached `t` plus the backoff of that attempt. */
  lemma BackoffDelays(run: seq<Action>, w: string, error: string, t: int, more: seq<Action>, v: string, now: int)
    requires Legal(Initial(), run) && Enabled(After(Initial(), run), SettleFailed(w, error, t))
    requires Legal(Apply(After(Initial(), run), SettleFailed(w, error, t)), more)
    requires var s := After(Initial(), run);
             var k, end := WorkerAt(s, w), After(Apply(s, SettleFailed(w, error, t)), more);
             && HeldBy(s.db.rows, k.id, w) && s.db.rows[k.id].attempts < s.db.rows[k.id].maxAttempts
             && k.id in end.db.rows && end.db.rows[k.id].attempts == s.db.rows[k.id].attempts
             && Enabled(end, Select(v, k.id, now))
    ensures var s := After(Initial(), run);
            t + Backoff(s.db.rows[WorkerAt(s, w).id].attempts) <= now
  {
    var s := After(Initial(), run);
    var id, s' := WorkerAt(s, w).id, Apply(s, SettleFailed(w, error, t));
    RunKeeps(Initial(), run);
    VerdictFitsTheRow(run, w, error, t);
    assert s'.db.rows[id].status == Queued && s'.db.rows[id].attempts == s.db.rows[id].attempts;
    StepKeeps(s, SettleFailed(w, error, t));
    QueuedStays(s', more, id);
  }

  /** What a worker selects is queued, and due by the clock it read. */
  lemma OnlyDueIsSelected(s: State, w: string, id: nat, now: int)
    requires Enabled(s, Select(w, id, now))
    ensures id in s.db.rows && s.db.rows[id].status == Queued && s.db.rows[id].runAt <= now
  {
  }

  /** The same worker id claiming a job again while an earlier handler of its own is
      still going: without the one-job-at-a-time discipline the first handler's settle
      goes through against the second claim. */
  lemma DisciplineIsNeeded(db: Db, id: nat, w: string, lease: int, now: int, later: int, end: int)
    requires IsQueued(db.rows, id) && db.rows[id].attempts + 2 <= db.rows[id].maxAttempts && now + lease < later
    ensures var first := Claim(db, id, w, lease, now);
            var lapsed := Reclaim(first, later);
            var second := Claim(lapsed, id, w, lease, later);
            && IsQueued(lapsed.rows, id)
            && second.rows[id].attempts == first.rows[id].attempts + 1
            && Succeed(second, id, w, end).rows[id].status == Succeeded
  {
    var first := Claim(db, id, w, lease, now);
    assert Expired(first.rows[id], later);
    assert Bury(first.rows, later)[id] == first.rows[id];
  }

  /** How many more moves a row can make. */
  function Rank(j: Job): int {
    match j.status
    case Queued => 2 * (j.maxAttempts - j.attempts)
    case Active => 2 * (j.maxAttempts - j.attempts) + 1
    case _ => 0
  }

  ghost function Touches(s: State, run: seq<Action>, id: nat): nat
    requires Legal(s, run)
    decreases |run|
  {
    if run == [] then 0
    else
      var s' := Apply(s, run[0]);
      (if id in s.db.rows && id in s'.db.rows && s'.db.rows[id] == s.db.rows[id] then 0 else 1)
      + Touches(s', run[1..], id)
  }

  lemma {:induction false} TouchesLowerRank(s: State, run: seq<Action>, id: nat)
    requires Inv(s) && Legal(s, run) && id in s.db.rows
    ensures id in After(s, run).db.rows && SameIdentity(s.db.rows[id], After(s, run).db.rows[id])
    ensures Touches(s, run, id) + Rank(After(s, run).db.rows[id]) <= Rank(s.db.rows[id])
    decreases |run|
  {
    if run != [] {
      var s' := Apply(s, run[0]);
      StepEvolves(s, run[0]);
      StepKeeps(s, run[0]);
      assert Edge(s.db.rows[id], s'.db.rows[id]) && RowOk(s.db.rows[id]) && RowOk(s'.db.rows[id]);
      TouchesLowerRank(s', run[1..], id);
    }
  }

  /** After it is enqueued a job's row changes at most 2 * max_attempts times, over
      claims, settles and reclaims by any number of workers, and not at all once it has
      succeeded or failed; meanwhile a queued row has attempts left, and a running one
      is within them, with a claimant and a lease. */
  lemma EveryJobSettles(run: seq<Action>, more: seq<Action>, id: nat)
    requires Legal(Initial(), run) && Legal(After(Initial(), run), more)
    requires id in After(Initial(), run).db.rows
    ensures var s := After(Initial(), run);
            var j := s.db.rows[id];
            && RowOk(j)
            && Touches(s, more, id) <= Rank(j) <= 2 * j.maxAttempts
            && (j.status == Succeeded || j.status == Failed ==>
                  After(s, more).db.rows.Keys >= {id} && After(s, more).db.rows[id] == j)
  {
    RunKeeps(Initial(), run);
    var s := After(Initial(), run);
    TouchesLowerRank(s, more, id);
    RunKeeps(s, more);
    assert RowOk(After(s, more).db.rows[id]);
    if s.db.rows[id].status in {Succeeded, Failed} { Untouched(s, more, id); }
  }

  lemma {:induction false} Untouched(s: State, run: seq<Action>, id: nat)
    requires Legal(s, run) && id in s.db.rows && Touches(s, run, id) == 0
    ensures id in After(s, run).db.rows && After(s, run).db.rows[id] == s.db.rows[id]
    decreases |run|
  {
    if run != [] { Untouched(Apply(s, run[0]), run[1..], id); }
  }

  /** At most one active job per (org, kind, dedupe_key), NULL org included, in every
      interleaving; and a keyed enqueue that returned a job returned one of its own
      identity. */
  lemma OneActiveJobPerKey(run: seq<Action>, a: nat, b: nat, p: nat)
    requires Legal(Initial(), run)
    ensures var s := After(Initial(), run);
            && (a in s.db.rows && b in s.db.rows && ShareKey(s.db.rows[a], s.db.rows[b]) ==> a == b)
            && (p in s.producers && s.producers[p].Returned? ==>
                  s.producers[p].id in s.db.rows
                    && MatchesRequest(s.db.rows[s.producers[p].id], s.producers[p].request))
  {
    RunKeeps(Initial(), run);
  }
}
