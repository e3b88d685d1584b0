/** Producers, workers, reclaimers and schedulers over one job database, one committed
    transaction or one read per step. Clocks are unrelated: every step that reads one is
    given the value it read. A worker id names one process at a time and may be reused
    after a crash (asas_jobs/queue.py, runner.py, scheduler.py). */
module JobMachine {
  import opened Wrappers
  import opened JobTable

  /** Where a process stands in `run_once`: it holds one job at a time. `token` is the
      history of which claim its handler runs under; no code reads it. `Judged` has
      read the attempts `mark_failed` decides on and not yet run its update. */
  datatype Worker =
    | Idle
    | Selected(id: nat)
    | Busy(id: nat, token: nat)
    | Judged(id: nat, token: nat, attempts: nat, maxAttempts: nat)

  /** Where a caller stands in `enqueue`. */
  datatype Producer =
    | Inserting(request: Request)
    | Refused(request: Request)
    | Returned(request: Request, id: nat)
    | Raised(request: Request)

  /** One pass of `tick_schedules`: its clock and the due rows it still has to try. */
  datatype Ticker = Ticker(now: int, pending: seq<Snapshot>)

  /** A tick that won: when, which `next_run_at` it took, the cadence it advanced by
      and the job it materialised, if any. */
  datatype Win = Win(now: int, due: int, every: int, job: Option<nat>)

  /** `tokens[id]` is the number of the latest claim of job `id`; `wins` and `loose`
      (schedules whose `no_overlap` was ever off) are history. */
  datatype State = State(
    db: Db,
    workers: map<string, Worker>,
    producers: map<nat, Producer>,
    tickers: map<nat, Ticker>,
    tokens: map<nat, nat>,
    nextToken: nat,
    wins: map<nat, seq<Win>>,
    loose: set<nat>)

  datatype Action =
    | Lookup(p: nat, request: Request, found: Option<nat>)
    | TryInsert(p: nat)
    | LookAgain(p: nat, found: Option<nat>)
    | Select(w: string, id: nat, now: int)
    | ClaimCas(w: string, lease: int, now: int)
    | SettleOk(w: string, now: int)
    | ReadBack(w: string)
    | SettleFailed(w: string, error: string, now: int)
    | SettleDead(w: string, error: string, now: int)
    | Crash(w: string)
    | ReclaimExpired(now: int)
    | OpenTick(t: nat, now: int, due: seq<nat>)
    | TickOne(t: nat)
    | CreateSchedule(schedule: Schedule)
    | EditSchedule(sid: nat, every: int, noOverlap: bool)
    | SetEnabled(sid: nat, enabled: bool)

  function Initial(): State {
    State(Db(map[], 0, map[], 0), map[], map[], map[], map[], 0, map[], {})
  }

  function WorkerAt(s: State, w: string): Worker {
    if w in s.workers then s.workers[w] else Idle
  }

  function WinsOf(s: State, sid: nat): seq<Win> {
    if sid in s.wins then s.wins[sid] else []
  }

  /** What a lookup by idempotency key may answer. */
  ghost predicate Answers(rows: map<nat, Job>, r: Request, found: Option<nat>)
    requires r.dedupe.Some?
  {
    match found
    case Some(id) => IsDuplicate(rows, id, r.kind, r.org, r.dedupe.value)
    case None => forall id :: id in rows ==> !IsDuplicate(rows, id, r.kind, r.org, r.dedupe.value)
  }

  /** Every enabled schedule that is due, once. */
  ghost predicate ListsDue(db: Db, now: int, due: seq<nat>) {
    && (forall i, j :: 0 <= i < j < |due| ==> due[i] != due[j])
    && (forall sid :: sid in due <==> sid in db.schedules && IsDueSchedule(db.schedules[sid], now))
  }

  ghost predicate Enabled(s: State, a: Action) {
    match a
    case Lookup(p, r, found) =>
      && p !in s.producers && r.maxAttempts > 0 && r.scheduleId.None?
      && (if r.dedupe.Some? then Answers(s.db.rows, r, found) else found.None?)
    case TryInsert(p) => p in s.producers && s.producers[p].Inserting?
    case LookAgain(p, found) =>
      && p in s.producers && s.producers[p].Refused?
      && (if s.producers[p].request.dedupe.Some? then Answers(s.db.rows, s.producers[p].request, found)
          else found.None?)
    case Select(w, id, now) => WorkerAt(s, w).Idle? && Due(s.db.rows, id, now)
    case ClaimCas(w, _, _) => WorkerAt(s, w).Selected?
    case SettleOk(w, _) => WorkerAt(s, w).Busy?
    case ReadBack(w) => WorkerAt(s, w).Busy? && WorkerAt(s, w).id in s.db.rows
    case SettleFailed(w, _, _) => WorkerAt(s, w).Judged?
    case SettleDead(w, _, _) => WorkerAt(s, w).Busy?
    case Crash(w) => true
    case ReclaimExpired(_) => true
    case OpenTick(t, now, due) => t !in s.tickers && ListsDue(s.db, now, due)
    case TickOne(t) => t in s.tickers && s.tickers[t].pending != []
    case CreateSchedule(c) =>
      && c.every > 0
      && forall sid :: sid in s.db.schedules ==> s.db.schedules[sid].kind != c.kind || s.db.schedules[sid].org != c.org
    case EditSchedule(sid, every, _) => sid in s.db.schedules && every > 0
    case SetEnabled(sid, _) => sid in s.db.schedules
  }

  function Snaps(db: Db, due: seq<nat>): (snaps: seq<Snapshot>)
    requires forall sid :: sid in due ==> sid in db.schedules
    ensures |snaps| == |due| && forall i :: 0 <= i < |due| ==> snaps[i] == Snap(due[i], db.schedules[due[i]])
  {
    if due == [] then [] else [Snap(due[0], db.schedules[due[0]])] + Snaps(db, due[1..])
  }

  function DoTick(s: State, t: nat): State
    requires t in s.tickers && s.tickers[t].pending != []
  {
    var Ticker(now, pending) := s.tickers[t];
    var snap := pending[0];
    var s' := s.(db := Tick(s.db, snap, now), tickers := s.tickers[t := Ticker(now, pending[1..])]);
    if !TickWins(s.db, snap) then s'
    else
      var job := if Skips(s.db, snap) then None else Some(s.db.nextId);
      s'.(wins := s.wins[snap.sid := WinsOf(s, snap.sid) + [Win(now, snap.nextRunAt, snap.every, job)]])
  }

  ghost function Apply(s: State, a: Action): State
    requires Enabled(s, a)
  {
    match a
    case Lookup(p, r, found) =>
      s.(producers := s.producers[p := match found case Some(id) => Returned(r, id) case None => Inserting(r)])
    case TryInsert(p) =>
      var r := s.producers[p].request;
      if Collides(s.db.rows, NewJob(r)) then s.(producers := s.producers[p := Refused(r)])
      else s.(db := Insert(s.db, NewJob(r)), producers := s.producers[p := Returned(r, s.db.nextId)])
    case LookAgain(p, found) =>
      var r := s.producers[p].request;
      s.(producers := s.producers[p := match found case Some(id) => Returned(r, id) case None => Raised(r)])
    case Select(w, id, _) => s.(workers := s.workers[w := Selected(id)])
    case ClaimCas(w, lease, now) =>
      var id := WorkerAt(s, w).id;
      if IsQueued(s.db.rows, id) then
        s.(db := Claim(s.db, id, w, lease, now), workers := s.workers[w := Busy(id, s.nextToken)],
           tokens := s.tokens[id := s.nextToken], nextToken := s.nextToken + 1)
      else s.(workers := s.workers[w := Idle])
    case SettleOk(w, now) =>
      s.(db := Succeed(s.db, WorkerAt(s, w).id, w, now), workers := s.workers[w := Idle])
    case ReadBack(w) =>
      var Busy(id, token) := WorkerAt(s, w);
      s.(workers := s.workers[w := Judged(id, token, s.db.rows[id].attempts, s.db.rows[id].maxAttempts)])
    case SettleFailed(w, error, now) =>
      var Judged(id, _, attempts, maxAttempts) := WorkerAt(s, w);
      s.(db := Fail(s.db, id, w, Judge(false, attempts, maxAttempts), error, now), workers := s.workers[w := Idle])
    case SettleDead(w, error, now) =>
      s.(db := Fail(s.db, WorkerAt(s, w).id, w, DeadLetter, error, now), workers := s.workers[w := Idle])
    case Crash(w) => s.(workers := s.workers[w := Idle])
    case ReclaimExpired(now) => s.(db := Reclaim(s.db, now))
    case OpenTick(t, now, due) => s.(tickers := s.tickers[t := Ticker(now, Snaps(s.db, due))])
    case TickOne(t) => DoTick(s, t)
    case CreateSchedule(c) =>
      var sid := s.db.nextScheduleId;
      s.(db := s.db.(schedules := s.db.schedules[sid := c], nextScheduleId := sid + 1),
         loose := if c.noOverlap then s.loose else s.loose + {sid})
    case EditSchedule(sid, every, noOverlap) =>
      s.(db := s.db.(schedules := s.db.schedules[sid := s.db.schedules[sid].(every := every, noOverlap := noOverlap)]),
         loose := if noOverlap then s.loose else s.loose + {sid})
    case SetEnabled(sid, enabled) =>
      s.(db := s.db.(schedules := s.db.schedules[sid := s.db.schedules[sid].(enabled := enabled)]))
  }

  ghost predicate Legal(s: State, run: seq<Action>)
    decreases |run|
  {
    run == [] || (Enabled(s, run[0]) && Legal(Apply(s, run[0]), run[1..]))
  }

  ghost function After(s: State, run: seq<Action>): State
    requires Legal(s, run)
    decreases |run|
  {
    if run == [] then s else After(Apply(s, run[0]), run[1..])
  }
}
