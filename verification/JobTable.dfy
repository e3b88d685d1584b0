/** The job and schedule tables and the transactions run on them
    (asas_jobs/models.py, queue.py, scheduler.py). Each function here is one committed
    transaction, or one statement of one; times are whole seconds of any clock. */
module JobTable {
  import opened Wrappers

  datatype Status = Queued | Active | Succeeded | Failed | Canceled

  /** A `background_job` row. `Active` is the source's `running`. */
  datatype Job = Job(
    kind: string,
    payload: string,
    org: Option<int>,
    status: Status,
    runAt: int,
    attempts: nat,
    maxAttempts: nat,
    claimedBy: Option<string>,
    lease: Option<int>,
    lastError: Option<string>,
    scheduleId: Option<nat>,
    dedupe: Option<string>,
    startedAt: Option<int>,
    finishedAt: Option<int>)

  /** A `job_schedule` row. */
  datatype Schedule = Schedule(
    kind: string,
    payload: string,
    org: Option<int>,
    every: int,
    enabled: bool,
    noOverlap: bool,
    nextRunAt: int,
    lastEnqueuedAt: Option<int>)

  datatype Db = Db(rows: map<nat, Job>, nextId: nat, schedules: map<nat, Schedule>, nextScheduleId: nat)

  const BACKOFF_BASE_SECONDS := 30
  const BACKOFF_CAP_SECONDS := 3600
  const DEFAULT_MAX_ATTEMPTS := 5
  const ERROR_LENGTH := 2000

  predicate IsActive(j: Job) {
    j.status == Queued || j.status == Active
  }

  // ---------------------------------------------------------------------------
  // Enqueue
  // ---------------------------------------------------------------------------

  /** The arguments of `enqueue` after its check that `max_attempts` is positive. */
  datatype Request = Request(
    kind: string, payload: string, org: Option<int>, runAt: int, scheduleId: Option<nat>,
    maxAttempts: nat, dedupe: Option<string>)

  function NewJob(r: Request): Job {
    Job(r.kind, r.payload, r.org, Queued, r.runAt, 0, r.maxAttempts, None, None, None, r.scheduleId, r.dedupe,
        None, None)
  }

  /** One idempotency identity: the org is compared with NULL as a value of its own. */
  predicate SameKey(j: Job, kind: string, org: Option<int>, key: string) {
    j.kind == kind && j.org == org && j.dedupe == Some(key)
  }

  predicate IsDuplicate(rows: map<nat, Job>, id: nat, kind: string, org: Option<int>, key: string) {
    id in rows && SameKey(rows[id], kind, org, key) && IsActive(rows[id])
  }

  /** The two partial unique indexes would refuse the row. */
  predicate Collides(rows: map<nat, Job>, j: Job) {
    j.dedupe.Some? && exists id :: id in rows && IsDuplicate(rows, id, j.kind, j.org, j.dedupe.value)
  }

  function Insert(db: Db, j: Job): Db {
    db.(rows := db.rows[db.nextId := j], nextId := db.nextId + 1)
  }

  // ---------------------------------------------------------------------------
  // Claim and settle
  // ---------------------------------------------------------------------------

  predicate Due(rows: map<nat, Job>, id: nat, now: int) {
    id in rows && rows[id].status == Queued && rows[id].runAt <= now
  }

  predicate IsQueued(rows: map<nat, Job>, id: nat) {
    id in rows && rows[id].status == Queued
  }

  function Claimed(j: Job, worker: string, lease: int, now: int): Job {
    j.(status := Active, claimedBy := Some(worker), lease := Some(now + lease), attempts := j.attempts + 1,
       startedAt := Some(now))
  }

  /** The claim's compare-and-set: nothing unless the row is still queued. */
  function Claim(db: Db, id: nat, worker: string, lease: int, now: int): Db {
    if IsQueued(db.rows, id) then db.(rows := db.rows[id := Claimed(db.rows[id], worker, lease, now)]) else db
  }

  /** What every settle compares: still running, still under this worker's name. */
  predicate HeldBy(rows: map<nat, Job>, id: nat, worker: string) {
    id in rows && rows[id].status == Active && rows[id].claimedBy == Some(worker)
  }

  function Settled(j: Job, status: Status, now: int): Job {
    j.(status := status, finishedAt := Some(now), claimedBy := None, lease := None)
  }

  function Succeed(db: Db, id: nat, worker: string, now: int): Db {
    if HeldBy(db.rows, id, worker) then db.(rows := db.rows[id := Settled(db.rows[id], Succeeded, now)]) else db
  }

  function Pow2(n: nat): nat {
    if n == 0 then 1 else 2 * Pow2(n - 1)
  }

  /** `min(BASE * 2 ** (attempts - 1), CAP)`; `attempts` is at least 1 after a claim. */
  function Backoff(attempts: nat): nat {
    var seconds := BACKOFF_BASE_SECONDS * Pow2(if attempts == 0 then 0 else attempts - 1);
    if seconds < BACKOFF_CAP_SECONDS then seconds else BACKOFF_CAP_SECONDS
  }

  function Clip(error: string): string {
    if |error| <= ERROR_LENGTH then error else error[..ERROR_LENGTH]
  }

  /** What `mark_failed` decides before its update, from the attempts it read. */
  datatype Verdict = DeadLetter | Retry(backoff: nat)

  function Judge(dead: bool, attempts: nat, maxAttempts: nat): Verdict {
    if dead || attempts >= maxAttempts then DeadLetter else Retry(Backoff(attempts))
  }

  function Failing(j: Job, v: Verdict, error: string, now: int): Job {
    match v
    case DeadLetter => Settled(j, Failed, now).(lastError := Some(Clip(error)))
    case Retry(backoff) =>
      j.(status := Queued, runAt := now + backoff, claimedBy := None, lease := None, lastError := Some(Clip(error)))
  }

  function Fail(db: Db, id: nat, worker: string, v: Verdict, error: string, now: int): Db {
    if HeldBy(db.rows, id, worker) then db.(rows := db.rows[id := Failing(db.rows[id], v, error, now)]) else db
  }

  // ---------------------------------------------------------------------------
  // Reclaim: two updates in one transaction
  // ---------------------------------------------------------------------------

  predicate Expired(j: Job, now: int) {
    j.status == Active && j.lease.Some? && j.lease.value < now
  }

  function BuriedRow(j: Job, now: int): Job {
    if Expired(j, now) && j.attempts >= j.maxAttempts
    then Settled(j, Failed, now).(lastError := Some("lease expired on final attempt (worker died mid-run)"))
    else j
  }

  function RequeuedRow(j: Job, now: int): Job {
    if Expired(j, now)
    then j.(status := Queued, runAt := now, claimedBy := None, lease := None,
            lastError := Some("lease expired (worker died mid-run); re-queued"))
    else j
  }

  function Bury(rows: map<nat, Job>, now: int): map<nat, Job> {
    map id | id in rows :: BuriedRow(rows[id], now)
  }

  function Requeue(rows: map<nat, Job>, now: int): map<nat, Job> {
    map id | id in rows :: RequeuedRow(rows[id], now)
  }

  function Reclaim(db: Db, now: int): Db {
    db.(rows := Requeue(Bury(db.rows, now), now))
  }

  // ---------------------------------------------------------------------------
  // Schedules
  // ---------------------------------------------------------------------------

  predicate HasActive(rows: map<nat, Job>, sid: nat) {
    exists id :: id in rows && rows[id].scheduleId == Some(sid) && IsActive(rows[id])
  }

  /** The plain values a tick keeps of one due schedule. */
  datatype Snapshot = Snapshot(
    sid: nat, nextRunAt: int, every: int, noOverlap: bool, kind: string, payload: string, org: Option<int>)

  function Snap(sid: nat, s: Schedule): Snapshot {
    Snapshot(sid, s.nextRunAt, s.every, s.noOverlap, s.kind, s.payload, s.org)
  }

  predicate IsDueSchedule(s: Schedule, now: int) {
    s.enabled && s.nextRunAt <= now
  }

  /** The tick's compare-and-set on `next_run_at`. */
  predicate TickWins(db: Db, snap: Snapshot) {
    snap.sid in db.schedules && db.schedules[snap.sid].nextRunAt == snap.nextRunAt
  }

  predicate Skips(db: Db, snap: Snapshot) {
    snap.noOverlap && HasActive(db.rows, snap.sid)
  }

  function TickJob(snap: Snapshot, now: int): Job {
    NewJob(Request(snap.kind, snap.payload, snap.org, now, Some(snap.sid), DEFAULT_MAX_ATTEMPTS, None))
  }

  /** One schedule's transaction: advance, and unless the previous run is still going,
      the job and the stamp with it; a lost compare-and-set is rolled back. */
  function Tick(db: Db, snap: Snapshot, now: int): Db {
    if !TickWins(db, snap) then db
    else
      var advanced := db.schedules[snap.sid].(nextRunAt := now + snap.every);
      if Skips(db, snap) then db.(schedules := db.schedules[snap.sid := advanced])
      else Insert(db.(schedules := db.schedules[snap.sid := advanced.(lastEnqueuedAt := Some(now))]),
                  TickJob(snap, now))
  }
}
