/** The queue's functions as they run: reads and transactions on a shared database,
    with whatever other processes commit in between (asas_jobs/queue.py, runner.py,
    scheduler.py). */
module JobStore {
  import opened Wrappers
  import opened JobTable
  import opened JobWorker
  import JobMachine

  /** What other processes have made of the database after `n` more gaps. */
  function Drift(others: (nat, Db) -> Db, db: Db, clock: nat, n: nat): Db {
    if n == 0 then db else others(clock + n - 1, Drift(others, db, clock, n - 1))
  }

  lemma TwoGaps(others: (nat, Db) -> Db, db: Db, clock: nat)
    ensures Drift(others, db, clock, 1) == others(clock, db)
    ensures Drift(others, db, clock, 2) == others(clock + 1, others(clock, db))
  {
    assert Drift(others, db, clock, 1) == others(clock, Drift(others, db, clock, 0));
  }

  lemma NextDrifts(others: (nat, Db) -> Db, db: Db, clock: nat, n: nat)
    ensures Drift(others, db, clock, n + 1) == others(clock + n, Drift(others, db, clock, n))
    ensures Drift(others, db, clock, n + 2) == others(clock + n + 1, Drift(others, db, clock, n + 1))
  {
  }

  /** A queued row whose time has come, and none of the others that is was due before it. */
  predicate IsOldestDue(rows: map<nat, Job>, id: nat, now: int) {
    && id in rows && rows[id].status == Queued && rows[id].runAt <= now
    && forall other :: other in rows && rows[other].status == Queued ==>
         rows[id].runAt <= rows[other].runAt || now < rows[other].runAt
  }

  /** `n` gaps after `start`, a claim of a queued row that was the oldest due one a gap
      before is all that was added. */
  predicate Claims(
    others: (nat, Db) -> Db, start: Scene, n: nat, id: nat, worker: string, lease: int, now: int, db: Db)
  {
    && n > 0
    && IsOldestDue(Drift(others, start.db, start.clock, n - 1).rows, id, now)
    && var at := Drift(others, start.db, start.clock, n);
       && id in at.rows && at.rows[id].status == Queued
       && var j := at.rows[id];
          db == at.(rows := at.rows[id :=
            j.(status := Active, claimedBy := Some(worker), lease := Some(now + lease), attempts := j.attempts + 1,
               startedAt := Some(now))])
  }

  lemma ClaimsNow(others: (nat, Db) -> Db, start: Scene, n: nat, id: nat, worker: string, lease: int, now: int)
    requires n > 0 && IsOldestDue(Drift(others, start.db, start.clock, n - 1).rows, id, now)
    requires IsQueued(Drift(others, start.db, start.clock, n).rows, id)
    ensures var at := Drift(others, start.db, start.clock, n);
            Claims(others, start, n, id, worker, lease, now, Claim(at, id, worker, lease, now))
  {
  }

  lemma TryFindsNothing(
    others: (nat, Db) -> Db, start: Scene, worker: string, turns: seq<Turn>, db: Db, clock: nat)
    returns (more: seq<Turn>)
    requires clock == start.clock + |turns| && db == Drift(others, start.db, start.clock, |turns|)
    requires Leads(others, start, worker, turns, Scene(db, clock, Free, []))
    ensures |more| == |turns| + 1 && others(clock, db) == Drift(others, start.db, start.clock, |more|)
    ensures Leads(others, start, worker, more, Scene(others(clock, db), clock + 1, Free, []))
  {
    NextDrifts(others, start.db, start.clock, |turns|);
    OneTurn(others, start, worker, turns, Scene(db, clock, Free, []), Nothing);
    more := turns + [Nothing];
  }

  /** What a select that found `id` and the compare-and-set after it come to. */
  lemma TryEnds(
    others: (nat, Db) -> Db, start: Scene, worker: string, turns: seq<Turn>, db: Db, clock: nat, id: nat,
    lease: int, now: int)
    returns (more: seq<Turn>)
    requires start.role.Free? && clock == start.clock + |turns|
    requires db == Drift(others, start.db, start.clock, |turns|)
    requires Leads(others, start, worker, turns, Scene(db, clock, Free, []))
    requires TriesOnly(turns) && |turns| % 2 == 0 && IsOldestDue(others(clock, db).rows, id, now)
    ensures |more| == |turns| + 2 && TriesOnly(more)
    ensures var at := others(clock + 1, others(clock, db));
            && at == Drift(others, start.db, start.clock, |more|)
            && (if IsQueued(at.rows, id) then
                  && Claims(others, start, |more|, id, worker, lease, now, Claim(at, id, worker, lease, now))
                  && Leads(others, start, worker, more,
                       Scene(Claim(at, id, worker, lease, now), clock + 2, Holding(id), [Took(id)]))
                else Leads(others, start, worker, more, Scene(at, clock + 2, Free, [])))
  {
    NextDrifts(others, start.db, start.clock, |turns|);
    more := LookAndClaim(others, start, worker, turns, Scene(db, clock, Free, []), id, lease, now);
    MoreTries(turns, more);
    if IsQueued(others(clock + 1, others(clock, db)).rows, id) {
      ClaimsNow(others, start, |more|, id, worker, lease, now);
    }
  }

  datatype ScheduleError = InvalidCadence | LostTwice

  predicate IsSchedule(db: Db, sid: nat, kind: string, org: Option<int>) {
    sid in db.schedules && db.schedules[sid].kind == kind && db.schedules[sid].org == org
  }

  predicate NoSchedule(db: Db, kind: string, org: Option<int>) {
    forall sid :: sid in db.schedules ==> db.schedules[sid].kind != kind || db.schedules[sid].org != org
  }

  function Created(db: Db, s: Schedule): Db {
    db.(schedules := db.schedules[db.nextScheduleId := s], nextScheduleId := db.nextScheduleId + 1)
  }

  /** The schedule read `seen` gaps after the start is brought to the declared values: at
      once there if it has them, and otherwise one gap later, when the columns that
      differed get them and the rest, whoever wrote it since, stays. */
  predicate Converges(
    others: (nat, Db) -> Db, start: Db, clock: nat, seen: nat, gaps: nat, sid: nat,
    kind: string, org: Option<int>, every: int, noOverlap: bool, db: Db)
  {
    var read := Drift(others, start, clock, seen);
    && IsSchedule(read, sid, kind, org)
    && var s := read.schedules[sid];
       if s.every == every && s.noOverlap == noOverlap then gaps == seen && db == read
       else
         var at := Drift(others, start, clock, gaps);
         && gaps == seen + 1 && sid in at.schedules
         && db == at.(schedules := at.schedules[sid := at.schedules[sid].(
              every := if s.every == every then at.schedules[sid].every else every,
              noOverlap := if s.noOverlap == noOverlap then at.schedules[sid].noOverlap else noOverlap)])
  }

  ghost predicate NobodyElse(others: (nat, Db) -> Db) {
    forall k: nat, d: Db :: others(k, d) == d
  }

  /** The schedule has the declared values. */
  predicate IsDeclared(db: Db, sid: nat, kind: string, org: Option<int>, every: int, noOverlap: bool) {
    && IsSchedule(db, sid, kind, org)
    && db.schedules[sid].every == every && db.schedules[sid].noOverlap == noOverlap
  }

  lemma QuietConverge(
    others: (nat, Db) -> Db, start: Db, clock: nat, seen: nat, gaps: nat, sid: nat, kind: string, org: Option<int>,
    every: int, noOverlap: bool, db: Db)
    requires NobodyElse(others) && Converges(others, start, clock, seen, gaps, sid, kind, org, every, noOverlap, db)
    ensures IsDeclared(db, sid, kind, org, every, noOverlap)
  {
    NextDrifts(others, start, clock, seen);
    assert Drift(others, start, clock, seen + 1) == Drift(others, start, clock, seen);
  }

  /** An active job of the request's kind, organisation and key. */
  predicate Identifies(rows: map<nat, Job>, id: nat, q: Request) {
    && id in rows && (rows[id].status == Queued || rows[id].status == Active)
    && rows[id].kind == q.kind && rows[id].org == q.org && rows[id].dedupe == q.dedupe
  }

  predicate HasIdentified(rows: map<nat, Job>, q: Request) {
    exists id :: id in rows && Identifies(rows, id, q)
  }

  /** A job of the schedule is queued or running. */
  predicate HasOpenJob(rows: map<nat, Job>, sid: nat) {
    exists id :: id in rows && rows[id].scheduleId == Some(sid)
              && (rows[id].status == Queued || rows[id].status == Active)
  }

  /** A running job whose lease has lapsed is failed for good once its attempts are used up
      and queued again, due at once, before; any other row stays. */
  predicate ReclaimedAs(j: Job, j': Job, now: int) {
    if j.status != Active || j.lease.None? || j.lease.value >= now then j' == j
    else if j.attempts >= j.maxAttempts then
      j' == j.(status := Failed, finishedAt := Some(now), claimedBy := None, lease := None,
               lastError := Some("lease expired on final attempt (worker died mid-run)"))
    else
      j' == j.(status := Queued, runAt := now, claimedBy := None, lease := None,
               lastError := Some("lease expired (worker died mid-run); re-queued"))
  }

  predicate AllReclaimed(rows: map<nat, Job>, rows': map<nat, Job>, now: int) {
    rows'.Keys == rows.Keys && forall id :: id in rows' ==> ReclaimedAs(rows[id], rows'[id], now)
  }

  lemma ReclaimColumns(db: Db, now: int)
    ensures AllReclaimed(db.rows, Reclaim(db, now).rows, now)
  {
    var buried := Bury(db.rows, now);
    forall id | id in buried
      ensures ReclaimedAs(db.rows[id], RequeuedRow(buried[id], now), now)
    {
      assert buried[id] == BuriedRow(db.rows[id], now);
    }
  }

  /** The row the request asks for, not yet attempted. */
  predicate IsNewJob(j: Job, q: Request) {
    && j.kind == q.kind && j.payload == q.payload && j.org == q.org && j.dedupe == q.dedupe
    && j.runAt == q.runAt && j.maxAttempts == q.maxAttempts && j.scheduleId == q.scheduleId
    && j.status == Queued && j.attempts == 0 && j.claimedBy.None? && j.lease.None? && j.lastError.None?
    && j.startedAt.None? && j.finishedAt.None?
  }

  datatype EnqueueError = InvalidAttempts | Conflict

  /** What a handler does with a job, or that none is registered for its kind. */
  datatype Outcome = NoHandler | Finished | Raised(error: string)

  const CLAIM_TRIES := 5
  const MAX_JOBS_PER_PASS := 50

  /** `pass` handled `ran` jobs one after the other: each claim is followed by the
      settle of the same job before the next claim. */
  predicate OneAtATime(acts: seq<Act>, ran: nat) {
    && |acts| == 2 * ran
    && forall k: nat :: k < ran ==>
         acts[2 * k].Took? && acts[2 * k + 1].Settle? && acts[2 * k + 1].id == acts[2 * k].id
  }

  /** Nothing but selects, each followed by the compare-and-set on what it found. */
  predicate TriesOnly(turns: seq<Turn>) {
    forall k :: 0 <= k < |turns| ==>
      turns[k].Own? && if k % 2 == 0 then turns[k].a.Select? else turns[k].a.ClaimCas?
  }

  predicate NoneDue(db: Db, now: int) {
    forall id :: id in db.rows && db.rows[id].status == Queued ==> now < db.rows[id].runAt
  }

  /** The worker gave up: nothing was due when it last looked, or it has just lost five
      claims in a row. */
  predicate GaveUp(db: Db, now: int, turns: seq<Turn>) {
    NoneDue(db, now) || (|turns| >= 10 && TriesOnly(turns[|turns| - 10..]))
  }

  /** The tick of this snapshot materialises a job. */
  predicate Materialises(db: Db, snap: Snapshot) {
    TickWins(db, snap) && !Skips(db, snap)
  }

  /** The schedules of `due`, one transaction each, others running before each; and how
      many of them materialised a job. */
  function TickAll(others: (nat, Db) -> Db, db: Db, clock: nat, due: seq<Snapshot>, now: int): (Db, nat)
    decreases |due|
  {
    if due == [] then (db, 0)
    else
      var seen := others(clock, db);
      var (end, jobs) := TickAll(others, Tick(seen, due[0], now), clock + 1, due[1..], now);
      (end, jobs + if Materialises(seen, due[0]) then 1 else 0)
  }

  /** With the first `i` schedules ticked and `enqueued` jobs added, the rest is to come. */
  predicate Remains(
    others: (nat, Db) -> Db, start: Db, from: nat, due: seq<Snapshot>, now: int, i: nat, db: Db, clock: nat,
    enqueued: nat)
    requires i <= |due|
  {
    var whole, rest := TickAll(others, start, from, due, now), TickAll(others, db, clock, due[i..], now);
    whole.0 == rest.0 && whole.1 == enqueued + rest.1
  }

  lemma RemainsNext(
    others: (nat, Db) -> Db, start: Db, from: nat, due: seq<Snapshot>, now: int, i: nat, db: Db, clock: nat,
    enqueued: nat)
    requires i < |due| && Remains(others, start, from, due, now, i, db, clock, enqueued)
    ensures var seen := others(clock, db);
            Remains(others, start, from, due, now, i + 1, Tick(seen, due[i], now), clock + 1,
              enqueued + if Materialises(seen, due[i]) then 1 else 0)
  {
    assert due[i..][0] == due[i] && due[i..][1..] == due[i + 1..];
  }

  predicate HasValuesOf(snap: Snapshot, s: Schedule) {
    && snap.nextRunAt == s.nextRunAt && snap.every == s.every && snap.noOverlap == s.noOverlap
    && snap.kind == s.kind && snap.payload == s.payload && snap.org == s.org
  }

  /** `due` holds the values of every schedule that is due, once each, and of no other. */
  predicate IsDueList(db: Db, now: int, due: seq<Snapshot>) {
    && (forall snap :: snap in due ==>
          && snap.sid in db.schedules && db.schedules[snap.sid].enabled && db.schedules[snap.sid].nextRunAt <= now
          && HasValuesOf(snap, db.schedules[snap.sid]))
    && (forall sid :: sid in db.schedules && db.schedules[sid].enabled && db.schedules[sid].nextRunAt <= now ==>
          exists snap :: snap in due && snap.sid == sid)
    && (forall i, j :: 0 <= i < j < |due| ==> due[i].sid != due[j].sid)
  }

  lemma MoreTries(turns: seq<Turn>, more: seq<Turn>)
    requires TriesOnly(turns) && |turns| % 2 == 0 && |more| == |turns| + 2 && more[..|turns|] == turns
    requires more[|turns|].Own? && more[|turns|].a.Select? && more[|turns| + 1].Own? && more[|turns| + 1].a.ClaimCas?
    ensures TriesOnly(more)
  {
    assert forall k :: 0 <= k < |turns| ==> more[k] == more[..|turns|][k];
  }

  lemma GaveUpLater(db: Db, now: int, turns: seq<Turn>, more: seq<Turn>)
    requires GaveUp(db, now, more)
    ensures GaveUp(db, now, turns + more)
  {
    var all := turns + more;
    if |more| >= 10 {
      assert all[|all| - 10..] == more[|more| - 10..];
    }
  }

  // ---------------------------------------------------------------------------
  // The turns of an execution
  // ---------------------------------------------------------------------------

  lemma DeadLeads(others: (nat, Db) -> Db, start: Scene, w: string, error: string, now: int) returns (turns: seq<Turn>)
    requires start.role.Holding? && start.acts == []
    ensures |turns| == 1
    ensures var at, id := Drift(others, start.db, start.clock, 1), start.role.id;
            && at == others(start.clock, start.db)
            && Leads(others, start, w, turns, Scene(Fail(at, id, w, DeadLetter, error, now), start.clock + 1, Free,
                       [Settle(id, HeldBy(at.rows, id, w))]))
  {
    turns := [Own(JobMachine.SettleDead(w, error, now))];
    OneTurn(others, start, w, [], start, turns[0]);
    NextDrifts(others, start.db, start.clock, 0);
  }

  lemma OkLeads(others: (nat, Db) -> Db, start: Scene, w: string, now: int) returns (turns: seq<Turn>)
    requires start.role.Holding? && start.acts == []
    ensures |turns| == 1
    ensures var at, id := Drift(others, start.db, start.clock, 1), start.role.id;
            && at == others(start.clock, start.db)
            && Leads(others, start, w, turns, Scene(Succeed(at, id, w, now), start.clock + 1, Free,
                       [Settle(id, HeldBy(at.rows, id, w))]))
  {
    turns := [Own(JobMachine.SettleOk(w, now))];
    OneTurn(others, start, w, [], start, turns[0]);
    NextDrifts(others, start.db, start.clock, 0);
  }

  lemma FailLeads(others: (nat, Db) -> Db, start: Scene, w: string, error: string, now: int) returns (turns: seq<Turn>)
    requires start.role.Holding? && start.acts == [] && start.role.id in others(start.clock, start.db).rows
    ensures |turns| == 2
    ensures var read, at := Drift(others, start.db, start.clock, 1), Drift(others, start.db, start.clock, 2);
            var id := start.role.id;
            && read == others(start.clock, start.db) && at == others(start.clock + 1, read) && id in read.rows
            && var verdict := Judge(false, read.rows[id].attempts, read.rows[id].maxAttempts);
               Leads(others, start, w, turns, Scene(Fail(at, id, w, verdict, error, now), start.clock + 2, Free,
                       [Settle(id, HeldBy(at.rows, id, w))]))
  {
    var read, fail := Own(JobMachine.ReadBack(w)), Own(JobMachine.SettleFailed(w, error, now));
    OneTurn(others, start, w, [], start, read);
    OneTurn(others, start, w, [read], Next(others, start, w, read), fail);
    turns := [read] + [fail];
    TwoGaps(others, start.db, start.clock);
  }

  class Store {
    var db: Db
    /** Counts the gaps in which others may run. */
    var clock: nat
    const others: (nat, Db) -> Db

    constructor (db: Db, others: (nat, Db) -> Db)
      ensures this.db == db && this.others == others && clock == 0
    {
      this.db, this.others, clock := db, others, 0;
    }

    method Gap()
      modifies this
      ensures clock == old(clock) + 1 && db == others(old(clock), old(db))
    {
      db := others(clock, db);
      clock := clock + 1;
    }

    /** The candidate select: the oldest due queued row, if any. */
    method OldestDue(now: int) returns (r: Option<nat>)
      ensures r.Some? ==> IsOldestDue(db.rows, r.value, now)
      ensures r.None? ==> NoneDue(db, now)
    {
      r := None;
      var left := db.rows.Keys;
      while left != {}
        invariant left <= db.rows.Keys
        invariant r.Some? ==> Due(db.rows, r.value, now)
        invariant forall id :: id in db.rows && id !in left && Due(db.rows, id, now) ==>
                    r.Some? && db.rows[r.value].runAt <= db.rows[id].runAt
        decreases left
      {
        var id :| id in left;
        left := left - {id};
        if Due(db.rows, id, now) && (r.None? || db.rows[id].runAt < db.rows[r.value].runAt) {
          r := Some(id);
        }
      }
    }

    /** The compare-and-set that claims: nothing unless the row is still queued. */
    method CompareAndClaim(id: nat, worker: string, lease: int, now: int) returns (won: bool)
      modifies this
      ensures clock == old(clock) + 1
      ensures var at := others(old(clock), old(db));
              && (won <==> id in at.rows && at.rows[id].status == Queued)
              && db == if won then Claim(at, id, worker, lease, now) else at
    {
      Gap();
      won := id in db.rows && db.rows[id].status == Queued;
      if won {
        db := Claim(db, id, worker, lease, now);
      }
    }

    /** One try of `claim_next`: nothing due, a lost compare-and-set, or a claim. */
    method TryClaim(worker: string, lease: int, now: int, ghost start: Scene, ghost turns: seq<Turn>)
      returns (found: Option<nat>, won: bool, ghost more: seq<Turn>)
      requires start.role.Free? && db == Drift(others, start.db, start.clock, |turns|) && clock == start.clock + |turns|
      requires Leads(others, start, worker, turns, Scene(db, clock, Free, []))
      requires TriesOnly(turns) && |turns| % 2 == 0
      modifies this
      ensures clock == start.clock + |more| && |more| == |turns| + if found.Some? then 2 else 1
      ensures won ==> found.Some? && Claims(others, start, |more|, found.value, worker, lease, now, db)
      ensures !won ==> db == Drift(others, start.db, start.clock, |more|)
      ensures if found.Some? then TriesOnly(more) else NoneDue(db, now) && !won
      ensures Leads(others, start, worker, more,
                if won then Scene(db, clock, Holding(found.value), [Took(found.value)]) else Scene(db, clock, Free, []))
    {
      ghost var was, at := db, clock;
      Gap();
      found := OldestDue(now);
      if found.None? {
        more := TryFindsNothing(others, start, worker, turns, was, at);
        won := false;
      } else {
        more := TryEnds(others, start, worker, turns, was, at, found.value, lease, now);
        won := CompareAndClaim(found.value, worker, lease, now);
      }
    }

    /** `claim_next`: up to five tries of select, then compare-and-set. Whatever others
        do, the call's own effect is one claim, of a row that was the oldest due one it
        saw and is still queued, or nothing. */
    method ClaimNext(worker: string, lease: int, now: int) returns (r: Option<nat>, ghost turns: seq<Turn>)
      modifies this
      ensures clock == old(clock) + |turns| && |turns| <= 10
      ensures var start := Scene(old(db), old(clock), Free, []);
              match r
              case Some(id) =>
                && Claims(others, start, |turns|, id, worker, lease, now, db)
                && Leads(others, start, worker, turns, Scene(db, clock, Holding(id), [Took(id)]))
              case None =>
                && db == Drift(others, old(db), old(clock), |turns|) && GaveUp(db, now, turns)
                && Leads(others, start, worker, turns, Scene(db, clock, Free, []))
    {
      turns := [];
      ghost var start := Scene(db, clock, Free, []);
      for i := 0 to CLAIM_TRIES
        invariant |turns| == 2 * i && clock == start.clock + |turns|
        invariant db == Drift(others, start.db, start.clock, |turns|) && TriesOnly(turns)
        invariant Leads(others, start, worker, turns, Scene(db, clock, Free, []))
      {
        var found, won;
        found, won, turns := TryClaim(worker, lease, now, start, turns);
        if found.None? || won {
          return found, turns;
        }
      }
      assert turns[|turns| - 10..] == turns;
      r := None;
    }

    /** `mark_succeeded`: true exactly when the row was still this claimant's, and then
        only that row changed. */
    method MarkSucceeded(id: nat, claimant: string, now: int) returns (ok: bool)
      modifies this`db
      ensures ok <==> id in old(db).rows && old(db).rows[id].status == Active
                      && old(db).rows[id].claimedBy == Some(claimant)
      ensures db == if !ok then old(db) else old(db).(rows := old(db).rows[id :=
                old(db).rows[id].(status := Succeeded, finishedAt := Some(now), claimedBy := None, lease := None)])
      ensures ok == HeldBy(old(db).rows, id, claimant) && db == Succeed(old(db), id, claimant, now)
    {
      ok := HeldBy(db.rows, id, claimant);
      if ok {
        var j := db.rows[id];
        var settled := j.(status := Succeeded, finishedAt := Some(now), claimedBy := None, lease := None);
        db := db.(rows := db.rows[id := settled]);
      }
    }

    /** `mark_failed`: the attempts are read, others may run, then the compare-and-set. */
    method MarkFailed(id: nat, claimant: string, error: string, dead: bool, now: int) returns (ok: bool, ghost seen: Db)
      requires id in db.rows
      modifies this
      ensures clock == old(clock) + 1 && seen == old(db)
      ensures var at := others(old(clock), old(db));
              && ok == HeldBy(at.rows, id, claimant)
              && var verdict := Judge(dead, seen.rows[id].attempts, seen.rows[id].maxAttempts);
                 db == Fail(at, id, claimant, verdict, error, now)
      ensures var at, attempts := others(old(clock), old(db)), old(db).rows[id].attempts;
              && (ok <==> id in at.rows && at.rows[id].status == Active && at.rows[id].claimedBy == Some(claimant))
              && (if !ok then db == at
                  else
                    var j := at.rows[id].(lastError := Some(if |error| <= 2000 then error else error[..2000]),
                                          claimedBy := None, lease := None);
                    db == at.(rows := at.rows[id :=
                      if dead || attempts >= old(db).rows[id].maxAttempts
                      then j.(status := Failed, finishedAt := Some(now))
                      else j.(status := Queued, runAt := now + Backoff(attempts))]))
    {
      seen := db;
      var attempts, maxAttempts := db.rows[id].attempts, db.rows[id].maxAttempts;
      Gap();
      ok := HeldBy(db.rows, id, claimant);
      if ok {
        var j := db.rows[id].(lastError := Some(Clip(error)), claimedBy := None, lease := None);
        if dead || attempts >= maxAttempts {
          j := j.(status := Failed, finishedAt := Some(now));
        } else {
          j := j.(status := Queued, runAt := now + Backoff(attempts));
        }
        db := db.(rows := db.rows[id := j]);
      }
    }

    /** `reclaim_expired`: nothing without a lapsed lease, else both updates. */
    method ReclaimExpired(now: int) returns (n: nat)
      modifies this`db
      ensures db == Reclaim(old(db), now)
      ensures db == old(db).(rows := db.rows) && AllReclaimed(old(db).rows, db.rows, now)
      ensures n == |set id | id in old(db).rows && Expired(old(db).rows[id], now)|
    {
      var expired := set id | id in db.rows && Expired(db.rows[id], now);
      n := |expired|;
      if expired == {} {
        assert forall id :: id in db.rows && Expired(db.rows[id], now) ==> id in expired;
        assert Bury(db.rows, now) == db.rows && Requeue(db.rows, now) == db.rows;
        ReclaimColumns(db, now);
        return;
      }
      ReclaimColumns(db, now);
      db := db.(rows := Bury(db.rows, now));
      db := db.(rows := Requeue(db.rows, now));
    }

    method FindDuplicate(kind: string, org: Option<int>, key: string) returns (r: Option<nat>)
      ensures r.Some? ==> IsDuplicate(db.rows, r.value, kind, org, key)
      ensures r.None? ==> forall id :: id in db.rows ==> !IsDuplicate(db.rows, id, kind, org, key)
    {
      if id :| id in db.rows && IsDuplicate(db.rows, id, kind, org, key) {
        r := Some(id);
      } else {
        r := None;
      }
    }

    /** `enqueue`: with a key, an active job of the same identity is returned instead of
        a second one; the loser of an insert race returns the winner, or raises when
        the winner has settled meanwhile. No call leaves two. */
    method Enqueue(q: Request) returns (r: Result<nat, EnqueueError>, ghost gaps: nat)
      requires forall id :: id in db.rows ==> id < db.nextId
      requires forall k: nat, d: Db :: (forall id :: id in d.rows ==> id < d.nextId) ==>
                 forall id :: id in others(k, d).rows ==> id < others(k, d).nextId
      modifies this
      ensures clock == old(clock) + gaps && gaps <= 2
      ensures var at := Drift(others, old(db), old(clock), gaps);
              match r
              case Ok(id) =>
                && id in db.rows
                && (db == at ==> q.dedupe.Some? && Identifies(db.rows, id, q))
                && (db != at ==>
                      && id == at.nextId && db == at.(rows := at.rows[id := db.rows[id]], nextId := id + 1)
                      && IsNewJob(db.rows[id], q)
                      && (q.dedupe.Some? ==> forall other :: other in at.rows ==> !Identifies(at.rows, other, q)))
              case Err(e) =>
                && db == at
                && (e.InvalidAttempts? <==> q.maxAttempts == 0)
                && (e.Conflict? ==>
                      q.dedupe.Some? && forall other :: other in db.rows ==> !Identifies(db.rows, other, q))
      ensures q.maxAttempts > 0 && q.dedupe.Some? && HasIdentified(old(db).rows, q) ==>
                r.Ok? && db == old(db) && gaps == 0
    {
      gaps := 0;
      if q.maxAttempts == 0 {
        return Err(InvalidAttempts), 0;
      }
      if q.dedupe.Some? {
        var existing := FindDuplicate(q.kind, q.org, q.dedupe.value);
        if existing.Some? {
          return Ok(existing.value), 0;
        }
      }
      Gap();
      gaps := 1;
      if !Collides(db.rows, NewJob(q)) {
        var id := db.nextId;
        db := Insert(db, NewJob(q));
        return Ok(id), 1;
      }
      Gap();
      gaps := 2;
      TwoGaps(others, old(db), old(clock));
      var existing := FindDuplicate(q.kind, q.org, q.dedupe.value);
      r := if existing.Some? then Ok(existing.value) else Err(Conflict);
    }

    /** `_execute`: the handler runs, others run, and exactly one settle is tried, under
        the id the job was claimed with. */
    method Execute(id: nat, claimant: string, handler: Job -> Outcome, now: int)
      returns (act: Act, ghost turns: seq<Turn>)
      requires id in db.rows
      requires forall k: nat, d: Db :: id in d.rows ==> id in others(k, d).rows
      modifies this
      ensures act.Settle? && act.id == id
      ensures clock == old(clock) + |turns| && 1 <= |turns| <= 2
      ensures var at := Drift(others, old(db), old(clock), |turns|);
              && act.ok == HeldBy(at.rows, id, claimant)
              && db == (match handler(old(db).rows[id])
                        case NoHandler =>
                          var error := "no handler registered for kind '" + old(db).rows[id].kind + "'";
                          Fail(at, id, claimant, DeadLetter, error, now)
                        case Finished => Succeed(at, id, claimant, now)
                        case Raised(error) =>
                          var read := Drift(others, old(db), old(clock), 1).rows;
                          if id !in read then at
                          else
                            var verdict := Judge(false, read[id].attempts, read[id].maxAttempts);
                            Fail(at, id, claimant, verdict, error, now))
      ensures Leads(others, Scene(old(db), old(clock), Holding(id), []), claimant, turns, Scene(db, clock, Free, [act]))
    {
      var outcome := handler(db.rows[id]);
      ghost var start := Scene(db, clock, Holding(id), []);
      var ok;
      if outcome.NoHandler? {
        var error := "no handler registered for kind '" + db.rows[id].kind + "'";
        ghost var seen;
        turns := DeadLeads(others, start, claimant, error, now);
        ok, seen := MarkFailed(id, claimant, error, true, now);
      } else if outcome.Raised? {
        turns := FailLeads(others, start, claimant, outcome.error, now);
        Gap();
        ghost var seen;
        ok, seen := MarkFailed(id, claimant, outcome.error, false, now);
      } else {
        turns := OkLeads(others, start, claimant, now);
        Gap();
        ok := MarkSucceeded(id, claimant, now);
      }
      act := Settle(id, ok);
    }

    /** The drain loop of `run_once`: at most fifty jobs, one at a time, stopping at a
        job boundary. What it does is what its turns do, others taking theirs in between,
        and it ends only at the limit, when asked to, or when a claim gave up. */
    method Drain(worker: string, lease: int, now: int, handler: Job -> Outcome, stop: nat -> bool)
      returns (acts: seq<Act>, ran: nat, ghost turns: seq<Turn>)
      requires forall k: nat, d: Db, id :: id in d.rows ==> id in others(k, d).rows
      modifies this
      ensures ran <= 50 && OneAtATime(acts, ran)
      ensures Leads(others, Scene(old(db), old(clock), Free, []), worker, turns, Scene(db, clock, Free, acts))
      ensures ran == 50 || stop(clock) || GaveUp(db, now, turns)
    {
      acts, ran, turns := [], 0, [];
      ghost var start := Scene(db, clock, Free, []);
      while ran < MAX_JOBS_PER_PASS && !stop(clock)
        invariant ran <= MAX_JOBS_PER_PASS && OneAtATime(acts, ran)
        invariant Leads(others, start, worker, turns, Scene(db, clock, Free, acts))
        decreases MAX_JOBS_PER_PASS - ran
      {
        var job, act;
        ghost var more;
        job, act, more := DrainOne(worker, lease, now, handler, start, turns, acts);
        turns := turns + more;
        if job.None? {
          break;
        }
        acts := acts + [Took(job.value), act];
        ran := ran + 1;
      }
    }

    /** One round of the drain: a claim, and if it took a job its execution. */
    method DrainOne(
      worker: string, lease: int, now: int, handler: Job -> Outcome, ghost start: Scene, ghost turns: seq<Turn>,
      ghost acts: seq<Act>)
      returns (job: Option<nat>, act: Act, ghost more: seq<Turn>)
      requires forall k: nat, d: Db, id :: id in d.rows ==> id in others(k, d).rows
      requires Leads(others, start, worker, turns, Scene(db, clock, Free, acts))
      modifies this
      ensures job.Some? ==> act.Settle? && act.id == job.value
      ensures job.None? ==> GaveUp(db, now, turns + more)
      ensures Leads(others, start, worker, turns + more,
                Scene(db, clock, Free, if job.Some? then acts + [Took(job.value), act] else acts))
    {
      ghost var before := Scene(db, clock, Free, acts);
      act := Took(0);
      job, more := ClaimNext(worker, lease, now);
      if job.None? {
        LeadsFurther(others, start, worker, turns, before, more, Scene(db, clock, Free, []));
        assert acts + [] == acts;
        GaveUpLater(db, now, turns, more);
        return;
      }
      ghost var settle;
      ghost var claimed := Scene(db, clock, Holding(job.value), [Took(job.value)]);
      act, settle := Execute(job.value, worker, handler, now);
      RoundLeads(others, start, worker, turns, before, more, claimed, settle, Scene(db, clock, Free, [act]));
      assert [Took(job.value)] + [act] == [Took(job.value), act];
      more := more + settle;
    }

    /** The due rows as plain values, read before any commit. */
    method DueSchedules(now: int) returns (due: seq<Snapshot>)
      ensures IsDueList(db, now, due)
    {
      due := [];
      var left := db.schedules.Keys;
      while left != {}
        invariant left <= db.schedules.Keys
        invariant forall snap :: snap in due ==>
                    && snap.sid in db.schedules && snap.sid !in left
                    && IsDueSchedule(db.schedules[snap.sid], now) && snap == Snap(snap.sid, db.schedules[snap.sid])
        invariant forall sid :: sid in db.schedules && sid !in left && IsDueSchedule(db.schedules[sid], now) ==>
                    exists snap :: snap in due && snap.sid == sid
        invariant forall i, j :: 0 <= i < j < |due| ==> due[i].sid != due[j].sid
        decreases left
      {
        var sid :| sid in left;
        left := left - {sid};
        if IsDueSchedule(db.schedules[sid], now) {
          assert forall i :: 0 <= i < |due| ==> due[i] in due;
          ghost var before := due;
          due := due + [Snap(sid, db.schedules[sid])];
          assert due[|before|].sid == sid && forall snap :: snap in before ==> snap in due;
        }
      }
    }

    /** One schedule's transaction: the advance, the job and the stamp together. */
    method TickSchedule(snap: Snapshot, now: int) returns (added: bool)
      modifies this`db
      ensures db == Tick(old(db), snap, now)
      ensures added == Materialises(old(db), snap)
      ensures snap.sid !in old(db).schedules || old(db).schedules[snap.sid].nextRunAt != snap.nextRunAt ==>
                db == old(db)
      ensures snap.sid in old(db).schedules && old(db).schedules[snap.sid].nextRunAt == snap.nextRunAt ==>
                var s := old(db).schedules[snap.sid].(nextRunAt := now + snap.every);
                && (added <==> !(snap.noOverlap && HasOpenJob(old(db).rows, snap.sid)))
                && (!added ==> db == old(db).(schedules := old(db).schedules[snap.sid := s]))
                && (added ==>
                      && var id := old(db).nextId;
                         && id in db.rows
                         && db == old(db).(schedules := old(db).schedules[snap.sid := s.(lastEnqueuedAt := Some(now))],
                                           rows := old(db).rows[id := db.rows[id]], nextId := id + 1)
                         && IsNewJob(db.rows[id],
                              Request(kind := snap.kind, payload := snap.payload, org := snap.org, runAt := now,
                                      scheduleId := Some(snap.sid), maxAttempts := 5, dedupe := None)))
    {
      added := false;
      if snap.sid in db.schedules && db.schedules[snap.sid].nextRunAt == snap.nextRunAt {
        var s := db.schedules[snap.sid].(nextRunAt := now + snap.every);
        db := db.(schedules := db.schedules[snap.sid := s]);
        if snap.noOverlap && HasActive(db.rows, snap.sid) {
          return;
        }
        db := Insert(db, TickJob(snap, now));
        db := db.(schedules := db.schedules[snap.sid := s.(lastEnqueuedAt := Some(now))]);
        added := true;
      }
    }

    /** The same once others have run. */
    method TickNext(snap: Snapshot, now: int) returns (added: bool)
      modifies this
      ensures clock == old(clock) + 1 && db == Tick(others(old(clock), old(db)), snap, now)
      ensures added == Materialises(others(old(clock), old(db)), snap)
    {
      Gap();
      added := TickSchedule(snap, now);
    }

    /** `tick_schedules`: one compare-and-set transaction for every schedule that is due
        at the start, others free to run before each; the count is the jobs added. */
    method TickSchedules(now: int) returns (enqueued: nat, ghost due: seq<Snapshot>)
      modifies this
      ensures IsDueList(old(db), now, due)
      ensures (db, enqueued) == TickAll(others, old(db), old(clock), due, now) && clock == old(clock) + |due|
    {
      var snaps := DueSchedules(now);
      due := snaps;
      enqueued := 0;
      for i := 0 to |snaps|
        invariant clock == old(clock) + i
        invariant Remains(others, old(db), old(clock), snaps, now, i, db, clock, enqueued)
      {
        RemainsNext(others, old(db), old(clock), snaps, now, i, db, clock, enqueued);
        var added := TickNext(snaps[i], now);
        if added {
          enqueued := enqueued + 1;
        }
      }
    }

    method FindSchedule(kind: string, org: Option<int>) returns (r: Option<nat>)
      ensures r.Some? ==> IsSchedule(db, r.value, kind, org)
      ensures r.None? ==> NoSchedule(db, kind, org)
    {
      if sid :| sid in db.schedules && IsSchedule(db, sid, kind, org) {
        r := Some(sid);
      } else {
        r := None;
      }
    }

    /** `ensure_schedule`: the (kind, org) schedule is created if missing, the loser of an
        insert race going on with the winner's; an existing one is brought to the declared
        cadence, its timing and an operator's opt-out left alone. */
    method EnsureSchedule(kind: string, payload: string, org: Option<int>, every: int, noOverlap: bool, now: int)
      returns (r: Result<nat, ScheduleError>, ghost gaps: nat)
      requires forall k: nat, d: Db, sid :: sid in d.schedules ==> sid in others(k, d).schedules
      modifies this
      ensures clock == old(clock) + gaps && gaps <= 3
      ensures r == Err(InvalidCadence) <==> every <= 0
      ensures every <= 0 ==> gaps == 0
      ensures r == Err(LostTwice) ==>
                gaps == 2 && NoSchedule(db, kind, org) && !NoSchedule(Drift(others, old(db), old(clock), 1), kind, org)
      ensures r.Err? ==> db == Drift(others, old(db), old(clock), gaps)
      ensures r.Ok? && gaps == 1 && NoSchedule(old(db), kind, org) ==>
                && NoSchedule(Drift(others, old(db), old(clock), 1), kind, org)
                && db == Created(Drift(others, old(db), old(clock), 1),
                                 Schedule(kind, payload, org, every, true, noOverlap, now, None))
                && r.value == Drift(others, old(db), old(clock), 1).nextScheduleId
      ensures r.Ok? && !(gaps == 1 && NoSchedule(old(db), kind, org)) ==>
                exists seen: nat :: seen in {0, 2}
                  && Converges(others, old(db), old(clock), seen, gaps, r.value, kind, org, every, noOverlap, db)
      ensures r.Ok? && NobodyElse(others) ==> IsDeclared(db, r.value, kind, org, every, noOverlap)
    {
      gaps := 0;
      if every <= 0 {
        return Err(InvalidCadence), 0;
      }
      var existing := FindSchedule(kind, org);
      if existing.None? {
        Gap();
        gaps := 1;
        NextDrifts(others, old(db), old(clock), 0);
        var taken := FindSchedule(kind, org);
        if taken.None? {
          r := Ok(db.nextScheduleId);
          db := Created(db, Schedule(kind, payload, org, every, true, noOverlap, now, None));
          assert IsDeclared(db, r.value, kind, org, every, noOverlap);
          return;
        }
        Gap();
        gaps := 2;
        existing := FindSchedule(kind, org);
        if existing.None? {
          return Err(LostTwice), 2;
        }
      }
      ghost var seen := gaps;
      gaps := Converge(existing.value, every, noOverlap, old(db), old(clock), gaps);
      assert Converges(others, old(db), old(clock), seen, gaps, existing.value, kind, org, every, noOverlap, db);
      if NobodyElse(others) {
        QuietConverge(others, old(db), old(clock), seen, gaps, existing.value, kind, org, every, noOverlap, db);
      }
      r := Ok(existing.value);
    }

    /** The update of an existing schedule, if the values just read differ. */
    method Converge(sid: nat, every: int, noOverlap: bool, ghost start: Db, ghost from: nat, ghost seen: nat)
      returns (ghost gaps: nat)
      requires sid in db.schedules && db == Drift(others, start, from, seen) && clock == from + seen
      requires forall k: nat, d: Db, t :: t in d.schedules ==> t in others(k, d).schedules
      modifies this
      ensures clock == from + gaps
      ensures var s := old(db).schedules[sid];
              Converges(others, start, from, seen, gaps, sid, s.kind, s.org, every, noOverlap, db)
    {
      gaps := seen;
      var read := db.schedules[sid];
      if read.every != every || read.noOverlap != noOverlap {
        NextDrifts(others, start, from, gaps);
        Gap();
        gaps := gaps + 1;
        var s := db.schedules[sid];
        if read.every != every {
          s := s.(every := every);
        }
        if read.noOverlap != noOverlap {
          s := s.(noOverlap := noOverlap);
        }
        db := db.(schedules := db.schedules[sid := s]);
      }
    }
  }
}
