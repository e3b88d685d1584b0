/** What every run keeps of the interval schedules: `next_run_at` only moves forward,
    one winner per value, spaced runs, and no overlap (asas_jobs/scheduler.py). */
module ScheduleProofs {
  import opened Wrappers
  import opened JobTable
  import opened JobMachine
  import opened JobProofs

  /** The wins of one schedule in order: each took a value that was due, and left the
      next one to take. */
  ghost predicate WinsChain(ws: seq<Win>, next: int) {
    && (forall k :: 0 <= k < |ws| ==> ws[k].due <= ws[k].now && ws[k].every > 0)
    && (forall k :: 0 <= k < |ws| - 1 ==> ws[k + 1].due == ws[k].now + ws[k].every)
    && (ws != [] ==> next == ws[|ws| - 1].now + ws[|ws| - 1].every)
  }

  ghost predicate SnapOk(s: State, now: int, snap: Snapshot) {
    && snap.sid in s.db.schedules && snap.every > 0 && snap.nextRunAt <= now
    && (snap.sid !in s.loose ==> snap.noOverlap)
  }

  ghost predicate ScheduleOk(s: State, sid: nat)
    requires sid in s.db.schedules
  {
    && sid < s.db.nextScheduleId && s.db.schedules[sid].every > 0
    && (sid !in s.loose ==> s.db.schedules[sid].noOverlap)
    && WinsChain(WinsOf(s, sid), s.db.schedules[sid].nextRunAt)
  }

  ghost predicate SchedulesOk(s: State) {
    && (forall sid :: sid in s.db.schedules ==> ScheduleOk(s, sid))
    && (forall sid :: sid in s.wins ==> sid in s.db.schedules)
    && (forall sid :: sid in s.loose ==> sid in s.db.schedules)
  }

  ghost predicate TickersOk(s: State) {
    forall t, k :: t in s.tickers && 0 <= k < |s.tickers[t].pending| ==>
      SnapOk(s, s.tickers[t].now, s.tickers[t].pending[k])
  }

  /** The rows of a schedule are exactly the jobs of its wins, one job per win. */
  ghost predicate JobsFromWins(s: State) {
    && (forall id :: id in s.db.rows && s.db.rows[id].scheduleId.Some? ==>
          HasWin(s, id, s.db.rows[id].scheduleId.value))
    && (forall sid: nat, k {:trigger WinsOf(s, sid)[k]} :: 0 <= k < |WinsOf(s, sid)| && WinsOf(s, sid)[k].job.Some? ==>
          var id := WinsOf(s, sid)[k].job.value;
          id in s.db.rows && s.db.rows[id].scheduleId == Some(sid))
    && (forall sid: nat, i, j {:trigger WinsOf(s, sid)[i], WinsOf(s, sid)[j]} ::
          0 <= i < j < |WinsOf(s, sid)| && WinsOf(s, sid)[i].job.Some? ==>
            WinsOf(s, sid)[i].job != WinsOf(s, sid)[j].job)
  }

  ghost predicate HasWin(s: State, id: nat, sid: nat) {
    exists k :: 0 <= k < |WinsOf(s, sid)| && WinsOf(s, sid)[k].job == Some(id)
  }

  /** Two active jobs of one schedule. */
  predicate Overlap(j: Job, k: Job) {
    j.scheduleId.Some? && j.scheduleId == k.scheduleId && IsActive(j) && IsActive(k)
  }

  ghost predicate NoOverlap(s: State) {
    forall a, b :: a in s.db.rows && b in s.db.rows && a != b && Overlap(s.db.rows[a], s.db.rows[b]) ==>
      s.db.rows[a].scheduleId.value in s.loose
  }

  ghost predicate SchedInv(s: State) {
    SchedulesOk(s) && TickersOk(s) && JobsFromWins(s) && NoOverlap(s)
  }

  // ---------------------------------------------------------------------------
  // Steps that create no job for a schedule
  // ---------------------------------------------------------------------------

  /** Rows evolve, any new row belongs to no schedule, schedules keep their timing. */
  ghost predicate Calm(s: State, s': State) {
    && s'.wins == s.wins && s.loose <= s'.loose
    && Evolves(s.db.rows, s'.db.rows)
    && (forall id :: id in s'.db.rows && id !in s.db.rows ==> s'.db.rows[id].scheduleId.None?)
  }

  lemma CalmKeepsJobs(s: State, s': State)
    requires Calm(s, s') && JobsFromWins(s) && NoOverlap(s)
    ensures JobsFromWins(s') && NoOverlap(s')
  {
    forall sid
      ensures WinsOf(s', sid) == WinsOf(s, sid)
    {}
    forall id | id in s'.db.rows && s'.db.rows[id].scheduleId.Some?
      ensures HasWin(s', id, s'.db.rows[id].scheduleId.value)
    {
      assert id in s.db.rows && Edge(s.db.rows[id], s'.db.rows[id]);
      assert HasWin(s, id, s.db.rows[id].scheduleId.value);
    }
    forall a, b | a in s'.db.rows && b in s'.db.rows && a != b && Overlap(s'.db.rows[a], s'.db.rows[b])
      ensures s'.db.rows[a].scheduleId.value in s'.loose
    {
      assert Edge(s.db.rows[a], s'.db.rows[a]) && Edge(s.db.rows[b], s'.db.rows[b]);
    }
    forall sid: nat, k | 0 <= k < |WinsOf(s', sid)| && WinsOf(s', sid)[k].job.Some?
      ensures WinsOf(s', sid)[k].job.value in s'.db.rows
           && s'.db.rows[WinsOf(s', sid)[k].job.value].scheduleId == Some(sid)
    {
      var id := WinsOf(s, sid)[k].job.value;
      assert id in s.db.rows && Edge(s.db.rows[id], s'.db.rows[id]);
    }
  }

  lemma KeepsWins(s: State, a: Action)
    requires Enabled(s, a) && !a.TickOne?
    ensures Apply(s, a).wins == s.wins
  {
  }

  lemma KeepsHistory(s: State, a: Action)
    requires Enabled(s, a) && !a.TickOne?
    ensures s.loose <= Apply(s, a).loose
    ensures !a.CreateSchedule? && !a.EditSchedule? && !a.SetEnabled? ==>
              && Apply(s, a).db.schedules == s.db.schedules && Apply(s, a).db.nextScheduleId == s.db.nextScheduleId
              && Apply(s, a).loose == s.loose
    ensures !a.OpenTick? ==> Apply(s, a).tickers == s.tickers
  {
  }

  lemma CalmStep(s: State, a: Action)
    requires Inv(s) && Enabled(s, a) && !a.TickOne?
    ensures Calm(s, Apply(s, a))
  {
    StepEvolves(s, a);
    KeepsWins(s, a);
    KeepsHistory(s, a);
    if a.TryInsert? {
      assert s.producers[a.p].request.scheduleId.None?;
    } else {
      OnlyInsertsAdd(s, a);
    }
  }

  lemma SnapsStayOk(s: State, s': State)
    requires TickersOk(s) && s'.tickers == s.tickers && s.loose <= s'.loose
    requires forall sid :: sid in s.db.schedules ==> sid in s'.db.schedules
    ensures TickersOk(s')
  {
    forall t, k | t in s'.tickers && 0 <= k < |s'.tickers[t].pending|
      ensures SnapOk(s', s'.tickers[t].now, s'.tickers[t].pending[k])
    {
      assert SnapOk(s, s.tickers[t].now, s.tickers[t].pending[k]);
    }
  }

  /** Schedule `sid` was created or edited, its timing kept, and is loose if overlap is on. */
  ghost predicate Edited(s: State, s': State, sid: nat) {
    && s'.wins == s.wins && s.loose <= s'.loose <= s.loose + {sid}
    && s.db.nextScheduleId <= s'.db.nextScheduleId
    && sid in s'.db.schedules && sid < s'.db.nextScheduleId && s'.db.schedules[sid].every > 0
    && (s'.db.schedules[sid].noOverlap || sid in s'.loose)
    && (if sid in s.db.schedules then s'.db.schedules[sid].nextRunAt == s.db.schedules[sid].nextRunAt
        else sid == s.db.nextScheduleId)
    && (forall other :: other in s'.db.schedules <==> other in s.db.schedules || other == sid)
    && (forall other :: other in s.db.schedules && other != sid ==> s'.db.schedules[other] == s.db.schedules[other])
  }

  lemma EditKeepsSchedules(s: State, s': State, sid: nat)
    requires SchedulesOk(s) && Edited(s, s', sid)
    ensures SchedulesOk(s')
  {
    forall other | other in s'.db.schedules
      ensures ScheduleOk(s', other)
    {
      assert WinsOf(s', other) == WinsOf(s, other);
      if other in s.db.schedules { assert ScheduleOk(s, other); }
    }
  }

  lemma CreateEdits(s: State, c: Schedule)
    requires SchedulesOk(s) && Enabled(s, CreateSchedule(c))
    ensures Edited(s, Apply(s, CreateSchedule(c)), s.db.nextScheduleId)
  {
    var sid := s.db.nextScheduleId;
    assert sid in s.db.schedules ==> ScheduleOk(s, sid);
  }

  lemma EditEdits(s: State, sid: nat, every: int, noOverlap: bool)
    requires SchedulesOk(s) && Enabled(s, EditSchedule(sid, every, noOverlap))
    ensures Edited(s, Apply(s, EditSchedule(sid, every, noOverlap)), sid)
  {
    assert ScheduleOk(s, sid);
  }

  lemma SetEnabledEdits(s: State, sid: nat, enabled: bool)
    requires SchedulesOk(s) && Enabled(s, SetEnabled(sid, enabled))
    ensures Edited(s, Apply(s, SetEnabled(sid, enabled)), sid)
  {
    assert ScheduleOk(s, sid);
  }

  lemma OpenKeepsTickers(s: State, t: nat, now: int, due: seq<nat>)
    requires SchedInv(s) && Enabled(s, OpenTick(t, now, due))
    ensures TickersOk(Apply(s, OpenTick(t, now, due)))
  {
    var s' := Apply(s, OpenTick(t, now, due));
    forall u, k | u in s'.tickers && 0 <= k < |s'.tickers[u].pending|
      ensures SnapOk(s', s'.tickers[u].now, s'.tickers[u].pending[k])
    {
      if u == t {
        assert due[k] in due;
      } else {
        assert SnapOk(s, s.tickers[u].now, s.tickers[u].pending[k]);
      }
    }
  }

  lemma OtherKeepsSchedules(s: State, s': State)
    requires SchedulesOk(s)
    requires s'.db.schedules == s.db.schedules && s'.db.nextScheduleId == s.db.nextScheduleId
    requires s'.wins == s.wins && s'.loose == s.loose
    ensures SchedulesOk(s')
  {
    forall sid | sid in s'.db.schedules
      ensures ScheduleOk(s', sid)
    {
      assert ScheduleOk(s, sid) && WinsOf(s', sid) == WinsOf(s, sid);
    }
  }

  // ---------------------------------------------------------------------------
  // One schedule's tick
  // ---------------------------------------------------------------------------

  /** What one tick transaction does to its schedule, in every case. */
  lemma TickCases(s: State, t: nat)
    requires TableOk(s.db) && TickersOk(s) && Enabled(s, TickOne(t))
    ensures var Ticker(now, pending) := s.tickers[t];
            var snap := pending[0];
            var s' := Apply(s, TickOne(t));
            && (!TickWins(s.db, snap) ==> s'.db == s.db && s'.wins == s.wins)
            && (TickWins(s.db, snap) ==>
                  && s'.db.schedules[snap.sid].nextRunAt == now + snap.every > s.db.schedules[snap.sid].nextRunAt
                  && (Skips(s.db, snap) ==> s'.db.rows == s.db.rows)
                  && (!Skips(s.db, snap) ==>
                        s'.db.rows == s.db.rows[s.db.nextId := TickJob(snap, now)] && s.db.nextId !in s.db.rows))
  {
    assert SnapOk(s, s.tickers[t].now, s.tickers[t].pending[0]);
  }

  lemma TickKeepsTickers(s: State, t: nat)
    requires TickersOk(s) && Enabled(s, TickOne(t))
    ensures TickersOk(Apply(s, TickOne(t)))
  {
    var s' := Apply(s, TickOne(t));
    forall u, k | u in s'.tickers && 0 <= k < |s'.tickers[u].pending|
      ensures SnapOk(s', s'.tickers[u].now, s'.tickers[u].pending[k])
    {
      var j := if u == t then k + 1 else k;
      assert s'.tickers[u].pending[k] == s.tickers[u].pending[j];
      assert SnapOk(s, s.tickers[u].now, s.tickers[u].pending[j]);
    }
  }

  /** The history a tick leaves: one more win for its schedule if it won. */
  lemma TickKeepsRest(s: State, t: nat)
    requires Enabled(s, TickOne(t))
    ensures var s' := Apply(s, TickOne(t));
            && s'.loose == s.loose && s'.db.nextScheduleId == s.db.nextScheduleId
            && s'.db.schedules.Keys == s.db.schedules.Keys
            && (forall sid :: sid in s'.wins ==> sid in s.wins || sid in s.db.schedules)
  {
  }

  lemma TickWinsOf(s: State, t: nat)
    requires Enabled(s, TickOne(t))
    ensures var Ticker(now, pending) := s.tickers[t];
            var snap := pending[0];
            var s' := Apply(s, TickOne(t));
            && (forall sid :: sid != snap.sid || !TickWins(s.db, snap) ==> WinsOf(s', sid) == WinsOf(s, sid))
            && (forall sid :: sid in s.db.schedules && (sid != snap.sid || !TickWins(s.db, snap)) ==>
                  s'.db.schedules[sid] == s.db.schedules[sid])
            && (TickWins(s.db, snap) ==>
                  && s'.db.schedules[snap.sid].nextRunAt == now + snap.every
                  && s'.db.schedules[snap.sid].every == s.db.schedules[snap.sid].every
                  && s'.db.schedules[snap.sid].noOverlap == s.db.schedules[snap.sid].noOverlap
                  && WinsOf(s', snap.sid) == WinsOf(s, snap.sid)
                       + [Win(now, snap.nextRunAt, snap.every, if Skips(s.db, snap) then None else Some(s.db.nextId))])
  {
  }

  lemma ChainExtends(ws: seq<Win>, next: int, w: Win)
    requires WinsChain(ws, next) && w.due == next && w.due <= w.now && w.every > 0
    ensures WinsChain(ws + [w], w.now + w.every)
  {
  }

  lemma TickKeepsSchedules(s: State, t: nat)
    requires SchedulesOk(s) && TickersOk(s) && Enabled(s, TickOne(t))
    ensures SchedulesOk(Apply(s, TickOne(t)))
  {
    var s' := Apply(s, TickOne(t));
    var Ticker(now, pending) := s.tickers[t];
    var snap := pending[0];
    assert SnapOk(s, now, snap);
    TickKeepsRest(s, t);
    TickWinsOf(s, t);
    forall sid | sid in s'.db.schedules
      ensures ScheduleOk(s', sid)
    {
      assert sid in s.db.schedules && ScheduleOk(s, sid);
      if sid == snap.sid && TickWins(s.db, snap) {
        ChainExtends(WinsOf(s, sid), snap.nextRunAt,
          Win(now, snap.nextRunAt, snap.every, if Skips(s.db, snap) then None else Some(s.db.nextId)));
      }
    }
  }

  lemma QuietTickKeepsJobs(s: State, t: nat)
    requires JobsFromWins(s) && NoOverlap(s) && Enabled(s, TickOne(t))
    requires var snap := s.tickers[t].pending[0]; !TickWins(s.db, snap) || Skips(s.db, snap)
    ensures JobsFromWins(Apply(s, TickOne(t))) && NoOverlap(Apply(s, TickOne(t)))
  {
    TickKeepsRest(s, t);
    TickWinsOf(s, t);
    ExtendedWins(s, Apply(s, TickOne(t)));
  }

  /** Wins grew by at most one per schedule, with no job. */
  lemma ExtendedWins(s: State, s': State)
    requires JobsFromWins(s) && NoOverlap(s) && s'.db.rows == s.db.rows && s'.loose == s.loose
    requires forall sid ::
               && |WinsOf(s, sid)| <= |WinsOf(s', sid)| <= |WinsOf(s, sid)| + 1
               && WinsOf(s', sid)[..|WinsOf(s, sid)|] == WinsOf(s, sid)
               && (|WinsOf(s', sid)| == |WinsOf(s, sid)| + 1 ==> WinsOf(s', sid)[|WinsOf(s, sid)|].job.None?)
    ensures JobsFromWins(s') && NoOverlap(s')
  {
    forall sid: nat, k | 0 <= k < |WinsOf(s, sid)|
      ensures WinsOf(s', sid)[k] == WinsOf(s, sid)[k]
    {
      assert WinsOf(s', sid)[..|WinsOf(s, sid)|][k] == WinsOf(s, sid)[k];
    }
    forall id | id in s'.db.rows && s'.db.rows[id].scheduleId.Some?
      ensures HasWin(s', id, s'.db.rows[id].scheduleId.value)
    {
      var sid := s.db.rows[id].scheduleId.value;
      assert HasWin(s, id, sid);
      var k :| 0 <= k < |WinsOf(s, sid)| && WinsOf(s, sid)[k].job == Some(id);
      assert WinsOf(s', sid)[k].job == Some(id);
    }
  }

  /** One win with a new job was recorded for `sid`, and the job's row inserted. */
  ghost predicate Materialised(s: State, s': State, sid: nat, w: Win) {
    && w.job.Some? && w.job.value !in s.db.rows
    && WinsOf(s', sid) == WinsOf(s, sid) + [w]
    && (forall other :: other != sid ==> WinsOf(s', other) == WinsOf(s, other))
    && w.job.value in s'.db.rows && s'.db.rows == s.db.rows[w.job.value := s'.db.rows[w.job.value]]
    && s'.db.rows[w.job.value].scheduleId == Some(sid)
  }

  lemma OldWinsStay(s: State, s': State, sid: nat, w: Win, other: nat, k: nat)
    requires Materialised(s, s', sid, w) && JobsFromWins(s) && k < |WinsOf(s, other)|
    ensures k < |WinsOf(s', other)| && WinsOf(s', other)[k] == WinsOf(s, other)[k]
    ensures WinsOf(s, other)[k].job != w.job
  {
  }

  lemma MaterialisedRowsHaveWins(s: State, s': State, sid: nat, w: Win, id: nat)
    requires Materialised(s, s', sid, w) && JobsFromWins(s)
    requires id in s'.db.rows && s'.db.rows[id].scheduleId.Some?
    ensures HasWin(s', id, s'.db.rows[id].scheduleId.value)
  {
    var owner := s'.db.rows[id].scheduleId.value;
    if id == w.job.value {
      assert WinsOf(s', sid)[|WinsOf(s, sid)|].job == Some(id);
    } else {
      assert HasWin(s, id, owner);
      var k: nat :| k < |WinsOf(s, owner)| && WinsOf(s, owner)[k].job == Some(id);
      OldWinsStay(s, s', sid, w, owner, k);
      assert WinsOf(s', owner)[k].job == Some(id);
    }
  }

  lemma MaterialisedKeepsJobs(s: State, s': State, sid: nat, w: Win)
    requires Materialised(s, s', sid, w) && JobsFromWins(s)
    ensures JobsFromWins(s')
  {
    forall id | id in s'.db.rows && s'.db.rows[id].scheduleId.Some?
      ensures HasWin(s', id, s'.db.rows[id].scheduleId.value)
    {
      MaterialisedRowsHaveWins(s, s', sid, w, id);
    }
    forall other: nat, k | 0 <= k < |WinsOf(s', other)| && WinsOf(s', other)[k].job.Some?
      ensures WinsOf(s', other)[k].job.value in s'.db.rows
           && s'.db.rows[WinsOf(s', other)[k].job.value].scheduleId == Some(other)
    {
      if k < |WinsOf(s, other)| { OldWinsStay(s, s', sid, w, other, k); }
    }
    forall other: nat, i, j | 0 <= i < j < |WinsOf(s', other)| && WinsOf(s', other)[i].job.Some?
      ensures WinsOf(s', other)[i].job != WinsOf(s', other)[j].job
    {
      OldWinsStay(s, s', sid, w, other, i);
      if j < |WinsOf(s, other)| { OldWinsStay(s, s', sid, w, other, j); }
    }
  }

  lemma JobTickKeepsJobs(s: State, t: nat)
    requires Inv(s) && SchedInv(s) && Enabled(s, TickOne(t))
    requires var snap := s.tickers[t].pending[0]; TickWins(s.db, snap) && !Skips(s.db, snap)
    ensures JobsFromWins(Apply(s, TickOne(t)))
  {
    var Ticker(now, pending) := s.tickers[t];
    var snap := pending[0];
    TickCases(s, t);
    TickKeepsRest(s, t);
    TickWinsOf(s, t);
    MaterialisedKeepsJobs(s, Apply(s, TickOne(t)), snap.sid, Win(now, snap.nextRunAt, snap.every, Some(s.db.nextId)));
  }

  lemma JobTickKeepsNoOverlap(s: State, t: nat)
    requires Inv(s) && SchedInv(s) && Enabled(s, TickOne(t))
    requires var snap := s.tickers[t].pending[0]; TickWins(s.db, snap) && !Skips(s.db, snap)
    ensures NoOverlap(Apply(s, TickOne(t)))
  {
    var s' := Apply(s, TickOne(t));
    var Ticker(now, pending) := s.tickers[t];
    TickCases(s, t);
    assert SnapOk(s, now, pending[0]);
    if pending[0].noOverlap { assert !HasActive(s.db.rows, pending[0].sid); }
  }

  lemma SchedStepKeeps(s: State, a: Action)
    requires Inv(s) && SchedInv(s) && Enabled(s, a)
    ensures SchedInv(Apply(s, a))
  {
    var s' := Apply(s, a);
    if a.TickOne? {
      TickKeepsSchedules(s, a.t);
      TickKeepsTickers(s, a.t);
      var snap := s.tickers[a.t].pending[0];
      if TickWins(s.db, snap) && !Skips(s.db, snap) {
        JobTickKeepsJobs(s, a.t);
        JobTickKeepsNoOverlap(s, a.t);
      } else {
        QuietTickKeepsJobs(s, a.t);
      }
    } else {
      CalmStep(s, a);
      CalmKeepsJobs(s, s');
      KeepsWins(s, a);
      KeepsHistory(s, a);
      if a.CreateSchedule? || a.EditSchedule? || a.SetEnabled? {
        match a {
          case CreateSchedule(c) => CreateEdits(s, c);
          case EditSchedule(sid, every, noOverlap) => EditEdits(s, sid, every, noOverlap);
          case SetEnabled(sid, enabled) => SetEnabledEdits(s, sid, enabled);
        }
        EditKeepsSchedules(s, s', if a.CreateSchedule? then s.db.nextScheduleId else a.sid);
        SnapsStayOk(s, s');
      } else {
        OtherKeepsSchedules(s, s');
        if a.OpenTick? { OpenKeepsTickers(s, a.t, a.now, a.due); } else { SnapsStayOk(s, s'); }
      }
    }
  }

  lemma {:induction false} SchedRunKeeps(s: State, run: seq<Action>)
    requires Inv(s) && SchedInv(s) && Legal(s, run)
    ensures Inv(After(s, run)) && SchedInv(After(s, run))
    decreases |run|
  {
    if run != [] {
      StepKeeps(s, run[0]);
      SchedStepKeeps(s, run[0]);
      SchedRunKeeps(Apply(s, run[0]), run[1..]);
    }
  }

  lemma RunsKeepBoth(run: seq<Action>)
    requires Legal(Initial(), run)
    ensures Inv(After(Initial(), run)) && SchedInv(After(Initial(), run))
  {
    SchedRunKeeps(Initial(), run);
  }

  // ---------------------------------------------------------------------------
  // Main results
  // ---------------------------------------------------------------------------

  /** Later wins of a schedule took later values and ran later, by the cadences between. */
  lemma {:induction false} WinsAdvance(ws: seq<Win>, next: int, e: int, i: nat, j: nat)
    requires WinsChain(ws, next) && i <= j < |ws| && e > 0
    requires forall k :: 0 <= k < |ws| ==> ws[k].every >= e
    ensures ws[j].now - ws[i].now >= (j - i) * e
    ensures i < j ==> ws[i].due < ws[j].due
    ensures ws[j].due < next
    decreases |ws| - i, j - i
  {
    if i < j { WinsAdvance(ws, next, e, i, j - 1); }
    WinsReachNext(ws, next, j);
  }

  lemma {:induction false} WinsReachNext(ws: seq<Win>, next: int, j: nat)
    requires WinsChain(ws, next) && j < |ws|
    ensures ws[j].due < next
    decreases |ws| - j
  {
    if j + 1 < |ws| { WinsReachNext(ws, next, j + 1); }
  }

  /** Every value of a schedule's `next_run_at` is won at most once, by ticks on any
      clocks: the values its wins took increase strictly and all lie behind the value
      it holds now. */
  lemma EachTickWonOnce(run: seq<Action>, sid: nat, i: nat, j: nat)
    requires Legal(Initial(), run)
    requires var s := After(Initial(), run);
             sid in s.db.schedules && i < j < |WinsOf(s, sid)|
    ensures var s := After(Initial(), run);
            var ws := WinsOf(s, sid);
            && ws[i].due < ws[j].due < s.db.schedules[sid].nextRunAt
            && (ws[i].job.Some? ==> ws[i].job != ws[j].job)
  {
    RunsKeepBoth(run);
    var s := After(Initial(), run);
    WinsAdvance(WinsOf(s, sid), s.db.schedules[sid].nextRunAt, 1, i, j);
  }

  /** How many jobs the wins from `i` up to, not including, `j` materialised. */
  function JobsBetween(ws: seq<Win>, i: nat, j: nat): nat
    requires i <= j <= |ws|
    decreases j - i
  {
    if i == j then 0 else JobsBetween(ws, i, j - 1) + (if ws[j - 1].job.Some? then 1 else 0)
  }

  lemma {:induction false} JobsBetweenBound(ws: seq<Win>, i: nat, j: nat)
    requires i <= j <= |ws|
    ensures JobsBetween(ws, i, j) <= j - i
    decreases j - i
  {
    if i < j { JobsBetweenBound(ws, i, j - 1); }
  }

  predicate EveryAtLeast(ws: seq<Win>, e: int) {
    forall k :: 0 <= k < |ws| ==> ws[k].every >= e
  }

  /** From win `i` to win `j` as much time passed as the jobs from one to the other need. */
  predicate Spaced(ws: seq<Win>, e: int, i: nat, j: nat)
    requires i <= j < |ws|
  {
    ws[j].now - ws[i].now >= (JobsBetween(ws, i, j + 1) - 1) * e
  }

  lemma Spacing(ws: seq<Win>, next: int, e: int, i: nat, j: nat)
    requires WinsChain(ws, next) && i <= j < |ws| && e > 0 && EveryAtLeast(ws, e)
    ensures Spaced(ws, e, i, j)
  {
    WinsAdvance(ws, next, e, i, j);
    JobsBetweenBound(ws, i, j + 1);
    Scale(JobsBetween(ws, i, j + 1) - 1, j - i, e);
  }

  lemma SpacedWins(s: State, sid: nat, e: int, i: nat, j: nat)
    requires SchedulesOk(s) && e > 0 && i <= j < |WinsOf(s, sid)| && EveryAtLeast(WinsOf(s, sid), e)
    ensures Spaced(WinsOf(s, sid), e, i, j)
  {
    assert sid in s.db.schedules && ScheduleOk(s, sid);
    Spacing(WinsOf(s, sid), s.db.schedules[sid].nextRunAt, e, i, j);
  }

  /** N jobs materialised from one schedule, on any scheduler's clock, span at least
      (N - 1) cadences, where `e` is a cadence every tick of it used or more. */
  lemma JobsAreSpaced(run: seq<Action>, sid: nat, e: int, i: nat, j: nat)
    requires Legal(Initial(), run) && e > 0
    requires var ws := WinsOf(After(Initial(), run), sid); i <= j < |ws| && EveryAtLeast(ws, e)
    ensures Spaced(WinsOf(After(Initial(), run), sid), e, i, j)
  {
    RunsKeepBoth(run);
    SpacedWins(After(Initial(), run), sid, e, i, j);
  }

  /** The rows of a schedule are the jobs of its wins and no others. */
  lemma RowsAreTheWins(run: seq<Action>, sid: nat, id: nat)
    requires Legal(Initial(), run)
    ensures var s := After(Initial(), run);
            id in s.db.rows && s.db.rows[id].scheduleId == Some(sid) <==> HasWin(s, id, sid)
  {
    RunsKeepBoth(run);
  }

  lemma Scale(a: int, b: int, e: int)
    requires a <= b && e > 0
    ensures a * e <= b * e
  {
  }

  /** While a schedule's `no_overlap` has always been on, at most one queued or running
      job of it exists in any reachable state. */
  lemma AtMostOneActive(run: seq<Action>, sid: nat, a: nat, b: nat)
    requires Legal(Initial(), run)
    requires var s := After(Initial(), run);
             sid !in s.loose && a in s.db.rows && b in s.db.rows
             && s.db.rows[a].scheduleId == Some(sid) == s.db.rows[b].scheduleId
             && IsActive(s.db.rows[a]) && IsActive(s.db.rows[b])
    ensures a == b
  {
    RunsKeepBoth(run);
  }

  /** A tick that wins moves `next_run_at` forward whether or not it materialises a
      job, and skips the job exactly when the previous one is still active; a tick that
      loses changes nothing. */
  lemma SkippedTickAdvances(run: seq<Action>, t: nat)
    requires Legal(Initial(), run) && Enabled(After(Initial(), run), TickOne(t))
    ensures var s := After(Initial(), run);
            var snap := s.tickers[t].pending[0];
            var s' := Apply(s, TickOne(t));
            && (!TickWins(s.db, snap) ==> s'.db == s.db)
            && (TickWins(s.db, snap) ==>
                  && s'.db.schedules[snap.sid].nextRunAt > s.db.schedules[snap.sid].nextRunAt
                  && (s'.db.rows == s.db.rows <==> snap.noOverlap && HasActive(s.db.rows, snap.sid)))
  {
    RunsKeepBoth(run);
    TickCases(After(Initial(), run), t);
  }
}
