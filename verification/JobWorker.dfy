/** One worker's own statements, one after each gap in which others may commit, and that
    such a sequence is part of a run of the job machine (asas_jobs/runner.py). */
module JobWorker {
  import opened Wrappers
  import opened JobTable
  import opened JobMachine
  import JobProofs

  /** What a worker has in hand between two of its statements. */
  datatype Role = Free | Picked(id: nat) | Holding(id: nat) | Judging(id: nat, attempts: nat, maxAttempts: nat)

  function RoleOf(k: Worker): Role {
    match k
    case Idle => Free
    case Selected(id) => Picked(id)
    case Busy(id, _) => Holding(id)
    case Judged(id, _, attempts, maxAttempts) => Judging(id, attempts, maxAttempts)
  }

  /** A statement of the worker: one that found nothing, or a step of the machine. */
  datatype Turn = Nothing | Own(a: Action)

  /** What became of a claim or a settle. */
  datatype Act = Took(id: nat) | Settle(id: nat, ok: bool)

  predicate CanTake(db: Db, role: Role, w: string, turn: Turn) {
    match turn
    case Nothing => role.Free?
    case Own(Select(v, id, now)) => v == w && role.Free? && Due(db.rows, id, now)
    case Own(ClaimCas(v, _, _)) => v == w && role.Picked?
    case Own(SettleOk(v, _)) => v == w && role.Holding?
    case Own(ReadBack(v)) => v == w && role.Holding? && role.id in db.rows
    case Own(SettleFailed(v, _, _)) => v == w && role.Judging?
    case Own(SettleDead(v, _, _)) => v == w && role.Holding?
    case _ => false
  }

  /** The turn's effect on the database and on what the worker has in hand. */
  function Taken(db: Db, role: Role, w: string, turn: Turn): (Db, Role)
    requires CanTake(db, role, w, turn)
  {
    match turn
    case Nothing => (db, role)
    case Own(Select(_, id, _)) => (db, Picked(id))
    case Own(ClaimCas(_, lease, now)) =>
      if IsQueued(db.rows, role.id) then (Claim(db, role.id, w, lease, now), Holding(role.id)) else (db, Free)
    case Own(SettleOk(_, now)) => (Succeed(db, role.id, w, now), Free)
    case Own(ReadBack(_)) => (db, Judging(role.id, db.rows[role.id].attempts, db.rows[role.id].maxAttempts))
    case Own(SettleFailed(_, error, now)) =>
      (Fail(db, role.id, w, Judge(false, role.attempts, role.maxAttempts), error, now), Free)
    case Own(SettleDead(_, error, now)) => (Fail(db, role.id, w, DeadLetter, error, now), Free)
  }

  function ActOf(db: Db, role: Role, w: string, turn: Turn): seq<Act>
    requires CanTake(db, role, w, turn)
  {
    match turn
    case Own(ClaimCas(_, _, _)) => if IsQueued(db.rows, role.id) then [Took(role.id)] else []
    case Own(SettleOk(_, _)) => [Settle(role.id, HeldBy(db.rows, role.id, w))]
    case Own(SettleFailed(_, _, _)) => [Settle(role.id, HeldBy(db.rows, role.id, w))]
    case Own(SettleDead(_, _, _)) => [Settle(role.id, HeldBy(db.rows, role.id, w))]
    case _ => []
  }

  /** Where the worker and the database stand, and what it has done. */
  datatype Scene = Scene(db: Db, clock: nat, role: Role, acts: seq<Act>)

  /** Others run, then the worker takes its turn. */
  predicate Fits(others: (nat, Db) -> Db, sc: Scene, w: string, turn: Turn) {
    CanTake(others(sc.clock, sc.db), sc.role, w, turn)
  }

  function Next(others: (nat, Db) -> Db, sc: Scene, w: string, turn: Turn): Scene
    requires Fits(others, sc, w, turn)
  {
    var db := others(sc.clock, sc.db);
    var (db', role') := Taken(db, sc.role, w, turn);
    Scene(db', sc.clock + 1, role', sc.acts + ActOf(db, sc.role, w, turn))
  }

  predicate Playable(others: (nat, Db) -> Db, sc: Scene, w: string, turns: seq<Turn>)
    decreases |turns|
  {
    turns == [] || (Fits(others, sc, w, turns[0]) && Playable(others, Next(others, sc, w, turns[0]), w, turns[1..]))
  }

  function Play(others: (nat, Db) -> Db, sc: Scene, w: string, turns: seq<Turn>): Scene
    requires Playable(others, sc, w, turns)
    decreases |turns|
  {
    if turns == [] then sc else Play(others, Next(others, sc, w, turns[0]), w, turns[1..])
  }

  /** The turns lead from one scene to the other. */
  predicate Leads(others: (nat, Db) -> Db, sc: Scene, w: string, turns: seq<Turn>, end: Scene) {
    Playable(others, sc, w, turns) && Play(others, sc, w, turns) == end
  }

  lemma {:induction false} LeadsOn(
    others: (nat, Db) -> Db, a: Scene, w: string, first: seq<Turn>, b: Scene, second: seq<Turn>, c: Scene)
    requires Leads(others, a, w, first, b) && Leads(others, b, w, second, c)
    ensures Leads(others, a, w, first + second, c)
    decreases |first|
  {
    if first == [] {
      assert first + second == second;
    } else {
      LeadsOn(others, Next(others, a, w, first[0]), w, first[1..], b, second, c);
      assert (first + second)[1..] == first[1..] + second;
    }
  }

  lemma OneTurn(others: (nat, Db) -> Db, a: Scene, w: string, turns: seq<Turn>, b: Scene, turn: Turn)
    requires Leads(others, a, w, turns, b) && Fits(others, b, w, turn)
    ensures Leads(others, a, w, turns + [turn], Next(others, b, w, turn))
  {
    assert [turn][1..] == [];
    LeadsOn(others, a, w, turns, b, [turn], Next(others, b, w, turn));
  }

  /** What was done earlier is only carried along. */
  lemma {:induction false} ActsCarryOver(
    others: (nat, Db) -> Db, sc: Scene, w: string, turns: seq<Turn>, end: Scene, before: seq<Act>)
    requires Leads(others, sc, w, turns, end)
    ensures Leads(others, sc.(acts := before + sc.acts), w, turns, end.(acts := before + end.acts))
    decreases |turns|
  {
    if turns != [] {
      var next := Next(others, sc, w, turns[0]);
      ActsCarryOver(others, next, w, turns[1..], end, before);
      var later := sc.(acts := before + sc.acts);
      assert Next(others, later, w, turns[0]) == next.(acts := before + next.acts);
    }
  }

  /** A call that starts with nothing done, after what was done before. */
  lemma LeadsFurther(
    others: (nat, Db) -> Db, start: Scene, w: string, turns: seq<Turn>, mid: Scene, more: seq<Turn>, end: Scene)
    requires Leads(others, start, w, turns, mid) && Leads(others, mid.(acts := []), w, more, end)
    ensures Leads(others, start, w, turns + more, end.(acts := mid.acts + end.acts))
  {
    assert mid.acts + [] == mid.acts;
    ActsCarryOver(others, mid.(acts := []), w, more, end, mid.acts);
    LeadsOn(others, start, w, turns, mid, more, end.(acts := mid.acts + end.acts));
  }

  /** A round: a claim that took a job, and its execution. */
  lemma RoundLeads(
    others: (nat, Db) -> Db, start: Scene, w: string, turns: seq<Turn>, mid: Scene,
    claim: seq<Turn>, claimed: Scene, settle: seq<Turn>, end: Scene)
    requires Leads(others, start, w, turns, mid) && Leads(others, mid.(acts := []), w, claim, claimed)
    requires Leads(others, claimed.(acts := []), w, settle, end)
    ensures Leads(others, start, w, turns + (claim + settle), end.(acts := mid.acts + (claimed.acts + end.acts)))
  {
    LeadsFurther(others, mid.(acts := []), w, claim, claimed, settle, end);
    LeadsFurther(others, start, w, turns, mid, claim + settle, end.(acts := claimed.acts + end.acts));
  }

  /** A select that found `id`, and the compare-and-set on it. */
  lemma LookAndClaim(
    others: (nat, Db) -> Db, start: Scene, w: string, turns: seq<Turn>, sc: Scene, id: nat, lease: int, now: int)
    returns (more: seq<Turn>)
    requires Leads(others, start, w, turns, sc) && sc.role == Free && sc.acts == []
    requires Due(others(sc.clock, sc.db).rows, id, now)
    ensures |more| == |turns| + 2 && more[..|turns|] == turns
    ensures more[|turns|] == Own(Select(w, id, now)) && more[|turns| + 1] == Own(ClaimCas(w, lease, now))
    ensures var at := others(sc.clock + 1, others(sc.clock, sc.db));
            Leads(others, start, w, more,
              if IsQueued(at.rows, id) then Scene(Claim(at, id, w, lease, now), sc.clock + 2, Holding(id), [Took(id)])
              else Scene(at, sc.clock + 2, Free, []))
  {
    var look, claim := Own(Select(w, id, now)), Own(ClaimCas(w, lease, now));
    OneTurn(others, start, w, turns, sc, look);
    OneTurn(others, start, w, turns + [look], Next(others, sc, w, look), claim);
    more := turns + [look] + [claim];
  }

  /** Every select among a worker's turns found a queued row that was due by the clock it
      read. */
  lemma {:induction false} SelectsAreDue(
    others: (nat, Db) -> Db, sc: Scene, w: string, turns: seq<Turn>, k: nat, id: nat, now: int)
    requires Playable(others, sc, w, turns) && k < |turns| && turns[k] == Own(Select(w, id, now))
    ensures Playable(others, sc, w, turns[..k])
    ensures var at := Play(others, sc, w, turns[..k]);
            var rows := others(at.clock, at.db).rows;
            id in rows && rows[id].status == Queued && rows[id].runAt <= now
    decreases k
  {
    if k > 0 {
      assert turns[..k][0] == turns[0] && turns[..k][1..] == turns[1..][..k - 1];
      SelectsAreDue(others, Next(others, sc, w, turns[0]), w, turns[1..], k - 1, id, now);
    }
  }

  // ---------------------------------------------------------------------------
  // A pass is part of a run
  // ---------------------------------------------------------------------------

  /** A turn that does something is a step of the machine with the same effect. */
  lemma TurnIsAStep(s: State, w: string, a: Action)
    requires CanTake(s.db, RoleOf(WorkerAt(s, w)), w, Own(a))
    ensures Enabled(s, a)
    ensures var (db', role') := Taken(s.db, RoleOf(WorkerAt(s, w)), w, Own(a));
            Apply(s, a).db == db' && RoleOf(WorkerAt(Apply(s, a), w)) == role'
  {
  }

  /** What others make of the database between the turns is what steps of theirs make of
      it, which leave the worker's own state alone. */
  ghost predicate IsWeatherOf(
    others: (nat, Db) -> Db, s: State, clock: nat, w: string, turns: seq<Turn>, gaps: seq<seq<Action>>)
    decreases |turns|
  {
    turns == [] ||
      (&& gaps != [] && Legal(s, gaps[0])
       && var t := After(s, gaps[0]);
          && t.db == others(clock, s.db) && WorkerAt(t, w) == WorkerAt(s, w)
          && (turns[0].Own? ==> Enabled(t, turns[0].a))
          && var next := if turns[0].Own? then Apply(t, turns[0].a) else t;
             IsWeatherOf(others, next, clock + 1, w, turns[1..], gaps[1..]))
  }

  lemma {:induction false} Concat(s: State, first: seq<Action>, second: seq<Action>)
    requires Legal(s, first) && Legal(After(s, first), second)
    ensures Legal(s, first + second) && After(s, first + second) == After(After(s, first), second)
    decreases |first|
  {
    if first == [] {
      assert first + second == second;
    } else {
      Concat(Apply(s, first[0]), first[1..], second);
      assert (first + second)[1..] == first[1..] + second;
    }
  }

  lemma GapAndTurn(s: State, gap: seq<Action>, t: State, turn: Turn) returns (run: seq<Action>, next: State)
    requires Legal(s, gap) && After(s, gap) == t && (turn.Own? ==> Enabled(t, turn.a))
    ensures Legal(s, run) && After(s, run) == next && next == if turn.Own? then Apply(t, turn.a) else t
  {
    if turn.Own? {
      assert [turn.a][1..] == [];
      Concat(s, gap, [turn.a]);
      run, next := gap + [turn.a], Apply(t, turn.a);
    } else {
      run, next := gap, t;
    }
  }

  /** A worker's turns among the steps of others are part of a run: what holds of every
      run holds of them. */
  lemma {:induction false} PassIsARun(
    others: (nat, Db) -> Db, s: State, sc: Scene, w: string, turns: seq<Turn>, gaps: seq<seq<Action>>)
    returns (run: seq<Action>)
    requires sc.db == s.db && sc.role == RoleOf(WorkerAt(s, w))
    requires Playable(others, sc, w, turns) && IsWeatherOf(others, s, sc.clock, w, turns, gaps)
    ensures Legal(s, run)
    ensures After(s, run).db == Play(others, sc, w, turns).db
    ensures RoleOf(WorkerAt(After(s, run), w)) == Play(others, sc, w, turns).role
    decreases |turns|
  {
    run := [];
    if turns != [] {
      var t := After(s, gaps[0]);
      var first, next := GapAndTurn(s, gaps[0], t, turns[0]);
      if turns[0].Own? { TurnIsAStep(t, w, turns[0].a); }
      var rest := PassIsARun(others, next, Next(others, sc, w, turns[0]), w, turns[1..], gaps[1..]);
      Concat(s, first, rest);
      run := first + rest;
    }
  }

  // ---------------------------------------------------------------------------
  // Two handlers under one worker id
  // ---------------------------------------------------------------------------

  /** What `run_once` rules out: handlers of one worker id side by side. `holder` is
      whose claim of a job is the latest. */
  datatype Crew = Crew(db: Db, roles: map<nat, Role>, holder: map<nat, nat>)

  datatype Move = By(h: nat, turn: Turn) | Lapse(now: int)

  function RoleIn(c: Crew, h: nat): Role {
    if h in c.roles then c.roles[h] else Free
  }

  predicate CanMove(c: Crew, w: string, m: Move) {
    m.By? ==> CanTake(c.db, RoleIn(c, m.h), w, m.turn)
  }

  function Moved(c: Crew, w: string, m: Move): Crew
    requires CanMove(c, w, m)
  {
    match m
    case Lapse(now) => c.(db := Reclaim(c.db, now))
    case By(h, turn) =>
      var (db, role) := Taken(c.db, RoleIn(c, h), w, turn);
      Crew(db, c.roles[h := role], if role.Holding? && RoleIn(c, h).Picked? then c.holder[role.id := h] else c.holder)
  }

  predicate CrewLegal(c: Crew, w: string, moves: seq<Move>)
    decreases |moves|
  {
    moves == [] || (CanMove(c, w, moves[0]) && CrewLegal(Moved(c, w, moves[0]), w, moves[1..]))
  }

  function CrewAfter(c: Crew, w: string, moves: seq<Move>): Crew
    requires CrewLegal(c, w, moves)
    decreases |moves|
  {
    if moves == [] then c else CrewAfter(Moved(c, w, moves[0]), w, moves[1..])
  }

  lemma FirstMove(c: Crew, w: string, m: Move, rest: seq<Move>)
    requires CanMove(c, w, m) && CrewLegal(Moved(c, w, m), w, rest)
    ensures CrewLegal(c, w, [m] + rest) && CrewAfter(c, w, [m] + rest) == CrewAfter(Moved(c, w, m), w, rest)
  {
    assert ([m] + rest)[1..] == rest;
  }

  /** A free handler takes a due job. */
  lemma TakeDue(c: Crew, w: string, h: nat, id: nat, lease: int, now: int) returns (moves: seq<Move>)
    requires RoleIn(c, h).Free? && Due(c.db.rows, id, now)
    ensures CrewLegal(c, w, moves)
    ensures CrewAfter(c, w, moves) == Crew(Claim(c.db, id, w, lease, now), c.roles[h := Holding(id)], c.holder[id := h])
  {
    var look, claim := By(h, Own(Select(w, id, now))), By(h, Own(ClaimCas(w, lease, now)));
    FirstMove(Moved(c, w, look), w, claim, []);
    FirstMove(c, w, look, [claim]);
    moves := [look] + [claim];
    assert c.roles[h := Picked(id)][h := Holding(id)] == c.roles[h := Holding(id)];
  }

  lemma {:induction false} MovesOn(c: Crew, w: string, first: seq<Move>, second: seq<Move>)
    requires CrewLegal(c, w, first) && CrewLegal(CrewAfter(c, w, first), w, second)
    ensures CrewLegal(c, w, first + second)
    ensures CrewAfter(c, w, first + second) == CrewAfter(CrewAfter(c, w, first), w, second)
    decreases |first|
  {
    if first == [] {
      assert first + second == second;
    } else {
      MovesOn(Moved(c, w, first[0]), w, first[1..], second);
      assert (first + second)[1..] == first[1..] + second;
    }
  }

  /** Of two handlers that hold the same job under one worker id, the first to settle wins. */
  lemma FirstSettleWins(c: Crew, w: string, id: nat, end: int)
    requires RoleIn(c, 0) == Holding(id) == RoleIn(c, 1) && HeldBy(c.db.rows, id, w)
    ensures var settle := Own(SettleOk(w, end));
            && ActOf(c.db, RoleIn(c, 0), w, settle) == [Settle(id, true)]
            && var settled := Moved(c, w, By(0, settle));
               && settled.db.rows[id].status == Succeeded
               && ActOf(settled.db, RoleIn(settled, 1), w, settle) == [Settle(id, false)]
  {
  }

  /** Without one job at a time the worker id is no claim token: from any database with a
      due job of two attempts left, a first handler outlives its lease, a second of the
      same worker id claims the job again, and the first one's settle goes through
      against that claim, so that the second one's no longer does. */
  lemma TwoHandlersBreakTheToken(db: Db, id: nat, w: string, lease: int, now: int, later: int, end: int)
    returns (moves: seq<Move>)
    requires Due(db.rows, id, now) && db.rows[id].attempts + 2 <= db.rows[id].maxAttempts && now + lease < later
    ensures var start := Crew(db, map[], map[]);
            && CrewLegal(start, w, moves)
            && var c := CrewAfter(start, w, moves);
               && RoleIn(c, 0) == Holding(id) == RoleIn(c, 1) && id in c.holder && c.holder[id] == 1
               && var settle := Own(SettleOk(w, end));
                  && ActOf(c.db, RoleIn(c, 0), w, settle) == [Settle(id, true)]
                  && var settled := Moved(c, w, By(0, settle));
                     && settled.db.rows[id].status == Succeeded
                     && ActOf(settled.db, RoleIn(settled, 1), w, settle) == [Settle(id, false)]
  {
    var start := Crew(db, map[], map[]);
    var first := TakeDue(start, w, 0, id, lease, now);
    var c1 := CrewAfter(start, w, first);
    var c2 := Moved(c1, w, Lapse(later));
    JobProofs.DisciplineIsNeeded(db, id, w, lease, now, later, end);
    FirstMove(c1, w, Lapse(later), []);
    MovesOn(start, w, first, [Lapse(later)] + []);
    assert [Lapse(later)] + [] == [Lapse(later)];
    var second := TakeDue(c2, w, 1, id, lease, later);
    MovesOn(start, w, first + [Lapse(later)], second);
    moves := first + [Lapse(later)] + second;
    FirstSettleWins(CrewAfter(start, w, moves), w, id, end);
  }
}
