/** What becomes of each call, in the release's own terms: which calls run a handler,
    which are refused, what the active skill is, and what the trace says of them
    (asas_agent/loop.py). */
module AgentRules {
  import opened Wrappers
  import opened TraceLog
  import opened AgentLoop
  import opened AgentProofs

  /** A tool that is always available, or one of the skill in force. */
  predicate Offered(cfg: Config, name: string, active: Option<string>) {
    || name in cfg.always
    || (active.Some? && active.value in cfg.skills && name in cfg.skills[active.value])
  }

  /** The call runs a handler. */
  predicate Handled(cfg: Config, c: ToolCall, active: Option<string>) {
    c.name != "activate_skill" && Offered(cfg, c.name, active)
  }

  /** The answer to a call that runs none, and the skill in force after it. */
  ghost predicate Settles(cfg: Config, c: ToolCall, before: Option<string>, after: Option<string>, r: Reply) {
    && r.version.None?
    && (if c.name != "activate_skill" then after == before && !r.ok && r.code == Some("denied")
        else if c.skillArg.Some? && c.skillArg.value in cfg.skills then after == c.skillArg && r.ok && r.code.None?
        else after == before && !r.ok && r.code == Some("unknown_skill"))
  }

  /** A call that gets its turn runs its handler exactly if it is offered under the skill
      in force, and otherwise ends at once with the host untouched. */
  lemma EnterRules(cfg: Config, s: State, p: nat)
    requires Enabled(cfg, s, Enter(p))
    ensures var c, w, s' := s.calls[p], s.world, Apply(cfg, s, Enter(p));
            && s'.world.host == w.host
            && (if Handled(cfg, c, w.active) then
                  s'.phases == s.phases[p := Running(w.active, BLANK, 0)] && s'.world == w && s'.log == s.log
                else
                  && s'.phases[p].Ended? && s'.phases[p].reply.Some?
                  && s'.phases == s.phases[p := s'.phases[p]]
                  && Settles(cfg, c, w.active, s'.world.active, s'.phases[p].reply.value))
  {
  }

  /** Only a running handler touches the host, its own call's and under the skill that was
      in force when it began; only `activate_skill` moves the skill. */
  lemma WhatStepsTouch(cfg: Config, s: State, a: Action)
    requires Enabled(cfg, s, a)
    ensures var s' := Apply(cfg, s, a);
            && (a.Stretch? ==>
                  var Running(before, scratch, pc) := s.phases[a.pos];
                  var (scratch', host') := cfg.body(s.calls[a.pos], before, pc, scratch, s.world.host);
                  && s'.phases == s.phases[a.pos := Running(before, scratch', pc + 1)]
                  && s'.world == World(s.world.active, host'))
            && (a.Finish? ==> s'.phases == s.phases[a.pos := Phase.Ended(Some(s.phases[a.pos].scratch.reply))])
            && (!a.Stretch? ==> s'.world.host == s.world.host)
            && (s'.world.active != s.world.active ==> a.Enter? && s.calls[a.pos].name == "activate_skill")
  {
  }

  // ---------------------------------------------------------------------------
  // The trace
  // ---------------------------------------------------------------------------

  /** `e` is what the trace says of call `c`, its answer `r`, with skill `before` in force. */
  ghost predicate Tells(cfg: Config, e: Event, index: nat, c: ToolCall, before: Option<string>, r: Reply) {
    && e.index == index && e.callId == c.id && e.name == c.name && e.arguments == c.args
    && e.skillBefore == before && e.ok == r.ok && e.code == r.code && e.version == r.version
    && (if Handled(cfg, c, before) then e.skillAfter == before else Settles(cfg, c, before, e.skillAfter, r))
  }

  /** The skill in force at call `k`: the first one, or what the call before left. */
  function SkillBefore(cfg: Config, trace: seq<Event>, k: nat): Option<string>
    requires k <= |trace|
  {
    if k == 0 then cfg.start.active else trace[k - 1].skillAfter
  }

  lemma {:induction false} SerialEvents(cfg: Config, calls: seq<ToolCall>, m: nat)
    requires m <= |calls|
    ensures |SerialTrace(cfg, calls, m)| == if m <= cfg.maxTools then m else cfg.maxTools
    ensures forall k :: 0 <= k < |SerialTrace(cfg, calls, m)| ==>
              SerialTrace(cfg, calls, m)[k] == SerialEvent(cfg, calls, k)
  {
    if m > 0 { SerialEvents(cfg, calls, m - 1); }
  }

  /** The skill after a call is in force at the next. */
  lemma SkillsChain(cfg: Config, calls: seq<ToolCall>, k: nat)
    requires k < |calls| && k < cfg.maxTools
    ensures SerialEvent(cfg, calls, k).skillBefore == SerialWorld(cfg, calls, k).active
    ensures SerialEvent(cfg, calls, k).skillAfter == SerialWorld(cfg, calls, k + 1).active
  {
  }

  lemma SerialTells(cfg: Config, calls: seq<ToolCall>, k: nat)
    requires k < |calls| && k < cfg.maxTools
    ensures SerialReply(cfg, calls, k).Some?
    ensures Tells(cfg, SerialEvent(cfg, calls, k), k + 1, calls[k], SerialWorld(cfg, calls, k).active,
                  SerialReply(cfg, calls, k).value)
  {
  }

  /** In every run, each event released so far tells of the call of its index: refused
      with code `denied` unless it is `activate_skill`, always available or a tool of the
      skill in force; a known skill activated and an unknown one not; everything else
      answered by its handler. The skill each event begins under is the one the event
      before it left. */
  lemma TraceKeepsRules(cfg: Config, run: seq<Action>, k: nat)
    requires Honest(cfg) && Legal(cfg, Initial(cfg), run)
    requires k < |After(cfg, Initial(cfg), run).log.trace|
    ensures var s := After(cfg, Initial(cfg), run);
            && k < |s.calls| && k < cfg.maxTools
            && k < |s.phases| && s.phases[k].Ended? && s.phases[k].reply.Some?
            && Tells(cfg, s.log.trace[k], k + 1, s.calls[k], SkillBefore(cfg, s.log.trace, k), s.phases[k].reply.value)
  {
    TraceIsSerialPrefix(cfg, run);
    InitialHolds(cfg);
    RunKeeps(cfg, Initial(cfg), run);
    var s := After(cfg, Initial(cfg), run);
    SerialEvents(cfg, s.calls, s.log.traced);
    SerialTells(cfg, s.calls, k);
    if k > 0 { SkillsChain(cfg, s.calls, k - 1); }
    TracedHasEnded(cfg, s, k);
  }

  lemma TracedHasEnded(cfg: Config, s: State, k: nat)
    requires Shape(cfg, s) && Mirrors(s.log, Expected(cfg, s)) && RepliesAgree(cfg, s)
    requires k < s.log.traced && k < |s.calls|
    ensures s.phases[k].Ended? && s.phases[k].reply == SerialReply(cfg, s.calls, k)
  {
    assert k + 1 in Expected(cfg, s);
  }

  /** A call past the budget is neither run nor traced: there is one event for each of the
      first `max_tools` calls that the trace has reached. */
  lemma OverBudgetIsUntold(cfg: Config, run: seq<Action>, p: nat)
    requires Honest(cfg) && Legal(cfg, Initial(cfg), run)
    ensures var s := After(cfg, Initial(cfg), run);
            && |s.log.trace| == (if s.log.traced <= cfg.maxTools then s.log.traced else cfg.maxTools)
            && (cfg.maxTools <= p < |s.phases| ==> s.phases[p] == Phase.Ended(None))
  {
    TraceIsSerialPrefix(cfg, run);
    InitialHolds(cfg);
    RunKeeps(cfg, Initial(cfg), run);
    var s := After(cfg, Initial(cfg), run);
    SerialEvents(cfg, s.calls, s.log.traced);
  }

  // ---------------------------------------------------------------------------
  // Which calls run a handler
  // ---------------------------------------------------------------------------

  /** The calls whose handler ran to its end in a run. */
  function Finished(run: seq<Action>): set<nat> {
    set i | 0 <= i < |run| && run[i].Finish? :: run[i].pos
  }

  /** Of the calls that have ended, `ran` are those that ran a handler. */
  ghost predicate RanOk(cfg: Config, s: State, ran: set<nat>)
    requires Shape(cfg, s)
  {
    && (forall p :: p in ran ==> p < |s.phases| && s.phases[p].Ended?)
    && (forall p: nat {:trigger s.phases[p]} :: p < |s.phases| && p < cfg.maxTools && s.phases[p].Ended? ==>
          (p in ran <==> Handled(cfg, s.calls[p], SerialWorld(cfg, s.calls, p).active)))
  }

  lemma StartKeepsRan(cfg: Config, s: State, c: ToolCall, ran: set<nat>)
    requires Inv(cfg, s) && RanOk(cfg, s, ran)
    ensures Shape(cfg, DoStart(cfg, s, c)) && RanOk(cfg, DoStart(cfg, s, c), ran)
  {
    var s' := DoStart(cfg, s, c);
    assert forall p: nat :: p < |s.phases| ==> s'.phases[p] == s.phases[p] && s'.calls[p] == s.calls[p];
    forall p: nat | p < |s'.phases| && p < cfg.maxTools && s'.phases[p].Ended?
      ensures p in ran <==> Handled(cfg, s'.calls[p], SerialWorld(cfg, s'.calls, p).active)
    {
      SerialExtends(cfg, s.calls, c, p);
    }
  }

  lemma MoveKeepsRan(cfg: Config, s: State, s': State, p: nat, ran: set<nat>)
    requires Shape(cfg, s) && Shape(cfg, s') && RanOk(cfg, s, ran) && Moved(s, s', p) && p !in ran
    ensures s'.phases[p].Running? ==> RanOk(cfg, s', ran)
    ensures s'.phases[p].Ended? && !Handled(cfg, s.calls[p], SerialWorld(cfg, s.calls, p).active) ==>
              RanOk(cfg, s', ran)
    ensures s'.phases[p].Ended? && Handled(cfg, s.calls[p], SerialWorld(cfg, s.calls, p).active) ==>
              RanOk(cfg, s', ran + {p})
  {
    assert forall q: nat :: q < |s.phases| && q != p ==> s'.phases[q] == s.phases[q];
  }

  lemma StepKeepsRan(cfg: Config, s: State, a: Action, ran: set<nat>)
    requires Honest(cfg) && Inv(cfg, s) && Enabled(cfg, s, a) && RanOk(cfg, s, ran)
    ensures var s' := Apply(cfg, s, a);
            Shape(cfg, s') && RanOk(cfg, s', if a.Finish? then ran + {a.pos} else ran)
  {
    StepKeeps(cfg, s, a);
    if a.Start? {
      StartKeepsRan(cfg, s, a.call, ran);
    } else {
      if a.Enter? { WorldAtEntry(cfg, s, a.pos); } else { assert OnTrack(cfg, s, a.pos); }
      MoveKeepsRan(cfg, s, Apply(cfg, s, a), a.pos, ran);
    }
  }

  lemma {:induction false} RunKeepsRan(cfg: Config, s: State, run: seq<Action>, ran: set<nat>)
    requires Honest(cfg) && Inv(cfg, s) && Legal(cfg, s, run) && RanOk(cfg, s, ran)
    ensures var s' := After(cfg, s, run); Shape(cfg, s') && RanOk(cfg, s', ran + Finished(run))
    decreases |run|
  {
    if run == [] {
      assert ran + Finished(run) == ran;
    } else {
      StepKeeps(cfg, s, run[0]);
      StepKeepsRan(cfg, s, run[0], ran);
      var now := if run[0].Finish? then ran + {run[0].pos} else ran;
      RunKeepsRan(cfg, Apply(cfg, s, run[0]), run[1..], now);
      FinishedFirst(run);
      assert now + Finished(run[1..]) == ran + Finished(run);
    }
  }

  lemma FinishedFirst(run: seq<Action>)
    requires run != []
    ensures Finished(run) == (if run[0].Finish? then {run[0].pos} else {}) + Finished(run[1..])
  {
    forall p | p in Finished(run)
      ensures p in (if run[0].Finish? then {run[0].pos} else {}) + Finished(run[1..])
    {
      var i :| 0 <= i < |run| && run[i].Finish? && run[i].pos == p;
      if i > 0 { assert run[1..][i - 1] == run[i]; }
    }
    forall p | p in Finished(run[1..])
      ensures p in Finished(run)
    {
      var i :| 0 <= i < |run[1..]| && run[1..][i].Finish? && run[1..][i].pos == p;
      assert run[i + 1] == run[1..][i];
    }
  }

  /** In every run, of the calls in the trace exactly those have run a handler that are
      not `activate_skill` and were offered under the skill their event begins with. */
  lemma HandlersRunIff(cfg: Config, run: seq<Action>, k: nat)
    requires Honest(cfg) && Legal(cfg, Initial(cfg), run)
    requires k < |After(cfg, Initial(cfg), run).log.trace|
    ensures var s := After(cfg, Initial(cfg), run);
            k < |s.calls| && (k in Finished(run) <==> Handled(cfg, s.calls[k], s.log.trace[k].skillBefore))
  {
    TraceKeepsRules(cfg, run, k);
    InitialHolds(cfg);
    RunKeepsRan(cfg, Initial(cfg), run, {});
    TraceIsSerialPrefix(cfg, run);
    var s := After(cfg, Initial(cfg), run);
    SerialEvents(cfg, s.calls, s.log.traced);
    SkillsChain(cfg, s.calls, k);
    assert {} + Finished(run) == Finished(run);
  }

  // ---------------------------------------------------------------------------
  // What a call waits for
  // ---------------------------------------------------------------------------

  /** The two calls may not overlap: one of them is not read-only. */
  predicate Excludes(cfg: Config, c: ToolCall, d: ToolCall) {
    c.name !in cfg.readOnly || d.name !in cfg.readOnly
  }

  predicate WaitsFor(cfg: Config, calls: seq<ToolCall>, waits: set<nat>, p: nat) {
    p < |calls| && forall e :: e in waits ==> e < p && Excludes(cfg, calls[e], calls[p])
  }

  /** Whatever a waiting call waits for, and whatever the next one would, may not overlap
      with it. */
  ghost predicate WaitsOk(cfg: Config, s: State) {
    && |s.phases| == |s.calls|
    && (forall p {:trigger s.phases[p]} :: 0 <= p < |s.phases| && s.phases[p].Waiting? ==>
          WaitsFor(cfg, s.calls, s.phases[p].waits, p))
    && (s.alone.Some? ==> s.alone.value < |s.calls| && s.calls[s.alone.value].name !in cfg.readOnly)
    && (forall q :: q in s.beside ==> q < |s.calls|)
  }

  lemma StartKeepsWaits(cfg: Config, s: State, c: ToolCall)
    requires WaitsOk(cfg, s)
    ensures WaitsOk(cfg, DoStart(cfg, s, c))
  {
    var s', n := DoStart(cfg, s, c), |s.calls|;
    forall p | 0 <= p < |s'.phases| && s'.phases[p].Waiting?
      ensures WaitsFor(cfg, s'.calls, s'.phases[p].waits, p)
    {
      if p < n {
        assert s'.phases[p] == s.phases[p] && WaitsFor(cfg, s.calls, s.phases[p].waits, p);
      } else {
        assert s'.calls[p] == c;
      }
    }
  }

  lemma WaitsStep(cfg: Config, s: State, a: Action)
    requires WaitsOk(cfg, s) && Enabled(cfg, s, a)
    ensures WaitsOk(cfg, Apply(cfg, s, a))
  {
    var s' := Apply(cfg, s, a);
    if a.Start? {
      StartKeepsWaits(cfg, s, a.call);
    } else {
      assert forall p: nat :: p < |s.phases| && p != a.pos ==> s'.phases[p] == s.phases[p];
    }
  }

  lemma {:induction false} WaitsRun(cfg: Config, s: State, run: seq<Action>)
    requires WaitsOk(cfg, s) && Legal(cfg, s, run)
    ensures WaitsOk(cfg, After(cfg, s, run))
    decreases |run|
  {
    if run != [] {
      WaitsStep(cfg, s, run[0]);
      WaitsRun(cfg, Apply(cfg, s, run[0]), run[1..]);
    }
  }

  /** In every reachable state a waiting call may begin if and only if every call before
      it that is not read-only, or every call before it if it is not read-only itself, has
      ended: it is held back by what it may not overlap with, and by nothing else. */
  lemma MayBeginIff(cfg: Config, run: seq<Action>, p: nat)
    requires Honest(cfg) && Legal(cfg, Initial(cfg), run)
    requires var s := After(cfg, Initial(cfg), run);
             p < |s.phases| == |s.calls| && s.phases[p].Waiting?
    ensures var s := After(cfg, Initial(cfg), run);
            Enabled(cfg, s, Enter(p)) <==>
              forall q: nat :: q < p && Excludes(cfg, s.calls[q], s.calls[p]) ==> s.phases[q].Ended?
  {
    InitialHolds(cfg);
    RunKeeps(cfg, Initial(cfg), run);
    WaitsRun(cfg, Initial(cfg), run);
    var s := After(cfg, Initial(cfg), run);
    if Enabled(cfg, s, Enter(p)) {
      GateOpens(cfg, s, p);
      forall q: nat | q < p && Excludes(cfg, s.calls[q], s.calls[p])
        ensures s.phases[q].Ended?
      {
        assert Conflict(cfg, s, q, p) && IsEnded(s, q);
      }
    }
  }
}
