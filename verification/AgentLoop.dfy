/** The tool-call scheduler inside `run_agent` (asas_agent/loop.py): calls take an
    index and a place, wait on `alone` and `beside`, run, and release trace events in
    index order. One step is one stretch of code between two awaits.

    Positions count calls from 0; a call's `index` in the trace is its position + 1.
    The `done` event of a call is set exactly when its phase is `Ended`. */
module AgentLoop {
  import opened Wrappers
  import opened TraceLog

  /** What the host keeps behind its tools. */
  type Host = map<string, string>

  datatype Reply = Reply(ok: bool, code: Option<string>, version: Option<string>, data: string)

  /** A dispatcher's private progress through one call, and the answer it has built. */
  datatype Scratch = Scratch(memory: seq<string>, reply: Reply)

  const BLANK := Scratch([], Reply(false, None, None, ""))

  /** `skillArg` is `args.get("name")`, which only `activate_skill` reads. */
  datatype ToolCall = ToolCall(id: string, name: string, args: string, skillArg: Option<string>)

  datatype World = World(active: Option<string>, host: Host)

  /** A release and a host. `body(call, active, k, scratch, host)` is the k-th of the
      `steps(call)` uninterrupted stretches of the handler, the host's state read and
      written in each; other calls may run between two of them. */
  datatype Config = Config(
    maxTools: nat,
    skills: map<string, set<string>>,
    always: set<string>,
    readOnly: set<string>,
    start: World,
    steps: ToolCall -> nat,
    body: (ToolCall, Option<string>, nat, Scratch, Host) -> (Scratch, Host))

  /** What the loop relies on: a tool declared read-only leaves the host's state
      alone, and `activate_skill` is not declared read-only. */
  ghost predicate Honest(cfg: Config) {
    && "activate_skill" !in cfg.readOnly
    && (cfg.start.active.Some? ==> cfg.start.active.value in cfg.skills)
    && forall c: ToolCall, a, k, s, h {:trigger cfg.body(c, a, k, s, h)} ::
         c.name in cfg.readOnly ==> cfg.body(c, a, k, s, h).1 == h
  }

  predicate Allowed(cfg: Config, name: string, active: Option<string>) {
    || name == "activate_skill"
    || name in cfg.always
    || (active.Some? && active.value in cfg.skills && name in cfg.skills[active.value])
  }

  predicate Exclusive(cfg: Config, c: ToolCall) {
    c.name !in cfg.readOnly
  }

  // ---------------------------------------------------------------------------
  // One call by itself
  // ---------------------------------------------------------------------------

  function MakeEvent(c: ToolCall, index: nat, before: Option<string>, after: Option<string>, r: Reply): Event {
    Event(index, c.id, c.name, before, after, c.args, r.ok, r.code, r.version)
  }

  const DENIED := Reply(false, Some("denied"), None, "")

  /** The `activate_skill` branch: the skill becomes active, or is unknown. */
  function Activate(cfg: Config, c: ToolCall, active: Option<string>): (Option<string>, Reply) {
    if c.skillArg.Some? && c.skillArg.value in cfg.skills
    then (c.skillArg, Reply(true, None, None, ""))
    else (active, Reply(false, Some("unknown_skill"), None, ""))
  }

  /** A call that awaits nothing: refused, or `activate_skill`. */
  predicate Immediate(cfg: Config, c: ToolCall, active: Option<string>) {
    !Allowed(cfg, c.name, active) || c.name == "activate_skill"
  }

  function ImmediateResult(cfg: Config, c: ToolCall, active: Option<string>): (Option<string>, Reply) {
    if !Allowed(cfg, c.name, active) then (active, DENIED) else Activate(cfg, c, active)
  }

  /** The first `k` stretches of a handler, with nothing in between. */
  function Stretches(cfg: Config, c: ToolCall, active: Option<string>, k: nat, host: Host): (Scratch, Host) {
    if k == 0 then (BLANK, host)
    else
      var (s, h) := Stretches(cfg, c, active, k - 1, host);
      cfg.body(c, active, k - 1, s, h)
  }

  /** One whole call run alone: the state after it, its event and its reply. */
  function Turn(cfg: Config, c: ToolCall, index: nat, w: World): (World, Event, Reply) {
    if Immediate(cfg, c, w.active) then
      var (after, r) := ImmediateResult(cfg, c, w.active);
      (World(after, w.host), MakeEvent(c, index, w.active, after, r), r)
    else
      var (s, h) := Stretches(cfg, c, w.active, cfg.steps(c), w.host);
      (World(w.active, h), MakeEvent(c, index, w.active, w.active, s.reply), s.reply)
  }

  // ---------------------------------------------------------------------------
  // The reference: calls one by one, in index order
  // ---------------------------------------------------------------------------

  function SerialWorld(cfg: Config, calls: seq<ToolCall>, m: nat): World
    requires m <= |calls|
  {
    if m == 0 then cfg.start
    else if m > cfg.maxTools then SerialWorld(cfg, calls, m - 1)
    else Turn(cfg, calls[m - 1], m, SerialWorld(cfg, calls, m - 1)).0
  }

  function SerialEvent(cfg: Config, calls: seq<ToolCall>, p: nat): Event
    requires p < |calls|
  {
    Turn(cfg, calls[p], p + 1, SerialWorld(cfg, calls, p)).1
  }

  function SerialReply(cfg: Config, calls: seq<ToolCall>, p: nat): Option<Reply>
    requires p < |calls|
  {
    if p < cfg.maxTools then Some(Turn(cfg, calls[p], p + 1, SerialWorld(cfg, calls, p)).2) else None
  }

  function SerialTrace(cfg: Config, calls: seq<ToolCall>, m: nat): seq<Event>
    requires m <= |calls|
  {
    if m == 0 then []
    else SerialTrace(cfg, calls, m - 1) + (if m <= cfg.maxTools then [SerialEvent(cfg, calls, m - 1)] else [])
  }

  // ---------------------------------------------------------------------------
  // The concurrent machine
  // ---------------------------------------------------------------------------

  datatype Phase =
    | Waiting(waits: set<nat>)
    | Running(before: Option<string>, scratch: Scratch, pc: nat)
    | Ended(reply: Option<Reply>)

  datatype State = State(
    calls: seq<ToolCall>,
    phases: seq<Phase>,
    world: World,
    alone: Option<nat>,
    beside: set<nat>,
    log: Log)

  datatype Action =
    | Start(call: ToolCall)
    | Enter(pos: nat)
    | Stretch(pos: nat)
    | Finish(pos: nat)

  function Initial(cfg: Config): State {
    State([], [], cfg.start, None, {}, EMPTY)
  }

  predicate IsEnded(s: State, p: nat) {
    p < |s.phases| && s.phases[p].Ended?
  }

  /** The `waits` a call collects as it takes its place. */
  function Waits(cfg: Config, s: State, c: ToolCall): set<nat> {
    (if s.alone.Some? then {s.alone.value} else {}) + (if Exclusive(cfg, c) then s.beside else {})
  }

  ghost predicate Enabled(cfg: Config, s: State, a: Action) {
    match a
    case Start(_) => |s.phases| == |s.calls|
    case Enter(p) =>
      && p < |s.phases| == |s.calls|
      && s.phases[p].Waiting?
      && forall q <- s.phases[p].waits :: IsEnded(s, q)
    case Stretch(p) =>
      && p < |s.phases| == |s.calls|
      && s.phases[p].Running? && s.phases[p].pc < cfg.steps(s.calls[p])
    case Finish(p) =>
      && p < |s.phases| == |s.calls|
      && s.phases[p].Running? && s.phases[p].pc == cfg.steps(s.calls[p])
  }

  /** `observed`, the return, then the `finally`: the event is logged, `done` is set
      and the end is logged, with no await in between. */
  function Close(s: State, p: nat, world: World, event: Event, r: Reply): State
    requires p < |s.phases|
  {
    s.(phases := s.phases[p := Ended(Some(r))], world := world,
       log := TraceLog.Ended(Observed(s.log, event), p + 1))
  }

  function DoStart(cfg: Config, s: State, c: ToolCall): State {
    var p := |s.calls|;
    var over := p >= cfg.maxTools;
    s.(calls := s.calls + [c],
       phases := s.phases + [if over then Ended(None) else Waiting(Waits(cfg, s, c))],
       alone := if Exclusive(cfg, c) then Some(p) else s.alone,
       beside := if Exclusive(cfg, c) then {} else (set q | q in s.beside && !IsEnded(s, q)) + {p},
       log := if over then TraceLog.Ended(s.log, p + 1) else s.log)
  }

  function DoEnter(cfg: Config, s: State, p: nat): State
    requires p < |s.phases| == |s.calls|
  {
    var c, active := s.calls[p], s.world.active;
    if Immediate(cfg, c, active) then
      var (after, r) := ImmediateResult(cfg, c, active);
      Close(s, p, World(after, s.world.host), MakeEvent(c, p + 1, active, after, r), r)
    else s.(phases := s.phases[p := Running(active, BLANK, 0)])
  }

  function DoStretch(cfg: Config, s: State, p: nat): State
    requires p < |s.phases| == |s.calls| && s.phases[p].Running?
  {
    var Running(before, scratch, pc) := s.phases[p];
    var (scratch', host') := cfg.body(s.calls[p], before, pc, scratch, s.world.host);
    s.(phases := s.phases[p := Running(before, scratch', pc + 1)], world := World(s.world.active, host'))
  }

  function DoFinish(cfg: Config, s: State, p: nat): State
    requires p < |s.phases| == |s.calls| && s.phases[p].Running?
  {
    var Running(before, scratch, _) := s.phases[p];
    Close(s, p, s.world, MakeEvent(s.calls[p], p + 1, before, s.world.active, scratch.reply), scratch.reply)
  }

  ghost function Apply(cfg: Config, s: State, a: Action): State
    requires Enabled(cfg, s, a)
  {
    match a
    case Start(c) => DoStart(cfg, s, c)
    case Enter(p) => DoEnter(cfg, s, p)
    case Stretch(p) => DoStretch(cfg, s, p)
    case Finish(p) => DoFinish(cfg, s, p)
  }

  /** `run` is an interleaving the event loop may choose from `s`. */
  ghost predicate Legal(cfg: Config, s: State, run: seq<Action>)
    decreases |run|
  {
    run == [] || (Enabled(cfg, s, run[0]) && Legal(cfg, Apply(cfg, s, run[0]), run[1..]))
  }

  ghost function After(cfg: Config, s: State, run: seq<Action>): State
    requires Legal(cfg, s, run)
    decreases |run|
  {
    if run == [] then s else After(cfg, Apply(cfg, s, run[0]), run[1..])
  }

  // ---------------------------------------------------------------------------
  // Invariant
  // ---------------------------------------------------------------------------

  predicate Begun(cfg: Config, s: State, p: nat) {
    p < cfg.maxTools && p < |s.phases| && !s.phases[p].Waiting?
  }

  predicate Conflict(cfg: Config, s: State, q: nat, p: nat)
    requires q < |s.calls| && p < |s.calls|
  {
    Exclusive(cfg, s.calls[q]) || Exclusive(cfg, s.calls[p])
  }

  /** Each call has a phase; a call over the budget ended as it started. */
  ghost predicate Shape(cfg: Config, s: State) {
    && |s.phases| == |s.calls|
    && forall p {:trigger s.phases[p]} :: cfg.maxTools <= p < |s.phases| ==> s.phases[p] == Ended(None)
  }

  ghost predicate Covered(cfg: Config, s: State, waits: set<nat>, q: nat)
    requires q < |s.calls|
  {
    || IsEnded(s, q)
    || q in waits
    || exists e :: e in waits && q < e < |s.calls| && Exclusive(cfg, s.calls[e])
  }

  /** A waiting call waits for enough: each conflicting call before it has ended, is
      waited for, or stands before a call that runs alone and is waited for. */
  ghost predicate Guarded(cfg: Config, s: State)
    requires Shape(cfg, s)
  {
    forall p {:trigger s.phases[p]} :: 0 <= p < |s.phases| && s.phases[p].Waiting? ==>
      && (forall e :: e in s.phases[p].waits ==> e < p)
      && (forall q :: 0 <= q < p && Conflict(cfg, s, q, p) ==> Covered(cfg, s, s.phases[p].waits, q))
  }

  /** The barrier: a body starts only after every conflicting call before it ended. */
  ghost predicate Barrier(cfg: Config, s: State)
    requires Shape(cfg, s)
  {
    forall q: nat, p: nat {:trigger IsEnded(s, q), Begun(cfg, s, p)} ::
      q < p < |s.calls| && Begun(cfg, s, p) && Conflict(cfg, s, q, p) ==> IsEnded(s, q)
  }

  ghost predicate Frontier(cfg: Config, s: State)
    requires Shape(cfg, s)
  {
    && (s.alone.Some? ==> s.alone.value < |s.calls| && Exclusive(cfg, s.calls[s.alone.value]))
    && (forall q: nat {:trigger s.calls[q]} :: q < |s.calls| && Exclusive(cfg, s.calls[q]) ==>
          s.alone.Some? && q <= s.alone.value)
    && (forall q: nat {:trigger s.calls[q]} :: q < |s.calls| && (s.alone.Some? ==> s.alone.value < q) ==>
          q in s.beside || IsEnded(s, q))
    && (forall q :: q in s.beside ==> q < |s.calls|)
  }

  /** How far a running call has come in its own serial turn. */
  ghost predicate OnTrack(cfg: Config, s: State, p: nat)
    requires Shape(cfg, s) && p < |s.phases| && s.phases[p].Running?
  {
    var Running(before, scratch, pc) := s.phases[p];
    var w := SerialWorld(cfg, s.calls, p);
    var (scratch', host') := Stretches(cfg, s.calls[p], w.active, pc, w.host);
    && before == w.active && scratch == scratch' && pc <= cfg.steps(s.calls[p])
    && !Immediate(cfg, s.calls[p], w.active)
    && (Exclusive(cfg, s.calls[p]) ==> s.world == World(w.active, host'))
  }

  ghost predicate AllOnTrack(cfg: Config, s: State)
    requires Shape(cfg, s)
  {
    forall p {:trigger s.phases[p]} :: 0 <= p < |s.phases| && s.phases[p].Running? ==> OnTrack(cfg, s, p)
  }

  /** Every call that runs alone before `j` has ended and none from `j` on has begun. */
  ghost predicate Quiet(cfg: Config, s: State, j: nat)
    requires Shape(cfg, s)
  {
    && (forall q: nat {:trigger s.calls[q]} :: q < j && q < |s.calls| && Exclusive(cfg, s.calls[q]) ==> IsEnded(s, q))
    && (forall q: nat {:trigger s.calls[q]} :: j <= q < |s.calls| && Exclusive(cfg, s.calls[q]) ==> !Begun(cfg, s, q))
  }

  ghost predicate WorldAgrees(cfg: Config, s: State)
    requires Shape(cfg, s)
  {
    forall j: nat {:trigger SerialWorld(cfg, s.calls, j)} ::
      j <= |s.calls| && j <= cfg.maxTools && Quiet(cfg, s, j) ==> s.world == SerialWorld(cfg, s.calls, j)
  }

  predicate Shut(s: State, index: nat) {
    index > 0 && IsEnded(s, index - 1)
  }

  /** What the log should hold: the serial event of each call that has ended. */
  ghost function Expected(cfg: Config, s: State): Ledger
    requires Shape(cfg, s)
  {
    map k: nat | k <= |s.calls| && Shut(s, k) ::
      if k <= cfg.maxTools then Some(SerialEvent(cfg, s.calls, k - 1)) else None
  }

  ghost predicate RepliesAgree(cfg: Config, s: State)
    requires Shape(cfg, s)
  {
    forall p {:trigger s.phases[p]} :: 0 <= p < |s.phases| && s.phases[p].Ended? ==>
      s.phases[p].reply == SerialReply(cfg, s.calls, p)
  }

  ghost predicate Inv(cfg: Config, s: State) {
    && Shape(cfg, s)
    && Guarded(cfg, s)
    && Barrier(cfg, s)
    && Frontier(cfg, s)
    && AllOnTrack(cfg, s)
    && WorldAgrees(cfg, s)
    && Mirrors(s.log, Expected(cfg, s))
    && RepliesAgree(cfg, s)
  }
}
