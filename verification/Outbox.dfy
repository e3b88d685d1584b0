/** The notification outbox and its dispatch passes (asas_notifications/service.py,
    dispatcher section). A claim is a compare-and-set, a finish is an unconditional
    update by id, and the send happens outside any transaction. */
module Outbox {
  import opened Wrappers

  datatype Status = Pending | Sending | Sent | Failed | Skipped

  /** A `notification_delivery` row, without what the adapter is handed. */
  datatype Delivery = Delivery(
    status: Status, attempts: nat, claimedAt: Option<int>, sentAt: Option<int>, lastError: Option<string>)

  const MAX_ATTEMPTS := 5
  const STALE_CLAIM_SECONDS := 300
  const ERROR_LENGTH := 500
  const NEW_DELIVERY := Delivery(Pending, 0, None, None, None)

  type Rows = map<nat, Delivery>

  /** What a pass read of one row; the attempts are as of that read. */
  datatype Scan = Scan(id: nat, attempts: nat)

  /** What became of one send. */
  datatype SendResult = NoAdapter | Delivered | SkipDelivery(reason: string) | SendError(error: string)

  predicate IsStale(d: Delivery, now: int) {
    d.status == Sending && d.claimedAt.Some? && d.claimedAt.value < now - STALE_CLAIM_SECONDS
  }

  function Reclaimed(rows: Rows, now: int): Rows {
    map id | id in rows :: if IsStale(rows[id], now) then rows[id].(status := Pending, claimedAt := None) else rows[id]
  }

  predicate Selectable(rows: Rows, id: nat) {
    id in rows && rows[id].status == Pending && rows[id].attempts < MAX_ATTEMPTS
  }

  predicate IsPending(rows: Rows, id: nat) {
    id in rows && rows[id].status == Pending
  }

  /** The compare-and-set from pending to sending. */
  function Claimed(rows: Rows, id: nat, now: int): Rows {
    if IsPending(rows, id) then rows[id := rows[id].(status := Sending, claimedAt := Some(now))] else rows
  }

  /** The outcome counts as an attempt. */
  predicate Counts(o: SendResult) {
    o.Delivered? || o.SendError?
  }

  function Clip(error: string): string {
    if |error| <= ERROR_LENGTH then error else error[..ERROR_LENGTH]
  }

  function OrNone(text: string): Option<string> {
    if text == "" then None else Some(text)
  }

  /** `_finish(id, **_outcome(r, exc))`: whatever the row holds, from the attempts the
      pass read when it opened. */
  function Finished(rows: Rows, r: Scan, o: SendResult, now: int): Rows {
    if r.id !in rows then rows
    else
      var d := rows[r.id].(claimedAt := None);
      rows[r.id :=
        match o
        case NoAdapter => d.(status := Skipped, lastError := Some("no adapter registered for channel"))
        case Delivered => d.(status := Sent, attempts := r.attempts + 1, sentAt := Some(now), lastError := None)
        case SkipDelivery(reason) => d.(status := Skipped, lastError := OrNone(reason))
        case SendError(error) =>
          d.(status := if r.attempts + 1 >= MAX_ATTEMPTS then Failed else Pending,
             attempts := r.attempts + 1, lastError := Some(Clip(error)))]
  }

  // ---------------------------------------------------------------------------
  // Concurrent passes
  // ---------------------------------------------------------------------------

  /** A live pass: between rows, in a send it claimed the row for at `since`, or with
      the outcome of that send in hand and not yet written. */
  datatype Pass =
    | Between(todo: seq<Scan>)
    | InSend(row: Scan, since: int, todo: seq<Scan>)
    | InHand(row: Scan, since: int, outcome: SendResult, todo: seq<Scan>)

  /** The history of one delivery. `sends` counts the sends an adapter reported as
      delivered, `crashes` those whose pass died with the outcome unwritten. `made`
      counts, at the send, every send that counts as an attempt; `tries` those whose
      outcome was written, `lost` those whose pass died before. `drift` sums, over the
      written ones, how far the row's count was ahead of the one the pass had read. */
  datatype Tally = Tally(sends: nat, crashes: nat, made: nat, tries: nat, lost: nat, drift: int)

  const NO_TALLY := Tally(0, 0, 0, 0, 0, 0)

  datatype State = State(now: int, rows: Rows, passes: map<nat, Pass>, tallies: map<nat, Tally>)

  datatype Action =
    | Advance(seconds: nat)
    | Emit(id: nat)
    | Open(p: nat, picked: seq<nat>)
    | Claim(p: nat)
    | Send(p: nat, outcome: SendResult)
    | Finish(p: nat)
    | Crash(p: nat)

  const INITIAL := State(0, map[], map[], map[])

  function TallyOf(s: State, id: nat): Tally {
    if id in s.tallies then s.tallies[id] else NO_TALLY
  }

  predicate Holds(pass: Pass) {
    pass.InSend? || pass.InHand?
  }

  /** How far the row's count is ahead of the one that was read. */
  function Ahead(rows: Rows, r: Scan): int {
    if r.id in rows then rows[r.id].attempts - r.attempts else 0
  }

  function Attempted(t: Tally, o: SendResult): Tally {
    t.(sends := t.sends + if o.Delivered? then 1 else 0, made := t.made + if Counts(o) then 1 else 0)
  }

  function Recorded(t: Tally, o: SendResult, ahead: int): Tally {
    if Counts(o) then t.(tries := t.tries + 1, drift := t.drift + ahead) else t
  }

  function Dropped(t: Tally, o: SendResult): Tally {
    t.(crashes := t.crashes + if o.Delivered? then 1 else 0, lost := t.lost + if Counts(o) then 1 else 0)
  }

  ghost predicate Enabled(s: State, a: Action) {
    match a
    case Advance(_) => true
    case Emit(id) => id !in s.rows
    case Open(p, picked) => p !in s.passes && forall id :: id in picked ==> Selectable(Reclaimed(s.rows, s.now), id)
    case Claim(p) => p in s.passes && s.passes[p].Between? && s.passes[p].todo != []
    case Send(p, _) => p in s.passes && s.passes[p].InSend?
    case Finish(p) => p in s.passes && s.passes[p].InHand?
    case Crash(p) => p in s.passes
  }

  function Scans(rows: Rows, picked: seq<nat>): (scans: seq<Scan>)
    requires forall id :: id in picked ==> id in rows
    ensures |scans| == |picked| && forall i :: 0 <= i < |picked| ==>
              scans[i] == Scan(picked[i], rows[picked[i]].attempts)
  {
    seq(|picked|, i requires 0 <= i < |picked| && picked[i] in picked => Scan(picked[i], rows[picked[i]].attempts))
  }

  ghost function Apply(s: State, a: Action): State
    requires Enabled(s, a)
  {
    match a
    case Advance(seconds) => s.(now := s.now + seconds)
    case Emit(id) => s.(rows := s.rows[id := NEW_DELIVERY])
    case Open(p, picked) =>
      var rows := Reclaimed(s.rows, s.now);
      s.(rows := rows, passes := s.passes[p := Between(Scans(rows, picked))])
    case Claim(p) =>
      var todo := s.passes[p].todo;
      if IsPending(s.rows, todo[0].id) then
        s.(rows := Claimed(s.rows, todo[0].id, s.now), passes := s.passes[p := InSend(todo[0], s.now, todo[1..])])
      else s.(passes := s.passes[p := Between(todo[1..])])
    case Send(p, outcome) =>
      var InSend(row, since, todo) := s.passes[p];
      s.(passes := s.passes[p := InHand(row, since, outcome, todo)],
         tallies := s.tallies[row.id := Attempted(TallyOf(s, row.id), outcome)])
    case Finish(p) =>
      var InHand(row, _, outcome, todo) := s.passes[p];
      s.(rows := Finished(s.rows, row, outcome, s.now), passes := s.passes[p := Between(todo)],
         tallies := s.tallies[row.id := Recorded(TallyOf(s, row.id), outcome, Ahead(s.rows, row))])
    case Crash(p) =>
      var pass := s.passes[p];
      s.(passes := s.passes - {p},
         tallies := if !pass.InHand? then s.tallies
                    else s.tallies[pass.row.id := Dropped(TallyOf(s, pass.row.id), pass.outcome)])
  }

  ghost predicate Legal(s: State, run: seq<Action>)
    decreases |run|
  {
    run == [] || (Enabled(s, run[0]) && Legal(Apply(s, run[0]), run[1..]))
  }

  ghost function After(s: State, run: seq<Action>): State
    requires Legal(s, run)
    decreases |run|
  {
    if run == [] then s else After(Apply(s, run[0]), run[1..])
  }

  /** No live pass has held its claim for more than `seconds`. */
  ghost predicate HoldsAtMost(s: State, seconds: int) {
    forall p :: p in s.passes && Holds(s.passes[p]) ==> s.now <= s.passes[p].since + seconds
  }

  /** Every send and its mark finish within `seconds` of the claim. */
  ghost predicate Within(s: State, run: seq<Action>, seconds: int)
    requires Legal(s, run)
    decreases |run|
  {
    HoldsAtMost(s, seconds) && (run == [] || Within(Apply(s, run[0]), run[1..], seconds))
  }

  ghost predicate OnTime(s: State) {
    HoldsAtMost(s, STALE_CLAIM_SECONDS)
  }

  /** The stated assumption: they finish before a claim becomes stale. */
  ghost predicate Timely(s: State, run: seq<Action>)
    requires Legal(s, run)
  {
    Within(s, run, STALE_CLAIM_SECONDS)
  }
}
