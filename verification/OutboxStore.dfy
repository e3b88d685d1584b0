/** One dispatch pass as it runs, other passes free to run in every gap between its
    transactions (asas_notifications/service.py, `dispatch_pending`). */
module OutboxStore {
  import opened Wrappers
  import opened Outbox
  import OutboxProofs
  import opened OutboxStatus

  /** The lowest ids of pending rows with attempts left, at most `limit` of them, in order. */
  ghost predicate IsPick(rows: Rows, limit: nat, picked: seq<nat>) {
    && |picked| <= limit
    && (forall i, j :: 0 <= i < j < |picked| ==> picked[i] < picked[j])
    && (forall id :: id in picked ==> id in rows && rows[id].status == Pending && rows[id].attempts < 5)
    && (forall id :: id in rows && rows[id].status == Pending && rows[id].attempts < 5 && id !in picked ==>
          |picked| == limit && forall k :: k in picked ==> k < id)
  }

  /** The rows with every claim put back that is more than five minutes old. */
  ghost predicate PutsBack(rows: Rows, rows': Rows, now: int) {
    && rows'.Keys == rows.Keys
    && forall id :: id in rows ==>
         var d := rows[id];
         rows'[id] == (if d.status == Sending && d.claimedAt.Some? && d.claimedAt.value + 300 < now
                       then d.(status := Pending, claimedAt := None) else d)
  }

  /** One row of a pass: the claim, and if it wins the send and its mark; and how many
      gaps that took. */
  function DispatchRow(
    others: (nat, Rows) -> Rows, rows: Rows, clock: nat, r: Scan, adapter: Scan -> SendResult, time: nat -> int)
    : (Rows, nat, bool)
  {
    var seen := others(clock, rows);
    if !IsPending(seen, r.id) then (seen, clock + 1, false)
    else
      var sending := others(clock + 1, Claimed(seen, r.id, time(clock)));
      (Finished(sending, r, adapter(r), time(clock + 1)), clock + 2, true)
  }

  /** The same in columns: a row that is not pending is left to the pass that has it; one
      that is gets claimed, sent, and marked by what became of the send. */
  predicate HandlesRow(
    others: (nat, Rows) -> Rows, rows: Rows, clock: nat, r: Scan, adapter: Scan -> SendResult, time: nat -> int,
    rows': Rows, ok: bool)
  {
    var seen := others(clock, rows);
    && (ok <==> r.id in seen && seen[r.id].status == Pending)
    && (if !ok then rows' == seen
        else
          var claimed := seen[r.id := seen[r.id].(status := Sending, claimedAt := Some(time(clock)))];
          var sent := others(clock + 1, claimed);
          && rows'.Keys == sent.Keys
          && (forall id :: id in sent && id != r.id ==> rows'[id] == sent[id])
          && (r.id in sent ==> MarkedAs(sent[r.id], rows'[r.id], r.attempts, adapter(r), time(clock + 1))))
  }

  function DispatchAll(
    others: (nat, Rows) -> Rows, rows: Rows, clock: nat, todo: seq<Scan>, adapter: Scan -> SendResult, time: nat -> int)
    : (Rows, nat, nat)
    decreases |todo|
  {
    if todo == [] then (rows, clock, 0)
    else
      var (rows', clock', won) := DispatchRow(others, rows, clock, todo[0], adapter, time);
      var (rows'', clock'', handled) := DispatchAll(others, rows', clock', todo[1..], adapter, time);
      (rows'', clock'', handled + if won then 1 else 0)
  }

  /** The rows of `todo` one after the other, each as `HandlesRow` says; `handled` counts
      those that were claimed. */
  ghost predicate HandlesAll(
    others: (nat, Rows) -> Rows, rows: Rows, clock: nat, todo: seq<Scan>, adapter: Scan -> SendResult,
    time: nat -> int, rows': Rows, handled: nat)
    decreases |todo|
  {
    if todo == [] then rows' == rows && handled == 0
    else
      exists mid, ok {:trigger HandlesRow(others, rows, clock, todo[0], adapter, time, mid, ok)} ::
        && HandlesRow(others, rows, clock, todo[0], adapter, time, mid, ok)
        && (ok ==> handled > 0)
        && HandlesAll(others, mid, clock + (if ok then 2 else 1), todo[1..], adapter, time, rows',
                      if ok then handled - 1 else handled)
  }

  lemma RowIsHandled(
    others: (nat, Rows) -> Rows, rows: Rows, clock: nat, r: Scan, adapter: Scan -> SendResult, time: nat -> int)
    ensures var (rows', _, ok) := DispatchRow(others, rows, clock, r, adapter, time);
            HandlesRow(others, rows, clock, r, adapter, time, rows', ok)
  {
  }

  lemma {:induction false} AllAreHandled(
    others: (nat, Rows) -> Rows, rows: Rows, clock: nat, todo: seq<Scan>, adapter: Scan -> SendResult,
    time: nat -> int)
    ensures var (rows', _, handled) := DispatchAll(others, rows, clock, todo, adapter, time);
            HandlesAll(others, rows, clock, todo, adapter, time, rows', handled)
    decreases |todo|
  {
    if todo != [] {
      RowIsHandled(others, rows, clock, todo[0], adapter, time);
      var (mid, next, ok) := DispatchRow(others, rows, clock, todo[0], adapter, time);
      AllAreHandled(others, mid, next, todo[1..], adapter, time);
    }
  }

  lemma FirstRow(
    others: (nat, Rows) -> Rows, rows: Rows, clock: nat, todo: seq<Scan>, adapter: Scan -> SendResult, time: nat -> int)
    requires todo != []
    ensures var (rows', clock', won) := DispatchRow(others, rows, clock, todo[0], adapter, time);
            var (rows'', clock'', handled) := DispatchAll(others, rows', clock', todo[1..], adapter, time);
            DispatchAll(others, rows, clock, todo, adapter, time) == (rows'', clock'', handled + if won then 1 else 0)
  {
  }

  // ---------------------------------------------------------------------------
  // A pass is part of a run
  // ---------------------------------------------------------------------------

  /** What a pass meets on its way: what others make of the rows in its `n`th gap, the
      time after that, and what becomes of its sends. */
  datatype Weather = Weather(others: (nat, Rows) -> Rows, time: nat -> int, adapter: Scan -> SendResult)

  /** In the gap others take the steps `gap` and leave pass `p` to its own. */
  ghost predicate IsGap(w: Weather, s: State, clock: nat, p: nat, gap: seq<Action>) {
    && Legal(s, gap) && p in s.passes
    && var t := After(s, gap);
       && p in t.passes && t.passes[p] == s.passes[p]
       && w.others(clock, s.rows) == t.rows && w.time(clock) == t.now
  }

  ghost function SendAndFinish(w: Weather, s: State, p: nat): State
    requires p in s.passes && s.passes[p].InSend?
  {
    Apply(Apply(s, Send(p, w.adapter(s.passes[p].row))), Finish(p))
  }

  /** The weather is that of a run, gap by gap. */
  ghost predicate IsWeatherOf(w: Weather, s: State, clock: nat, p: nat, gaps: seq<seq<Action>>)
    decreases |gaps|
  {
    && p in s.passes && s.passes[p].Between?
    && (s.passes[p].todo == [] ||
        (&& gaps != [] && IsGap(w, s, clock, p, gaps[0])
         && var c := Apply(After(s, gaps[0]), Claim(p));
            if c.passes[p].Between? then IsWeatherOf(w, c, clock + 1, p, gaps[1..])
            else
              && |gaps| > 1 && IsGap(w, c, clock + 1, p, gaps[1])
              && IsWeatherOf(w, SendAndFinish(w, After(c, gaps[1]), p), clock + 2, p, gaps[2..])))
  }

  lemma Then(s: State, run: seq<Action>, a: Action) returns (longer: seq<Action>)
    requires Legal(s, run) && Enabled(After(s, run), a)
    ensures Legal(s, longer) && After(s, longer) == Apply(After(s, run), a)
  {
    assert [a][1..] == [];
    OutboxProofs.Concat(s, run, [a]);
    longer := run + [a];
  }

  /** The rows of a pass, among the steps of others, are part of a run: what holds of
      every run holds of them. */
  lemma {:induction false} RowsAreARun(w: Weather, s: State, clock: nat, p: nat, gaps: seq<seq<Action>>)
    returns (run: seq<Action>)
    requires IsWeatherOf(w, s, clock, p, gaps)
    ensures Legal(s, run) && p in After(s, run).passes && After(s, run).passes[p] == Between([])
    ensures After(s, run).rows == DispatchAll(w.others, s.rows, clock, s.passes[p].todo, w.adapter, w.time).0
    decreases |gaps|
  {
    run := [];
    if s.passes[p].todo != [] {
      var t := After(s, gaps[0]);
      var c := Apply(t, Claim(p));
      run := Then(s, gaps[0], Claim(p));
      var rest;
      if c.passes[p].Between? {
        rest := RowsAreARun(w, c, clock + 1, p, gaps[1..]);
      } else {
        OutboxProofs.Concat(s, run, gaps[1]);
        run := Then(s, run + gaps[1], Send(p, w.adapter(s.passes[p].todo[0])));
        run := Then(s, run, Finish(p));
        rest := RowsAreARun(w, SendAndFinish(w, After(c, gaps[1]), p), clock + 2, p, gaps[2..]);
      }
      OutboxProofs.Concat(s, run, rest);
      run := run + rest;
    }
  }

  /** And so is the whole pass, from the transaction that opens it. */
  lemma PassIsARun(w: Weather, s: State, clock: nat, p: nat, picked: seq<nat>, gaps: seq<seq<Action>>)
    returns (run: seq<Action>)
    requires Enabled(s, Open(p, picked)) && w.time(clock) == s.now
    requires IsWeatherOf(w, Apply(s, Open(p, picked)), clock + 1, p, gaps)
    ensures Legal(s, run) && p in After(s, run).passes && After(s, run).passes[p] == Between([])
    ensures var scanned := Reclaimed(s.rows, w.time(clock));
            After(s, run).rows
              == DispatchAll(w.others, scanned, clock + 1, Scans(scanned, picked), w.adapter, w.time).0
  {
    var open := Then(s, [], Open(p, picked));
    var rest := RowsAreARun(w, Apply(s, Open(p, picked)), clock + 1, p, gaps);
    OutboxProofs.Concat(s, open, rest);
    run := open + rest;
  }

  class Store {
    var rows: Rows
    var clock: nat
    const others: (nat, Rows) -> Rows
    const time: nat -> int

    constructor (rows: Rows, others: (nat, Rows) -> Rows, time: nat -> int)
      ensures this.rows == rows && this.others == others && this.time == time && clock == 0
    {
      this.rows, this.others, this.time, clock := rows, others, time, 0;
    }

    method Gap()
      modifies this
      ensures clock == old(clock) + 1 && rows == others(old(clock), old(rows))
    {
      rows := others(clock, rows);
      clock := clock + 1;
    }

    method LowestSelectable(skip: seq<nat>) returns (r: Option<nat>)
      ensures r.Some? ==> Selectable(rows, r.value) && r.value !in skip
      ensures r.Some? ==> forall id :: Selectable(rows, id) && id !in skip ==> r.value <= id
      ensures r.None? ==> forall id :: Selectable(rows, id) ==> id in skip
    {
      r := None;
      var left := rows.Keys;
      while left != {}
        invariant left <= rows.Keys
        invariant r.Some? ==> Selectable(rows, r.value) && r.value !in skip
        invariant forall id :: Selectable(rows, id) && id !in skip && id !in left ==> r.Some? && r.value <= id
        decreases left
      {
        var id :| id in left;
        left := left - {id};
        if Selectable(rows, id) && id !in skip && (r.None? || id < r.value) {
          r := Some(id);
        }
      }
    }

    /** `_open_pass`: stale claims go back to pending, then up to `limit` rows are read. */
    method OpenPass(limit: nat) returns (todo: seq<Scan>, ghost picked: seq<nat>)
      modifies this`rows
      ensures rows == Reclaimed(old(rows), time(clock)) && PutsBack(old(rows), rows, time(clock))
      ensures IsPick(rows, limit, picked) && todo == Scans(rows, picked)
    {
      rows := Reclaimed(rows, time(clock));
      todo := [];
      var ids: seq<nat> := [];
      while |ids| < limit
        invariant rows == Reclaimed(old(rows), time(clock)) && |ids| <= limit && |todo| == |ids|
        invariant forall i, j :: 0 <= i < j < |ids| ==> ids[i] < ids[j]
        invariant forall id :: id in ids ==> Selectable(rows, id)
        invariant forall id, k :: Selectable(rows, id) && id !in ids && k in ids ==> k < id
        invariant forall i :: 0 <= i < |ids| ==> ids[i] in rows && todo[i] == Scan(ids[i], rows[ids[i]].attempts)
        decreases limit - |ids|
      {
        var next := LowestSelectable(ids);
        if next.None? {
          break;
        }
        forall k | 0 <= k < |ids| ensures ids[k] < next.value {
          assert ids[k] in ids;
        }
        ids := ids + [next.value];
        todo := todo + [Scan(next.value, rows[next.value].attempts)];
      }
      picked := ids;
    }

    /** `_claim`: true exactly when this pass took the row from pending. */
    method Claim(id: nat) returns (ok: bool)
      modifies this`rows
      ensures ok <==> id in old(rows) && old(rows)[id].status == Pending
      ensures rows == if !ok then old(rows)
                      else old(rows)[id := old(rows)[id].(status := Sending, claimedAt := Some(time(clock)))]
      ensures ok == IsPending(old(rows), id) && rows == Claimed(old(rows), id, time(clock))
    {
      ok := id in rows && rows[id].status == Pending;
      if ok {
        rows := rows[id := rows[id].(status := Sending, claimedAt := Some(time(clock)))];
      }
    }

    /** `_finish(id, **_outcome(r, exc))`: whatever the row holds. */
    method Finish(r: Scan, outcome: SendResult)
      modifies this`rows
      ensures rows == Finished(old(rows), r, outcome, time(clock))
      ensures r.id !in old(rows) ==> rows == old(rows)
      ensures r.id in old(rows) ==>
                && r.id in rows && rows == old(rows)[r.id := rows[r.id]]
                && MarkedAs(old(rows)[r.id], rows[r.id], r.attempts, outcome, time(clock))
    {
      if r.id in rows {
        var d := rows[r.id].(claimedAt := None);
        match outcome {
          case NoAdapter =>
            d := d.(status := Skipped, lastError := Some("no adapter registered for channel"));
          case Delivered =>
            d := d.(status := Sent, attempts := r.attempts + 1, sentAt := Some(time(clock)), lastError := None);
          case SkipDelivery(reason) =>
            d := d.(status := Skipped, lastError := OrNone(reason));
          case SendError(error) =>
            var attempts := r.attempts + 1;
            d := d.(status := if attempts >= MAX_ATTEMPTS then Failed else Pending, attempts := attempts,
                    lastError := Some(Clip(error)));
        }
        rows := rows[r.id := d];
      }
    }

    method Dispatch(r: Scan, adapter: Scan -> SendResult) returns (ok: bool)
      modifies this
      ensures (rows, clock, ok) == DispatchRow(others, old(rows), old(clock), r, adapter, time)
      ensures HandlesRow(others, old(rows), old(clock), r, adapter, time, rows, ok)
    {
      RowIsHandled(others, rows, clock, r, adapter, time);
      rows := others(clock, rows);
      ok := Claim(r.id);
      clock := clock + 1;
      if ok {
        var outcome := adapter(r);
        rows := others(clock, rows);
        Finish(r, outcome);
        clock := clock + 1;
      }
    }

    /** The pass over the rows it read: each claimed before its send and marked after, a
        row another pass owns skipped, and the number it handled returned. */
    method DispatchEach(todo: seq<Scan>, adapter: Scan -> SendResult) returns (handled: nat)
      modifies this
      ensures (rows, clock, handled) == DispatchAll(others, old(rows), old(clock), todo, adapter, time)
    {
      handled := 0;
      for i := 0 to |todo|
        invariant var whole := DispatchAll(others, old(rows), old(clock), todo, adapter, time);
                  var rest := DispatchAll(others, rows, clock, todo[i..], adapter, time);
                  whole == (rest.0, rest.1, handled + rest.2)
      {
        FirstRow(others, rows, clock, todo[i..], adapter, time);
        assert todo[i..][1..] == todo[i + 1..];
        var ok := Dispatch(todo[i], adapter);
        if ok {
          handled := handled + 1;
        }
      }
    }

    /** `dispatch_pending`: one transaction to open the pass, then its rows. */
    method DispatchPending(limit: nat, adapter: Scan -> SendResult) returns (handled: nat, ghost picked: seq<nat>)
      modifies this
      ensures var scanned := Reclaimed(old(rows), time(old(clock)));
              && IsPick(scanned, limit, picked)
              && (rows, clock, handled)
                   == DispatchAll(others, scanned, old(clock) + 1, Scans(scanned, picked), adapter, time)
      ensures exists scanned {:trigger PutsBack(old(rows), scanned, time(old(clock)))} ::
                && PutsBack(old(rows), scanned, time(old(clock))) && IsPick(scanned, limit, picked)
                && HandlesAll(others, scanned, old(clock) + 1, Scans(scanned, picked), adapter, time, rows, handled)
    {
      var todo;
      todo, picked := OpenPass(limit);
      assert PutsBack(old(rows), rows, time(old(clock)));
      AllAreHandled(others, rows, clock + 1, todo, adapter, time);
      clock := clock + 1;
      handled := DispatchEach(todo, adapter);
    }
  }
}
