/** What a delivery's status means, in every run, on time or not (asas_notifications/
    service.py, `_outcome`, `_finish` and the reclaim of `_open_pass`). */
module OutboxStatus {
  import opened Wrappers
  import opened Outbox
  import opened OutboxProofs
  import opened OutboxAttempts

  // ---------------------------------------------------------------------------
  // One mark
  // ---------------------------------------------------------------------------

  /** The row as a finishing pass leaves it, from the count `n` it read when it opened. */
  predicate MarkedAs(d: Delivery, d': Delivery, n: nat, o: SendResult, now: int) {
    && d'.claimedAt.None?
    && (match o
        case Delivered =>
          d'.status == Sent && d'.attempts == n + 1 && d'.sentAt == Some(now) && d'.lastError.None?
        case SendError(error) =>
          && d'.attempts == n + 1 && d'.sentAt == d.sentAt
          && d'.lastError == Some(if |error| <= 500 then error else error[..500])
          && (n + 1 < 5 <==> d'.status == Pending) && (n + 1 >= 5 <==> d'.status == Failed)
        case SkipDelivery(reason) =>
          && d'.status == Skipped && d'.attempts == d.attempts && d'.sentAt == d.sentAt
          && d'.lastError == if reason == "" then None else Some(reason)
        case NoAdapter =>
          && d'.status == Skipped && d'.attempts == d.attempts && d'.sentAt == d.sentAt
          && d'.lastError == Some("no adapter registered for channel"))
  }

  /** A finishing pass marks its row by what became of the send and touches no other; a
      failed send leaves it for the next pass to read exactly if that was not the fifth. */
  lemma FinishMarks(s: State, p: nat)
    requires Enabled(s, Finish(p)) && s.passes[p].row.id in s.rows
    ensures var InHand(r, _, o, _), s' := s.passes[p], Apply(s, Finish(p));
            && r.id in s'.rows && s'.rows == s.rows[r.id := s'.rows[r.id]]
            && MarkedAs(s.rows[r.id], s'.rows[r.id], r.attempts, o, s.now)
            && (o.SendError? ==>
                  forall q :: q !in s'.passes ==> (Enabled(s', Open(q, [r.id])) <==> r.attempts + 1 < MAX_ATTEMPTS))
  {
    var r, o, s' := s.passes[p].row, s.passes[p].outcome, Apply(s, Finish(p));
    assert forall id :: id in [r.id] <==> id == r.id;
    if o.SendError? {
      forall q | q !in s'.passes
        ensures Enabled(s', Open(q, [r.id])) <==> r.attempts + 1 < MAX_ATTEMPTS
      {
        assert Reclaimed(s'.rows, s'.now)[r.id] == s'.rows[r.id];
        assert r.id in [r.id];
      }
    }
  }

  /** Opening a pass puts back the rows whose claim is more than five minutes old, and
      only those. */
  lemma OpenPutsBack(s: State, p: nat, picked: seq<nat>, id: nat)
    requires Enabled(s, Open(p, picked)) && id in s.rows
    ensures var d, s' := s.rows[id], Apply(s, Open(p, picked));
            && s'.rows.Keys == s.rows.Keys
            && s'.rows[id] == (if d.status == Sending && d.claimedAt.Some? && d.claimedAt.value + 300 < s.now
                               then d.(status := Pending, claimedAt := None) else d)
            && (id in picked ==> s'.rows[id].status == Pending && s'.rows[id].attempts < 5)
  {
  }

  // ---------------------------------------------------------------------------
  // Every run
  // ---------------------------------------------------------------------------

  /** How often a pass had no adapter for the delivery or its adapter skipped it. */
  ghost function Skips(s: State, run: seq<Action>, id: nat): nat
    requires Legal(s, run)
    decreases |run|
  {
    if run == [] then 0
    else
      (if IsSkip(s, run[0], id) then 1 else 0) + Skips(Apply(s, run[0]), run[1..], id)
  }

  predicate IsSkip(s: State, a: Action, id: nat) {
    && a.Send? && (a.outcome.NoAdapter? || a.outcome.SkipDelivery?)
    && a.p in s.passes && s.passes[a.p].InSend? && s.passes[a.p].row.id == id
  }

  predicate SkipInHand(pass: Pass, id: nat) {
    pass.InHand? && pass.row.id == id && (pass.outcome.NoAdapter? || pass.outcome.SkipDelivery?)
  }

  /** What the row's status and the outcomes in hand say, `skips` skips having happened. */
  ghost predicate StatusOk(s: State, id: nat, skips: nat) {
    && (id in s.rows && s.rows[id].status == Sent ==> TallyOf(s, id).sends > 0)
    && (forall p :: p in s.passes && DeliveredInHand(s.passes[p], id) ==> TallyOf(s, id).sends > 0)
    && (id in s.rows && s.rows[id].status == Failed ==> s.rows[id].attempts == MAX_ATTEMPTS)
    && (id in s.rows && s.rows[id].status == Skipped ==> skips > 0)
    && (forall p :: p in s.passes && SkipInHand(s.passes[p], id) ==> skips > 0)
  }

  lemma StatusStep(s: State, a: Action, id: nat, skips: nat)
    requires ScansOk(s) && RowsBounded(s) && StatusOk(s, id, skips) && Enabled(s, a)
    ensures StatusOk(Apply(s, a), id, skips + if IsSkip(s, a, id) then 1 else 0)
  {
    if a.Finish? {
      assert ScanOk(s, s.passes[a.p].row);
      FinishMarks(s, a.p);
    } else if a.Open? {
      if id in s.rows { OpenPutsBack(s, a.p, a.picked, id); }
    }
  }

  lemma {:induction false} StatusRun(s: State, run: seq<Action>, id: nat, skips: nat)
    requires Books(s) && StatusOk(s, id, skips) && Legal(s, run)
    ensures StatusOk(After(s, run), id, skips + Skips(s, run, id))
    decreases |run|
  {
    if run != [] {
      BooksStep(s, run[0]);
      StatusStep(s, run[0], id, skips);
      StatusRun(Apply(s, run[0]), run[1..], id, skips + if IsSkip(s, run[0], id) then 1 else 0);
    }
  }

  /** In every run a delivery is `sent` only if an adapter has reported it delivered,
      `failed` only with all its attempts recorded, and `skipped` only if a pass had no
      adapter for it or the adapter skipped it. */
  lemma StatusIsEarned(run: seq<Action>, id: nat)
    requires Legal(INITIAL, run) && id in After(INITIAL, run).rows
    ensures var s := After(INITIAL, run);
            && (s.rows[id].status == Sent ==> TallyOf(s, id).sends > 0)
            && (s.rows[id].status == Failed ==> s.rows[id].attempts == MAX_ATTEMPTS)
            && (s.rows[id].status == Skipped ==> Skips(INITIAL, run, id) > 0)
  {
    StatusRun(INITIAL, run, id, 0);
  }
}
