/** What concurrent dispatch passes keep: one owner per row in flight, `sent` for good,
    a bound on duplicate sends, and how far the attempt count can be trusted. */
module OutboxProofs {
  import opened Wrappers
  import opened Outbox

  /** A pass that holds a row owns it: the row is sending, under this pass's claim. */
  ghost predicate Owned(s: State) {
    && (forall p :: p in s.passes && Holds(s.passes[p]) ==>
          && s.passes[p].row.id in s.rows
          && s.rows[s.passes[p].row.id].status == Sending
          && s.rows[s.passes[p].row.id].claimedAt == Some(s.passes[p].since))
    && (forall p, q :: p in s.passes && q in s.passes && p != q && Holds(s.passes[p]) && Holds(s.passes[q]) ==>
          s.passes[p].row.id != s.passes[q].row.id)
  }

  predicate DeliveredInHand(pass: Pass, id: nat) {
    pass.InHand? && pass.outcome.Delivered? && pass.row.id == id
  }

  ghost predicate SendUnwritten(s: State, id: nat) {
    exists p :: p in s.passes && DeliveredInHand(s.passes[p], id)
  }

  /** Each delivered send was marked, is about to be, or was lost to a crash. */
  ghost predicate SendOk(s: State, id: nat) {
    && !(id in s.rows && s.rows[id].status == Sent && SendUnwritten(s, id))
    && TallyOf(s, id).sends ==
         TallyOf(s, id).crashes + (if (id in s.rows && s.rows[id].status == Sent) || SendUnwritten(s, id) then 1 else 0)
  }

  predicate RowOk(d: Delivery) {
    (d.status == Pending || d.status == Sending ==> d.attempts < MAX_ATTEMPTS)
    && (d.status == Sending <==> d.claimedAt.Some?)
  }

  /** Nothing recorded or read is ahead of the attempts really made. */
  ghost predicate ScanOk(s: State, r: Scan) {
    r.id in s.rows && r.attempts < MAX_ATTEMPTS && r.attempts <= TallyOf(s, r.id).tries
  }

  ghost predicate ScansOk(s: State) {
    && (forall p, k :: p in s.passes && 0 <= k < |s.passes[p].todo| ==> ScanOk(s, s.passes[p].todo[k]))
    && (forall p :: p in s.passes && Holds(s.passes[p]) ==> ScanOk(s, s.passes[p].row))
    && (forall id :: id in s.rows ==> s.rows[id].attempts <= TallyOf(s, id).tries)
    && (forall id :: id in s.tallies ==> id in s.rows)
  }

  ghost predicate Inv(s: State) {
    && Owned(s)
    && (forall id :: SendOk(s, id))
    && (forall id :: id in s.rows ==> RowOk(s.rows[id]))
    && ScansOk(s)
  }

  // ---------------------------------------------------------------------------
  // Steps
  // ---------------------------------------------------------------------------

  /** The passes' unwritten sends are the same and so are the counts. */
  lemma SameSends(s: State, s': State)
    requires forall id :: SendOk(s, id)
    requires forall id ::
               TallyOf(s', id).sends == TallyOf(s, id).sends && TallyOf(s', id).crashes == TallyOf(s, id).crashes
    requires forall p, id :: p in s'.passes && DeliveredInHand(s'.passes[p], id) ==>
               p in s.passes && DeliveredInHand(s.passes[p], id)
    requires forall p, id :: p in s.passes && DeliveredInHand(s.passes[p], id) ==>
               p in s'.passes && DeliveredInHand(s'.passes[p], id)
    requires forall id :: (id in s'.rows && s'.rows[id].status == Sent) == (id in s.rows && s.rows[id].status == Sent)
    ensures forall id :: SendOk(s', id)
  {
    forall id
      ensures SendOk(s', id)
    {
      assert SendOk(s, id);
      assert SendUnwritten(s', id) <==> SendUnwritten(s, id);
    }
  }

  lemma EmitKeeps(s: State, id: nat)
    requires Inv(s) && Enabled(s, Emit(id))
    ensures Inv(Apply(s, Emit(id)))
  {
    SameSends(s, Apply(s, Emit(id)));
  }

  lemma OpenKeeps(s: State, p: nat, picked: seq<nat>)
    requires Inv(s) && OnTime(s) && Enabled(s, Open(p, picked))
    ensures Inv(Apply(s, Open(p, picked)))
  {
    var s' := Apply(s, Open(p, picked));
    forall q | q in s.passes && Holds(s.passes[q])
      ensures s'.rows[s.passes[q].row.id] == s.rows[s.passes[q].row.id]
    {
      assert s.now <= s.passes[q].since + STALE_CLAIM_SECONDS;
    }
    SameSends(s, s');
    OpenKeepsScans(s, p, picked);
  }

  lemma OpenKeepsScans(s: State, p: nat, picked: seq<nat>)
    requires ScansOk(s) && Enabled(s, Open(p, picked))
    ensures ScansOk(Apply(s, Open(p, picked)))
  {
    var s' := Apply(s, Open(p, picked));
    forall q, k | q in s'.passes && 0 <= k < |s'.passes[q].todo|
      ensures ScanOk(s', s'.passes[q].todo[k])
    {
      if q == p {
        assert picked[k] in picked && Selectable(s'.rows, picked[k]);
      } else {
        assert ScanOk(s, s.passes[q].todo[k]);
      }
    }
  }

  /** The pass goes on with the row it held, or takes the next of its list. */
  predicate SameRow(pass: Pass, pass': Pass)
    requires Holds(pass')
  {
    || (Holds(pass) && pass'.row == pass.row)
    || (pass.todo != [] && pass'.row == pass.todo[0])
  }

  /** Moving pass `p` on, without touching what others scanned. */
  lemma PassKeepsScans(s: State, s': State, p: nat)
    requires ScansOk(s) && p in s.passes && p in s'.passes && s'.passes == s.passes[p := s'.passes[p]]
    requires s'.rows.Keys == s.rows.Keys
    requires forall id :: TallyOf(s, id).tries <= TallyOf(s', id).tries
    requires forall id :: id in s.rows ==> s'.rows[id].attempts <= TallyOf(s', id).tries
    requires forall id :: id in s'.tallies ==> id in s.rows
    requires s'.passes[p].todo == s.passes[p].todo
          || (s.passes[p].todo != [] && s'.passes[p].todo == s.passes[p].todo[1..])
    requires Holds(s'.passes[p]) ==> SameRow(s.passes[p], s'.passes[p])
    ensures ScansOk(s')
  {
    forall q, k | q in s'.passes && 0 <= k < |s'.passes[q].todo|
      ensures ScanOk(s', s'.passes[q].todo[k])
    {
      var j := if q == p && s'.passes[p].todo != s.passes[p].todo then k + 1 else k;
      assert ScanOk(s, s.passes[q].todo[j]);
    }
    forall q | q in s'.passes && Holds(s'.passes[q])
      ensures ScanOk(s', s'.passes[q].row)
    {
      if q != p { assert ScanOk(s, s.passes[q].row); }
    }
  }

  lemma ClaimKeepsOwned(s: State, p: nat)
    requires Owned(s) && (forall id :: id in s.rows ==> RowOk(s.rows[id])) && Enabled(s, Claim(p))
    ensures var s' := Apply(s, Claim(p)); Owned(s') && forall id :: id in s'.rows ==> RowOk(s'.rows[id])
  {
  }

  lemma ClaimKeepsSends(s: State, p: nat)
    requires (forall id :: SendOk(s, id)) && Enabled(s, Claim(p))
    ensures forall id :: SendOk(Apply(s, Claim(p)), id)
  {
    SameSends(s, Apply(s, Claim(p)));
  }

  lemma ClaimKeepsScans(s: State, p: nat)
    requires ScansOk(s) && Enabled(s, Claim(p))
    ensures ScansOk(Apply(s, Claim(p)))
  {
    assert ScanOk(s, s.passes[p].todo[0]);
    PassKeepsScans(s, Apply(s, Claim(p)), p);
  }

  lemma ClaimKeeps(s: State, p: nat)
    requires Inv(s) && Enabled(s, Claim(p))
    ensures Inv(Apply(s, Claim(p)))
  {
    ClaimKeepsOwned(s, p);
    ClaimKeepsSends(s, p);
    ClaimKeepsScans(s, p);
  }

  lemma SendKeeps(s: State, p: nat, outcome: SendResult)
    requires Inv(s) && Enabled(s, Send(p, outcome))
    ensures Inv(Apply(s, Send(p, outcome)))
  {
    var s' := Apply(s, Send(p, outcome));
    var mine := s.passes[p].row.id;
    PassKeepsScans(s, s', p);
    if outcome.Delivered? {
      forall id
        ensures SendOk(s', id)
      {
        assert SendOk(s, id);
        if id == mine {
          assert DeliveredInHand(s'.passes[p], id);
          assert !SendUnwritten(s, id);
        } else {
          assert SendUnwritten(s', id) <==> SendUnwritten(s, id) by { SameUnwritten(s, s', p, id); }
        }
      }
    } else {
      SameSends(s, s');
    }
  }

  lemma SameUnwritten(s: State, s': State, p: nat, id: nat)
    requires p in s.passes
    requires forall q :: q != p ==>
               (q in s'.passes <==> q in s.passes) && (q in s.passes ==> s'.passes[q] == s.passes[q])
    requires !DeliveredInHand(s.passes[p], id) && (p in s'.passes ==> !DeliveredInHand(s'.passes[p], id))
    ensures SendUnwritten(s', id) <==> SendUnwritten(s, id)
  {
    if SendUnwritten(s, id) {
      var q :| q in s.passes && DeliveredInHand(s.passes[q], id);
      assert q in s'.passes && DeliveredInHand(s'.passes[q], id);
    }
    if SendUnwritten(s', id) {
      var q :| q in s'.passes && DeliveredInHand(s'.passes[q], id);
      assert q in s.passes && DeliveredInHand(s.passes[q], id);
    }
  }

  /** After pass `p` let go of its row no one has an unwritten send of it. */
  lemma OnlyOwnerHadIt(s: State, s': State, p: nat)
    requires Owned(s) && p in s.passes && Holds(s.passes[p])
    requires forall q :: q in s'.passes && q != p ==> q in s.passes && s'.passes[q] == s.passes[q]
    requires p in s'.passes ==> !Holds(s'.passes[p])
    ensures !SendUnwritten(s', s.passes[p].row.id)
  {
  }

  lemma FinishKeepsSends(s: State, p: nat)
    requires Inv(s) && Enabled(s, Finish(p))
    ensures forall id :: SendOk(Apply(s, Finish(p)), id)
  {
    var s' := Apply(s, Finish(p));
    var mine := s.passes[p].row.id;
    forall id
      ensures SendOk(s', id)
    {
      assert SendOk(s, id);
      if id == mine {
        OnlyOwnerHadIt(s, s', p);
        if s.passes[p].outcome.Delivered? {
          assert DeliveredInHand(s.passes[p], id);
        } else {
          NoOneElseHasIt(s, p);
        }
      } else {
        SameUnwritten(s, s', p, id);
      }
    }
  }

  lemma NoOneElseHasIt(s: State, p: nat)
    requires Owned(s) && p in s.passes && Holds(s.passes[p]) && !DeliveredInHand(s.passes[p], s.passes[p].row.id)
    ensures !SendUnwritten(s, s.passes[p].row.id)
  {
  }

  lemma FinishKeepsOwned(s: State, p: nat)
    requires Owned(s) && (forall id :: id in s.rows ==> RowOk(s.rows[id])) && Enabled(s, Finish(p))
    requires s.passes[p].row.attempts < MAX_ATTEMPTS
    ensures var s' := Apply(s, Finish(p)); Owned(s') && forall id :: id in s'.rows ==> RowOk(s'.rows[id])
  {
  }

  lemma FinishKeeps(s: State, p: nat)
    requires Inv(s) && Enabled(s, Finish(p))
    ensures Inv(Apply(s, Finish(p)))
  {
    var s' := Apply(s, Finish(p));
    assert ScanOk(s, s.passes[p].row);
    FinishKeepsOwned(s, p);
    PassKeepsScans(s, s', p);
    FinishKeepsSends(s, p);
  }

  lemma CrashKeeps(s: State, p: nat)
    requires Inv(s) && Enabled(s, Crash(p))
    ensures Inv(Apply(s, Crash(p)))
  {
    var s' := Apply(s, Crash(p));
    forall id
      ensures SendOk(s', id)
    {
      assert SendOk(s, id);
      if DeliveredInHand(s.passes[p], id) {
        OnlyOwnerHadIt(s, s', p);
      } else {
        SameUnwritten(s, s', p, id);
      }
    }
    forall q, k | q in s'.passes && 0 <= k < |s'.passes[q].todo|
      ensures ScanOk(s', s'.passes[q].todo[k])
    {
      assert ScanOk(s, s.passes[q].todo[k]);
    }
    forall q | q in s'.passes && Holds(s'.passes[q])
      ensures ScanOk(s', s'.passes[q].row)
    {
      assert ScanOk(s, s.passes[q].row);
    }
  }

  lemma StepKeeps(s: State, a: Action)
    requires Inv(s) && OnTime(s) && Enabled(s, a)
    ensures Inv(Apply(s, a))
  {
    match a
    case Advance(_) => SameSends(s, Apply(s, a));
    case Emit(id) => EmitKeeps(s, id);
    case Open(p, picked) => OpenKeeps(s, p, picked);
    case Claim(p) => ClaimKeeps(s, p);
    case Send(p, outcome) => SendKeeps(s, p, outcome);
    case Finish(p) => FinishKeeps(s, p);
    case Crash(p) => CrashKeeps(s, p);
  }

  lemma {:induction false} RunKeeps(s: State, run: seq<Action>)
    requires Inv(s) && Legal(s, run) && Timely(s, run)
    ensures Inv(After(s, run)) && OnTime(After(s, run))
    decreases |run|
  {
    if run != [] {
      StepKeeps(s, run[0]);
      RunKeeps(Apply(s, run[0]), run[1..]);
    }
  }

  // ---------------------------------------------------------------------------
  // Main results
  // ---------------------------------------------------------------------------

  /** When every live send finishes within the stale-claim window: at most one live
      pass owns a sending row, and the unconditional update of a finishing pass only
      ever meets the row under that pass's own claim. */
  lemma OneOwner(run: seq<Action>, p: nat, q: nat)
    requires Legal(INITIAL, run) && Timely(INITIAL, run)
    requires var s := After(INITIAL, run); p in s.passes && q in s.passes && Holds(s.passes[p]) && Holds(s.passes[q])
    ensures var s := After(INITIAL, run);
            var row := s.passes[p].row;
            && (p != q ==> row.id != s.passes[q].row.id)
            && row.id in s.rows && s.rows[row.id].status == Sending
            && s.rows[row.id].claimedAt == Some(s.passes[p].since)
  {
    RunKeeps(INITIAL, run);
  }

  lemma {:induction false} SentStays(s: State, run: seq<Action>, id: nat)
    requires Inv(s) && Legal(s, run) && Timely(s, run)
    requires id in s.rows && s.rows[id].status in {Sent, Failed, Skipped}
    ensures id in After(s, run).rows && After(s, run).rows[id] == s.rows[id]
    decreases |run|
  {
    if run != [] {
      StepKeeps(s, run[0]);
      if run[0].Finish? { assert s.passes[run[0].p].row.id != id; }
      SentStays(Apply(s, run[0]), run[1..], id);
    }
  }

  /** `sent` is for good, and so are `failed` and `skipped`. */
  lemma SentIsAbsorbing(run: seq<Action>, more: seq<Action>, id: nat)
    requires Legal(INITIAL, run) && Timely(INITIAL, run)
    requires Legal(After(INITIAL, run), more) && Timely(After(INITIAL, run), more)
    requires var s := After(INITIAL, run); id in s.rows && s.rows[id].status in {Sent, Failed, Skipped}
    ensures var s, s' := After(INITIAL, run), After(After(INITIAL, run), more);
            id in s'.rows && s'.rows[id] == s.rows[id]
  {
    RunKeeps(INITIAL, run);
    SentStays(After(INITIAL, run), more, id);
  }

  /** A delivery is sent once, plus once more for each pass that died between its send
      and its mark; a row marked sent accounts for exactly one. */
  lemma DuplicatesNeedCrashes(run: seq<Action>, id: nat)
    requires Legal(INITIAL, run) && Timely(INITIAL, run)
    ensures var s := After(INITIAL, run);
            && TallyOf(s, id).crashes <= TallyOf(s, id).sends <= TallyOf(s, id).crashes + 1
            && (id in s.rows && s.rows[id].status == Sent ==> TallyOf(s, id).sends == TallyOf(s, id).crashes + 1)
  {
    RunKeeps(INITIAL, run);
    assert SendOk(After(INITIAL, run), id);
  }

  // ---------------------------------------------------------------------------
  // Runs put together
  // ---------------------------------------------------------------------------

  lemma {:induction false} Concat(s: State, first: seq<Action>, second: seq<Action>)
    requires Legal(s, first) && Legal(After(s, first), second)
    ensures Legal(s, first + second) && After(s, first + second) == After(After(s, first), second)
    decreases |first|
  {
    if first == [] {
      assert first + second == second;
    } else {
      Concat(Apply(s, first[0]), first[1..], second);
      assert (first + second)[1..] == first[1..] + second;
    }
  }

  lemma {:induction false} ConcatWithin(s: State, first: seq<Action>, second: seq<Action>, seconds: int)
    requires Legal(s, first) && Legal(After(s, first), second)
    requires Within(s, first, seconds) && Within(After(s, first), second, seconds)
    ensures Legal(s, first + second) && Within(s, first + second, seconds)
    decreases |first|
  {
    Concat(s, first, second);
    if first == [] {
      assert first + second == second;
    } else {
      ConcatWithin(Apply(s, first[0]), first[1..], second, seconds);
      assert (first + second)[1..] == first[1..] + second;
    }
  }
}
