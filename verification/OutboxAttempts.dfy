/** The attempts a delivery has had and the attempts its row records: the difference,
    exactly, and what it means for MAX_ATTEMPTS (asas_notifications/service.py). */
module OutboxAttempts {
  import opened Wrappers
  import opened Outbox
  import opened OutboxProofs

  // ---------------------------------------------------------------------------
  // The books, in every run
  // ---------------------------------------------------------------------------

  predicate AttemptInHand(pass: Pass, id: nat) {
    pass.InHand? && Counts(pass.outcome) && pass.row.id == id
  }

  /** The live passes that have made an attempt and not yet written it. */
  function Hands(s: State, id: nat): set<nat> {
    set p | p in s.passes && AttemptInHand(s.passes[p], id)
  }

  /** Every attempt made was recorded, is in hand, or was lost; every recorded one shows
      in the row's count but for the drift. */
  ghost predicate BookOk(s: State, id: nat) {
    var t := TallyOf(s, id);
    && t.made == t.tries + |Hands(s, id)| + t.lost
    && (id in s.rows ==> t.tries == s.rows[id].attempts + t.drift)
  }

  /** No count is past the limit, and a row still to be sent is below it. */
  ghost predicate RowsBounded(s: State) {
    forall id :: id in s.rows ==>
      && s.rows[id].attempts <= MAX_ATTEMPTS
      && (s.rows[id].status == Pending || s.rows[id].status == Sending ==> s.rows[id].attempts < MAX_ATTEMPTS)
  }

  ghost predicate Books(s: State) {
    ScansOk(s) && RowsBounded(s) && forall id :: BookOk(s, id)
  }

  lemma ScansStep(s: State, a: Action)
    requires ScansOk(s) && Enabled(s, a)
    ensures ScansOk(Apply(s, a))
  {
    var s' := Apply(s, a);
    if a.Open? { OpenKeepsScans(s, a.p, a.picked); }
    else if a.Claim? { ClaimKeepsScans(s, a.p); }
    else if a.Send? || a.Finish? {
      assert ScanOk(s, s.passes[a.p].row);
      PassKeepsScans(s, s', a.p);
    } else {
      SubsetKeepsScans(s, s');
    }
  }

  /** No pass has anything new and no count went back. */
  lemma SubsetKeepsScans(s: State, s': State)
    requires ScansOk(s)
    requires forall p :: p in s'.passes ==> p in s.passes && s'.passes[p] == s.passes[p]
    requires forall id :: id in s.rows ==> id in s'.rows && s'.rows[id] == s.rows[id]
    requires forall id :: id in s'.rows && id !in s.rows ==> s'.rows[id].attempts == 0
    requires forall id :: TallyOf(s', id).tries == TallyOf(s, id).tries
    requires forall id :: id in s'.tallies ==> id in s.rows
    ensures ScansOk(s')
  {
    forall p, k | p in s'.passes && 0 <= k < |s'.passes[p].todo| ensures ScanOk(s', s'.passes[p].todo[k]) {
      assert ScanOk(s, s.passes[p].todo[k]);
    }
    forall p | p in s'.passes && Holds(s'.passes[p]) ensures ScanOk(s', s'.passes[p].row) {
      assert ScanOk(s, s.passes[p].row);
    }
  }

  lemma RowsStep(s: State, a: Action)
    requires ScansOk(s) && RowsBounded(s) && Enabled(s, a)
    ensures RowsBounded(Apply(s, a))
  {
    if a.Finish? { assert ScanOk(s, s.passes[a.p].row); }
  }

  lemma HandsStep(s: State, a: Action, id: nat)
    requires Enabled(s, a)
    ensures Hands(Apply(s, a), id) ==
              if a.Send? && Counts(a.outcome) && s.passes[a.p].row.id == id then Hands(s, id) + {a.p}
              else if a.Finish? || a.Crash? then Hands(s, id) - {a.p}
              else Hands(s, id)
    ensures a.Send? ==> a.p !in Hands(s, id)
    ensures a.Finish? || a.Crash? ==> (a.p in Hands(s, id) <==> AttemptInHand(s.passes[a.p], id))
  {
    var s' := Apply(s, a);
    forall p
      ensures p in Hands(s', id) <==>
                if a.Send? && Counts(a.outcome) && s.passes[a.p].row.id == id then p in Hands(s, id) + {a.p}
                else if a.Finish? || a.Crash? then p in Hands(s, id) - {a.p}
                else p in Hands(s, id)
    {
    }
  }

  lemma SendBook(s: State, p: nat, outcome: SendResult, id: nat)
    requires BookOk(s, id) && Enabled(s, Send(p, outcome))
    ensures BookOk(Apply(s, Send(p, outcome)), id)
  {
    HandsStep(s, Send(p, outcome), id);
  }

  lemma FinishBook(s: State, p: nat, id: nat)
    requires BookOk(s, id) && Enabled(s, Finish(p)) && s.passes[p].row.id in s.rows
    ensures BookOk(Apply(s, Finish(p)), id)
  {
    var was := Hands(s, id);
    HandsStep(s, Finish(p), id);
    if p in was { assert |was - {p}| == |was| - 1; } else { assert was - {p} == was; }
  }

  lemma CrashBook(s: State, p: nat, id: nat)
    requires BookOk(s, id) && Enabled(s, Crash(p))
    ensures BookOk(Apply(s, Crash(p)), id)
  {
    var was := Hands(s, id);
    HandsStep(s, Crash(p), id);
    if p in was { assert |was - {p}| == |was| - 1; } else { assert was - {p} == was; }
  }

  lemma BookStep(s: State, a: Action, id: nat)
    requires ScansOk(s) && BookOk(s, id) && Enabled(s, a)
    ensures BookOk(Apply(s, a), id)
  {
    if a.Send? {
      SendBook(s, a.p, a.outcome, id);
    } else if a.Finish? {
      assert ScanOk(s, s.passes[a.p].row);
      FinishBook(s, a.p, id);
    } else if a.Crash? {
      CrashBook(s, a.p, id);
    } else {
      HandsStep(s, a, id);
    }
  }

  lemma BooksStep(s: State, a: Action)
    requires Books(s) && Enabled(s, a)
    ensures Books(Apply(s, a))
  {
    ScansStep(s, a);
    RowsStep(s, a);
    forall id ensures BookOk(Apply(s, a), id) { BookStep(s, a, id); }
  }

  lemma {:induction false} BooksRun(s: State, run: seq<Action>)
    requires Books(s) && Legal(s, run)
    ensures Books(After(s, run))
    decreases |run|
  {
    if run != [] {
      BooksStep(s, run[0]);
      BooksRun(Apply(s, run[0]), run[1..]);
    }
  }

  lemma RunBooks(run: seq<Action>)
    requires Legal(INITIAL, run)
    ensures Books(After(INITIAL, run))
  {
    BooksRun(INITIAL, run);
  }

  // ---------------------------------------------------------------------------
  // Main results
  // ---------------------------------------------------------------------------

  /** In every run, timely or not, the attempts made of a delivery are the ones its row
      records, plus the drift of the recorded ones, those in hand and those lost. */
  lemma AttemptsAreAccountedFor(run: seq<Action>, id: nat)
    requires Legal(INITIAL, run) && id in After(INITIAL, run).rows
    ensures var s := After(INITIAL, run);
            var t := TallyOf(s, id);
            t.made == s.rows[id].attempts + t.drift + |Hands(s, id)| + t.lost
    ensures var s := After(INITIAL, run);
            s.rows[id].attempts <= TallyOf(s, id).made && s.rows[id].attempts <= MAX_ATTEMPTS
  {
    RunBooks(run);
    assert BookOk(After(INITIAL, run), id);
  }

  /** Of two passes at most one holds the row, so at most one attempt is in hand, and
      then the row is sending. */
  lemma OneHand(s: State, id: nat)
    requires Inv(s)
    ensures |Hands(s, id)| <= 1
    ensures Hands(s, id) != {} ==> id in s.rows && s.rows[id].status == Sending
    ensures (exists p :: p in s.passes && s.passes[p].InSend? && s.passes[p].row.id == id) ==> Hands(s, id) == {}
  {
    if p :| p in Hands(s, id) {
      assert Hands(s, id) == {p};
    }
  }

  /** The next send of a delivery is an attempt past MAX_ATTEMPTS if and only if crashes
      and overlapping reads together hid as many attempts as its row's count still
      allows. */
  lemma NextSendIsPastTheBoundIff(run: seq<Action>, p: nat, outcome: SendResult)
    requires Legal(INITIAL, run) && Timely(INITIAL, run)
    requires Enabled(After(INITIAL, run), Send(p, outcome)) && Counts(outcome)
    ensures var s := After(INITIAL, run);
            var id := s.passes[p].row.id;
            && id in s.rows && s.rows[id].attempts < MAX_ATTEMPTS
            && (TallyOf(Apply(s, Send(p, outcome)), id).made > MAX_ATTEMPTS <==>
                  TallyOf(s, id).lost + TallyOf(s, id).drift >= MAX_ATTEMPTS - s.rows[id].attempts)
  {
    RunKeeps(INITIAL, run);
    RunBooks(run);
    var s := After(INITIAL, run);
    var id := s.passes[p].row.id;
    assert BookOk(s, id);
    OneHand(s, id);
  }

  /** MAX_ATTEMPTS bounds the attempts made of a delivery if and only if those lost to
      crashes, the drift and the one in hand fit into what its row's count leaves; with
      none lost and no drift they do. */
  lemma AttemptsBoundedIff(run: seq<Action>, id: nat)
    requires Legal(INITIAL, run) && Timely(INITIAL, run) && id in After(INITIAL, run).rows
    ensures var s := After(INITIAL, run);
            var t, left, hands := TallyOf(s, id), MAX_ATTEMPTS - s.rows[id].attempts, |Hands(s, id)|;
            && 0 <= hands <= left
            && (t.made <= MAX_ATTEMPTS <==> t.lost + t.drift <= left - hands)
  {
    RunKeeps(INITIAL, run);
    RunBooks(run);
    assert BookOk(After(INITIAL, run), id);
    OneHand(After(INITIAL, run), id);
  }

  // ---------------------------------------------------------------------------
  // When the recorded count is the attempts made
  // ---------------------------------------------------------------------------

  /** Every delivery's recorded attempts, and those in hand, are the attempts made. */
  ghost predicate CountsExact(s: State) {
    forall id :: id in s.rows ==> TallyOf(s, id).made == s.rows[id].attempts + |Hands(s, id)|
  }

  /** A finishing pass that records an attempt read the count the row still holds. */
  ghost predicate ReadsFresh(s: State, a: Action)
    requires Enabled(s, a)
  {
    a.Finish? && Counts(s.passes[a.p].outcome) ==> Ahead(s.rows, s.passes[a.p].row) == 0
  }

  /** No pass dies with an attempt it has made and not written. */
  ghost predicate LosesNone(s: State, a: Action)
    requires Enabled(s, a)
  {
    a.Crash? ==> !(s.passes[a.p].InHand? && Counts(s.passes[a.p].outcome))
  }

  ghost predicate AllFresh(s: State, run: seq<Action>)
    requires Legal(s, run)
    decreases |run|
  {
    run == [] || (ReadsFresh(s, run[0]) && AllFresh(Apply(s, run[0]), run[1..]))
  }

  ghost predicate NoneLost(s: State, run: seq<Action>)
    requires Legal(s, run)
    decreases |run|
  {
    run == [] || (LosesNone(s, run[0]) && NoneLost(Apply(s, run[0]), run[1..]))
  }

  ghost predicate AlwaysExact(s: State, run: seq<Action>)
    requires Legal(s, run)
    decreases |run|
  {
    CountsExact(s) && (run == [] || AlwaysExact(Apply(s, run[0]), run[1..]))
  }

  /** The attempts the row does not show, less those it shows twice. */
  function Hidden(s: State, id: nat): int {
    TallyOf(s, id).drift + TallyOf(s, id).lost
  }

  lemma ExactIsNothingHidden(s: State)
    requires Books(s)
    ensures CountsExact(s) <==> forall id :: id in s.rows ==> Hidden(s, id) == 0
  {
    forall id | id in s.rows
      ensures TallyOf(s, id).made == s.rows[id].attempts + |Hands(s, id)| <==> Hidden(s, id) == 0
    {
      assert BookOk(s, id);
    }
  }

  lemma HiddenStep(s: State, a: Action, id: nat)
    requires Books(s) && Enabled(s, a) && id in s.rows
    ensures id in Apply(s, a).rows
    ensures Hidden(Apply(s, a), id) == Hidden(s, id) +
              (if a.Finish? && Counts(s.passes[a.p].outcome) && s.passes[a.p].row.id == id
               then Ahead(s.rows, s.passes[a.p].row)
               else if a.Crash? && AttemptInHand(s.passes[a.p], id) then 1 else 0)
  {
  }

  lemma ExactStep(s: State, a: Action)
    requires Books(s) && CountsExact(s) && Enabled(s, a)
    ensures CountsExact(Apply(s, a)) <==> ReadsFresh(s, a) && LosesNone(s, a)
  {
    var s' := Apply(s, a);
    BooksStep(s, a);
    ExactIsNothingHidden(s);
    ExactIsNothingHidden(s');
    forall id | id in s.rows ensures id in s'.rows { HiddenStep(s, a, id); }
    if ReadsFresh(s, a) && LosesNone(s, a) {
      forall id | id in s'.rows ensures Hidden(s', id) == 0 {
        if id in s.rows { HiddenStep(s, a, id); }
      }
    } else {
      var id := s.passes[a.p].row.id;
      assert ScanOk(s, s.passes[a.p].row);
      HiddenStep(s, a, id);
      assert Hidden(s', id) != 0;
    }
  }

  /** The recorded attempts are the attempts made, throughout a run, if and only if every
      pass that recorded one held the row's current count and no pass died with one
      unwritten. */
  lemma {:induction false} AttemptsExactIff(s: State, run: seq<Action>)
    requires Books(s) && CountsExact(s) && Legal(s, run)
    ensures AlwaysExact(s, run) <==> AllFresh(s, run) && NoneLost(s, run)
    decreases |run|
  {
    if run != [] {
      BooksStep(s, run[0]);
      ExactStep(s, run[0]);
      if CountsExact(Apply(s, run[0])) { AttemptsExactIff(Apply(s, run[0]), run[1..]); }
    }
  }

  lemma {:induction false} ExactAtTheEnd(s: State, run: seq<Action>)
    requires Legal(s, run) && AlwaysExact(s, run)
    ensures CountsExact(After(s, run))
    decreases |run|
  {
    if run != [] { ExactAtTheEnd(Apply(s, run[0]), run[1..]); }
  }

  /** In a timely run of that kind MAX_ATTEMPTS bounds the attempts made. */
  lemma AttemptsBounded(run: seq<Action>, id: nat)
    requires Legal(INITIAL, run) && Timely(INITIAL, run) && AllFresh(INITIAL, run) && NoneLost(INITIAL, run)
    ensures TallyOf(After(INITIAL, run), id).made <= MAX_ATTEMPTS
  {
    var s := After(INITIAL, run);
    RunBooks(run);
    AttemptsExactIff(INITIAL, run);
    ExactAtTheEnd(INITIAL, run);
    ExactIsNothingHidden(s);
    if id in s.rows {
      assert Hidden(s, id) == 0;
      AttemptsBoundedIff(run, id);
    }
  }
}
