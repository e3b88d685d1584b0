/** Every interleaving of appending transactions leaves each tenant one unforked chain. */
module AuditProofs {
  import opened Wrappers
  import opened AuditChain
  import opened AuditStore

  /** No chain and no numbering changed, so only the bookkeeping has to be checked. */
  lemma SameChains(H: Hash, s: State, s': State)
    requires NumbersOk(s) && forall org :: ChainOk(H, s, org)
    requires forall org :: Held(s', org) == Held(s, org)
    requires s'.committed == s.committed && s.nextSeq <= s'.nextSeq && s.ids <= s'.ids
    requires forall t, r :: t in s'.txs && r in s'.txs[t].flushed ==> t in s.txs && r in s.txs[t].flushed
    ensures NumbersOk(s') && forall org :: ChainOk(H, s', org) && Chain(s', org) == Chain(s, org)
  {
    forall org
      ensures Ascending(Numbered(s', org)) && ChainOk(H, s', org) && Chain(s', org) == Chain(s, org)
    {
      assert Numbered(s', org) == Numbered(s, org) && Chain(s', org) == Chain(s, org);
      assert ChainOk(H, s, org) && Ascending(Numbered(s, org));
    }
  }

  lemma BeginKeeps(H: Hash, s: State, t: nat)
    requires Inv(H, s) && Enabled(s, Begin(t))
    ensures Inv(H, Apply(H, s, Begin(t)))
  {
    SameChains(H, s, Apply(H, s, Begin(t)));
  }

  lemma LockAddsNothing(s: State, t: nat, org: string, other: string)
    requires LocksCover(s) && Enabled(s, Lock(t, org))
    ensures Held(s.(locks := s.locks[org := t], txs := s.txs[t := s.txs[t].(phase := Locked(org))]), other)
            == Held(s, other)
  {
    if org !in s.locks {
      OrgRowsNone(s.txs[t].flushed, org);
      OrgRowsNone(s.txs[t].pending, org);
    }
  }

  lemma LockKeeps(H: Hash, s: State, t: nat, org: string)
    requires Inv(H, s) && Enabled(s, Lock(t, org))
    ensures Inv(H, Apply(H, s, Lock(t, org)))
  {
    var s' := Apply(H, s, Lock(t, org));
    forall other ensures Held(s', other) == Held(s, other) { LockAddsNothing(s, t, org, other); }
    SameChains(H, s, s');
    PhasesKeep(s, s', t);
  }

  /** Other transactions' phases stay good when chains and their locks do. */
  lemma PhasesKeep(s: State, s': State, t: nat)
    requires forall u :: u in s.txs ==> PhaseOk(s, u)
    requires forall u :: u in s'.txs && u != t ==> u in s.txs && s'.txs[u] == s.txs[u]
    requires forall org :: org in s.locks && s.locks[org] != t ==>
               org in s'.locks && s'.locks[org] == s.locks[org] && Chain(s', org) == Chain(s, org)
    requires t in s'.txs ==> PhaseOk(s', t)
    ensures forall u :: u in s'.txs ==> PhaseOk(s', u)
  {
    forall u | u in s'.txs
      ensures PhaseOk(s', u)
    {
      if u != t { assert PhaseOk(s, u); }
    }
  }

  lemma FlushDoneKeeps(H: Hash, s: State, t: nat)
    requires Inv(H, s) && Enabled(s, FlushDone(t))
    ensures Inv(H, Apply(H, s, FlushDone(t)))
  {
    var s' := Apply(H, s, FlushDone(t));
    SameChains(H, s, s');
    assert PhaseOk(s, t);
    PhasesKeep(s, s', t);
  }

  lemma HolderSeesChain(s: State, t: nat, org: string)
    requires org in s.locks && s.locks[org] == t && t in s.txs && s.txs[t].pending == []
    ensures OrgRows(s.committed + s.txs[t].flushed, org) == Numbered(s, org)
    ensures Chain(s, org) == Strip(Numbered(s, org))
  {
    OrgRowsConcat(s.committed, s.txs[t].flushed, org);
    assert Held(s, org).1 == [];
    assert Strip(Numbered(s, org)) + [] == Strip(Numbered(s, org));
  }

  lemma TailIsLast(rows: seq<Row>, org: string, found: Option<Row>)
    requires IsTail(rows, org, found) && Ascending(OrgRows(rows, org))
    ensures var own := OrgRows(rows, org);
            (found.None? <==> own == []) && (found.Some? ==> found.value == own[|own| - 1])
  {
    var own := OrgRows(rows, org);
    OrgRowsIn(rows, org);
    if found.Some? {
      assert found.value in own;
      var k :| 0 <= k < |own| && own[k] == found.value;
      assert own[|own| - 1] in own;
    } else {
      OrgRowsNone(rows, org);
    }
  }

  /** The lock holder's tail read finds the last row of the chain. */
  lemma TailIsChainEnd(s: State, t: nat, org: string, found: Option<Row>)
    requires NumbersOk(s) && org in s.locks && s.locks[org] == t && t in s.txs
    requires s.txs[t].pending == [] && IsTail(s.committed + s.txs[t].flushed, org, found)
    ensures (if found.Some? then Some(found.value.hashCurrent) else None) == PrevOf(Chain(s, org), |Chain(s, org)|)
  {
    HolderSeesChain(s, t, org);
    assert Ascending(Numbered(s, org));
    TailIsLast(s.committed + s.txs[t].flushed, org, found);
  }

  lemma ReadTailKeeps(H: Hash, s: State, t: nat, found: Option<Row>)
    requires Inv(H, s) && Enabled(s, ReadTail(t, found))
    ensures Inv(H, Apply(H, s, ReadTail(t, found)))
  {
    var s' := Apply(H, s, ReadTail(t, found));
    assert PhaseOk(s, t);
    TailIsChainEnd(s, t, s.txs[t].phase.org, found);
    SameChains(H, s, s');
    PhasesKeep(s, s', t);
  }

  // ---------------------------------------------------------------------------
  // Insert
  // ---------------------------------------------------------------------------

  lemma OrgRowsSnoc(rows: seq<Row>, r: Row, org: string)
    ensures OrgRows(rows + [r], org) == if r.org == org then OrgRows(rows, org) + [r] else OrgRows(rows, org)
  {
    assert (rows + [r])[..|rows + [r]| - 1] == rows;
  }

  lemma OrgRowsHead(rows: seq<Row>, org: string)
    requires rows != []
    ensures OrgRows(rows, org) ==
              if rows[0].org == org then [rows[0]] + OrgRows(rows[1..], org) else OrgRows(rows[1..], org)
  {
    assert [rows[0]] + rows[1..] == rows;
    OrgRowsConcat([rows[0]], rows[1..], org);
    OrgRowsSnoc([], rows[0], org);
    assert [] + [rows[0]] == [rows[0]];
    assert [] + OrgRows(rows[1..], org) == OrgRows(rows[1..], org);
  }

  lemma InsertedHeld(H: Hash, s: State, t: nat, gap: nat, org: string)
    requires Enabled(s, InsertOne(t, gap))
    ensures var s' := Apply(H, s, InsertOne(t, gap));
            var row := s.txs[t].pending[0];
            if org in s.locks && s.locks[org] == t && row.org == org then
              && Held(s', org).0 == Held(s, org).0 + [row.(seqNo := s.nextSeq + gap)]
              && Held(s, org).1 == [row] + Held(s', org).1
            else Held(s', org) == Held(s, org)
  {
    InsertedRows(s.txs[t], s.nextSeq + gap, org);
    HeldAfter(s, s.(txs := s.txs[t := Inserted(s.txs[t], s.nextSeq + gap)], nextSeq := s.nextSeq + gap + 1), t, org);
  }

  lemma InsertedRows(tx: Tx, seqNo: int, org: string)
    requires tx.pending != []
    ensures var tx' := Inserted(tx, seqNo);
            var row := tx.pending[0];
            && OrgRows(tx'.flushed, org) ==
                 (if row.org == org then OrgRows(tx.flushed, org) + [row.(seqNo := seqNo)]
                  else OrgRows(tx.flushed, org))
            && OrgRows(tx.pending, org) ==
                 (if row.org == org then [row] + OrgRows(tx'.pending, org) else OrgRows(tx'.pending, org))
  {
    OrgRowsSnoc(tx.flushed, tx.pending[0].(seqNo := seqNo), org);
    OrgRowsHead(tx.pending, org);
  }

  /** Only transaction `t` moved and the locks stayed: what is held follows. */
  lemma HeldAfter(s: State, s': State, t: nat, org: string)
    requires s'.locks == s.locks && t in s.txs && t in s'.txs && s'.txs == s.txs[t := s'.txs[t]]
    ensures Held(s', org) ==
            if org in s.locks && s.locks[org] == t
            then (OrgRows(s'.txs[t].flushed, org), OrgRows(s'.txs[t].pending, org)) else Held(s, org)
  {
  }

  lemma InsertMovesRow(H: Hash, s: State, t: nat, gap: nat, org: string)
    requires Enabled(s, InsertOne(t, gap))
    ensures var s' := Apply(H, s, InsertOne(t, gap));
            && Chain(s', org) == Chain(s, org)
            && (Numbered(s', org) == Numbered(s, org)
                || exists r: Row :: r.seqNo == s.nextSeq + gap && Numbered(s', org) == Numbered(s, org) + [r])
  {
    var s' := Apply(H, s, InsertOne(t, gap));
    var row := s.txs[t].pending[0];
    InsertedHeld(H, s, t, gap, org);
    if org in s.locks && s.locks[org] == t && row.org == org {
      assert Numbered(s', org) == Numbered(s, org) + [row.(seqNo := s.nextSeq + gap)];
      assert Strip(Numbered(s', org)) == Strip(Numbered(s, org)) + [row.(seqNo := 0)];
      assert Strip(Held(s, org).1) == [row.(seqNo := 0)] + Strip(Held(s', org).1);
    }
  }

  lemma NumberedIn(s: State, org: string)
    ensures forall r :: r in Numbered(s, org) ==>
              r in s.committed || (org in s.locks && s.locks[org] in s.txs && r in s.txs[s.locks[org]].flushed)
    ensures forall r :: r in s.committed && r.org == org ==> r in Numbered(s, org)
    ensures forall r :: r in Held(s, org).0 ==> r in Numbered(s, org)
  {
    OrgRowsIn(s.committed, org);
    if org in s.locks && s.locks[org] in s.txs { OrgRowsIn(s.txs[s.locks[org]].flushed, org); }
  }

  lemma InsertKeepsChain(H: Hash, s: State, t: nat, gap: nat, org: string)
    requires NumbersOk(s) && ChainOk(H, s, org) && Enabled(s, InsertOne(t, gap)) && LocksCover(s)
    ensures var s' := Apply(H, s, InsertOne(t, gap));
            ChainOk(H, s', org) && Ascending(Numbered(s', org)) && Chain(s', org) == Chain(s, org)
  {
    InsertMovesRow(H, s, t, gap, org);
    assert Ascending(Numbered(s, org));
    NumberedIn(s, org);
  }

  lemma InsertKeepsBooks(H: Hash, s: State, t: nat, gap: nat)
    requires LocksCover(s) && NumbersOk(s) && Enabled(s, InsertOne(t, gap)) && PhaseOk(s, t)
    ensures var s' := Apply(H, s, InsertOne(t, gap));
            && LocksCover(s')
            && (forall r :: r in s'.committed ==> r.seqNo < s'.nextSeq)
            && (forall u, r :: u in s'.txs && r in s'.txs[u].flushed ==> r.seqNo < s'.nextSeq)
  {
    assert s.txs[t].pending[0] in s.txs[t].pending;
  }

  lemma InsertKeeps(H: Hash, s: State, t: nat, gap: nat)
    requires Inv(H, s) && Enabled(s, InsertOne(t, gap))
    ensures Inv(H, Apply(H, s, InsertOne(t, gap)))
  {
    var s' := Apply(H, s, InsertOne(t, gap));
    assert PhaseOk(s, t);
    InsertKeepsBooks(H, s, t, gap);
    forall org
      ensures Chain(s', org) == Chain(s, org) && ChainOk(H, s', org) && Ascending(Numbered(s', org))
    {
      assert ChainOk(H, s, org);
      InsertKeepsChain(H, s, t, gap, org);
    }
    PhasesKeep(s, s', t);
  }

  // ---------------------------------------------------------------------------
  // Add
  // ---------------------------------------------------------------------------

  lemma IntactExtends(H: Hash, org: string, rows: seq<Row>, r: Row)
    requires Intact(H, org, rows) && r.hashPrev == PrevOf(rows, |rows|)
    requires r.hashCurrent == ComputeHash(H, r.hashPrev, PayloadOf(org, r))
    ensures Intact(H, org, rows + [r])
  {
    forall i: nat | i < |rows + [r]|
      ensures Sound(H, org, rows + [r], i)
    {
      assert PrevOf(rows + [r], i) == PrevOf(rows, i);
      if i < |rows| { assert Sound(H, org, rows, i); }
    }
  }

  lemma StripSnoc(rows: seq<Row>, r: Row)
    ensures Strip(rows + [r]) == Strip(rows) + [r.(seqNo := 0)]
  {
  }

  lemma AddedHeld(H: Hash, s: State, t: nat, event: Event, org: string)
    requires Enabled(s, Add(t, event))
    requires var mine := s.txs[t].phase.org; mine in s.locks && s.locks[mine] == t
    ensures var s' := Apply(H, s, Add(t, event));
            var mine, row := s.txs[t].phase.org, NewRow(H, s.txs[t].phase.org, s.txs[t].phase.prev, event);
            Held(s', org) == if org == mine then (Held(s, org).0, Held(s, org).1 + [row]) else Held(s, org)
  {
    var s' := Apply(H, s, Add(t, event));
    OrgRowsSnoc(s.txs[t].pending, NewRow(H, s.txs[t].phase.org, s.txs[t].phase.prev, event), org);
    HeldAfter(s, s', t, org);
  }

  lemma AddExtendsChain(H: Hash, s: State, t: nat, event: Event, org: string)
    requires Enabled(s, Add(t, event)) && PhaseOk(s, t)
    ensures var s' := Apply(H, s, Add(t, event));
            var mine := s.txs[t].phase.org;
            && Numbered(s', org) == Numbered(s, org)
            && Chain(s', org) ==
                 if org == mine then Chain(s, org) + [NewRow(H, mine, s.txs[t].phase.prev, event)] else Chain(s, org)
  {
    var s', mine := Apply(H, s, Add(t, event)), s.txs[t].phase.org;
    var row := NewRow(H, mine, s.txs[t].phase.prev, event);
    AddedHeld(H, s, t, event, org);
    if org == mine { ChainSnoc(Numbered(s, org), Held(s, org).1, row); }
  }

  lemma ChainSnoc(numbered: seq<Row>, pending: seq<Row>, r: Row)
    requires r.seqNo == 0
    ensures Strip(numbered) + Strip(pending + [r]) == Strip(numbered) + Strip(pending) + [r]
  {
    StripSnoc(pending, r);
    assert r.(seqNo := 0) == r;
    assert Strip(numbered) + (Strip(pending) + [r]) == Strip(numbered) + Strip(pending) + [r];
  }

  lemma AddKeepsChain(H: Hash, s: State, t: nat, event: Event, org: string)
    requires Inv(H, s) && Enabled(s, Add(t, event))
    ensures var s' := Apply(H, s, Add(t, event));
            && ChainOk(H, s', org) && Ascending(Numbered(s', org))
            && (org != s.txs[t].phase.org ==> Chain(s', org) == Chain(s, org))
  {
    var mine, prev := s.txs[t].phase.org, s.txs[t].phase.prev;
    assert PhaseOk(s, t) && ChainOk(H, s, org) && Ascending(Numbered(s, org));
    AddExtendsChain(H, s, t, event, org);
    if org == mine {
      var row := NewRow(H, org, prev, event);
      IntactExtends(H, org, Chain(s, org), row);
      FreshIdStaysUnique(Chain(s, org), row, s.ids);
    }
  }

  lemma FreshIdStaysUnique(rows: seq<Row>, r: Row, ids: set<string>)
    requires UniqueIds(rows) && r.id !in ids && forall q :: q in rows ==> q.id in ids
    ensures UniqueIds(rows + [r])
  {
    assert forall i :: 0 <= i < |rows| ==> rows[i] in rows;
  }

  lemma AddKeeps(H: Hash, s: State, t: nat, event: Event)
    requires Inv(H, s) && Enabled(s, Add(t, event))
    ensures Inv(H, Apply(H, s, Add(t, event)))
  {
    var s' := Apply(H, s, Add(t, event));
    assert PhaseOk(s, t);
    forall org
      ensures ChainOk(H, s', org) && Ascending(Numbered(s', org))
      ensures org != s.txs[t].phase.org ==> Chain(s', org) == Chain(s, org)
    {
      AddKeepsChain(H, s, t, event, org);
    }
    PhasesKeep(s, s', t);
    AddKeepsLocks(H, s, t, event);
  }

  lemma AddKeepsLocks(H: Hash, s: State, t: nat, event: Event)
    requires LocksCover(s) && Enabled(s, Add(t, event)) && PhaseOk(s, t)
    ensures LocksCover(Apply(H, s, Add(t, event)))
  {
  }

  // ---------------------------------------------------------------------------
  // The end of a transaction
  // ---------------------------------------------------------------------------

  lemma CommitKeepsChain(H: Hash, s: State, t: nat, org: string)
    requires LocksCover(s) && Enabled(s, Commit(t))
    ensures var s' := Apply(H, s, Commit(t));
            Chain(s', org) == Chain(s, org) && Numbered(s', org) == Numbered(s, org)
  {
    var s' := Apply(H, s, Commit(t));
    var tx := s.txs[t];
    OrgRowsConcat(s.committed, tx.flushed, org);
    if org in s.locks && s.locks[org] == t {
      assert Held(s', org) == ([], []);
      assert Numbered(s', org) == Numbered(s, org);
      assert Held(s, org).1 == [];
    } else {
      OrgRowsNone(tx.flushed, org);
      assert Held(s', org) == Held(s, org);
      assert OrgRows(s'.committed, org) == OrgRows(s.committed, org);
    }
  }

  lemma CommitKeeps(H: Hash, s: State, t: nat)
    requires Inv(H, s) && Enabled(s, Commit(t))
    ensures Inv(H, Apply(H, s, Commit(t)))
  {
    var s' := Apply(H, s, Commit(t));
    forall org
      ensures ChainOk(H, s', org) && Ascending(Numbered(s', org)) && Chain(s', org) == Chain(s, org)
    {
      CommitKeepsChain(H, s, t, org);
      assert ChainOk(H, s, org) && Ascending(Numbered(s, org));
    }
    PhasesKeep(s, s', t);
  }

  lemma CutChainOk(H: Hash, s: State, s': State, org: string, n: nat)
    requires ChainOk(H, s, org) && n <= |Chain(s, org)| && Chain(s', org) == Chain(s, org)[..n] && s'.ids == s.ids
    ensures ChainOk(H, s', org)
  {
    IntactPrefix(H, org, Chain(s, org), n);
  }

  /** A rollback cuts the holder's part off each chain it was adding to. */
  lemma RollbackCutsChain(H: Hash, s: State, t: nat, org: string)
    requires LocksCover(s) && Enabled(s, Rollback(t))
    ensures var s' := Apply(H, s, Rollback(t));
            if org in s.locks && s.locks[org] == t then
              && Numbered(s', org) == OrgRows(s.committed, org)
              && |OrgRows(s.committed, org)| <= |Chain(s, org)|
              && Chain(s', org) == Chain(s, org)[..|OrgRows(s.committed, org)|]
            else Numbered(s', org) == Numbered(s, org) && Chain(s', org) == Chain(s, org)
  {
    var s' := Apply(H, s, Rollback(t));
    if org in s.locks && s.locks[org] == t {
      assert Held(s', org) == ([], []);
      var base := OrgRows(s.committed, org);
      assert Numbered(s', org) == base == Numbered(s, org)[..|base|];
    } else {
      assert Held(s', org) == Held(s, org);
    }
  }

  lemma RollbackKeepsLocks(H: Hash, s: State, t: nat)
    requires LocksCover(s) && Enabled(s, Rollback(t))
    ensures LocksCover(Apply(H, s, Rollback(t)))
  {
  }

  lemma RollbackKeepsChain(H: Hash, s: State, t: nat, org: string)
    requires LocksCover(s) && ChainOk(H, s, org) && Ascending(Numbered(s, org)) && Enabled(s, Rollback(t))
    ensures var s' := Apply(H, s, Rollback(t)); ChainOk(H, s', org) && Ascending(Numbered(s', org))
  {
    var s' := Apply(H, s, Rollback(t));
    RollbackCutsChain(H, s, t, org);
    if org in s.locks && s.locks[org] == t {
      CutChainOk(H, s, s', org, |OrgRows(s.committed, org)|);
      assert OrgRows(s.committed, org) == Numbered(s, org)[..|OrgRows(s.committed, org)|];
    }
  }

  lemma RollbackKeeps(H: Hash, s: State, t: nat)
    requires Inv(H, s) && Enabled(s, Rollback(t))
    ensures Inv(H, Apply(H, s, Rollback(t)))
  {
    var s' := Apply(H, s, Rollback(t));
    forall org
      ensures ChainOk(H, s', org) && Ascending(Numbered(s', org))
      ensures org in s.locks && s.locks[org] != t ==> Chain(s', org) == Chain(s, org)
    {
      assert ChainOk(H, s, org) && Ascending(Numbered(s, org));
      RollbackKeepsChain(H, s, t, org);
      RollbackCutsChain(H, s, t, org);
    }
    RollbackKeepsLocks(H, s, t);
    PhasesKeep(s, s', t);
  }

  // ---------------------------------------------------------------------------
  // Runs
  // ---------------------------------------------------------------------------

  lemma StepKeeps(H: Hash, s: State, a: Action)
    requires Inv(H, s) && Enabled(s, a)
    ensures Inv(H, Apply(H, s, a))
  {
    match a
    case Begin(t) => BeginKeeps(H, s, t);
    case Lock(t, org) => LockKeeps(H, s, t, org);
    case InsertOne(t, gap) => InsertKeeps(H, s, t, gap);
    case FlushDone(t) => FlushDoneKeeps(H, s, t);
    case ReadTail(t, found) => ReadTailKeeps(H, s, t, found);
    case Add(t, event) => AddKeeps(H, s, t, event);
    case Commit(t) => CommitKeeps(H, s, t);
    case Rollback(t) => RollbackKeeps(H, s, t);
  }

  lemma {:induction false} RunKeeps(H: Hash, s: State, run: seq<Action>)
    requires Inv(H, s) && Legal(H, s, run)
    ensures Inv(H, After(H, s, run))
    decreases |run|
  {
    if run != [] {
      StepKeeps(H, s, run[0]);
      RunKeeps(H, Apply(H, s, run[0]), run[1..]);
    }
  }

  lemma InitialHolds(H: Hash)
    ensures Inv(H, INITIAL)
  {
    forall org
      ensures ChainOk(H, INITIAL, org) && Ascending(Numbered(INITIAL, org))
    {
      assert Chain(INITIAL, org) == [] && Numbered(INITIAL, org) == [];
    }
  }

  // ---------------------------------------------------------------------------
  // Main results
  // ---------------------------------------------------------------------------

  /** The rows a viewer reads: the committed ones, and its own transaction's. */
  function Visible(s: State, viewer: Option<nat>): seq<Row> {
    s.committed + (if viewer.Some? && viewer.value in s.txs then s.txs[viewer.value].flushed else [])
  }

  /** What `verify`'s query may return: the tenant's visible rows, ordered by `seq`. */
  ghost predicate IsVerifyQuery(q: seq<Row>, rows: seq<Row>, org: string) {
    multiset(q) == multiset(OrgRows(rows, org)) && Sorted(q)
  }

  ghost predicate Sorted(rows: seq<Row>) {
    forall i, j :: 0 <= i < j < |rows| ==> rows[i].seqNo <= rows[j].seqNo
  }

  lemma SameLast(q: seq<Row>, rows: seq<Row>)
    requires multiset(q) == multiset(rows) && Ascending(rows) && Sorted(q) && q != [] && rows != []
    ensures q[|q| - 1] == rows[|rows| - 1]
  {
    var m, n := |q| - 1, |rows| - 1;
    assert q[m] in multiset(rows) && rows[n] in multiset(q);
    var i :| 0 <= i < |rows| && rows[i] == q[m];
    var j :| 0 <= j < |q| && q[j] == rows[n];
  }

  lemma DropLast(rows: seq<Row>)
    requires rows != []
    ensures multiset(rows[..|rows| - 1]) == multiset(rows) - multiset{rows[|rows| - 1]}
  {
    assert rows == rows[..|rows| - 1] + [rows[|rows| - 1]];
  }

  lemma {:induction false} OrderIsUnique(q: seq<Row>, rows: seq<Row>)
    requires multiset(q) == multiset(rows) && Ascending(rows) && Sorted(q)
    ensures q == rows
    decreases |rows|
  {
    assert |q| == |multiset(q)| == |rows|;
    if rows != [] {
      var n := |rows| - 1;
      SameRest(q, rows);
      OrderIsUnique(q[..n], rows[..n]);
      assert q == q[..n] + [q[n]] && rows == rows[..n] + [rows[n]];
    }
  }

  lemma SameRest(q: seq<Row>, rows: seq<Row>)
    requires multiset(q) == multiset(rows) && Ascending(rows) && Sorted(q) && rows != [] && |q| == |rows|
    ensures var n := |rows| - 1;
            q[n] == rows[n] && multiset(q[..n]) == multiset(rows[..n]) && Ascending(rows[..n]) && Sorted(q[..n])
  {
    SameLast(q, rows);
    DropLast(q);
    DropLast(rows);
  }

  lemma VisibleIsPrefix(H: Hash, s: State, viewer: Option<nat>, org: string)
    requires Inv(H, s)
    ensures var own := OrgRows(Visible(s, viewer), org);
            && Ascending(own)
            && |own| <= |Chain(s, org)| && Strip(own) == Chain(s, org)[..|own|]
  {
    var own := OrgRows(Visible(s, viewer), org);
    var base := OrgRows(s.committed, org);
    assert Ascending(Numbered(s, org));
    if viewer.Some? && viewer.value in s.txs {
      var flushed := s.txs[viewer.value].flushed;
      OrgRowsConcat(s.committed, flushed, org);
      if org in s.locks && s.locks[org] == viewer.value {
        assert own == Numbered(s, org);
      } else {
        OrgRowsNone(flushed, org);
        assert own == base == Numbered(s, org)[..|base|];
      }
    } else {
      assert Visible(s, viewer) == s.committed;
      assert own == base == Numbered(s, org)[..|base|];
    }
  }

  /** In every interleaving of transactions that lock, append any number of times for
      any tenants, commit or roll back, each tenant's rows in `seq` order form one
      chain that verifies intact, whoever looks: from outside, or from within a
      transaction that has inserted rows of its own. */
  lemma EveryStateVerifies(H: Hash, run: seq<Action>, viewer: Option<nat>, org: string, q: seq<Row>)
    requires Legal(H, INITIAL, run)
    requires IsVerifyQuery(q, Visible(After(H, INITIAL, run), viewer), org)
    ensures Intact(H, org, q)
  {
    InitialHolds(H);
    RunKeeps(H, INITIAL, run);
    var s := After(H, INITIAL, run);
    VisibleIsPrefix(H, s, viewer, org);
    var own := OrgRows(Visible(s, viewer), org);
    OrderIsUnique(q, own);
    assert ChainOk(H, s, org);
    IntactPrefix(H, org, Chain(s, org), |own|);
    StripSound(H, org, own);
  }

  /** The chain never forks: no two rows of a tenant, committed or in flight, follow
      the same row or are both first, so the unique index on (org_id, hash_prev) never
      refuses an append. */
  lemma ChainNeverForks(H: Hash, run: seq<Action>, org: string, i: nat, j: nat)
    requires Ideal(H) && Legal(H, INITIAL, run)
    requires i < j < |Chain(After(H, INITIAL, run), org)|
    ensures var chain := Chain(After(H, INITIAL, run), org);
            chain[i].hashPrev != chain[j].hashPrev
  {
    InitialHolds(H);
    RunKeeps(H, INITIAL, run);
    var s := After(H, INITIAL, run);
    assert ChainOk(H, s, org);
    NoForkIn(H, org, Chain(s, org), i, j);
  }

  lemma NoForkIn(H: Hash, org: string, chain: seq<Row>, i: nat, j: nat)
    requires Ideal(H) && Intact(H, org, chain) && UniqueIds(chain) && i < j < |chain|
    ensures chain[i].hashPrev != chain[j].hashPrev
  {
    assert Sound(H, org, chain, i) && Sound(H, org, chain, j);
    if i > 0 { DistinctDigests(H, org, chain, i - 1, j - 1); }
  }

  lemma RowIsHeld(H: Hash, s: State, t: nat, r: Row)
    requires Inv(H, s) && t in s.txs && (r in s.txs[t].flushed || r in s.txs[t].pending)
    ensures r in Held(s, r.org).0 || r in Held(s, r.org).1
  {
    OrgRowsIn(s.txs[t].flushed, r.org);
    OrgRowsIn(s.txs[t].pending, r.org);
  }

  lemma StripHolds(numbered: seq<Row>, pending: seq<Row>, r: Row)
    requires r in numbered || r in pending
    ensures r.(seqNo := 0) in Strip(numbered) + Strip(pending)
  {
    if r in numbered {
      var k :| 0 <= k < |numbered| && numbered[k] == r;
      assert (Strip(numbered) + Strip(pending))[k] == r.(seqNo := 0);
    } else {
      var k :| 0 <= k < |pending| && pending[k] == r;
      assert (Strip(numbered) + Strip(pending))[|numbered| + k] == r.(seqNo := 0);
    }
  }

  /** Every row of the tenant, committed or in flight, stands in that one chain. */
  lemma ChainHoldsEveryRow(H: Hash, run: seq<Action>, t: nat, r: Row)
    requires Legal(H, INITIAL, run)
    requires var s := After(H, INITIAL, run);
             r in s.committed || (t in s.txs && (r in s.txs[t].flushed || r in s.txs[t].pending))
    ensures r.(seqNo := 0) in Chain(After(H, INITIAL, run), r.org)
  {
    InitialHolds(H);
    RunKeeps(H, INITIAL, run);
    var s := After(H, INITIAL, run);
    NumberedIn(s, r.org);
    if r !in s.committed { RowIsHeld(H, s, t, r); }
    StripHolds(Numbered(s, r.org), Held(s, r.org).1, r);
  }

  // ---------------------------------------------------------------------------
  // What the rows record
  // ---------------------------------------------------------------------------

  /** The events appended in a run, with the tenants they were appended for. */
  ghost function Appended(H: Hash, s: State, run: seq<Action>): set<(string, Event)>
    requires Legal(H, s, run)
    decreases |run|
  {
    if run == [] then {}
    else
      (if run[0].Add? then {(s.txs[run[0].t].phase.org, run[0].event)} else {})
      + Appended(H, Apply(H, s, run[0]), run[1..])
  }

  ghost predicate IsRecord(r: Row, appended: set<(string, Event)>) {
    exists e :: (r.org, e) in appended && Records(r, r.org, e)
  }

  ghost predicate AllRecords(rows: seq<Row>, appended: set<(string, Event)>) {
    forall r :: r in rows ==> IsRecord(r, appended)
  }

  ghost predicate RecordsOnly(s: State, appended: set<(string, Event)>) {
    && AllRecords(s.committed, appended)
    && forall t :: t in s.txs ==> AllRecords(s.txs[t].flushed, appended) && AllRecords(s.txs[t].pending, appended)
  }

  lemma MoreAppended(rows: seq<Row>, fewer: set<(string, Event)>, more: set<(string, Event)>)
    requires AllRecords(rows, fewer) && fewer <= more
    ensures AllRecords(rows, more)
  {
    forall r | r in rows ensures IsRecord(r, more) {
      var e :| (r.org, e) in fewer && Records(r, r.org, e);
      assert (r.org, e) in more;
    }
  }

  lemma InsertRecords(tx: Tx, seqNo: int, appended: set<(string, Event)>)
    requires tx.pending != [] && AllRecords(tx.flushed, appended) && AllRecords(tx.pending, appended)
    ensures AllRecords(Inserted(tx, seqNo).flushed, appended) && AllRecords(Inserted(tx, seqNo).pending, appended)
  {
    var row := tx.pending[0];
    assert IsRecord(row, appended);
    var e :| (row.org, e) in appended && Records(row, row.org, e);
    assert Records(row.(seqNo := seqNo), row.org, e);
  }

  lemma AddRecords(H: Hash, tx: Tx, event: Event, appended: set<(string, Event)>)
    requires tx.phase.HasTail? && AllRecords(tx.pending, appended)
    ensures AllRecords(tx.pending + [NewRow(H, tx.phase.org, tx.phase.prev, event)],
                       appended + {(tx.phase.org, event)})
  {
    var more := appended + {(tx.phase.org, event)};
    MoreAppended(tx.pending, appended, more);
    NewRowIs(H, tx.phase.org, tx.phase.prev, event);
    assert (tx.phase.org, event) in more;
  }

  lemma RecordsStep(H: Hash, s: State, a: Action, appended: set<(string, Event)>)
    requires RecordsOnly(s, appended) && Enabled(s, a)
    ensures RecordsOnly(Apply(H, s, a), appended + if a.Add? then {(s.txs[a.t].phase.org, a.event)} else {})
  {
    var s' := Apply(H, s, a);
    var more := appended + if a.Add? then {(s.txs[a.t].phase.org, a.event)} else {};
    if a.InsertOne? { InsertRecords(s.txs[a.t], s.nextSeq + a.gap, appended); }
    if a.Add? { AddRecords(H, s.txs[a.t], a.event, appended); }
    MoreAppended(s.committed, appended, more);
    forall t | t in s.txs
      ensures AllRecords(s.txs[t].flushed, more) && AllRecords(s.txs[t].pending, more)
    {
      MoreAppended(s.txs[t].flushed, appended, more);
      MoreAppended(s.txs[t].pending, appended, more);
    }
    assert !a.Add? ==> more == appended;
  }

  lemma {:induction false} RecordsRun(H: Hash, s: State, run: seq<Action>, appended: set<(string, Event)>)
    requires RecordsOnly(s, appended) && Legal(H, s, run)
    ensures RecordsOnly(After(H, s, run), appended + Appended(H, s, run))
    decreases |run|
  {
    if run == [] {
      assert appended + Appended(H, s, run) == appended;
    } else {
      RecordsStep(H, s, run[0], appended);
      var more := appended + if run[0].Add? then {(s.txs[run[0].t].phase.org, run[0].event)} else {};
      RecordsRun(H, Apply(H, s, run[0]), run[1..], more);
      assert more + Appended(H, Apply(H, s, run[0]), run[1..]) == appended + Appended(H, s, run);
    }
  }

  /** In every run, every committed row records, in each of its columns, an event that was
      appended for its tenant. */
  lemma EveryRowRecordsAnEvent(H: Hash, run: seq<Action>, r: Row)
    requires Legal(H, INITIAL, run) && r in After(H, INITIAL, run).committed
    ensures exists e :: (r.org, e) in Appended(H, INITIAL, run) && Records(r, r.org, e)
  {
    RecordsRun(H, INITIAL, run, {});
    assert {} + Appended(H, INITIAL, run) == Appended(H, INITIAL, run);
    assert IsRecord(r, Appended(H, INITIAL, run));
  }
}
