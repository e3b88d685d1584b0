/** `append` as it runs on one session: wait for the tenant's lock, flush, read the tail,
    build the row, add it without committing; other transactions commit in between
    (asas_audit/service.py). */
module AuditSession {
  import opened Wrappers
  import opened AuditChain
  import opened AuditStore
  import AuditProofs

  /** Pending rows as the inserts number them. */
  function Numbering(pending: seq<Row>, next: int): seq<Row> {
    if pending == [] then [] else [pending[0].(seqNo := next)] + Numbering(pending[1..], next + 1)
  }

  function HashOf(tail: Option<Row>): Option<Digest> {
    if tail.Some? then Some(tail.value.hashCurrent) else None
  }

  class Session {
    /** What the session reads as committed. */
    var committed: seq<Row>
    var flushed: seq<Row>
    var pending: seq<Row>
    var nextSeq: int
    var locked: set<string>

    ghost predicate Valid()
      reads this
    {
      && (forall r :: r in committed + flushed ==> r.seqNo < nextSeq)
      && (forall org :: Ascending(OrgRows(committed + flushed, org)))
      && (forall r :: r in flushed ==> r.org in locked)
      && (forall r :: r in pending ==> r.seqNo == 0 && r.org in locked)
    }

    /** The tenant's rows in order, without sequence numbers. */
    ghost function Entries(org: string): seq<Row>
      reads `committed, `flushed, `pending
    {
      Strip(OrgRows(committed + flushed + pending, org))
    }

    constructor (committed: seq<Row>, nextSeq: int)
      requires forall r :: r in committed ==> r.seqNo < nextSeq
      requires forall org :: Ascending(OrgRows(committed, org))
      ensures Valid() && flushed == [] && pending == [] && this.committed == committed
    {
      this.committed, this.nextSeq := committed, nextSeq;
      flushed, pending, locked := [], [], {};
      new;
      assert committed + flushed == committed;
    }

    /** What other transactions may have committed since the last statement: rows of
        tenants this one has not locked, numbered after theirs. */
    ghost predicate MayArrive(arrived: seq<Row>, next: int)
      reads this
    {
      && nextSeq <= next
      && (forall r :: r in arrived ==> r.org !in locked && r.seqNo < next)
      && (forall org :: Ascending(OrgRows(committed + arrived, org)))
    }

    /** Others commit. */
    method OthersCommit(arrived: seq<Row>, next: int)
      requires Valid() && MayArrive(arrived, next)
      modifies this`committed, this`nextSeq
      ensures Valid() && committed == old(committed) + arrived && nextSeq == next
      ensures forall org :: Entries(org) == old(Entries(org)) + Strip(OrgRows(arrived, org))
    {
      ghost var before, rows := committed, committed + flushed + pending;
      forall org
        ensures Ascending(OrgRows(before + arrived + flushed, org))
        ensures Strip(OrgRows(before + arrived + flushed + pending, org))
                == Strip(OrgRows(rows, org)) + Strip(OrgRows(arrived, org))
      {
        if org in locked { OrgRowsNone(arrived, org); } else { OrgRowsNone(flushed, org); OrgRowsNone(pending, org); }
        ArrivedRows(before, arrived, flushed, pending, org);
      }
      committed, nextSeq := committed + arrived, next;
    }

    /** The advisory lock, kept to the end of the transaction; others may commit, for this
        tenant too, before it is granted. */
    method Take(org: string, arrived: seq<Row>, next: int)
      requires Valid() && MayArrive(arrived, next)
      modifies this`locked, this`committed, this`nextSeq
      ensures Valid() && locked == old(locked) + {org} && committed == old(committed) + arrived && nextSeq == next
      ensures forall other :: Entries(other) == old(Entries(other)) + Strip(OrgRows(arrived, other))
    {
      OthersCommit(arrived, next);
      locked := locked + {org};
    }

    /** The first pending row is inserted and gets the next sequence number. */
    method InsertFirst()
      requires Valid() && pending != []
      modifies this`flushed, this`pending, this`nextSeq
      ensures Valid() && pending == old(pending)[1..] && nextSeq == old(nextSeq) + 1
      ensures flushed == old(flushed) + [old(pending)[0].(seqNo := old(nextSeq))]
      ensures forall org :: Entries(org) == old(Entries(org))
    {
      ghost var visible, bare := committed + flushed, pending[0];
      var row := pending[0].(seqNo := nextSeq);
      assert bare in pending && pending == [bare] + pending[1..];
      flushed, pending, nextSeq := flushed + [row], pending[1..], nextSeq + 1;
      assert committed + flushed == visible + [row];
      InsertedRow(visible, row, bare, pending);
    }

    /** `session.flush()`: pending rows are inserted in order. */
    method Flush()
      requires Valid()
      modifies this`flushed, this`pending, this`nextSeq
      ensures Valid() && pending == [] && locked == old(locked)
      ensures nextSeq == old(nextSeq) + |old(pending)|
              && flushed == old(flushed) + Numbering(old(pending), old(nextSeq))
      ensures forall org :: Entries(org) == old(Entries(org))
    {
      while pending != []
        invariant Valid() && nextSeq + |pending| == old(nextSeq) + |old(pending)|
        invariant flushed + Numbering(pending, nextSeq) == old(flushed) + Numbering(old(pending), old(nextSeq))
        invariant forall org :: Entries(org) == old(Entries(org))
        decreases |pending|
      {
        ghost var before, row := flushed, pending[0].(seqNo := nextSeq);
        InsertFirst();
        assert before + ([row] + Numbering(pending, nextSeq)) == flushed + Numbering(pending, nextSeq);
      }
    }

    /** The newest visible row of the tenant. */
    method Tail(org: string) returns (tail: Option<Row>)
      ensures IsTail(committed + flushed, org, tail)
    {
      tail := None;
      var visible := committed + flushed;
      for i := 0 to |visible|
        invariant IsTail(visible[..i], org, tail)
      {
        assert visible[..i + 1] == visible[..i] + [visible[i]];
        if visible[i].org == org && (tail.None? || tail.value.seqNo < visible[i].seqNo) {
          tail := Some(visible[i]);
        }
      }
      assert visible[..|visible|] == visible;
    }

    /** `session.add(row)` for a row built on the tail just read. */
    method Add(H: Hash, org: string, tail: Option<Row>, event: Event) returns (row: Row)
      requires Valid() && pending == [] && org in locked && IsTail(committed + flushed, org, tail)
      modifies this`pending
      ensures Valid()
      ensures row == NewRow(H, org, PrevOf(old(Entries(org)), |old(Entries(org))|), event)
      ensures pending == [row] && row == NewRow(H, org, HashOf(tail), event)
      ensures Records(row, org, event)
              && Seals(H, row, org, StoredBefore(old(Entries(org)), |old(Entries(org))|))
      ensures forall other :: Entries(other) == if other == org then old(Entries(org)) + [row] else old(Entries(other))
      ensures Intact(H, org, old(Entries(org))) ==> Intact(H, org, Entries(org))
    {
      ghost var visible := committed + flushed;
      assert committed + flushed + pending == visible;
      AppendedRow(H, visible, org, tail, event);
      NewRowIs(H, org, HashOf(tail), event);
      row := NewRow(H, org, if tail.Some? then Some(tail.value.hashCurrent) else None, event);
      pending := [row];
    }

    /** The new row chains to the tenant's last entry once the lock is granted, whatever
        others committed before, this transaction's own entries included. Every other
        tenant's entries grow only by what others committed, and an intact chain stays
        intact. */
    method Append(H: Hash, org: string, event: Event, arrived: seq<Row>, next: int, later: seq<Row>, last: int)
      returns (row: Row, ghost tail: Option<Row>)
      requires Valid() && MayArrive(arrived, next)
      requires next + |pending| <= last && forall r :: r in later ==> r.org !in locked && r.org != org && r.seqNo < last
      requires forall other :: Ascending(OrgRows(committed + arrived + later, other))
      modifies this
      ensures Valid() && committed == old(committed) + arrived + later && nextSeq == last
              && locked == old(locked) + {org}
      ensures flushed == old(flushed) + Numbering(old(pending), next) && pending == [row]
      ensures IsTail(committed + flushed, org, tail) && row == NewRow(H, org, HashOf(tail), event)
      ensures var was := old(Entries(org)) + Strip(OrgRows(arrived, org));
              && row == NewRow(H, org, PrevOf(was, |was|), event)
              && Records(row, org, event)
              && Seals(H, row, org, StoredBefore(was, |was|))
              && Entries(org) == was + [row]
              && (Intact(H, org, was) ==> Intact(H, org, Entries(org)))
      ensures forall other :: other != org ==>
                Entries(other) == old(Entries(other)) + Strip(OrgRows(arrived, other)) + Strip(OrgRows(later, other))
    {
      Prepare(org, arrived, next, later, last);
      var found := Tail(org);
      tail := found;
      row := Add(H, org, found, event);
    }

    /** Up to the tail read: the lock, the flush, and what others commit around them. */
    method Prepare(org: string, arrived: seq<Row>, next: int, later: seq<Row>, last: int)
      requires Valid() && MayArrive(arrived, next)
      requires next + |pending| <= last && forall r :: r in later ==> r.org !in locked && r.org != org && r.seqNo < last
      requires forall other :: Ascending(OrgRows(committed + arrived + later, other))
      modifies this
      ensures Valid() && committed == old(committed) + arrived + later && nextSeq == last
              && locked == old(locked) + {org}
      ensures flushed == old(flushed) + Numbering(old(pending), next) && pending == []
      ensures Entries(org) == old(Entries(org)) + Strip(OrgRows(arrived, org))
      ensures forall other ::
                Entries(other) == old(Entries(other)) + Strip(OrgRows(arrived, other)) + Strip(OrgRows(later, other))
    {
      Take(org, arrived, next);
      Flush();
      OthersCommit(later, last);
      OrgRowsNone(later, org);
      assert old(Entries(org)) + Strip(OrgRows(arrived, org)) + [] == old(Entries(org)) + Strip(OrgRows(arrived, org));
    }
  }

  lemma StripConcat(a: seq<Row>, b: seq<Row>)
    ensures Strip(a + b) == Strip(a) + Strip(b)
  {
  }

  lemma FourParts(a: seq<Row>, b: seq<Row>, c: seq<Row>, d: seq<Row>, org: string)
    ensures OrgRows(a + b + c + d, org) == OrgRows(a, org) + OrgRows(b, org) + OrgRows(c, org) + OrgRows(d, org)
    ensures OrgRows(a + b + c, org) == OrgRows(a, org) + OrgRows(b, org) + OrgRows(c, org)
    ensures OrgRows(a + c + d, org) == OrgRows(a, org) + OrgRows(c, org) + OrgRows(d, org)
    ensures OrgRows(a + b, org) == OrgRows(a, org) + OrgRows(b, org)
            && OrgRows(a + c, org) == OrgRows(a, org) + OrgRows(c, org)
  {
    OrgRowsConcat(a, b, org);
    OrgRowsConcat(a + b, c, org);
    OrgRowsConcat(a + b + c, d, org);
    OrgRowsConcat(a, c, org);
    OrgRowsConcat(a + c, d, org);
  }

  /** Arrived rows are of tenants that are not locked, so they come after no row of the
      transaction's own. */
  lemma ArrivedRows(before: seq<Row>, arrived: seq<Row>, flushed: seq<Row>, pending: seq<Row>, org: string)
    requires OrgRows(arrived, org) == [] || (OrgRows(flushed, org) == [] && OrgRows(pending, org) == [])
    ensures OrgRows(before + arrived + flushed, org)
         == OrgRows(if OrgRows(arrived, org) == [] then before + flushed else before + arrived, org)
    ensures Strip(OrgRows(before + arrived + flushed + pending, org))
         == Strip(OrgRows(before + flushed + pending, org)) + Strip(OrgRows(arrived, org))
  {
    FourParts(before, arrived, flushed, pending, org);
    var own := OrgRows(before, org);
    assert own + [] == own;
    if OrgRows(arrived, org) == [] {
      assert OrgRows(before + arrived + flushed, org) == OrgRows(before + flushed, org);
      assert OrgRows(before + arrived + flushed + pending, org) == OrgRows(before + flushed + pending, org) + [];
    } else {
      assert OrgRows(before + arrived + flushed, org) == OrgRows(before + arrived, org);
      assert OrgRows(before + arrived + flushed + pending, org) == own + OrgRows(arrived, org);
      assert OrgRows(before + flushed + pending, org) == own;
    }
    StripConcat(OrgRows(before + flushed + pending, org), OrgRows(arrived, org));
  }

  /** A row built on the tail of the visible rows extends its tenant's entries only. */
  lemma AppendedRow(H: Hash, visible: seq<Row>, org: string, tail: Option<Row>, event: Event)
    requires IsTail(visible, org, tail) && Ascending(OrgRows(visible, org))
    ensures var was := Strip(OrgRows(visible, org));
            var row := NewRow(H, org, if tail.Some? then Some(tail.value.hashCurrent) else None, event);
            && row == NewRow(H, org, PrevOf(was, |was|), event)
            && (forall other ::
                  Strip(OrgRows(visible + [row], other)) ==
                  if other == org then was + [row] else Strip(OrgRows(visible, other)))
            && (Intact(H, org, was) ==> Intact(H, org, was + [row]))
  {
    var was := Strip(OrgRows(visible, org));
    var row := NewRow(H, org, if tail.Some? then Some(tail.value.hashCurrent) else None, event);
    AuditProofs.TailIsLast(visible, org, tail);
    forall other
      ensures Strip(OrgRows(visible + [row], other)) ==
                if other == org then was + [row] else Strip(OrgRows(visible, other))
    {
      AuditProofs.OrgRowsSnoc(visible, row, other);
    }
    if Intact(H, org, was) { AuditProofs.IntactExtends(H, org, was, row); }
  }

  lemma InsertedRow(before: seq<Row>, row: Row, bare: Row, rest: seq<Row>)
    requires row == bare.(seqNo := row.seqNo) && bare.seqNo == 0
    requires forall r :: r in before ==> r.seqNo < row.seqNo
    requires forall org :: Ascending(OrgRows(before, org))
    ensures forall org :: Ascending(OrgRows(before + [row], org))
    ensures forall org :: Strip(OrgRows(before + [row] + rest, org)) == Strip(OrgRows(before + ([bare] + rest), org))
  {
    forall org
      ensures Ascending(OrgRows(before + [row], org))
      ensures Strip(OrgRows(before + [row] + rest, org)) == Strip(OrgRows(before + ([bare] + rest), org))
    {
      AuditProofs.OrgRowsSnoc(before, row, org);
      OrgRowsIn(before, org);
      RestampedRow(before, row, bare, rest, org);
    }
  }

  /** Giving a row its sequence number does not change the entries. */
  lemma RestampedRow(before: seq<Row>, row: Row, bare: Row, rest: seq<Row>, org: string)
    requires row == bare.(seqNo := row.seqNo) && bare.seqNo == 0
    ensures Strip(OrgRows(before + [row] + rest, org)) == Strip(OrgRows(before + ([bare] + rest), org))
  {
    assert before + ([bare] + rest) == before + [bare] + rest;
    StripParts(before, row, rest, org);
    StripParts(before, bare, rest, org);
  }

  lemma StripParts(before: seq<Row>, row: Row, rest: seq<Row>, org: string)
    ensures Strip(OrgRows(before + [row] + rest, org)) ==
              Strip(OrgRows(before, org)) + (if row.org == org then [row.(seqNo := 0)] else [])
                + Strip(OrgRows(rest, org))
  {
    OrgRowsConcat(before + [row], rest, org);
    AuditProofs.OrgRowsSnoc(before, row, org);
    StripConcat(OrgRows(before + [row], org), OrgRows(rest, org));
    if row.org == org { AuditProofs.StripSnoc(OrgRows(before, org), row); }
  }

  // ---------------------------------------------------------------------------
  // A call is part of a run
  // ---------------------------------------------------------------------------

  lemma {:induction false} Concat(H: Hash, s: State, first: seq<Action>, second: seq<Action>)
    requires Legal(H, s, first) && Legal(H, After(H, s, first), second)
    ensures Legal(H, s, first + second) && After(H, s, first + second) == After(H, After(H, s, first), second)
    decreases |first|
  {
    if first == [] {
      assert first + second == second;
    } else {
      Concat(H, Apply(H, s, first[0]), first[1..], second);
      assert (first + second)[1..] == first[1..] + second;
    }
  }

  /** A run from one state to the other. */
  ghost predicate Leads(H: Hash, s: State, run: seq<Action>, end: State) {
    Legal(H, s, run) && After(H, s, run) == end
  }

  lemma Then(H: Hash, s: State, run: seq<Action>, mid: State, a: Action, end: State) returns (longer: seq<Action>)
    requires Leads(H, s, run, mid) && Enabled(mid, a) && Apply(H, mid, a) == end
    ensures Leads(H, s, longer, end)
  {
    assert [a][1..] == [];
    Concat(H, s, run, [a]);
    longer := run + [a];
  }

  /** The inserts of a flush, one after the other. */
  lemma {:induction false} FlushIsARun(H: Hash, start: State, run: seq<Action>, s: State, t: nat)
    returns (longer: seq<Action>, end: State)
    requires Leads(H, start, run, s) && t in s.txs
    ensures Leads(H, start, longer, end)
    ensures var tx := s.txs[t];
            end == s.(nextSeq := s.nextSeq + |tx.pending|,
                      txs := s.txs[t := tx.(flushed := tx.flushed + Numbering(tx.pending, s.nextSeq), pending := [])])
    decreases |s.txs[t].pending|
  {
    var tx := s.txs[t];
    if tx.pending == [] {
      longer, end := run, s;
      assert tx.flushed + [] == tx.flushed;
      assert s.txs[t := tx] == s.txs;
    } else {
      var next := s.(nextSeq := s.nextSeq + 1, txs := s.txs[t := Inserted(tx, s.nextSeq)]);
      longer := Then(H, start, run, s, InsertOne(t, 0), next);
      longer, end := FlushIsARun(H, start, longer, next, t);
      assert Inserted(tx, s.nextSeq).flushed + Numbering(tx.pending[1..], s.nextSeq + 1)
             == tx.flushed + Numbering(tx.pending, s.nextSeq);
      assert s.txs[t := Inserted(tx, s.nextSeq)][t := end.txs[t]] == s.txs[t := end.txs[t]];
    }
  }

  /** What the lock, the flush and its end make of transaction `t`. */
  ghost predicate ReadyToRead(s: State, mid: State, t: nat, org: string) {
    && t in s.txs
    && var tx := s.txs[t];
       mid == s.(nextSeq := s.nextSeq + |tx.pending|, locks := s.locks[org := t],
                 txs := s.txs[t := Tx(tx.flushed + Numbering(tx.pending, s.nextSeq), [], Flushed(org))])
  }

  lemma LockAndFlush(H: Hash, start: State, run: seq<Action>, s: State, t: nat, org: string)
    returns (longer: seq<Action>, mid: State)
    requires Leads(H, start, run, s) && Enabled(s, Lock(t, org))
    ensures Leads(H, start, longer, mid) && ReadyToRead(s, mid, t, org)
  {
    var locked := s.(locks := s.locks[org := t], txs := s.txs[t := s.txs[t].(phase := Locked(org))]);
    longer := Then(H, start, run, s, Lock(t, org), locked);
    longer, mid := FlushIsARun(H, start, longer, locked, t);
    var ready := mid.(txs := mid.txs[t := mid.txs[t].(phase := Flushed(org))]);
    longer := Then(H, start, longer, mid, FlushDone(t), ready);
    mid := ready;
    assert mid.txs == s.txs[t := mid.txs[t]];
  }

  /** One `append` of transaction `t`, others taking their steps before the lock is granted
      and again before the tail is read, is part of a run; and it leaves the transaction as
      the session's `Append` leaves the session. */
  lemma AppendIsARun(
    H: Hash, s: State, t: nat, org: string, event: Event, before: seq<Action>, between: seq<Action>, mid: State,
    tail: Option<Row>)
    returns (run: seq<Action>)
    requires Legal(H, s, before) && Enabled(After(H, s, before), Lock(t, org))
    requires t in s.txs && After(H, s, before).txs[t] == s.txs[t]
    requires ReadyToRead(After(H, s, before), mid, t, org) && Legal(H, mid, between)
    requires var late := After(H, mid, between);
             && t in late.txs && late.txs[t] == mid.txs[t]
             && IsTail(late.committed + late.txs[t].flushed, org, tail) && event.id !in late.ids
    ensures Legal(H, s, run)
    ensures var late, end := After(H, mid, between), After(H, s, run);
            && end.committed == late.committed && end.locks == late.locks && end.nextSeq == late.nextSeq
            && end.txs == late.txs[t := Tx(mid.txs[t].flushed, [NewRow(H, org, HashOf(tail), event)], Free)]
  {
    var s1 := After(H, s, before);
    var ready;
    run, ready := LockAndFlush(H, s, before, s1, t, org);
    Concat(H, s, run, between);
    run := run + between;
    var late := After(H, mid, between);
    var read := late.(txs := late.txs[t := late.txs[t].(phase := HasTail(org, HashOf(tail)))]);
    run := Then(H, s, run, late, ReadTail(t, tail), read);
    var end := Apply(H, read, Add(t, event));
    run := Then(H, s, run, read, Add(t, event), end);
    assert [] + [NewRow(H, org, HashOf(tail), event)] == [NewRow(H, org, HashOf(tail), event)];
    assert end.txs == late.txs[t := end.txs[t]];
  }
}
