/** Transactions appending to the audit log (asas_audit/service.py) on Postgres: a
    per-tenant lock taken before the tail is read and held until the transaction ends,
    read committed isolation, and rollback at any point. One step is one statement. */
module AuditStore {
  import opened Wrappers
  import opened AuditChain

  /** Where a transaction stands inside `append`. */
  datatype Phase =
    | Free
    | Locked(org: string)
    | Flushed(org: string)
    | HasTail(org: string, prev: Option<Digest>)

  /** Rows inserted but not committed, rows added to the session but not flushed. */
  datatype Tx = Tx(flushed: seq<Row>, pending: seq<Row>, phase: Phase)

  datatype State = State(
    committed: seq<Row>,
    txs: map<nat, Tx>,
    locks: map<string, nat>,
    nextSeq: int,
    ids: set<string>)

  /** The arguments of `append`, its payload normalised, and the new row's UUID. */
  datatype Event = Event(
    id: string, actor: string, action: string, resourceType: string, resourceId: string, payload: string, when: Moment)

  datatype Action =
    | Begin(t: nat)
    | Lock(t: nat, org: string)
    | InsertOne(t: nat, gap: nat)
    | FlushDone(t: nat)
    | ReadTail(t: nat, found: Option<Row>)
    | Add(t: nat, event: Event)
    | Commit(t: nat)
    | Rollback(t: nat)

  const INITIAL := State([], map[], map[], 1, {})

  /** `ORDER BY seq DESC LIMIT 1` for one tenant. */
  ghost predicate IsTail(rows: seq<Row>, org: string, found: Option<Row>) {
    match found
    case None => forall r :: r in rows ==> r.org != org
    case Some(tail) =>
      tail in rows && tail.org == org && forall r :: r in rows && r.org == org ==> r.seqNo <= tail.seqNo
  }

  ghost predicate Enabled(s: State, a: Action) {
    match a
    case Begin(t) => t !in s.txs
    case Lock(t, org) => t in s.txs && s.txs[t].phase.Free? && (org in s.locks ==> s.locks[org] == t)
    case InsertOne(t, _) => t in s.txs && s.txs[t].pending != []
    case FlushDone(t) => t in s.txs && s.txs[t].phase.Locked? && s.txs[t].pending == []
    case ReadTail(t, found) =>
      t in s.txs && s.txs[t].phase.Flushed? && IsTail(s.committed + s.txs[t].flushed, s.txs[t].phase.org, found)
    case Add(t, event) => t in s.txs && s.txs[t].phase.HasTail? && event.id !in s.ids
    case Commit(t) => t in s.txs && s.txs[t].phase.Free? && s.txs[t].pending == []
    case Rollback(t) => t in s.txs
  }

  /** The row `append` builds on the tail it read; `seq` comes with the insert. */
  function NewRow(H: Hash, org: string, prev: Option<Digest>, e: Event): Row {
    var bare :=
      Row(0, e.id, org, e.actor, e.action, e.resourceType, e.resourceId, e.payload, Normalise(e.when), prev, []);
    bare.(hashCurrent := ComputeHash(H, prev, PayloadOf(org, bare)))
  }

  /** The row is the record of `e` for its tenant, its moment in UTC. */
  predicate Records(r: Row, org: string, e: Event) {
    && r.org == org && r.id == e.id && r.actor == e.actor && r.action == e.action
    && r.resourceType == e.resourceType && r.resourceId == e.resourceId && r.payload == e.payload
    && r.occurredAt == Aware(if e.when.Aware? then e.when.clock - e.when.offset else e.when.clock, 0)
  }

  /** The row's fingerprint covers each of these columns and the tail it was built on. */
  predicate Seals(H: Hash, r: Row, org: string, prev: Option<Digest>) {
    && r.hashPrev == prev
    && r.hashCurrent == H(if prev.Some? then prev.value else [],
         ChainPayload(id := r.id, org := org, actor := r.actor, action := r.action, resourceType := r.resourceType,
                      resourceId := r.resourceId, payload := r.payload,
                      occurredAt := if r.occurredAt.Aware? then r.occurredAt.clock - r.occurredAt.offset
                                    else r.occurredAt.clock))
  }

  lemma NewRowIs(H: Hash, org: string, prev: Option<Digest>, e: Event)
    ensures var r := NewRow(H, org, prev, e); Records(r, org, e) && Seals(H, r, org, prev) && r.seqNo == 0
  {
  }

  function Unlock(locks: map<string, nat>, t: nat): map<string, nat> {
    map org | org in locks && locks[org] != t :: locks[org]
  }

  /** The first pending row is inserted and gets its sequence number. */
  function Inserted(tx: Tx, seqNo: int): Tx
    requires tx.pending != []
  {
    tx.(flushed := tx.flushed + [tx.pending[0].(seqNo := seqNo)], pending := tx.pending[1..])
  }

  ghost function Apply(H: Hash, s: State, a: Action): State
    requires Enabled(s, a)
  {
    match a
    case Begin(t) => s.(txs := s.txs[t := Tx([], [], Free)])
    case Lock(t, org) => s.(locks := s.locks[org := t], txs := s.txs[t := s.txs[t].(phase := Locked(org))])
    case InsertOne(t, gap) =>
      s.(txs := s.txs[t := Inserted(s.txs[t], s.nextSeq + gap)], nextSeq := s.nextSeq + gap + 1)
    case FlushDone(t) => s.(txs := s.txs[t := s.txs[t].(phase := Flushed(s.txs[t].phase.org))])
    case ReadTail(t, found) =>
      var prev := if found.Some? then Some(found.value.hashCurrent) else None;
      s.(txs := s.txs[t := s.txs[t].(phase := HasTail(s.txs[t].phase.org, prev))])
    case Add(t, event) =>
      var tx := s.txs[t];
      var row := NewRow(H, tx.phase.org, tx.phase.prev, event);
      s.(txs := s.txs[t := tx.(pending := tx.pending + [row], phase := Free)], ids := s.ids + {event.id})
    case Commit(t) =>
      s.(committed := s.committed + s.txs[t].flushed, txs := s.txs - {t}, locks := Unlock(s.locks, t))
    case Rollback(t) => s.(txs := s.txs - {t}, locks := Unlock(s.locks, t))
  }

  ghost predicate Legal(H: Hash, s: State, run: seq<Action>)
    decreases |run|
  {
    run == [] || (Enabled(s, run[0]) && Legal(H, Apply(H, s, run[0]), run[1..]))
  }

  ghost function After(H: Hash, s: State, run: seq<Action>): State
    requires Legal(H, s, run)
    decreases |run|
  {
    if run == [] then s else After(H, Apply(H, s, run[0]), run[1..])
  }

  // ---------------------------------------------------------------------------
  // One tenant's rows
  // ---------------------------------------------------------------------------

  function OrgRows(rows: seq<Row>, org: string): seq<Row> {
    if rows == [] then []
    else OrgRows(rows[..|rows| - 1], org) + (if rows[|rows| - 1].org == org then [rows[|rows| - 1]] else [])
  }

  lemma {:induction false} OrgRowsIn(rows: seq<Row>, org: string)
    ensures forall r :: r in OrgRows(rows, org) <==> r in rows && r.org == org
  {
    if rows != [] {
      var n := |rows| - 1;
      OrgRowsIn(rows[..n], org);
      assert forall r :: r in rows <==> r in rows[..n] || r == rows[n];
    }
  }

  lemma {:induction false} OrgRowsConcat(a: seq<Row>, b: seq<Row>, org: string)
    ensures OrgRows(a + b, org) == OrgRows(a, org) + OrgRows(b, org)
  {
    if b == [] {
      assert a + b == a && OrgRows(a, org) + [] == OrgRows(a, org);
    } else {
      var init := b[..|b| - 1];
      assert (a + b)[..|a + b| - 1] == a + init;
      OrgRowsConcat(a, init, org);
    }
  }

  lemma OrgRowsNone(rows: seq<Row>, org: string)
    requires forall r :: r in rows ==> r.org != org
    ensures OrgRows(rows, org) == []
  {
    OrgRowsIn(rows, org);
    if OrgRows(rows, org) != [] { assert OrgRows(rows, org)[0] in OrgRows(rows, org); }
  }

  /** The rows without the sequence numbers the inserts gave them. */
  function Strip(rows: seq<Row>): (bare: seq<Row>)
    ensures |bare| == |rows| && forall i :: 0 <= i < |rows| ==> bare[i] == rows[i].(seqNo := 0)
  {
    seq(|rows|, i requires 0 <= i < |rows| => rows[i].(seqNo := 0))
  }

  lemma StripSound(H: Hash, org: string, rows: seq<Row>)
    ensures Intact(H, org, Strip(rows)) <==> Intact(H, org, rows)
  {
    forall i: nat | i < |rows|
      ensures Sound(H, org, Strip(rows), i) <==> Sound(H, org, rows, i)
    {
      assert PrevOf(Strip(rows), i) == PrevOf(rows, i);
    }
  }

  /** What the transaction holding a tenant's lock has added for it, inserted or not. */
  function Held(s: State, org: string): (seq<Row>, seq<Row>) {
    if org in s.locks && s.locks[org] in s.txs then
      (OrgRows(s.txs[s.locks[org]].flushed, org), OrgRows(s.txs[s.locks[org]].pending, org))
    else ([], [])
  }

  /** The tenant's rows that have a sequence number: committed, then the holder's. */
  function Numbered(s: State, org: string): seq<Row> {
    OrgRows(s.committed, org) + Held(s, org).0
  }

  /** The tenant's whole chain as its lock holder sees it. */
  function Chain(s: State, org: string): seq<Row> {
    Strip(Numbered(s, org)) + Strip(Held(s, org).1)
  }

  ghost predicate Ascending(rows: seq<Row>) {
    forall i, j :: 0 <= i < j < |rows| ==> rows[i].seqNo < rows[j].seqNo
  }

  // ---------------------------------------------------------------------------
  // Invariant
  // ---------------------------------------------------------------------------

  /** A transaction has rows only of tenants whose lock it holds. */
  ghost predicate LocksCover(s: State) {
    && (forall org :: org in s.locks ==> s.locks[org] in s.txs)
    && (forall t, r :: t in s.txs && r in s.txs[t].flushed ==> r.org in s.locks && s.locks[r.org] == t)
    && (forall t, r :: t in s.txs && r in s.txs[t].pending ==> r.org in s.locks && s.locks[r.org] == t)
  }

  ghost predicate NumbersOk(s: State) {
    && (forall r :: r in s.committed ==> r.seqNo < s.nextSeq)
    && (forall t, r :: t in s.txs && r in s.txs[t].flushed ==> r.seqNo < s.nextSeq)
    && (forall org :: Ascending(Numbered(s, org)))
  }

  ghost predicate ChainOk(H: Hash, s: State, org: string) {
    && Intact(H, org, Chain(s, org))
    && UniqueIds(Chain(s, org))
    && forall r :: r in Chain(s, org) ==> r.id in s.ids && r.org == org
  }

  ghost predicate PhaseOk(s: State, t: nat)
    requires t in s.txs
  {
    match s.txs[t].phase
    case Free => true
    case Locked(org) => org in s.locks && s.locks[org] == t
    case Flushed(org) => org in s.locks && s.locks[org] == t && s.txs[t].pending == []
    case HasTail(org, prev) =>
      && org in s.locks && s.locks[org] == t && s.txs[t].pending == []
      && prev == PrevOf(Chain(s, org), |Chain(s, org)|)
  }

  ghost predicate Inv(H: Hash, s: State) {
    && LocksCover(s)
    && NumbersOk(s)
    && (forall org :: ChainOk(H, s, org))
    && (forall t :: t in s.txs ==> PhaseOk(s, t))
  }
}
