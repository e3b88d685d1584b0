/** The hash chain of the audit log and its verifier (asas_audit/chain.py). */
module AuditChain {
  import opened Wrappers

  type Digest = seq<bv8>

  /** A datetime with or without a timezone, as clock seconds and UTC offset. */
  datatype Moment = Naive(clock: int) | Aware(clock: int, offset: int)

  /** A naive value is read as UTC. */
  function Canonical(m: Moment): int {
    match m
    case Naive(clock) => clock
    case Aware(clock, offset) => clock - offset
  }

  /** A stored row; `payload` is its canonical encoding. */
  datatype Row = Row(
    seqNo: int, id: string, org: string, actor: string, action: string, resourceType: string, resourceId: string,
    payload: string, occurredAt: Moment, hashPrev: Option<Digest>, hashCurrent: Digest)

  /** Exactly what gets hashed. */
  datatype ChainPayload = ChainPayload(
    id: string, org: string, actor: string, action: string, resourceType: string, resourceId: string,
    payload: string, occurredAt: int)

  /** The payload is rebuilt for the tenant being verified, not the row's own column. */
  function PayloadOf(org: string, r: Row): ChainPayload {
    ChainPayload(r.id, org, r.actor, r.action, r.resourceType, r.resourceId, r.payload, Canonical(r.occurredAt))
  }

  /** A hash of a prefix and an encoded payload. */
  type Hash = (Digest, ChainPayload) -> Digest

  /** The ideal hash: no collisions, and no empty digest. */
  ghost predicate Ideal(H: Hash) {
    && (forall p, x {:trigger H(p, x)} :: H(p, x) != [])
    && (forall p, x, q, y {:trigger H(p, x), H(q, y)} :: H(p, x) == H(q, y) ==> p == q && x == y)
  }

  /** `hash_prev or b""`, then the payload. */
  function ComputeHash(H: Hash, prev: Option<Digest>, x: ChainPayload): Digest {
    H(if prev.Some? then prev.value else [], x)
  }

  datatype Divergence = Unlinked | Edited

  datatype ChainBreak = ChainBreak(
    eventId: string, seqNo: int, action: string, expected: Digest, stored: Digest, detail: Divergence)

  datatype VerifyReport = VerifyReport(org: string, checked: nat, breaks: seq<ChainBreak>)

  // ---------------------------------------------------------------------------
  // What a sound row is
  // ---------------------------------------------------------------------------

  function PrevOf(rows: seq<Row>, i: nat): Option<Digest>
    requires i <= |rows|
  {
    if i == 0 then None else Some(rows[i - 1].hashCurrent)
  }

  function ExpectedAt(H: Hash, org: string, rows: seq<Row>, i: nat): Digest
    requires i < |rows|
  {
    ComputeHash(H, PrevOf(rows, i), PayloadOf(org, rows[i]))
  }

  predicate Linked(rows: seq<Row>, i: nat)
    requires i < |rows|
  {
    rows[i].hashPrev == PrevOf(rows, i)
  }

  predicate Genuine(H: Hash, org: string, rows: seq<Row>, i: nat)
    requires i < |rows|
  {
    rows[i].hashCurrent == ExpectedAt(H, org, rows, i)
  }

  /** The row links to the one before it and hashes to its stored fingerprint. */
  predicate Sound(H: Hash, org: string, rows: seq<Row>, i: nat)
    requires i < |rows|
  {
    Linked(rows, i) && Genuine(H, org, rows, i)
  }

  ghost predicate Intact(H: Hash, org: string, rows: seq<Row>) {
    forall i: nat :: i < |rows| ==> Sound(H, org, rows, i)
  }

  function BreakAt(H: Hash, org: string, rows: seq<Row>, i: nat): ChainBreak
    requires i < |rows|
  {
    ChainBreak(rows[i].id, rows[i].seqNo, rows[i].action, ExpectedAt(H, org, rows, i), rows[i].hashCurrent,
               if Linked(rows, i) then Edited else Unlinked)
  }

  /** The positions below `n` that are not sound. */
  function Unsound(H: Hash, org: string, rows: seq<Row>, n: nat): seq<nat>
    requires n <= |rows|
  {
    if n == 0 then []
    else Unsound(H, org, rows, n - 1) + (if Sound(H, org, rows, n - 1) then [] else [n - 1])
  }

  /** `at` lists exactly the unsound positions below `n`, in order. */
  predicate IsUnsound(H: Hash, org: string, rows: seq<Row>, n: nat, at: seq<nat>) {
    && (forall k :: 0 <= k < |at| ==> at[k] < n && at[k] < |rows| && !Sound(H, org, rows, at[k]))
    && (forall j, k :: 0 <= j < k < |at| ==> at[j] < at[k])
    && (forall i :: 0 <= i < n && i < |rows| && !Sound(H, org, rows, i) ==> i in at)
  }

  lemma IsUnsoundNext(H: Hash, org: string, rows: seq<Row>, n: nat, at: seq<nat>)
    requires n < |rows| && IsUnsound(H, org, rows, n, at)
    ensures IsUnsound(H, org, rows, n + 1, if Sound(H, org, rows, n) then at else at + [n])
  {
    var more := if Sound(H, org, rows, n) then at else at + [n];
    forall i | 0 <= i < n + 1 && !Sound(H, org, rows, i)
      ensures i in more
    {
      if i == n { assert more[|at|] == n; } else { assert i in at; }
    }
  }

  lemma UnsoundNext(H: Hash, org: string, rows: seq<Row>, n: nat)
    requires n < |rows| && IsUnsound(H, org, rows, n, Unsound(H, org, rows, n))
    ensures IsUnsound(H, org, rows, n + 1, Unsound(H, org, rows, n + 1))
  {
    var at := Unsound(H, org, rows, n);
    IsUnsoundNext(H, org, rows, n, at);
    assert at + [] == at;
  }

  lemma {:induction false} UnsoundIs(H: Hash, org: string, rows: seq<Row>, n: nat)
    requires n <= |rows|
    ensures IsUnsound(H, org, rows, n, Unsound(H, org, rows, n))
  {
    for i := 0 to n
      invariant IsUnsound(H, org, rows, i, Unsound(H, org, rows, i))
    {
      UnsoundNext(H, org, rows, i);
    }
  }

  function BreaksOf(H: Hash, org: string, rows: seq<Row>, n: nat): seq<ChainBreak>
    requires n <= |rows|
  {
    if n == 0 then []
    else BreaksOf(H, org, rows, n - 1) + (if Sound(H, org, rows, n - 1) then [] else [BreakAt(H, org, rows, n - 1)])
  }

  predicate BreaksAt(H: Hash, org: string, rows: seq<Row>, breaks: seq<ChainBreak>, at: seq<nat>) {
    |breaks| == |at| && forall k :: 0 <= k < |at| ==> at[k] < |rows| && breaks[k] == BreakAt(H, org, rows, at[k])
  }

  lemma {:induction false} BreaksAreAtUnsound(H: Hash, org: string, rows: seq<Row>, n: nat)
    requires n <= |rows|
    ensures BreaksAt(H, org, rows, BreaksOf(H, org, rows, n), Unsound(H, org, rows, n))
  {
    for i := 0 to n
      invariant BreaksAt(H, org, rows, BreaksOf(H, org, rows, i), Unsound(H, org, rows, i))
    {
    }
  }

  lemma NoneUnsoundIffIntact(H: Hash, org: string, rows: seq<Row>)
    ensures Unsound(H, org, rows, |rows|) == [] <==> Intact(H, org, rows)
  {
    UnsoundIs(H, org, rows, |rows|);
    var at := Unsound(H, org, rows, |rows|);
    if at != [] { assert !Sound(H, org, rows, at[0]); }
  }

  /** The fingerprint stored in the row before. */
  function StoredBefore(rows: seq<Row>, i: nat): Option<Digest>
    requires i <= |rows|
  {
    if i == 0 then None else Some(rows[i - 1].hashCurrent)
  }

  /** What row `i` should hash to, column by column: its tenant is the one verified for. */
  function Fingerprint(H: Hash, org: string, rows: seq<Row>, i: nat): Digest
    requires i < |rows|
  {
    var r := rows[i];
    var moment := if r.occurredAt.Aware? then r.occurredAt.clock - r.occurredAt.offset else r.occurredAt.clock;
    H(if i == 0 then [] else rows[i - 1].hashCurrent,
      ChainPayload(id := r.id, org := org, actor := r.actor, action := r.action, resourceType := r.resourceType,
                   resourceId := r.resourceId, payload := r.payload, occurredAt := moment))
  }

  /** The break reports the row it found, both hashes, and which check failed first. */
  predicate Reports(H: Hash, org: string, rows: seq<Row>, i: nat, b: ChainBreak) {
    && i < |rows|
    && b.eventId == rows[i].id && b.seqNo == rows[i].seqNo && b.action == rows[i].action
    && b.stored == rows[i].hashCurrent && b.expected == Fingerprint(H, org, rows, i)
    && (if rows[i].hashPrev != StoredBefore(rows, i) then b.detail == Unlinked
        else b.detail == Edited && b.expected != b.stored)
  }

  /** The breaks report exactly the rows that do not link or do not hash to what they hold. */
  predicate ReportsAll(H: Hash, org: string, rows: seq<Row>, breaks: seq<ChainBreak>, at: seq<nat>) {
    && |breaks| == |at|
    && (forall k :: 0 <= k < |at| ==> Reports(H, org, rows, at[k], breaks[k]))
    && (forall i: nat :: i < |rows| ==>
          (i in at <==> rows[i].hashPrev != StoredBefore(rows, i)
                        || rows[i].hashCurrent != Fingerprint(H, org, rows, i)))
  }

  lemma SoundInColumns(H: Hash, org: string, rows: seq<Row>, i: nat)
    requires i < |rows|
    ensures Sound(H, org, rows, i) <==>
              rows[i].hashPrev == StoredBefore(rows, i) && rows[i].hashCurrent == Fingerprint(H, org, rows, i)
    ensures !Sound(H, org, rows, i) ==> Reports(H, org, rows, i, BreakAt(H, org, rows, i))
  {
  }

  lemma BreaksReport(H: Hash, org: string, rows: seq<Row>, breaks: seq<ChainBreak>, at: seq<nat>)
    requires IsUnsound(H, org, rows, |rows|, at) && BreaksAt(H, org, rows, breaks, at)
    ensures ReportsAll(H, org, rows, breaks, at)
  {
    forall i: nat | i < |rows|
      ensures i in at <==> !Sound(H, org, rows, i)
      ensures Sound(H, org, rows, i) <==>
                rows[i].hashPrev == StoredBefore(rows, i) && rows[i].hashCurrent == Fingerprint(H, org, rows, i)
    {
      SoundInColumns(H, org, rows, i);
    }
    forall k | 0 <= k < |at|
      ensures Reports(H, org, rows, at[k], breaks[k])
    {
      SoundInColumns(H, org, rows, at[k]);
    }
  }

  /** `verify_rows`: one break per unsound row, in order, chaining off what is stored. */
  method VerifyRows(H: Hash, org: string, rows: seq<Row>) returns (report: VerifyReport, ghost at: seq<nat>)
    ensures report.org == org && report.checked == |rows|
    ensures IsUnsound(H, org, rows, |rows|, at) && BreaksAt(H, org, rows, report.breaks, at)
    ensures report.breaks == [] <==> Intact(H, org, rows)
    ensures ReportsAll(H, org, rows, report.breaks, at)
  {
    var breaks: seq<ChainBreak> := [];
    var prev: Option<Digest> := None;
    var checked := 0;
    for i := 0 to |rows|
      invariant checked == i && prev == PrevOf(rows, i)
      invariant breaks == BreaksOf(H, org, rows, i)
    {
      var row := rows[i];
      var expected := ComputeHash(H, prev, PayloadOf(org, row));
      if row.hashPrev != prev {
        breaks := breaks + [ChainBreak(row.id, row.seqNo, row.action, expected, row.hashCurrent, Unlinked)];
      } else if expected != row.hashCurrent {
        breaks := breaks + [ChainBreak(row.id, row.seqNo, row.action, expected, row.hashCurrent, Edited)];
      }
      prev := Some(row.hashCurrent);
      checked := checked + 1;
    }
    report, at := VerifyReport(org, checked, breaks), Unsound(H, org, rows, |rows|);
    UnsoundIs(H, org, rows, |rows|);
    BreaksAreAtUnsound(H, org, rows, |rows|);
    NoneUnsoundIffIntact(H, org, rows);
    BreaksReport(H, org, rows, report.breaks, at);
  }

  // ---------------------------------------------------------------------------
  // The tail hash fixes the whole history
  // ---------------------------------------------------------------------------

  /** The two moments are the same instant; one without a timezone is UTC. */
  predicate SameInstant(a: Moment, b: Moment) {
    a.clock - (if a.Aware? then a.offset else 0) == b.clock - (if b.Aware? then b.offset else 0)
  }

  /** The rows agree in every column that is hashed. */
  predicate SameColumns(a: Row, b: Row) {
    && a.id == b.id && a.actor == b.actor && a.action == b.action && a.resourceType == b.resourceType
    && a.resourceId == b.resourceId && a.payload == b.payload && SameInstant(a.occurredAt, b.occurredAt)
  }

  /** Two rows agree in every hashed column and in both fingerprints. */
  predicate Agree(a: Row, b: Row) {
    SameColumns(a, b) && a.hashPrev == b.hashPrev && a.hashCurrent == b.hashCurrent
  }

  lemma IntactPrefix(H: Hash, org: string, rows: seq<Row>, n: nat)
    requires Intact(H, org, rows) && n <= |rows|
    ensures Intact(H, org, rows[..n])
  {
    forall i: nat | i < n
      ensures Sound(H, org, rows[..n], i)
    {
      assert Sound(H, org, rows, i) && PrevOf(rows[..n], i) == PrevOf(rows, i);
    }
  }

  /** Two histories of one tenant that both verify intact and end in the same
      fingerprint have the same length and agree row by row: any edit, insertion,
      deletion or reorder that keeps the tail fingerprint is reported. */
  lemma {:induction false} TailFixesHistory(H: Hash, org: string, a: seq<Row>, b: seq<Row>)
    requires Ideal(H) && Intact(H, org, a) && Intact(H, org, b)
    requires PrevOf(a, |a|) == PrevOf(b, |b|)
    ensures |a| == |b| && forall i :: 0 <= i < |a| ==> Agree(a[i], b[i])
    decreases |a|
  {
    if a != [] {
      var m, n := |a| - 1, |b| - 1;
      assert Sound(H, org, a, m) && Sound(H, org, b, n);
      DigestsNotEmpty(H, org, a);
      DigestsNotEmpty(H, org, b);
      assert PrevOf(a, m) == PrevOf(b, n);
      IntactPrefix(H, org, a, m);
      IntactPrefix(H, org, b, n);
      assert PrevOf(a[..m], m) == PrevOf(a, m) && PrevOf(b[..n], n) == PrevOf(b, n);
      TailFixesHistory(H, org, a[..m], b[..n]);
    }
  }

  lemma DigestsNotEmpty(H: Hash, org: string, rows: seq<Row>)
    requires Ideal(H) && Intact(H, org, rows)
    ensures forall i: nat :: i < |rows| ==> rows[i].hashCurrent != []
  {
    forall i: nat | i < |rows|
      ensures rows[i].hashCurrent != []
    {
      assert Sound(H, org, rows, i);
    }
  }

  // ---------------------------------------------------------------------------
  // Deleting rows
  // ---------------------------------------------------------------------------

  ghost predicate UniqueIds(rows: seq<Row>) {
    forall i, j :: 0 <= i < j < |rows| ==> rows[i].id != rows[j].id
  }

  /** The first `n` rows less the ones not kept. */
  function Survivors(rows: seq<Row>, keep: seq<bool>, n: nat): seq<Row>
    requires n <= |rows| == |keep|
  {
    if n == 0 then []
    else Survivors(rows, keep, n - 1) + (if keep[n - 1] then [rows[n - 1]] else [])
  }

  /** The survivors whose immediate predecessor was deleted. */
  function Orphans(rows: seq<Row>, keep: seq<bool>, n: nat): seq<Row>
    requires n <= |rows| == |keep|
  {
    if n == 0 then []
    else Orphans(rows, keep, n - 1) + (if keep[n - 1] && n > 1 && !keep[n - 2] then [rows[n - 1]] else [])
  }

  /** The rows that the verifier would report, in order. */
  function BrokenRows(H: Hash, org: string, rows: seq<Row>, n: nat): seq<Row>
    requires n <= |rows|
  {
    if n == 0 then []
    else BrokenRows(H, org, rows, n - 1) + (if Sound(H, org, rows, n - 1) then [] else [rows[n - 1]])
  }

  predicate RowsAt(broken: seq<Row>, rows: seq<Row>, at: seq<nat>) {
    |broken| == |at| && forall k :: 0 <= k < |at| ==> at[k] < |rows| && broken[k] == rows[at[k]]
  }

  lemma RowsAtMore(broken: seq<Row>, rows: seq<Row>, at: seq<nat>, i: nat)
    requires RowsAt(broken, rows, at) && i < |rows|
    ensures RowsAt(broken + [rows[i]], rows, at + [i])
  {
  }

  lemma BrokenRowsNext(H: Hash, org: string, rows: seq<Row>, n: nat)
    requires n < |rows| && RowsAt(BrokenRows(H, org, rows, n), rows, Unsound(H, org, rows, n))
    ensures RowsAt(BrokenRows(H, org, rows, n + 1), rows, Unsound(H, org, rows, n + 1))
  {
    var broken, at := BrokenRows(H, org, rows, n), Unsound(H, org, rows, n);
    RowsAtMore(broken, rows, at, n);
    assert broken + [] == broken && at + [] == at;
  }

  lemma {:induction false} BrokenRowsAreTheBreaks(H: Hash, org: string, rows: seq<Row>, n: nat)
    requires n <= |rows|
    ensures RowsAt(BrokenRows(H, org, rows, n), rows, Unsound(H, org, rows, n))
  {
    for i := 0 to n
      invariant RowsAt(BrokenRows(H, org, rows, i), rows, Unsound(H, org, rows, i))
    {
      BrokenRowsNext(H, org, rows, i);
    }
  }

  lemma {:induction false} BrokenRowsPrefix(H: Hash, org: string, rows: seq<Row>, more: seq<Row>, n: nat)
    requires n <= |rows|
    ensures BrokenRows(H, org, rows + more, n) == BrokenRows(H, org, rows, n)
  {
    if n > 0 {
      assert (rows + more)[n - 1] == rows[n - 1] && PrevOf(rows + more, n - 1) == PrevOf(rows, n - 1);
      BrokenRowsPrefix(H, org, rows, more, n - 1);
    }
  }

  /** The last survivor of a prefix, if any, is the last kept row. */
  lemma {:induction false} LastSurvivor(rows: seq<Row>, keep: seq<bool>, n: nat) returns (m: nat)
    requires n <= |rows| == |keep| && Survivors(rows, keep, n) != []
    ensures m < n && keep[m] && (forall j :: m < j < n ==> !keep[j])
    ensures var s := Survivors(rows, keep, n); s[|s| - 1] == rows[m]
  {
    if keep[n - 1] { m := n - 1; } else { m := LastSurvivor(rows, keep, n - 1); }
  }

  lemma DistinctDigests(H: Hash, org: string, rows: seq<Row>, i: nat, j: nat)
    requires Ideal(H) && Intact(H, org, rows) && UniqueIds(rows) && i < |rows| && j < |rows| && i != j
    ensures rows[i].hashCurrent != rows[j].hashCurrent
  {
    assert Sound(H, org, rows, i) && Sound(H, org, rows, j);
    assert PayloadOf(org, rows[i]).id != PayloadOf(org, rows[j]).id;
  }

  /** A survivor is still sound exactly if the row before it was kept, or it was first. */
  lemma SurvivorSound(H: Hash, org: string, rows: seq<Row>, keep: seq<bool>, n: nat)
    requires Ideal(H) && Intact(H, org, rows) && UniqueIds(rows)
    requires 0 < n <= |rows| == |keep| && keep[n - 1]
    ensures var s := Survivors(rows, keep, n);
            Sound(H, org, s, |s| - 1) <==> n == 1 || keep[n - 2]
    ensures var s := Survivors(rows, keep, n);
            n > 1 && !keep[n - 2] ==> !Linked(s, |s| - 1)
  {
    var before := Survivors(rows, keep, n - 1);
    var s := Survivors(rows, keep, n);
    assert s == before + [rows[n - 1]];
    assert Sound(H, org, rows, n - 1);
    if n > 1 && keep[n - 2] { assert before == Survivors(rows, keep, n - 2) + [rows[n - 2]]; }
    if before != [] {
      var m := LastSurvivor(rows, keep, n - 1);
      if m != n - 2 { DistinctDigests(H, org, rows, m, n - 2); }
    }
  }

  /** Deleting any rows from an intact chain breaks exactly the survivors whose
      immediate predecessor was deleted, each as unlinked. */
  lemma {:induction false} DeletionBreaksOrphans(H: Hash, org: string, rows: seq<Row>, keep: seq<bool>, n: nat)
    requires Ideal(H) && Intact(H, org, rows) && UniqueIds(rows)
    requires n <= |rows| == |keep|
    ensures var s := Survivors(rows, keep, n);
            && BrokenRows(H, org, s, |s|) == Orphans(rows, keep, n)
            && forall i: nat :: i < |s| && !Sound(H, org, s, i) ==> !Linked(s, i)
  {
    if n > 0 {
      DeletionBreaksOrphans(H, org, rows, keep, n - 1);
      var before, orphans := Survivors(rows, keep, n - 1), Orphans(rows, keep, n - 1);
      assert before + [] == before && orphans + [] == orphans;
      if keep[n - 1] {
        var s := Survivors(rows, keep, n);
        assert s == before + [rows[n - 1]] && |s| - 1 == |before|;
        SurvivorSound(H, org, rows, keep, n);
        BrokenRowsPrefix(H, org, before, [rows[n - 1]], |before|);
        forall i: nat | i < |s| && !Sound(H, org, s, i)
          ensures !Linked(s, i)
        {
          if i < |before| {
            assert s[i] == before[i] && PrevOf(s, i) == PrevOf(before, i);
            assert !Sound(H, org, before, i);
          }
        }
      }
    }
  }

  /** What is left verifies intact exactly if the deleted rows are a suffix. */
  lemma DeletedSuffixStaysIntact(H: Hash, org: string, rows: seq<Row>, keep: seq<bool>)
    requires Ideal(H) && Intact(H, org, rows) && UniqueIds(rows) && |keep| == |rows|
    ensures Intact(H, org, Survivors(rows, keep, |rows|)) <==> KeepsPrefix(keep, |keep|)
  {
    var s := Survivors(rows, keep, |rows|);
    DeletionBreaksOrphans(H, org, rows, keep, |rows|);
    BrokenRowsAreTheBreaks(H, org, s, |s|);
    NoOrphans(rows, keep, |rows|);
    NoneUnsoundIffIntact(H, org, s);
  }

  predicate KeepsPrefix(keep: seq<bool>, n: nat) {
    forall i :: 0 < i < n && i < |keep| && keep[i] ==> keep[i - 1]
  }

  lemma KeepsPrefixNext(keep: seq<bool>, n: nat)
    requires n < |keep|
    ensures KeepsPrefix(keep, n + 1) <==> KeepsPrefix(keep, n) && (n == 0 || !keep[n] || keep[n - 1])
  {
  }

  lemma {:induction false} NoOrphans(rows: seq<Row>, keep: seq<bool>, n: nat)
    requires n <= |rows| == |keep|
    ensures Orphans(rows, keep, n) == [] <==> KeepsPrefix(keep, n)
  {
    for i := 0 to n
      invariant Orphans(rows, keep, i) == [] <==> KeepsPrefix(keep, i)
    {
      KeepsPrefixNext(keep, i);
      var orphans := Orphans(rows, keep, i);
      assert |Orphans(rows, keep, i + 1)| == |orphans| + if i == 0 || !keep[i] || keep[i - 1] then 0 else 1;
    }
  }

  // ---------------------------------------------------------------------------
  // Editing rows
  // ---------------------------------------------------------------------------

  /** Altering hashed columns while the stored hashes are kept breaks exactly the
      altered rows, each as edited; the report lists them in order. */
  lemma EditsBreakEditedRows(H: Hash, org: string, rows: seq<Row>, edited: seq<Row>)
    requires Ideal(H) && Intact(H, org, rows) && |edited| == |rows|
    requires forall i :: 0 <= i < |rows| ==>
               edited[i].hashPrev == rows[i].hashPrev && edited[i].hashCurrent == rows[i].hashCurrent
    ensures forall i: nat :: i < |rows| ==>
              && (Sound(H, org, edited, i) <==> SameColumns(edited[i], rows[i]))
              && BreakAt(H, org, edited, i).detail == Edited
  {
    forall i: nat | i < |rows|
      ensures Linked(edited, i)
      ensures Sound(H, org, edited, i) <==> SameColumns(edited[i], rows[i])
    {
      assert Sound(H, org, rows, i) && PrevOf(edited, i) == PrevOf(rows, i);
    }
  }

  /** A chain is its tenant's: read as another's, none of its rows is sound. */
  lemma OtherTenantBreaks(H: Hash, org: string, other: string, rows: seq<Row>)
    requires Ideal(H) && Intact(H, org, rows) && other != org
    ensures forall i: nat :: i < |rows| ==> !Sound(H, other, rows, i) && BreakAt(H, other, rows, i).detail == Edited
  {
    forall i: nat | i < |rows|
      ensures !Sound(H, other, rows, i) && BreakAt(H, other, rows, i).detail == Edited
    {
      assert Sound(H, org, rows, i);
      assert PayloadOf(org, rows[i]).org != PayloadOf(other, rows[i]).org;
    }
  }

  // ---------------------------------------------------------------------------
  // The stored moment
  // ---------------------------------------------------------------------------

  /** What `append` stores: UTC, timezone attached. */
  function Normalise(m: Moment): Moment {
    Aware(Canonical(m), 0)
  }

  datatype Engine = Postgres(sessionOffset: int) | Sqlite

  /** What comes back: Postgres renders the instant in the session's timezone, SQLite
      has only the wall clock. */
  function ReadBack(e: Engine, stored: Moment): Moment {
    match e
    case Postgres(offset) => Aware(Canonical(stored) + offset, offset)
    case Sqlite => Naive(stored.clock)
  }

  /** A moment hashes the same when written and when read back on either engine; only
      normalising before storing makes that so on SQLite. */
  lemma MomentSurvivesStorage(e: Engine, m: Moment)
    ensures Canonical(ReadBack(e, Normalise(m))) == Canonical(m)
    ensures m.Aware? ==> (Canonical(ReadBack(Sqlite, m)) == Canonical(m) <==> m.offset == 0)
  {
  }
}
