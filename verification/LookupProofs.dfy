/** What a seed run leaves behind, and what a second one changes. */
module LookupProofs {
  import opened Wrappers
  import opened LookupTables
  import opened LookupSeed

  // ---------------------------------------------------------------------------
  // What seeding only adds
  // ---------------------------------------------------------------------------

  predicate MetaKept(before: Value, after: Value) {
    forall k :: k in before.meta ==> k in after.meta && after.meta[k] == before.meta[k]
  }

  /** No column, label, alias, key of `meta` or pointer that was there has changed. */
  predicate Kept(before: Value, after: Value) {
    && SameSlot(before, after) && after.columns == before.columns
    && (before.translations != [] ==> after.translations == before.translations)
    && before.aliases <= after.aliases
    && MetaKept(before, after)
    && (before.parent.Some? ==> after.parent == before.parent)
    && (before.successor.Some? ==> after.successor == before.successor)
  }

  ghost predicate OnlyAdds(db: Db, db': Db) {
    forall id :: id in db.values ==> id in db'.values && Kept(db.values[id], db'.values[id])
  }

  lemma KeptTransitive(a: Value, b: Value, c: Value)
    requires Kept(a, b) && Kept(b, c)
    ensures Kept(a, c)
  {
    assert b.aliases == c.aliases[..|b.aliases|];
  }

  lemma OnlyAddsTransitive(a: Db, b: Db, c: Db)
    requires OnlyAdds(a, b) && OnlyAdds(b, c)
    ensures OnlyAdds(a, c)
  {
    forall id | id in a.values
      ensures id in c.values && Kept(a.values[id], c.values[id])
    {
      KeptTransitive(a.values[id], b.values[id], c.values[id]);
    }
  }

  lemma KeptAntisymmetric(a: Value, b: Value)
    requires Kept(a, b) && Kept(b, a)
    ensures a == b
  {
    assert a.meta.Keys == b.meta.Keys;
    assert a.aliases == b.aliases[..|a.aliases|] && |a.aliases| == |b.aliases|;
  }

  /** What was added is never taken back on the way. */
  lemma NothingIsUndone(a: Db, b: Db, c: Db)
    requires OnlyAdds(a, b) && OnlyAdds(b, c) && c.values == a.values
    ensures b.values == a.values
  {
    assert b.values.Keys == a.values.Keys;
    forall id | id in a.values
      ensures a.values[id] == b.values[id]
    {
      KeptAntisymmetric(a.values[id], b.values[id]);
    }
  }

  lemma InsertAdds(db: Db, value: Value)
    requires Valid(db)
    ensures OnlyAdds(db, Insert(db, value)) && Insert(db, value).values != db.values
  {
    assert db.nextValue !in db.values;
  }

  lemma SeedRowAdds(db: Db, tid: nat, v: SeedValue, order: int)
    requires Valid(db)
    ensures var (db', changed) := SeedRow(db, tid, v, order);
            && OnlyAdds(db, db')
            && (v.translations != [] ==> (changed <==> db'.values != db.values))
            && (!changed ==> db' == db)
  {
    var id := Find(db, tid, v.code, None);
    if id.None? {
      InsertAdds(db, NewRow(tid, v, order));
    } else {
      var row := db.values[id.value];
      assert row.translations == [] && v.translations != [] ==> Healed(row, v).translations != [];
      assert Short(row, v) ==> ToppedUp(row, v).meta.Keys != row.meta.Keys;
    }
  }

  ghost predicate Labelled(values: seq<SeedValue>) {
    forall i :: 0 <= i < |values| ==> values[i].translations != []
  }

  /** What one more value adds to what the values before it added. */
  lemma AddsMore(db: Db, before: Db, changed: bool, after: Db, more: bool)
    requires OnlyAdds(db, before) && (changed <==> before.values != db.values) && (!changed ==> before == db)
    requires OnlyAdds(before, after) && (more <==> after.values != before.values) && (!more ==> after == before)
    ensures OnlyAdds(db, after) && (changed || more <==> after.values != db.values)
  {
    OnlyAddsTransitive(db, before, after);
    if after.values == db.values { NothingIsUndone(db, before, after); }
  }

  /** A values pass has only added so far, and its flag tells whether it did. */
  ghost predicate PassAdds(db: Db, r: (Db, bool), labelled: bool) {
    && OnlyAdds(db, r.0)
    && (labelled ==> (r.1 <==> r.0.values != db.values))
    && (!r.1 ==> r.0 == db)
  }

  lemma PassAddsNext(db: Db, before: (Db, bool), tid: nat, v: SeedValue, order: int, labelled: bool)
    requires Valid(before.0) && PassAdds(db, before, labelled) && (labelled ==> v.translations != [])
    ensures PassAdds(db, (SeedRow(before.0, tid, v, order).0, before.1 || SeedRow(before.0, tid, v, order).1), labelled)
  {
    var (after, more) := SeedRow(before.0, tid, v, order);
    SeedRowAdds(before.0, tid, v, order);
    OnlyAddsTransitive(db, before.0, after);
    if labelled { AddsMore(db, before.0, before.1, after, more); }
  }

  lemma SeedRowsAddNext(db: Db, tid: nat, values: seq<SeedValue>, curated: bool, n: nat)
    requires Valid(db) && tid in db.types && n < |values|
    requires PassAdds(db, SeedRows(db, tid, values, curated, n), Labelled(values))
    ensures PassAdds(db, SeedRows(db, tid, values, curated, n + 1), Labelled(values))
  {
    SeedRowsKeeps(db, tid, values, curated, n);
    PassAddsNext(db, SeedRows(db, tid, values, curated, n), tid, values[n], OrderOf(values[n], n, curated),
                 Labelled(values));
  }

  lemma {:induction false} SeedRowsAdd(db: Db, tid: nat, values: seq<SeedValue>, curated: bool, n: nat)
    requires Valid(db) && tid in db.types && n <= |values|
    ensures PassAdds(db, SeedRows(db, tid, values, curated, n), Labelled(values))
  {
    if n == 0 {
      NothingPassed(db, tid, values, curated, n);
    } else {
      SeedRowsAdd(db, tid, values, curated, n - 1);
      SeedRowsAddLast(db, tid, values, curated, n);
    }
  }

  lemma NothingPassed(db: Db, tid: nat, values: seq<SeedValue>, curated: bool, n: nat)
    requires n == 0
    ensures PassAdds(db, SeedRows(db, tid, values, curated, n), Labelled(values))
  {
  }

  lemma SeedRowsAddLast(db: Db, tid: nat, values: seq<SeedValue>, curated: bool, n: nat)
    requires Valid(db) && tid in db.types && 0 < n <= |values|
    requires PassAdds(db, SeedRows(db, tid, values, curated, n - 1), Labelled(values))
    ensures PassAdds(db, SeedRows(db, tid, values, curated, n), Labelled(values))
  {
    SeedRowsAddNext(db, tid, values, curated, n - 1);
  }

  lemma LinkFieldAdds(db: Db, tid: nat, v: SeedValue, p: Pointer)
    ensures var db' := LinkField(db, tid, v, p).0; OnlyAdds(db, db') && db' == db.(values := db'.values)
  {
  }

  lemma LinkRowAdds(db: Db, tid: nat, v: SeedValue)
    ensures var db' := LinkRow(db, tid, v).0; OnlyAdds(db, db') && db' == db.(values := db'.values)
  {
    var first := LinkField(db, tid, v, Parent).0;
    LinkFieldAdds(db, tid, v, Parent);
    LinkFieldAdds(first, tid, v, Successor);
    OnlyAddsTransitive(db, first, LinkField(first, tid, v, Successor).0);
  }

  lemma {:induction false} LinkRowsAdd(db: Db, tid: nat, values: seq<SeedValue>, n: nat)
    requires n <= |values|
    ensures var db' := LinkRows(db, tid, values, n).0; OnlyAdds(db, db') && db' == db.(values := db'.values)
  {
    if n > 0 {
      LinkRowsAdd(db, tid, values, n - 1);
      var before := LinkRows(db, tid, values, n - 1).0;
      LinkRowAdds(before, tid, values[n - 1]);
      OnlyAddsTransitive(db, before, LinkRow(before, tid, values[n - 1]).0);
    }
  }

  /** One type's run that gets as far as its values: the type ensured, the values seen
      to, and then linked. */
  datatype Run = Run(tid: nat, curated: bool, typed: Db, filled: Db, changed: bool, linked: Db, ok: bool)

  ghost predicate IsRun(db: Db, spec: SeedType, run: Run) {
    && EnsureType(db, spec) == Ok((run.typed, run.tid)) && run.tid in run.typed.types
    && run.curated == (run.typed.types[run.tid].defaultSort == BySortOrder)
    && SeedRows(run.typed, run.tid, spec.values, run.curated, |spec.values|) == (run.filled, run.changed)
    && LinkRows(run.filled, run.tid, spec.values, |spec.values|) == (run.linked, run.ok)
  }

  lemma RunOf(db: Db, spec: SeedType) returns (run: Run)
    requires Valid(db) && EnsureType(db, spec).Ok?
    ensures IsRun(db, spec, run)
    ensures Seeded(db, spec) ==
              if !run.ok then (run.filled, Some(NoTarget))
              else (if run.changed || run.linked != run.filled then Bumped(run.linked, run.tid) else run.linked, None)
  {
    EnsureTypeKeeps(db, spec);
    var (typed, tid) := EnsureType(db, spec).value;
    var curated := typed.types[tid].defaultSort == BySortOrder;
    var (filled, changed) := SeedRows(typed, tid, spec.values, curated, |spec.values|);
    var (linked, ok) := LinkRows(filled, tid, spec.values, |spec.values|);
    run := Run(tid, curated, typed, filled, changed, linked, ok);
  }

  lemma RunKeeps(db: Db, spec: SeedType, run: Run)
    requires Valid(db) && IsRun(db, spec, run)
    ensures Valid(run.typed) && Valid(run.filled) && Valid(run.linked) && SamePlaces(run.filled, run.linked)
    ensures run.typed.values == db.values && run.filled.types == run.typed.types && run.linked.types == run.typed.types
    ensures FindType(run.typed, spec.key) == Some(run.tid)
    ensures if FindType(db, spec.key).Some? then run.typed == db && FindType(db, spec.key) == Some(run.tid)
            else run.tid == db.nextType && run.typed.types == db.types[run.tid := run.typed.types[run.tid]]
  {
    EnsureTypeKeeps(db, spec);
    SeedRowsKeeps(run.typed, run.tid, spec.values, run.curated, |spec.values|);
    LinkRowsKeeps(run.filled, run.tid, spec.values, |spec.values|);
    assert run.typed.types[run.tid].key == spec.key;
    assert forall t :: t in run.typed.types && run.typed.types[t].key == spec.key ==> t == run.tid;
  }

  lemma RunAdds(db: Db, spec: SeedType, run: Run)
    requires Valid(db) && IsRun(db, spec, run)
    ensures OnlyAdds(db, run.filled) && OnlyAdds(run.filled, run.linked)
    ensures Labelled(spec.values) ==> (run.changed <==> run.filled.values != db.values)
    ensures run.linked == run.filled.(values := run.linked.values)
    ensures !run.changed ==> run.filled == run.typed
  {
    RunKeeps(db, spec, run);
    SeedRowsAdd(run.typed, run.tid, spec.values, run.curated, |spec.values|);
    LinkRowsAdd(run.filled, run.tid, spec.values, |spec.values|);
  }

  /** From any starting state, and even when the run fails: no row goes, and nothing an
      admin may have written in one is overwritten. */
  lemma SeedingOnlyAdds(db: Db, spec: SeedType)
    requires Valid(db)
    ensures OnlyAdds(db, Seeded(db, spec).0)
  {
    if EnsureType(db, spec).Ok? {
      var run := RunOf(db, spec);
      RunAdds(db, spec, run);
      OnlyAddsTransitive(db, run.filled, run.linked);
    }
  }

  lemma LabelledFile(spec: SeedType)
    requires Loaded(spec)
    ensures Labelled(spec.values)
  {
    forall i | 0 <= i < |spec.values| ensures spec.values[i].translations != [] {
      assert ValueOk(spec, spec.values[i]);
    }
  }

  lemma ChangedIff(typed: Db, filled: Db, linked: Db, changed: bool)
    requires OnlyAdds(typed, filled) && OnlyAdds(filled, linked)
    requires (changed <==> filled.values != typed.values) && linked == filled.(values := linked.values)
    ensures changed || linked != filled <==> linked.values != typed.values
  {
    if linked.values == typed.values { NothingIsUndone(typed, filled, linked); }
  }

  /** The version a reader's ETag is keyed on goes up, by one and on that type alone, if
      and only if the run changed some row. */
  lemma VersionTellsChange(db: Db, spec: SeedType, tid: nat)
    requires Valid(db) && Loaded(spec) && Seeded(db, spec).1.None?
    requires FindType(db, spec.key) == Some(tid)
    ensures var db' := Seeded(db, spec).0;
            db'.types == if db'.values == db.values then db.types else OneVersionUp(db.types, tid)
  {
    LabelledFile(spec);
    var run := RunOf(db, spec);
    RunKeeps(db, spec, run);
    RunAdds(db, spec, run);
    ChangedIff(db, run.filled, run.linked, run.changed);
    BumpTells(db, run.linked, run.tid, run.changed || run.linked != run.filled);
  }

  lemma BumpTells(db: Db, linked: Db, tid: nat, bumps: bool)
    requires linked.types == db.types && tid in db.types && (bumps <==> linked.values != db.values)
    ensures var db' := if bumps then Bumped(linked, tid) else linked;
            db'.types == if db'.values == db.values then db.types else OneVersionUp(db.types, tid)
  {
  }

  // ---------------------------------------------------------------------------
  // What a run makes of each row
  // ---------------------------------------------------------------------------

  /** What the values pass makes of the row of `v`, if there was one. */
  function RowAfter(row: Option<Value>, tid: nat, v: SeedValue, order: int): Value {
    if row.None? then NewRow(tid, v, order)
    else if row.value.translations == [] then Healed(row.value, v)
    else if Short(row.value, v) then ToppedUp(row.value, v)
    else row.value
  }

  /** Two databases agree on every row but that of `code` in type `tid`. */
  ghost predicate AgreeBut(db: Db, db': Db, tid: nat, code: string) {
    forall t: nat, c, o :: (t, c, o) != (tid, code, None) ==> RowOf(db', t, c, o) == RowOf(db, t, c, o)
  }

  lemma EditView(db: Db, id: nat, value: Value)
    requires Valid(db) && id in db.values && SameSlot(db.values[id], value) && value.org.None?
    ensures RowOf(Edit(db, id, value), value.typeId, value.code, None) == Some(value)
    ensures AgreeBut(db, Edit(db, id, value), value.typeId, value.code)
  {
    EditKeepsValid(db, id, value);
    FindIs(db, id, value.typeId, value.code, None);
    forall t: nat, c, o | (t, c, o) != (value.typeId, value.code, None)
      ensures RowOf(Edit(db, id, value), t, c, o) == RowOf(db, t, c, o)
    {
      var found := Find(db, t, c, o);
      assert found.Some? ==> found.value != id;
    }
  }

  lemma InsertView(db: Db, value: Value)
    requires Valid(db) && value.typeId in db.types && Find(db, value.typeId, value.code, None).None? && value.org.None?
    ensures RowOf(Insert(db, value), value.typeId, value.code, None) == Some(value)
    ensures AgreeBut(db, Insert(db, value), value.typeId, value.code)
  {
    var db' := Insert(db, value);
    InsertKeepsValid(db, value);
    assert IsRow(db', db.nextValue, value.typeId, value.code, None);
    FindIs(db', db.nextValue, value.typeId, value.code, None);
    forall t: nat, c, o | (t, c, o) != (value.typeId, value.code, None)
      ensures RowOf(db', t, c, o) == RowOf(db, t, c, o)
    {
      var found, found' := Find(db, t, c, o), Find(db', t, c, o);
      if found.Some? {
        assert IsRow(db', found.value, t, c, o);
        FindIs(db', found.value, t, c, o);
      } else {
        forall id: nat ensures !IsRow(db', id, t, c, o) {
          assert !IsRow(db, id, t, c, o);
        }
      }
    }
  }

  lemma SeedRowView(db: Db, tid: nat, v: SeedValue, order: int)
    requires Valid(db) && tid in db.types
    ensures var db' := SeedRow(db, tid, v, order).0;
            && RowOf(db', tid, v.code, None) == Some(RowAfter(RowOf(db, tid, v.code, None), tid, v, order))
            && AgreeBut(db, db', tid, v.code)
  {
    var id := Find(db, tid, v.code, None);
    if id.None? {
      InsertView(db, NewRow(tid, v, order));
    } else {
      EditView(db, id.value, Healed(db.values[id.value], v));
      EditView(db, id.value, ToppedUp(db.values[id.value], v));
    }
  }

  ghost predicate DistinctCodes(values: seq<SeedValue>) {
    forall i, j :: 0 <= i < j < |values| ==> values[i].code != values[j].code
  }

  ghost predicate Done(db: Db, db': Db, tid: nat, values: seq<SeedValue>, curated: bool, i: nat)
    requires i < |values|
  {
    var row := RowOf(db, tid, values[i].code, None);
    RowOf(db', tid, values[i].code, None) == Some(RowAfter(row, tid, values[i], OrderOf(values[i], i, curated)))
  }

  /** None of the first `n` values is about this slot. */
  predicate Elsewhere(values: seq<SeedValue>, n: nat, tid: nat, t: nat, c: string, o: Option<int>) {
    t == tid && o.None? ==> forall i :: 0 <= i < n && i < |values| ==> values[i].code != c
  }

  /** The first `n` values have been seen to, the other rows not. */
  ghost predicate SeenTo(db: Db, db': Db, tid: nat, values: seq<SeedValue>, curated: bool, n: nat)
    requires n <= |values|
  {
    && (forall i :: 0 <= i < n ==> Done(db, db', tid, values, curated, i))
    && (forall t: nat, c, o {:trigger Elsewhere(values, n, tid, t, c, o)} :: Elsewhere(values, n, tid, t, c, o) ==>
          RowOf(db', t, c, o) == RowOf(db, t, c, o))
  }

  lemma SeenToNext(db: Db, before: Db, after: Db, tid: nat, values: seq<SeedValue>, curated: bool, n: nat)
    requires n < |values| && DistinctCodes(values) && SeenTo(db, before, tid, values, curated, n)
    requires RowOf(after, tid, values[n].code, None)
          == Some(RowAfter(RowOf(before, tid, values[n].code, None), tid, values[n], OrderOf(values[n], n, curated)))
    requires AgreeBut(before, after, tid, values[n].code)
    ensures SeenTo(db, after, tid, values, curated, n + 1)
  {
    forall i | 0 <= i < n + 1
      ensures Done(db, after, tid, values, curated, i)
    {
      if i < n {
        assert Done(db, before, tid, values, curated, i);
        assert values[i].code != values[n].code;
      } else {
        assert Elsewhere(values, n, tid, tid, values[i].code, None);
      }
    }
    forall t: nat, c, o | Elsewhere(values, n + 1, tid, t, c, o)
      ensures RowOf(after, t, c, o) == RowOf(db, t, c, o)
    {
      assert Elsewhere(values, n, tid, t, c, o);
      assert (t, c, o) != (tid, values[n].code, None);
    }
  }

  lemma {:induction false} SeedRowsView(db: Db, tid: nat, values: seq<SeedValue>, curated: bool, n: nat)
    requires Valid(db) && tid in db.types && n <= |values| && DistinctCodes(values)
    ensures SeenTo(db, SeedRows(db, tid, values, curated, n).0, tid, values, curated, n)
  {
    for k := 0 to n
      invariant SeenTo(db, SeedRows(db, tid, values, curated, k).0, tid, values, curated, k)
    {
      SeedRowsKeeps(db, tid, values, curated, k);
      var before := SeedRows(db, tid, values, curated, k).0;
      SeedRowView(before, tid, values[k], OrderOf(values[k], k, curated));
      SeenToNext(db, before, SeedRows(db, tid, values, curated, k + 1).0, tid, values, curated, k);
    }
  }

  /** The link pass's part: a NULL pointer the file gives goes to the row of that code. */
  ghost function Linked(db: Db, tid: nat, row: Value, v: SeedValue): Value {
    var parent :=
      if row.parent.Some? || Falsy(v.parentCode) then row.parent else Find(db, tid, v.parentCode.value, None);
    var successor :=
      if row.successor.Some? || Falsy(v.supersededBy) then row.successor else Find(db, tid, v.supersededBy.value, None);
    row.(parent := parent, successor := successor)
  }

  ghost predicate HasTargets(db: Db, tid: nat, v: SeedValue) {
    forall p :: !Falsy(Target(v, p)) ==> Find(db, tid, Target(v, p).value, None).Some?
  }

  ghost predicate LinkDone(db: Db, db': Db, tid: nat, v: SeedValue) {
    var row, row' := RowOf(db, tid, v.code, None), RowOf(db', tid, v.code, None);
    row.Some? && row' == Some(Linked(db, tid, row.value, v))
  }

  ghost predicate Linkable(db: Db, tid: nat, v: SeedValue) {
    HasTargets(db, tid, v) && RowOf(db, tid, v.code, None).Some?
  }

  ghost function PointedOnce(db: Db, tid: nat, row: Value, v: SeedValue, p: Pointer): Value {
    if PointerOf(row, p).Some? || Falsy(Target(v, p)) then row
    else
      var target := Find(db, tid, Target(v, p).value, None);
      if target.Some? then Pointing(row, p, target.value) else row
  }

  lemma LinkFieldView(db: Db, tid: nat, v: SeedValue, p: Pointer)
    requires Valid(db) && Linkable(db, tid, v)
    ensures var (db', ok) := LinkField(db, tid, v, p);
            && ok && SamePlaces(db, db') && Valid(db')
            && RowOf(db', tid, v.code, None) == Some(PointedOnce(db, tid, RowOf(db, tid, v.code, None).value, v, p))
            && AgreeBut(db, db', tid, v.code)
  {
    assert !Falsy(Target(v, p)) ==> Find(db, tid, Target(v, p).value, None).Some?;
    var id := Find(db, tid, v.code, None).value;
    EditView(db, id, PointedOnce(db, tid, db.values[id], v, p));
    LinkFieldKeeps(db, tid, v, p);
  }

  lemma LinkableThere(db: Db, before: Db, tid: nat, v: SeedValue)
    requires Linkable(db, tid, v) && SamePlaces(db, before)
    ensures Linkable(before, tid, v)
  {
    forall p | !Falsy(Target(v, p))
      ensures Find(before, tid, Target(v, p).value, None).Some?
    {
      assert Find(db, tid, Target(v, p).value, None).Some?;
    }
  }

  lemma PointedTwice(db: Db, first: Db, tid: nat, row: Value, v: SeedValue)
    requires Linkable(db, tid, v) && SamePlaces(db, first)
    ensures PointedOnce(first, tid, PointedOnce(db, tid, row, v, Parent), v, Successor) == Linked(db, tid, row, v)
  {
    assert forall p :: !Falsy(Target(v, p)) ==> Find(db, tid, Target(v, p).value, None).Some?;
  }

  lemma AgreeButTransitive(a: Db, b: Db, c: Db, tid: nat, code: string)
    requires AgreeBut(a, b, tid, code) && AgreeBut(b, c, tid, code)
    ensures AgreeBut(a, c, tid, code)
  {
  }

  lemma LinkRowView(db: Db, tid: nat, v: SeedValue)
    requires Valid(db) && Linkable(db, tid, v)
    ensures var (db', ok) := LinkRow(db, tid, v);
            ok && LinkDone(db, db', tid, v) && AgreeBut(db, db', tid, v.code)
  {
    var first, second := LinkField(db, tid, v, Parent).0, LinkRow(db, tid, v).0;
    LinkFieldView(db, tid, v, Parent);
    LinkableThere(db, first, tid, v);
    LinkFieldView(first, tid, v, Successor);
    PointedTwice(db, first, tid, RowOf(db, tid, v.code, None).value, v);
    AgreeButTransitive(db, first, second, tid, v.code);
  }

  ghost predicate LinkedTo(db: Db, db': Db, tid: nat, values: seq<SeedValue>, n: nat)
    requires n <= |values|
  {
    && (forall i :: 0 <= i < n ==> LinkDone(db, db', tid, values[i]))
    && (forall t: nat, c, o {:trigger Elsewhere(values, n, tid, t, c, o)} :: Elsewhere(values, n, tid, t, c, o) ==>
          RowOf(db', t, c, o) == RowOf(db, t, c, o))
  }

  lemma LinkedSame(db: Db, before: Db, tid: nat, row: Value, v: SeedValue)
    requires SamePlaces(db, before)
    ensures Linked(before, tid, row, v) == Linked(db, tid, row, v)
  {
  }

  lemma LinkedToNext(db: Db, before: Db, after: Db, tid: nat, values: seq<SeedValue>, n: nat)
    requires n < |values| && DistinctCodes(values) && LinkedTo(db, before, tid, values, n)
    requires LinkDone(before, after, tid, values[n]) && AgreeBut(before, after, tid, values[n].code)
             && SamePlaces(db, before)
    ensures LinkedTo(db, after, tid, values, n + 1)
  {
    var v := values[n];
    forall i | 0 <= i < n + 1
      ensures LinkDone(db, after, tid, values[i])
    {
      if i < n {
        assert LinkDone(db, before, tid, values[i]);
        assert values[i].code != v.code;
      } else {
        assert Elsewhere(values, n, tid, tid, v.code, None);
        LinkedSame(db, before, tid, RowOf(before, tid, v.code, None).value, v);
      }
    }
    forall t: nat, c, o | Elsewhere(values, n + 1, tid, t, c, o)
      ensures RowOf(after, t, c, o) == RowOf(db, t, c, o)
    {
      assert Elsewhere(values, n, tid, t, c, o);
      assert (t, c, o) != (tid, v.code, None);
    }
  }

  lemma LinkNext(db: Db, before: Db, tid: nat, values: seq<SeedValue>, n: nat)
    requires n < |values| && DistinctCodes(values) && LinkedTo(db, before, tid, values, n)
    requires Valid(before) && SamePlaces(db, before) && Linkable(db, tid, values[n])
    ensures var (after, ok) := LinkRow(before, tid, values[n]);
            ok && LinkedTo(db, after, tid, values, n + 1)
  {
    LinkableThere(db, before, tid, values[n]);
    LinkRowView(before, tid, values[n]);
    LinkedToNext(db, before, LinkRow(before, tid, values[n]).0, tid, values, n);
  }

  ghost predicate AllLinkable(db: Db, tid: nat, values: seq<SeedValue>) {
    forall i {:trigger Linkable(db, tid, values[i])} :: 0 <= i < |values| ==> Linkable(db, tid, values[i])
  }

  lemma LinkRowsNext(db: Db, tid: nat, values: seq<SeedValue>, n: nat)
    requires Valid(db) && n < |values| && DistinctCodes(values) && AllLinkable(db, tid, values)
    requires LinkRows(db, tid, values, n).1 && LinkedTo(db, LinkRows(db, tid, values, n).0, tid, values, n)
    ensures LinkRows(db, tid, values, n + 1).1 && LinkedTo(db, LinkRows(db, tid, values, n + 1).0, tid, values, n + 1)
  {
    LinkRowsKeeps(db, tid, values, n);
    assert Linkable(db, tid, values[n]);
    LinkNext(db, LinkRows(db, tid, values, n).0, tid, values, n);
  }

  lemma {:induction false} LinkRowsView(db: Db, tid: nat, values: seq<SeedValue>, n: nat)
    requires Valid(db) && n <= |values| && DistinctCodes(values) && AllLinkable(db, tid, values)
    ensures LinkRows(db, tid, values, n).1 && LinkedTo(db, LinkRows(db, tid, values, n).0, tid, values, n)
  {
    for k := 0 to n
      invariant LinkRows(db, tid, values, k).1 && LinkedTo(db, LinkRows(db, tid, values, k).0, tid, values, k)
    {
      LinkRowsNext(db, tid, values, k);
    }
  }

  lemma RowFound(run: Run, values: seq<SeedValue>, code: string)
    requires SeenTo(run.typed, run.filled, run.tid, values, run.curated, |values|) && HasCode(values, code)
    ensures Find(run.filled, run.tid, code, None).Some?
  {
    var i :| 0 <= i < |values| && values[i].code == code;
    assert Done(run.typed, run.filled, run.tid, values, run.curated, i);
  }

  lemma TargetFound(run: Run, spec: SeedType, v: SeedValue, p: Pointer)
    requires SeenTo(run.typed, run.filled, run.tid, spec.values, run.curated, |spec.values|)
    requires ValueOk(spec, v) && !Falsy(Target(v, p))
    ensures Find(run.filled, run.tid, Target(v, p).value, None).Some?
  {
    RowFound(run, spec.values, Target(v, p).value);
  }

  lemma RowIsLinkable(run: Run, spec: SeedType, i: nat)
    requires SeenTo(run.typed, run.filled, run.tid, spec.values, run.curated, |spec.values|)
    requires Loaded(spec) && i < |spec.values|
    ensures Linkable(run.filled, run.tid, spec.values[i])
  {
    assert ValueOk(spec, spec.values[i]);
    assert Done(run.typed, run.filled, run.tid, spec.values, run.curated, i);
    forall p | !Falsy(Target(spec.values[i], p))
      ensures Find(run.filled, run.tid, Target(spec.values[i], p).value, None).Some?
    {
      TargetFound(run, spec, spec.values[i], p);
    }
  }

  lemma RunSees(db: Db, spec: SeedType, run: Run)
    requires Valid(db) && Loaded(spec) && IsRun(db, spec, run)
    ensures SeenTo(run.typed, run.filled, run.tid, spec.values, run.curated, |spec.values|) && Valid(run.filled)
  {
    RunKeeps(db, spec, run);
    SeedRowsView(run.typed, run.tid, spec.values, run.curated, |spec.values|);
  }

  /** A loaded file names only targets it also gives a row, so no link fails. */
  lemma RunLinks(db: Db, spec: SeedType, run: Run)
    requires Valid(db) && Loaded(spec) && IsRun(db, spec, run)
    ensures run.ok && LinkedTo(run.filled, run.linked, run.tid, spec.values, |spec.values|)
  {
    RunSees(db, spec, run);
    forall i | 0 <= i < |spec.values|
      ensures Linkable(run.filled, run.tid, spec.values[i])
    {
      RowIsLinkable(run, spec, i);
    }
    LinkRowsView(run.filled, run.tid, spec.values, |spec.values|);
  }

  // ---------------------------------------------------------------------------
  // Main results
  // ---------------------------------------------------------------------------

  /** Seeding a loaded type succeeds, or is refused outright because the type is there
      under another scope. */
  lemma OnlyScopeRefuses(db: Db, spec: SeedType)
    requires Valid(db) && Loaded(spec)
    ensures var t, (db', error) := FindType(db, spec.key), Seeded(db, spec);
            if t.Some? && spec.scope.Some? && db.types[t.value].scope != spec.scope.value
            then (db', error) == (db, Some(ScopeMismatch)) else error.None?
  {
    if EnsureType(db, spec).Ok? {
      var run := RunOf(db, spec);
      RunLinks(db, spec, run);
    }
  }

  /** What a run makes of the row of the `i`th value of the file. */
  ghost predicate Filled(db: Db, db': Db, spec: SeedType, tid: nat, curated: bool, i: nat)
    requires i < |spec.values|
  {
    var v, was := spec.values[i], RowOf(db, tid, spec.values[i].code, None);
    RowOf(db', tid, v.code, None) == Some(Linked(db', tid, RowAfter(was, tid, v, OrderOf(v, i, curated)), v))
  }

  /** The rows are the same, so are the look-ups. */
  ghost predicate SameFinds(a: Db, b: Db) {
    forall t: nat, c, o :: Find(a, t, c, o) == Find(b, t, c, o)
  }

  lemma SameValuesSameFinds(a: Db, b: Db)
    requires Valid(a) && Valid(b) && a.values == b.values
    ensures SameFinds(a, b)
  {
    forall t: nat, c, o
      ensures Find(a, t, c, o) == Find(b, t, c, o)
    {
      var found := Find(b, t, c, o);
      if found.Some? {
        assert IsRow(a, found.value, t, c, o);
        FindIs(a, found.value, t, c, o);
      } else {
        forall id: nat ensures !IsRow(a, id, t, c, o) {
          assert !IsRow(b, id, t, c, o);
        }
      }
    }
  }

  /** `db'` is what a run that succeeds makes of `db`, row by row. */
  ghost predicate FilledIn(db: Db, db': Db, spec: SeedType, tid: nat, curated: bool) {
    && (forall i :: 0 <= i < |spec.values| ==> Filled(db, db', spec, tid, curated, i))
    && (forall t: nat, c, o {:trigger Elsewhere(spec.values, |spec.values|, tid, t, c, o)} ::
          Elsewhere(spec.values, |spec.values|, tid, t, c, o) ==> RowOf(db', t, c, o) == RowOf(db, t, c, o))
  }

  lemma FilledInBy(db: Db, db': Db, spec: SeedType, run: Run)
    requires SeenTo(run.typed, run.filled, run.tid, spec.values, run.curated, |spec.values|)
    requires LinkedTo(run.filled, run.linked, run.tid, spec.values, |spec.values|)
    requires db.values == run.typed.values && db'.values == run.linked.values
    requires SameFinds(db, run.typed) && SameFinds(run.filled, run.linked) && SameFinds(db', run.linked)
    ensures FilledIn(db, db', spec, run.tid, run.curated)
  {
    forall i | 0 <= i < |spec.values|
      ensures Filled(db, db', spec, run.tid, run.curated, i)
    {
      assert Done(run.typed, run.filled, run.tid, spec.values, run.curated, i);
      assert LinkDone(run.filled, run.linked, run.tid, spec.values[i]);
    }
    forall t: nat, c, o | Elsewhere(spec.values, |spec.values|, run.tid, t, c, o)
      ensures RowOf(db', t, c, o) == RowOf(db, t, c, o)
    {
      assert RowOf(run.filled, t, c, o) == RowOf(run.typed, t, c, o);
      assert RowOf(run.linked, t, c, o) == RowOf(run.filled, t, c, o);
    }
  }

  lemma RunKeepsTypes(db: Db, spec: SeedType, run: Run, db': Db)
    requires Valid(db) && IsRun(db, spec, run) && (db' == run.linked || db' == Bumped(run.linked, run.tid))
    ensures Valid(db') && FindType(db', spec.key) == Some(run.tid)
    ensures run.curated == (db'.types[run.tid].defaultSort == BySortOrder)
    ensures if FindType(db, spec.key).Some? then FindType(db, spec.key) == Some(run.tid) else run.tid !in db.types
  {
    RunKeeps(db, spec, run);
    assert Valid(db');
    assert FindType(run.linked, spec.key) == Some(run.tid) by {
      assert forall t :: t in run.linked.types && run.linked.types[t].key == spec.key ==> t == run.tid;
    }
    TypeAfter(run.linked, db', spec.key, run.tid);
  }

  lemma FindsOf(db: Db, run: Run, db': Db)
    requires Valid(db) && Valid(run.typed) && Valid(run.linked) && Valid(db') && SamePlaces(run.filled, run.linked)
    requires db.values == run.typed.values && db'.values == run.linked.values
    ensures SameFinds(db, run.typed) && SameFinds(run.filled, run.linked) && SameFinds(db', run.linked)
  {
    SameValuesSameFinds(db, run.typed);
    SameValuesSameFinds(db', run.linked);
  }

  lemma RunFinds(db: Db, spec: SeedType, run: Run, db': Db)
    requires Valid(db) && IsRun(db, spec, run) && (db' == run.linked || db' == Bumped(run.linked, run.tid))
    ensures SameFinds(db, run.typed) && SameFinds(run.filled, run.linked) && SameFinds(db', run.linked)
    ensures db.values == run.typed.values && db'.values == run.linked.values
  {
    RunKeeps(db, spec, run);
    RunKeepsTypes(db, spec, run, db');
    FindsOf(db, run, db');
  }

  lemma RunFills(db: Db, spec: SeedType, run: Run, db': Db)
    requires Valid(db) && Loaded(spec) && IsRun(db, spec, run)
             && (db' == run.linked || db' == Bumped(run.linked, run.tid))
    ensures FilledIn(db, db', spec, run.tid, run.curated)
  {
    RunFinds(db, spec, run, db');
    RunSees(db, spec, run);
    RunLinks(db, spec, run);
    FilledInBy(db, db', spec, run);
  }

  /** The whole result of a run: each value of the file has the row the file gives it, an
      existing one only healed or topped up and its NULL pointers filled with rows of the
      codes named; every other row is as it was. */
  lemma SeedFills(db: Db, spec: SeedType) returns (tid: nat, curated: bool)
    requires Valid(db) && Loaded(spec) && Seeded(db, spec).1.None?
    ensures var db' := Seeded(db, spec).0;
            && Valid(db') && FindType(db', spec.key) == Some(tid)
            && curated == (db'.types[tid].defaultSort == BySortOrder)
            && (if FindType(db, spec.key).Some? then FindType(db, spec.key) == Some(tid) else tid !in db.types)
            && FilledIn(db, db', spec, tid, curated)
  {
    var run := RunOf(db, spec);
    tid, curated := run.tid, run.curated;
    RunLinks(db, spec, run);
    RunFills(db, spec, run, Seeded(db, spec).0);
    RunKeepsTypes(db, spec, run, Seeded(db, spec).0);
  }

  lemma TypeAfter(linked: Db, db': Db, key: string, tid: nat)
    requires Valid(db') && FindType(linked, key) == Some(tid) && (db' == linked || db' == Bumped(linked, tid))
    ensures FindType(db', key) == Some(tid) && db'.types[tid].defaultSort == linked.types[tid].defaultSort
  {
    assert tid in db'.types && db'.types[tid].key == key;
  }
}
