/** When seeding again changes nothing. */
module LookupReruns {
  import opened Wrappers
  import opened LookupTables
  import opened LookupSeed
  import opened LookupProofs

  ghost predicate PointersSet(row: Value, v: SeedValue) {
    && (Falsy(v.parentCode) || row.parent.Some?)
    && (Falsy(v.supersededBy) || row.successor.Some?)
  }

  /** The row of `v` is there and lacks nothing the file gives. */
  ghost predicate Complete(row: Option<Value>, v: SeedValue) {
    row.Some? && row.value.translations != [] && !Short(row.value, v) && PointersSet(row.value, v)
  }

  ghost predicate AllComplete(db: Db, tid: nat, values: seq<SeedValue>) {
    forall i :: 0 <= i < |values| ==> Complete(RowOf(db, tid, values[i].code, None), values[i])
  }

  lemma CompleteRowIsLeft(db: Db, tid: nat, v: SeedValue, order: int)
    requires Complete(RowOf(db, tid, v.code, None), v)
    ensures SeedRow(db, tid, v, order) == (db, false)
  {
  }

  lemma CompleteLinksAreLeft(db: Db, tid: nat, v: SeedValue)
    requires Complete(RowOf(db, tid, v.code, None), v)
    ensures LinkRow(db, tid, v) == (db, true)
  {
    assert LinkField(db, tid, v, Parent) == (db, true);
    assert LinkField(db, tid, v, Successor) == (db, true);
  }

  lemma {:induction false} CompleteRowsAreLeft(db: Db, tid: nat, values: seq<SeedValue>, curated: bool, n: nat)
    requires n <= |values| && AllComplete(db, tid, values)
    ensures SeedRows(db, tid, values, curated, n) == (db, false) && LinkRows(db, tid, values, n) == (db, true)
  {
    if n > 0 {
      CompleteRowsAreLeft(db, tid, values, curated, n - 1);
      CompleteRowIsLeft(db, tid, values[n - 1], OrderOf(values[n - 1], n - 1, curated));
      CompleteLinksAreLeft(db, tid, values[n - 1]);
    }
  }

  lemma UnchangedIsComplete(row: Value, tid: nat, v: SeedValue, order: int, db: Db, was: Option<Value>)
    requires v.translations != [] && row == Linked(db, tid, RowAfter(was, tid, v, order), v)
    requires !Falsy(v.parentCode) ==> Find(db, tid, v.parentCode.value, None).Some?
    requires !Falsy(v.supersededBy) ==> Find(db, tid, v.supersededBy.value, None).Some?
    ensures row.translations != [] && PointersSet(row, v)
    ensures Short(row, v) <==> was.Some? && was.value.translations == [] && Short(was.value, v)
    ensures was == Some(row) ==> Complete(was, v)
  {
    if was.Some? && was.value.translations == [] { assert Healed(was.value, v).translations != []; }
    if was.Some? && Short(was.value, v) {
      assert ToppedUp(was.value, v).meta.Keys == v.meta.Keys + was.value.meta.Keys;
    }
  }

  lemma TargetsThere(db: Db, db': Db, spec: SeedType, tid: nat, curated: bool, i: nat)
    requires Loaded(spec) && FilledIn(db, db', spec, tid, curated) && i < |spec.values|
    ensures var v := spec.values[i];
            && v.translations != []
            && (!Falsy(v.parentCode) ==> Find(db', tid, v.parentCode.value, None).Some?)
            && (!Falsy(v.supersededBy) ==> Find(db', tid, v.supersededBy.value, None).Some?)
  {
    var v := spec.values[i];
    assert ValueOk(spec, v);
    if !Falsy(v.parentCode) {
      var j :| 0 <= j < |spec.values| && spec.values[j].code == v.parentCode.value;
      assert Filled(db, db', spec, tid, curated, j);
    }
    if !Falsy(v.supersededBy) {
      var j :| 0 <= j < |spec.values| && spec.values[j].code == v.supersededBy.value;
      assert Filled(db, db', spec, tid, curated, j);
    }
  }

  /** The row of `v` had lost its labels and lacks a key of the file's `meta`: it is healed,
      and so passed over by the top-up. */
  ghost predicate HealedShort(row: Option<Value>, v: SeedValue) {
    row.Some? && row.value.translations == [] && Short(row.value, v)
  }

  /** After a run, a row lacks something exactly when it was healed short. */
  lemma LackingAfter(db: Db, db': Db, spec: SeedType, tid: nat, curated: bool, i: nat)
    requires Loaded(spec) && FilledIn(db, db', spec, tid, curated) && i < |spec.values|
    ensures var v := spec.values[i];
            && RowOf(db', tid, v.code, None).Some? && RowOf(db', tid, v.code, None).value.translations != []
            && (Complete(RowOf(db', tid, v.code, None), v) <==> !HealedShort(RowOf(db, tid, v.code, None), v))
            && (RowOf(db', tid, v.code, None) == RowOf(db, tid, v.code, None) ==>
                  Complete(RowOf(db, tid, v.code, None), v))
  {
    var v := spec.values[i];
    TargetsThere(db, db', spec, tid, curated, i);
    assert Filled(db, db', spec, tid, curated, i);
    UnchangedIsComplete(RowOf(db', tid, v.code, None).value, tid, v, OrderOf(v, i, curated), db',
                        RowOf(db, tid, v.code, None));
  }

  /** A run changes nothing at all if and only if every value's row is complete. */
  lemma QuietIffComplete(db: Db, spec: SeedType, tid: nat)
    requires Valid(db) && Loaded(spec) && Seeded(db, spec).1.None? && FindType(db, spec.key) == Some(tid)
    ensures Seeded(db, spec) == (db, None) <==> AllComplete(db, tid, spec.values)
  {
    if AllComplete(db, tid, spec.values) {
      CompleteRowsAreLeft(db, tid, spec.values, db.types[tid].defaultSort == BySortOrder, |spec.values|);
    } else if Seeded(db, spec) == (db, None) {
      var t, curated := SeedFills(db, spec);
      forall i | 0 <= i < |spec.values|
        ensures Complete(RowOf(db, tid, spec.values[i].code, None), spec.values[i])
      {
        LackingAfter(db, db, spec, tid, curated, i);
      }
    }
  }

  /** A run that finds a row incomplete changes some row, and so raises the version. */
  lemma IncompleteIsChanged(db: Db, spec: SeedType, tid: nat)
    requires Valid(db) && Loaded(spec) && Seeded(db, spec).1.None? && FindType(db, spec.key) == Some(tid)
    requires !AllComplete(db, tid, spec.values)
    ensures Seeded(db, spec).0.values != db.values && Seeded(db, spec).0.types == Bumped(db, tid).types
  {
    var db' := Seeded(db, spec).0;
    assert db'.values != db.values by {
      var t, curated := SeedFills(db, spec);
      if db'.values == db.values {
        SameValuesSameFinds(db, db');
        var i :| 0 <= i < |spec.values| && !Complete(RowOf(db, tid, spec.values[i].code, None), spec.values[i]);
        LackingAfter(db, db', spec, tid, curated, i);
      }
    }
    VersionTellsChange(db, spec, tid);
  }

  ghost predicate SomeHealedShort(db: Db, spec: SeedType) {
    var tid := FindType(db, spec.key);
    tid.Some? && exists i ::
      0 <= i < |spec.values| && HealedShort(RowOf(db, tid.value, spec.values[i].code, None), spec.values[i])
  }

  // ---------------------------------------------------------------------------
  // Main results
  // ---------------------------------------------------------------------------

  /** A second run changes nothing, row or version, if and only if the first healed no row
      short of a key of `meta` that the file gives. */
  lemma SecondRunIsQuietIff(db: Db, spec: SeedType)
    requires Valid(db) && Loaded(spec) && Seeded(db, spec).1.None?
    ensures var once := Seeded(db, spec).0;
            Seeded(once, spec) == (once, None) <==> !SomeHealedShort(db, spec)
  {
    var once := Seeded(db, spec).0;
    var tid, curated := SeedFills(db, spec);
    SeedsAgain(db, spec);
    QuietIffComplete(once, spec, tid);
    forall i | 0 <= i < |spec.values|
      ensures Complete(RowOf(once, tid, spec.values[i].code, None), spec.values[i])
         <==> !HealedShort(RowOf(db, tid, spec.values[i].code, None), spec.values[i])
    {
      LackingAfter(db, once, spec, tid, curated, i);
    }
    if FindType(db, spec.key).None? {
      forall i | 0 <= i < |spec.values|
        ensures RowOf(db, tid, spec.values[i].code, None).None?
      {
      }
    }
  }

  /** What seeded once seeds again. */
  lemma SeedsAgain(db: Db, spec: SeedType)
    requires Valid(db) && Loaded(spec) && Seeded(db, spec).1.None?
    ensures Seeded(Seeded(db, spec).0, spec).1.None?
  {
    var once := Seeded(db, spec).0;
    SeededKeeps(db, spec);
    var run := RunOf(db, spec);
    RunLinks(db, spec, run);
    RunKeepsTypes(db, spec, run, once);
    RunKeeps(db, spec, run);
    OnlyScopeRefuses(once, spec);
    assert once.types[run.tid].scope == run.typed.types[run.tid].scope;
  }

  /** Two runs always settle it. */
  lemma ThirdRunIsQuiet(db: Db, spec: SeedType)
    requires Valid(db) && Loaded(spec) && Seeded(db, spec).1.None?
    ensures var twice := Seeded(Seeded(db, spec).0, spec).0;
            Seeded(twice, spec) == (twice, None)
  {
    var once := Seeded(db, spec).0;
    var tid, curated := SeedFills(db, spec);
    SeedsAgain(db, spec);
    forall i | 0 <= i < |spec.values|
      ensures !HealedShort(RowOf(once, tid, spec.values[i].code, None), spec.values[i])
    {
      LackingAfter(db, once, spec, tid, curated, i);
    }
    SecondRunIsQuietIff(once, spec);
  }

  /** When the first run healed a row short, the second tops it up and raises the version
      once more. */
  lemma HealedShortIsChangedAgain(db: Db, spec: SeedType)
    requires Valid(db) && Loaded(spec) && Seeded(db, spec).1.None? && SomeHealedShort(db, spec)
    ensures var once, tid := Seeded(db, spec).0, FindType(db, spec.key).value;
            Seeded(once, spec).0.types == Bumped(once, tid).types && Seeded(once, spec).0.values != once.values
  {
    var once := Seeded(db, spec).0;
    var tid, curated := SeedFills(db, spec);
    SeedsAgain(db, spec);
    var i :| 0 <= i < |spec.values| && HealedShort(RowOf(db, tid, spec.values[i].code, None), spec.values[i]);
    LackingAfter(db, once, spec, tid, curated, i);
    IncompleteIsChanged(once, spec, tid);
  }

  /** One label-less row without a key the file has since gained is enough. */
  lemma SecondRunCanChange(
    key: string, info: TypeInfo, code: string, columns: Columns, text: Translation, name: string, value: string)
    ensures exists db, spec ::
              && Valid(db) && Loaded(spec) && Seeded(db, spec).1.None? && SomeHealedShort(db, spec)
              && spec.key == key && spec.values == [SeedValue(
                   code, [text], [], map[name := value], None, false, None, None, None, None, None)]
  {
    var row := Value(0, code, None, columns, map[], [], [], None, None);
    var db := Db(map[0 := LookupType(key, info, false, PlatformScope, ByLabel, 1)], map[0 := row], 1, 1);
    var v := SeedValue(code, [text], [], map[name := value], None, false, None, None, None, None, None);
    var spec := SeedType(key, info, false, None, None, [v]);
    assert Loaded(spec) && Valid(db);
    assert 0 in db.types && db.types[0].key == key;
    assert IsRow(db, 0, 0, code, None);
    FindIs(db, 0, 0, code, None);
    assert name in v.meta.Keys && HealedShort(RowOf(db, 0, spec.values[0].code, None), spec.values[0]);
    OnlyScopeRefuses(db, spec);
  }

  // ---------------------------------------------------------------------------
  // What other types notice
  // ---------------------------------------------------------------------------

  /** What decides whether seeding `spec` changes anything is the same in both. */
  ghost predicate SameFor(db: Db, db': Db, spec: SeedType) {
    var tid := FindType(db, spec.key);
    && FindType(db', spec.key) == tid
    && (tid.Some? ==> db'.types[tid.value] == db.types[tid.value]
                      && forall i :: 0 <= i < |spec.values| ==>
                           RowOf(db', tid.value, spec.values[i].code, None)
                             == RowOf(db, tid.value, spec.values[i].code, None))
  }

  ghost predicate OtherTypesSame(db: Db, db': Db, tid: nat) {
    forall t :: t != tid ==> (t in db'.types <==> t in db.types) && (t in db.types ==> db'.types[t] == db.types[t])
  }

  lemma TypesAfter(db: Db, spec: SeedType) returns (tid: nat)
    requires Valid(db) && Loaded(spec) && Seeded(db, spec).1.None?
    ensures var db' := Seeded(db, spec).0;
            Valid(db') && FindType(db', spec.key) == Some(tid) && OtherTypesSame(db, db', tid)
  {
    var run := RunOf(db, spec);
    RunKeeps(db, spec, run);
    RunKeepsTypes(db, spec, run, Seeded(db, spec).0);
    tid := run.tid;
  }

  lemma SameType(db: Db, db': Db, tid: nat, key: string)
    requires Valid(db) && Valid(db') && OtherTypesSame(db, db', tid) && tid in db'.types && db'.types[tid].key != key
    requires tid in db.types ==> db.types[tid].key != key
    ensures FindType(db', key) == FindType(db, key)
    ensures FindType(db, key).Some? ==> FindType(db, key).value != tid
  {
  }

  lemma OtherTypesAreLeft(db: Db, a: SeedType, b: SeedType)
    requires Valid(db) && Loaded(a) && Seeded(db, a).1.None? && a.key != b.key
    ensures SameFor(db, Seeded(db, a).0, b)
  {
    var db' := Seeded(db, a).0;
    var tid := TypesAfter(db, a);
    var t, curated := SeedFills(db, a);
    SameType(db, db', tid, b.key);
    if FindType(db, b.key).Some? {
      var found := FindType(db, b.key).value;
      forall i | 0 <= i < |b.values|
        ensures RowOf(db', found, b.values[i].code, None) == RowOf(db, found, b.values[i].code, None)
      {
        assert Elsewhere(a.values, |a.values|, tid, found, b.values[i].code, None);
      }
    }
  }

  ghost predicate Settled(db: Db, spec: SeedType) {
    var tid := FindType(db, spec.key);
    && tid.Some? && AllComplete(db, tid.value, spec.values)
    && (spec.scope.Some? ==> db.types[tid.value].scope == spec.scope.value)
  }

  lemma QuietIsSettled(db: Db, spec: SeedType)
    requires Valid(db) && Loaded(spec)
    ensures Seeded(db, spec) == (db, None) <==> Settled(db, spec)
  {
    OnlyScopeRefuses(db, spec);
    if Seeded(db, spec).1.None? {
      var t, curated := SeedFills(db, spec);
      if FindType(db, spec.key).Some? { QuietIffComplete(db, spec, FindType(db, spec.key).value); }
    }
  }

  lemma SameRowsIsSettled(db: Db, spec: SeedType)
    requires Valid(db) && Loaded(spec) && Seeded(db, spec).1.None? && Seeded(db, spec).0.values == db.values
    requires FindType(db, spec.key).Some?
    ensures Settled(db, spec)
  {
    var tid := FindType(db, spec.key).value;
    if !AllComplete(db, tid, spec.values) { IncompleteIsChanged(db, spec, tid); }
    QuietIffComplete(db, spec, tid);
    QuietIsSettled(db, spec);
  }

  lemma SettledAfterRun(db: Db, spec: SeedType)
    requires Valid(db) && Loaded(spec) && Seeded(db, spec).1.None?
    ensures var once := Seeded(db, spec).0;
            FindType(once, spec.key).Some? && (Settled(once, spec) <==> !SomeHealedShort(db, spec))
  {
    var once := Seeded(db, spec).0;
    var t, curated := SeedFills(db, spec);
    SecondRunIsQuietIff(db, spec);
    QuietIsSettled(once, spec);
  }
}
