/** What seeding writes, column by column (asas_lookups/seeding.py). */
module LookupRows {
  import opened Wrappers
  import opened LookupTables
  import opened LookupSeed
  import opened LookupProofs

  // ---------------------------------------------------------------------------
  // Labels, aliases and meta
  // ---------------------------------------------------------------------------

  /** The file's labels, an empty short form being none. */
  predicate LabelsOf(labels: seq<Translation>, v: SeedValue) {
    && |labels| == |v.translations|
    && forall i :: 0 <= i < |labels| ==>
         && labels[i].lang == v.translations[i].lang && labels[i].text == v.translations[i].text
         && labels[i].short == (if v.translations[i].short == Some("") then None else v.translations[i].short)
  }

  /** What healing adds: aliases of the file whose text was not there, and all of those. */
  predicate AliasesAdded(added: seq<Alias>, was: seq<Alias>, v: SeedValue) {
    && (forall a :: a in added ==> a in v.aliases && forall b :: b in was ==> b.text != a.text)
    && (forall a :: a in v.aliases && (forall b :: b in was ==> b.text != a.text) ==> a in added)
  }

  /** The file's keys and the row's own, the row's values where both have one. */
  predicate MetaMerged(meta: map<string, string>, was: map<string, string>, v: SeedValue) {
    && meta.Keys == was.Keys + v.meta.Keys
    && (forall k :: k in meta ==> meta[k] == if k in was then was[k] else v.meta[k])
  }

  lemma {:induction false} AbsentIs(aliases: seq<Alias>, present: seq<Alias>)
    ensures forall a :: a in Absent(aliases, present) <==>
              a in aliases && forall b :: b in present ==> b.text != a.text
  {
    if aliases != [] {
      var init, last := aliases[..|aliases| - 1], aliases[|aliases| - 1];
      AbsentIs(init, present);
      assert aliases == init + [last];
    }
  }

  // ---------------------------------------------------------------------------
  // One row
  // ---------------------------------------------------------------------------

  /** The pointer as it was, or to the row of the code the file gives, if it gives one. */
  ghost predicate PointerFits(db: Db, tid: nat, was: Option<nat>, now: Option<nat>, code: Option<string>) {
    if was.Some? || code.None? || code.value == "" then now == was
    else now.Some? && IsRow(db, now.value, tid, code.value, None)
  }

  /** A row made for `v`, the `i`th value of the file. */
  predicate MadeFor(row: Value, tid: nat, v: SeedValue, i: nat, curated: bool) {
    && row.typeId == tid && row.code == v.code && row.org.None?
    && row.columns.status == (if v.status.Some? then v.status.value else Active)
    && row.columns.isDefault == v.isDefault
    && row.columns.sortOrder == (if v.sortOrder.Some? then v.sortOrder.value else if curated then i else 0)
    && row.columns.validFrom == v.validFrom && row.columns.validTo == v.validTo
    && row.meta == v.meta && row.aliases == v.aliases && LabelsOf(row.translations, v)
  }

  /** A row that was there: its place and columns are kept; without a label it gets the
      file's labels and aliases, and with one the keys of `meta` it lacks. */
  predicate KeptFor(row: Value, was: Value, v: SeedValue) {
    && row.typeId == was.typeId && row.code == was.code && row.org == was.org && row.columns == was.columns
    && (if was.translations == [] then
          && LabelsOf(row.translations, v) && row.meta == was.meta
          && was.aliases <= row.aliases && AliasesAdded(row.aliases[|was.aliases|..], was.aliases, v)
        else row.translations == was.translations && row.aliases == was.aliases && MetaMerged(row.meta, was.meta, v))
  }

  ghost predicate RowFits(db: Db, row: Value, was: Option<Value>, tid: nat, v: SeedValue, i: nat, curated: bool) {
    && (if was.None? then MadeFor(row, tid, v, i, curated) else KeptFor(row, was.value, v))
    && PointerFits(db, tid, if was.Some? then was.value.parent else None, row.parent, v.parentCode)
    && PointerFits(db, tid, if was.Some? then was.value.successor else None, row.successor, v.supersededBy)
  }

  lemma LabelsAreOf(v: SeedValue)
    ensures LabelsOf(Labels(v), v)
  {
  }

  lemma HealedFits(was: Value, v: SeedValue)
    requires was.translations == []
    ensures KeptFor(Healed(was, v), was, v)
  {
    LabelsAreOf(v);
    AbsentIs(v.aliases, was.aliases);
    var row := Healed(was, v);
    assert row.translations == Labels(v);
    assert row.aliases[|was.aliases|..] == Absent(v.aliases, was.aliases);
  }

  lemma ToppedUpFits(was: Value, v: SeedValue)
    requires was.translations != []
    ensures Short(was, v) ==> KeptFor(ToppedUp(was, v), was, v)
    ensures !Short(was, v) ==> KeptFor(was, was, v)
  {
    if !Short(was, v) { assert was.meta.Keys == was.meta.Keys + v.meta.Keys; }
  }

  lemma RowAfterFits(was: Option<Value>, tid: nat, v: SeedValue, i: nat, curated: bool)
    ensures var row := RowAfter(was, tid, v, OrderOf(v, i, curated));
            && (if was.None? then MadeFor(row, tid, v, i, curated) else KeptFor(row, was.value, v))
            && row.parent == (if was.Some? then was.value.parent else None)
            && row.successor == (if was.Some? then was.value.successor else None)
  {
    LabelsAreOf(v);
    if was.Some? {
      if was.value.translations == [] { HealedFits(was.value, v); } else { ToppedUpFits(was.value, v); }
    }
  }

  lemma LinkedFits(db: Db, tid: nat, row: Value, v: SeedValue)
    requires (!Falsy(v.parentCode) ==> Find(db, tid, v.parentCode.value, None).Some?)
    requires (!Falsy(v.supersededBy) ==> Find(db, tid, v.supersededBy.value, None).Some?)
    ensures var linked := Linked(db, tid, row, v);
            && linked == row.(parent := linked.parent, successor := linked.successor)
            && PointerFits(db, tid, row.parent, linked.parent, v.parentCode)
            && PointerFits(db, tid, row.successor, linked.successor, v.supersededBy)
  {
  }

  // ---------------------------------------------------------------------------
  // Main results
  // ---------------------------------------------------------------------------

  /** The row of a code that some value of the file has is there after the run. */
  lemma TargetFilled(db: Db, db': Db, spec: SeedType, tid: nat, curated: bool, code: Option<string>)
    requires FilledIn(db, db', spec, tid, curated) && Targets(spec.values, code)
    ensures !Falsy(code) ==> Find(db', tid, code.value, None).Some?
  {
    if !Falsy(code) {
      var j :| 0 <= j < |spec.values| && spec.values[j].code == code.value;
      assert Filled(db, db', spec, tid, curated, j);
    }
  }

  lemma FilledFits(db: Db, db': Db, spec: SeedType, tid: nat, curated: bool, i: nat)
    requires Loaded(spec) && FilledIn(db, db', spec, tid, curated) && i < |spec.values|
    ensures var v := spec.values[i];
            var was, row := RowOf(db, tid, v.code, None), RowOf(db', tid, v.code, None);
            row.Some? && RowFits(db', row.value, was, tid, v, i, curated)
  {
    var v := spec.values[i];
    var was := RowOf(db, tid, v.code, None);
    assert ValueOk(spec, v) && Filled(db, db', spec, tid, curated, i);
    TargetFilled(db, db', spec, tid, curated, v.parentCode);
    TargetFilled(db, db', spec, tid, curated, v.supersededBy);
    RowAfterFits(was, tid, v, i, curated);
    LinkedFits(db', tid, RowAfter(was, tid, v, OrderOf(v, i, curated)), v);
  }

  /** After a run that succeeds, the row of every value of the file is, in each column,
      what the file says for a new row, and what was there and the file together say for
      an old one; each pointer the file gives is as it was or to the row of that code. */
  lemma SeedFillsColumns(db: Db, spec: SeedType) returns (tid: nat)
    requires Valid(db) && Loaded(spec) && Seeded(db, spec).1.None?
    ensures var db' := Seeded(db, spec).0;
            && FindType(db', spec.key) == Some(tid)
            && forall i :: 0 <= i < |spec.values| ==>
                 var v := spec.values[i];
                 var was, row := RowOf(db, tid, v.code, None), RowOf(db', tid, v.code, None);
                 row.Some? && RowFits(db', row.value, was, tid, v, i, db'.types[tid].defaultSort == BySortOrder)
  {
    var curated;
    tid, curated := SeedFills(db, spec);
    var db' := Seeded(db, spec).0;
    forall i | 0 <= i < |spec.values|
      ensures var v := spec.values[i];
              var was, row := RowOf(db, tid, v.code, None), RowOf(db', tid, v.code, None);
              row.Some? && RowFits(db', row.value, was, tid, v, i, curated)
    {
      FilledFits(db, db', spec, tid, curated, i);
    }
  }

  /** One pointer of one value: left if the value has no row, the file names no target or
      the row points somewhere already; an error if the target has no row; and otherwise
      set to it, nothing else moving. */
  lemma LinkFieldIs(db: Db, tid: nat, v: SeedValue, p: Pointer)
    ensures var code := if p == Parent then v.parentCode else v.supersededBy;
            var own, (db', ok) := Find(db, tid, v.code, None), LinkField(db, tid, v, p);
            if own.None? || code.None? || code.value == "" then (db', ok) == (db, true)
            else
              var row := db.values[own.value];
              if (if p == Parent then row.parent else row.successor).Some? then (db', ok) == (db, true)
              else
                var target := Find(db, tid, code.value, None);
                if target.None? then (db', ok) == (db, false)
                else
                  && ok && db' == db.(values := db.values[own.value :=
                       if p == Parent then row.(parent := target) else row.(successor := target)])
  {
  }
}
