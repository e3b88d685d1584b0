/** Seeding lookup types from a file (asas_lookups/seeding.py). */
module LookupSeed {
  import opened Wrappers
  import opened LookupTables

  // ---------------------------------------------------------------------------
  // The file
  // ---------------------------------------------------------------------------

  datatype SeedValue = SeedValue(
    code: string, translations: seq<Translation>, aliases: seq<Alias>, meta: map<string, string>,
    status: Option<Status>, isDefault: bool, sortOrder: Option<int>, validFrom: Option<string>, validTo: Option<string>,
    parentCode: Option<string>, supersededBy: Option<string>)

  datatype SeedType = SeedType(
    key: string, info: TypeInfo, isOpen: bool, scope: Option<Scope>, defaultSort: Option<SortMode>,
    values: seq<SeedValue>)

  predicate HasCode(values: seq<SeedValue>, code: string) {
    exists i :: 0 <= i < |values| && values[i].code == code
  }

  predicate Targets(values: seq<SeedValue>, target: Option<string>) {
    target.Some? ==> target.value != "" && HasCode(values, target.value)
  }

  predicate ValueOk(spec: SeedType, v: SeedValue) {
    v.translations != [] && Targets(spec.values, v.parentCode) && Targets(spec.values, v.supersededBy)
  }

  /** What `load` refuses a type of a file without (asas_lookups/data). */
  predicate Loaded(spec: SeedType) {
    && (spec.isOpen ==> spec.scope == Some(OrgScope))
    && (forall i, j :: 0 <= i < j < |spec.values| ==> spec.values[i].code != spec.values[j].code)
    && (forall i {:trigger ValueOk(spec, spec.values[i])} :: 0 <= i < |spec.values| ==> ValueOk(spec, spec.values[i]))
  }

  // ---------------------------------------------------------------------------
  // What seeding does
  // ---------------------------------------------------------------------------

  datatype SeedError = OpenNeedsOrgScope | ScopeMismatch | NoTarget

  predicate Falsy(text: Option<string>) {
    text.None? || text.value == ""
  }

  function Effective(db: Db, tid: Option<nat>, scope: Option<Scope>): Scope
    requires tid.Some? ==> tid.value in db.types
  {
    if scope.Some? then scope.value else if tid.Some? then db.types[tid.value].scope else PlatformScope
  }

  function NewType(spec: SeedType, scope: Scope): LookupType {
    var sort := if spec.defaultSort.Some? then spec.defaultSort.value else ByLabel;
    LookupType(spec.key, spec.info, spec.isOpen, scope, sort, 1)
  }

  /** `ensure_type`: the type's row, made if there is none of its key. */
  ghost function EnsureType(db: Db, spec: SeedType): Result<(Db, nat), SeedError> {
    var tid := FindType(db, spec.key);
    var scope := Effective(db, tid, spec.scope);
    if spec.isOpen && scope != OrgScope then Err(OpenNeedsOrgScope)
    else if tid.Some? then
      if spec.scope.Some? && db.types[tid.value].scope != scope then Err(ScopeMismatch) else Ok((db, tid.value))
    else Ok((db.(types := db.types[db.nextType := NewType(spec, scope)], nextType := db.nextType + 1), db.nextType))
  }

  function Labels(v: SeedValue): (r: seq<Translation>)
    ensures |r| == |v.translations|
  {
    seq(|v.translations|, i requires 0 <= i < |v.translations| =>
      var t := v.translations[i]; if Falsy(t.short) then t.(short := None) else t)
  }

  function NewRow(tid: nat, v: SeedValue, order: int): Value {
    Value(tid, v.code, None,
      Columns(if v.status.Some? then v.status.value else Active, v.isDefault, order, v.validFrom, v.validTo),
      v.meta, Labels(v), v.aliases, None, None)
  }

  /** The aliases whose text is not yet there, those given twice included twice. */
  function Absent(aliases: seq<Alias>, present: seq<Alias>): seq<Alias> {
    if aliases == [] then []
    else
      var last := aliases[|aliases| - 1];
      Absent(aliases[..|aliases| - 1], present) + if exists a :: a in present && a.text == last.text then [] else [last]
  }

  /** A row without a label gets the file's labels and aliases. */
  function Healed(row: Value, v: SeedValue): Value {
    row.(translations := row.translations + Labels(v), aliases := row.aliases + Absent(v.aliases, row.aliases))
  }

  ghost function EnsureValue(db: Db, tid: nat, v: SeedValue, order: int): (Db, bool) {
    var id := Find(db, tid, v.code, None);
    if id.None? then (Insert(db, NewRow(tid, v, order)), true)
    else
      var row := db.values[id.value];
      if row.translations != [] then (db, false) else (Edit(db, id.value, Healed(row, v)), true)
  }

  predicate Short(row: Value, v: SeedValue) {
    !(v.meta.Keys <= row.meta.Keys)
  }

  /** A row gets the keys of `meta` it lacks, and keeps its own. */
  function ToppedUp(row: Value, v: SeedValue): Value {
    row.(meta := v.meta + row.meta)
  }

  ghost function BackfillMeta(db: Db, tid: nat, v: SeedValue): (Db, bool) {
    var id := Find(db, tid, v.code, None);
    if id.Some? && Short(db.values[id.value], v) then (Edit(db, id.value, ToppedUp(db.values[id.value], v)), true)
    else (db, false)
  }

  function OrderOf(v: SeedValue, index: nat, curated: bool): int {
    if v.sortOrder.Some? then v.sortOrder.value else if curated then index else 0
  }

  /** One value of the file; only a row that was not just written is topped up. */
  ghost function SeedRow(db: Db, tid: nat, v: SeedValue, order: int): (Db, bool) {
    var (db', wrote) := EnsureValue(db, tid, v, order);
    if wrote then (db', true) else BackfillMeta(db', tid, v)
  }

  /** The first `n` values, and whether any changed anything. */
  ghost function SeedRows(db: Db, tid: nat, values: seq<SeedValue>, curated: bool, n: nat): (Db, bool)
    requires n <= |values|
  {
    if n == 0 then (db, false)
    else
      var (before, changed) := SeedRows(db, tid, values, curated, n - 1);
      var (after, more) := SeedRow(before, tid, values[n - 1], OrderOf(values[n - 1], n - 1, curated));
      (after, changed || more)
  }

  /** The two self-references of a value, filled one after the other. */
  datatype Pointer = Parent | Successor

  function Target(v: SeedValue, p: Pointer): Option<string> {
    if p.Parent? then v.parentCode else v.supersededBy
  }

  function PointerOf(row: Value, p: Pointer): Option<nat> {
    if p.Parent? then row.parent else row.successor
  }

  function Pointing(row: Value, p: Pointer, id: nat): Value {
    if p.Parent? then row.(parent := Some(id)) else row.(successor := Some(id))
  }

  /** Fills one pointer of one value's row while it is NULL; false if there is no row to
      point at. */
  ghost function LinkField(db: Db, tid: nat, v: SeedValue, p: Pointer): (Db, bool) {
    var id := Find(db, tid, v.code, None);
    if id.None? || Falsy(Target(v, p)) || PointerOf(db.values[id.value], p).Some? then (db, true)
    else
      var target := Find(db, tid, Target(v, p).value, None);
      if target.None? then (db, false) else (Edit(db, id.value, Pointing(db.values[id.value], p, target.value)), true)
  }

  ghost function LinkRow(db: Db, tid: nat, v: SeedValue): (Db, bool) {
    var (first, ok) := LinkField(db, tid, v, Parent);
    if ok then LinkField(first, tid, v, Successor) else (first, ok)
  }

  ghost function LinkRows(db: Db, tid: nat, values: seq<SeedValue>, n: nat): (Db, bool)
    requires n <= |values|
  {
    if n == 0 then (db, true)
    else
      var (before, ok) := LinkRows(db, tid, values, n - 1);
      if ok then LinkRow(before, tid, values[n - 1]) else (before, ok)
  }

  /** `_seed_type`. A pointer without a target undoes the links, not the values. */
  ghost function Seeded(db: Db, spec: SeedType): (Db, Option<SeedError>) {
    match EnsureType(db, spec)
    case Err(e) => (db, Some(e))
    case Ok((typed, tid)) =>
      var curated := tid in typed.types && typed.types[tid].defaultSort == BySortOrder;
      var (filled, changed) := SeedRows(typed, tid, spec.values, curated, |spec.values|);
      var (linked, ok) := LinkRows(filled, tid, spec.values, |spec.values|);
      if !ok then (filled, Some(NoTarget))
      else (if changed || linked != filled then Bumped(linked, tid) else linked, None)
  }

  type Step = (Db, SeedType) -> (Db, Option<SeedError>)

  ghost function SeedStep(): Step {
    (db, spec) => Seeded(db, spec)
  }

  /** `seed_file`: the first `n` types of a file, up to the first that fails. */
  ghost function SeededAll(step: Step, db: Db, specs: seq<SeedType>, n: nat): (Db, Option<SeedError>)
    requires n <= |specs|
  {
    if n == 0 then (db, None)
    else
      var (before, error) := SeededAll(step, db, specs, n - 1);
      if error.Some? then (before, error) else step(before, specs[n - 1])
  }

  // ---------------------------------------------------------------------------
  // What every step keeps
  // ---------------------------------------------------------------------------

  lemma EnsureTypeKeeps(db: Db, spec: SeedType)
    requires Valid(db)
    ensures EnsureType(db, spec).Ok? ==>
              Valid(EnsureType(db, spec).value.0) && EnsureType(db, spec).value.1 in EnsureType(db, spec).value.0.types
  {
  }

  lemma EnsureValueKeeps(db: Db, tid: nat, v: SeedValue, order: int)
    requires Valid(db) && tid in db.types
    ensures var db' := EnsureValue(db, tid, v, order).0; Valid(db') && db'.types == db.types
  {
    var id := Find(db, tid, v.code, None);
    if id.None? {
      InsertKeepsValid(db, NewRow(tid, v, order));
    } else {
      EditKeepsValid(db, id.value, Healed(db.values[id.value], v));
    }
  }

  lemma BackfillKeeps(db: Db, tid: nat, v: SeedValue)
    requires Valid(db)
    ensures var db' := BackfillMeta(db, tid, v).0; Valid(db') && db'.types == db.types
  {
    var id := Find(db, tid, v.code, None);
    if id.Some? { EditKeepsValid(db, id.value, ToppedUp(db.values[id.value], v)); }
  }

  lemma SeedRowKeeps(db: Db, tid: nat, v: SeedValue, order: int)
    requires Valid(db) && tid in db.types
    ensures var db' := SeedRow(db, tid, v, order).0; Valid(db') && db'.types == db.types
  {
    EnsureValueKeeps(db, tid, v, order);
    BackfillKeeps(EnsureValue(db, tid, v, order).0, tid, v);
  }

  lemma {:induction false} SeedRowsKeeps(db: Db, tid: nat, values: seq<SeedValue>, curated: bool, n: nat)
    requires Valid(db) && tid in db.types && n <= |values|
    ensures var db' := SeedRows(db, tid, values, curated, n).0; Valid(db') && db'.types == db.types
  {
    if n > 0 {
      SeedRowsKeeps(db, tid, values, curated, n - 1);
      SeedRowKeeps(SeedRows(db, tid, values, curated, n - 1).0, tid, values[n - 1],
                   OrderOf(values[n - 1], n - 1, curated));
    }
  }

  /** Linking moves no row. */
  ghost predicate SamePlaces(db: Db, db': Db) {
    && db'.types == db.types && db'.values.Keys == db.values.Keys
    && (forall tid, code, org :: Find(db', tid, code, org) == Find(db, tid, code, org))
  }

  lemma LinkFieldKeeps(db: Db, tid: nat, v: SeedValue, p: Pointer)
    requires Valid(db)
    ensures var db' := LinkField(db, tid, v, p).0; Valid(db') && SamePlaces(db, db')
  {
    var id := Find(db, tid, v.code, None);
    if id.Some? && !Falsy(Target(v, p)) {
      var target := Find(db, tid, Target(v, p).value, None);
      if target.Some? { EditKeepsValid(db, id.value, Pointing(db.values[id.value], p, target.value)); }
    }
  }

  lemma LinkRowKeeps(db: Db, tid: nat, v: SeedValue)
    requires Valid(db)
    ensures var db' := LinkRow(db, tid, v).0; Valid(db') && SamePlaces(db, db')
  {
    LinkFieldKeeps(db, tid, v, Parent);
    LinkFieldKeeps(LinkField(db, tid, v, Parent).0, tid, v, Successor);
  }

  lemma {:induction false} LinkRowsKeeps(db: Db, tid: nat, values: seq<SeedValue>, n: nat)
    requires Valid(db) && n <= |values|
    ensures var db' := LinkRows(db, tid, values, n).0; Valid(db') && SamePlaces(db, db')
  {
    if n > 0 {
      LinkRowsKeeps(db, tid, values, n - 1);
      LinkRowKeeps(LinkRows(db, tid, values, n - 1).0, tid, values[n - 1]);
    }
  }

  lemma SeededKeeps(db: Db, spec: SeedType)
    requires Valid(db)
    ensures Valid(Seeded(db, spec).0)
  {
    EnsureTypeKeeps(db, spec);
    if EnsureType(db, spec).Ok? {
      var (typed, tid) := EnsureType(db, spec).value;
      var curated := typed.types[tid].defaultSort == BySortOrder;
      SeedRowsKeeps(typed, tid, spec.values, curated, |spec.values|);
      LinkRowsKeeps(SeedRows(typed, tid, spec.values, curated, |spec.values|).0, tid, spec.values, |spec.values|);
    }
  }
}
