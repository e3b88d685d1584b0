/** The lookup tables (asas_lookups/models.py): types, and values with the translations
    and aliases that hang off them. */
module LookupTables {
  import opened Wrappers

  datatype Scope = PlatformScope | OrgScope
  datatype SortMode = ByLabel | BySortOrder
  datatype Status = Active | Deprecated

  /** Columns of a type that seeding only ever writes on insert. */
  datatype TypeInfo = TypeInfo(name: string, description: Option<string>, isHierarchical: bool,
                               codeSystem: Option<string>)

  datatype LookupType = LookupType(
    key: string, info: TypeInfo, isOpen: bool, scope: Scope, defaultSort: SortMode, version: nat)

  /** Columns of a value that seeding only ever writes on insert; dates as text. */
  datatype Columns = Columns(status: Status, isDefault: bool, sortOrder: int, validFrom: Option<string>,
                             validTo: Option<string>)

  datatype Translation = Translation(lang: string, text: string, short: Option<string>)
  datatype Alias = Alias(text: string, lang: Option<string>)

  /** A value row; `org` is None for the platform's own. */
  datatype Value = Value(
    typeId: nat, code: string, org: Option<int>, columns: Columns, meta: map<string, string>,
    translations: seq<Translation>, aliases: seq<Alias>, parent: Option<nat>, successor: Option<nat>)

  datatype Db = Db(types: map<nat, LookupType>, values: map<nat, Value>, nextType: nat, nextValue: nat)

  /** The row of `code` in type `tid` that belongs to `org`. */
  predicate IsRow(db: Db, id: nat, tid: nat, code: string, org: Option<int>) {
    id in db.values && db.values[id].typeId == tid && db.values[id].code == code && db.values[id].org == org
  }

  /** What the tables' indexes and foreign keys enforce. */
  ghost predicate Valid(db: Db) {
    && (forall id :: id in db.types ==> id < db.nextType)
    && (forall id :: id in db.values ==> id < db.nextValue && db.values[id].typeId in db.types)
    && (forall s, t {:trigger db.types[s], db.types[t]} ::
          s in db.types && t in db.types && db.types[s].key == db.types[t].key ==> s == t)
    && (forall a, b {:trigger SameSlot(db.values[a], db.values[b])} ::
          a in db.values && b in db.values && SameSlot(db.values[a], db.values[b]) ==> a == b)
  }

  predicate SameSlot(a: Value, b: Value) {
    a.typeId == b.typeId && a.code == b.code && a.org == b.org
  }

  ghost function Find(db: Db, tid: nat, code: string, org: Option<int>): (r: Option<nat>)
    ensures r.Some? ==> IsRow(db, r.value, tid, code, org)
    ensures r.None? ==> forall id: nat :: !IsRow(db, id, tid, code, org)
  {
    if id: nat :| IsRow(db, id, tid, code, org) then Some(id) else None
  }

  lemma FindIs(db: Db, id: nat, tid: nat, code: string, org: Option<int>)
    requires Valid(db) && IsRow(db, id, tid, code, org)
    ensures Find(db, tid, code, org) == Some(id)
  {
    var found := Find(db, tid, code, org);
    assert SameSlot(db.values[id], db.values[found.value]);
  }

  ghost function FindType(db: Db, key: string): (r: Option<nat>)
    ensures r.Some? ==> r.value in db.types && db.types[r.value].key == key
    ensures r.None? ==> forall id :: id in db.types ==> db.types[id].key != key
  {
    if id: nat :| id in db.types && db.types[id].key == key then Some(id) else None
  }

  /** The row itself, if there is one. */
  ghost function RowOf(db: Db, tid: nat, code: string, org: Option<int>): Option<Value> {
    var id := Find(db, tid, code, org);
    if id.Some? then Some(db.values[id.value]) else None
  }

  function Insert(db: Db, value: Value): Db {
    db.(values := db.values[db.nextValue := value], nextValue := db.nextValue + 1)
  }

  lemma InsertKeepsValid(db: Db, value: Value)
    requires Valid(db) && value.typeId in db.types && Find(db, value.typeId, value.code, value.org).None?
    ensures Valid(Insert(db, value))
  {
    var db' := Insert(db, value);
    forall a, b | a in db'.values && b in db'.values && SameSlot(db'.values[a], db'.values[b])
      ensures a == b
    {
      if a == db.nextValue && b != a { assert IsRow(db, b, value.typeId, value.code, value.org); }
      if b == db.nextValue && a != b { assert IsRow(db, a, value.typeId, value.code, value.org); }
    }
  }

  /** An edit that leaves the row where it is. */
  function Edit(db: Db, id: nat, value: Value): Db {
    db.(values := db.values[id := value])
  }

  lemma EditKeepsValid(db: Db, id: nat, value: Value)
    requires Valid(db) && id in db.values && SameSlot(db.values[id], value)
    ensures Valid(Edit(db, id, value))
    ensures forall tid, code, org :: Find(Edit(db, id, value), tid, code, org) == Find(db, tid, code, org)
  {
    var db' := Edit(db, id, value);
    forall a, b | a in db'.values && b in db'.values && SameSlot(db'.values[a], db'.values[b])
      ensures a == b
    {
      assert SameSlot(db.values[a], db.values[b]);
    }
    forall tid, code, org
      ensures Find(db', tid, code, org) == Find(db, tid, code, org)
    {
      var found := Find(db, tid, code, org);
      if found.Some? {
        assert IsRow(db', found.value, tid, code, org);
        FindIs(db', found.value, tid, code, org);
      } else {
        var other := Find(db', tid, code, org);
        assert other.Some? ==> IsRow(db, other.value, tid, code, org);
      }
    }
  }

  /** The version of a type that changed, which a reader's ETag is keyed on. */
  function Bumped(db: Db, tid: nat): Db {
    if tid in db.types then db.(types := db.types[tid := db.types[tid].(version := db.types[tid].version + 1)]) else db
  }

  /** The version of `tid` is one higher, nothing else different. */
  function OneVersionUp(types: map<nat, LookupType>, tid: nat): map<nat, LookupType>
    requires tid in types
  {
    types[tid := types[tid].(version := types[tid].version + 1)]
  }
}
