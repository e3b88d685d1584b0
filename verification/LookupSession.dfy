/** The seeders as they run on a session (asas_lookups/seeding.py). */
module LookupSession {
  import opened Wrappers
  import opened LookupTables
  import opened LookupSeed
  import opened LookupOrgs

  /** `rows` are the rows of a type that belong to `org`, by code. */
  ghost predicate IsIndex(db: Db, tid: nat, org: Option<int>, rows: map<string, nat>) {
    forall code :: Find(db, tid, code, org) == if code in rows then Some(rows[code]) else None
  }

  lemma MissingByIndex(db: Db, own: map<string, nat>, tid: nat, org: int, t: nat)
    requires IsIndex(db, tid, Some(org), own) && IsTemplate(db, t, tid)
    ensures IsMissing(db, t, tid, org) <==> db.values[t].code !in own
  {
  }

  lemma SameIndex(db: Db, db': Db, tid: nat, rows: map<string, nat>)
    requires IsIndex(db, tid, None, rows) && SamePlaces(db, db')
    ensures IsIndex(db', tid, None, rows)
  {
  }

  /** The file's type: refused if it is open but would not be scoped to organisations, or
      is there under another scope than the one declared; found as it is; or new, with the
      file's columns and, where it gives none, for the platform and sorted by label. */
  ghost predicate IsTypeFor(db: Db, spec: SeedType, r: Result<nat, SeedError>, db': Db) {
    var there := FindType(db, spec.key);
    var scope := if spec.scope.Some? then spec.scope.value
                 else if there.Some? then db.types[there.value].scope else PlatformScope;
    if spec.isOpen && scope == PlatformScope then r == Err(OpenNeedsOrgScope) && db' == db
    else if there.Some? then
      && db' == db
      && r == (if db.types[there.value].scope == scope then Ok(there.value) else Err(ScopeMismatch))
    else
      && r == Ok(db.nextType) && db.nextType in db'.types
      && db' == db.(types := db.types[db.nextType := db'.types[db.nextType]], nextType := db.nextType + 1)
      && var t := db'.types[db.nextType];
         && t.key == spec.key && t.info == spec.info && t.isOpen == spec.isOpen && t.scope == scope && t.version == 1
         && t.defaultSort == (if spec.defaultSort.Some? then spec.defaultSort.value else ByLabel)
  }

  class Session {
    var db: Db

    constructor (db: Db)
      ensures this.db == db
    {
      this.db := db;
    }

    method RowId(tid: nat, code: string, org: Option<int>) returns (r: Option<nat>)
      requires Valid(db)
      ensures r == Find(db, tid, code, org)
    {
      var left := db.values.Keys;
      while left != {}
        invariant left <= db.values.Keys
        invariant forall id :: id in db.values && id !in left ==> !IsRow(db, id, tid, code, org)
        decreases left
      {
        var id :| id in left;
        if IsRow(db, id, tid, code, org) {
          FindIs(db, id, tid, code, org);
          return Some(id);
        }
        left := left - {id};
      }
      r := None;
    }

    method TypeId(key: string) returns (r: Option<nat>)
      requires Valid(db)
      ensures r == FindType(db, key)
    {
      var left := db.types.Keys;
      while left != {}
        invariant left <= db.types.Keys
        invariant forall id :: id in db.types && id !in left ==> db.types[id].key != key
        decreases left
      {
        var id :| id in left;
        if db.types[id].key == key {
          return Some(id);
        }
        left := left - {id};
      }
      r := None;
    }

    /** `ensure_type`. */
    method TypeFor(spec: SeedType) returns (r: Result<nat, SeedError>)
      requires Valid(db)
      modifies this
      ensures match EnsureType(old(db), spec)
              case Ok((typed, tid)) => r == Ok(tid) && db == typed && tid in db.types
              case Err(e) => r == Err(e) && db == old(db)
      ensures IsTypeFor(old(db), spec, r, db)
      ensures Valid(db)
    {
      EnsureTypeKeeps(db, spec);
      var tid := TypeId(spec.key);
      var scope :=
        if spec.scope.Some? then spec.scope.value else if tid.Some? then db.types[tid.value].scope else PlatformScope;
      if spec.isOpen && scope != OrgScope {
        return Err(OpenNeedsOrgScope);
      }
      if tid.Some? {
        if spec.scope.Some? && db.types[tid.value].scope != scope {
          return Err(ScopeMismatch);
        }
        return Ok(tid.value);
      }
      r := Ok(db.nextType);
      db := db.(types := db.types[db.nextType := NewType(spec, scope)], nextType := db.nextType + 1);
    }

    /** `ensure_value`: true when something was written. */
    method ValueFor(tid: nat, v: SeedValue, order: int) returns (wrote: bool)
      requires Valid(db) && tid in db.types
      modifies this
      ensures (db, wrote) == EnsureValue(old(db), tid, v, order)
      ensures Valid(db) && db.types == old(db).types
    {
      EnsureValueKeeps(db, tid, v, order);
      var existing := RowId(tid, v.code, None);
      if existing.Some? {
        var row := db.values[existing.value];
        if row.translations != [] {
          return false;
        }
        row := row.(translations := row.translations + Labels(v));
        var present, added := row.aliases, [];
        for i := 0 to |v.aliases|
          invariant added == Absent(v.aliases[..i], present)
        {
          assert v.aliases[..i + 1][..i] == v.aliases[..i];
          if !exists a :: a in present && a.text == v.aliases[i].text {
            added := added + [v.aliases[i]];
          }
        }
        assert v.aliases[..|v.aliases|] == v.aliases;
        row := row.(aliases := present + added);
        db := db.(values := db.values[existing.value := row]);
        return true;
      }
      db := Insert(db, NewRow(tid, v, order));
      return true;
    }

    /** `_backfill_meta`: true when the row lacked a key. */
    method TopUp(tid: nat, v: SeedValue) returns (changed: bool)
      requires Valid(db) && tid in db.types
      modifies this
      ensures (db, changed) == BackfillMeta(old(db), tid, v)
      ensures Valid(db) && db.types == old(db).types
    {
      BackfillKeeps(db, tid, v);
      var id := RowId(tid, v.code, None);
      if id.None? {
        return false;
      }
      var row := db.values[id.value];
      var missing := map k | k in v.meta && k !in row.meta :: v.meta[k];
      assert forall k :: k in v.meta && k !in row.meta ==> k in missing.Keys;
      if missing == map[] {
        return false;
      }
      var k :| k in missing;
      assert k in v.meta.Keys && k !in row.meta.Keys;
      db := db.(values := db.values[id.value := row.(meta := row.meta + missing)]);
      assert row.meta + missing == v.meta + row.meta;
      return true;
    }

    /** The rows of a type that belong to `org`, by code. */
    method RowsByCode(tid: nat, org: Option<int>) returns (rows: map<string, nat>)
      requires Valid(db)
      ensures IsIndex(db, tid, org, rows)
    {
      rows := map[];
      var left := db.values.Keys;
      while left != {}
        invariant left <= db.values.Keys
        invariant forall code :: code in rows ==> IsRow(db, rows[code], tid, code, org)
        invariant forall id :: id in db.values && id !in left && IsRow(db, id, tid, db.values[id].code, org) ==>
                    db.values[id].code in rows
        decreases left
      {
        var id :| id in left;
        left := left - {id};
        if db.values[id].typeId == tid && db.values[id].org == org {
          rows := rows[db.values[id].code := id];
        }
      }
      forall code
        ensures Find(db, tid, code, org) == if code in rows then Some(rows[code]) else None
      {
        if code in rows { FindIs(db, rows[code], tid, code, org); }
      }
    }

    /** One pointer of one value, its target looked up in the rows as they were. */
    method FillPointer(work: Db, rows: map<string, nat>, tid: nat, v: SeedValue, p: Pointer)
      returns (linked: Db, ok: bool)
      requires Valid(work) && IsIndex(work, tid, None, rows)
      ensures (linked, ok) == LinkField(work, tid, v, p)
    {
      if v.code !in rows || Falsy(Target(v, p)) || PointerOf(work.values[rows[v.code]], p).Some? {
        return work, true;
      }
      if Target(v, p).value !in rows {
        return work, false;
      }
      var row := work.values[rows[v.code]];
      linked := Edit(work, rows[v.code], Pointing(row, p, rows[Target(v, p).value]));
      ok := true;
    }

    method LinkValue(work: Db, rows: map<string, nat>, tid: nat, v: SeedValue) returns (linked: Db, ok: bool)
      requires Valid(work) && IsIndex(work, tid, None, rows)
      ensures (linked, ok) == LinkRow(work, tid, v)
    {
      LinkFieldKeeps(work, tid, v, Parent);
      linked, ok := FillPointer(work, rows, tid, v, Parent);
      if ok {
        linked, ok := FillPointer(linked, rows, tid, v, Successor);
      }
    }

    /** All links, on a copy that an error throws away. */
    method LinkAll(tid: nat, values: seq<SeedValue>) returns (linked: Db, ok: bool)
      requires Valid(db)
      ensures ok == LinkRows(db, tid, values, |values|).1
      ensures ok ==> linked == LinkRows(db, tid, values, |values|).0
    {
      var rows := RowsByCode(tid, None);
      linked, ok := db, true;
      for i := 0 to |values|
        invariant ok && (linked, ok) == LinkRows(db, tid, values, i)
      {
        LinkRowsKeeps(db, tid, values, i);
        SameIndex(db, linked, tid, rows);
        linked, ok := LinkValue(linked, rows, tid, values[i]);
        if !ok {
          LinkFails(db, tid, values, i + 1, |values|);
          return;
        }
      }
    }

    /** `_link_pass`: true when a pointer was filled; an error leaves the rows unlinked. */
    method LinkPass(tid: nat, values: seq<SeedValue>) returns (r: Result<bool, SeedError>)
      requires Valid(db)
      modifies this
      ensures var (linked, ok) := LinkRows(old(db), tid, values, |values|);
              if ok then db == linked && r == Ok(linked != old(db)) else db == old(db) && r == Err(NoTarget)
      ensures Valid(db) && db.types == old(db).types
    {
      LinkRowsKeeps(db, tid, values, |values|);
      var linked, ok := LinkAll(tid, values);
      if !ok {
        return Err(NoTarget);
      }
      r := Ok(linked != db);
      db := linked;
    }

    /** `bump_version_if`. */
    method BumpVersionIf(tid: nat, changed: bool)
      requires tid in db.types
      modifies this
      ensures db == if changed then Bumped(old(db), tid) else old(db)
    {
      if changed {
        db := db.(types := db.types[tid := db.types[tid].(version := db.types[tid].version + 1)]);
      }
    }

    /** The values of a type, one after the other; true when any row changed. */
    method SeedValues(tid: nat, values: seq<SeedValue>, curated: bool) returns (changed: bool)
      requires Valid(db) && tid in db.types
      modifies this
      ensures (db, changed) == SeedRows(old(db), tid, values, curated, |values|)
      ensures Valid(db) && db.types == old(db).types
    {
      changed := false;
      for i := 0 to |values|
        invariant Valid(db) && db.types == old(db).types
        invariant SeedRows(old(db), tid, values, curated, i) == (db, changed)
      {
        var v := values[i];
        var order := if v.sortOrder.Some? then v.sortOrder.value else if curated then i else 0;
        var wrote := SeedValueRow(tid, v, order);
        changed := changed || wrote;
      }
    }

    method SeedValueRow(tid: nat, v: SeedValue, order: int) returns (changed: bool)
      requires Valid(db) && tid in db.types
      modifies this
      ensures (db, changed) == SeedRow(old(db), tid, v, order)
      ensures Valid(db) && db.types == old(db).types
    {
      changed := ValueFor(tid, v, order);
      if !changed && v.meta != map[] {
        changed := TopUp(tid, v);
      }
    }

    /** `_seed_type`. */
    method SeedOne(spec: SeedType) returns (error: Option<SeedError>)
      requires Valid(db)
      modifies this
      ensures (db, error) == Seeded(old(db), spec) && Valid(db)
    {
      SeededKeeps(db, spec);
      var tid := TypeFor(spec);
      if tid.Err? {
        return Some(tid.error);
      }
      var curated := db.types[tid.value].defaultSort == BySortOrder;
      var changed := SeedValues(tid.value, spec.values, curated);
      var linked := LinkPass(tid.value, spec.values);
      if linked.Err? {
        return Some(linked.error);
      }
      BumpVersionIf(tid.value, changed || linked.value);
      error := None;
    }

    /** `seed_file`: one type after the other, up to the first error. */
    method SeedFile(specs: seq<SeedType>) returns (error: Option<SeedError>)
      requires Valid(db)
      modifies this
      ensures (db, error) == SeededAll(SeedStep(), old(db), specs, |specs|) && Valid(db)
    {
      error := None;
      for i := 0 to |specs|
        invariant Valid(db) && SeededAll(SeedStep(), old(db), specs, i) == (db, None) && error.None?
      {
        error := SeedOne(specs[i]);
        if error.Some? {
          ErrorEndsIt(SeedStep(), old(db), specs, i + 1, |specs|);
          return;
        }
      }
    }

    /** The templates of a type, in some order. */
    method Templates(tid: nat) returns (templates: seq<nat>)
      ensures forall t :: t in templates <==> IsTemplate(db, t, tid)
      ensures Distinct(templates)
    {
      templates := [];
      var left := db.values.Keys;
      while left != {}
        invariant left <= db.values.Keys
        invariant forall t :: t in templates <==> IsTemplate(db, t, tid) && t !in left
        invariant Distinct(templates)
        decreases left
      {
        var id :| id in left;
        left := left - {id};
        if IsTemplate(db, id, tid) {
          templates := templates + [id];
        }
      }
    }

    /** A copy of one template, without pointers, unless `own` has its code. */
    method CopyTemplate(before: Db, own: map<string, nat>, copies: map<nat, nat>, tid: nat, org: int, t: nat)
      returns (more: map<nat, nat>)
      requires Valid(before) && Copying(before, db, tid, org, copies, {})
      requires IsIndex(before, tid, Some(org), own) && IsTemplate(before, t, tid) && t !in copies
      modifies this
      ensures Copying(before, db, tid, org, more, {})
      ensures more.Keys == copies.Keys + if IsMissing(before, t, tid, org) then {t} else {}
    {
      var template := before.values[t];
      more := copies;
      MissingByIndex(before, own, tid, org, t);
      if template.code !in own {
        CopyOne(before, db, tid, org, copies, t);
        more := copies[t := db.nextValue];
        db := Insert(db, CopyOf(template, org));
        assert more.Keys == copies.Keys + {t};
      } else {
        assert more.Keys == copies.Keys + {};
      }
    }

    /** The `i`th template's turn. */
    method CopyNext(
      before: Db, own: map<string, nat>, copies: map<nat, nat>, tid: nat, org: int, templates: seq<nat>, i: nat)
      returns (more: map<nat, nat>)
      requires Valid(before) && Copying(before, db, tid, org, copies, {}) && IsIndex(before, tid, Some(org), own)
      requires i < |templates| && Distinct(templates) && CopiesOf(before, tid, org, templates, i, copies)
      requires IsTemplate(before, templates[i], tid)
      modifies this
      ensures Copying(before, db, tid, org, more, {}) && CopiesOf(before, tid, org, templates, i + 1, more)
    {
      PrefixGrows(templates, i);
      more := CopyTemplate(before, own, copies, tid, org, templates[i]);
      CopiesOfNext(before, tid, org, templates, i, copies, more);
    }

    /** The first pass: the templates of `templates` that `own` lacks. */
    method CopyMissing(before: Db, templates: seq<nat>, own: map<string, nat>, tid: nat, org: int)
      returns (copies: map<nat, nat>)
      requires before == db && Valid(before) && IsIndex(before, tid, Some(org), own)
      requires forall t :: t in templates ==> IsTemplate(before, t, tid)
      requires Distinct(templates)
      modifies this
      ensures Copying(before, db, tid, org, copies, {})
      ensures CopiesOf(before, tid, org, templates, |templates|, copies)
    {
      copies := map[];
      for i := 0 to |templates|
        invariant Copying(before, db, tid, org, copies, {}) && CopiesOf(before, tid, org, templates, i, copies)
      {
        copies := CopyNext(before, own, copies, tid, org, templates, i);
      }
    }

    /** `org_row_for`: the organisation's row for a template of the type. */
    method RowFor(before: Db, copies: map<nat, nat>, own: map<string, nat>, tid: nat, org: int, pointer: Option<nat>)
      returns (r: Option<nat>)
      requires IsIndex(before, tid, Some(org), own)
      ensures r == OrgRow(before, tid, org, copies, pointer)
    {
      if pointer.None? {
        return None;
      }
      if pointer.value in copies {
        return Some(copies[pointer.value]);
      }
      if IsTemplate(before, pointer.value, tid) {
        var code := before.values[pointer.value].code;
        return if code in own then Some(own[code]) else None;
      }
      r := None;
    }

    /** The pointers of one copy. */
    method PointCopy(
      before: Db, copies: map<nat, nat>, own: map<string, nat>, tid: nat, org: int, ghost pointed: set<nat>, t: nat)
      requires Valid(before) && Copying(before, db, tid, org, copies, pointed) && t in copies && t !in pointed
      requires IsIndex(before, tid, Some(org), own)
      modifies this
      ensures Copying(before, db, tid, org, copies, pointed + {t})
    {
      assert IsCopy(before, db, tid, org, copies, pointed, t);
      var template := before.values[t];
      var parent := RowFor(before, copies, own, tid, org, template.parent);
      var successor := RowFor(before, copies, own, tid, org, template.successor);
      PointOne(before, db, tid, org, copies, pointed, t);
      var copy := db.values[copies[t]];
      if parent.Some? {
        copy := copy.(parent := parent);
      }
      if successor.Some? {
        copy := copy.(successor := successor);
      }
      db := Edit(db, copies[t], copy);
    }

    /** The second pass: the pointers of all copies. */
    method PointCopies(
      before: Db, templates: seq<nat>, copies: map<nat, nat>, own: map<string, nat>, tid: nat, org: int)
      returns (ghost pointed: set<nat>)
      requires Valid(before) && Copying(before, db, tid, org, copies, {})
      requires IsIndex(before, tid, Some(org), own)
      requires Distinct(templates)
      modifies this
      ensures Copying(before, db, tid, org, copies, pointed)
      ensures forall t :: t in templates && t in copies ==> t in pointed
    {
      pointed := {};
      for i := 0 to |templates|
        invariant Copying(before, db, tid, org, copies, pointed)
        invariant forall t :: t in pointed <==> t in templates[..i] && t in copies
      {
        PrefixGrows(templates, i);
        if templates[i] in copies {
          PointCopy(before, copies, own, tid, org, pointed, templates[i]);
          pointed := pointed + {templates[i]};
        }
      }
    }

    /** One type of `seed_org_lookups`; the version goes up if anything was copied. */
    method SeedOrgType(tid: nat, org: int) returns (copies: map<nat, nat>)
      requires Valid(db) && tid in db.types
      modifies this
      ensures Valid(db) && TypeCopied(old(db), db, tid, org, copies)
    {
      var before := db;
      var templates := Templates(tid);
      var own := RowsByCode(tid, Some(org));
      copies := CopyMissing(before, templates, own, tid, org);
      ghost var pointed := PointCopies(before, templates, copies, own, tid, org);
      ghost var rows := db;
      CopyingIsValid(before, rows, tid, org, copies, pointed);
      BumpedIsValid(rows, tid);
      BumpVersionIf(tid, copies != map[]);
      AllCopied(before, rows, db, tid, org, copies, pointed);
    }

    /** `seed_org_lookups`: every org-scoped type, and the number of rows created. */
    method SeedOrg(org: int) returns (created: nat, ghost tids: seq<nat>, ghost run: OrgRun)
      requires Valid(db)
      modifies this
      ensures OrgTypes(old(db), tids) && IsOrgRunFrom(run, tids, org, old(db), db, created)
    {
      created, tids, run := 0, [], OrgRun([db], []);
      var left := db.types.Keys;
      while left != {}
        invariant left <= old(db).types.Keys && SameScopes(old(db), db) && Valid(db)
        invariant forall t :: t in tids <==> t in old(db).types && t !in left && old(db).types[t].scope == OrgScope
        invariant Distinct(tids)
        invariant IsOrgRunFrom(run, tids, org, old(db), db, created)
        decreases left
      {
        var tid :| tid in left;
        left := left - {tid};
        if db.types[tid].scope == OrgScope {
          var copies;
          copies, run := SeedNextType(tid, org, tids, run, old(db), created);
          created, tids := created + |copies|, tids + [tid];
        }
      }
    }

    /** The next type of a run. */
    method SeedNextType(tid: nat, org: int, ghost tids: seq<nat>, ghost run: OrgRun, ghost start: Db, created: nat)
      returns (copies: map<nat, nat>, ghost longer: OrgRun)
      requires Valid(db) && tid in db.types && IsOrgRunFrom(run, tids, org, start, db, created) && SameScopes(start, db)
      modifies this
      ensures Valid(db) && SameScopes(start, db)
      ensures IsOrgRunFrom(longer, tids + [tid], org, start, db, created + |copies|)
    {
      ghost var before := db;
      copies := SeedOrgType(tid, org);
      RunGrows(run, tids, org, start, before, db, created, tid, copies);
      ScopesAreKept(start, before, db, tid, org, copies);
      longer := OrgRun(run.dbs + [db], run.copies + [copies]);
    }
  }

  ghost predicate IsOrgRunFrom(run: OrgRun, tids: seq<nat>, org: int, db: Db, db': Db, created: nat) {
    IsOrgRun(run, tids, org) && run.dbs[0] == db && run.dbs[|tids|] == db' && created == Created(run.copies, |tids|)
  }

  predicate SameScopes(db: Db, db': Db) {
    db'.types.Keys == db.types.Keys && forall t :: t in db.types ==> db'.types[t].scope == db.types[t].scope
  }

  lemma ScopesAreKept(start: Db, db: Db, db': Db, tid: nat, org: int, copies: map<nat, nat>)
    requires TypeCopied(db, db', tid, org, copies) && SameScopes(start, db)
    ensures SameScopes(start, db')
  {
  }

  lemma RunGrows(
    run: OrgRun, tids: seq<nat>, org: int, start: Db, db: Db, next: Db, created: nat, tid: nat, copies: map<nat, nat>)
    requires IsOrgRunFrom(run, tids, org, start, db, created) && Valid(next) && TypeCopied(db, next, tid, org, copies)
    ensures IsOrgRunFrom(OrgRun(run.dbs + [next], run.copies + [copies]), tids + [tid], org, start, next,
                         created + |copies|)
  {
    CreatedGrows(run.copies, copies, |tids|);
    StepsGrow(run, tids, org, next, tid, copies);
  }

  lemma StepGrows(run: OrgRun, tids: seq<nat>, org: int, next: Db, tid: nat, copies: map<nat, nat>, k: nat)
    requires |run.dbs| == |tids| + 1 && |run.copies| == |tids| && k < |tids| && StepOf(run, tids, org, k)
    ensures StepOf(OrgRun(run.dbs + [next], run.copies + [copies]), tids + [tid], org, k)
  {
  }

  lemma LastStep(run: OrgRun, tids: seq<nat>, org: int, next: Db, tid: nat, copies: map<nat, nat>)
    requires |run.dbs| == |tids| + 1 && |run.copies| == |tids| && TypeCopied(run.dbs[|tids|], next, tid, org, copies)
    ensures StepOf(OrgRun(run.dbs + [next], run.copies + [copies]), tids + [tid], org, |tids|)
  {
  }

  lemma StepsGrow(run: OrgRun, tids: seq<nat>, org: int, next: Db, tid: nat, copies: map<nat, nat>)
    requires IsOrgRun(run, tids, org) && Valid(next) && TypeCopied(run.dbs[|tids|], next, tid, org, copies)
    ensures IsOrgRun(OrgRun(run.dbs + [next], run.copies + [copies]), tids + [tid], org)
  {
    var longer, more := OrgRun(run.dbs + [next], run.copies + [copies]), tids + [tid];
    LastStep(run, tids, org, next, tid, copies);
    forall k | 0 <= k < |more|
      ensures StepOf(longer, more, org, k)
    {
      if k < |tids| { StepGrows(run, tids, org, next, tid, copies, k); }
    }
  }

  lemma {:induction false} CreatedGrows(made: seq<map<nat, nat>>, copies: map<nat, nat>, n: nat)
    requires n <= |made|
    ensures Created(made + [copies], n) == Created(made, n)
    ensures Created(made + [copies], |made| + 1) == Created(made + [copies], |made|) + |copies|
  {
    if n > 0 { CreatedGrows(made, copies, n - 1); }
  }

  lemma {:induction false} LinkFails(db: Db, tid: nat, values: seq<SeedValue>, n: nat, m: nat)
    requires n <= m <= |values| && !LinkRows(db, tid, values, n).1
    ensures !LinkRows(db, tid, values, m).1
    decreases m
  {
    if n < m { LinkFails(db, tid, values, n, m - 1); }
  }

  lemma {:induction false} ErrorEndsIt(step: Step, db: Db, specs: seq<SeedType>, n: nat, m: nat)
    requires n <= m <= |specs| && SeededAll(step, db, specs, n).1.Some?
    ensures SeededAll(step, db, specs, m) == SeededAll(step, db, specs, n)
    decreases m
  {
    if n < m { ErrorEndsIt(step, db, specs, n, m - 1); }
  }
}
