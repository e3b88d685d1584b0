/** Copying a type's template rows to an organisation (`seed_org_lookups` of
    asas_lookups/seeding.py). */
module LookupOrgs {
  import opened Wrappers
  import opened LookupTables

  /** A platform row of type `tid`: what an organisation's list starts from. */
  predicate IsTemplate(db: Db, id: nat, tid: nat) {
    id in db.values && db.values[id].typeId == tid && db.values[id].org.None?
  }

  /** A template whose code `org` has no row of its own for. */
  ghost predicate IsMissing(db: Db, id: nat, tid: nat, org: int) {
    IsTemplate(db, id, tid) && Find(db, tid, db.values[id].code, Some(org)).None?
  }

  /** The columns, labels and aliases of a template, for `org`. */
  function CopyOf(template: Value, org: int): Value {
    template.(org := Some(org), parent := None, successor := None)
  }

  /** `org_row_for`: the row of `org` that stands for a template of the type. */
  ghost function OrgRow(db: Db, tid: nat, org: int, copies: map<nat, nat>, pointer: Option<nat>): Option<nat> {
    if pointer.None? then None
    else if pointer.value in copies then Some(copies[pointer.value])
    else if IsTemplate(db, pointer.value, tid) then Find(db, tid, db.values[pointer.value].code, Some(org))
    else None
  }

  /** The copy with its pointers. */
  ghost function Copied(db: Db, tid: nat, org: int, copies: map<nat, nat>, t: nat): Value
    requires t in db.values
  {
    var template := db.values[t];
    CopyOf(template, org).(
      parent := OrgRow(db, tid, org, copies, template.parent),
      successor := OrgRow(db, tid, org, copies, template.successor))
  }

  /** Equality with a name, so that injectivity is used only where it is mentioned. */
  predicate Same(a: nat, b: nat) {
    a == b
  }

  predicate Injective(copies: map<nat, nat>) {
    forall s, t {:trigger Same(copies[s], copies[t])} :: s in copies && t in copies && Same(copies[s], copies[t]) ==>
      s == t
  }

  /** `copies` maps templates to rows made since `db`. */
  predicate FreshCopies(db: Db, db': Db, copies: map<nat, nat>) {
    Injective(copies) && forall t :: t in copies ==> db.nextValue <= copies[t] < db'.nextValue
  }

  /** The rows of `db'`: those of `db`, untouched, and the copies. */
  predicate RowsPlus(db: Db, db': Db, copies: map<nat, nat>) {
    && (forall id :: id in db.values ==> id in db'.values && db'.values[id] == db.values[id])
    && (forall id :: id in db'.values ==> id in db.values || IsImage(copies, id))
  }

  predicate IsImage(copies: map<nat, nat>, id: nat) {
    exists t :: t in copies && copies[t] == id
  }

  /** One type copied: its missing templates, and no others, now have copies. */
  ghost predicate TypeCopied(db: Db, db': Db, tid: nat, org: int, copies: map<nat, nat>) {
    && RowsCopied(db, db', tid, org, copies)
    && db'.nextType == db.nextType && db'.nextValue == db.nextValue + |copies|
    && tid in db.types
    && db'.types == if copies == map[] then db.types else OneVersionUp(db.types, tid)
  }

  ghost predicate RowsCopied(db: Db, db': Db, tid: nat, org: int, copies: map<nat, nat>) {
    && (forall t :: t in copies <==> IsMissing(db, t, tid, org))
    && FreshCopies(db, db', copies) && RowsPlus(db, db', copies)
    && (forall t :: t in copies ==>
          t in db.values && copies[t] in db'.values && db'.values[copies[t]] == Copied(db, tid, org, copies, t))
  }

  /** A run over the types `tids`: the tables before, between and after them, and the
      copies each made. */
  datatype OrgRun = OrgRun(dbs: seq<Db>, copies: seq<map<nat, nat>>)

  ghost predicate AllValid(dbs: seq<Db>) {
    forall k :: 0 <= k < |dbs| ==> Valid(dbs[k])
  }

  ghost predicate StepOf(run: OrgRun, tids: seq<nat>, org: int, k: nat)
    requires k < |tids| && k + 1 < |run.dbs| && k < |run.copies|
  {
    TypeCopied(run.dbs[k], run.dbs[k + 1], tids[k], org, run.copies[k])
  }

  ghost predicate IsOrgRun(run: OrgRun, tids: seq<nat>, org: int) {
    && |run.dbs| == |tids| + 1 && |run.copies| == |tids|
    && AllValid(run.dbs)
    && (forall k {:trigger StepOf(run, tids, org, k)} :: 0 <= k < |tids| ==> StepOf(run, tids, org, k))
  }

  /** How many rows the first `n` types made. */
  function Created(copies: seq<map<nat, nat>>, n: nat): nat
    requires n <= |copies|
  {
    if n == 0 then 0 else Created(copies, n - 1) + |copies[n - 1]|
  }

  predicate Distinct(ids: seq<nat>) {
    forall i, j :: 0 <= i < j < |ids| ==> ids[i] != ids[j]
  }

  /** All org-scoped types, each once. */
  ghost predicate OrgTypes(db: Db, tids: seq<nat>) {
    Distinct(tids) && forall t :: t in tids <==> t in db.types && db.types[t].scope == OrgScope
  }

  // ---------------------------------------------------------------------------
  // On the way
  // ---------------------------------------------------------------------------

  /** The copies so far, those of `pointed` with their pointers. */
  ghost predicate Copying(db: Db, db': Db, tid: nat, org: int, copies: map<nat, nat>, pointed: set<nat>) {
    && FreshCopies(db, db', copies) && RowsPlus(db, db', copies)
    && (forall t :: t in copies ==> IsCopy(db, db', tid, org, copies, pointed, t))
    && db'.types == db.types && db'.nextType == db.nextType && db'.nextValue == db.nextValue + |copies|
  }

  ghost predicate IsCopy(db: Db, db': Db, tid: nat, org: int, copies: map<nat, nat>, pointed: set<nat>, t: nat)
    requires t in copies
  {
    && IsMissing(db, t, tid, org) && copies[t] in db'.values
    && db'.values[copies[t]] == if t in pointed then Copied(db, tid, org, copies, t) else CopyOf(db.values[t], org)
  }

  lemma ValuesNext(copies: map<nat, nat>, t: nat, id: nat)
    requires t !in copies
    ensures copies[t := id].Values == copies.Values + {id}
  {
    var more := copies[t := id];
    forall v | v in copies.Values ensures v in more.Values {
      var s :| s in copies && copies[s] == v;
      assert more[s] == v;
    }
    assert more[t] == id;
  }

  /** The missing ones of the first `n` templates have been copied. */
  ghost predicate CopiesOf(db: Db, tid: nat, org: int, templates: seq<nat>, n: nat, copies: map<nat, nat>)
    requires n <= |templates|
  {
    forall t :: t in copies <==> t in templates[..n] && IsMissing(db, t, tid, org)
  }

  lemma PrefixGrows(s: seq<nat>, i: nat)
    requires Distinct(s) && i < |s|
    ensures s[i] in s && s[i] !in s[..i]
    ensures forall t :: t in s[..i + 1] <==> t in s[..i] || t == s[i]
  {
    assert s[..i + 1] == s[..i] + [s[i]];
  }

  lemma CopiesOfNext(
    db: Db, tid: nat, org: int, templates: seq<nat>, n: nat, copies: map<nat, nat>, more: map<nat, nat>)
    requires n < |templates| && Distinct(templates) && CopiesOf(db, tid, org, templates, n, copies)
    requires more.Keys == copies.Keys + if IsMissing(db, templates[n], tid, org) then {templates[n]} else {}
    ensures CopiesOf(db, tid, org, templates, n + 1, more)
  {
    PrefixGrows(templates, n);
    forall t ensures t in more <==> t in templates[..n + 1] && IsMissing(db, t, tid, org) {
      assert t in more <==> t in more.Keys;
      assert t in copies <==> t in copies.Keys;
    }
  }

  lemma RowsPlusNext(db: Db, db': Db, copies: map<nat, nat>, t: nat, value: Value)
    requires RowsPlus(db, db', copies) && t !in copies && db'.nextValue !in db'.values
    ensures RowsPlus(db, Insert(db', value), copies[t := db'.nextValue])
  {
    var more := copies[t := db'.nextValue];
    forall id | id in Insert(db', value).values
      ensures id in db.values || IsImage(more, id)
    {
      if id == db'.nextValue {
        assert more[t] == id;
      } else if id !in db.values {
        var s :| s in copies && copies[s] == id;
        assert more[s] == id;
      }
    }
  }

  lemma FreshNext(db: Db, db': Db, copies: map<nat, nat>, t: nat, value: Value)
    requires FreshCopies(db, db', copies) && t !in copies && db'.nextValue >= db.nextValue
    ensures FreshCopies(db, Insert(db', value), copies[t := db'.nextValue])
  {
    var more := copies[t := db'.nextValue];
    forall a, b | a in more && b in more && Same(more[a], more[b])
      ensures a == b
    {
      assert a in copies && b in copies ==> Same(copies[a], copies[b]);
    }
  }

  lemma NextIsFree(db: Db, db': Db, tid: nat, org: int, copies: map<nat, nat>, pointed: set<nat>)
    requires Valid(db) && Copying(db, db', tid, org, copies, pointed)
    ensures db'.nextValue !in db'.values && db'.nextValue >= db.nextValue
  {
  }

  lemma CopiesStay(db: Db, db': Db, tid: nat, org: int, copies: map<nat, nat>, t: nat, s: nat)
    requires IsMissing(db, t, tid, org) && t !in copies && (s == t || s in copies) && db'.nextValue !in db'.values
    requires s != t ==> IsCopy(db, db', tid, org, copies, {}, s)
    ensures IsCopy(db, Insert(db', CopyOf(db.values[t], org)), tid, org, copies[t := db'.nextValue], {}, s)
  {
  }

  lemma CopyOne(db: Db, db': Db, tid: nat, org: int, copies: map<nat, nat>, t: nat)
    requires Valid(db) && Copying(db, db', tid, org, copies, {}) && IsMissing(db, t, tid, org) && t !in copies
    ensures Copying(db, Insert(db', CopyOf(db.values[t], org)), tid, org, copies[t := db'.nextValue], {})
  {
    var next, copies' := Insert(db', CopyOf(db.values[t], org)), copies[t := db'.nextValue];
    NextIsFree(db, db', tid, org, copies, {});
    assert FreshCopies(db, next, copies') by { FreshNext(db, db', copies, t, CopyOf(db.values[t], org)); }
    assert RowsPlus(db, next, copies') by { RowsPlusNext(db, db', copies, t, CopyOf(db.values[t], org)); }
    forall s | s in copies'
      ensures IsCopy(db, next, tid, org, copies', {}, s)
    {
      CopiesStay(db, db', tid, org, copies, t, s);
    }
  }

  lemma RowsPlusEdit(db: Db, db': Db, copies: map<nat, nat>, t: nat, value: Value)
    requires RowsPlus(db, db', copies) && t in copies && copies[t] !in db.values
    ensures RowsPlus(db, Edit(db', copies[t], value), copies)
  {
  }

  lemma OnePointed(db: Db, db': Db, tid: nat, org: int, copies: map<nat, nat>, pointed: set<nat>, t: nat, s: nat)
    requires Copying(db, db', tid, org, copies, pointed) && t in copies && s in copies && t in db.values
    ensures IsCopy(db, Edit(db', copies[t], Copied(db, tid, org, copies, t)), tid, org, copies, pointed + {t}, s)
  {
    assert IsCopy(db, db', tid, org, copies, pointed, s);
    assert Same(copies[s], copies[t]) <==> copies[s] == copies[t];
  }

  lemma PointOne(db: Db, db': Db, tid: nat, org: int, copies: map<nat, nat>, pointed: set<nat>, t: nat)
    requires Copying(db, db', tid, org, copies, pointed) && t in copies && t in db.values && copies[t] !in db.values
    ensures Copying(db, Edit(db', copies[t], Copied(db, tid, org, copies, t)), tid, org, copies, pointed + {t})
  {
    RowsPlusEdit(db, db', copies, t, Copied(db, tid, org, copies, t));
    forall s | s in copies
      ensures IsCopy(db, Edit(db', copies[t], Copied(db, tid, org, copies, t)), tid, org, copies, pointed + {t}, s)
    {
      OnePointed(db, db', tid, org, copies, pointed, t, s);
    }
  }

  /** Copies of different templates have different codes, and none a code that was there. */
  lemma CopiesAreApart(db: Db, db': Db, tid: nat, org: int, copies: map<nat, nat>, pointed: set<nat>, a: nat, b: nat)
    requires Valid(db) && Copying(db, db', tid, org, copies, pointed)
    requires a in db'.values && b in db'.values && SameSlot(db'.values[a], db'.values[b]) && a !in db.values
    ensures a == b
  {
    var s :| s in copies && copies[s] == a;
    assert IsCopy(db, db', tid, org, copies, pointed, s);
    if b in db.values {
      assert IsRow(db, b, tid, db.values[s].code, Some(org));
    } else {
      var t :| t in copies && copies[t] == b;
      assert IsCopy(db, db', tid, org, copies, pointed, t);
      assert SameSlot(db.values[s], db.values[t]);
    }
  }

  lemma CopyingIsValid(db: Db, db': Db, tid: nat, org: int, copies: map<nat, nat>, pointed: set<nat>)
    requires Valid(db) && Copying(db, db', tid, org, copies, pointed)
    ensures Valid(db')
  {
    forall a, b | a in db'.values && b in db'.values && SameSlot(db'.values[a], db'.values[b])
      ensures a == b
    {
      if a !in db.values { CopiesAreApart(db, db', tid, org, copies, pointed, a, b); }
      else if b !in db.values { CopiesAreApart(db, db', tid, org, copies, pointed, b, a); }
    }
    forall id | id in db'.values
      ensures id < db'.nextValue && db'.values[id].typeId in db'.types
    {
      if id !in db.values {
        var s :| s in copies && copies[s] == id;
        assert IsCopy(db, db', tid, org, copies, pointed, s);
      }
    }
  }

  lemma BumpedIsValid(db: Db, tid: nat)
    requires Valid(db)
    ensures Valid(Bumped(db, tid))
  {
  }

  lemma EachIsCopied(db: Db, db': Db, tid: nat, org: int, copies: map<nat, nat>, pointed: set<nat>, t: nat)
    requires Copying(db, db', tid, org, copies, pointed) && copies.Keys <= pointed && t in copies
    ensures IsMissing(db, t, tid, org) && copies[t] in db'.values
            && db'.values[copies[t]] == Copied(db, tid, org, copies, t)
  {
    assert IsCopy(db, db', tid, org, copies, pointed, t);
    assert t in copies.Keys;
  }

  lemma AllRowsCopied(db: Db, db': Db, tid: nat, org: int, copies: map<nat, nat>, pointed: set<nat>)
    requires Copying(db, db', tid, org, copies, pointed) && copies.Keys <= pointed
    requires forall t :: IsMissing(db, t, tid, org) ==> t in copies
    ensures RowsCopied(db, db', tid, org, copies)
  {
    forall t | t in copies
      ensures IsMissing(db, t, tid, org) && copies[t] in db'.values
              && db'.values[copies[t]] == Copied(db, tid, org, copies, t)
    {
      EachIsCopied(db, db', tid, org, copies, pointed, t);
    }
  }

  lemma SameRowsCopied(db: Db, db': Db, end: Db, tid: nat, org: int, copies: map<nat, nat>)
    requires RowsCopied(db, db', tid, org, copies) && end.values == db'.values && end.nextValue == db'.nextValue
    ensures RowsCopied(db, end, tid, org, copies)
  {
  }

  /** With every copy pointed and the version bumped, the type is copied. */
  lemma AllCopied(db: Db, db': Db, end: Db, tid: nat, org: int, copies: map<nat, nat>, pointed: set<nat>)
    requires Copying(db, db', tid, org, copies, pointed) && copies.Keys <= pointed && tid in db.types
    requires forall t :: IsMissing(db, t, tid, org) ==> t in copies
    requires end == if copies == map[] then db' else Bumped(db', tid)
    ensures TypeCopied(db, end, tid, org, copies)
  {
    assert RowsCopied(db, end, tid, org, copies) by {
      AllRowsCopied(db, db', tid, org, copies, pointed);
      SameRowsCopied(db, db', end, tid, org, copies);
    }
  }

  // ---------------------------------------------------------------------------
  // One type
  // ---------------------------------------------------------------------------

  /** What a copy points at is the organisation's own row of the code that the template
      points at; a pointer out of the type is not copied. */
  ghost predicate PointsAlike(db: Db, db': Db, tid: nat, org: int, from: Option<nat>, to: Option<nat>) {
    if from.Some? && IsTemplate(db, from.value, tid) then
      to.Some? && IsRow(db', to.value, tid, db.values[from.value].code, Some(org))
    else to.None?
  }

  lemma OrgRowPointsAlike(db: Db, db': Db, tid: nat, org: int, copies: map<nat, nat>, from: Option<nat>)
    requires TypeCopied(db, db', tid, org, copies)
    ensures PointsAlike(db, db', tid, org, from, OrgRow(db, tid, org, copies, from))
  {
    if from.Some? {
      assert from.value in copies <==> IsMissing(db, from.value, tid, org);
      if from.value !in copies && IsTemplate(db, from.value, tid) {
        var own := Find(db, tid, db.values[from.value].code, Some(org));
        assert IsRow(db, own.value, tid, db.values[from.value].code, Some(org));
      }
    }
  }

  /** The copy is the template with its pointers mapped, never onto a template. */
  lemma CopyIsHomomorphic(db: Db, db': Db, tid: nat, org: int, copies: map<nat, nat>, t: nat)
    requires Valid(db) && TypeCopied(db, db', tid, org, copies) && t in copies
    ensures t in db.values && copies[t] in db'.values && copies[t] !in db.values
    ensures var template, copy := db.values[t], db'.values[copies[t]];
            && copy.org == Some(org) && copy.typeId == template.typeId && copy.code == template.code
            && copy.columns == template.columns && copy.meta == template.meta
            && copy.translations == template.translations && copy.aliases == template.aliases
            && PointsAlike(db, db', tid, org, template.parent, copy.parent)
            && PointsAlike(db, db', tid, org, template.successor, copy.successor)
  {
    OrgRowPointsAlike(db, db', tid, org, copies, db.values[t].parent);
    OrgRowPointsAlike(db, db', tid, org, copies, db.values[t].successor);
  }

  // ---------------------------------------------------------------------------
  // Hierarchies
  // ---------------------------------------------------------------------------

  /** The codes from a template up, as far as its parents are templates of the type. */
  ghost function TemplateLine(db: Db, tid: nat, id: nat, n: nat): seq<string>
    requires id in db.values
    decreases n
  {
    var parent := db.values[id].parent;
    [db.values[id].code] +
      if n == 0 || parent.None? || !IsTemplate(db, parent.value, tid) then []
      else TemplateLine(db, tid, parent.value, n - 1)
  }

  /** The codes from any row up. */
  ghost function Line(db: Db, id: nat, n: nat): seq<string>
    requires id in db.values
    decreases n
  {
    var parent := db.values[id].parent;
    [db.values[id].code] +
      if n == 0 || parent.None? || parent.value !in db.values then [] else Line(db, parent.value, n - 1)
  }

  /** One step up from a copy mirrors one step up from its template. */
  lemma ParentIsCopied(db: Db, db': Db, tid: nat, org: int, copies: map<nat, nat>, t: nat)
    requires Valid(db) && TypeCopied(db, db', tid, org, copies) && t in copies
    ensures t in db.values && copies[t] in db'.values && db'.values[copies[t]].code == db.values[t].code
    ensures var from, to := db.values[t].parent, db'.values[copies[t]].parent;
            if from.None? || !IsTemplate(db, from.value, tid) then to.None?
            else IsMissing(db, from.value, tid, org) ==> from.value in copies && to == Some(copies[from.value])
  {
    assert db'.values[copies[t]] == Copied(db, tid, org, copies, t);
    var from := db.values[t].parent;
    if from.Some? { assert from.value in copies <==> IsMissing(db, from.value, tid, org); }
  }

  ghost predicate HasNone(db: Db, tid: nat, org: int) {
    forall id :: IsTemplate(db, id, tid) ==> IsMissing(db, id, tid, org)
  }

  /** One step up from every copy mirrors one step up from its template. */
  ghost predicate ParentsAlike(db: Db, db': Db, tid: nat, copies: map<nat, nat>) {
    forall t :: t in copies ==> ParentAlike(db, db', tid, copies, t)
  }

  ghost predicate ParentAlike(db: Db, db': Db, tid: nat, copies: map<nat, nat>, t: nat)
    requires t in copies
  {
    && t in db.values && copies[t] in db'.values && db'.values[copies[t]].code == db.values[t].code
    && var from, to := db.values[t].parent, db'.values[copies[t]].parent;
       if from.None? || !IsTemplate(db, from.value, tid) then to.None?
       else from.value in copies && to == Some(copies[from.value])
  }

  lemma {:induction false} LinesAlike(db: Db, db': Db, tid: nat, copies: map<nat, nat>, t: nat, n: nat)
    requires ParentsAlike(db, db', tid, copies) && t in copies
    ensures t in db.values && copies[t] in db'.values
    ensures Line(db', copies[t], n) == TemplateLine(db, tid, t, n)
    decreases n
  {
    assert ParentAlike(db, db', tid, copies, t);
    var parent := db.values[t].parent;
    if n > 0 && parent.Some? && IsTemplate(db, parent.value, tid) {
      LinesAlike(db, db', tid, copies, parent.value, n - 1);
    }
  }

  /** Hierarchies survive the copy: for an organisation that had none of the type's codes,
      the codes above a copy are those above its template, to any height. */
  lemma LinesAreCopied(db: Db, db': Db, tid: nat, org: int, copies: map<nat, nat>, t: nat, n: nat)
    requires Valid(db) && TypeCopied(db, db', tid, org, copies) && t in copies && HasNone(db, tid, org)
    ensures t in db.values && copies[t] in db'.values
    ensures Line(db', copies[t], n) == TemplateLine(db, tid, t, n)
  {
    assert ParentsAlike(db, db', tid, copies) by {
      forall s | s in copies
        ensures ParentAlike(db, db', tid, copies, s)
      {
        ParentIsCopied(db, db', tid, org, copies, s);
      }
    }
    LinesAlike(db, db', tid, copies, t, n);
  }

  // ---------------------------------------------------------------------------
  // A whole run
  // ---------------------------------------------------------------------------

  /** Nothing was there that is not still there, and what is new is the organisation's. */
  ghost predicate OnlyOrgRows(db: Db, db': Db, org: int) {
    && (forall id :: id in db.values ==> id in db'.values && db'.values[id] == db.values[id])
    && (forall id :: id in db'.values && id !in db.values ==> db'.values[id].org == Some(org))
  }

  /** The organisation has a row of its own for every template of the type. */
  ghost predicate HasAll(db: Db, tid: nat, org: int) {
    forall id :: id in db.values && db.values[id].typeId == tid && db.values[id].org.None? ==>
      Find(db, tid, db.values[id].code, Some(org)).Some?
  }

  lemma TypeCopiedAdds(db: Db, db': Db, tid: nat, org: int, copies: map<nat, nat>)
    requires Valid(db) && TypeCopied(db, db', tid, org, copies)
    ensures OnlyOrgRows(db, db', org) && |db'.values| == |db.values| + |copies|
  {
    forall id | id in db'.values && id !in db.values
      ensures db'.values[id].org == Some(org)
    {
      var t :| t in copies && copies[t] == id;
    }
    ValuesOfInjective(copies);
    assert db'.values.Keys == db.values.Keys + copies.Values;
    assert db.values.Keys !! copies.Values;
    assert |db'.values| == |db'.values.Keys| && |db.values| == |db.values.Keys|;
  }

  lemma {:induction false} ValuesOfInjective(copies: map<nat, nat>)
    requires Injective(copies)
    ensures |copies.Values| == |copies|
    decreases |copies|
  {
    if copies != map[] {
      var t :| t in copies;
      var rest := copies - {t};
      forall a, b | a in rest && b in rest && Same(rest[a], rest[b]) ensures a == b {
        assert Same(copies[a], copies[b]);
      }
      ValuesOfInjective(rest);
      assert copies == rest[t := copies[t]];
      assert copies[t] !in rest.Values by {
        assert forall s :: s in rest ==> (Same(copies[s], copies[t]) <==> rest[s] == copies[t]);
      }
      assert copies.Values == rest.Values + {copies[t]} by { ValuesNext(rest, t, copies[t]); }
    }
  }

  lemma StillMissing(db: Db, db': Db, tid: nat, org: int, id: nat)
    requires Valid(db') && OnlyOrgRows(db, db', org) && IsMissing(db', id, tid, org)
    ensures IsMissing(db, id, tid, org)
  {
    var own := Find(db, tid, db.values[id].code, Some(org));
    if own.Some? {
      FindIs(db', own.value, tid, db.values[id].code, Some(org));
    }
  }

  lemma NoneIsMissing(db: Db, db': Db, tid: nat, org: int, copies: map<nat, nat>)
    requires Valid(db) && Valid(db') && TypeCopied(db, db', tid, org, copies)
    ensures HasAll(db', tid, org)
  {
    TypeCopiedAdds(db, db', tid, org, copies);
    forall id | id in db'.values && db'.values[id].typeId == tid && db'.values[id].org.None?
      ensures Find(db', tid, db'.values[id].code, Some(org)).Some?
    {
      if IsMissing(db', id, tid, org) {
        StillMissing(db, db', tid, org, id);
        assert IsRow(db', copies[id], tid, db'.values[id].code, Some(org));
      }
    }
  }

  lemma OnlyOrgRowsTransitive(a: Db, b: Db, c: Db, org: int)
    requires OnlyOrgRows(a, b, org) && OnlyOrgRows(b, c, org)
    ensures OnlyOrgRows(a, c, org)
  {
  }

  lemma HasAllStays(db: Db, db': Db, tid: nat, org: int)
    requires Valid(db') && OnlyOrgRows(db, db', org) && HasAll(db, tid, org)
    ensures HasAll(db', tid, org)
  {
    forall id | id in db'.values && db'.values[id].typeId == tid && db'.values[id].org.None?
      ensures Find(db', tid, db'.values[id].code, Some(org)).Some?
    {
      if IsMissing(db', id, tid, org) { StillMissing(db, db', tid, org, id); }
    }
  }

  lemma NothingIsMissing(db: Db, db': Db, tid: nat, org: int, copies: map<nat, nat>)
    requires TypeCopied(db, db', tid, org, copies) && HasAll(db, tid, org)
    ensures copies == map[]
  {
    assert forall t :: t in copies ==> IsMissing(db, t, tid, org);
  }

  lemma NothingIsCopied(db: Db, db': Db, tid: nat, org: int)
    requires TypeCopied(db, db', tid, org, map[])
    ensures db' == db
  {
    assert db'.values.Keys == db.values.Keys;
    assert db'.values == db.values;
    assert db'.types == db.types && db'.nextType == db.nextType && db'.nextValue == db.nextValue;
  }

  lemma OneTypeOfRun(run: OrgRun, tids: seq<nat>, org: int, k: nat)
    requires IsOrgRun(run, tids, org) && k < |tids|
    ensures var db, db' := run.dbs[k], run.dbs[k + 1];
            && OnlyOrgRows(db, db', org) && |db'.values| == |db.values| + |run.copies[k]|
            && HasAll(db', tids[k], org)
            && (HasAll(db, tids[k], org) ==> db' == db && run.copies[k] == map[])
  {
    var db, db' := run.dbs[k], run.dbs[k + 1];
    assert StepOf(run, tids, org, k);
    TypeCopiedAdds(db, db', tids[k], org, run.copies[k]);
    NoneIsMissing(db, db', tids[k], org, run.copies[k]);
    if HasAll(db, tids[k], org) {
      NothingIsMissing(db, db', tids[k], org, run.copies[k]);
      NothingIsCopied(db, db', tids[k], org);
    }
  }

  ghost predicate HasAllOf(db: Db, tids: seq<nat>, org: int, n: nat) {
    forall k :: 0 <= k < n && k < |tids| ==> HasAll(db, tids[k], org)
  }

  lemma HasAllOfNext(db: Db, db': Db, tids: seq<nat>, org: int, n: nat)
    requires n < |tids| && Valid(db') && OnlyOrgRows(db, db', org) && HasAllOf(db, tids, org, n)
             && HasAll(db', tids[n], org)
    ensures HasAllOf(db', tids, org, n + 1)
  {
    forall k | 0 <= k < n + 1 ensures HasAll(db', tids[k], org) {
      if k < n { HasAllStays(db, db', tids[k], org); }
    }
  }

  /** The first `n` types added what they report, and left none of their templates missing. */
  ghost predicate Accounted(run: OrgRun, tids: seq<nat>, org: int, n: nat)
    requires n < |run.dbs| && n <= |run.copies|
  {
    && OnlyOrgRows(run.dbs[0], run.dbs[n], org)
    && |run.dbs[n].values| == |run.dbs[0].values| + Created(run.copies, n)
    && HasAllOf(run.dbs[n], tids, org, n)
  }

  lemma AccountedNext(run: OrgRun, tids: seq<nat>, org: int, n: nat)
    requires IsOrgRun(run, tids, org) && n < |tids| && Accounted(run, tids, org, n)
    ensures Accounted(run, tids, org, n + 1)
  {
    OneTypeOfRun(run, tids, org, n);
    OnlyOrgRowsTransitive(run.dbs[0], run.dbs[n], run.dbs[n + 1], org);
    HasAllOfNext(run.dbs[n], run.dbs[n + 1], tids, org, n);
  }

  /** A run adds the rows it reports, all the organisation's, touches no other, and leaves
      no template without a row of its own. */
  lemma {:induction false} RunAddsWhatItReports(run: OrgRun, tids: seq<nat>, org: int)
    requires IsOrgRun(run, tids, org)
    ensures OnlyOrgRows(run.dbs[0], run.dbs[|tids|], org)
    ensures |run.dbs[|tids|].values| == |run.dbs[0].values| + Created(run.copies, |tids|)
    ensures HasAllOf(run.dbs[|tids|], tids, org, |tids|)
  {
    for k := 0 to |tids|
      invariant Accounted(run, tids, org, k)
    {
      AccountedNext(run, tids, org, k);
    }
  }

  lemma QuietType(run: OrgRun, tids: seq<nat>, org: int, k: nat, db: Db)
    requires IsOrgRun(run, tids, org) && k < |tids| && run.dbs[k] == db && HasAll(db, tids[k], org)
    ensures run.dbs[k + 1] == db && |run.copies[k]| == 0
  {
    OneTypeOfRun(run, tids, org, k);
  }

  lemma {:induction false} NothingToCopy(run: OrgRun, tids: seq<nat>, org: int, db: Db)
    requires IsOrgRun(run, tids, org) && run.dbs[0] == db && HasAllOf(db, tids, org, |tids|)
    ensures run.dbs[|tids|] == db && Created(run.copies, |tids|) == 0
  {
    for k := 0 to |tids|
      invariant run.dbs[k] == db && Created(run.copies, k) == 0
    {
      QuietType(run, tids, org, k, db);
    }
  }

  /** A second run for the organisation creates nothing and bumps no version, whichever
      order it takes the types in. */
  lemma SecondRunIsQuiet(first: OrgRun, tids: seq<nat>, second: OrgRun, again: seq<nat>, org: int)
    requires IsOrgRun(first, tids, org) && IsOrgRun(second, again, org) && second.dbs[0] == first.dbs[|tids|]
    requires forall k :: 0 <= k < |again| ==> again[k] in tids
    ensures second.dbs[|again|] == second.dbs[0] && Created(second.copies, |again|) == 0
  {
    RunAddsWhatItReports(first, tids, org);
    forall k | 0 <= k < |again| ensures HasAll(second.dbs[0], again[k], org) {
      var j :| 0 <= j < |tids| && tids[j] == again[k];
      assert HasAll(first.dbs[|tids|], tids[j], org);
    }
    NothingToCopy(second, again, org, second.dbs[0]);
  }
}
