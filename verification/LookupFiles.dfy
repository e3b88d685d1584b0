/** Seeding a whole file again. What a file does follows from what seeding one type does,
    whatever carries that out. */
module LookupFiles {
  import opened Wrappers
  import opened LookupTables
  import opened LookupSeed
  import opened LookupProofs
  import opened LookupReruns

  ghost predicate LoadedFile(specs: seq<SeedType>) {
    && (forall k :: 0 <= k < |specs| ==> Loaded(specs[k]))
    && (forall j, k :: 0 <= j < k < |specs| ==> specs[j].key != specs[k].key)
  }

  ghost predicate Succeeds(step: Step, db: Db, spec: SeedType) {
    Valid(db) && Loaded(spec) && step(db, spec).1.None?
  }

  ghost predicate Adds(step: Step) {
    forall db: Db, spec: SeedType {:trigger step(db, spec)} :: Valid(db) ==>
      Valid(step(db, spec).0) && OnlyAdds(db, step(db, spec).0)
  }

  ghost predicate LeavesOthers(step: Step) {
    forall db: Db, a: SeedType, b: SeedType {:trigger SameFor(db, step(db, a).0, b)} ::
      Succeeds(step, db, a) && a.key != b.key ==> SameFor(db, step(db, a).0, b)
  }

  ghost predicate Settles(step: Step) {
    forall db: Db, spec: SeedType {:trigger step(db, spec)} :: Succeeds(step, db, spec) ==>
      FindType(step(db, spec).0, spec.key).Some? && (Settled(step(db, spec).0, spec) <==> !SomeHealedShort(db, spec))
  }

  ghost predicate QuietWhenSettled(step: Step) {
    && (forall db: Db, spec: SeedType {:trigger step(db, spec)} ::
          Valid(db) && Loaded(spec) && Settled(db, spec) ==> step(db, spec) == (db, None))
    && (forall db: Db, spec: SeedType {:trigger step(db, spec)} ::
          Succeeds(step, db, spec) && step(db, spec).0.values == db.values && FindType(db, spec.key).Some? ==>
            Settled(db, spec))
  }

  /** What is known of seeding one type. */
  ghost predicate Laws(step: Step) {
    Adds(step) && LeavesOthers(step) && Settles(step) && QuietWhenSettled(step)
  }

  lemma SeedStepAdds()
    ensures Adds(SeedStep())
  {
    forall db: Db, spec: SeedType | Valid(db)
      ensures Valid(SeedStep()(db, spec).0) && OnlyAdds(db, SeedStep()(db, spec).0)
    {
      SeededKeeps(db, spec);
      SeedingOnlyAdds(db, spec);
    }
  }

  lemma SeedStepLeavesOthers()
    ensures LeavesOthers(SeedStep())
  {
    forall db: Db, a: SeedType, b: SeedType | Succeeds(SeedStep(), db, a) && a.key != b.key
      ensures SameFor(db, SeedStep()(db, a).0, b)
    {
      OtherTypesAreLeft(db, a, b);
    }
  }

  lemma SeedStepSettles()
    ensures Settles(SeedStep())
  {
    forall db: Db, spec: SeedType | Succeeds(SeedStep(), db, spec)
      ensures FindType(SeedStep()(db, spec).0, spec.key).Some?
      ensures Settled(SeedStep()(db, spec).0, spec) <==> !SomeHealedShort(db, spec)
    {
      SettledAfterRun(db, spec);
    }
  }

  lemma SeedStepIsQuiet()
    ensures QuietWhenSettled(SeedStep())
  {
    forall db: Db, spec: SeedType | Valid(db) && Loaded(spec) && Settled(db, spec)
      ensures SeedStep()(db, spec) == (db, None)
    {
      QuietIsSettled(db, spec);
    }
    forall db: Db, spec: SeedType |
      Succeeds(SeedStep(), db, spec) && SeedStep()(db, spec).0.values == db.values && FindType(db, spec.key).Some?
      ensures Settled(db, spec)
    {
      SameRowsIsSettled(db, spec);
    }
  }

  lemma SeedStepLaws()
    ensures Laws(SeedStep())
  {
    SeedStepAdds();
    SeedStepLeavesOthers();
    SeedStepSettles();
    SeedStepIsQuiet();
  }

  // ---------------------------------------------------------------------------
  // Runs of several types
  // ---------------------------------------------------------------------------

  lemma {:induction false} FileStaysValid(step: Step, db: Db, specs: seq<SeedType>, n: nat)
    requires Adds(step) && Valid(db) && n <= |specs|
    ensures Valid(SeededAll(step, db, specs, n).0)
  {
    for k := 0 to n
      invariant Valid(SeededAll(step, db, specs, k).0)
    {
    }
  }

  lemma OneTypeAdds(step: Step, db: Db, specs: seq<SeedType>, n: nat)
    requires Adds(step) && Valid(db) && n < |specs|
    ensures OnlyAdds(SeededAll(step, db, specs, n).0, SeededAll(step, db, specs, n + 1).0)
    ensures SeededAll(step, db, specs, n + 1).1.None? ==> SeededAll(step, db, specs, n).1.None?
  {
    FileStaysValid(step, db, specs, n);
    AddsNothing(SeededAll(step, db, specs, n).0);
  }

  ghost predicate AddsFrom(step: Step, db: Db, specs: seq<SeedType>, m: nat, n: nat)
    requires m <= n <= |specs|
  {
    && OnlyAdds(SeededAll(step, db, specs, m).0, SeededAll(step, db, specs, n).0)
    && (SeededAll(step, db, specs, n).1.None? ==> SeededAll(step, db, specs, m).1.None?)
  }

  lemma {:induction false} FileAdds(step: Step, db: Db, specs: seq<SeedType>, m: nat, n: nat)
    requires Adds(step) && Valid(db) && m <= n <= |specs|
    ensures OnlyAdds(SeededAll(step, db, specs, m).0, SeededAll(step, db, specs, n).0)
    ensures SeededAll(step, db, specs, n).1.None? ==> SeededAll(step, db, specs, m).1.None?
  {
    AddsNothing(SeededAll(step, db, specs, m).0);
    for k := m to n
      invariant AddsFrom(step, db, specs, m, k)
    {
      OneTypeAdds(step, db, specs, k);
      OnlyAddsTransitive(SeededAll(step, db, specs, m).0, SeededAll(step, db, specs, k).0,
                         SeededAll(step, db, specs, k + 1).0);
    }
  }

  lemma AddsNothing(db: Db)
    ensures OnlyAdds(db, db)
  {
  }

  lemma SameForIsSettled(db: Db, db': Db, spec: SeedType)
    requires SameFor(db, db', spec)
    ensures Settled(db, spec) <==> Settled(db', spec)
    ensures SomeHealedShort(db, spec) <==> SomeHealedShort(db', spec)
    ensures FindType(db, spec.key) == FindType(db', spec.key)
  {
  }

  /** The `n`th type of a file that succeeds. */
  lemma StepSucceeds(step: Step, db: Db, specs: seq<SeedType>, n: nat)
    requires Adds(step) && Valid(db) && LoadedFile(specs) && n < |specs| && SeededAll(step, db, specs, n + 1).1.None?
    ensures SeededAll(step, db, specs, n).1.None? && Succeeds(step, SeededAll(step, db, specs, n).0, specs[n])
    ensures SeededAll(step, db, specs, n + 1) == step(SeededAll(step, db, specs, n).0, specs[n])
  {
    FileStaysValid(step, db, specs, n);
    FileAdds(step, db, specs, n, n + 1);
  }

  lemma SameForTransitive(a: Db, b: Db, c: Db, spec: SeedType)
    requires SameFor(a, b, spec) && SameFor(b, c, spec)
    ensures SameFor(a, c, spec)
  {
  }

  lemma OneTypeLeaves(step: Step, db: Db, specs: seq<SeedType>, n: nat, k: nat)
    requires Laws(step) && Valid(db) && LoadedFile(specs) && n < |specs| && k < |specs| && k != n
    requires SeededAll(step, db, specs, n + 1).1.None?
    ensures SameFor(SeededAll(step, db, specs, n).0, SeededAll(step, db, specs, n + 1).0, specs[k])
  {
    StepSucceeds(step, db, specs, n);
    assert SameFor(SeededAll(step, db, specs, n).0, step(SeededAll(step, db, specs, n).0, specs[n]).0, specs[k]);
  }

  /** The types from `m` to `n` leave type `k`, which is not one of them, as it was. */
  lemma {:induction false} OthersAreLeft(step: Step, db: Db, specs: seq<SeedType>, m: nat, n: nat, k: nat)
    requires Laws(step) && Valid(db) && LoadedFile(specs) && m <= n <= |specs| && k < |specs| && (k < m || n <= k)
    requires SeededAll(step, db, specs, n).1.None?
    ensures SameFor(SeededAll(step, db, specs, m).0, SeededAll(step, db, specs, n).0, specs[k])
  {
    for j := m to n
      invariant SameFor(SeededAll(step, db, specs, m).0, SeededAll(step, db, specs, j).0, specs[k])
    {
      FileAdds(step, db, specs, j + 1, n);
      OneTypeLeaves(step, db, specs, j, k);
      SameForTransitive(SeededAll(step, db, specs, m).0, SeededAll(step, db, specs, j).0,
                        SeededAll(step, db, specs, j + 1).0, specs[k]);
    }
  }

  /** After a file, one of its types is settled unless it healed a row short. */
  lemma SettledAfter(step: Step, db: Db, specs: seq<SeedType>, k: nat)
    requires Laws(step) && Valid(db) && LoadedFile(specs) && k < |specs| && SeededAll(step, db, specs, |specs|).1.None?
    ensures var once := SeededAll(step, db, specs, |specs|).0;
            FindType(once, specs[k].key).Some? && (Settled(once, specs[k]) <==> !SomeHealedShort(db, specs[k]))
  {
    var before, after, once :=
      SeededAll(step, db, specs, k).0, SeededAll(step, db, specs, k + 1).0, SeededAll(step, db, specs, |specs|).0;
    FileAdds(step, db, specs, k + 1, |specs|);
    StepSucceeds(step, db, specs, k);
    OthersAreLeft(step, db, specs, 0, k, k);
    OthersAreLeft(step, db, specs, k + 1, |specs|, k);
    SameForIsSettled(db, before, specs[k]);
    SameForIsSettled(after, once, specs[k]);
  }

  ghost predicate SettledUpTo(db: Db, specs: seq<SeedType>, n: nat) {
    forall k {:trigger Settled(db, specs[k])} :: 0 <= k < n && k < |specs| ==> Settled(db, specs[k])
  }

  lemma {:induction false} SettledIsQuiet(step: Step, db: Db, specs: seq<SeedType>, n: nat)
    requires QuietWhenSettled(step) && Valid(db) && LoadedFile(specs) && n <= |specs| && SettledUpTo(db, specs, n)
    ensures SeededAll(step, db, specs, n) == (db, None)
  {
    for k := 0 to n
      invariant SeededAll(step, db, specs, k) == (db, None)
    {
      assert Settled(db, specs[k]);
    }
  }

  lemma UndoneNowhere(step: Step, db: Db, spec: SeedType, end: Db)
    requires Laws(step) && Succeeds(step, db, spec) && FindType(db, spec.key).Some?
    requires OnlyAdds(step(db, spec).0, end) && end.values == db.values
    ensures Settled(db, spec)
  {
    assert OnlyAdds(db, step(db, spec).0);
    NothingIsUndone(db, step(db, spec).0, end);
  }

  /** The step a file that has changed nothing so far takes next. */
  lemma NextStep(step: Step, db: Db, specs: seq<SeedType>, k: nat)
    requires Laws(step) && Valid(db) && LoadedFile(specs) && k < |specs| && SeededAll(step, db, specs, |specs|).1.None?
    requires SettledUpTo(db, specs, k)
    ensures Succeeds(step, db, specs[k])
    ensures OnlyAdds(step(db, specs[k]).0, SeededAll(step, db, specs, |specs|).0)
  {
    SettledIsQuiet(step, db, specs, k);
    FileAdds(step, db, specs, k + 1, |specs|);
    StepSucceeds(step, db, specs, k);
  }

  ghost predicate AllThere(db: Db, specs: seq<SeedType>) {
    forall k :: 0 <= k < |specs| ==> FindType(db, specs[k].key).Some?
  }

  /** A file whose types are there and that changes no row finds each of them settled. */
  lemma {:induction false} QuietIsSettledThroughout(step: Step, db: Db, specs: seq<SeedType>)
    requires Laws(step) && Valid(db) && LoadedFile(specs) && AllThere(db, specs)
    requires SeededAll(step, db, specs, |specs|).1.None? && SeededAll(step, db, specs, |specs|).0.values == db.values
    ensures SettledUpTo(db, specs, |specs|)
  {
    for k := 0 to |specs|
      invariant SettledUpTo(db, specs, k)
    {
      NextStep(step, db, specs, k);
      UndoneNowhere(step, db, specs[k], SeededAll(step, db, specs, |specs|).0);
    }
  }

  ghost predicate NoneHealedShort(db: Db, specs: seq<SeedType>) {
    forall k {:trigger SomeHealedShort(db, specs[k])} :: 0 <= k < |specs| ==> !SomeHealedShort(db, specs[k])
  }

  /** One type's verdict after the file. */
  lemma Verdict(step: Step, db: Db, specs: seq<SeedType>, k: nat)
    requires Laws(step) && Valid(db) && LoadedFile(specs) && k < |specs| && SeededAll(step, db, specs, |specs|).1.None?
    ensures FindType(SeededAll(step, db, specs, |specs|).0, specs[k].key).Some?
    ensures Settled(SeededAll(step, db, specs, |specs|).0, specs[k]) ==> !SomeHealedShort(db, specs[k])
    ensures !SomeHealedShort(db, specs[k]) ==> Settled(SeededAll(step, db, specs, |specs|).0, specs[k])
  {
    SettledAfter(step, db, specs, k);
  }

  lemma Verdicts(step: Step, db: Db, specs: seq<SeedType>)
    requires Laws(step) && Valid(db) && LoadedFile(specs) && SeededAll(step, db, specs, |specs|).1.None?
    ensures AllThere(SeededAll(step, db, specs, |specs|).0, specs)
    ensures SettledUpTo(SeededAll(step, db, specs, |specs|).0, specs, |specs|) <==> NoneHealedShort(db, specs)
  {
    var once := SeededAll(step, db, specs, |specs|).0;
    forall k | 0 <= k < |specs|
      ensures FindType(once, specs[k].key).Some?
    {
      Verdict(step, db, specs, k);
    }
    if SettledUpTo(once, specs, |specs|) {
      forall k | 0 <= k < |specs| ensures !SomeHealedShort(db, specs[k]) {
        assert Settled(once, specs[k]);
        Verdict(step, db, specs, k);
      }
    }
    if NoneHealedShort(db, specs) {
      forall k | 0 <= k < |specs| ensures Settled(once, specs[k]) {
        assert !SomeHealedShort(db, specs[k]);
        Verdict(step, db, specs, k);
      }
    }
  }

  lemma FileIsQuietIff(step: Step, db: Db, specs: seq<SeedType>)
    requires Laws(step) && Valid(db) && LoadedFile(specs) && SeededAll(step, db, specs, |specs|).1.None?
    ensures var once := SeededAll(step, db, specs, |specs|).0;
            SeededAll(step, once, specs, |specs|) == (once, None) <==> NoneHealedShort(db, specs)
  {
    var once := SeededAll(step, db, specs, |specs|).0;
    FileStaysValid(step, db, specs, |specs|);
    Verdicts(step, db, specs);
    QuietIffSettled(step, once, specs);
  }

  lemma QuietIffSettled(step: Step, db: Db, specs: seq<SeedType>)
    requires Laws(step) && Valid(db) && LoadedFile(specs) && AllThere(db, specs)
    ensures SeededAll(step, db, specs, |specs|) == (db, None) <==> SettledUpTo(db, specs, |specs|)
  {
    if SettledUpTo(db, specs, |specs|) {
      SettledIsQuiet(step, db, specs, |specs|);
    } else if SeededAll(step, db, specs, |specs|) == (db, None) {
      QuietIsSettledThroughout(step, db, specs);
    }
  }

  // ---------------------------------------------------------------------------
  // Main results
  // ---------------------------------------------------------------------------

  /** Seeding a file again changes nothing, row or version, if and only if the first run
      healed no row short of a key of `meta` that the file gives. */
  lemma SecondFileRunIsQuietIff(db: Db, specs: seq<SeedType>)
    requires Valid(db) && LoadedFile(specs) && SeededAll(SeedStep(), db, specs, |specs|).1.None?
    ensures var once := SeededAll(SeedStep(), db, specs, |specs|).0;
            SeededAll(SeedStep(), once, specs, |specs|) == (once, None) <==> NoneHealedShort(db, specs)
  {
    SeedStepLaws();
    FileIsQuietIff(SeedStep(), db, specs);
  }

  /** And a file only adds, from any starting state, also when one of its types fails. */
  lemma FilesOnlyAdd(db: Db, specs: seq<SeedType>)
    requires Valid(db)
    ensures OnlyAdds(db, SeededAll(SeedStep(), db, specs, |specs|).0)
  {
    SeedStepAdds();
    FileAdds(SeedStep(), db, specs, 0, |specs|);
  }
}
