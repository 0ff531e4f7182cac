/** `insertPresetsifNeeded`: seeding a user's category and subcategory tables from the preset list. */
module Seeding {
  import opened Wrappers
  import opened PresetStore

  /** An entry of the preset list: a category name and the names of its subcategories. */
  datatype PresetEntry = PresetEntry(name: string, subcategories: seq<string>)

  /** Which store calls answer with an error: the category upsert, the fallback lookup or the
      subcategory batch of the entries with these names, and the final flag update. */
  datatype Faults = Faults(categoryUpsert: set<string>, lookup: set<string>, subcategoryBatch: set<string>, flagUpdate: bool)

  const NoFaults: Faults := Faults({}, {}, {}, false)

  /** The store after some calls, and the calls issued, in order. */
  datatype Run = Run(db: Db, requests: seq<Request>)

  /** `category.subcategories.map(name => ({name, category_id, user_id}))`. */
  function SubcategoryBatch(names: seq<string>, categoryId: nat, user: UserId): (batch: seq<SubcategoryDraft>)
    ensures |batch| == |names|
    ensures forall i | 0 <= i < |names| :: batch[i] == SubcategoryDraft(names[i], categoryId, user)
  {
    if names == [] then [] else [SubcategoryDraft(names[0], categoryId, user)] + SubcategoryBatch(names[1..], categoryId, user)
  }

  predicate IsFaulty(f: Faults, name: string) {
    name in f.categoryUpsert || name in f.lookup || name in f.subcategoryBatch
  }

  /** The category upsert and, when it returned no row, the fallback lookup: the store afterwards,
      the calls issued and the category row the entry resolved to (none when it is skipped). */
  function ResolveCategory(db: Db, user: UserId, p: PresetEntry, f: Faults): (r: (Db, seq<Request>, Option<CategoryRow>))
    ensures r.1 == [CategoryUpsert(user, p.name)] || r.1 == [CategoryUpsert(user, p.name), CategoryLookup(user, p.name)]
    ensures |r.1| == 2 <==> p.name !in f.categoryUpsert && HasCategoryKey(db.categories, user, p.name)
    ensures r.2.Some? ==> r.2.value in r.0.categories && r.2.value.userId == user && r.2.value.name == p.name
    ensures r.0.subcategories == db.subcategories && r.0.hasPresets == db.hasPresets
  {
    var (after, reply) := UpsertCategoryCall(db, user, p.name, p.name in f.categoryUpsert);
    var upsert := [CategoryUpsert(user, p.name)];
    match reply
    case Failed => (after, upsert, None)
    case Returned(Some(row)) => (after, upsert, Some(row))
    case Returned(None) =>
      match LookupCategoryCall(after, user, p.name, p.name in f.lookup)
      case Failed => (after, upsert + [CategoryLookup(user, p.name)], None)
      case Returned(row) => (after, upsert + [CategoryLookup(user, p.name)], Some(row))
  }

  /** One iteration of the loop: resolve the category, then upsert its subcategories in one batch
      when there are any. */
  function SeedEntry(db: Db, user: UserId, p: PresetEntry, f: Faults): (r: Run)
    ensures 1 <= |r.requests| <= 3 && r.requests[0] == CategoryUpsert(user, p.name)
    ensures forall i | 1 <= i < |r.requests| :: !r.requests[i].CategoryUpsert?
    ensures forall i | 0 <= i < |r.requests| :: !r.requests[i].PresetFlagUpdate?
    ensures r.db.hasPresets == db.hasPresets
  {
    var (after, requests, resolved) := ResolveCategory(db, user, p, f);
    if resolved.None? || |p.subcategories| == 0 then Run(after, requests)
    else
      var batch := SubcategoryBatch(p.subcategories, resolved.value.id, user);
      Run(UpsertSubcategoriesCall(after, batch, p.name in f.subcategoryBatch), requests + [SubcategoryUpsert(batch)])
  }

  /** The loop over the preset list, in list order. */
  function SeedEntries(db: Db, user: UserId, presets: seq<PresetEntry>, f: Faults): (r: Run)
    ensures |presets| <= |r.requests| <= 3 * |presets|
    ensures forall i | 0 <= i < |r.requests| :: !r.requests[i].PresetFlagUpdate?
    ensures r.db.hasPresets == db.hasPresets
    decreases |presets|
  {
    if presets == [] then Run(db, [])
    else
      var first := SeedEntry(db, user, presets[0], f);
      var rest := SeedEntries(first.db, user, presets[1..], f);
      Run(rest.db, first.requests + rest.requests)
  }

  /** The whole routine: nothing without a signed-in user; otherwise the loop, then the flag update. */
  function SeedRun(db: Db, user: Option<UserId>, presets: seq<PresetEntry>, f: Faults): (r: Run)
    ensures user.None? <==> r.requests == []
    ensures user.None? ==> r.db == db
    ensures user.Some? ==> |presets| + 1 <= |r.requests| <= 3 * |presets| + 1
    ensures user.Some? ==> r.requests[|r.requests| - 1] == PresetFlagUpdate(user.value)
  {
    match user
    case None => Run(db, [])
    case Some(u) =>
      var loop := SeedEntries(db, u, presets, f);
      Run(PresetFlagCall(loop.db, u, f.flagUpdate), loop.requests + [PresetFlagUpdate(u)])
  }

  /** One pass of the `for...of` body; each `return` is the source's `continue`. */
  method SeedOneEntry(store: Store, u: UserId, category: PresetEntry, f: Faults)
    modifies store
    ensures store.Snapshot() == SeedEntry(old(store.Snapshot()), u, category, f).db
    ensures store.log == old(store.log) + SeedEntry(old(store.Snapshot()), u, category, f).requests
  {
    var upserted := store.UpsertCategory(u, category.name, category.name in f.categoryUpsert);
    if upserted.Failed? {
      return;
    }
    var insertedCategory := upserted.value;
    if insertedCategory.None? {
      var existing := store.SelectCategory(u, category.name, category.name in f.lookup);
      if existing.Failed? {
        return;
      }
      insertedCategory := Some(existing.value);
    }
    if |category.subcategories| > 0 {
      var subcatInserts := SubcategoryBatch(category.subcategories, insertedCategory.value.id, u);
      store.UpsertSubcategories(subcatInserts, category.name in f.subcategoryBatch);
    }
  }

  /** `SeedEntries` on the rest of the list from `i`, one entry unfolded. */
  lemma UnfoldEntries(db: Db, u: UserId, presets: seq<PresetEntry>, i: nat, f: Faults)
    requires i < |presets|
    ensures
      var first := SeedEntry(db, u, presets[i], f);
      var rest := SeedEntries(first.db, u, presets[i + 1..], f);
      SeedEntries(db, u, presets[i..], f) == Run(rest.db, first.requests + rest.requests)
  {
    assert presets[i..][0] == presets[i] && presets[i..][1..] == presets[i + 1..];
  }

  /** What is left of the loop from entry `i` on, applied to the store `db` whose log is `log`,
      is the whole loop. */
  ghost predicate LoopInvariant(db: Db, log: seq<Request>, u: UserId, presets: seq<PresetEntry>, i: nat, f: Faults, total: Run, startLog: seq<Request>)
    requires i <= |presets|
  {
    var rest := SeedEntries(db, u, presets[i..], f);
    rest.db == total.db && log + rest.requests == startLog + total.requests
  }

  /** Doing entry `i` as `SeedEntry` says moves the invariant from `i` to `i + 1`. */
  lemma StepKeepsInvariant(db: Db, log: seq<Request>, u: UserId, presets: seq<PresetEntry>, i: nat, f: Faults, total: Run, startLog: seq<Request>)
    requires i < |presets| && LoopInvariant(db, log, u, presets, i, f, total, startLog)
    ensures
      var first := SeedEntry(db, u, presets[i], f);
      LoopInvariant(first.db, log + first.requests, u, presets, i + 1, f, total, startLog)
  {
    UnfoldEntries(db, u, presets, i, f);
    var first := SeedEntry(db, u, presets[i], f);
    var rest := SeedEntries(first.db, u, presets[i + 1..], f);
    assert (log + first.requests) + rest.requests == log + (first.requests + rest.requests);
  }

  /** One pass of the loop keeps its invariant. */
  method SeedStep(store: Store, u: UserId, presets: seq<PresetEntry>, i: nat, f: Faults, ghost total: Run, ghost startLog: seq<Request>)
    requires i < |presets| && LoopInvariant(store.Snapshot(), store.log, u, presets, i, f, total, startLog)
    modifies store
    ensures LoopInvariant(store.Snapshot(), store.log, u, presets, i + 1, f, total, startLog)
  {
    StepKeepsInvariant(store.Snapshot(), store.log, u, presets, i, f, total, startLog);
    SeedOneEntry(store, u, presets[i], f);
  }

  /** The `for...of` loop over the preset list. */
  method SeedAll(store: Store, u: UserId, presets: seq<PresetEntry>, f: Faults)
    modifies store
    ensures store.Snapshot() == SeedEntries(old(store.Snapshot()), u, presets, f).db
    ensures store.log == old(store.log) + SeedEntries(old(store.Snapshot()), u, presets, f).requests
  {
    ghost var total := SeedEntries(store.Snapshot(), u, presets, f);
    ghost var startLog := store.log;
    assert presets[0..] == presets;
    for i := 0 to |presets|
      invariant LoopInvariant(store.Snapshot(), store.log, u, presets, i, f, total, startLog)
    {
      SeedStep(store, u, presets, i, f, total, startLog);
    }
    assert presets[|presets|..] == [];
    assert store.log + [] == store.log;
  }

  /** `insertPresetsifNeeded`, with `user` standing for the session's user and `f` for the calls
      the store answers with an error. */
  method InsertPresetsIfNeeded(store: Store, user: Option<UserId>, presets: seq<PresetEntry>, f: Faults)
    modifies store
    ensures store.Snapshot() == SeedRun(old(store.Snapshot()), user, presets, f).db
    ensures store.log == old(store.log) + SeedRun(old(store.Snapshot()), user, presets, f).requests
  {
    if user.None? {
      assert old(store.log) + [] == old(store.log);
      return;
    }
    var u := user.value;
    ghost var loop := SeedEntries(store.Snapshot(), u, presets, f);
    SeedAll(store, u, presets, f);
    store.UpdatePresetFlag(u, f.flagUpdate);
    assert store.log == old(store.log) + (loop.requests + [PresetFlagUpdate(u)]);
  }

  // ---- What seeding guarantees ----

  /** The entry's category exists for the user and carries every preset subcategory name. */
  predicate CoversEntry(db: Db, u: UserId, p: PresetEntry) {
    exists c | c in db.categories ::
      c.userId == u && c.name == p.name && forall s | s in p.subcategories :: HasSubcategoryKey(db.subcategories, c.id, s)
  }

  /** Rows are only ever appended, so what an entry found stays found. */
  lemma CoversEntryMonotone(a: Db, b: Db, u: UserId, p: PresetEntry)
    requires Grows(a, b) && CoversEntry(a, u, p)
    ensures CoversEntry(b, u, p)
  {
    var c :| c in a.categories && c.userId == u && c.name == p.name &&
             forall s | s in p.subcategories :: HasSubcategoryKey(a.subcategories, c.id, s);
    PrefixMembership(a.categories, b.categories, c);
    forall s | s in p.subcategories ensures HasSubcategoryKey(b.subcategories, c.id, s) {
      var r :| r in a.subcategories && r.categoryId == c.id && r.name == s;
      PrefixMembership(a.subcategories, b.subcategories, r);
    }
  }

  /** The upsert and the lookup keep the invariants; the resolved row is the row of the entry's key;
      and the entry is skipped exactly when its upsert fails, or when its category already existed
      and the lookup fails. */
  lemma ResolveCategoryProperties(db: Db, u: UserId, p: PresetEntry, f: Faults)
    requires Valid(db)
    ensures
      var (after, requests, resolved) := ResolveCategory(db, u, p, f);
      && Valid(after) && Grows(db, after)
      && (resolved.Some? ==> resolved.value in after.categories && resolved.value.userId == u && resolved.value.name == p.name)
      && (resolved.None? <==> p.name in f.categoryUpsert || (HasCategoryKey(db.categories, u, p.name) && p.name in f.lookup))
      && (resolved.None? ==> after == db)
  {
    UpsertCategoryProperties(db, u, p.name, p.name in f.categoryUpsert);
    var (after, reply) := UpsertCategoryCall(db, u, p.name, p.name in f.categoryUpsert);
    if reply == Returned(None) {
      var c :| c in after.categories && c.userId == u && c.name == p.name;
      MatchesOfUniqueKey(after.categories, u, p.name);
    }
  }

  /** One entry keeps the invariants, only appends rows, and leaves an entry none of whose calls
      fail fully present. */
  lemma SeedEntryProperties(db: Db, u: UserId, p: PresetEntry, f: Faults)
    requires Valid(db)
    ensures Valid(SeedEntry(db, u, p, f).db) && Grows(db, SeedEntry(db, u, p, f).db)
    ensures !IsFaulty(f, p.name) ==> CoversEntry(SeedEntry(db, u, p, f).db, u, p)
  {
    ResolveCategoryProperties(db, u, p, f);
    var (after, requests, resolved) := ResolveCategory(db, u, p, f);
    if resolved.Some? {
      var c := resolved.value;
      var batch := SubcategoryBatch(p.subcategories, c.id, u);
      var result := SeedEntry(db, u, p, f).db;
      if |p.subcategories| > 0 && p.name !in f.subcategoryBatch {
        InsertSubcategoriesProperties(after, batch);
        GrowsTransitive(db, after, result);
        forall s | s in p.subcategories ensures HasSubcategoryKey(result.subcategories, c.id, s) {
          var k :| 0 <= k < |p.subcategories| && p.subcategories[k] == s;
          assert batch[k] in batch;
        }
      }
      assert c in result.categories;
    }
  }

  /** The loop keeps the invariants (no key twice, every subcategory on a category of its user),
      only appends rows, and leaves every entry whose calls do not fail fully present, whatever
      happened to the other entries. */
  lemma {:induction false} SeedEntriesProperties(db: Db, u: UserId, presets: seq<PresetEntry>, f: Faults)
    requires Valid(db)
    ensures Valid(SeedEntries(db, u, presets, f).db) && Grows(db, SeedEntries(db, u, presets, f).db)
    ensures forall p | p in presets && !IsFaulty(f, p.name) :: CoversEntry(SeedEntries(db, u, presets, f).db, u, p)
    decreases |presets|
  {
    if presets != [] {
      var first := SeedEntry(db, u, presets[0], f);
      SeedEntryProperties(db, u, presets[0], f);
      SeedEntriesProperties(first.db, u, presets[1..], f);
      var result := SeedEntries(db, u, presets, f).db;
      GrowsTransitive(db, first.db, result);
      forall p | p in presets && !IsFaulty(f, p.name) ensures CoversEntry(result, u, p) {
        if p == presets[0] {
          CoversEntryMonotone(first.db, result, u, p);
        } else {
          assert p in presets[1..];
        }
      }
    }
  }

  /** Seeding never breaks the table invariants, never removes or changes a row, and leaves every
      preset whose calls succeed fully present. */
  lemma SeedRunProperties(db: Db, user: Option<UserId>, presets: seq<PresetEntry>, f: Faults)
    requires Valid(db)
    ensures Valid(SeedRun(db, user, presets, f).db)
    ensures db.categories <= SeedRun(db, user, presets, f).db.categories
    ensures db.subcategories <= SeedRun(db, user, presets, f).db.subcategories
    ensures user.Some? ==>
      forall p | p in presets && !IsFaulty(f, p.name) :: CoversEntry(SeedRun(db, user, presets, f).db, user.value, p)
  {
    if user.Some? {
      SeedEntriesProperties(db, user.value, presets, f);
    }
  }

  /** An entry already fully present changes nothing, whichever of its calls fail. */
  lemma SeedEntryNoOp(db: Db, u: UserId, p: PresetEntry, f: Faults)
    requires Valid(db) && CoversEntry(db, u, p)
    ensures SeedEntry(db, u, p, f).db == db
  {
    var c :| c in db.categories && c.userId == u && c.name == p.name &&
             forall s | s in p.subcategories :: HasSubcategoryKey(db.subcategories, c.id, s);
    MatchesOfUniqueKey(db.categories, u, p.name);
    var resolved := ResolveCategory(db, u, p, f);
    assert resolved.0 == db;
    assert resolved.2.None? || resolved.2 == Some(c);
    var batch := SubcategoryBatch(p.subcategories, c.id, u);
    forall d | d in batch ensures HasSubcategoryKey(db.subcategories, d.categoryId, d.name) {
      var k :| 0 <= k < |batch| && batch[k] == d;
      assert p.subcategories[k] in p.subcategories;
    }
    InsertSubcategoriesNoOp(db, batch);
  }

  lemma {:induction false} SeedEntriesNoOp(db: Db, u: UserId, presets: seq<PresetEntry>, f: Faults)
    requires Valid(db)
    requires forall p | p in presets :: CoversEntry(db, u, p)
    ensures SeedEntries(db, u, presets, f).db == db
    decreases |presets|
  {
    if presets != [] {
      SeedEntryNoOp(db, u, presets[0], f);
      assert forall p | p in presets[1..] :: p in presets;
      SeedEntriesNoOp(db, u, presets[1..], f);
    }
  }

  /** On a store where every preset is already present, a run leaves both tables as they are,
      whichever calls fail. */
  lemma SeedRunOnSeededStore(db: Db, user: Option<UserId>, presets: seq<PresetEntry>, f: Faults)
    requires Valid(db)
    requires user.Some? ==> forall p | p in presets :: CoversEntry(db, user.value, p)
    ensures SeedRun(db, user, presets, f).db.categories == db.categories
    ensures SeedRun(db, user, presets, f).db.subcategories == db.subcategories
  {
    if user.Some? {
      SeedEntriesNoOp(db, user.value, presets, f);
    }
  }

  /** Setting the flag a second time changes nothing, whether or not that call fails. */
  lemma FlagCallIdempotent(db: Db, u: UserId, fails: bool)
    ensures PresetFlagCall(PresetFlagCall(db, u, false), u, fails) == PresetFlagCall(db, u, false)
  {
    if u in db.hasPresets {
      assert db.hasPresets[u := true][u := true] == db.hasPresets[u := true];
    }
  }

  /** Seeding is idempotent: after a run whose calls all succeed, a second run over the same
      presets leaves the store exactly as the first left it, even if some of its own calls fail. */
  lemma SeedRunIdempotent(db: Db, user: Option<UserId>, presets: seq<PresetEntry>, f: Faults)
    requires Valid(db)
    ensures
      var once := SeedRun(db, user, presets, NoFaults).db;
      SeedRun(once, user, presets, f).db == once
  {
    if user.Some? {
      var u := user.value;
      SeedEntriesProperties(db, u, presets, NoFaults);
      var loop := SeedEntries(db, u, presets, NoFaults).db;
      var once := SeedRun(db, user, presets, NoFaults).db;
      assert Valid(once) && forall p | p in presets :: CoversEntry(once, u, p);
      SeedEntriesNoOp(once, u, presets, f);
      FlagCallIdempotent(loop, u, f.flagUpdate);
    }
  }

  /** Seeding an empty store twice gives the same tables as seeding it once, with no key twice. */
  lemma SeedEmptyStoreTwice(users: map<UserId, bool>, user: Option<UserId>, presets: seq<PresetEntry>)
    ensures
      var once := SeedRun(EmptyDb(users), user, presets, NoFaults).db;
      SeedRun(once, user, presets, NoFaults).db == once && Valid(once)
  {
    SeedRunIdempotent(EmptyDb(users), user, presets, NoFaults);
    SeedRunProperties(EmptyDb(users), user, presets, NoFaults);
  }

  // ---- The calls each entry issues ----

  /** The names of the category upserts among `requests`, in order. */
  function UpsertedNames(requests: seq<Request>): seq<string> {
    if requests == [] then []
    else (if requests[0].CategoryUpsert? then [requests[0].name] else []) + UpsertedNames(requests[1..])
  }

  lemma {:induction false} UpsertedNamesAppend(a: seq<Request>, b: seq<Request>)
    ensures UpsertedNames(a + b) == UpsertedNames(a) + UpsertedNames(b)
  {
    if a == [] {
      assert a + b == b;
    } else {
      assert (a + b)[1..] == a[1..] + b;
      UpsertedNamesAppend(a[1..], b);
    }
  }

  function PresetNames(presets: seq<PresetEntry>): (names: seq<string>)
    ensures |names| == |presets|
  {
    if presets == [] then [] else [presets[0].name] + PresetNames(presets[1..])
  }

  /** An entry starts with its category upsert, issues a subcategory batch exactly when its category
      was resolved and it has subcategories, and that batch is the entry's rows, in order, on the
      resolved category for the user. */
  lemma SeedEntryRequests(db: Db, u: UserId, p: PresetEntry, f: Faults)
    ensures
      var requests := SeedEntry(db, u, p, f).requests;
      var resolved := ResolveCategory(db, u, p, f).2;
      && |requests| > 0 && requests[0] == CategoryUpsert(u, p.name)
      && UpsertedNames(requests) == [p.name]
      && ((exists i | 0 <= i < |requests| :: requests[i].SubcategoryUpsert?) <==> resolved.Some? && |p.subcategories| > 0)
      && (resolved.Some? && |p.subcategories| > 0 ==>
            requests[|requests| - 1] == SubcategoryUpsert(SubcategoryBatch(p.subcategories, resolved.value.id, u)))
  {
    var requests := SeedEntry(db, u, p, f).requests;
    assert UpsertedNames([CategoryUpsert(u, p.name)]) == [p.name];
    var lookup := CategoryLookup(u, p.name);
    assert UpsertedNames([lookup]) == [];
    UpsertedNamesAppend([CategoryUpsert(u, p.name)], [lookup]);
    var resolved := ResolveCategory(db, u, p, f).2;
    if resolved.Some? && |p.subcategories| > 0 {
      var batch := SubcategoryUpsert(SubcategoryBatch(p.subcategories, resolved.value.id, u));
      var head := ResolveCategory(db, u, p, f).1;
      assert requests == head + [batch];
      assert UpsertedNames([batch]) == [];
      UpsertedNamesAppend(head, [batch]);
    }
  }

  /** An entry that is skipped leaves the store unchanged. */
  lemma SkippedEntryChangesNothing(db: Db, u: UserId, p: PresetEntry, f: Faults)
    requires Valid(db)
    requires p.name in f.categoryUpsert || (HasCategoryKey(db.categories, u, p.name) && p.name in f.lookup)
    ensures SeedEntry(db, u, p, f).db == db
    ensures forall i | 0 <= i < |SeedEntry(db, u, p, f).requests| :: !SeedEntry(db, u, p, f).requests[i].SubcategoryUpsert?
  {
    ResolveCategoryProperties(db, u, p, f);
    SeedEntryRequests(db, u, p, f);
  }

  /** Every entry of the list is processed, in list order, whatever fails: the category upserts
      issued are one per entry. */
  lemma {:induction false} EveryEntryProcessed(db: Db, u: UserId, presets: seq<PresetEntry>, f: Faults)
    ensures UpsertedNames(SeedEntries(db, u, presets, f).requests) == PresetNames(presets)
    decreases |presets|
  {
    if presets != [] {
      var first := SeedEntry(db, u, presets[0], f);
      SeedEntryRequests(db, u, presets[0], f);
      EveryEntryProcessed(first.db, u, presets[1..], f);
      UpsertedNamesAppend(first.requests, SeedEntries(first.db, u, presets[1..], f).requests);
    }
  }

  /** With a signed-in user the flag update is always the last call, after every entry, whatever
      failed; it sets `has_presets` on the user's row unless the update itself fails, and touches
      no other user. Without a user nothing is called. */
  lemma {:induction false} FlagSetAfterLoop(db: Db, user: Option<UserId>, presets: seq<PresetEntry>, f: Faults)
    ensures user.None? ==> SeedRun(db, user, presets, f) == Run(db, [])
    ensures user.Some? ==>
      var r := SeedRun(db, user, presets, f);
      && |r.requests| > 0 && r.requests[|r.requests| - 1] == PresetFlagUpdate(user.value)
      && (user.value in db.hasPresets && !f.flagUpdate ==> user.value in r.db.hasPresets && r.db.hasPresets[user.value])
      && (forall v | v in db.hasPresets && v != user.value :: v in r.db.hasPresets && r.db.hasPresets[v] == db.hasPresets[v])
  {
  }
}
