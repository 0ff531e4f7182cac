/** The two taxonomy tables and the users flag as the seeding routine sees them, with the
    semantics of each store call it issues: an upsert that ignores duplicates, a single-row
    lookup, a batch upsert and a flag update. */
module PresetStore {
  import opened Wrappers

  /** A `categories` row; unique per `(user_id, name)`. */
  datatype CategoryRow = CategoryRow(id: nat, userId: UserId, name: string)

  /** A `subcategories` row; unique per `(category_id, name)`. */
  datatype SubcategoryRow = SubcategoryRow(id: nat, categoryId: nat, userId: UserId, name: string)

  /** A row of a subcategory batch, before the store gives it an id. */
  datatype SubcategoryDraft = SubcategoryDraft(name: string, categoryId: nat, userId: UserId)

  /** A call issued to the store. */
  datatype Request =
    | CategoryUpsert(userId: UserId, name: string)
    | CategoryLookup(userId: UserId, name: string)
    | SubcategoryUpsert(rows: seq<SubcategoryDraft>)
    | PresetFlagUpdate(userId: UserId)

  /** The store's answer to a call: an error, or the data it returned. */
  datatype Reply<T> = Failed | Returned(value: T)

  /** The tables, the `has_presets` column of `users`, and the next id each table hands out. */
  datatype Db = Db(
    categories: seq<CategoryRow>,
    subcategories: seq<SubcategoryRow>,
    hasPresets: map<UserId, bool>,
    nextCategoryId: nat,
    nextSubcategoryId: nat)

  predicate HasCategoryKey(rows: seq<CategoryRow>, user: UserId, name: string) {
    exists c | c in rows :: c.userId == user && c.name == name
  }

  predicate HasSubcategoryKey(rows: seq<SubcategoryRow>, categoryId: nat, name: string) {
    exists r | r in rows :: r.categoryId == categoryId && r.name == name
  }

  /** The rows a `select` on `user_id` and `name` returns, in table order. */
  function CategoryMatches(rows: seq<CategoryRow>, user: UserId, name: string): (matches: seq<CategoryRow>)
    ensures forall c | c in matches :: c in rows && c.userId == user && c.name == name
    ensures matches == [] <==> !HasCategoryKey(rows, user, name)
  {
    if rows == [] then []
    else
      var rest := CategoryMatches(rows[1..], user, name);
      assert forall c | c in rows[1..] :: c in rows;
      assert forall c | c in rows && c != rows[0] :: c in rows[1..];
      (if rows[0].userId == user && rows[0].name == name then [rows[0]] else []) + rest
  }

  predicate UniqueCategoryKeys(rows: seq<CategoryRow>) {
    forall i, j | 0 <= i < j < |rows| :: rows[i].userId != rows[j].userId || rows[i].name != rows[j].name
  }

  predicate UniqueSubcategoryKeys(rows: seq<SubcategoryRow>) {
    forall i, j | 0 <= i < j < |rows| :: rows[i].categoryId != rows[j].categoryId || rows[i].name != rows[j].name
  }

  /** The subcategory's `category_id` names a category of the same user. */
  predicate References(categories: seq<CategoryRow>, r: SubcategoryRow) {
    exists c | c in categories :: c.id == r.categoryId && c.userId == r.userId
  }

  /** The table invariants: no key twice, ids distinct and below the next id, and every
      subcategory attached to a category of its own user. */
  predicate Valid(db: Db) {
    && UniqueCategoryKeys(db.categories)
    && (forall i, j | 0 <= i < j < |db.categories| :: db.categories[i].id != db.categories[j].id)
    && (forall c | c in db.categories :: c.id < db.nextCategoryId)
    && UniqueSubcategoryKeys(db.subcategories)
    && (forall i, j | 0 <= i < j < |db.subcategories| :: db.subcategories[i].id != db.subcategories[j].id)
    && (forall r | r in db.subcategories :: r.id < db.nextSubcategoryId && References(db.categories, r))
  }

  /** A store with no rows. */
  function EmptyDb(users: map<UserId, bool>): (db: Db)
    ensures Valid(db)
  {
    Db([], [], users, 0, 0)
  }

  /** Under the key invariant a key names at most one row, so `.single()` finds the row when it exists. */
  lemma {:induction false} MatchesOfUniqueKey(rows: seq<CategoryRow>, user: UserId, name: string)
    requires UniqueCategoryKeys(rows)
    ensures |CategoryMatches(rows, user, name)| <= 1
    ensures forall c | c in rows && c.userId == user && c.name == name :: CategoryMatches(rows, user, name) == [c]
  {
    if rows != [] {
      var tail := rows[1..];
      assert UniqueCategoryKeys(tail) by {
        forall i, j | 0 <= i < j < |tail| ensures tail[i].userId != tail[j].userId || tail[i].name != tail[j].name {
          assert tail[i] == rows[i + 1] && tail[j] == rows[j + 1];
        }
      }
      MatchesOfUniqueKey(tail, user, name);
      if rows[0].userId == user && rows[0].name == name {
        assert !HasCategoryKey(tail, user, name) by {
          forall c | c in tail ensures c.userId != user || c.name != name {
            var k :| 0 <= k < |tail| && tail[k] == c;
            assert rows[k + 1] == c;
          }
        }
      }
      assert forall x | x in rows && x != rows[0] :: x in tail;
    }
  }

  // ---- The store calls, as functions of the store ----

  /** `upsert({user_id, name}, {onConflict: ['user_id','name'], ignoreDuplicates: true}).select()`:
      an error, the inserted row, or no row when the key is already present. */
  function UpsertCategoryCall(db: Db, user: UserId, name: string, fails: bool): (r: (Db, Reply<Option<CategoryRow>>))
    ensures r.1 == Failed <==> fails
    ensures r.1 == Returned(None) <==> !fails && HasCategoryKey(db.categories, user, name)
    ensures !r.1.Returned? || r.1.value.None? ==> r.0 == db
    ensures r.1.Returned? && r.1.value.Some? ==>
      && r.1.value.value.userId == user && r.1.value.value.name == name
      && r.0.categories == db.categories + [r.1.value.value]
    ensures r.0.subcategories == db.subcategories && r.0.hasPresets == db.hasPresets
  {
    if fails then (db, Failed)
    else if HasCategoryKey(db.categories, user, name) then (db, Returned(None))
    else
      var row := CategoryRow(db.nextCategoryId, user, name);
      (db.(categories := db.categories + [row], nextCategoryId := db.nextCategoryId + 1), Returned(Some(row)))
  }

  /** `select('*').eq('user_id', user).eq('name', name).single()`: an error unless exactly one row matches. */
  function LookupCategoryCall(db: Db, user: UserId, name: string, fails: bool): (reply: Reply<CategoryRow>)
    ensures reply.Returned? ==> reply.value in db.categories && reply.value.userId == user && reply.value.name == name
  {
    var matches := CategoryMatches(db.categories, user, name);
    if fails || |matches| != 1 then Failed else Returned(matches[0])
  }

  /** One row of the batch: inserted with the next id unless its `(category_id, name)` key exists. */
  function InsertOne(db: Db, d: SubcategoryDraft): (next: Db)
    ensures HasSubcategoryKey(next.subcategories, d.categoryId, d.name)
    ensures HasSubcategoryKey(db.subcategories, d.categoryId, d.name) ==> next == db
    ensures next.categories == db.categories && next.hasPresets == db.hasPresets
    ensures db.subcategories <= next.subcategories && |next.subcategories| <= |db.subcategories| + 1
    ensures forall k | |db.subcategories| <= k < |next.subcategories| ::
      next.subcategories[k] == SubcategoryRow(db.nextSubcategoryId, d.categoryId, d.userId, d.name)
  {
    if HasSubcategoryKey(db.subcategories, d.categoryId, d.name) then db
    else db.(subcategories := db.subcategories + [SubcategoryRow(db.nextSubcategoryId, d.categoryId, d.userId, d.name)],
             nextSubcategoryId := db.nextSubcategoryId + 1)
  }

  /** `row` is the row of one of the drafts: same category, name and user. */
  predicate FromDrafts(row: SubcategoryRow, drafts: seq<SubcategoryDraft>) {
    exists d | d in drafts :: row.categoryId == d.categoryId && row.name == d.name && row.userId == d.userId
  }

  /** The rows of a batch inserted one after another, each skipped when its key is already present
      (also when an earlier row of the same batch put it there). */
  function InsertSubcategories(db: Db, drafts: seq<SubcategoryDraft>): (next: Db)
    ensures next.categories == db.categories && next.hasPresets == db.hasPresets
    ensures db.subcategories <= next.subcategories && |next.subcategories| <= |db.subcategories| + |drafts|
    ensures forall k | |db.subcategories| <= k < |next.subcategories| :: FromDrafts(next.subcategories[k], drafts)
    decreases |drafts|
  {
    if drafts == [] then db
    else
      var first := InsertOne(db, drafts[0]);
      var next := InsertSubcategories(first, drafts[1..]);
      assert forall k | |db.subcategories| <= k < |first.subcategories| :: next.subcategories[k] == first.subcategories[k];
      assert forall d | d in drafts[1..] :: d in drafts;
      next
  }

  /** `upsert(rows, {onConflict: ['category_id','name'], ignoreDuplicates: true})`; a failed batch writes nothing. */
  function UpsertSubcategoriesCall(db: Db, drafts: seq<SubcategoryDraft>, fails: bool): (next: Db)
    ensures fails ==> next == db
    ensures next.categories == db.categories && next.hasPresets == db.hasPresets
    ensures db.subcategories <= next.subcategories
    ensures forall k | |db.subcategories| <= k < |next.subcategories| :: FromDrafts(next.subcategories[k], drafts)
  {
    if fails then db else InsertSubcategories(db, drafts)
  }

  /** `update({has_presets: true}).eq('id', user)`: changes the user's row when it exists. */
  function PresetFlagCall(db: Db, user: UserId, fails: bool): (next: Db)
    ensures next.categories == db.categories && next.subcategories == db.subcategories
    ensures next.hasPresets.Keys == db.hasPresets.Keys
    ensures forall v | v in db.hasPresets && v != user :: next.hasPresets[v] == db.hasPresets[v]
    ensures user in db.hasPresets ==> next.hasPresets[user] == (!fails || db.hasPresets[user])
    ensures fails ==> next == db
  {
    if fails || user !in db.hasPresets then db else db.(hasPresets := db.hasPresets[user := true])
  }

  // ---- Facts about the calls ----

  /** `a` is `b` before some rows were appended: nothing was removed or changed. */
  predicate Grows(a: Db, b: Db) {
    && a.categories <= b.categories && a.subcategories <= b.subcategories
    && a.nextCategoryId <= b.nextCategoryId && a.nextSubcategoryId <= b.nextSubcategoryId
    && a.hasPresets == b.hasPresets
  }

  lemma GrowsTransitive(a: Db, b: Db, c: Db)
    requires Grows(a, b) && Grows(b, c)
    ensures Grows(a, c)
  {
  }

  lemma PrefixMembership<T>(a: seq<T>, b: seq<T>, x: T)
    requires a <= b && x in a
    ensures x in b
  {
    var k :| 0 <= k < |a| && a[k] == x;
    assert b[k] == x;
  }

  /** The category upsert keeps the invariants, only appends, and a returned row is the new row of the key. */
  lemma UpsertCategoryProperties(db: Db, user: UserId, name: string, fails: bool)
    requires Valid(db)
    ensures Valid(UpsertCategoryCall(db, user, name, fails).0)
    ensures Grows(db, UpsertCategoryCall(db, user, name, fails).0)
    ensures UpsertCategoryCall(db, user, name, fails).1 != Returned(None) || HasCategoryKey(db.categories, user, name)
    ensures UpsertCategoryCall(db, user, name, fails).1 == Returned(None) ==> UpsertCategoryCall(db, user, name, fails).0 == db
    ensures UpsertCategoryCall(db, user, name, fails).1 == Failed ==> UpsertCategoryCall(db, user, name, fails).0 == db
    ensures
      var (after, reply) := UpsertCategoryCall(db, user, name, fails);
      reply.Returned? && reply.value.Some? ==>
        reply.value.value in after.categories && reply.value.value.userId == user && reply.value.value.name == name
    ensures
      var (after, reply) := UpsertCategoryCall(db, user, name, fails);
      reply.Returned? && reply.value.Some? ==>
        !HasCategoryKey(db.categories, user, name) && after.categories == db.categories + [reply.value.value]
  {
    if !fails && !HasCategoryKey(db.categories, user, name) {
      var after := UpsertCategoryCall(db, user, name, fails).0;
      var row := CategoryRow(db.nextCategoryId, user, name);
      assert after.categories == db.categories + [row];
      forall r | r in after.subcategories ensures References(after.categories, r) {
        var c :| c in db.categories && c.id == r.categoryId && c.userId == r.userId;
        assert c in after.categories;
      }
    }
  }

  /** One row keeps the invariants when its category belongs to its user, only appends, and leaves
      its key present. */
  lemma InsertOneProperties(db: Db, d: SubcategoryDraft)
    requires Valid(db)
    requires exists c | c in db.categories :: c.id == d.categoryId && c.userId == d.userId
    ensures Valid(InsertOne(db, d)) && Grows(db, InsertOne(db, d))
    ensures InsertOne(db, d).categories == db.categories
    ensures HasSubcategoryKey(InsertOne(db, d).subcategories, d.categoryId, d.name)
  {
    var next := InsertOne(db, d);
    if !HasSubcategoryKey(db.subcategories, d.categoryId, d.name) {
      var row := SubcategoryRow(db.nextSubcategoryId, d.categoryId, d.userId, d.name);
      assert next.subcategories == db.subcategories + [row];
      assert References(next.categories, row);
      forall i, j | 0 <= i < j < |next.subcategories|
        ensures next.subcategories[i].categoryId != next.subcategories[j].categoryId || next.subcategories[i].name != next.subcategories[j].name
        ensures next.subcategories[i].id != next.subcategories[j].id
      {
        if j == |db.subcategories| {
          assert next.subcategories[i] in db.subcategories;
        }
      }
      assert next.subcategories[|db.subcategories|] == row;
    }
  }

  /** The batch keeps the invariants when every row's category belongs to the row's user, only
      appends, and leaves every key of the batch present. */
  lemma {:induction false} InsertSubcategoriesProperties(db: Db, drafts: seq<SubcategoryDraft>)
    requires Valid(db)
    requires forall d | d in drafts :: exists c | c in db.categories :: c.id == d.categoryId && c.userId == d.userId
    ensures Valid(InsertSubcategories(db, drafts))
    ensures Grows(db, InsertSubcategories(db, drafts))
    ensures InsertSubcategories(db, drafts).categories == db.categories
    ensures forall d | d in drafts :: HasSubcategoryKey(InsertSubcategories(db, drafts).subcategories, d.categoryId, d.name)
    decreases |drafts|
  {
    if drafts != [] {
      var d := drafts[0];
      var next := InsertOne(db, d);
      InsertOneProperties(db, d);
      InsertSubcategoriesProperties(next, drafts[1..]);
      var result := InsertSubcategories(db, drafts);
      assert HasSubcategoryKey(result.subcategories, d.categoryId, d.name) by {
        var r :| r in next.subcategories && r.categoryId == d.categoryId && r.name == d.name;
        PrefixMembership(next.subcategories, result.subcategories, r);
      }
      forall e | e in drafts ensures HasSubcategoryKey(result.subcategories, e.categoryId, e.name) {
        if e != d {
          assert e in drafts[1..];
        }
      }
    }
  }

  /** A batch whose keys are all present changes nothing. */
  lemma {:induction false} InsertSubcategoriesNoOp(db: Db, drafts: seq<SubcategoryDraft>)
    requires forall d | d in drafts :: HasSubcategoryKey(db.subcategories, d.categoryId, d.name)
    ensures InsertSubcategories(db, drafts) == db
    decreases |drafts|
  {
    if drafts != [] {
      assert forall d | d in drafts[1..] :: d in drafts;
      InsertSubcategoriesNoOp(db, drafts[1..]);
    }
  }

  // ---- The store as an object ----

  /** The remote store: its tables change in place, and every call it receives is logged. */
  class Store {
    var categories: seq<CategoryRow>
    var subcategories: seq<SubcategoryRow>
    var hasPresets: map<UserId, bool>
    var nextCategoryId: nat
    var nextSubcategoryId: nat
    var log: seq<Request>

    function Snapshot(): Db
      reads this
    {
      Db(categories, subcategories, hasPresets, nextCategoryId, nextSubcategoryId)
    }

    constructor (db: Db)
      ensures Snapshot() == db && log == []
    {
      categories, subcategories, hasPresets := db.categories, db.subcategories, db.hasPresets;
      nextCategoryId, nextSubcategoryId := db.nextCategoryId, db.nextSubcategoryId;
      log := [];
    }

    method UpsertCategory(user: UserId, name: string, fails: bool) returns (reply: Reply<Option<CategoryRow>>)
      modifies this
      ensures (Snapshot(), reply) == UpsertCategoryCall(old(Snapshot()), user, name, fails)
      ensures log == old(log) + [CategoryUpsert(user, name)]
    {
      log := log + [CategoryUpsert(user, name)];
      if fails {
        return Failed;
      }
      if HasCategoryKey(categories, user, name) {
        return Returned(None);
      }
      var row := CategoryRow(nextCategoryId, user, name);
      categories := categories + [row];
      nextCategoryId := nextCategoryId + 1;
      reply := Returned(Some(row));
    }

    method SelectCategory(user: UserId, name: string, fails: bool) returns (reply: Reply<CategoryRow>)
      modifies this
      ensures Snapshot() == old(Snapshot())
      ensures reply == LookupCategoryCall(old(Snapshot()), user, name, fails)
      ensures log == old(log) + [CategoryLookup(user, name)]
    {
      log := log + [CategoryLookup(user, name)];
      var matches := CategoryMatches(categories, user, name);
      if fails || |matches| != 1 {
        return Failed;
      }
      reply := Returned(matches[0]);
    }

    method UpsertSubcategories(drafts: seq<SubcategoryDraft>, fails: bool)
      modifies this
      ensures Snapshot() == UpsertSubcategoriesCall(old(Snapshot()), drafts, fails)
      ensures log == old(log) + [SubcategoryUpsert(drafts)]
    {
      log := log + [SubcategoryUpsert(drafts)];
      if !fails {
        var after := InsertSubcategories(Snapshot(), drafts);
        categories, subcategories, hasPresets := after.categories, after.subcategories, after.hasPresets;
        nextCategoryId, nextSubcategoryId := after.nextCategoryId, after.nextSubcategoryId;
      }
    }

    method UpdatePresetFlag(user: UserId, fails: bool)
      modifies this
      ensures Snapshot() == PresetFlagCall(old(Snapshot()), user, fails)
      ensures log == old(log) + [PresetFlagUpdate(user)]
    {
      log := log + [PresetFlagUpdate(user)];
      if !fails && user in hasPresets {
        hasPresets := hasPresets[user := true];
      }
    }
  }
}
