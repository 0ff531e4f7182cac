/** The read side of the category taxonomy as the expense form uses it: finding the selected
    category by name, the subcategory options offered for it, and the rule that resets the chosen
    subcategory when the category changes. */
module Catalog {
  import opened Wrappers

  /** A row of the user's `categories` list as the dashboard holds it. */
  datatype Category = Category(id: nat, name: string)

  /** A row of the `allSubcategories` list: only `name` and `category_id` are fetched. */
  datatype SubcategoryRef = SubcategoryRef(name: string, categoryId: nat)

  /** `categories.find(c => c.name === name)`: the first category carrying that name. */
  function FindByName(categories: seq<Category>, name: string): (found: Option<Category>)
    ensures found.None? <==> forall i | 0 <= i < |categories| :: categories[i].name != name
    ensures found.Some? ==>
      exists i | 0 <= i < |categories| ::
        categories[i] == found.value && found.value.name == name &&
        forall j | 0 <= j < i :: categories[j].name != name
  {
    if categories == [] then None
    else if categories[0].name == name then Some(categories[0])
    else
      var rest := FindByName(categories[1..], name);
      assert forall j | 1 <= j < |categories| :: categories[j] == categories[1..][j - 1];
      rest
  }

  /** The names of the subcategories whose `category_id` is `id`, in list order. */
  function NamesFor(all: seq<SubcategoryRef>, id: nat): (names: seq<string>)
    ensures |names| <= |all|
    ensures forall n | n in names :: exists r | r in all :: r.categoryId == id && r.name == n
    ensures (forall r | r in all :: r.categoryId == id) ==> |names| == |all|
  {
    if all == [] then []
    else (if all[0].categoryId == id then [all[0].name] else []) + NamesFor(all[1..], id)
  }

  /** `NamesFor` keeps exactly the matching rows, whatever their position. */
  lemma {:induction false} NamesForMembership(all: seq<SubcategoryRef>, id: nat, name: string)
    ensures name in NamesFor(all, id) <==>
      exists i | 0 <= i < |all| :: all[i].categoryId == id && all[i].name == name
  {
    if all != [] {
      NamesForMembership(all[1..], id, name);
      assert forall i | 1 <= i < |all| :: all[i] == all[1..][i - 1];
      if exists i | 0 <= i < |all[1..]| :: all[1..][i].categoryId == id && all[1..][i].name == name {
        var i :| 0 <= i < |all[1..]| && all[1..][i].categoryId == id && all[1..][i].name == name;
        assert all[i + 1] == all[1..][i];
      }
    }
  }

  /** Filtering distributes over concatenation, so the options keep the order of `allSubcategories`. */
  lemma {:induction false} NamesForAppend(a: seq<SubcategoryRef>, b: seq<SubcategoryRef>, id: nat)
    ensures NamesFor(a + b, id) == NamesFor(a, id) + NamesFor(b, id)
  {
    if a == [] {
      assert a + b == b;
    } else {
      var head := if a[0].categoryId == id then [a[0].name] else [];
      var ab := a + b;
      assert ab[0] == a[0] && ab[1..] == a[1..] + b;
      NamesForAppend(a[1..], b, id);
      calc {
        NamesFor(ab, id);
        head + NamesFor(a[1..] + b, id);
        head + (NamesFor(a[1..], id) + NamesFor(b, id));
        (head + NamesFor(a[1..], id)) + NamesFor(b, id);
        NamesFor(a, id) + NamesFor(b, id);
      }
    }
  }

  /** The options of the subcategory select: none unless a category is chosen and known; otherwise
      the names of the subcategories of the first category carrying the chosen name. */
  function SubcategoryOptions(all: seq<SubcategoryRef>, categories: seq<Category>, category: string): (options: seq<string>)
    ensures category == "" || FindByName(categories, category).None? ==> options == []
    ensures category != "" && FindByName(categories, category).Some? ==>
      forall name :: name in options <==>
        exists i | 0 <= i < |all| ::
          all[i].categoryId == FindByName(categories, category).value.id && all[i].name == name
  {
    if category == "" then []
    else
      match FindByName(categories, category)
      case None => []
      case Some(c) =>
        forall name ensures name in NamesFor(all, c.id) <==>
          exists i | 0 <= i < |all| :: all[i].categoryId == c.id && all[i].name == name
        {
          NamesForMembership(all, c.id, name);
        }
        NamesFor(all, c.id)
  }

  /** The `subcategories` list shown for the selected category and the chosen `subcategory`. */
  datatype Selection = Selection(options: seq<string>, subcategory: string)

  /** The effect that runs when `category` (or the category list) changes. An empty category clears
      both; a category that is not in the list changes nothing; a known category shows the fetched
      names (none when the fetch returned nothing) and, unless an expense is being edited, resets
      the chosen subcategory. */
  function AfterCategoryChange(category: string, categories: seq<Category>, editing: bool,
                               fetched: Option<seq<string>>, current: Selection): (next: Selection)
    ensures category == "" ==> next == Selection([], "")
    ensures category != "" && FindByName(categories, category).None? ==> next == current
    ensures category != "" && FindByName(categories, category).Some? ==>
      next.options == fetched.GetOr([]) &&
      next.subcategory == (if editing then current.subcategory else "")
    ensures next.subcategory == "" || next.subcategory == current.subcategory
  {
    if category != "" then
      match FindByName(categories, category)
      case None => current
      case Some(_) => Selection(fetched.GetOr([]), if editing then current.subcategory else "")
    else Selection([], "")
  }

  /** Editing keeps the stored subcategory even when the freshly fetched list does not offer it. */
  lemma EditKeepsStaleSubcategory(category: string, categories: seq<Category>, fetched: seq<string>, current: Selection)
    requires category != "" && FindByName(categories, category).Some?
    requires current.subcategory !in fetched
    ensures AfterCategoryChange(category, categories, true, Some(fetched), current).subcategory == current.subcategory
    ensures current.subcategory !in AfterCategoryChange(category, categories, true, Some(fetched), current).options
  {
  }
}
