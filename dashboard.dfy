// client/src/components/admin/dashboard.tsx: the admin dashboard's counters
// and the per-category distribution of dishes.
module Dashboard {
  import opened Wrappers
  import opened Seqs
  import opened Schema

  /** `list?.length || 0`. */
  function LengthOr0<T>(list: Option<seq<T>>): nat {
    if list.Some? then |list.value| else 0
  }

  datatype Stats = Stats(totalMenuItems: nat, availableItems: nat, featuredItems: nat, totalCategories: nat, totalStaff: nat)

  predicate IsAvailable(m: MenuItem) { m.isAvailable }
  predicate IsFeatured(m: MenuItem) { m.isFeatured }

  /**
   * The five counters: the length of each loaded list, and the number of
   * available and of featured dishes; every one is 0 for a list not loaded,
   * and the dish counters never exceed the total.
   */
  function ComputeStats(menuItems: Option<seq<MenuItem>>, categories: Option<seq<Category>>, staff: Option<seq<Staff>>): (s: Stats)
    ensures menuItems.Some? ==> s.totalMenuItems == |menuItems.value|
    ensures menuItems.Some? ==> s.availableItems == Count(menuItems.value, IsAvailable)
    ensures menuItems.Some? ==> s.featuredItems == Count(menuItems.value, IsFeatured)
    ensures categories.Some? ==> s.totalCategories == |categories.value|
    ensures staff.Some? ==> s.totalStaff == |staff.value|
    ensures menuItems.None? ==> s.totalMenuItems == 0 && s.availableItems == 0 && s.featuredItems == 0
    ensures categories.None? ==> s.totalCategories == 0
    ensures staff.None? ==> s.totalStaff == 0
    ensures s.availableItems <= s.totalMenuItems && s.featuredItems <= s.totalMenuItems
  {
    Stats(
      LengthOr0(menuItems),
      if menuItems.Some? then Count(menuItems.value, IsAvailable) else 0,
      if menuItems.Some? then Count(menuItems.value, IsFeatured) else 0,
      LengthOr0(categories),
      LengthOr0(staff))
  }

  /** One slice of the pie chart. */
  datatype Slice = Slice(name: string, value: nat)

  /** `menuItems.filter(item => item.categoryId === id).length`. */
  function ItemsIn(items: seq<MenuItem>, id: int): (n: nat)
    ensures n <= |items|
    ensures n == 0 <==> forall i :: 0 <= i < |items| ==> items[i].categoryId != Some(id)
    ensures n == |items| <==> forall i :: 0 <= i < |items| ==> items[i].categoryId == Some(id)
  {
    if items == [] then 0 else (if items[0].categoryId == Some(id) then 1 else 0) + ItemsIn(items[1..], id)
  }

  /** `categories.map(...)`: one slice per category, in category order. */
  function Slices(categories: seq<Category>, items: seq<MenuItem>): (r: seq<Slice>)
    ensures |r| == |categories|
    ensures forall i :: 0 <= i < |r| ==> r[i] == Slice(categories[i].name, ItemsIn(items, categories[i].id))
  {
    if categories == [] then []
    else [Slice(categories[0].name, ItemsIn(items, categories[0].id))] + Slices(categories[1..], items)
  }

  predicate HasValue(s: Slice) { s.value > 0 }

  /** `getCategoryData`: nothing unless both lists are loaded, and no empty slices. */
  function CategoryData(menuItems: Option<seq<MenuItem>>, categories: Option<seq<Category>>): (r: seq<Slice>)
    ensures menuItems.None? || categories.None? ==> r == []
    ensures forall i :: 0 <= i < |r| ==> r[i].value > 0
  {
    if menuItems.None? || categories.None? then []
    else Filter(Slices(categories.value, menuItems.value), HasValue)
  }

  /**
   * A slice is in the chart exactly when it names a category and counts that
   * category's dishes, and the count is not 0; the chart keeps category order.
   */
  lemma CategoryDataSpec(items: seq<MenuItem>, categories: seq<Category>)
    ensures var data := CategoryData(Some(items), Some(categories));
      (forall s :: s in data <==>
        (exists i :: 0 <= i < |categories| && s == Slice(categories[i].name, ItemsIn(items, categories[i].id)) && s.value > 0)) &&
      IsSubsequence(data, Slices(categories, items))
  {
    var all := Slices(categories, items);
    FilterIsSubsequence(all, HasValue);
    forall s | s in all ensures exists i :: 0 <= i < |categories| && s == Slice(categories[i].name, ItemsIn(items, categories[i].id)) {
      var i :| 0 <= i < |all| && all[i] == s;
    }
  }

  function SumValues(slices: seq<Slice>): nat {
    if slices == [] then 0 else slices[0].value + SumValues(slices[1..])
  }

  /** Dropping the empty slices does not change the total. */
  lemma {:induction false} SumValuesDropsZeros(slices: seq<Slice>)
    ensures SumValues(Filter(slices, HasValue)) == SumValues(slices)
  {
    if slices != [] {
      SumValuesDropsZeros(slices[1..]);
      FilterCons(slices[0], slices[1..], HasValue);
      assert [slices[0]] + slices[1..] == slices;
      var t := Filter(slices[1..], HasValue);
      if HasValue(slices[0]) {
        var f := [slices[0]] + t;
        assert Filter(slices, HasValue) == f;
        assert f[0] == slices[0] && f[1..] == t;
      } else {
        assert Filter(slices, HasValue) == t;
      }
    }
  }

  /** The number of categories with the id of `m`'s category. */
  function CategoriesOf(categories: seq<Category>, m: MenuItem): nat {
    if categories == [] then 0
    else (if m.categoryId == Some(categories[0].id) then 1 else 0) + CategoriesOf(categories[1..], m)
  }

  /** With unique category ids, a dish belongs to at most one category. */
  lemma {:induction false} CategoriesOfAtMostOne(categories: seq<Category>, m: MenuItem)
    requires UniqueBy(categories, CategoryId)
    ensures CategoriesOf(categories, m) <= 1
  {
    if categories != [] {
      UniqueByTail(categories, CategoryId);
      CategoriesOfAtMostOne(categories[1..], m);
      if m.categoryId == Some(categories[0].id) {
        CategoriesOfNone(categories[1..], m);
      }
    }
  }

  lemma {:induction false} CategoriesOfNone(categories: seq<Category>, m: MenuItem)
    requires forall c :: c in categories ==> m.categoryId != Some(c.id)
    ensures CategoriesOf(categories, m) == 0
  {
    if categories != [] {
      assert categories[0] in categories;
      CategoriesOfNone(categories[1..], m);
    }
  }

  /** Removing the first dish takes from the slices exactly the categories it belonged to. */
  lemma {:induction false} SlicesFirstItem(categories: seq<Category>, items: seq<MenuItem>)
    requires items != []
    ensures SumValues(Slices(categories, items)) == SumValues(Slices(categories, items[1..])) + CategoriesOf(categories, items[0])
  {
    if categories != [] {
      SlicesFirstItem(categories[1..], items);
      assert Slices(categories, items)[1..] == Slices(categories[1..], items);
      assert Slices(categories, items[1..])[1..] == Slices(categories[1..], items[1..]);
    }
  }

  /**
   * The slices never add up to more than the number of dishes: dishes with no
   * category, or a category that is not listed, count nowhere.
   */
  lemma {:induction false} CategoryDataBounded(items: seq<MenuItem>, categories: seq<Category>)
    requires UniqueBy(categories, CategoryId)
    ensures SumValues(CategoryData(Some(items), Some(categories))) <= |items|
  {
    SumValuesDropsZeros(Slices(categories, items));
    SlicesBounded(items, categories);
  }

  lemma {:induction false} SlicesBounded(items: seq<MenuItem>, categories: seq<Category>)
    requires UniqueBy(categories, CategoryId)
    ensures SumValues(Slices(categories, items)) <= |items|
    decreases |items|
  {
    if items == [] {
      SlicesOfNoItems(categories);
    } else {
      SlicesFirstItem(categories, items);
      CategoriesOfAtMostOne(categories, items[0]);
      SlicesBounded(items[1..], categories);
    }
  }

  lemma {:induction false} SlicesOfNoItems(categories: seq<Category>)
    ensures SumValues(Slices(categories, [])) == 0
  {
    if categories != [] {
      assert Slices(categories, [])[1..] == Slices(categories[1..], []);
      SlicesOfNoItems(categories[1..]);
    }
  }
}
