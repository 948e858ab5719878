// client/src/components/home/menu-section.tsx: which dishes the public menu
// shows, and the category buttons that choose them.
module MenuSection {
  import opened Wrappers
  import opened Seqs
  import opened Text
  import opened Schema

  predicate IsAvailable(m: MenuItem) { m.isAvailable }

  /** `item.categoryId?.toString() === activeCategory`, or the "all" tab. */
  predicate InCategory(m: MenuItem, activeCategory: string) {
    activeCategory == "all" || (m.categoryId.Some? && IntToString(m.categoryId.value) == activeCategory)
  }

  /** `availableMenuItems`, then `filteredItems`; nothing while the items are not loaded. */
  function ShownItems(menuItems: Option<seq<MenuItem>>, activeCategory: string): Option<seq<MenuItem>> {
    match menuItems
    case None => None
    case Some(items) => Some(Filter(Filter(items, IsAvailable), (m: MenuItem) => InCategory(m, activeCategory)))
  }

  /**
   * Only available dishes are shown, whatever the server sends; under "all"
   * every available dish is shown; and the result keeps the fetched order.
   */
  lemma ShownItemsSpec(items: seq<MenuItem>, activeCategory: string)
    ensures var shown := ShownItems(Some(items), activeCategory).value;
      (forall m :: m in shown <==> m in items && m.isAvailable && InCategory(m, activeCategory)) &&
      IsSubsequence(shown, items)
    ensures activeCategory == "all" ==> ShownItems(Some(items), activeCategory) == Some(Filter(items, IsAvailable))
    ensures ShownItems(None, activeCategory) == None
  {
    var available := Filter(items, IsAvailable);
    var p := (m: MenuItem) => InCategory(m, activeCategory);
    var shown := Filter(available, p);
    FilterIsSubsequence(items, IsAvailable);
    FilterIsSubsequence(available, p);
    SubsequenceTrans(shown, available, items);
    if activeCategory == "all" {
      FilterAll(available, p);
    }
  }

  /**
   * With a category's button pressed, a dish is shown exactly when it is
   * available and belongs to that category; dishes without a category never are.
   */
  lemma CategoryButtonShows(items: seq<MenuItem>, c: Category, m: MenuItem)
    ensures m in ShownItems(Some(items), IntToString(c.id)).value <==>
      m in items && m.isAvailable && m.categoryId == Some(c.id)
  {
    assert IntToString(c.id) != "all" by {
      if c.id >= 0 {
        assert IsDigit(NatToString(c.id)[0]);
      }
    }
    ShownItemsSpec(items, IntToString(c.id));
    if m.categoryId.Some? && IntToString(m.categoryId.value) == IntToString(c.id) {
      IntToStringInjective(m.categoryId.value, c.id);
    }
  }

  /** The section's state: the active category button. */
  class MenuSectionState {
    var activeCategory: string

    constructor()
      ensures activeCategory == "all"
    {
      activeCategory := "all";
    }

    /** The "Todos" button. */
    method SelectAll()
      modifies this
      ensures activeCategory == "all"
    {
      activeCategory := "all";
    }

    /** A category's button: `category.id.toString()`. */
    method SelectCategory(c: Category)
      modifies this
      ensures activeCategory == IntToString(c.id)
    {
      activeCategory := IntToString(c.id);
    }
  }
}
