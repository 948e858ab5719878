// client/src/components/admin/menu-management.tsx: the admin's dish and
// category forms, the search box, the category-name lookup, and the state the
// handlers set before they fire their requests.
module MenuManagement {
  import opened Wrappers
  import opened Seqs
  import opened Text
  import opened Schema
  import Utils

  /**
   * The dish form's values, as `menuItemFormSchema` receives them: price and
   * category are what `z.coerce.number()` makes of the inputs (`None` for NaN).
   */
  datatype ItemFormValues = ItemFormValues(
    name: string, description: string, price: Option<real>, image: string, ingredients: string,
    categoryId: Option<real>, isAvailable: bool, isFeatured: bool)

  datatype CategoryFormValues = CategoryFormValues(name: string, slug: string)

  /** `menuItemFormSchema`: the text columns take any string; price must reach 0.01 and the category 1. */
  predicate ItemFormValid(v: ItemFormValues) {
    v.price.Some? && v.price.value >= 0.01 && v.categoryId.Some? && v.categoryId.value >= 1.0
  }

  /** `categoryFormSchema`: a name of at least 2 characters; any slug, the empty one included. */
  predicate CategoryFormValid(v: CategoryFormValues) {
    |v.name| >= 2
  }

  /** The form as `handleAddItem` and `itemForm.reset()` leave it. */
  const DefaultItemForm := ItemFormValues("", "", Some(0.0), "", "", Some(0.0), true, false)

  const DefaultCategoryForm := CategoryFormValues("", "")

  /** The untouched dish form is refused: price 0 and category 0 are both below their minimum. */
  lemma DefaultItemFormInvalid()
    ensures !ItemFormValid(DefaultItemForm)
    ensures !ItemFormValid(DefaultItemForm.(price := Some(12.5)))
    ensures !ItemFormValid(DefaultItemForm.(categoryId := Some(3.0)))
  {
  }

  /** `handleEditItem`'s values: the dish's own, with a missing category shown as 0. */
  function ItemForm(item: MenuItem): (v: ItemFormValues)
    ensures v.name == item.name && v.description == item.description && v.image == item.image
    ensures v.ingredients == item.ingredients && v.isAvailable == item.isAvailable && v.isFeatured == item.isFeatured
    ensures v.price == Some(item.price as real / 100.0)
    ensures item.categoryId.None? ==> v.categoryId == Some(0.0)
    ensures item.categoryId.Some? ==> v.categoryId == Some(item.categoryId.value as real)
  {
    ItemFormValues(item.name, item.description, Some(item.price as real / 100.0), item.image, item.ingredients,
      Some((if item.categoryId.Some? then item.categoryId.value else 0) as real), item.isAvailable, item.isFeatured)
  }

  /** Editing a dish without a category and saving it unchanged is refused by the form. */
  lemma UncategorisedItemMustPickCategory(item: MenuItem)
    requires item.categoryId.None?
    ensures !ItemFormValid(ItemForm(item))
  {
  }

  /** `filteredMenuItems`'s test: the term, lower-cased, occurs in the lower-cased name or description. */
  predicate MatchesSearch(m: MenuItem, term: string) {
    Contains(ToLower(m.name), ToLower(term)) || Contains(ToLower(m.description), ToLower(term))
  }

  /** `filteredMenuItems`; nothing while the dishes are not loaded. */
  function FilteredMenuItems(menuItems: Option<seq<MenuItem>>, term: string): Option<seq<MenuItem>> {
    match menuItems
    case None => None
    case Some(items) => Some(Filter(items, (m: MenuItem) => MatchesSearch(m, term)))
  }

  /**
   * A dish is listed exactly when it matches the term; the list keeps the
   * fetched order, and the empty search lists every dish.
   */
  lemma FilteredMenuItemsSpec(items: seq<MenuItem>, term: string)
    ensures var shown := FilteredMenuItems(Some(items), term).value;
      (forall m :: m in shown <==> m in items && MatchesSearch(m, term)) &&
      IsSubsequence(shown, items)
    ensures FilteredMenuItems(Some(items), "") == Some(items)
    ensures FilteredMenuItems(None, term) == None
  {
    var p := (m: MenuItem) => MatchesSearch(m, term);
    FilterIsSubsequence(items, p);
    var q := (m: MenuItem) => MatchesSearch(m, "");
    forall m | m in items ensures q(m) {
      ContainsEmpty(ToLower(m.name));
    }
    FilterAll(items, q);
  }

  /** The search ignores the case of the term: a term and its lower-cased form list the same dishes. */
  lemma SearchIgnoresCase(menuItems: Option<seq<MenuItem>>, term: string)
    ensures FilteredMenuItems(menuItems, ToLower(term)) == FilteredMenuItems(menuItems, term)
  {
    ToLowerIdempotent(term);
    if menuItems.Some? {
      var p := (m: MenuItem) => MatchesSearch(m, term);
      var q := (m: MenuItem) => MatchesSearch(m, ToLower(term));
      FilterSame(menuItems.value, p, q);
    }
  }

  const NoCategory := "Sin categoría"

  /** `getCategoryName`: the first category with the id, or "Sin categoría". */
  function CategoryName(categoryId: Option<int>, categories: Option<seq<Category>>): (r: string)
    ensures categoryId.None? || categoryId == Some(0) || categories.None? ==> r == NoCategory
    ensures categoryId.Some? && categoryId.value != 0 && categories.Some? ==>
      match FindIndex(categories.value, (c: Category) => c.id == categoryId.value)
      case None => r == NoCategory
      case Some(k) => r == categories.value[k].name
  {
    if categoryId.None? || categoryId.value == 0 || categories.None? then NoCategory
    else
      match Find(categories.value, (c: Category) => c.id == categoryId.value)
      case None => NoCategory
      case Some(c) => c.name
  }

  /** With unique category ids, a dish's category is named by the one category with its id. */
  lemma CategoryNameOfListed(categories: seq<Category>, c: Category)
    requires UniqueBy(categories, CategoryId) && c in categories && c.id != 0
    ensures CategoryName(Some(c.id), Some(categories)) == c.name
  {
    FindUnique(categories, (d: Category) => d.id == c.id, c);
  }

  /** `handleCategorySubmit`'s slug: an empty slug is replaced by the slug of the name. */
  function SubmittedSlug(v: CategoryFormValues): (slug: string)
    ensures v.slug != "" ==> slug == v.slug
    ensures v.slug == "" ==> slug == Utils.Slugify(v.name)
  {
    if v.slug == "" then Utils.Slugify(v.name) else v.slug
  }

  /** A derived slug is a well-formed one: `[a-z0-9_-]` only, and no `--`. */
  lemma SubmittedSlugWellFormed(v: CategoryFormValues)
    requires v.slug == ""
    ensures Utils.AllChars(SubmittedSlug(v), Utils.IsSlugOutputChar)
    ensures Utils.NoDoubleDash(SubmittedSlug(v))
  {
    Utils.SlugifyChars(v.name);
    Utils.SlugifyNoDoubleDash(v.name);
  }

  /** `if (id)` on a nullable id: null and 0 are both false. */
  predicate Truthy(id: Option<int>) { id.Some? && id.value != 0 }

  datatype ItemRequest = CreateItem(values: ItemFormValues) | UpdateItem(id: int, values: ItemFormValues)

  datatype CategoryRequest = CreateCategory(values: CategoryFormValues) | UpdateCategory(id: int, values: CategoryFormValues)

  /** The availability switch's body: only the negated flag. */
  function ToggleAvailabilityPatch(item: MenuItem): MenuItemPatch {
    MenuItemPatch(None, None, None, None, None, None, Some(!item.isAvailable), None)
  }

  /**
   * The switch flips availability and nothing else, and flipping the updated
   * dish once more gives back the original.
   */
  lemma ToggleAvailabilityFlips(item: MenuItem)
    ensures var once := ApplyMenuItemPatch(item, ToggleAvailabilityPatch(item));
      once == item.(isAvailable := !item.isAvailable) &&
      ApplyMenuItemPatch(once, ToggleAvailabilityPatch(once)) == item
  {
  }

  /**
   * The page's own state. `itemForm` and `categoryForm` are what the two
   * forms' fields show; `itemDefaults` and `categoryDefaults` are what a bare
   * `reset()` returns to. React Hook Form's `reset(values)` sets both the
   * fields and the defaults, so the defaults are the values last passed to it.
   */
  class MenuManagementState {
    var searchTerm: string
    var editingItemId: Option<int>
    var editingCategoryId: Option<int>
    var itemDialogOpen: bool
    var categoryDialogOpen: bool
    var itemToDelete: Option<MenuItem>
    var categoryToDelete: Option<Category>
    var itemForm: ItemFormValues
    var itemDefaults: ItemFormValues
    var categoryForm: CategoryFormValues
    var categoryDefaults: CategoryFormValues

    /** Nothing in the dish half of the page changed. */
    twostate predicate ItemSideUnchanged()
      reads this
    {
      editingItemId == old(editingItemId) && itemDialogOpen == old(itemDialogOpen) &&
      itemToDelete == old(itemToDelete) && itemForm == old(itemForm) && itemDefaults == old(itemDefaults)
    }

    /** Nothing in the category half of the page changed. */
    twostate predicate CategorySideUnchanged()
      reads this
    {
      editingCategoryId == old(editingCategoryId) && categoryDialogOpen == old(categoryDialogOpen) &&
      categoryToDelete == old(categoryToDelete) && categoryForm == old(categoryForm) &&
      categoryDefaults == old(categoryDefaults)
    }

    constructor()
      ensures searchTerm == "" && editingItemId == None && editingCategoryId == None
      ensures !itemDialogOpen && !categoryDialogOpen && itemToDelete == None && categoryToDelete == None
      ensures itemForm == DefaultItemForm && itemDefaults == DefaultItemForm
      ensures categoryForm == DefaultCategoryForm && categoryDefaults == DefaultCategoryForm
    {
      searchTerm := "";
      editingItemId := None;
      editingCategoryId := None;
      itemDialogOpen := false;
      categoryDialogOpen := false;
      itemToDelete := None;
      categoryToDelete := None;
      itemForm := DefaultItemForm;
      itemDefaults := DefaultItemForm;
      categoryForm := DefaultCategoryForm;
      categoryDefaults := DefaultCategoryForm;
    }

    /** The search box: only the term changes. */
    method SetSearchTerm(term: string)
      modifies this
      ensures searchTerm == term
      ensures ItemSideUnchanged() && CategorySideUnchanged()
    {
      searchTerm := term;
    }

    /** `handleEditItem`: remember the dish, reset the form to it, open the dialog. */
    method HandleEditItem(item: MenuItem)
      modifies this
      ensures editingItemId == Some(item.id) && itemDialogOpen
      ensures itemForm == ItemForm(item) && itemDefaults == ItemForm(item)
      ensures itemToDelete == old(itemToDelete)
      ensures CategorySideUnchanged() && searchTerm == old(searchTerm)
    {
      editingItemId := Some(item.id);
      itemForm := ItemForm(item);
      itemDefaults := ItemForm(item);
      itemDialogOpen := true;
    }

    /** `handleAddItem`: no dish being edited, the form reset to empty values, the dialog open. */
    method HandleAddItem()
      modifies this
      ensures editingItemId == None && itemDialogOpen
      ensures itemForm == DefaultItemForm && itemDefaults == DefaultItemForm
      ensures itemToDelete == old(itemToDelete)
      ensures CategorySideUnchanged() && searchTerm == old(searchTerm)
    {
      editingItemId := None;
      itemForm := DefaultItemForm;
      itemDefaults := DefaultItemForm;
      itemDialogOpen := true;
    }

    method HandleEditCategory(c: Category)
      modifies this
      ensures editingCategoryId == Some(c.id) && categoryDialogOpen
      ensures categoryForm == CategoryFormValues(c.name, c.slug) && categoryDefaults == CategoryFormValues(c.name, c.slug)
      ensures categoryToDelete == old(categoryToDelete)
      ensures ItemSideUnchanged() && searchTerm == old(searchTerm)
    {
      editingCategoryId := Some(c.id);
      categoryForm := CategoryFormValues(c.name, c.slug);
      categoryDefaults := CategoryFormValues(c.name, c.slug);
      categoryDialogOpen := true;
    }

    method HandleAddCategory()
      modifies this
      ensures editingCategoryId == None && categoryDialogOpen
      ensures categoryForm == DefaultCategoryForm && categoryDefaults == DefaultCategoryForm
      ensures categoryToDelete == old(categoryToDelete)
      ensures ItemSideUnchanged() && searchTerm == old(searchTerm)
    {
      editingCategoryId := None;
      categoryForm := DefaultCategoryForm;
      categoryDefaults := DefaultCategoryForm;
      categoryDialogOpen := true;
    }

    /** The dish dialog's `onOpenChange`: only its open flag follows. */
    method SetItemDialogOpen(open: bool)
      modifies this
      ensures itemDialogOpen == open
      ensures editingItemId == old(editingItemId) && itemToDelete == old(itemToDelete)
      ensures itemForm == old(itemForm) && itemDefaults == old(itemDefaults)
      ensures CategorySideUnchanged() && searchTerm == old(searchTerm)
    {
      itemDialogOpen := open;
    }

    /** The category dialog's `onOpenChange`: only its open flag follows. */
    method SetCategoryDialogOpen(open: bool)
      modifies this
      ensures categoryDialogOpen == open
      ensures editingCategoryId == old(editingCategoryId) && categoryToDelete == old(categoryToDelete)
      ensures categoryForm == old(categoryForm) && categoryDefaults == old(categoryDefaults)
      ensures ItemSideUnchanged() && searchTerm == old(searchTerm)
    {
      categoryDialogOpen := open;
    }

    /** The dish mutation: PUT to the edited dish when there is one, POST otherwise; the values go as they are. */
    method HandleItemSubmit(values: ItemFormValues) returns (req: ItemRequest)
      ensures req.values == values
      ensures req.UpdateItem? <==> Truthy(editingItemId)
      ensures req.UpdateItem? ==> req.id == editingItemId.value
    {
      if editingItemId.Some? && editingItemId.value != 0 {
        req := UpdateItem(editingItemId.value, values);
      } else {
        req := CreateItem(values);
      }
    }

    /**
     * `handleCategorySubmit`: fills in an empty slug from the name, then PUT
     * to the edited category or POST a new one.
     */
    method HandleCategorySubmit(values: CategoryFormValues) returns (req: CategoryRequest)
      ensures req.values == CategoryFormValues(values.name, SubmittedSlug(values))
      ensures req.UpdateCategory? <==> Truthy(editingCategoryId)
      ensures req.UpdateCategory? ==> req.id == editingCategoryId.value
    {
      var v := values;
      if v.slug == "" {
        v := v.(slug := Utils.Slugify(v.name));
      }
      if editingCategoryId.Some? && editingCategoryId.value != 0 {
        req := UpdateCategory(editingCategoryId.value, v);
      } else {
        req := CreateCategory(v);
      }
    }

    /**
     * `handleNameChange`: the name is stored, and the slug follows it while
     * creating or while the slug is empty; an edited category's own slug stays.
     * `setValue` changes the fields only, never the defaults.
     */
    method HandleNameChange(name: string)
      modifies this
      ensures categoryForm.name == name
      ensures !Truthy(editingCategoryId) || old(categoryForm.slug) == "" ==> categoryForm.slug == Utils.Slugify(name)
      ensures Truthy(editingCategoryId) && old(categoryForm.slug) != "" ==> categoryForm.slug == old(categoryForm.slug)
      ensures editingCategoryId == old(editingCategoryId) && categoryDialogOpen == old(categoryDialogOpen)
      ensures categoryToDelete == old(categoryToDelete) && categoryDefaults == old(categoryDefaults)
      ensures ItemSideUnchanged() && searchTerm == old(searchTerm)
    {
      categoryForm := categoryForm.(name := name);
      if !(editingCategoryId.Some? && editingCategoryId.value != 0) || categoryForm.slug == "" {
        categoryForm := categoryForm.(slug := Utils.Slugify(name));
      }
    }

    /** A dish's trash button: it becomes the one to delete, which opens the alert. */
    method PickItemToDelete(item: MenuItem)
      modifies this
      ensures itemToDelete == Some(item)
      ensures editingItemId == old(editingItemId) && itemDialogOpen == old(itemDialogOpen)
      ensures itemForm == old(itemForm) && itemDefaults == old(itemDefaults)
      ensures CategorySideUnchanged() && searchTerm == old(searchTerm)
    {
      itemToDelete := Some(item);
    }

    /** A category's trash button. */
    method PickCategoryToDelete(c: Category)
      modifies this
      ensures categoryToDelete == Some(c)
      ensures editingCategoryId == old(editingCategoryId) && categoryDialogOpen == old(categoryDialogOpen)
      ensures categoryForm == old(categoryForm) && categoryDefaults == old(categoryDefaults)
      ensures ItemSideUnchanged() && searchTerm == old(searchTerm)
    {
      categoryToDelete := Some(c);
    }

    /** `handleDeleteItem`: the id to delete, only with a dish chosen. */
    method HandleDeleteItem() returns (id: Option<int>)
      ensures id.Some? <==> itemToDelete.Some?
      ensures id.Some? ==> id.value == itemToDelete.value.id
    {
      id := if itemToDelete.Some? then Some(itemToDelete.value.id) else None;
    }

    /** `handleDeleteCategory`: the id to delete, only with a category chosen. */
    method HandleDeleteCategory() returns (id: Option<int>)
      ensures id.Some? <==> categoryToDelete.Some?
      ensures id.Some? ==> id.value == categoryToDelete.value.id
    {
      id := if categoryToDelete.Some? then Some(categoryToDelete.value.id) else None;
    }

    /** The dish alert's `onOpenChange`: closing it forgets the dish, opening it changes nothing. */
    method ItemAlertOpenChange(open: bool)
      modifies this
      ensures itemToDelete == if open then old(itemToDelete) else None
      ensures editingItemId == old(editingItemId) && itemDialogOpen == old(itemDialogOpen)
      ensures itemForm == old(itemForm) && itemDefaults == old(itemDefaults)
      ensures CategorySideUnchanged() && searchTerm == old(searchTerm)
    {
      if !open {
        itemToDelete := None;
      }
    }

    /** The category alert's `onOpenChange`. */
    method CategoryAlertOpenChange(open: bool)
      modifies this
      ensures categoryToDelete == if open then old(categoryToDelete) else None
      ensures editingCategoryId == old(editingCategoryId) && categoryDialogOpen == old(categoryDialogOpen)
      ensures categoryForm == old(categoryForm) && categoryDefaults == old(categoryDefaults)
      ensures ItemSideUnchanged() && searchTerm == old(searchTerm)
    {
      if !open {
        categoryToDelete := None;
      }
    }

    /** The dish delete mutation's `onSuccess`: nothing is chosen any more, so the alert closes. */
    method ItemDeleted()
      modifies this
      ensures itemToDelete == None
      ensures editingItemId == old(editingItemId) && itemDialogOpen == old(itemDialogOpen)
      ensures itemForm == old(itemForm) && itemDefaults == old(itemDefaults)
      ensures CategorySideUnchanged() && searchTerm == old(searchTerm)
    {
      itemToDelete := None;
    }

    /** The category delete mutation's `onSuccess`. */
    method CategoryDeleted()
      modifies this
      ensures categoryToDelete == None
      ensures editingCategoryId == old(editingCategoryId) && categoryDialogOpen == old(categoryDialogOpen)
      ensures categoryForm == old(categoryForm) && categoryDefaults == old(categoryDefaults)
      ensures ItemSideUnchanged() && searchTerm == old(searchTerm)
    {
      categoryToDelete := None;
    }

    /**
     * The dish mutation's `onSuccess`: dialog closed, nothing being edited, and
     * `reset()` puts back the values of the last `reset(values)`.
     */
    method ItemSaved()
      modifies this
      ensures !itemDialogOpen && editingItemId == None
      ensures itemForm == old(itemDefaults) && itemDefaults == old(itemDefaults)
      ensures itemToDelete == old(itemToDelete)
      ensures CategorySideUnchanged() && searchTerm == old(searchTerm)
    {
      itemDialogOpen := false;
      editingItemId := None;
      itemForm := itemDefaults;
    }

    /** The category mutation's `onSuccess`, with the same `reset()`. */
    method CategorySaved()
      modifies this
      ensures !categoryDialogOpen && editingCategoryId == None
      ensures categoryForm == old(categoryDefaults) && categoryDefaults == old(categoryDefaults)
      ensures categoryToDelete == old(categoryToDelete)
      ensures ItemSideUnchanged() && searchTerm == old(searchTerm)
    {
      categoryDialogOpen := false;
      editingCategoryId := None;
      categoryForm := categoryDefaults;
    }
  }

  /** Editing a dish and saving it leaves the form on that dish's values, not on the empty ones. */
  method EditThenSaveItem(item: MenuItem) returns (form: ItemFormValues)
    ensures form == ItemForm(item)
  {
    var st := new MenuManagementState();
    st.HandleEditItem(item);
    st.ItemSaved();
    form := st.itemForm;
  }

  /** Editing a category and saving it leaves the form on that category's name and slug. */
  method EditThenSaveCategory(c: Category) returns (form: CategoryFormValues)
    ensures form == CategoryFormValues(c.name, c.slug)
  {
    var st := new MenuManagementState();
    st.HandleEditCategory(c);
    st.CategorySaved();
    form := st.categoryForm;
  }

  /**
   * The trash button, then the alert's confirm: the dish's id is sent, and once
   * the delete succeeds the alert has nothing left to show.
   */
  method PickThenDeleteItem(item: MenuItem) returns (id: Option<int>, after: Option<MenuItem>)
    ensures id == Some(item.id) && after == None
  {
    var st := new MenuManagementState();
    st.PickItemToDelete(item);
    id := st.HandleDeleteItem();
    st.ItemDeleted();
    after := st.itemToDelete;
  }

  /** The same for a category. */
  method PickThenDeleteCategory(c: Category) returns (id: Option<int>, after: Option<Category>)
    ensures id == Some(c.id) && after == None
  {
    var st := new MenuManagementState();
    st.PickCategoryToDelete(c);
    id := st.HandleDeleteCategory();
    st.CategoryDeleted();
    after := st.categoryToDelete;
  }

  /** Cancelling the alert forgets the dish, so a later confirm sends nothing. */
  method PickThenCancelItem(item: MenuItem) returns (id: Option<int>)
    ensures id == None
  {
    var st := new MenuManagementState();
    st.PickItemToDelete(item);
    st.ItemAlertOpenChange(false);
    id := st.HandleDeleteItem();
  }
}
