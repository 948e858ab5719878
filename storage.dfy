// server/storage.ts: `DatabaseStorage` over an in-memory copy of the seven
// tables. Reads are functions of the tables; every write is a method that
// replaces the tables and keeps the constraints of shared/schema.ts.
module Storage {
  import opened Wrappers
  import opened Seqs
  import opened Text
  import opened Schema
  import Utils

  /** The database: one sequence of rows per table, and the next free id. */
  datatype Db = Db(
    users: seq<User>, settings: seq<Setting>, categories: seq<Category>, menuItems: seq<MenuItem>,
    staff: seq<Staff>, locations: seq<Location>, socialMedia: seq<SocialMedia>, nextId: int)

  /**
   * Primary keys and `unique` columns hold, every id is below the next one to
   * be drawn, and there is at most one location row.
   */
  predicate DbOk(d: Db) {
    UsersOk(d.users) && KeysBelow(d.users, UserId, d.nextId) &&
    SettingsOk(d.settings) && KeysBelow(d.settings, SettingId, d.nextId) &&
    CategoriesOk(d.categories) && KeysBelow(d.categories, CategoryId, d.nextId) &&
    UniqueBy(d.menuItems, MenuItemId) && KeysBelow(d.menuItems, MenuItemId, d.nextId) &&
    UniqueBy(d.staff, StaffId) && KeysBelow(d.staff, StaffId, d.nextId) &&
    UniqueBy(d.locations, LocationId) && KeysBelow(d.locations, LocationId, d.nextId) && |d.locations| <= 1 &&
    UniqueBy(d.socialMedia, SocialMediaId) && KeysBelow(d.socialMedia, SocialMediaId, d.nextId)
  }

  const EmptyDb := Db([], [], [], [], [], [], [], 1)

  /** What a write returns: the row, no row with that id, or a rejected constraint (a thrown error). */
  datatype DbResult<T> = Ok(value: T) | Missing | Violation

  // ---- Reads: `const [row] = select ... where ...` yields the first match.

  function UserNamed(name: string): User -> bool { (u: User) => u.username == name }
  function SettingKeyed(key: string): Setting -> bool { (s: Setting) => s.key == key }
  function CategorySlugged(slug: string): Category -> bool { (c: Category) => c.slug == slug }

  /** `getUser`. */
  function GetUser(d: Db, id: int): Option<User> { Find(d.users, WithKey(UserId, id)) }

  /** `getUserByUsername`. */
  function GetUserByUsername(d: Db, name: string): Option<User> { Find(d.users, UserNamed(name)) }

  function GetMenuItemById(d: Db, id: int): Option<MenuItem> { Find(d.menuItems, WithKey(MenuItemId, id)) }
  function GetCategoryById(d: Db, id: int): Option<Category> { Find(d.categories, WithKey(CategoryId, id)) }
  function GetCategoryBySlug(d: Db, slug: string): Option<Category> { Find(d.categories, CategorySlugged(slug)) }
  function GetStaffMemberById(d: Db, id: int): Option<Staff> { Find(d.staff, WithKey(StaffId, id)) }
  function GetSocialMediaById(d: Db, id: int): Option<SocialMedia> { Find(d.socialMedia, WithKey(SocialMediaId, id)) }

  /** `getLocation`: the first location row, if any. */
  function GetLocation(d: Db): Option<Location> {
    if d.locations == [] then None else Some(d.locations[0])
  }

  /** `getSetting`: the value of the first row with the key. */
  function SettingOf(settings: seq<Setting>, key: string): Option<string> {
    match FindIndex(settings, SettingKeyed(key))
    case None => None
    case Some(k) => Some(settings[k].value)
  }

  function GetSetting(d: Db, key: string): Option<string> { SettingOf(d.settings, key) }

  predicate IsAvailable(m: MenuItem) { m.isAvailable }
  predicate IsFeatured(m: MenuItem) { m.isFeatured }
  predicate NotFeatured(m: MenuItem) { !m.isFeatured }
  predicate FeaturedAvailable(m: MenuItem) { m.isFeatured && m.isAvailable }
  predicate PlainAvailable(m: MenuItem) { !m.isFeatured && m.isAvailable }

  /**
   * `getMenuItems`: the available dishes ordered by `isFeatured` descending.
   * SQL leaves the order inside each group open; the model keeps table order.
   */
  function AvailableMenu(items: seq<MenuItem>): seq<MenuItem> {
    Filter(items, FeaturedAvailable) + Filter(items, PlainAvailable)
  }

  /**
   * The public menu has exactly the available dishes, each as often as in the
   * table, and no featured dish comes after one that is not featured.
   */
  lemma AvailableMenuSpec(items: seq<MenuItem>)
    ensures forall m :: m in AvailableMenu(items) <==> m in items && m.isAvailable
    ensures multiset(AvailableMenu(items)) == multiset(Filter(items, IsAvailable))
    ensures var r := AvailableMenu(items);
      forall i, j :: 0 <= i < j < |r| && r[j].isFeatured ==> r[i].isFeatured
  {
    var available := Filter(items, IsAvailable);
    var featured := Filter(items, FeaturedAvailable);
    var plain := Filter(items, PlainAvailable);
    FilterFilter(items, IsAvailable, IsFeatured, FeaturedAvailable);
    FilterFilter(items, IsAvailable, NotFeatured, PlainAvailable);
    FilterPartition(available, IsFeatured, NotFeatured);
    var r := featured + plain;
    forall j | |featured| <= j < |r| ensures !r[j].isFeatured {
      assert r[j] == plain[j - |featured|];
    }
    forall i, j | 0 <= i < j < |r| && r[j].isFeatured ensures r[i].isFeatured {
      assert j < |featured|;
      assert r[i] == featured[i];
    }
  }

  /** `getFeaturedMenuItems`. */
  function FeaturedMenu(items: seq<MenuItem>): seq<MenuItem> {
    Filter(items, FeaturedAvailable)
  }

  /** `getMenuItemsByCategory`. */
  function CategoryMenu(items: seq<MenuItem>, categoryId: int): seq<MenuItem> {
    Filter(items, (m: MenuItem) => m.categoryId == Some(categoryId) && m.isAvailable)
  }

  /** The featured list and a category's list hold only available dishes, and all of those that qualify, in table order. */
  lemma MenuQueriesSpec(items: seq<MenuItem>, categoryId: int)
    ensures forall m :: m in FeaturedMenu(items) <==> m in items && m.isFeatured && m.isAvailable
    ensures forall m :: m in CategoryMenu(items, categoryId) <==> m in items && m.categoryId == Some(categoryId) && m.isAvailable
    ensures IsSubsequence(FeaturedMenu(items), items) && IsSubsequence(CategoryMenu(items, categoryId), items)
  {
    FilterIsSubsequence(items, FeaturedAvailable);
    FilterIsSubsequence(items, (m: MenuItem) => m.categoryId == Some(categoryId) && m.isAvailable);
  }

  // ---- The settings upsert.

  /** `updateSetting`'s rows: every row with the key gets the value, or a new row is added if none has it. */
  function UpsertSetting(settings: seq<Setting>, key: string, value: string, freshId: int): seq<Setting> {
    if KeyTaken(settings, SettingKey, key) then
      Map(settings, (s: Setting) => if s.key == key then s.(value := value) else s)
    else settings + [Setting(freshId, key, value)]
  }

  /**
   * After the upsert the key reads back the value, every other key reads as
   * before, and the table grew by one row exactly when the key was new.
   */
  lemma UpsertSettingSpec(settings: seq<Setting>, key: string, value: string, freshId: int, other: string)
    ensures SettingOf(UpsertSetting(settings, key, value, freshId), key) == Some(value)
    ensures other != key ==> SettingOf(UpsertSetting(settings, key, value, freshId), other) == SettingOf(settings, other)
    ensures |UpsertSetting(settings, key, value, freshId)| == |settings| + (if KeyTaken(settings, SettingKey, key) then 0 else 1)
  {
    var t := UpsertSetting(settings, key, value, freshId);
    var k := FindIndex(t, SettingKeyed(key));
    if !KeyTaken(settings, SettingKey, key) {
      assert SettingKeyed(key)(t[|settings|]);
      forall i | 0 <= i < |settings| ensures !SettingKeyed(key)(t[i]) {
        assert t[i] == settings[i];
      }
      assert k.value == |settings|;
    }
    if other != key {
      forall i | 0 <= i < |settings| ensures SettingKeyed(other)(settings[i]) == SettingKeyed(other)(t[i]) {
      }
      FindIndexSame(settings, SettingKeyed(other), t, SettingKeyed(other));
      match FindIndex(settings, SettingKeyed(other))
      case None =>
      case Some(j) =>
        assert t[j] == settings[j];
    }
  }

  /** Writing the same value twice is writing it once. */
  lemma UpsertSettingIdempotent(settings: seq<Setting>, key: string, value: string, freshId: int, laterId: int)
    ensures var once := UpsertSetting(settings, key, value, freshId);
      UpsertSetting(once, key, value, laterId) == once
  {
    var once := UpsertSetting(settings, key, value, freshId);
    if !KeyTaken(settings, SettingKey, key) {
      assert SettingKey(once[|settings|]) == key;
    }
    assert KeyTaken(once, SettingKey, key) by {
      if KeyTaken(settings, SettingKey, key) {
        var j :| 0 <= j < |settings| && SettingKey(settings[j]) == key;
        assert SettingKey(once[j]) == key;
      }
    }
  }

  /** The upsert keeps ids and keys unique and draws its id, if any, from `freshId`. */
  lemma UpsertSettingKeepsOk(settings: seq<Setting>, key: string, value: string, freshId: int)
    requires SettingsOk(settings) && KeysBelow(settings, SettingId, freshId)
    ensures SettingsOk(UpsertSetting(settings, key, value, freshId))
    ensures KeysBelow(UpsertSetting(settings, key, value, freshId), SettingId, freshId + 1)
  {
    var t := UpsertSetting(settings, key, value, freshId);
    var x := Setting(freshId, key, value);
    if KeyTaken(settings, SettingKey, key) {
      assert forall i :: 0 <= i < |t| ==> t[i].id == settings[i].id && t[i].key == settings[i].key;
    } else {
      FreshKeyFree(settings, SettingId, freshId);
      UniqueByAppend(settings, SettingId, x);
      UniqueByAppend(settings, SettingKey, x);
      KeysBelowAppend(settings, SettingId, freshId, x);
    }
  }

  /** The database after `updateSetting`: a new row takes the next id. */
  function WithSetting(d: Db, key: string, value: string): Db {
    d.(settings := UpsertSetting(d.settings, key, value, d.nextId),
       nextId := if KeyTaken(d.settings, SettingKey, key) then d.nextId else d.nextId + 1)
  }

  lemma WithSettingKeepsOk(d: Db, key: string, value: string)
    requires DbOk(d)
    ensures DbOk(WithSetting(d, key, value)) && WithSetting(d, key, value).nextId >= d.nextId
  {
    UpsertSettingKeepsOk(d.settings, key, value, d.nextId);
  }

  // ---- Seeding.

  const DefaultCategoryNames: seq<string> := ["Entradas", "Platos Principales", "Postres", "Bebidas"]
  const SeedName := "LLAMAS!"
  const SeedLogo := "https://images.unsplash.com/photo-1656137002630-6da73c6d5b11?w=800&auto=format&fit=crop&q=60&ixlib=rb-4.0.3&ixid=M3wxMjA3fDB8MHxzZWFyY2h8NjB8fGZpcmUlMjBsb2dvfGVufDB8fDB8fHww"

  /** `name.toLowerCase().replace(/\s+/g, '-')`. */
  function DefaultSlug(name: string): string {
    Utils.ReplaceRuns(ToLower(name), IsSpace, '-')
  }

  /** A seeded slug has no upper-case letter and no white space. */
  lemma DefaultSlugShape(name: string)
    ensures Utils.AllChars(DefaultSlug(name), Utils.NotUpper)
    ensures Utils.AllChars(DefaultSlug(name), (c: char) => !IsSpace(c))
  {
    var lowered := ToLower(name);
    assert Utils.AllChars(lowered, Utils.NotUpper);
    Utils.ReplaceRunsKeeps(lowered, IsSpace, '-', Utils.NotUpper);
    ReplaceRunsDropsRuns(lowered);
  }

  lemma {:induction false} ReplaceRunsDropsRuns(s: string)
    ensures Utils.AllChars(Utils.ReplaceRuns(s, IsSpace, '-'), (c: char) => !IsSpace(c))
    decreases |s|
  {
    if s != [] {
      var tail := if IsSpace(s[0]) then Utils.DropWhile(s, IsSpace) else s[1..];
      var head := if IsSpace(s[0]) then '-' else s[0];
      ReplaceRunsDropsRuns(tail);
      var rest := Utils.ReplaceRuns(tail, IsSpace, '-');
      assert Utils.ReplaceRuns(s, IsSpace, '-') == [head] + rest;
      assert !IsSpace(head);
      forall i | 0 <= i < |rest| + 1 ensures !IsSpace(([head] + rest)[i]) {
        if i > 0 { assert ([head] + rest)[i] == rest[i - 1]; }
      }
    }
  }

  datatype Seeded = Seeded(categories: seq<Category>, nextId: int, ok: bool)

  /**
   * The category loop: each name inserted in turn with its slug; a slug
   * already taken throws, which ends the loop with the rows so far kept.
   */
  function SeedCategories(categories: seq<Category>, names: seq<string>, nextId: int): Seeded {
    SeedWith(categories, names, nextId, DefaultSlug)
  }

  /** The same loop for any slug rule, so that its proofs stay apart from how slugs are made. */
  function SeedWith(categories: seq<Category>, names: seq<string>, nextId: int, slugOf: string -> string): Seeded
    decreases |names|
  {
    if names == [] then Seeded(categories, nextId, true)
    else if KeyTaken(categories, CategorySlug, slugOf(names[0])) then Seeded(categories, nextId, false)
    else SeedWith(categories + [Category(nextId, names[0], slugOf(names[0]))], names[1..], nextId + 1, slugOf)
  }

  /**
   * A finished loop appended one category per name, in order, with successive
   * ids; finished or not, the table keeps its constraints and the old rows.
   */
  lemma SeedCategoriesSpec(categories: seq<Category>, names: seq<string>, nextId: int)
    requires CategoriesOk(categories) && KeysBelow(categories, CategoryId, nextId)
    ensures var r := SeedCategories(categories, names, nextId);
      CategoriesOk(r.categories) && KeysBelow(r.categories, CategoryId, r.nextId) && r.nextId >= nextId &&
      |r.categories| >= |categories| && r.categories[..|categories|] == categories &&
      (r.ok ==> |r.categories| == |categories| + |names|) &&
      (r.ok ==> forall i :: 0 <= i < |names| ==> r.categories[|categories| + i] == Category(nextId + i, names[i], DefaultSlug(names[i])))
  {
    SeedWithKeepsOk(categories, names, nextId, DefaultSlug);
    SeedWithKeepsRows(categories, names, nextId, DefaultSlug);
    SeedWithAppends(categories, names, nextId, DefaultSlug);
    SeededRowsAt(names, nextId, DefaultSlug);
    var r := SeedCategories(categories, names, nextId);
    if r.ok {
      forall i | 0 <= i < |names| ensures r.categories[|categories| + i] == Category(nextId + i, names[i], DefaultSlug(names[i])) {
        assert r.categories[|categories| + i] == SeededRows(names, nextId, DefaultSlug)[i];
      }
    }
  }

  /** The loop keeps the table's constraints and never lowers the id counter. */
  lemma {:induction false} SeedWithKeepsOk(categories: seq<Category>, names: seq<string>, nextId: int, slugOf: string -> string)
    requires CategoriesOk(categories) && KeysBelow(categories, CategoryId, nextId)
    ensures var r := SeedWith(categories, names, nextId, slugOf);
      CategoriesOk(r.categories) && KeysBelow(r.categories, CategoryId, r.nextId) && r.nextId >= nextId
    decreases |names|
  {
    if names != [] && !KeyTaken(categories, CategorySlug, slugOf(names[0])) {
      var x := Category(nextId, names[0], slugOf(names[0]));
      FreshKeyFree(categories, CategoryId, nextId);
      UniqueByAppend(categories, CategoryId, x);
      UniqueByAppend(categories, CategorySlug, x);
      KeysBelowAppend(categories, CategoryId, nextId, x);
      SeedWithKeepsOk(categories + [x], names[1..], nextId + 1, slugOf);
    }
  }

  /** The rows a finished loop appends: one category per name, with successive ids and its slug. */
  function SeededRows(names: seq<string>, nextId: int, slugOf: string -> string): seq<Category>
    decreases |names|
  {
    if names == [] then [] else [Category(nextId, names[0], slugOf(names[0]))] + SeededRows(names[1..], nextId + 1, slugOf)
  }

  lemma {:induction false} SeededRowsAt(names: seq<string>, nextId: int, slugOf: string -> string)
    ensures |SeededRows(names, nextId, slugOf)| == |names|
    ensures forall i :: 0 <= i < |names| ==> SeededRows(names, nextId, slugOf)[i] == Category(nextId + i, names[i], slugOf(names[i]))
    decreases |names|
  {
    if names != [] {
      SeededRowsAt(names[1..], nextId + 1, slugOf);
      var rows := SeededRows(names, nextId, slugOf);
      forall i | 0 <= i < |names| ensures rows[i] == Category(nextId + i, names[i], slugOf(names[i])) {
        if i > 0 {
          assert rows[i] == SeededRows(names[1..], nextId + 1, slugOf)[i - 1];
          assert names[1..][i - 1] == names[i];
        }
      }
    }
  }

  /** The loop keeps the old rows in front. */
  lemma {:induction false} SeedWithKeepsRows(categories: seq<Category>, names: seq<string>, nextId: int, slugOf: string -> string)
    ensures var r := SeedWith(categories, names, nextId, slugOf);
      |r.categories| >= |categories| && r.categories[..|categories|] == categories
    decreases |names|
  {
    if names != [] && !KeyTaken(categories, CategorySlug, slugOf(names[0])) {
      var next := categories + [Category(nextId, names[0], slugOf(names[0]))];
      SeedWithKeepsRows(next, names[1..], nextId + 1, slugOf);
      var rs := SeedWith(next, names[1..], nextId + 1, slugOf).categories;
      assert rs[..|categories|] == rs[..|next|][..|categories|];
    }
  }

  /** A finished loop appended exactly the seeded rows. */
  lemma {:induction false} SeedWithAppends(categories: seq<Category>, names: seq<string>, nextId: int, slugOf: string -> string)
    ensures var r := SeedWith(categories, names, nextId, slugOf);
      r.ok ==> r.categories == categories + SeededRows(names, nextId, slugOf)
    decreases |names|
  {
    if names == [] {
      assert categories + SeededRows(names, nextId, slugOf) == categories;
    } else if !KeyTaken(categories, CategorySlug, slugOf(names[0])) {
      var x := Category(nextId, names[0], slugOf(names[0]));
      var rest := SeededRows(names[1..], nextId + 1, slugOf);
      SeedWithAppends(categories + [x], names[1..], nextId + 1, slugOf);
      assert SeededRows(names, nextId, slugOf) == [x] + rest;
      assert (categories + [x]) + rest == categories + ([x] + rest);
    }
  }

  /** The admin row `initializeDefaultAdmin` inserts. */
  function DefaultAdmin(id: int, hashedPassword: string): (u: User)
    ensures u.username == "admin" && u.isFirstLogin && u.role == "admin" && u.password == hashedPassword && u.id == id
  {
    NewUser(id, InsertUser("admin", hashedPassword, Some(true), Some("admin")))
  }

  /** The first step of the seed: the admin user with the next id. */
  function WithAdmin(d: Db, hashedPassword: string): Db {
    d.(users := d.users + [DefaultAdmin(d.nextId, hashedPassword)], nextId := d.nextId + 1)
  }

  /** The second step: the restaurant's name, then its logo. */
  function WithSeedSettings(d: Db): Db {
    WithSetting(WithSetting(d, "restaurantName", SeedName), "restaurantLogo", SeedLogo)
  }

  /** The last step: the category loop. */
  function SeedLoop(d: Db): Seeded {
    SeedCategories(d.categories, DefaultCategoryNames, d.nextId)
  }

  function WithSeedCategories(d: Db): Db {
    d.(categories := SeedLoop(d).categories, nextId := SeedLoop(d).nextId)
  }

  /** The database after seeding the admin, the two settings, then the categories. */
  function Seed(d: Db, hashedPassword: string): Db {
    WithSeedCategories(WithSeedSettings(WithAdmin(d, hashedPassword)))
  }

  /** With no "admin" yet, adding one keeps the constraints and makes the name found. */
  lemma WithAdminSpec(d: Db, hashedPassword: string)
    requires DbOk(d) && GetUserByUsername(d, "admin").None?
    ensures DbOk(WithAdmin(d, hashedPassword))
    ensures GetUserByUsername(WithAdmin(d, hashedPassword), "admin") == Some(DefaultAdmin(d.nextId, hashedPassword))
  {
    var admin := DefaultAdmin(d.nextId, hashedPassword);
    forall j | 0 <= j < |d.users| ensures UserName(d.users[j]) != "admin" {
      assert d.users[j] in d.users;
      assert !UserNamed("admin")(d.users[j]);
    }
    FreshKeyFree(d.users, UserId, d.nextId);
    UniqueByAppend(d.users, UserId, admin);
    UniqueByAppend(d.users, UserName, admin);
    KeysBelowAppend(d.users, UserId, d.nextId, admin);
    var users := d.users + [admin];
    assert UserNamed("admin")(users[|d.users|]);
    forall j | 0 <= j < |d.users| ensures !UserNamed("admin")(users[j]) {
      assert users[j] == d.users[j];
    }
    assert FindIndex(users, UserNamed("admin")) == Some(|d.users|);
  }

  /** Both settings are set to the seed values; nothing but the settings and the id counter change. */
  lemma WithSeedSettingsSpec(d: Db)
    requires DbOk(d)
    ensures var s := WithSeedSettings(d);
      DbOk(s) && s.nextId >= d.nextId &&
      GetSetting(s, "restaurantName") == Some(SeedName) && GetSetting(s, "restaurantLogo") == Some(SeedLogo) &&
      s == d.(settings := s.settings, nextId := s.nextId)
  {
    var d1 := WithSetting(d, "restaurantName", SeedName);
    WithSettingKeepsOk(d, "restaurantName", SeedName);
    WithSettingKeepsOk(d1, "restaurantLogo", SeedLogo);
    UpsertSettingSpec(d.settings, "restaurantName", SeedName, d.nextId, "restaurantLogo");
    UpsertSettingSpec(d1.settings, "restaurantLogo", SeedLogo, d1.nextId, "restaurantName");
  }

  /** The loop keeps the constraints and touches only the categories and the id counter. */
  lemma WithSeedCategoriesSpec(d: Db)
    requires DbOk(d)
    ensures var s := WithSeedCategories(d);
      DbOk(s) && |s.categories| >= |d.categories| && s.categories[..|d.categories|] == d.categories &&
      s == d.(categories := s.categories, nextId := s.nextId)
  {
    SeedCategoriesSpec(d.categories, DefaultCategoryNames, d.nextId);
    var r := SeedLoop(d);
    var s := WithSeedCategories(d);
    assert KeysBelow(d.users, UserId, r.nextId);
    assert KeysBelow(d.settings, SettingId, r.nextId);
    assert KeysBelow(d.menuItems, MenuItemId, r.nextId);
    assert KeysBelow(d.staff, StaffId, r.nextId);
    assert KeysBelow(d.locations, LocationId, r.nextId);
    assert KeysBelow(d.socialMedia, SocialMediaId, r.nextId);
  }

  /**
   * Seeding a database without an "admin" user adds that user as a first
   * login and sets both settings; the categories table keeps its rows, and
   * the dishes, staff, location and social links are untouched.
   */
  lemma SeedSpec(d: Db, hashedPassword: string)
    requires DbOk(d) && GetUserByUsername(d, "admin").None?
    ensures var s := Seed(d, hashedPassword);
      DbOk(s) && GetUserByUsername(s, "admin") == Some(DefaultAdmin(d.nextId, hashedPassword)) &&
      GetSetting(s, "restaurantName") == Some(SeedName) && GetSetting(s, "restaurantLogo") == Some(SeedLogo) &&
      s.menuItems == d.menuItems && s.staff == d.staff && s.locations == d.locations && s.socialMedia == d.socialMedia &&
      |s.categories| >= |d.categories| && s.categories[..|d.categories|] == d.categories
  {
    var d1 := WithAdmin(d, hashedPassword);
    WithAdminSpec(d, hashedPassword);
    var d2 := WithSeedSettings(d1);
    WithSeedSettingsSpec(d1);
    var cats := d.categories;
    assert d2.categories == cats;
    WithSeedCategoriesSpec(d2);
  }

  /** `DatabaseStorage`, holding the tables. */
  class DatabaseStorage {
    var tables: Db

    predicate Valid()
      reads this
    {
      DbOk(tables)
    }

    constructor()
      ensures tables == EmptyDb && Valid()
    {
      tables := EmptyDb;
    }

    /** `createUser`: the row with the column defaults, or a violation for a taken username. */
    method CreateUser(u: InsertUser) returns (r: DbResult<User>)
      requires Valid()
      modifies this
      ensures Valid()
      ensures KeyTaken(old(tables.users), UserName, u.username) ==> r == Violation && tables == old(tables)
      ensures !KeyTaken(old(tables.users), UserName, u.username) ==>
        r == Ok(NewUser(old(tables.nextId), u)) &&
        tables == old(tables).(users := old(tables.users) + [NewUser(old(tables.nextId), u)], nextId := old(tables.nextId) + 1)
    {
      if KeyTaken(tables.users, UserName, u.username) {
        return Violation;
      }
      var row := NewUser(tables.nextId, u);
      FreshKeyFree(tables.users, UserId, tables.nextId);
      UniqueByAppend(tables.users, UserId, row);
      UniqueByAppend(tables.users, UserName, row);
      KeysBelowAppend(tables.users, UserId, tables.nextId, row);
      tables := tables.(users := tables.users + [row], nextId := tables.nextId + 1);
      r := Ok(row);
    }

    /** `updateUser`: the supplied fields of the row with the id; a taken username is a violation. */
    method UpdateUser(id: int, p: UserPatch) returns (r: DbResult<User>)
      requires Valid()
      modifies this
      ensures Valid()
      ensures var k := FindIndex(old(tables.users), WithKey(UserId, id));
        (k.None? ==> r == Missing && tables == old(tables)) &&
        (k.Some? ==>
          var row := ApplyUserPatch(old(tables.users)[k.value], p);
          (KeyTakenElsewhere(old(tables.users), UserName, k.value, row.username) ==> r == Violation && tables == old(tables)) &&
          (!KeyTakenElsewhere(old(tables.users), UserName, k.value, row.username) ==>
            r == Ok(row) && tables == old(tables).(users := old(tables.users)[k.value := row])))
    {
      var k := FindIndex(tables.users, WithKey(UserId, id));
      if k.None? {
        return Missing;
      }
      var row := ApplyUserPatch(tables.users[k.value], p);
      if KeyTakenElsewhere(tables.users, UserName, k.value, row.username) {
        return Violation;
      }
      OwnKeyNotElsewhere(tables.users, UserId, k.value);
      UniqueByReplace(tables.users, UserId, k.value, row);
      UniqueByReplace(tables.users, UserName, k.value, row);
      tables := tables.(users := tables.users[k.value := row]);
      r := Ok(row);
    }

    /** `deleteUser`: every row with the id goes; nothing else changes. */
    method DeleteUser(id: int)
      requires Valid()
      modifies this
      ensures Valid()
      ensures tables == old(tables).(users := Filter(old(tables.users), WithoutKey(UserId, id)))
    {
      UniqueByFilter(tables.users, UserId, WithoutKey(UserId, id));
      UniqueByFilter(tables.users, UserName, WithoutKey(UserId, id));
      KeysBelowFilter(tables.users, UserId, tables.nextId, WithoutKey(UserId, id));
      tables := tables.(users := Filter(tables.users, WithoutKey(UserId, id)));
    }

    /** `updateSetting`: the upsert. */
    method UpdateSetting(key: string, value: string) returns (s: Setting)
      requires Valid()
      modifies this
      ensures Valid()
      ensures tables == WithSetting(old(tables), key, value)
      ensures s.key == key && s.value == value
    {
      WithSettingKeepsOk(tables, key, value);
      var k := FindIndex(tables.settings, SettingKeyed(key));
      var d := WithSetting(tables, key, value);
      if k.Some? {
        assert KeyTaken(tables.settings, SettingKey, key) by {
          assert SettingKey(tables.settings[k.value]) == key;
        }
        s := d.settings[k.value];
      } else {
        s := Setting(tables.nextId, key, value);
      }
      tables := d;
    }

    /**
     * `initializeDefaultAdmin`: nothing when a user named "admin" exists;
     * otherwise the seed. `hashedPassword` is `hashPassword("admin123")`.
     * `completed` is false when a seeded slug was taken and the loop threw.
     */
    method InitializeDefaultAdmin(hashedPassword: string) returns (completed: bool)
      requires Valid()
      modifies this
      ensures Valid()
      ensures GetUserByUsername(old(tables), "admin").Some? ==> tables == old(tables) && completed
      ensures GetUserByUsername(old(tables), "admin").None? ==>
        tables == Seed(old(tables), hashedPassword) &&
        completed == SeedLoop(WithSeedSettings(WithAdmin(old(tables), hashedPassword))).ok
      ensures GetUserByUsername(tables, "admin").Some?
    {
      if GetUserByUsername(tables, "admin").Some? {
        return true;
      }
      ghost var start := tables;
      SeedSpec(tables, hashedPassword);
      WithAdminSpec(tables, hashedPassword);
      tables := WithAdmin(tables, hashedPassword);
      var s := UpdateSetting("restaurantName", SeedName);
      s := UpdateSetting("restaurantLogo", SeedLogo);
      ghost var before := tables;
      assert before == WithSeedSettings(WithAdmin(start, hashedPassword));
      WithSeedCategoriesSpec(before);
      completed := InsertCategories(DefaultCategoryNames);
    }

    /** The loop of `initializeDefaultAdmin`: each name inserted until a slug is already taken. */
    method InsertCategories(names: seq<string>) returns (completed: bool)
      modifies this
      ensures var r := SeedCategories(old(tables.categories), names, old(tables.nextId));
        tables == old(tables).(categories := r.categories, nextId := r.nextId) && completed == r.ok
    {
      ghost var before := tables;
      ghost var goal := SeedCategories(tables.categories, names, tables.nextId);
      completed := true;
      for i := 0 to |names|
        invariant completed ==> SeedCategories(tables.categories, names[i..], tables.nextId) == goal
        invariant !completed ==> tables.categories == goal.categories && tables.nextId == goal.nextId && !goal.ok
        invariant tables == before.(categories := tables.categories, nextId := tables.nextId)
      {
        if completed {
          var slug := DefaultSlug(names[i]);
          assert names[i..][0] == names[i] && names[i..][1..] == names[i + 1..];
          if KeyTaken(tables.categories, CategorySlug, slug) {
            completed := false;
          } else {
            tables := tables.(categories := tables.categories + [Category(tables.nextId, names[i], slug)], nextId := tables.nextId + 1);
          }
        }
      }
      assert names[|names|..] == [];
    }

    /** `createMenuItem`: the row with its defaults and the given creation time. */
    method CreateMenuItem(m: InsertMenuItem, createdAt: int) returns (r: MenuItem)
      requires Valid()
      modifies this
      ensures Valid()
      ensures r == NewMenuItem(old(tables.nextId), createdAt, m)
      ensures tables == old(tables).(menuItems := old(tables.menuItems) + [r], nextId := old(tables.nextId) + 1)
    {
      r := NewMenuItem(tables.nextId, createdAt, m);
      FreshKeyFree(tables.menuItems, MenuItemId, tables.nextId);
      UniqueByAppend(tables.menuItems, MenuItemId, r);
      KeysBelowAppend(tables.menuItems, MenuItemId, tables.nextId, r);
      tables := tables.(menuItems := tables.menuItems + [r], nextId := tables.nextId + 1);
    }

    /** `updateMenuItem`: the supplied fields of the row with the id, and nothing else. */
    method UpdateMenuItem(id: int, p: MenuItemPatch) returns (r: DbResult<MenuItem>)
      requires Valid()
      modifies this
      ensures Valid()
      ensures var k := FindIndex(old(tables.menuItems), WithKey(MenuItemId, id));
        (k.None? ==> r == Missing && tables == old(tables)) &&
        (k.Some? ==>
          var row := ApplyMenuItemPatch(old(tables.menuItems)[k.value], p);
          r == Ok(row) && tables == old(tables).(menuItems := old(tables.menuItems)[k.value := row]))
    {
      var k := FindIndex(tables.menuItems, WithKey(MenuItemId, id));
      if k.None? {
        return Missing;
      }
      var row := ApplyMenuItemPatch(tables.menuItems[k.value], p);
      OwnKeyNotElsewhere(tables.menuItems, MenuItemId, k.value);
      UniqueByReplace(tables.menuItems, MenuItemId, k.value, row);
      tables := tables.(menuItems := tables.menuItems[k.value := row]);
      r := Ok(row);
    }

    method DeleteMenuItem(id: int)
      requires Valid()
      modifies this
      ensures Valid()
      ensures tables == old(tables).(menuItems := Filter(old(tables.menuItems), WithoutKey(MenuItemId, id)))
    {
      UniqueByFilter(tables.menuItems, MenuItemId, WithoutKey(MenuItemId, id));
      KeysBelowFilter(tables.menuItems, MenuItemId, tables.nextId, WithoutKey(MenuItemId, id));
      tables := tables.(menuItems := Filter(tables.menuItems, WithoutKey(MenuItemId, id)));
    }

    /** `createCategory`: a taken slug is a violation. */
    method CreateCategory(c: InsertCategory) returns (r: DbResult<Category>)
      requires Valid()
      modifies this
      ensures Valid()
      ensures KeyTaken(old(tables.categories), CategorySlug, c.slug) ==> r == Violation && tables == old(tables)
      ensures !KeyTaken(old(tables.categories), CategorySlug, c.slug) ==>
        r == Ok(Category(old(tables.nextId), c.name, c.slug)) &&
        tables == old(tables).(categories := old(tables.categories) + [r.value], nextId := old(tables.nextId) + 1)
    {
      if KeyTaken(tables.categories, CategorySlug, c.slug) {
        return Violation;
      }
      var row := Category(tables.nextId, c.name, c.slug);
      FreshKeyFree(tables.categories, CategoryId, tables.nextId);
      UniqueByAppend(tables.categories, CategoryId, row);
      UniqueByAppend(tables.categories, CategorySlug, row);
      KeysBelowAppend(tables.categories, CategoryId, tables.nextId, row);
      tables := tables.(categories := tables.categories + [row], nextId := tables.nextId + 1);
      r := Ok(row);
    }

    /** `updateCategory`: a slug taken by another category is a violation. */
    method UpdateCategory(id: int, p: CategoryPatch) returns (r: DbResult<Category>)
      requires Valid()
      modifies this
      ensures Valid()
      ensures var k := FindIndex(old(tables.categories), WithKey(CategoryId, id));
        (k.None? ==> r == Missing && tables == old(tables)) &&
        (k.Some? ==>
          var row := ApplyCategoryPatch(old(tables.categories)[k.value], p);
          (KeyTakenElsewhere(old(tables.categories), CategorySlug, k.value, row.slug) ==> r == Violation && tables == old(tables)) &&
          (!KeyTakenElsewhere(old(tables.categories), CategorySlug, k.value, row.slug) ==>
            r == Ok(row) && tables == old(tables).(categories := old(tables.categories)[k.value := row])))
    {
      var k := FindIndex(tables.categories, WithKey(CategoryId, id));
      if k.None? {
        return Missing;
      }
      var row := ApplyCategoryPatch(tables.categories[k.value], p);
      if KeyTakenElsewhere(tables.categories, CategorySlug, k.value, row.slug) {
        return Violation;
      }
      OwnKeyNotElsewhere(tables.categories, CategoryId, k.value);
      UniqueByReplace(tables.categories, CategoryId, k.value, row);
      UniqueByReplace(tables.categories, CategorySlug, k.value, row);
      tables := tables.(categories := tables.categories[k.value := row]);
      r := Ok(row);
    }

    /** `deleteCategory`: only the categories table changes; dishes keep their `categoryId`. */
    method DeleteCategory(id: int)
      requires Valid()
      modifies this
      ensures Valid()
      ensures tables == old(tables).(categories := Filter(old(tables.categories), WithoutKey(CategoryId, id)))
    {
      UniqueByFilter(tables.categories, CategoryId, WithoutKey(CategoryId, id));
      UniqueByFilter(tables.categories, CategorySlug, WithoutKey(CategoryId, id));
      KeysBelowFilter(tables.categories, CategoryId, tables.nextId, WithoutKey(CategoryId, id));
      tables := tables.(categories := Filter(tables.categories, WithoutKey(CategoryId, id)));
    }

    method CreateStaffMember(s: InsertStaff) returns (r: Staff)
      requires Valid()
      modifies this
      ensures Valid()
      ensures r == Staff(old(tables.nextId), s.name, s.position, s.bio, s.image)
      ensures tables == old(tables).(staff := old(tables.staff) + [r], nextId := old(tables.nextId) + 1)
    {
      r := Staff(tables.nextId, s.name, s.position, s.bio, s.image);
      FreshKeyFree(tables.staff, StaffId, tables.nextId);
      UniqueByAppend(tables.staff, StaffId, r);
      KeysBelowAppend(tables.staff, StaffId, tables.nextId, r);
      tables := tables.(staff := tables.staff + [r], nextId := tables.nextId + 1);
    }

    method UpdateStaffMember(id: int, p: StaffPatch) returns (r: DbResult<Staff>)
      requires Valid()
      modifies this
      ensures Valid()
      ensures var k := FindIndex(old(tables.staff), WithKey(StaffId, id));
        (k.None? ==> r == Missing && tables == old(tables)) &&
        (k.Some? ==>
          var row := ApplyStaffPatch(old(tables.staff)[k.value], p);
          r == Ok(row) && tables == old(tables).(staff := old(tables.staff)[k.value := row]))
    {
      var k := FindIndex(tables.staff, WithKey(StaffId, id));
      if k.None? {
        return Missing;
      }
      var row := ApplyStaffPatch(tables.staff[k.value], p);
      OwnKeyNotElsewhere(tables.staff, StaffId, k.value);
      UniqueByReplace(tables.staff, StaffId, k.value, row);
      tables := tables.(staff := tables.staff[k.value := row]);
      r := Ok(row);
    }

    method DeleteStaffMember(id: int)
      requires Valid()
      modifies this
      ensures Valid()
      ensures tables == old(tables).(staff := Filter(old(tables.staff), WithoutKey(StaffId, id)))
    {
      UniqueByFilter(tables.staff, StaffId, WithoutKey(StaffId, id));
      KeysBelowFilter(tables.staff, StaffId, tables.nextId, WithoutKey(StaffId, id));
      tables := tables.(staff := Filter(tables.staff, WithoutKey(StaffId, id)));
    }

    /**
     * `updateLocation`: the first row gets the supplied fields; with no row,
     * the body is inserted, which fails unless it supplies every column.
     */
    method UpdateLocation(p: LocationPatch) returns (r: DbResult<Location>)
      requires Valid()
      modifies this
      ensures Valid()
      ensures old(tables.locations) != [] ==>
        r == Ok(ApplyLocationPatch(old(tables.locations)[0], p)) &&
        tables == old(tables).(locations := old(tables.locations)[0 := r.value])
      ensures old(tables.locations) == [] && LocationFromPatch(old(tables.nextId), p).None? ==>
        r == Violation && tables == old(tables)
      ensures old(tables.locations) == [] && LocationFromPatch(old(tables.nextId), p).Some? ==>
        r == Ok(LocationFromPatch(old(tables.nextId), p).value) &&
        tables == old(tables).(locations := [r.value], nextId := old(tables.nextId) + 1)
      ensures |tables.locations| <= 1 && (r.Ok? ==> |tables.locations| == 1)
    {
      if tables.locations != [] {
        var row := ApplyLocationPatch(tables.locations[0], p);
        tables := tables.(locations := tables.locations[0 := row]);
        r := Ok(row);
      } else {
        var inserted := LocationFromPatch(tables.nextId, p);
        if inserted.None? {
          return Violation;
        }
        tables := tables.(locations := [inserted.value], nextId := tables.nextId + 1);
        r := Ok(inserted.value);
      }
    }

    method CreateSocialMedia(s: InsertSocialMedia) returns (r: SocialMedia)
      requires Valid()
      modifies this
      ensures Valid()
      ensures r == NewSocialMedia(old(tables.nextId), s)
      ensures tables == old(tables).(socialMedia := old(tables.socialMedia) + [r], nextId := old(tables.nextId) + 1)
    {
      r := NewSocialMedia(tables.nextId, s);
      FreshKeyFree(tables.socialMedia, SocialMediaId, tables.nextId);
      UniqueByAppend(tables.socialMedia, SocialMediaId, r);
      KeysBelowAppend(tables.socialMedia, SocialMediaId, tables.nextId, r);
      tables := tables.(socialMedia := tables.socialMedia + [r], nextId := tables.nextId + 1);
    }

    method UpdateSocialMedia(id: int, p: SocialMediaPatch) returns (r: DbResult<SocialMedia>)
      requires Valid()
      modifies this
      ensures Valid()
      ensures var k := FindIndex(old(tables.socialMedia), WithKey(SocialMediaId, id));
        (k.None? ==> r == Missing && tables == old(tables)) &&
        (k.Some? ==>
          var row := ApplySocialMediaPatch(old(tables.socialMedia)[k.value], p);
          r == Ok(row) && tables == old(tables).(socialMedia := old(tables.socialMedia)[k.value := row]))
    {
      var k := FindIndex(tables.socialMedia, WithKey(SocialMediaId, id));
      if k.None? {
        return Missing;
      }
      var row := ApplySocialMediaPatch(tables.socialMedia[k.value], p);
      OwnKeyNotElsewhere(tables.socialMedia, SocialMediaId, k.value);
      UniqueByReplace(tables.socialMedia, SocialMediaId, k.value, row);
      tables := tables.(socialMedia := tables.socialMedia[k.value := row]);
      r := Ok(row);
    }

    method DeleteSocialMedia(id: int)
      requires Valid()
      modifies this
      ensures Valid()
      ensures tables == old(tables).(socialMedia := Filter(old(tables.socialMedia), WithoutKey(SocialMediaId, id)))
    {
      UniqueByFilter(tables.socialMedia, SocialMediaId, WithoutKey(SocialMediaId, id));
      KeysBelowFilter(tables.socialMedia, SocialMediaId, tables.nextId, WithoutKey(SocialMediaId, id));
      tables := tables.(socialMedia := Filter(tables.socialMedia, WithoutKey(SocialMediaId, id)));
    }
  }

  // ---- Reading back what a write stored.

  /** A lookup by key finds a row exactly when one has the key, and what it finds has the key. */
  lemma FindByKey<T(!new)>(rows: seq<T>, key: T -> int, id: int)
    ensures Find(rows, WithKey(key, id)).Some? <==> exists x :: x in rows && key(x) == id
    ensures Find(rows, WithKey(key, id)).Some? ==> key(Find(rows, WithKey(key, id)).value) == id
  {
    if exists x :: x in rows && key(x) == id {
      var x :| x in rows && key(x) == id;
      assert WithKey(key, id)(x);
    }
  }

  /** Replacing the first match of a search by another match makes the search find the new row. */
  lemma UpdateFoundReadsBack<T(!new)>(rows: seq<T>, p: T -> bool, row: T)
    requires FindIndex(rows, p).Some? && p(row)
    ensures var k := FindIndex(rows, p).value;
      FindIndex(rows[k := row], p) == Some(k) && Find(rows[k := row], p) == Some(row)
  {
    var k := FindIndex(rows, p).value;
    var t := rows[k := row];
    forall i | 0 <= i < |rows| ensures p(rows[i]) == p(t[i]) {
      if i != k {
        assert t[i] == rows[i];
      }
    }
    FindIndexSame(rows, p, t, p);
  }

  /** After an update of the first row with the id, a lookup by that id finds the new row. */
  lemma UpdateReadsBack<T(!new)>(rows: seq<T>, key: T -> int, id: int, row: T)
    requires FindIndex(rows, WithKey(key, id)).Some? && key(row) == id
    ensures var k := FindIndex(rows, WithKey(key, id)).value;
      Find(rows[k := row], WithKey(key, id)) == Some(row)
  {
    UpdateFoundReadsBack(rows, WithKey(key, id), row);
  }

  /** In a unique column, the lookup by a row's key finds that row's position. */
  lemma FindOwnKey<T>(rows: seq<T>, key: T -> int, k: nat)
    requires UniqueBy(rows, key) && k < |rows|
    ensures FindIndex(rows, WithKey(key, key(rows[k]))) == Some(k)
  {
    assert WithKey(key, key(rows[k]))(rows[k]);
    var j := FindIndex(rows, WithKey(key, key(rows[k]))).value;
    assert !(j < k) by {
      assert key(rows[j]) == key(rows[k]);
    }
  }

  /** After an insert with a fresh key, a lookup by that key finds the new row. */
  lemma CreateReadsBack<T(!new)>(rows: seq<T>, key: T -> int, x: T)
    requires !KeyTaken(rows, key, key(x))
    ensures Find(rows + [x], WithKey(key, key(x))) == Some(x)
  {
    var t := rows + [x];
    forall i | 0 <= i < |rows| ensures !WithKey(key, key(x))(t[i]) {
      assert t[i] == rows[i];
    }
    assert WithKey(key, key(x))(t[|rows|]);
    assert FindIndex(t, WithKey(key, key(x))) == Some(|rows|);
  }

  /** After a delete, a lookup by the id finds nothing, and every row with another id is still there. */
  lemma DeleteSpec<T(!new)>(rows: seq<T>, key: T -> int, id: int)
    ensures Find(Filter(rows, WithoutKey(key, id)), WithKey(key, id)).None?
    ensures forall x :: x in Filter(rows, WithoutKey(key, id)) <==> x in rows && key(x) != id
    ensures IsSubsequence(Filter(rows, WithoutKey(key, id)), rows)
  {
    FilterIsSubsequence(rows, WithoutKey(key, id));
  }
}
