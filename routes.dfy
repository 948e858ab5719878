// server/routes.ts: the `isAdmin` guard and the REST handlers. Each handler
// is an early-return chain from the session, the request and the tables to a
// status code, a body and, for writes, new tables.
module Routes {
  import opened Wrappers
  import opened Seqs
  import opened Schema
  import opened Storage

  /** `req.isAuthenticated()` and `req.user`. */
  datatype Session = Session(user: Option<User>)

  /** What `res.json(..)` sends: `Message` is `{ message }`, `ErrorBody` is `{ error }`. */
  datatype Body =
    | Message(text: string)
    | ErrorBody(error: string)
    | MenuItemsBody(items: seq<MenuItem>)
    | MenuItemBody(item: MenuItem)
    | CategoryBody(category: Category)
    | StaffBody(member: Staff)
    | SettingBody(setting: Setting)
    | KeyValueBody(key: string, value: string)
    | LocationBody(location: Location)
    | SocialMediaBody(link: SocialMedia)
    | UsersBody(users: seq<User>)
    | UserBody(user: User)
    | PublicUsersBody(publicUsers: seq<PublicUser>)
    | PublicUserBody(publicUser: PublicUser)
    | NoContent

  datatype Response = Response(status: int, body: Body)

  predicate SignedInAdmin(s: Session) { s.user.Some? && s.user.value.role == "admin" }

  /** `isAdmin`: 401 without a session, 403 for a user whose role is not "admin", otherwise on to the handler. */
  function Guard(s: Session): (r: Option<Response>)
    ensures r.None? <==> SignedInAdmin(s)
    ensures s.user.None? ==> r == Some(Response(401, Message("Not authenticated")))
    ensures s.user.Some? && s.user.value.role != "admin" ==> r == Some(Response(403, Message("Not authorized")))
  {
    if s.user.None? then Some(Response(401, Message("Not authenticated")))
    else if s.user.value.role != "admin" then Some(Response(403, Message("Not authorized")))
    else None
  }

  // ---- Reads.

  /**
   * `GET /api/menu-items` as written: the admin branch calls
   * `storage.getAllMenuItems`, which `DatabaseStorage` does not define, so the
   * call throws and the catch answers 500.
   */
  function GetMenuItemsAsWritten(s: Session, d: Db): (r: Response)
    ensures SignedInAdmin(s) ==> r.status == 500
    ensures !SignedInAdmin(s) ==> r == Response(200, MenuItemsBody(AvailableMenu(d.menuItems)))
  {
    if SignedInAdmin(s) then Response(500, Message("Error fetching menu items"))
    else Response(200, MenuItemsBody(AvailableMenu(d.menuItems)))
  }

  /** An administrator never gets the menu from the handler as written, whatever the tables hold. */
  lemma AdminMenuAlwaysFails(admin: User, d: Db)
    requires admin.role == "admin"
    ensures GetMenuItemsAsWritten(Session(Some(admin)), d).status == 500
    ensures !GetMenuItemsAsWritten(Session(Some(admin)), d).body.MenuItemsBody?
  {
  }

  /** `GET /api/menu-items` as intended: every dish for an administrator, the public menu for anyone else. */
  function GetMenuItems(s: Session, d: Db): (r: Response)
    ensures r.status == 200 && r.body.MenuItemsBody?
  {
    if SignedInAdmin(s) then Response(200, MenuItemsBody(d.menuItems))
    else Response(200, MenuItemsBody(AvailableMenu(d.menuItems)))
  }

  /**
   * An administrator sees every dish, including unavailable ones; anyone
   * else sees exactly the available dishes, featured first.
   */
  lemma GetMenuItemsSpec(s: Session, d: Db)
    ensures SignedInAdmin(s) ==> GetMenuItems(s, d).body.items == d.menuItems
    ensures !SignedInAdmin(s) ==>
      (forall m :: m in GetMenuItems(s, d).body.items <==> m in d.menuItems && m.isAvailable) &&
      multiset(GetMenuItems(s, d).body.items) == multiset(Filter(d.menuItems, IsAvailable))
  {
    AvailableMenuSpec(d.menuItems);
  }

  /** `GET /api/menu-items/featured`. */
  function GetFeaturedMenuItems(d: Db): (r: Response)
    ensures r.status == 200 && r.body.MenuItemsBody?
    ensures forall m :: m in r.body.items <==> m in d.menuItems && m.isFeatured && m.isAvailable
  {
    MenuQueriesSpec(d.menuItems, 0);
    Response(200, MenuItemsBody(FeaturedMenu(d.menuItems)))
  }

  /**
   * `GET /api/menu-items/:id`. `id` is `parseInt(req.params.id)`; `None`
   * stands for `NaN`, which the integer column rejects, so the catch answers 500.
   */
  function GetMenuItem(d: Db, id: Option<int>): (r: Response)
    ensures id.None? ==> r.status == 500
    ensures id.Some? ==> (r.status == 200 <==> exists m :: m in d.menuItems && m.id == id.value)
    ensures id.Some? && r.status != 200 ==> r.status == 404
    ensures r.status == 200 ==> r.body.MenuItemBody? && r.body.item in d.menuItems && Some(r.body.item.id) == id
  {
    if id.None? then Response(500, Message("Error fetching menu item"))
    else
      FindByKey(d.menuItems, MenuItemId, id.value);
      match GetMenuItemById(d, id.value)
      case None => Response(404, Message("Menu item not found"))
      case Some(m) => Response(200, MenuItemBody(m))
  }

  /**
   * `GET /api/settings/:key`: `!value` is also true of the empty string, so a
   * setting stored as "" answers 404 like a missing one.
   */
  function GetSettingByKey(d: Db, key: string): (r: Response)
    ensures r.status == 200 <==> GetSetting(d, key).Some? && GetSetting(d, key).value != ""
    ensures r.status != 200 ==> r.status == 404
    ensures r.status == 200 ==> r.body == KeyValueBody(key, GetSetting(d, key).value)
  {
    match GetSetting(d, key)
    case None => Response(404, Message("Setting not found"))
    case Some(v) => if v == "" then Response(404, Message("Setting not found")) else Response(200, KeyValueBody(key, v))
  }

  /** `GET /api/social-media/:id`. */
  function GetSocialMedia(d: Db, id: Option<int>): (r: Response)
    ensures id.None? ==> r.status == 500
    ensures id.Some? ==> (r.status == 200 <==> exists m :: m in d.socialMedia && m.id == id.value)
    ensures id.Some? && r.status != 200 ==> r.status == 404
    ensures r.status == 200 ==> r.body.SocialMediaBody? && r.body.link in d.socialMedia && Some(r.body.link.id) == id
  {
    if id.None? then Response(500, Message("Error fetching social media link"))
    else
      FindByKey(d.socialMedia, SocialMediaId, id.value);
      match GetSocialMediaById(d, id.value)
      case None => Response(404, Message("Social media link not found"))
      case Some(m) => Response(200, SocialMediaBody(m))
  }

  /** `GET /api/users` as written: the rows go out with their password hashes. */
  function GetUsersAsWritten(s: Session, d: Db): (r: Response)
    ensures Guard(s).Some? ==> r == Guard(s).value
    ensures Guard(s).None? ==> r.status == 200 && r.body == UsersBody(d.users)
  {
    if Guard(s).Some? then Guard(s).value else Response(200, UsersBody(d.users))
  }

  /** Every stored password hash reaches the administrator's browser. */
  lemma UsersLeakPasswords(s: Session, d: Db, u: User)
    requires SignedInAdmin(s) && u in d.users
    ensures GetUsersAsWritten(s, d).body.UsersBody?
    ensures exists v :: v in GetUsersAsWritten(s, d).body.users && v.password == u.password
  {
  }

  /** `GET /api/users` as intended: every user, with the password stripped as `api/users.ts` does. */
  function GetUsers(s: Session, d: Db): (r: Response)
    ensures Guard(s).Some? ==> r == Guard(s).value
    ensures Guard(s).None? ==> r.status == 200 && r.body.PublicUsersBody? && |r.body.publicUsers| == |d.users|
  {
    if Guard(s).Some? then Guard(s).value else Response(200, PublicUsersBody(Map(d.users, StripPassword)))
  }

  /** The list keeps every user's id, name, flag and role, in table order, and says nothing of the password. */
  lemma GetUsersSpec(s: Session, d: Db, password: string, i: nat)
    requires SignedInAdmin(s) && i < |d.users|
    ensures var pu := GetUsers(s, d).body.publicUsers[i];
      pu.id == d.users[i].id && pu.username == d.users[i].username && pu.isFirstLogin == d.users[i].isFirstLogin && pu.role == d.users[i].role
    ensures GetUsers(s, d.(users := d.users[i := d.users[i].(password := password)])) == GetUsers(s, d)
  {
    var d2 := d.(users := d.users[i := d.users[i].(password := password)]);
    var a := Map(d.users, StripPassword);
    var b := Map(d2.users, StripPassword);
    forall j | 0 <= j < |a| ensures a[j] == b[j] {
      if j == i {
        StripPasswordHides(d.users[i], password);
      }
    }
    assert a == b;
  }

  // ---- Writes. A guard failure changes nothing; `parseInt` failures (`None` ids) reach the catch.

  /** `POST /api/menu-items`: `body` is the parsed insert schema, `None` when parsing fails. */
  method PostMenuItem(s: Session, db: DatabaseStorage, body: Option<InsertMenuItem>, now: int) returns (r: Response)
    requires db.Valid()
    modifies db
    ensures db.Valid()
    ensures Guard(s).Some? ==> r == Guard(s).value && db.tables == old(db.tables)
    ensures Guard(s).None? && body.None? ==> r.status == 400 && db.tables == old(db.tables)
    ensures Guard(s).None? && body.Some? ==>
      r == Response(201, MenuItemBody(NewMenuItem(old(db.tables.nextId), now, body.value))) &&
      db.tables == old(db.tables).(menuItems := old(db.tables.menuItems) + [r.body.item], nextId := old(db.tables.nextId) + 1) &&
      GetMenuItemById(db.tables, r.body.item.id) == Some(r.body.item)
  {
    if Guard(s).Some? {
      return Guard(s).value;
    }
    if body.None? {
      return Response(400, Message("Invalid menu item data"));
    }
    FreshKeyFree(db.tables.menuItems, MenuItemId, db.tables.nextId);
    CreateReadsBack(db.tables.menuItems, MenuItemId, NewMenuItem(db.tables.nextId, now, body.value));
    var m := db.CreateMenuItem(body.value, now);
    r := Response(201, MenuItemBody(m));
  }

  /**
   * `PUT /api/menu-items/:id`: 404 for an unknown id, otherwise the patched row.
   * The body goes to the database unchecked; `body` is `None` for one that the
   * database refuses (a `null` in a NOT NULL column, text in a number column),
   * which the catch answers with 400. The other PUT routes read `body` alike.
   */
  method PutMenuItem(s: Session, db: DatabaseStorage, id: Option<int>, body: Option<MenuItemPatch>) returns (r: Response)
    requires db.Valid()
    modifies db
    ensures db.Valid()
    ensures Guard(s).Some? ==> r == Guard(s).value && db.tables == old(db.tables)
    ensures Guard(s).None? && id.None? ==> r.status == 400 && db.tables == old(db.tables)
    ensures Guard(s).None? && id.Some? && GetMenuItemById(old(db.tables), id.value).None? ==>
      r.status == 404 && db.tables == old(db.tables)
    ensures Guard(s).None? && id.Some? && GetMenuItemById(old(db.tables), id.value).Some? && body.None? ==>
      r.status == 400 && db.tables == old(db.tables)
    ensures Guard(s).None? && id.Some? && GetMenuItemById(old(db.tables), id.value).Some? && body.Some? ==>
      var p := body.value;
      var row := ApplyMenuItemPatch(GetMenuItemById(old(db.tables), id.value).value, p);
      r == Response(200, MenuItemBody(row)) &&
      GetMenuItemById(db.tables, id.value) == Some(row) &&
      db.tables == old(db.tables).(menuItems := old(db.tables.menuItems)[FindIndex(old(db.tables.menuItems), WithKey(MenuItemId, id.value)).value := row])
  {
    if Guard(s).Some? {
      return Guard(s).value;
    }
    if id.None? {
      return Response(400, Message("Error updating menu item"));
    }
    if GetMenuItemById(db.tables, id.value).None? {
      return Response(404, Message("Menu item not found"));
    }
    if body.None? {
      return Response(400, Message("Error updating menu item"));
    }
    var p := body.value;
    var row := ApplyMenuItemPatch(GetMenuItemById(db.tables, id.value).value, p);
    UpdateReadsBack(db.tables.menuItems, MenuItemId, id.value, row);
    var u := db.UpdateMenuItem(id.value, p);
    r := Response(200, MenuItemBody(u.value));
  }

  /** `DELETE /api/menu-items/:id`: 204 whether or not the row existed. */
  method DeleteMenuItem(s: Session, db: DatabaseStorage, id: Option<int>) returns (r: Response)
    requires db.Valid()
    modifies db
    ensures db.Valid()
    ensures Guard(s).Some? ==> r == Guard(s).value && db.tables == old(db.tables)
    ensures Guard(s).None? && id.None? ==> r.status == 500 && db.tables == old(db.tables)
    ensures Guard(s).None? && id.Some? ==>
      r == Response(204, NoContent) && GetMenuItemById(db.tables, id.value).None? &&
      db.tables == old(db.tables).(menuItems := Filter(old(db.tables.menuItems), WithoutKey(MenuItemId, id.value)))
  {
    if Guard(s).Some? {
      return Guard(s).value;
    }
    if id.None? {
      return Response(500, Message("Error deleting menu item"));
    }
    DeleteSpec(db.tables.menuItems, MenuItemId, id.value);
    db.DeleteMenuItem(id.value);
    r := Response(204, NoContent);
  }

  /** `POST /api/categories`: a parse failure or a taken slug answers 400. */
  method PostCategory(s: Session, db: DatabaseStorage, body: Option<InsertCategory>) returns (r: Response)
    requires db.Valid()
    modifies db
    ensures db.Valid()
    ensures Guard(s).Some? ==> r == Guard(s).value && db.tables == old(db.tables)
    ensures Guard(s).None? && (body.None? || KeyTaken(old(db.tables.categories), CategorySlug, body.value.slug)) ==>
      r.status == 400 && db.tables == old(db.tables)
    ensures Guard(s).None? && body.Some? && !KeyTaken(old(db.tables.categories), CategorySlug, body.value.slug) ==>
      r == Response(201, CategoryBody(Category(old(db.tables.nextId), body.value.name, body.value.slug))) &&
      GetCategoryById(db.tables, old(db.tables.nextId)) == Some(r.body.category) &&
      db.tables == old(db.tables).(categories := old(db.tables.categories) + [r.body.category], nextId := old(db.tables.nextId) + 1)
  {
    if Guard(s).Some? {
      return Guard(s).value;
    }
    if body.None? {
      return Response(400, Message("Invalid category data"));
    }
    FreshKeyFree(db.tables.categories, CategoryId, db.tables.nextId);
    CreateReadsBack(db.tables.categories, CategoryId, Category(db.tables.nextId, body.value.name, body.value.slug));
    var c := db.CreateCategory(body.value);
    if c.Ok? {
      r := Response(201, CategoryBody(c.value));
    } else {
      r := Response(400, Message("Invalid category data"));
    }
  }

  /** `PUT /api/categories/:id`: 404 for an unknown id; a slug another category has answers 400. */
  method PutCategory(s: Session, db: DatabaseStorage, id: Option<int>, body: Option<CategoryPatch>) returns (r: Response)
    requires db.Valid()
    modifies db
    ensures db.Valid()
    ensures Guard(s).Some? ==> r == Guard(s).value && db.tables == old(db.tables)
    ensures Guard(s).None? && id.None? ==> r.status == 400 && db.tables == old(db.tables)
    ensures Guard(s).None? && id.Some? && GetCategoryById(old(db.tables), id.value).None? ==>
      r.status == 404 && db.tables == old(db.tables)
    ensures Guard(s).None? && id.Some? && GetCategoryById(old(db.tables), id.value).Some? && body.None? ==>
      r.status == 400 && db.tables == old(db.tables)
    ensures Guard(s).None? && id.Some? && GetCategoryById(old(db.tables), id.value).Some? && body.Some? ==>
      var p := body.value;
      var k := FindIndex(old(db.tables.categories), WithKey(CategoryId, id.value)).value;
      var row := ApplyCategoryPatch(old(db.tables.categories)[k], p);
      (KeyTakenElsewhere(old(db.tables.categories), CategorySlug, k, row.slug) ==> r.status == 400 && db.tables == old(db.tables)) &&
      (!KeyTakenElsewhere(old(db.tables.categories), CategorySlug, k, row.slug) ==>
        r == Response(200, CategoryBody(row)) && GetCategoryById(db.tables, id.value) == Some(row) &&
        db.tables == old(db.tables).(categories := old(db.tables.categories)[k := row]))
  {
    if Guard(s).Some? {
      return Guard(s).value;
    }
    if id.None? {
      return Response(400, Message("Error updating category"));
    }
    if GetCategoryById(db.tables, id.value).None? {
      return Response(404, Message("Category not found"));
    }
    if body.None? {
      return Response(400, Message("Error updating category"));
    }
    var p := body.value;
    var row := ApplyCategoryPatch(GetCategoryById(db.tables, id.value).value, p);
    UpdateReadsBack(db.tables.categories, CategoryId, id.value, row);
    var u := db.UpdateCategory(id.value, p);
    if u.Ok? {
      r := Response(200, CategoryBody(u.value));
    } else {
      r := Response(400, Message("Error updating category"));
    }
  }

  /** `DELETE /api/categories/:id`: the dishes of the category keep their `categoryId`. */
  method DeleteCategory(s: Session, db: DatabaseStorage, id: Option<int>) returns (r: Response)
    requires db.Valid()
    modifies db
    ensures db.Valid()
    ensures Guard(s).Some? ==> r == Guard(s).value && db.tables == old(db.tables)
    ensures Guard(s).None? && id.None? ==> r.status == 500 && db.tables == old(db.tables)
    ensures Guard(s).None? && id.Some? ==>
      r == Response(204, NoContent) && GetCategoryById(db.tables, id.value).None? &&
      db.tables == old(db.tables).(categories := Filter(old(db.tables.categories), WithoutKey(CategoryId, id.value)))
  {
    if Guard(s).Some? {
      return Guard(s).value;
    }
    if id.None? {
      return Response(500, Message("Error deleting category"));
    }
    DeleteSpec(db.tables.categories, CategoryId, id.value);
    db.DeleteCategory(id.value);
    r := Response(204, NoContent);
  }

  /** `POST /api/staff`. */
  method PostStaff(s: Session, db: DatabaseStorage, body: Option<InsertStaff>) returns (r: Response)
    requires db.Valid()
    modifies db
    ensures db.Valid()
    ensures Guard(s).Some? ==> r == Guard(s).value && db.tables == old(db.tables)
    ensures Guard(s).None? && body.None? ==> r.status == 400 && db.tables == old(db.tables)
    ensures Guard(s).None? && body.Some? ==>
      var b := body.value;
      r == Response(201, StaffBody(Staff(old(db.tables.nextId), b.name, b.position, b.bio, b.image))) &&
      GetStaffMemberById(db.tables, old(db.tables.nextId)) == Some(r.body.member) &&
      db.tables == old(db.tables).(staff := old(db.tables.staff) + [r.body.member], nextId := old(db.tables.nextId) + 1)
  {
    if Guard(s).Some? {
      return Guard(s).value;
    }
    if body.None? {
      return Response(400, Message("Invalid staff member data"));
    }
    var b := body.value;
    FreshKeyFree(db.tables.staff, StaffId, db.tables.nextId);
    CreateReadsBack(db.tables.staff, StaffId, Staff(db.tables.nextId, b.name, b.position, b.bio, b.image));
    var m := db.CreateStaffMember(b);
    r := Response(201, StaffBody(m));
  }

  /** `PUT /api/staff/:id`. */
  method PutStaff(s: Session, db: DatabaseStorage, id: Option<int>, body: Option<StaffPatch>) returns (r: Response)
    requires db.Valid()
    modifies db
    ensures db.Valid()
    ensures Guard(s).Some? ==> r == Guard(s).value && db.tables == old(db.tables)
    ensures Guard(s).None? && id.None? ==> r.status == 400 && db.tables == old(db.tables)
    ensures Guard(s).None? && id.Some? && GetStaffMemberById(old(db.tables), id.value).None? ==>
      r.status == 404 && db.tables == old(db.tables)
    ensures Guard(s).None? && id.Some? && GetStaffMemberById(old(db.tables), id.value).Some? && body.None? ==>
      r.status == 400 && db.tables == old(db.tables)
    ensures Guard(s).None? && id.Some? && GetStaffMemberById(old(db.tables), id.value).Some? && body.Some? ==>
      var p := body.value;
      var row := ApplyStaffPatch(GetStaffMemberById(old(db.tables), id.value).value, p);
      r == Response(200, StaffBody(row)) && GetStaffMemberById(db.tables, id.value) == Some(row) &&
      db.tables == old(db.tables).(staff := old(db.tables.staff)[FindIndex(old(db.tables.staff), WithKey(StaffId, id.value)).value := row])
  {
    if Guard(s).Some? {
      return Guard(s).value;
    }
    if id.None? {
      return Response(400, Message("Error updating staff member"));
    }
    if GetStaffMemberById(db.tables, id.value).None? {
      return Response(404, Message("Staff member not found"));
    }
    if body.None? {
      return Response(400, Message("Error updating staff member"));
    }
    var p := body.value;
    var row := ApplyStaffPatch(GetStaffMemberById(db.tables, id.value).value, p);
    UpdateReadsBack(db.tables.staff, StaffId, id.value, row);
    var u := db.UpdateStaffMember(id.value, p);
    r := Response(200, StaffBody(u.value));
  }

  /** `DELETE /api/staff/:id`. */
  method DeleteStaff(s: Session, db: DatabaseStorage, id: Option<int>) returns (r: Response)
    requires db.Valid()
    modifies db
    ensures db.Valid()
    ensures Guard(s).Some? ==> r == Guard(s).value && db.tables == old(db.tables)
    ensures Guard(s).None? && id.None? ==> r.status == 500 && db.tables == old(db.tables)
    ensures Guard(s).None? && id.Some? ==>
      r == Response(204, NoContent) && GetStaffMemberById(db.tables, id.value).None? &&
      db.tables == old(db.tables).(staff := Filter(old(db.tables.staff), WithoutKey(StaffId, id.value)))
  {
    if Guard(s).Some? {
      return Guard(s).value;
    }
    if id.None? {
      return Response(500, Message("Error deleting staff member"));
    }
    DeleteSpec(db.tables.staff, StaffId, id.value);
    db.DeleteStaffMember(id.value);
    r := Response(204, NoContent);
  }

  /** `PUT /api/settings/:key`: a missing or empty value answers 400; otherwise the upsert. */
  method PutSetting(s: Session, db: DatabaseStorage, key: string, value: Option<string>) returns (r: Response)
    requires db.Valid()
    modifies db
    ensures db.Valid()
    ensures Guard(s).Some? ==> r == Guard(s).value && db.tables == old(db.tables)
    ensures Guard(s).None? && (value.None? || value.value == "") ==> r.status == 400 && db.tables == old(db.tables)
    ensures Guard(s).None? && value.Some? && value.value != "" ==>
      r.status == 200 && r.body.SettingBody? && r.body.setting.key == key && r.body.setting.value == value.value &&
      db.tables == WithSetting(old(db.tables), key, value.value) &&
      GetSetting(db.tables, key) == value &&
      GetSettingByKey(db.tables, key) == Response(200, KeyValueBody(key, value.value))
  {
    if Guard(s).Some? {
      return Guard(s).value;
    }
    if value.None? || value.value == "" {
      return Response(400, Message("Value is required"));
    }
    UpsertSettingSpec(db.tables.settings, key, value.value, db.tables.nextId, key);
    var setting := db.UpdateSetting(key, value.value);
    r := Response(200, SettingBody(setting));
  }

  /** `PUT /api/location`: a body the database refuses, or an insert that misses a column, answers 500. */
  method PutLocation(s: Session, db: DatabaseStorage, body: Option<LocationPatch>) returns (r: Response)
    requires db.Valid()
    modifies db
    ensures db.Valid()
    ensures Guard(s).Some? ==> r == Guard(s).value && db.tables == old(db.tables)
    ensures Guard(s).None? && body.None? ==> r.status == 500 && db.tables == old(db.tables)
    ensures Guard(s).None? && body.Some? && old(db.tables.locations) != [] ==>
      r == Response(200, LocationBody(ApplyLocationPatch(old(db.tables.locations)[0], body.value))) &&
      GetLocation(db.tables) == Some(r.body.location) &&
      db.tables == old(db.tables).(locations := [r.body.location])
    ensures Guard(s).None? && body.Some? && old(db.tables.locations) == [] && LocationFromPatch(old(db.tables.nextId), body.value).None? ==>
      r.status == 500 && db.tables == old(db.tables)
    ensures Guard(s).None? && body.Some? && old(db.tables.locations) == [] && LocationFromPatch(old(db.tables.nextId), body.value).Some? ==>
      r == Response(200, LocationBody(LocationFromPatch(old(db.tables.nextId), body.value).value)) &&
      GetLocation(db.tables) == Some(r.body.location) &&
      db.tables == old(db.tables).(locations := [r.body.location], nextId := old(db.tables.nextId) + 1)
  {
    if Guard(s).Some? {
      return Guard(s).value;
    }
    if body.None? {
      return Response(500, Message("Error updating location"));
    }
    var u := db.UpdateLocation(body.value);
    if u.Ok? {
      r := Response(200, LocationBody(u.value));
    } else {
      r := Response(500, Message("Error updating location"));
    }
  }

  /** `POST /api/social-media`. */
  method PostSocialMedia(s: Session, db: DatabaseStorage, body: Option<InsertSocialMedia>) returns (r: Response)
    requires db.Valid()
    modifies db
    ensures db.Valid()
    ensures Guard(s).Some? ==> r == Guard(s).value && db.tables == old(db.tables)
    ensures Guard(s).None? && body.None? ==> r.status == 400 && db.tables == old(db.tables)
    ensures Guard(s).None? && body.Some? ==>
      r == Response(201, SocialMediaBody(NewSocialMedia(old(db.tables.nextId), body.value))) &&
      GetSocialMediaById(db.tables, old(db.tables.nextId)) == Some(r.body.link) &&
      db.tables == old(db.tables).(socialMedia := old(db.tables.socialMedia) + [r.body.link], nextId := old(db.tables.nextId) + 1)
  {
    if Guard(s).Some? {
      return Guard(s).value;
    }
    if body.None? {
      return Response(400, Message("Invalid social media data"));
    }
    FreshKeyFree(db.tables.socialMedia, SocialMediaId, db.tables.nextId);
    CreateReadsBack(db.tables.socialMedia, SocialMediaId, NewSocialMedia(db.tables.nextId, body.value));
    var m := db.CreateSocialMedia(body.value);
    r := Response(201, SocialMediaBody(m));
  }

  /** `PUT /api/social-media/:id`. */
  method PutSocialMedia(s: Session, db: DatabaseStorage, id: Option<int>, body: Option<SocialMediaPatch>) returns (r: Response)
    requires db.Valid()
    modifies db
    ensures db.Valid()
    ensures Guard(s).Some? ==> r == Guard(s).value && db.tables == old(db.tables)
    ensures Guard(s).None? && id.None? ==> r.status == 400 && db.tables == old(db.tables)
    ensures Guard(s).None? && id.Some? && GetSocialMediaById(old(db.tables), id.value).None? ==>
      r.status == 404 && db.tables == old(db.tables)
    ensures Guard(s).None? && id.Some? && GetSocialMediaById(old(db.tables), id.value).Some? && body.None? ==>
      r.status == 400 && db.tables == old(db.tables)
    ensures Guard(s).None? && id.Some? && GetSocialMediaById(old(db.tables), id.value).Some? && body.Some? ==>
      var p := body.value;
      var row := ApplySocialMediaPatch(GetSocialMediaById(old(db.tables), id.value).value, p);
      r == Response(200, SocialMediaBody(row)) && GetSocialMediaById(db.tables, id.value) == Some(row) &&
      db.tables == old(db.tables).(socialMedia := old(db.tables.socialMedia)[FindIndex(old(db.tables.socialMedia), WithKey(SocialMediaId, id.value)).value := row])
  {
    if Guard(s).Some? {
      return Guard(s).value;
    }
    if id.None? {
      return Response(400, Message("Error updating social media link"));
    }
    if GetSocialMediaById(db.tables, id.value).None? {
      return Response(404, Message("Social media link not found"));
    }
    if body.None? {
      return Response(400, Message("Error updating social media link"));
    }
    var p := body.value;
    var row := ApplySocialMediaPatch(GetSocialMediaById(db.tables, id.value).value, p);
    UpdateReadsBack(db.tables.socialMedia, SocialMediaId, id.value, row);
    var u := db.UpdateSocialMedia(id.value, p);
    r := Response(200, SocialMediaBody(u.value));
  }

  /** `DELETE /api/social-media/:id`. */
  method DeleteSocialMedia(s: Session, db: DatabaseStorage, id: Option<int>) returns (r: Response)
    requires db.Valid()
    modifies db
    ensures db.Valid()
    ensures Guard(s).Some? ==> r == Guard(s).value && db.tables == old(db.tables)
    ensures Guard(s).None? && id.None? ==> r.status == 500 && db.tables == old(db.tables)
    ensures Guard(s).None? && id.Some? ==>
      r == Response(204, NoContent) && GetSocialMediaById(db.tables, id.value).None? &&
      db.tables == old(db.tables).(socialMedia := Filter(old(db.tables.socialMedia), WithoutKey(SocialMediaId, id.value)))
  {
    if Guard(s).Some? {
      return Guard(s).value;
    }
    if id.None? {
      return Response(500, Message("Error deleting social media link"));
    }
    DeleteSpec(db.tables.socialMedia, SocialMediaId, id.value);
    db.DeleteSocialMedia(id.value);
    r := Response(204, NoContent);
  }

  /**
   * `POST /api/users`: a taken username answers 400; otherwise a first-login
   * administrator with the hashed password, returned without it.
   * `hashed` is `hashPassword(password)`, `None` when it throws (a body
   * without a usable password), which the catch answers with 400.
   */
  method PostUser(s: Session, db: DatabaseStorage, username: string, hashed: Option<string>) returns (r: Response)
    requires db.Valid()
    modifies db
    ensures db.Valid()
    ensures Guard(s).Some? ==> r == Guard(s).value && db.tables == old(db.tables)
    ensures Guard(s).None? && GetUserByUsername(old(db.tables), username).Some? ==>
      r.status == 400 && db.tables == old(db.tables)
    ensures Guard(s).None? && GetUserByUsername(old(db.tables), username).None? && hashed.None? ==>
      r.status == 400 && db.tables == old(db.tables)
    ensures Guard(s).None? && GetUserByUsername(old(db.tables), username).None? && hashed.Some? ==>
      var u := User(old(db.tables.nextId), username, hashed.value, true, "admin");
      r == Response(201, PublicUserBody(StripPassword(u))) &&
      GetUserByUsername(db.tables, username) == Some(u) &&
      db.tables == old(db.tables).(users := old(db.tables.users) + [u], nextId := old(db.tables.nextId) + 1)
  {
    if Guard(s).Some? {
      return Guard(s).value;
    }
    if GetUserByUsername(db.tables, username).Some? {
      return Response(400, Message("Username already exists"));
    }
    if hashed.None? {
      return Response(400, Message("Error creating user"));
    }
    var u := User(db.tables.nextId, username, hashed.value, true, "admin");
    NameFreeWhenNotFound(db.tables.users, username);
    NamedUserReadsBack(db.tables.users, u);
    var created := db.CreateUser(InsertUser(username, hashed.value, Some(true), Some("admin")));
    r := Response(201, PublicUserBody(StripPassword(created.value)));
  }

  /** A username the lookup does not find is not taken. */
  lemma NameFreeWhenNotFound(users: seq<User>, name: string)
    requires Find(users, UserNamed(name)).None?
    ensures !KeyTaken(users, UserName, name)
  {
    forall j | 0 <= j < |users| ensures UserName(users[j]) != name {
      assert users[j] in users;
      assert !UserNamed(name)(users[j]);
    }
  }

  /** A user appended under a free name is the one the lookup by that name finds. */
  lemma NamedUserReadsBack(users: seq<User>, u: User)
    requires !KeyTaken(users, UserName, u.username)
    ensures Find(users + [u], UserNamed(u.username)) == Some(u)
  {
    var t := users + [u];
    forall j | 0 <= j < |users| ensures !UserNamed(u.username)(t[j]) {
      assert t[j] == users[j];
      assert UserName(users[j]) != u.username;
    }
    assert UserNamed(u.username)(t[|users|]);
    assert FindIndex(t, UserNamed(u.username)) == Some(|users|);
  }

  /** The patch `reset-password` sends: the new hash, and the user must change it at next login. */
  function ResetPatch(hashed: string): UserPatch {
    UserPatch(None, Some(hashed), Some(true), None)
  }

  /**
   * `POST /api/users/:id/reset-password`: a missing or empty password answers
   * 400 before the id is looked at; an unknown id answers 404.
   */
  method ResetPassword(s: Session, db: DatabaseStorage, id: Option<int>, password: Option<string>, hashed: string) returns (r: Response)
    requires db.Valid()
    modifies db
    ensures db.Valid()
    ensures Guard(s).Some? ==> r == Guard(s).value && db.tables == old(db.tables)
    ensures Guard(s).None? && (password.None? || password.value == "") ==> r.status == 400 && db.tables == old(db.tables)
    ensures Guard(s).None? && password.Some? && password.value != "" && id.None? ==> r.status == 500 && db.tables == old(db.tables)
    ensures Guard(s).None? && password.Some? && password.value != "" && id.Some? && GetUser(old(db.tables), id.value).None? ==>
      r.status == 404 && db.tables == old(db.tables)
    ensures Guard(s).None? && password.Some? && password.value != "" && id.Some? && GetUser(old(db.tables), id.value).Some? ==>
      var old_u := GetUser(old(db.tables), id.value).value;
      r.status == 200 &&
      GetUser(db.tables, id.value) == Some(old_u.(password := hashed, isFirstLogin := true)) &&
      db.tables == old(db.tables).(users := old(db.tables.users)[FindIndex(old(db.tables.users), WithKey(UserId, id.value)).value := old_u.(password := hashed, isFirstLogin := true)])
  {
    if Guard(s).Some? {
      return Guard(s).value;
    }
    if password.None? || password.value == "" {
      return Response(400, Message("Password is required"));
    }
    if id.None? {
      return Response(500, Message("Error resetting password"));
    }
    if GetUser(db.tables, id.value).None? {
      return Response(404, Message("User not found"));
    }
    var k := FindIndex(db.tables.users, WithKey(UserId, id.value)).value;
    var row := ApplyUserPatch(db.tables.users[k], ResetPatch(hashed));
    assert row == db.tables.users[k].(password := hashed, isFirstLogin := true);
    OwnKeyNotElsewhere(db.tables.users, UserName, k);
    UpdateReadsBack(db.tables.users, UserId, id.value, row);
    var u := db.UpdateUser(id.value, ResetPatch(hashed));
    r := Response(200, Message("Password reset successful"));
  }

  /**
   * `DELETE /api/users/:id`: an unknown id answers 404 and the user named
   * "admin" cannot be deleted (400). No call removes that user.
   */
  method DeleteUser(s: Session, db: DatabaseStorage, id: Option<int>) returns (r: Response)
    requires db.Valid()
    modifies db
    ensures db.Valid()
    ensures Guard(s).Some? ==> r == Guard(s).value && db.tables == old(db.tables)
    ensures Guard(s).None? && id.None? ==> r.status == 500 && db.tables == old(db.tables)
    ensures Guard(s).None? && id.Some? && GetUser(old(db.tables), id.value).None? ==> r.status == 404 && db.tables == old(db.tables)
    ensures Guard(s).None? && id.Some? && GetUser(old(db.tables), id.value).Some? && GetUser(old(db.tables), id.value).value.username == "admin" ==>
      r.status == 400 && db.tables == old(db.tables)
    ensures Guard(s).None? && id.Some? && GetUser(old(db.tables), id.value).Some? && GetUser(old(db.tables), id.value).value.username != "admin" ==>
      r.status == 200 && GetUser(db.tables, id.value).None? &&
      db.tables == old(db.tables).(users := Filter(old(db.tables.users), WithoutKey(UserId, id.value)))
    ensures forall u :: u in old(db.tables.users) && u.username == "admin" ==> u in db.tables.users
  {
    if Guard(s).Some? {
      return Guard(s).value;
    }
    if id.None? {
      return Response(500, Message("Error deleting user"));
    }
    var found := GetUser(db.tables, id.value);
    if found.None? {
      return Response(404, Message("User not found"));
    }
    if found.value.username == "admin" {
      return Response(400, Message("Cannot delete default admin user"));
    }
    OnlyRowWithId(db.tables.users, id.value);
    DeleteSpec(db.tables.users, UserId, id.value);
    db.DeleteUser(id.value);
    r := Response(200, Message("User deleted successfully"));
  }

  /** With unique ids, the user the lookup finds is the only row with that id. */
  lemma OnlyRowWithId(users: seq<User>, id: int)
    requires UniqueBy(users, UserId) && Find(users, WithKey(UserId, id)).Some?
    ensures forall u :: u in users && u.id == id ==> u == Find(users, WithKey(UserId, id)).value
  {
    var k := FindIndex(users, WithKey(UserId, id)).value;
    forall u | u in users && u.id == id ensures u == users[k] {
      var a :| 0 <= a < |users| && users[a] == u;
      assert !(a < k) && !(k < a) by {
        assert UserId(users[a]) == UserId(users[k]);
      }
    }
  }
}
