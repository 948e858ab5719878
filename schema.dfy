// shared/schema.ts: the rows of every table, the column defaults applied on
// insert, the partial updates `db.update(..).set(updates)` performs, and the
// `unique` columns.
module Schema {
  import opened Wrappers
  import opened Seqs

  // Prices are `doublePrecision` in the database; the model keeps them as
  // whole cents. Timestamps are opaque numbers.

  datatype User = User(id: int, username: string, password: string, isFirstLogin: bool, role: string)

  /** The insert schema picks username and password; the flag and role fall back to column defaults. */
  datatype InsertUser = InsertUser(username: string, password: string, isFirstLogin: Option<bool>, role: Option<string>)

  /** A user as it leaves the server once the `password` field is stripped. */
  datatype PublicUser = PublicUser(id: int, username: string, isFirstLogin: bool, role: string)

  datatype Setting = Setting(id: int, key: string, value: string)

  datatype Category = Category(id: int, name: string, slug: string)

  datatype InsertCategory = InsertCategory(name: string, slug: string)

  datatype MenuItem = MenuItem(
    id: int, name: string, description: string, price: int, image: string, ingredients: string,
    categoryId: Option<int>, isAvailable: bool, isFeatured: bool, createdAt: int)

  datatype InsertMenuItem = InsertMenuItem(
    name: string, description: string, price: int, image: string, ingredients: string,
    categoryId: Option<int>, isAvailable: Option<bool>, isFeatured: Option<bool>)

  datatype Staff = Staff(id: int, name: string, position: string, bio: string, image: string)

  datatype InsertStaff = InsertStaff(name: string, position: string, bio: string, image: string)

  datatype Location = Location(id: int, address: string, phone: string, email: string, mapCoordinates: string, hours: string)

  datatype SocialMedia = SocialMedia(id: int, name: string, url: string, icon: string, isActive: bool)

  datatype InsertSocialMedia = InsertSocialMedia(name: string, url: string, icon: string, isActive: Option<bool>)

  datatype Reservation = Reservation(
    id: int, name: string, email: string, phone: string, date: string, time: string,
    guests: int, message: Option<string>, status: string, createdAt: Option<int>)

  /** The insert schema omits only `id` and `createdAt`, so `status` may be supplied. */
  datatype InsertReservation = InsertReservation(
    name: string, email: string, phone: string, date: string, time: string,
    guests: int, message: Option<string>, status: Option<string>)

  // Column keys, named so that uniqueness predicates over them mention the same terms.

  function UserId(u: User): int { u.id }
  function UserName(u: User): string { u.username }
  function SettingId(s: Setting): int { s.id }
  function SettingKey(s: Setting): string { s.key }
  function CategoryId(c: Category): int { c.id }
  function CategorySlug(c: Category): string { c.slug }
  function MenuItemId(m: MenuItem): int { m.id }
  function StaffId(s: Staff): int { s.id }
  function LocationId(l: Location): int { l.id }
  function SocialMediaId(s: SocialMedia): int { s.id }

  /** An inserted user: `isFirstLogin` defaults to true and `role` to "admin". */
  function NewUser(id: int, u: InsertUser): (r: User)
    ensures r.id == id && r.username == u.username && r.password == u.password
    ensures u.isFirstLogin.None? ==> r.isFirstLogin
    ensures u.isFirstLogin.Some? ==> r.isFirstLogin == u.isFirstLogin.value
    ensures u.role.None? ==> r.role == "admin"
    ensures u.role.Some? ==> r.role == u.role.value
  {
    User(id, u.username, u.password, u.isFirstLogin.GetOr(true), u.role.GetOr("admin"))
  }

  /** An inserted menu item: available and not featured unless stated; `categoryId` may stay null. */
  function NewMenuItem(id: int, createdAt: int, m: InsertMenuItem): (r: MenuItem)
    ensures r.id == id && r.createdAt == createdAt && r.categoryId == m.categoryId
    ensures r.name == m.name && r.description == m.description && r.price == m.price
    ensures r.image == m.image && r.ingredients == m.ingredients
    ensures m.isAvailable.None? ==> r.isAvailable
    ensures m.isFeatured.None? ==> !r.isFeatured
    ensures m.isAvailable.Some? ==> r.isAvailable == m.isAvailable.value
    ensures m.isFeatured.Some? ==> r.isFeatured == m.isFeatured.value
  {
    MenuItem(id, m.name, m.description, m.price, m.image, m.ingredients, m.categoryId,
             m.isAvailable.GetOr(true), m.isFeatured.GetOr(false), createdAt)
  }

  /** An inserted social-media link is active unless stated otherwise. */
  function NewSocialMedia(id: int, s: InsertSocialMedia): (r: SocialMedia)
    ensures r.id == id && r.name == s.name && r.url == s.url && r.icon == s.icon
    ensures s.isActive.None? ==> r.isActive
    ensures s.isActive.Some? ==> r.isActive == s.isActive.value
  {
    SocialMedia(id, s.name, s.url, s.icon, s.isActive.GetOr(true))
  }

  /** An inserted reservation: `status` defaults to "pending", but a supplied one is kept. */
  function NewReservation(id: int, createdAt: int, r: InsertReservation): (res: Reservation)
    ensures res.id == id && res.createdAt == Some(createdAt)
    ensures res.name == r.name && res.email == r.email && res.phone == r.phone
    ensures res.date == r.date && res.time == r.time && res.guests == r.guests && res.message == r.message
    ensures r.status.None? ==> res.status == "pending"
    ensures r.status.Some? ==> res.status == r.status.value
  {
    Reservation(id, r.name, r.email, r.phone, r.date, r.time, r.guests, r.message, r.status.GetOr("pending"), Some(createdAt))
  }

  /** A client asking for a confirmed reservation gets one: the insert schema does not force "pending". */
  lemma ClientStatusAccepted(id: int, createdAt: int, r: InsertReservation, status: string)
    requires r.status == Some(status)
    ensures NewReservation(id, createdAt, r).status == status
  {
  }

  /** `const { password, ...rest } = user`. */
  function StripPassword(u: User): (r: PublicUser)
    ensures r.id == u.id && r.username == u.username && r.isFirstLogin == u.isFirstLogin && r.role == u.role
  {
    PublicUser(u.id, u.username, u.isFirstLogin, u.role)
  }

  /** Two users that differ only in their password look the same once stripped. */
  lemma StripPasswordHides(u: User, password: string)
    ensures StripPassword(u.(password := password)) == StripPassword(u)
  {
  }

  // Partial updates: a `Some` field is overwritten, a `None` field is kept.
  // The primary key is never part of a patch.

  datatype UserPatch = UserPatch(username: Option<string>, password: Option<string>, isFirstLogin: Option<bool>, role: Option<string>)

  datatype MenuItemPatch = MenuItemPatch(
    name: Option<string>, description: Option<string>, price: Option<int>, image: Option<string>,
    ingredients: Option<string>, categoryId: Option<Option<int>>, isAvailable: Option<bool>, isFeatured: Option<bool>)

  datatype CategoryPatch = CategoryPatch(name: Option<string>, slug: Option<string>)

  datatype StaffPatch = StaffPatch(name: Option<string>, position: Option<string>, bio: Option<string>, image: Option<string>)

  datatype LocationPatch = LocationPatch(
    address: Option<string>, phone: Option<string>, email: Option<string>, mapCoordinates: Option<string>, hours: Option<string>)

  datatype SocialMediaPatch = SocialMediaPatch(name: Option<string>, url: Option<string>, icon: Option<string>, isActive: Option<bool>)

  function ApplyUserPatch(u: User, p: UserPatch): (r: User)
    ensures r.id == u.id
    ensures p == UserPatch(None, None, None, None) ==> r == u
    ensures r.username == (if p.username.Some? then p.username.value else u.username)
    ensures r.password == (if p.password.Some? then p.password.value else u.password)
    ensures r.isFirstLogin == (if p.isFirstLogin.Some? then p.isFirstLogin.value else u.isFirstLogin)
    ensures r.role == (if p.role.Some? then p.role.value else u.role)
  {
    User(u.id, p.username.GetOr(u.username), p.password.GetOr(u.password), p.isFirstLogin.GetOr(u.isFirstLogin), p.role.GetOr(u.role))
  }

  function ApplyMenuItemPatch(m: MenuItem, p: MenuItemPatch): (r: MenuItem)
    ensures r.id == m.id && r.createdAt == m.createdAt
    ensures p == MenuItemPatch(None, None, None, None, None, None, None, None) ==> r == m
    ensures r.isAvailable == (if p.isAvailable.Some? then p.isAvailable.value else m.isAvailable)
    ensures r.isFeatured == (if p.isFeatured.Some? then p.isFeatured.value else m.isFeatured)
    ensures r.categoryId == (if p.categoryId.Some? then p.categoryId.value else m.categoryId)
    ensures r.name == (if p.name.Some? then p.name.value else m.name)
    ensures r.description == (if p.description.Some? then p.description.value else m.description)
    ensures r.price == (if p.price.Some? then p.price.value else m.price)
    ensures r.image == (if p.image.Some? then p.image.value else m.image)
    ensures r.ingredients == (if p.ingredients.Some? then p.ingredients.value else m.ingredients)
  {
    MenuItem(m.id, p.name.GetOr(m.name), p.description.GetOr(m.description), p.price.GetOr(m.price),
             p.image.GetOr(m.image), p.ingredients.GetOr(m.ingredients), p.categoryId.GetOr(m.categoryId),
             p.isAvailable.GetOr(m.isAvailable), p.isFeatured.GetOr(m.isFeatured), m.createdAt)
  }

  function ApplyCategoryPatch(c: Category, p: CategoryPatch): (r: Category)
    ensures r.id == c.id
    ensures r.name == (if p.name.Some? then p.name.value else c.name)
    ensures r.slug == (if p.slug.Some? then p.slug.value else c.slug)
  {
    Category(c.id, p.name.GetOr(c.name), p.slug.GetOr(c.slug))
  }

  function ApplyStaffPatch(s: Staff, p: StaffPatch): (r: Staff)
    ensures r.id == s.id
    ensures p == StaffPatch(None, None, None, None) ==> r == s
    ensures r.name == (if p.name.Some? then p.name.value else s.name)
    ensures r.position == (if p.position.Some? then p.position.value else s.position)
    ensures r.bio == (if p.bio.Some? then p.bio.value else s.bio)
    ensures r.image == (if p.image.Some? then p.image.value else s.image)
  {
    Staff(s.id, p.name.GetOr(s.name), p.position.GetOr(s.position), p.bio.GetOr(s.bio), p.image.GetOr(s.image))
  }

  function ApplyLocationPatch(l: Location, p: LocationPatch): (r: Location)
    ensures r.id == l.id
    ensures p == LocationPatch(None, None, None, None, None) ==> r == l
    ensures r.address == (if p.address.Some? then p.address.value else l.address)
    ensures r.phone == (if p.phone.Some? then p.phone.value else l.phone)
    ensures r.email == (if p.email.Some? then p.email.value else l.email)
    ensures r.mapCoordinates == (if p.mapCoordinates.Some? then p.mapCoordinates.value else l.mapCoordinates)
    ensures r.hours == (if p.hours.Some? then p.hours.value else l.hours)
  {
    Location(l.id, p.address.GetOr(l.address), p.phone.GetOr(l.phone), p.email.GetOr(l.email),
             p.mapCoordinates.GetOr(l.mapCoordinates), p.hours.GetOr(l.hours))
  }

  /**
   * Inserting a location from a partial body: every column is `notNull` with
   * no default, so the insert fails unless each one is supplied.
   */
  function LocationFromPatch(id: int, p: LocationPatch): (r: Option<Location>)
    ensures r.Some? <==> p.address.Some? && p.phone.Some? && p.email.Some? && p.mapCoordinates.Some? && p.hours.Some?
    ensures r.Some? ==> r.value.id == id && r.value.address == p.address.value && r.value.phone == p.phone.value
    ensures r.Some? ==> r.value.email == p.email.value && r.value.mapCoordinates == p.mapCoordinates.value && r.value.hours == p.hours.value
  {
    if p.address.Some? && p.phone.Some? && p.email.Some? && p.mapCoordinates.Some? && p.hours.Some? then
      Some(Location(id, p.address.value, p.phone.value, p.email.value, p.mapCoordinates.value, p.hours.value))
    else None
  }

  function ApplySocialMediaPatch(s: SocialMedia, p: SocialMediaPatch): (r: SocialMedia)
    ensures r.id == s.id
    ensures p == SocialMediaPatch(None, None, None, None) ==> r == s
    ensures r.isActive == (if p.isActive.Some? then p.isActive.value else s.isActive)
    ensures r.name == (if p.name.Some? then p.name.value else s.name)
    ensures r.url == (if p.url.Some? then p.url.value else s.url)
    ensures r.icon == (if p.icon.Some? then p.icon.value else s.icon)
  {
    SocialMedia(s.id, p.name.GetOr(s.name), p.url.GetOr(s.url), p.icon.GetOr(s.icon), p.isActive.GetOr(s.isActive))
  }

  /** Patching twice with the same patch is patching once. */
  lemma ApplyUserPatchIdempotent(u: User, p: UserPatch)
    ensures ApplyUserPatch(ApplyUserPatch(u, p), p) == ApplyUserPatch(u, p)
  {
  }

  /** The database constraints of the users table: unique ids and unique usernames. */
  predicate UsersOk(users: seq<User>) {
    UniqueBy(users, UserId) && UniqueBy(users, UserName)
  }

  /** The settings table: unique ids and unique keys. */
  predicate SettingsOk(settings: seq<Setting>) {
    UniqueBy(settings, SettingId) && UniqueBy(settings, SettingKey)
  }

  /** The categories table: unique ids and unique slugs. */
  predicate CategoriesOk(categories: seq<Category>) {
    UniqueBy(categories, CategoryId) && UniqueBy(categories, CategorySlug)
  }

  /** In a users table that keeps its constraints, a username names at most one user. */
  lemma UsernameNamesOneUser(users: seq<User>, u: User)
    requires UsersOk(users) && u in users
    ensures Find(users, (v: User) => v.username == u.username) == Some(u)
  {
    FindUnique(users, (v: User) => v.username == u.username, u);
  }
}
