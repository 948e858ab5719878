// client/src/pages/admin-page.tsx: the admin shell — which tab a URL opens,
// the first-login redirect, the pending-reservations badge and the restaurant
// name and logo read from the settings.
module AdminPage {
  import opened Wrappers
  import opened Seqs
  import opened Schema

  predicate IsPending(r: Reservation) { r.status == "pending" }

  /** `pendingReservations`: the pending reservations, or none before loading. */
  function PendingReservations(reservations: Option<seq<Reservation>>): seq<Reservation> {
    if reservations.Some? then Filter(reservations.value, IsPending) else []
  }

  /** The badge counts exactly the reservations whose status is "pending", in fetched order. */
  lemma PendingReservationsSpec(reservations: seq<Reservation>)
    ensures |PendingReservations(Some(reservations))| == Count(reservations, IsPending)
    ensures forall r :: r in PendingReservations(Some(reservations)) <==> r in reservations && r.status == "pending"
    ensures IsSubsequence(PendingReservations(Some(reservations)), reservations)
    ensures |PendingReservations(None)| == 0
  {
    FilterIsSubsequence(reservations, IsPending);
  }

  /** `getSettingValue`: the value of the first setting with the key, or "". */
  function SettingValue(settings: Option<seq<Setting>>, key: string): (v: string)
    ensures settings.None? ==> v == ""
    ensures settings.Some? ==>
      match FindIndex(settings.value, (s: Setting) => s.key == key)
      case None => v == ""
      case Some(k) => v == settings.value[k].value
  {
    if settings.None? then ""
    else
      match Find(settings.value, (s: Setting) => s.key == key)
      case None => ""
      case Some(s) => s.value
  }

  /** With unique keys, the value read is the one stored under the key. */
  lemma SettingValueOfStored(settings: seq<Setting>, s: Setting)
    requires SettingsOk(settings) && s in settings
    ensures SettingValue(Some(settings), s.key) == s.value
  {
    FindUnique(settings, (t: Setting) => t.key == s.key, s);
  }

  /** A missing or empty value falls back to the default. */
  function OrDefault(value: string, default: string): (r: string)
    ensures value != "" ==> r == value
    ensures value == "" ==> r == default
  {
    if value != "" then value else default
  }

  const DefaultName := "LLAMAS!"
  const DefaultLogo := "https://images.unsplash.com/photo-1656137002630-6da73c6d5b11?w=800&auto=format&fit=crop&q=60&ixlib=rb-4.0.3&ixid=M3wxMjA3fDB8MHxzZWFyY2h8NjB8fGZpcmUlMjBsb2dvfGVufDB8fDB8fHww"

  function RestaurantName(settings: Option<seq<Setting>>): string {
    OrDefault(SettingValue(settings, "restaurantName"), DefaultName)
  }

  function RestaurantLogo(settings: Option<seq<Setting>>): string {
    OrDefault(SettingValue(settings, "restaurantLogo"), DefaultLogo)
  }

  /**
   * The header never shows an empty name or logo: before the settings load,
   * or with the key missing or empty, the defaults are shown; a non-empty
   * stored value is shown as it is.
   */
  lemma HeaderNeverEmpty(settings: Option<seq<Setting>>)
    ensures RestaurantName(settings) != "" && RestaurantLogo(settings) != ""
    ensures SettingValue(settings, "restaurantName") == "" ==> RestaurantName(settings) == DefaultName
    ensures SettingValue(settings, "restaurantName") != "" ==> RestaurantName(settings) == SettingValue(settings, "restaurantName")
    ensures SettingValue(settings, "restaurantLogo") == "" ==> RestaurantLogo(settings) == DefaultLogo
    ensures SettingValue(settings, "restaurantLogo") != "" ==> RestaurantLogo(settings) == SettingValue(settings, "restaurantLogo")
  {
  }

  /** The eight sections the admin page knows. */
  const ValidSections: seq<string> := ["dashboard", "menu", "settings", "change-password", "staff", "users", "social-media", "reservations"]

  const SectionPrefix := "/admin-aut/"

  /** What the section effect does: the tab it activates and the location it moves to, if any. */
  datatype SectionOutcome = SectionOutcome(tab: string, redirect: Option<string>)

  /** `user?.isFirstLogin`. */
  predicate FirstLogin(user: Option<User>) { user.Some? && user.value.isFirstLogin }

  /**
   * The section effect: a first login is forced to the password change; a
   * known section is opened where it is; a missing, empty or unknown section
   * goes to the dashboard.
   */
  function ResolveSection(user: Option<User>, section: Option<string>): (o: SectionOutcome)
    ensures o.tab in ValidSections
    ensures o.redirect.Some? ==> o.redirect.value == SectionPrefix + o.tab
    ensures FirstLogin(user) ==> o.tab == "change-password" && o.redirect.Some?
    ensures !FirstLogin(user) && section.Some? && section.value in ValidSections ==> o == SectionOutcome(section.value, None)
    ensures !FirstLogin(user) && !(section.Some? && section.value in ValidSections) ==>
      o == SectionOutcome("dashboard", Some(SectionPrefix + "dashboard"))
  {
    if FirstLogin(user) then SectionOutcome("change-password", Some(SectionPrefix + "change-password"))
    else if section.Some? && section.value != "" then
      if section.value in ValidSections then SectionOutcome(section.value, None)
      else SectionOutcome("dashboard", Some(SectionPrefix + "dashboard"))
    else SectionOutcome("dashboard", Some(SectionPrefix + "dashboard"))
  }

  /** The admin page's state: the active tab, the browser location and the mobile menu. */
  class AdminPageState {
    var activeTab: string
    var location: string
    var mobileMenuOpen: bool

    constructor(location: string)
      ensures activeTab == "dashboard" && this.location == location && !mobileMenuOpen
    {
      activeTab := "dashboard";
      this.location := location;
      mobileMenuOpen := false;
    }

    /** The section effect, run with the signed-in user and the `:section` of the location. */
    method SectionEffect(user: Option<User>, section: Option<string>)
      modifies this
      ensures activeTab == ResolveSection(user, section).tab
      ensures location == ResolveSection(user, section).redirect.GetOr(old(location))
      ensures mobileMenuOpen == old(mobileMenuOpen)
    {
      if user.Some? && user.value.isFirstLogin {
        activeTab := "change-password";
        location := SectionPrefix + "change-password";
      } else if section.Some? && section.value != "" {
        if section.value in ValidSections {
          activeTab := section.value;
        } else {
          activeTab := "dashboard";
          location := SectionPrefix + "dashboard";
        }
      } else {
        activeTab := "dashboard";
        location := SectionPrefix + "dashboard";
      }
    }

    /** Location and tab agree: this is what the effect keeps whenever it runs on its own route. */
    predicate InSync()
      reads this
    {
      location == SectionPrefix + activeTab
    }

    /** `handleTabChange`: the tab, the location to match, and the mobile menu closed. */
    method HandleTabChange(value: string)
      modifies this
      ensures activeTab == value && location == SectionPrefix + value && !mobileMenuOpen
      ensures InSync()
    {
      activeTab := value;
      location := SectionPrefix + value;
      mobileMenuOpen := false;
    }
  }

  /**
   * Run at `/admin-aut/<section>`, the effect always leaves the location
   * naming the active tab, and the active tab is one of the eight sections.
   */
  lemma SectionEffectSyncs(user: Option<User>, section: string, location: string)
    requires location == SectionPrefix + section
    ensures var o := ResolveSection(user, Some(section));
      o.redirect.GetOr(location) == SectionPrefix + o.tab && o.tab in ValidSections
  {
  }
}
