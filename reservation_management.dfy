// client/src/components/admin/reservation-management.tsx: the WhatsApp deep
// links and messages sent to guests, the status badges, the status tabs, and
// the state of the status and delete dialogs.
module ReservationManagement {
  import opened Wrappers
  import opened Seqs
  import opened Text
  import opened Schema
  import Cart

  /** `getWhatsAppUrl`'s phone: the digits, with the Venezuelan code 58 put in front unless already there. */
  function FormatPhone(phone: string): (r: string)
    ensures forall i :: 0 <= i < |r| ==> IsDigit(r[i])
    ensures StartsWith(r, "58")
    ensures r == "58" + DigitsOnly(phone) <==> !StartsWith(DigitsOnly(phone), "58")
    ensures r == DigitsOnly(phone) <==> StartsWith(DigitsOnly(phone), "58")
  {
    var digits := DigitsOnly(phone);
    if StartsWith(digits, "58") then digits else "58" + digits
  }

  /** Formatting an already formatted phone changes nothing. */
  lemma FormatPhoneIdempotent(phone: string)
    ensures FormatPhone(FormatPhone(phone)) == FormatPhone(phone)
  {
    var f := FormatPhone(phone);
    FilterAll(f, IsDigit);
  }

  /** `getWhatsAppUrl(phone, message)`, with `encodeURIComponent` as `encode`. */
  function WhatsAppUrl(phone: string, message: string, encode: string -> string): (r: string)
    ensures r == "https://wa.me/" + FormatPhone(phone) + "?text=" + encode(message)
    ensures StartsWith(r, "https://wa.me/58")
  {
    "https://wa.me/" + FormatPhone(phone) + "?text=" + encode(message)
  }

  /**
   * The cart's order link goes to the phone's bare digits, the admin's links
   * to the formatted phone: the two recipients differ exactly when the digits
   * do not already start with 58.
   */
  lemma CartRecipientLacksCountryCode(phone: string, lines: seq<Cart.CartLine>)
    requires phone != ""
    ensures Cart.CheckoutOutcome(Some(phone), lines) ==
      Cart.OpenLink("https://wa.me/" + DigitsOnly(phone) + "?text=" + Cart.OrderMessage(lines))
    ensures FormatPhone(phone) != DigitsOnly(phone) <==> !StartsWith(DigitsOnly(phone), "58")
  {
  }

  /** "personas" for more than one guest, "persona" otherwise. */
  function GuestsWord(guests: int): (r: string)
    ensures r == "personas" <==> guests > 1
    ensures r == "persona" <==> guests <= 1
  {
    if guests > 1 then "personas" else "persona"
  }

  const ConfirmationClosing := ". Cualquier cambio, por favor avísanos con anticipación. ¡Gracias!"

  /**
   * `generateConfirmationMessage`, sent from each row's WhatsApp link;
   * `formatDay` is date-fns' `format(parseISO(date), "d 'de' MMMM")`. It greets
   * the guest by name and names the party's size with the matching word.
   */
  function ConfirmationMessage(r: Reservation, formatDay: string -> string): (m: string)
    ensures StartsWith(m, "Hola " + r.name + ", ")
    ensures Contains(m, " para " + IntToString(r.guests) + " " + GuestsWord(r.guests) + ConfirmationClosing)
  {
    var greeting := "Hola " + r.name + ", ";
    var body := "¡tu reserva en LLAMAS ha sido confirmada! Te esperamos el " + formatDay(r.date) + " a las " + r.time;
    var party := " para " + IntToString(r.guests) + " " + GuestsWord(r.guests) + ConfirmationClosing;
    var m := greeting + body + party;
    assert m[..|greeting|] == greeting;
    assert OccursAt(m, party, |greeting + body|);
    m
  }

  /** The four statuses that have a message to send. */
  predicate HasStatusMessage(status: string) {
    status == "confirmed" || status == "in-progress" || status == "completed" || status == "cancelled"
  }

  /** The text after the greeting of each status template. */
  function StatusTemplate(r: Reservation, newStatus: string, formatDay: string -> string): string
    requires HasStatusMessage(newStatus)
  {
    if newStatus == "confirmed" then
      "¡tu reserva en LLAMAS ha sido confirmada! Te esperamos el " + formatDay(r.date) + " a las " + r.time + "."
    else if newStatus == "in-progress" then
      "¡esperamos estés disfrutando tu experiencia en LLAMAS! Si necesitas algo adicional, no dudes en pedirlo a nuestro personal."
    else if newStatus == "completed" then
      "¡gracias por visitarnos en LLAMAS! Esperamos que hayas disfrutado tu experiencia. Nos encantaría recibir tus comentarios y verte nuevamente pronto."
    else
      "lamentamos informarte que tu reserva en LLAMAS para el " + formatDay(r.date) + " a las " + r.time +
      " ha sido cancelada. Para más información o para reprogramar, por favor contáctanos."
  }

  /** `generateStatusChangeMessage`: the template for the new status, or "" for any other status. */
  function StatusChangeMessage(r: Reservation, newStatus: string, formatDay: string -> string): (m: string)
    ensures m == "" <==> !HasStatusMessage(newStatus)
    ensures m != "" ==> StartsWith(m, "Hola " + r.name + ", ")
  {
    if HasStatusMessage(newStatus) then
      var greeting := "Hola " + r.name + ", ";
      var m := greeting + StatusTemplate(r, newStatus, formatDay);
      assert m[..|greeting|] == greeting;
      m
    else ""
  }

  /**
   * The row's confirmation says what the "confirmed" status message says, up
   * to its final full stop, and then adds the party's size and the closing.
   */
  lemma ConfirmationExtendsConfirmed(r: Reservation, formatDay: string -> string)
    ensures var c := StatusChangeMessage(r, "confirmed", formatDay);
      c != [] && c[|c| - 1] == '.' &&
      ConfirmationMessage(r, formatDay) == c[..|c| - 1] + (" para " + IntToString(r.guests) + " " + GuestsWord(r.guests) + ConfirmationClosing)
  {
    var greeting := "Hola " + r.name + ", ";
    var body := "¡tu reserva en LLAMAS ha sido confirmada! Te esperamos el " + formatDay(r.date) + " a las " + r.time;
    var c := StatusChangeMessage(r, "confirmed", formatDay);
    assert c == (greeting + body) + ".";
    DropLastOfAppend(greeting + body, '.');
  }

  /** Cutting the last character of `x + [c]` gives `x` back. */
  lemma DropLastOfAppend(x: string, c: char)
    ensures (x + [c])[..|x|] == x
  {
  }

  /**
   * A rendered status badge. `BlankBadge` is the badge drawn when the lookup
   * finds an inherited member instead of an entry: its `color` and `label` are
   * both undefined, so it has no class and no text.
   */
  datatype Badge = Badge(color: string, caption: string) | BlankBadge

  predicate KnownStatus(status: string) {
    status == "pending" || HasStatusMessage(status)
  }

  const PendingBadge := Badge("bg-yellow-100 text-yellow-800", "Pendiente")

  /**
   * `getStatusBadge`: `statusColors[status] || statusColors.pending`. A known
   * status gets its own badge; a key of `Object.prototype` finds a truthy
   * inherited member, which gives the blank badge; any other status falls
   * back to the pending badge.
   */
  function StatusBadge(status: string): (b: Badge)
    ensures KnownStatus(status) ==> b.Badge?
    ensures b == PendingBadge <==> status == "pending" || (!KnownStatus(status) && status !in ObjectPrototypeKeys)
    ensures b == BlankBadge <==> status in ObjectPrototypeKeys
  {
    if status == "pending" then PendingBadge
    else if status == "confirmed" then Badge("bg-blue-100 text-blue-800", "Confirmada")
    else if status == "in-progress" then Badge("bg-purple-100 text-purple-800", "En Progreso")
    else if status == "completed" then Badge("bg-green-100 text-green-800", "Completada")
    else if status == "cancelled" then Badge("bg-red-100 text-red-800", "Cancelada")
    else if status in ObjectPrototypeKeys then BlankBadge
    else PendingBadge
  }

  /** A stored status such as "constructor" or "__proto__" draws an empty badge, not the pending one. */
  lemma PrototypeStatusBlank()
    ensures StatusBadge("constructor") == BlankBadge && StatusBadge("__proto__") == BlankBadge
    ensures StatusBadge("toString") == BlankBadge && StatusBadge("unknown") == PendingBadge
  {
  }

  /** Known statuses carry different labels. */
  lemma StatusBadgeDistinct(a: string, b: string)
    requires KnownStatus(a) && KnownStatus(b) && a != b
    ensures StatusBadge(a).caption != StatusBadge(b).caption
  {
  }

  /** `filteredReservations`: everything under "all", else the reservations with that status; none before loading. */
  function TabFilter(reservations: Option<seq<Reservation>>, tab: string): seq<Reservation> {
    match reservations
    case None => []
    case Some(rs) => Filter(rs, (r: Reservation) => tab == "all" || r.status == tab)
  }

  /** Tab "all" keeps every reservation; another tab keeps exactly those with that status, in order. */
  lemma TabFilterSpec(reservations: seq<Reservation>, tab: string)
    ensures tab == "all" ==> TabFilter(Some(reservations), tab) == reservations
    ensures tab != "all" ==> forall r :: r in TabFilter(Some(reservations), tab) <==> r in reservations && r.status == tab
    ensures IsSubsequence(TabFilter(Some(reservations), tab), reservations)
    ensures TabFilter(None, tab) == []
  {
    var p := (r: Reservation) => tab == "all" || r.status == tab;
    FilterIsSubsequence(reservations, p);
    if tab == "all" {
      FilterAll(reservations, p);
    }
  }

  datatype StatusUpdate = StatusUpdate(id: int, status: string)

  /** The state of the reservations panel. */
  class ReservationPanel {
    var selectedTab: string
    var selected: Option<Reservation>
    var statusDialogOpen: bool
    var newStatus: string
    var deleteDialogOpen: bool

    constructor()
      ensures selectedTab == "all" && selected == None && newStatus == ""
      ensures !statusDialogOpen && !deleteDialogOpen
    {
      selectedTab := "all";
      selected := None;
      statusDialogOpen := false;
      newStatus := "";
      deleteDialogOpen := false;
    }

    method SelectTab(tab: string)
      modifies this
      ensures selectedTab == tab
      ensures selected == old(selected) && newStatus == old(newStatus)
      ensures statusDialogOpen == old(statusDialogOpen) && deleteDialogOpen == old(deleteDialogOpen)
    {
      selectedTab := tab;
    }

    /** `handleChangeStatus`: the dialog opens on the reservation's current status, so saving starts disabled. */
    method HandleChangeStatus(r: Reservation)
      modifies this
      ensures selected == Some(r) && newStatus == r.status && statusDialogOpen
      ensures selectedTab == old(selectedTab) && deleteDialogOpen == old(deleteDialogOpen)
      ensures SaveDisabled(false)
    {
      selected := Some(r);
      newStatus := r.status;
      statusDialogOpen := true;
    }

    /** The status dialog's `onOpenChange`, and its "Cancelar" with `false`: only the open flag follows. */
    method SetStatusDialogOpen(open: bool)
      modifies this
      ensures statusDialogOpen == open
      ensures selectedTab == old(selectedTab) && selected == old(selected) && newStatus == old(newStatus)
      ensures deleteDialogOpen == old(deleteDialogOpen)
    {
      statusDialogOpen := open;
    }

    /** The delete dialog's `onOpenChange`, and its "Cancelar" with `false`. */
    method SetDeleteDialogOpen(open: bool)
      modifies this
      ensures deleteDialogOpen == open
      ensures selectedTab == old(selectedTab) && selected == old(selected) && newStatus == old(newStatus)
      ensures statusDialogOpen == old(statusDialogOpen)
    {
      deleteDialogOpen := open;
    }

    /** The status picker's `onValueChange`. */
    method PickStatus(status: string)
      modifies this
      ensures newStatus == status
      ensures selected == old(selected) && selectedTab == old(selectedTab)
      ensures statusDialogOpen == old(statusDialogOpen) && deleteDialogOpen == old(deleteDialogOpen)
    {
      newStatus := status;
    }

    method HandleDeleteReservation(r: Reservation)
      modifies this
      ensures selected == Some(r) && deleteDialogOpen
      ensures selectedTab == old(selectedTab) && newStatus == old(newStatus) && statusDialogOpen == old(statusDialogOpen)
    {
      selected := Some(r);
      deleteDialogOpen := true;
    }

    /** `confirmStatusChange`: the update sent, only with a reservation selected and a non-empty status. */
    function StatusRequest(): (u: Option<StatusUpdate>)
      reads this
      ensures u.Some? <==> selected.Some? && newStatus != ""
      ensures u.Some? ==> u.value == StatusUpdate(selected.value.id, newStatus)
    {
      if selected.Some? && newStatus != "" then Some(StatusUpdate(selected.value.id, newStatus)) else None
    }

    /** `confirmDelete`: the id to delete, only with a reservation selected. */
    function DeleteRequest(): (id: Option<int>)
      reads this
      ensures id.Some? <==> selected.Some?
      ensures id.Some? ==> id.value == selected.value.id
    {
      if selected.Some? then Some(selected.value.id) else None
    }

    /** The Save button is disabled while pending, with no status, or with the status unchanged. */
    predicate SaveDisabled(isPending: bool)
      reads this
    {
      isPending || newStatus == "" || (selected.Some? && selected.value.status == newStatus)
    }

    /** The WhatsApp preview is shown only for a real change of status. */
    predicate PreviewShown()
      reads this
    {
      selected.Some? && newStatus != "" && newStatus != selected.value.status
    }

    /** An enabled Save button with a reservation selected sends a status different from the current one. */
    lemma EnabledSaveSendsChange()
      requires !SaveDisabled(false) && selected.Some?
      ensures StatusRequest().Some? && StatusRequest().value.status != selected.value.status
      ensures PreviewShown()
    {
    }

    /** The status mutation's `onSuccess` closes the dialog. */
    method StatusUpdated()
      modifies this
      ensures !statusDialogOpen
      ensures selected == old(selected) && newStatus == old(newStatus)
      ensures selectedTab == old(selectedTab) && deleteDialogOpen == old(deleteDialogOpen)
    {
      statusDialogOpen := false;
    }

    /** The delete mutation's `onSuccess` closes the dialog. */
    method ReservationDeleted()
      modifies this
      ensures !deleteDialogOpen
      ensures selected == old(selected) && newStatus == old(newStatus)
      ensures selectedTab == old(selectedTab) && statusDialogOpen == old(statusDialogOpen)
    {
      deleteDialogOpen := false;
    }
  }
}
