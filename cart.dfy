// client/src/hooks/use-cart.tsx: the shopping cart kept by `CartProvider`.
// The pure functions below say what each operation makes of the list of
// lines; `CartStore` is the provider's state, updated by its handlers.
module Cart {
  import opened Wrappers
  import opened Seqs
  import opened Text
  import opened Schema

  /** A cart line: its own id (a timestamp in the source), a snapshot of the menu item, a quantity. */
  datatype CartLine = CartLine(id: int, menuItem: MenuItem, quantity: int)

  function LineMenuId(l: CartLine): int { l.menuItem.id }

  /** The first line holding menu item `menuId`, as `prevItems.find(...)` returns it. */
  function LineFor(lines: seq<CartLine>, menuId: int): (r: Option<CartLine>)
    ensures r.Some? ==> r.value in lines && r.value.menuItem.id == menuId
    ensures r.None? <==> forall i :: 0 <= i < |lines| ==> lines[i].menuItem.id != menuId
    ensures r.Some? ==> exists i :: 0 <= i < |lines| && lines[i] == r.value && forall j :: 0 <= j < i ==> lines[j].menuItem.id != menuId
  {
    if lines == [] then None
    else if lines[0].menuItem.id == menuId then Some(lines[0])
    else
      var r := LineFor(lines[1..], menuId);
      if r.Some? then
        var k :| 0 <= k < |lines[1..]| && lines[1..][k] == r.value && forall j :: 0 <= j < k ==> lines[1..][j].menuItem.id != menuId;
        assert lines[k + 1] == r.value && forall j :: 0 <= j < k + 1 ==> lines[j].menuItem.id != menuId;
        r
      else r
  }

  /** The `map` of `addItem`: every line holding `menuId` gets `q` more. */
  function BumpLines(lines: seq<CartLine>, menuId: int, q: int): (r: seq<CartLine>)
    ensures |r| == |lines|
    ensures forall i :: 0 <= i < |lines| ==>
      r[i] == (if lines[i].menuItem.id == menuId then lines[i].(quantity := lines[i].quantity + q) else lines[i])
  {
    if lines == [] then []
    else
      var l := lines[0];
      [if l.menuItem.id == menuId then l.(quantity := l.quantity + q) else l] + BumpLines(lines[1..], menuId, q)
  }

  /** `addItem(menuItem, quantity)`: merge into the line for that menu item, or append a new line. */
  function AddLine(lines: seq<CartLine>, item: MenuItem, q: int, freshId: int): seq<CartLine> {
    if LineFor(lines, item.id).Some? then BumpLines(lines, item.id, q)
    else lines + [CartLine(freshId, item, q)]
  }

  /** `removeItem(id)`: the lines with another line id, in order. */
  function RemoveLines(lines: seq<CartLine>, id: int): seq<CartLine> {
    Filter(lines, (l: CartLine) => l.id != id)
  }

  /** The `map` of `updateQuantity`: every line with line id `id` gets quantity `q`. */
  function SetLines(lines: seq<CartLine>, id: int, q: int): (r: seq<CartLine>)
    ensures |r| == |lines|
    ensures forall i :: 0 <= i < |lines| ==> r[i] == (if lines[i].id == id then lines[i].(quantity := q) else lines[i])
  {
    if lines == [] then []
    else
      var l := lines[0];
      [if l.id == id then l.(quantity := q) else l] + SetLines(lines[1..], id, q)
  }

  /** `updateQuantity(id, q)`: ignored below 1. */
  function UpdateLines(lines: seq<CartLine>, id: int, q: int): seq<CartLine> {
    if q < 1 then lines else SetLines(lines, id, q)
  }

  /** `totalItems`: the sum of the quantities. */
  function SumQuantities(lines: seq<CartLine>): int {
    if lines == [] then 0 else lines[0].quantity + SumQuantities(lines[1..])
  }

  /** `totalPrice`: the sum of price times quantity, in cents. */
  function SumPrices(lines: seq<CartLine>): int {
    if lines == [] then 0 else lines[0].menuItem.price * lines[0].quantity + SumPrices(lines[1..])
  }

  // ---- What the operations do to the lines ----

  /**
   * Adding a menu item already in the cart raises that line's quantity by `q`
   * and leaves every other line, and the order, as it was; adding a new one
   * appends exactly one line at the end.
   */
  lemma AddLineSpec(lines: seq<CartLine>, item: MenuItem, q: int, freshId: int, k: int)
    requires UniqueBy(lines, LineMenuId)
    requires 0 <= k < |lines| && lines[k].menuItem.id == item.id
    ensures AddLine(lines, item, q, freshId) == lines[k := lines[k].(quantity := lines[k].quantity + q)]
  {
    assert LineFor(lines, item.id).Some?;
    var r := AddLine(lines, item, q, freshId);
    forall i | 0 <= i < |lines| && i != k ensures r[i] == lines[i] {
      assert LineMenuId(lines[i]) != LineMenuId(lines[k]) by {
        if i < k {} else {}
      }
    }
  }

  /** A menu item not yet in the cart gets one new line at the end. */
  lemma AddLineNew(lines: seq<CartLine>, item: MenuItem, q: int, freshId: int)
    requires forall i :: 0 <= i < |lines| ==> lines[i].menuItem.id != item.id
    ensures AddLine(lines, item, q, freshId) == lines + [CartLine(freshId, item, q)]
  {
  }

  /** `addItem` keeps at most one line per menu item. */
  lemma AddLineKeepsUnique(lines: seq<CartLine>, item: MenuItem, q: int, freshId: int)
    requires UniqueBy(lines, LineMenuId)
    ensures UniqueBy(AddLine(lines, item, q, freshId), LineMenuId)
  {
    var r := AddLine(lines, item, q, freshId);
    if LineFor(lines, item.id).Some? {
      assert forall i :: 0 <= i < |lines| ==> LineMenuId(r[i]) == LineMenuId(lines[i]);
    } else {
      UniqueByAppend(lines, LineMenuId, CartLine(freshId, item, q));
    }
  }

  /** `removeItem` keeps exactly the lines with another id, in order; an absent id changes nothing. */
  lemma RemoveLinesSpec(lines: seq<CartLine>, id: int)
    ensures forall l :: l in RemoveLines(lines, id) <==> l in lines && l.id != id
    ensures IsSubsequence(RemoveLines(lines, id), lines)
    ensures (forall i :: 0 <= i < |lines| ==> lines[i].id != id) ==> RemoveLines(lines, id) == lines
  {
    FilterIsSubsequence(lines, (l: CartLine) => l.id != id);
    if forall i :: 0 <= i < |lines| ==> lines[i].id != id {
      FilterAll(lines, (l: CartLine) => l.id != id);
    }
  }

  /** `removeItem` keeps at most one line per menu item. */
  lemma RemoveLinesKeepsUnique(lines: seq<CartLine>, id: int)
    requires UniqueBy(lines, LineMenuId)
    ensures UniqueBy(RemoveLines(lines, id), LineMenuId)
  {
    UniqueByFilter(lines, LineMenuId, (l: CartLine) => l.id != id);
  }

  /**
   * `updateQuantity(id, q)` does nothing for `q < 1`; otherwise it sets the
   * quantity of the lines with that id and keeps the rest and the length.
   */
  lemma UpdateLinesSpec(lines: seq<CartLine>, id: int, q: int)
    ensures q < 1 ==> UpdateLines(lines, id, q) == lines
    ensures |UpdateLines(lines, id, q)| == |lines|
    ensures q >= 1 ==> forall i :: 0 <= i < |lines| ==>
      UpdateLines(lines, id, q)[i].quantity == (if lines[i].id == id then q else lines[i].quantity) &&
      UpdateLines(lines, id, q)[i].id == lines[i].id &&
      UpdateLines(lines, id, q)[i].menuItem == lines[i].menuItem
    ensures UniqueBy(lines, LineMenuId) ==> UniqueBy(UpdateLines(lines, id, q), LineMenuId)
  {
    var r := UpdateLines(lines, id, q);
    assert forall i :: 0 <= i < |lines| ==> LineMenuId(r[i]) == LineMenuId(lines[i]);
  }

  // ---- Totals ----

  /** Both totals of an empty cart are 0. */
  lemma EmptyTotals()
    ensures SumQuantities([]) == 0 && SumPrices([]) == 0
  {
  }

  lemma {:induction false} SumsAppend(lines: seq<CartLine>, x: CartLine)
    ensures SumQuantities(lines + [x]) == SumQuantities(lines) + x.quantity
    ensures SumPrices(lines + [x]) == SumPrices(lines) + x.menuItem.price * x.quantity
  {
    if lines != [] {
      assert (lines + [x])[1..] == lines[1..] + [x];
      SumsAppend(lines[1..], x);
    }
  }

  lemma {:induction false} BumpLinesSums(lines: seq<CartLine>, menuId: int, q: int)
    requires UniqueBy(lines, LineMenuId)
    ensures SumQuantities(BumpLines(lines, menuId, q)) == SumQuantities(lines) + (if LineFor(lines, menuId).Some? then q else 0)
    ensures SumPrices(BumpLines(lines, menuId, q)) ==
      SumPrices(lines) + (if LineFor(lines, menuId).Some? then LineFor(lines, menuId).value.menuItem.price * q else 0)
  {
    if lines != [] {
      var l := lines[0];
      var rest := lines[1..];
      UniqueByTail(lines, LineMenuId);
      BumpLinesSums(rest, menuId, q);
      assert BumpLines(lines, menuId, q)[1..] == BumpLines(rest, menuId, q);
      if l.menuItem.id == menuId {
        assert LineFor(rest, menuId).None? by {
          forall i | 0 <= i < |rest| ensures rest[i].menuItem.id != menuId {
            assert LineMenuId(rest[i]) != LineMenuId(l) by { assert rest[i] in rest; }
          }
        }
        assert l.menuItem.price * (l.quantity + q) == l.menuItem.price * l.quantity + l.menuItem.price * q;
      }
    }
  }

  /**
   * `addItem(menuItem, q)` raises `totalItems` by `q`, and `totalPrice` by `q`
   * times the price of the line's stored snapshot: a line already in the cart
   * keeps the price it was added with.
   */
  lemma AddLineTotals(lines: seq<CartLine>, item: MenuItem, q: int, freshId: int)
    requires UniqueBy(lines, LineMenuId)
    ensures SumQuantities(AddLine(lines, item, q, freshId)) == SumQuantities(lines) + q
    ensures SumPrices(AddLine(lines, item, q, freshId)) ==
      SumPrices(lines) + q * (if LineFor(lines, item.id).Some? then LineFor(lines, item.id).value.menuItem.price else item.price)
  {
    if LineFor(lines, item.id).Some? {
      BumpLinesSums(lines, item.id, q);
    } else {
      SumsAppend(lines, CartLine(freshId, item, q));
    }
  }

  // ---- Checkout ----

  /** `toFixed(2)` of a number of cents: sign, whole part, a point and two digits. */
  function FormatCents(cents: int): (r: string)
    ensures |r| >= 4 && r[|r| - 3] == '.' && IsDigit(r[|r| - 2]) && IsDigit(r[|r| - 1])
    ensures cents < 0 <==> r[0] == '-'
  {
    if cents < 0 then "-" + FormatWholeCents(-cents) else FormatWholeCents(cents)
  }

  function FormatWholeCents(cents: nat): (r: string)
    ensures |r| >= 4 && r[|r| - 3] == '.' && IsDigit(r[|r| - 2]) && IsDigit(r[|r| - 1]) && IsDigit(r[0])
  {
    NatToStringLength(cents % 100, 2);
    NatToString(cents / 100) + "." + ZeroPad(cents % 100, 2)
  }

  /**
   * The printed amount reads back as the amount: before the point the whole
   * units, after it the remaining cents; a negative amount is the printed
   * magnitude with a minus sign in front.
   */
  lemma FormatCentsReadBack(cents: int)
    ensures cents >= 0 ==>
      var r := FormatCents(cents);
      (forall i :: 0 <= i < |r| - 3 ==> IsDigit(r[i])) &&
      DigitsValue(r[..|r| - 3]) == cents / 100 && DigitsValue(r[|r| - 2..]) == cents % 100
    ensures cents < 0 ==> FormatCents(cents) == "-" + FormatCents(-cents)
  {
    if cents >= 0 {
      NatToStringLength(cents % 100, 2);
      var r := FormatWholeCents(cents);
      assert r[..|r| - 3] == NatToString(cents / 100);
      assert r[|r| - 2..] == ZeroPad(cents % 100, 2);
      NatToStringRoundTrip(cents / 100);
      ZeroPadRoundTrip(cents % 100, 2);
    }
  }

  /** Amounts of at least zero print differently when they differ. */
  lemma FormatCentsInjective(a: nat, b: nat)
    requires FormatCents(a) == FormatCents(b)
    ensures a == b
  {
    NatToStringLength(a % 100, 2);
    NatToStringLength(b % 100, 2);
    var sa := FormatWholeCents(a);
    var sb := FormatWholeCents(b);
    assert sa[..|sa| - 3] == NatToString(a / 100);
    assert sb[..|sb| - 3] == NatToString(b / 100);
    NatToStringInjective(a / 100, b / 100);
    assert sa[|sa| - 2..] == ZeroPad(a % 100, 2);
    assert sb[|sb| - 2..] == ZeroPad(b % 100, 2);
    ZeroPadRoundTrip(a % 100, 2);
    ZeroPadRoundTrip(b % 100, 2);
  }

  const OrderHeader := "Hola, quiero hacer un pedido:%0A%0A"

  /** One message line per cart line: `{q}x {name} - ${q * price}%0A`. */
  function OrderLine(l: CartLine): string {
    IntToString(l.quantity) + "x " + l.menuItem.name + " - $" + FormatCents(l.menuItem.price * l.quantity) + "%0A"
  }

  /** The message lines of `lines`, in cart order. */
  function OrderLines(lines: seq<CartLine>): string {
    if lines == [] then "" else OrderLines(lines[..|lines| - 1]) + OrderLine(lines[|lines| - 1])
  }

  /** The closing line: `%0ATotal: ${total}`. */
  function TotalLine(lines: seq<CartLine>): string {
    "%0ATotal: $" + FormatCents(SumPrices(lines))
  }

  lemma OrderLinesStep(lines: seq<CartLine>, i: nat)
    requires i < |lines|
    ensures OrderHeader + OrderLines(lines[..i]) + OrderLine(lines[i]) == OrderHeader + OrderLines(lines[..i + 1])
  {
    assert lines[..i + 1][..i] == lines[..i];
  }

  /** The whole order message: header, one line per item, then the total. */
  function OrderMessage(lines: seq<CartLine>): string {
    OrderHeader + OrderLines(lines) + TotalLine(lines)
  }

  datatype CheckoutResult = NoPhone | OpenLink(url: string)

  /**
   * `checkout`: no configured phone (no location, or an empty phone) is an
   * error; otherwise the `wa.me` link to the phone's digits, with the message
   * appended as it is, without encoding and without a country code.
   */
  function CheckoutOutcome(phone: Option<string>, lines: seq<CartLine>): (r: CheckoutResult)
    ensures r.NoPhone? <==> phone.None? || phone.value == ""
    ensures r.OpenLink? ==> r.url == "https://wa.me/" + DigitsOnly(phone.value) + "?text=" + OrderMessage(lines)
  {
    if phone.None? || phone.value == "" then NoPhone
    else OpenLink("https://wa.me/" + DigitsOnly(phone.value) + "?text=" + OrderMessage(lines))
  }

  /** The order message starts with the header and ends with the total of the cart. */
  lemma OrderMessageShape(lines: seq<CartLine>)
    ensures StartsWith(OrderMessage(lines), OrderHeader)
    ensures var m := OrderMessage(lines); var t := TotalLine(lines);
      |m| >= |t| && m[|m| - |t|..] == t
  {
    var m := OrderMessage(lines);
    var h := OrderHeader + OrderLines(lines);
    assert m[..|OrderHeader|] == (h + TotalLine(lines))[..|OrderHeader|] == h[..|OrderHeader|];
    assert m[|h|..] == TotalLine(lines);
  }

  /** An empty cart orders nothing but still sends the header and a zero total. */
  lemma EmptyCartMessage()
    ensures OrderMessage([]) == OrderHeader + "%0ATotal: $0.00"
  {
    assert NatToString(0) == "0";
    assert ZeroPad(0, 2) == "00";
  }

  /** The state of `CartProvider`: the lines and whether the cart drawer is open. */
  class CartStore {
    var items: seq<CartLine>
    var isOpen: bool

    /** At most one line per menu item, as `addItem` keeps it. */
    predicate Valid()
      reads this
    {
      UniqueBy(items, LineMenuId)
    }

    constructor()
      ensures items == [] && !isOpen && Valid()
    {
      items := [];
      isOpen := false;
    }

    /** `addItem(menuItem, quantity = 1)`: merge or append, then open the cart. */
    method AddItem(menuItem: MenuItem, freshId: int, quantity: int := 1)
      requires Valid()
      modifies this
      ensures items == AddLine(old(items), menuItem, quantity, freshId) && isOpen
      ensures Valid()
      ensures TotalItems() == old(TotalItems()) + quantity
      ensures TotalPrice() == old(TotalPrice()) +
        quantity * (if LineFor(old(items), menuItem.id).Some? then LineFor(old(items), menuItem.id).value.menuItem.price else menuItem.price)
    {
      AddLineKeepsUnique(items, menuItem, quantity, freshId);
      AddLineTotals(items, menuItem, quantity, freshId);
      items := AddLine(items, menuItem, quantity, freshId);
      isOpen := true;
    }

    method RemoveItem(id: int)
      requires Valid()
      modifies this
      ensures items == RemoveLines(old(items), id) && isOpen == old(isOpen)
      ensures Valid()
    {
      RemoveLinesKeepsUnique(items, id);
      items := RemoveLines(items, id);
    }

    method UpdateQuantity(id: int, quantity: int)
      requires Valid()
      modifies this
      ensures items == UpdateLines(old(items), id, quantity) && isOpen == old(isOpen)
      ensures Valid()
    {
      if quantity < 1 {
        return;
      }
      UpdateLinesSpec(items, id, quantity);
      items := SetLines(items, id, quantity);
    }

    method ClearCart()
      modifies this
      ensures items == [] && isOpen == old(isOpen)
      ensures Valid()
      ensures TotalItems() == 0 && TotalPrice() == 0
    {
      items := [];
    }

    method OpenCart()
      modifies this
      ensures isOpen && items == old(items)
    {
      isOpen := true;
    }

    method CloseCart()
      modifies this
      ensures !isOpen && items == old(items)
    {
      isOpen := false;
    }

    /** `totalItems`, recomputed from the lines on every read. */
    function TotalItems(): int
      reads this
    {
      SumQuantities(items)
    }

    /** `totalPrice`, recomputed from the lines on every read. */
    function TotalPrice(): int
      reads this
    {
      SumPrices(items)
    }

    /**
     * `checkout`: builds the message line by line as the `forEach` does and
     * returns the link to open. It changes nothing, so the cart is kept.
     */
    method Checkout(phone: Option<string>) returns (r: CheckoutResult)
      ensures r == CheckoutOutcome(phone, items)
    {
      if phone.None? || phone.value == "" {
        return NoPhone;
      }
      var message := OrderHeader;
      for i := 0 to |items|
        invariant message == OrderHeader + OrderLines(items[..i])
      {
        OrderLinesStep(items, i);
        message := message + OrderLine(items[i]);
      }
      assert items[..|items|] == items;
      message := message + TotalLine(items);
      var formattedPhone := DigitsOnly(phone.value);
      r := OpenLink("https://wa.me/" + formattedPhone + "?text=" + message);
    }
  }
}
