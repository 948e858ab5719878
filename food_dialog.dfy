// client/src/components/food-item-dialog.tsx: the quantity counter of the
// dish dialog and its "add to cart" button.
module FoodDialog {
  import opened Wrappers
  import opened Schema
  import Cart

  class FoodItemDialog {
    const item: MenuItem
    var quantity: int
    /** The parent's `open` flag, changed through `onOpenChange`. */
    var open: bool

    /** The quantity never drops below 1. */
    predicate Valid()
      reads this
    {
      quantity >= 1
    }

    constructor(item: MenuItem, open: bool)
      ensures this.item == item && this.open == open
      ensures quantity == 1 && Valid()
    {
      this.item := item;
      this.open := open;
      quantity := 1;
    }

    /**
     * `handleQuantityChange`: `parsed` is `parseInt` of the typed text
     * (`None` for NaN); only a whole number of at least 1 is taken.
     */
    method HandleQuantityChange(parsed: Option<int>)
      requires Valid()
      modifies this
      ensures parsed.Some? && parsed.value >= 1 ==> quantity == parsed.value
      ensures !(parsed.Some? && parsed.value >= 1) ==> quantity == old(quantity)
      ensures open == old(open) && Valid()
    {
      if parsed.Some? && parsed.value >= 1 {
        quantity := parsed.value;
      }
    }

    /** `decreaseQuantity`: one less, but never below 1. */
    method DecreaseQuantity()
      requires Valid()
      modifies this
      ensures quantity == (if old(quantity) > 1 then old(quantity) - 1 else 1)
      ensures open == old(open) && Valid()
    {
      if quantity > 1 {
        quantity := quantity - 1;
      }
    }

    /** `increaseQuantity`: exactly one more. */
    method IncreaseQuantity()
      requires Valid()
      modifies this
      ensures quantity == old(quantity) + 1
      ensures open == old(open) && Valid()
    {
      quantity := quantity + 1;
    }

    /**
     * `handleAddToCart`: adds the dish with the current quantity, closes the
     * dialog and puts the counter back to 1.
     */
    method HandleAddToCart(cart: Cart.CartStore, freshId: int)
      requires Valid() && cart.Valid()
      modifies this, cart
      ensures cart.items == Cart.AddLine(old(cart.items), item, old(quantity), freshId) && cart.isOpen
      ensures cart.Valid()
      ensures !open && quantity == 1 && Valid()
    {
      cart.AddItem(item, freshId, quantity);
      open := false;
      quantity := 1;
    }
  }
}
