/** The shopping cart store of the front end (CartProvider): a list of lines,
    each a product variant with a quantity, and whether the cart panel is open. */
module Cart {
  import opened Common
  import opened Store

  /** Two lines are the same variant: same product, size, lid, lid type and filter. */
  predicate SameVariant(a: LineItem, b: LineItem) {
    && a.productId == b.productId
    && a.tamano == b.tamano
    && a.conTapa == b.conTapa
    && a.tipoTapa == b.tipoTapa
    && a.tipoFiltro == b.tipoFiltro
  }

  /** No variant occupies two lines. */
  predicate NoDuplicateVariants(cart: seq<LineItem>) {
    forall i, j :: 0 <= i < j < |cart| ==> !SameVariant(cart[i], cart[j])
  }

  /** `itemCount`: the sum of the quantities. */
  function ItemCount(cart: seq<LineItem>): int {
    if cart == [] then 0 else ItemCount(cart[..|cart| - 1]) + cart[|cart| - 1].cantidad
  }

  lemma {:induction false} ItemCountAppend(a: seq<LineItem>, b: seq<LineItem>)
    ensures ItemCount(a + b) == ItemCount(a) + ItemCount(b)
  {
    if b == [] {
      assert a + b == a;
    } else {
      assert (a + b)[..|a + b| - 1] == a + b[..|b| - 1];
      ItemCountAppend(a, b[..|b| - 1]);
    }
  }

  /** Replacing one line changes the count by the difference of the two quantities. */
  lemma ItemCountReplace(cart: seq<LineItem>, k: nat, x: LineItem)
    requires k < |cart|
    ensures ItemCount(cart[k := x]) == ItemCount(cart) - cart[k].cantidad + x.cantidad
  {
    assert cart == cart[..k] + [cart[k]] + cart[k + 1..];
    assert cart[k := x] == cart[..k] + [x] + cart[k + 1..];
    ItemCountAppend(cart[..k] + [cart[k]], cart[k + 1..]);
    ItemCountAppend(cart[..k], [cart[k]]);
    ItemCountAppend(cart[..k] + [x], cart[k + 1..]);
    ItemCountAppend(cart[..k], [x]);
    assert ItemCount([x]) == ItemCount([]) + x.cantidad;
    assert ItemCount([cart[k]]) == ItemCount([]) + cart[k].cantidad;
  }

  /** The `findIndex` of addToCart: the first line of the same variant, or -1. */
  function FindVariant(cart: seq<LineItem>, item: LineItem): (k: int)
    ensures -1 <= k < |cart|
    ensures k == -1 <==> forall i :: 0 <= i < |cart| ==> !SameVariant(cart[i], item)
    ensures 0 <= k ==> SameVariant(cart[k], item) && forall i :: 0 <= i < k ==> !SameVariant(cart[i], item)
  {
    FindIndex(cart, (c: LineItem) => SameVariant(c, item))
  }

  /** The cart after `addToCart(item)`: a line of the same variant absorbs the
      quantity, otherwise the item becomes a new last line. */
  function Added(cart: seq<LineItem>, item: LineItem): (r: seq<LineItem>)
    ensures (exists i :: 0 <= i < |cart| && SameVariant(cart[i], item)) ==>
      var k := FindVariant(cart, item);
      && |r| == |cart|
      && r[k] == cart[k].(cantidad := cart[k].cantidad + item.cantidad)
      && forall i :: 0 <= i < |cart| && i != k ==> r[i] == cart[i]
    ensures (forall i :: 0 <= i < |cart| ==> !SameVariant(cart[i], item)) ==> r == cart + [item]
    ensures ItemCount(r) == ItemCount(cart) + item.cantidad
  {
    var k := FindVariant(cart, item);
    if k >= 0 then
      var merged := cart[k].(cantidad := cart[k].cantidad + item.cantidad);
      ItemCountReplace(cart, k, merged);
      cart[k := merged]
    else
      ItemCountAppend(cart, [item]);
      assert ItemCount([item]) == ItemCount([]) + item.cantidad;
      cart + [item]
  }

  /** Adding never creates a second line for a variant. */
  lemma AddedKeepsNoDuplicates(cart: seq<LineItem>, item: LineItem)
    requires NoDuplicateVariants(cart)
    ensures NoDuplicateVariants(Added(cart, item))
  {
    var r := Added(cart, item);
    var k := FindVariant(cart, item);
    if k < 0 {
      forall i, j | 0 <= i < j < |r| ensures !SameVariant(r[i], r[j]) {
        if j == |cart| { assert !SameVariant(cart[i], item); }
      }
    } else {
      forall i, j | 0 <= i < j < |r| ensures !SameVariant(r[i], r[j]) {
        assert SameVariant(r[i], cart[i]) && SameVariant(r[j], cart[j]);
      }
    }
  }

  /** The cart without the line at `index`; an index outside the cart removes nothing. */
  function Removed(cart: seq<LineItem>, index: int): (r: seq<LineItem>)
    ensures 0 <= index < |cart| ==> r == cart[..index] + cart[index + 1..]
    ensures !(0 <= index < |cart|) ==> r == cart
  {
    if cart == [] then []
    else
      var rest := Removed(cart[1..], index - 1);
      assert cart == [cart[0]] + cart[1..];
      if index == 0 then rest else [cart[0]] + rest
  }

  /** Removing a line takes its quantity off the count. */
  lemma RemovedItemCount(cart: seq<LineItem>, index: int)
    ensures ItemCount(Removed(cart, index)) ==
      if 0 <= index < |cart| then ItemCount(cart) - cart[index].cantidad else ItemCount(cart)
  {
    if 0 <= index < |cart| {
      ItemCountWithout(cart, index);
    }
  }

  lemma ItemCountWithout(cart: seq<LineItem>, index: int)
    requires 0 <= index < |cart|
    ensures ItemCount(cart[..index] + cart[index + 1..]) == ItemCount(cart) - cart[index].cantidad
  {
    var before, x, after := cart[..index], cart[index], cart[index + 1..];
    assert cart[index..] == [x] + after;
    assert cart == before + cart[index..];
    ItemCountAppend(before, [x] + after);
    ItemCountAppend([x], after);
    ItemCountAppend(before, after);
    assert ItemCount([x]) == ItemCount([]) + x.cantidad;
  }

  /** Removing a line keeps the other lines distinct. */
  lemma RemovedKeepsNoDuplicates(cart: seq<LineItem>, index: int)
    requires NoDuplicateVariants(cart)
    ensures NoDuplicateVariants(Removed(cart, index))
  {
    if 0 <= index < |cart| {
      var r := Removed(cart, index);
      forall i, j | 0 <= i < j < |r| ensures !SameVariant(r[i], r[j]) {
        var i', j' := if i < index then i else i + 1, if j < index then j else j + 1;
        assert r[i] == cart[i'] && r[j] == cart[j'];
      }
    }
  }

  /** The cart with the quantity of the line at `index` set to `cantidad`, on a copy. */
  function WithQuantity(cart: seq<LineItem>, index: int, cantidad: int): (r: seq<LineItem>)
    requires 0 <= index < |cart|
    ensures |r| == |cart|
    ensures r[index].cantidad == cantidad && SameVariant(r[index], cart[index])
    ensures r[index].nombre == cart[index].nombre
    ensures forall i :: 0 <= i < |cart| && i != index ==> r[i] == cart[i]
    ensures ItemCount(r) == ItemCount(cart) - cart[index].cantidad + cantidad
    ensures NoDuplicateVariants(cart) ==> NoDuplicateVariants(r)
  {
    var r := cart[index := cart[index].(cantidad := cantidad)];
    ItemCountReplace(cart, index, r[index]);
    assert forall i :: 0 <= i < |r| ==> SameVariant(r[i], cart[i]);
    r
  }

  /** The state the provider holds. */
  class CartStore {
    var cart: seq<LineItem>
    var isOpen: bool

    constructor ()
      ensures cart == [] && !isOpen
    {
      cart := [];
      isOpen := false;
    }

    /** The `itemCount` the provider exposes. */
    function Count(): int
      reads this
    {
      ItemCount(cart)
    }

    method AddToCart(item: LineItem)
      modifies this
      ensures cart == Added(old(cart), item)
      ensures isOpen
      ensures Count() == old(Count()) + item.cantidad
      ensures NoDuplicateVariants(old(cart)) ==> NoDuplicateVariants(cart)
    {
      if NoDuplicateVariants(cart) {
        AddedKeepsNoDuplicates(cart, item);
      }
      var k := FindVariant(cart, item);
      if k >= 0 {
        cart := cart[k := cart[k].(cantidad := cart[k].cantidad + item.cantidad)];
      } else {
        cart := cart + [item];
      }
      isOpen := true;
    }

    method RemoveFromCart(index: int)
      modifies this
      ensures cart == Removed(old(cart), index)
      ensures isOpen == old(isOpen)
      ensures Count() == if 0 <= index < |old(cart)| then old(Count()) - old(cart)[index].cantidad else old(Count())
      ensures NoDuplicateVariants(old(cart)) ==> NoDuplicateVariants(cart)
    {
      RemovedItemCount(cart, index);
      if NoDuplicateVariants(cart) {
        RemovedKeepsNoDuplicates(cart, index);
      }
      cart := Removed(cart, index);
    }

    /** An index outside the cart makes the source throw; callers pass a line's own index. */
    method UpdateQuantity(index: int, cantidad: int)
      requires 0 <= index < |cart|
      modifies this
      ensures cart == WithQuantity(old(cart), index, cantidad)
      ensures isOpen == old(isOpen)
    {
      cart := cart[index := cart[index].(cantidad := cantidad)];
    }

    method ClearCart()
      modifies this
      ensures cart == [] && Count() == 0
      ensures isOpen == old(isOpen)
    {
      cart := [];
    }

    method ToggleCart()
      modifies this
      ensures isOpen == !old(isOpen)
      ensures cart == old(cart)
    {
      isOpen := !isOpen;
    }
  }

  /** Toggling twice restores the open/closed state. */
  method ToggleTwice(c: CartStore)
    modifies c
    ensures c.isOpen == old(c.isOpen) && c.cart == old(c.cart)
  {
    c.ToggleCart();
    c.ToggleCart();
  }
}
