/** Order pricing (POST /orders): the unit price captured per line and the order total. */
module Orders {
  import opened Common
  import opened Store

  /** The price of the first product with that id, 0 when there is none. */
  function PriceOf(productos: seq<Product>, pid: int): (p: int)
    ensures (forall pr :: pr in productos ==> pr.id != pid) ==> p == 0
    ensures (exists pr :: pr in productos && pr.id == pid) ==>
      exists i :: 0 <= i < |productos| && productos[i].id == pid && p == productos[i].precio &&
                  forall k :: 0 <= k < i ==> productos[k].id != pid
  {
    match Find(productos, (pr: Product) => pr.id == pid)
    case Some(pr) => pr.precio
    case None => 0
  }

  /** Sum of `precio * cantidad` over the lines. */
  function LinesTotal(lines: seq<PricedItem>): int {
    if lines == [] then 0
    else LinesTotal(lines[..|lines| - 1]) + lines[|lines| - 1].precio * lines[|lines| - 1].line.cantidad
  }

  /** The total of a concatenation is the sum of the totals. */
  lemma {:induction false} LinesTotalAppend(a: seq<PricedItem>, b: seq<PricedItem>)
    ensures LinesTotal(a + b) == LinesTotal(a) + LinesTotal(b)
  {
    if b == [] {
      assert a + b == a;
    } else {
      assert (a + b)[..|a + b| - 1] == a + b[..|b| - 1];
      LinesTotalAppend(a, b[..|b| - 1]);
    }
  }

  /** Lines whose quantities are all positive and whose prices are not negative
      have a non-negative total. */
  lemma {:induction false} LinesTotalNonNegative(lines: seq<PricedItem>)
    requires forall l :: l in lines ==> l.precio >= 0 && l.line.cantidad > 0
    ensures LinesTotal(lines) >= 0
  {
    if lines != [] {
      assert forall l :: l in lines[..|lines| - 1] ==> l in lines;
      assert lines[|lines| - 1] in lines;
      LinesTotalNonNegative(lines[..|lines| - 1]);
    }
  }

  /** The stored lines of a new order: every requested line with the price captured now. */
  function Priced(productos: seq<Product>, items: seq<LineItem>): (r: seq<PricedItem>)
    ensures |r| == |items|
    ensures forall i :: 0 <= i < |items| ==>
      r[i].line == items[i] && r[i].precio == PriceOf(productos, items[i].productId)
  {
    seq(|items|, i requires 0 <= i < |items| => PricedItem(items[i], PriceOf(productos, items[i].productId)))
  }

  /** The `items.map` loop of POST /orders: captures each line's price and
      accumulates `total += precio * cantidad`. */
  method PriceItems(productos: seq<Product>, items: seq<LineItem>) returns (lines: seq<PricedItem>, total: int)
    ensures lines == Priced(productos, items)
    ensures total == LinesTotal(lines)
  {
    lines, total := [], 0;
    var i := 0;
    while i < |items|
      invariant 0 <= i <= |items|
      invariant lines == Priced(productos, items[..i])
      invariant total == LinesTotal(lines)
    {
      var item := items[i];
      var precio := PriceOf(productos, item.productId);
      total := total + precio * item.cantidad;
      assert items[..i + 1] == items[..i] + [item];
      lines := lines + [PricedItem(item, precio)];
      assert lines[..|lines| - 1] == Priced(productos, items[..i]);
      i := i + 1;
    }
    assert items[..i] == items;
  }

  /** Scenario: a catalogue where one product costs 10.00 and another 5.50; an
      order of 2 of the first and 1 of the second totals 25.50 (in cents). */
  lemma TwoLineOrderTotal(a: LineItem, b: LineItem)
    requires a.cantidad == 2 && b.cantidad == 1 && a.productId != b.productId
    ensures LinesTotal(Priced([Product(a.productId, "A", 1000), Product(b.productId, "B", 550)], [a, b])) == 2550
  {
    var catalogue := [Product(a.productId, "A", 1000), Product(b.productId, "B", 550)];
    assert PriceOf(catalogue, a.productId) == 1000;
    assert PriceOf(catalogue, b.productId) == 550;
    var lines := Priced(catalogue, [a, b]);
    assert lines == [PricedItem(a, 1000), PricedItem(b, 550)];
    assert lines[..1] == [PricedItem(a, 1000)];
    assert LinesTotal(lines[..1]) == LinesTotal([]) + 1000 * 2;
  }
}
