/** GET /analytics: orders of a calendar month, per-product quantity totals,
    and the ten best-selling products. */
module Analytics {
  import opened Common
  import opened Store

  /** One `productCounts[productId]` entry. */
  datatype Tally = Tally(productId: int, cantidad: int)

  /** One `topProducts` entry. */
  datatype TopProduct = TopProduct(productId: int, nombre: string, cantidad: int)

  datatype Report = Report(totalOrders: nat, topProducts: seq<TopProduct>, ordersByMonth: nat)

  const TOP_N: nat := 10
  const UNKNOWN_NAME: string := "Desconocido"

  /** The month/year filter, applied only when both are given. */
  function SelectOrders(orders: seq<Order>, month: Option<int>, year: Option<int>): (r: seq<Order>)
    ensures !(month.Some? && year.Some?) ==> r == orders
    ensures month.Some? && year.Some? ==>
      forall o :: o in r <==> o in orders && o.fecha.month == month.value && o.fecha.year == year.value
  {
    if month.Some? && year.Some? then
      Filter(orders, (o: Order) => o.fecha.month == month.value && o.fecha.year == year.value)
    else orders
  }

  /** All lines of the orders, order by order. */
  function ItemsOf(orders: seq<Order>): seq<PricedItem> {
    if orders == [] then []
    else ItemsOf(orders[..|orders| - 1]) + orders[|orders| - 1].items
  }

  /** Total quantity of product `pid` over the lines. */
  function CountIn(items: seq<PricedItem>, pid: int): int {
    if items == [] then 0
    else
      var last := items[|items| - 1];
      CountIn(items[..|items| - 1], pid) + (if last.line.productId == pid then last.line.cantidad else 0)
  }

  /** Some line names product `pid`. */
  predicate Mentions(items: seq<PricedItem>, pid: int) {
    exists it :: it in items && it.line.productId == pid
  }

  /** A product no line names has a zero total. */
  lemma {:induction false} CountInUnmentioned(items: seq<PricedItem>, pid: int)
    requires !Mentions(items, pid)
    ensures CountIn(items, pid) == 0
  {
    if items != [] {
      var init := items[..|items| - 1];
      assert forall it :: it in init ==> it in items;
      assert items[|items| - 1] in items;
      CountInUnmentioned(init, pid);
    }
  }

  /** `counts` is exactly the `productCounts` object for `items`: one entry per
      product mentioned, holding that product's total quantity. */
  ghost predicate Tallies(counts: seq<Tally>, items: seq<PricedItem>) {
    && (forall i, j :: 0 <= i < j < |counts| ==> counts[i].productId != counts[j].productId)
    && (forall k :: 0 <= k < |counts| ==>
          counts[k].cantidad == CountIn(items, counts[k].productId) && Mentions(items, counts[k].productId))
    && (forall pid :: Mentions(items, pid) ==> exists k :: 0 <= k < |counts| && counts[k].productId == pid)
  }

  /** Adds `n` to the counter of product `pid`; a product without a counter gets
      a new one, after all the others, starting from `n`. */
  function Bump(counts: seq<Tally>, pid: int, n: int): (r: seq<Tally>)
    ensures (forall k :: 0 <= k < |counts| ==> counts[k].productId != pid) ==> r == counts + [Tally(pid, n)]
    ensures forall k :: 0 <= k < |counts| && counts[k].productId == pid &&
                        (forall j :: 0 <= j < k ==> counts[j].productId != pid) ==>
                          r == counts[k := Tally(pid, counts[k].cantidad + n)]
  {
    var k := FindIndex(counts, (t: Tally) => t.productId == pid);
    if k >= 0 then counts[k := Tally(pid, counts[k].cantidad + n)]
    else counts + [Tally(pid, n)]
  }

  /** Counting one more line keeps the tally exact. */
  lemma BumpTallies(counts: seq<Tally>, items: seq<PricedItem>, it: PricedItem)
    requires Tallies(counts, items)
    ensures Tallies(Bump(counts, it.line.productId, it.line.cantidad), items + [it])
  {
    var pid, n := it.line.productId, it.line.cantidad;
    SnocCounts(items, it);
    var k := FindIndex(counts, (t: Tally) => t.productId == pid);
    if k < 0 {
      assert !Mentions(items, pid);
      CountInUnmentioned(items, pid);
      BumpNew(counts, items, it);
      assert Bump(counts, pid, n) == counts + [Tally(pid, n)];
    } else {
      BumpExisting(counts, items, it, k);
      assert Bump(counts, pid, n) == counts[k := Tally(pid, counts[k].cantidad + n)];
    }
  }

  /** One more line adds its quantity to its own product's total, and names its product. */
  lemma SnocCounts(items: seq<PricedItem>, it: PricedItem)
    ensures forall q :: CountIn(items + [it], q) == CountIn(items, q) + (if q == it.line.productId then it.line.cantidad else 0)
    ensures forall q :: Mentions(items + [it], q) <==> Mentions(items, q) || q == it.line.productId
  {
    var items' := items + [it];
    assert items'[..|items'| - 1] == items;
    forall q ensures Mentions(items', q) <==> Mentions(items, q) || q == it.line.productId {
      if q == it.line.productId { assert it in items'; }
      if Mentions(items, q) {
        var w :| w in items && w.line.productId == q;
        assert w in items';
      }
    }
  }

  lemma BumpNew(counts: seq<Tally>, items: seq<PricedItem>, it: PricedItem)
    requires Tallies(counts, items)
    requires forall k :: 0 <= k < |counts| ==> counts[k].productId != it.line.productId
    requires CountIn(items, it.line.productId) == 0
    requires forall q :: CountIn(items + [it], q) == CountIn(items, q) + (if q == it.line.productId then it.line.cantidad else 0)
    requires forall q :: Mentions(items + [it], q) <==> Mentions(items, q) || q == it.line.productId
    ensures Tallies(counts + [Tally(it.line.productId, it.line.cantidad)], items + [it])
  {
    var counts' := counts + [Tally(it.line.productId, it.line.cantidad)];
    forall q | Mentions(items + [it], q)
      ensures exists m :: 0 <= m < |counts'| && counts'[m].productId == q
    {
      if q == it.line.productId {
        assert counts'[|counts|].productId == q;
      } else {
        var m :| 0 <= m < |counts| && counts[m].productId == q;
        assert counts'[m].productId == q;
      }
    }
  }

  lemma BumpExisting(counts: seq<Tally>, items: seq<PricedItem>, it: PricedItem, k: nat)
    requires Tallies(counts, items)
    requires k < |counts| && counts[k].productId == it.line.productId
    requires forall q :: CountIn(items + [it], q) == CountIn(items, q) + (if q == it.line.productId then it.line.cantidad else 0)
    requires forall q :: Mentions(items + [it], q) <==> Mentions(items, q) || q == it.line.productId
    ensures Tallies(counts[k := Tally(it.line.productId, counts[k].cantidad + it.line.cantidad)], items + [it])
  {
    var counts' := counts[k := Tally(it.line.productId, counts[k].cantidad + it.line.cantidad)];
    forall q | Mentions(items + [it], q)
      ensures exists m :: 0 <= m < |counts'| && counts'[m].productId == q
    {
      var m :| 0 <= m < |counts| && counts[m].productId == q;
      assert counts'[m].productId == q;
    }
  }

  /** The lines of one more order follow the lines of the earlier ones. */
  lemma ItemsOfNext(orders: seq<Order>, i: nat)
    requires i < |orders|
    ensures ItemsOf(orders[..i + 1]) == ItemsOf(orders[..i]) + orders[i].items
  {
    assert orders[..i + 1][..i] == orders[..i];
  }

  /** The two nested `forEach` loops that build `productCounts`: the outer one
      over the orders. */
  method TallyItems(orders: seq<Order>) returns (counts: seq<Tally>)
    ensures Tallies(counts, ItemsOf(orders))
  {
    counts := [];
    var i := 0;
    while i < |orders|
      invariant 0 <= i <= |orders|
      invariant Tallies(counts, ItemsOf(orders[..i]))
    {
      counts := TallyLines(counts, ItemsOf(orders[..i]), orders[i].items);
      ItemsOfNext(orders, i);
      i := i + 1;
    }
    assert orders[..i] == orders;
  }

  /** The inner `forEach` over one order's lines, continuing the tally of the
      lines counted so far. */
  method TallyLines(counts0: seq<Tally>, ghost before: seq<PricedItem>, items: seq<PricedItem>)
    returns (counts: seq<Tally>)
    requires Tallies(counts0, before)
    ensures Tallies(counts, before + items)
  {
    counts := counts0;
    var j := 0;
    assert before + items[..0] == before;
    while j < |items|
      invariant 0 <= j <= |items|
      invariant Tallies(counts, before + items[..j])
    {
      TallyStep(counts, before, items, j);
      counts := Bump(counts, items[j].line.productId, items[j].line.cantidad);
      j := j + 1;
    }
    assert items[..j] == items;
  }

  /** One turn of the inner loop keeps the tally exact. */
  lemma TallyStep(counts: seq<Tally>, before: seq<PricedItem>, items: seq<PricedItem>, j: nat)
    requires j < |items| && Tallies(counts, before + items[..j])
    ensures Tallies(Bump(counts, items[j].line.productId, items[j].line.cantidad), before + items[..j + 1])
  {
    BumpTallies(counts, before + items[..j], items[j]);
    assert before + items[..j + 1] == before + items[..j] + [items[j]];
  }

  // ---------------------------------------------------------------------------
  // Ranking: a stable sort by descending quantity, cut to the first ten, over
  // the counters listed in ascending productId order; the sort is stable, so
  // equal quantities stay in ascending productId order.

  /** `a` may come before `b` in the ranking. */
  predicate RanksBefore(a: TopProduct, b: TopProduct) {
    a.cantidad > b.cantidad || (a.cantidad == b.cantidad && a.productId <= b.productId)
  }

  predicate Ranked(s: seq<TopProduct>) {
    forall i, j :: 0 <= i < j < |s| ==> RanksBefore(s[i], s[j])
  }

  function Insert(x: TopProduct, s: seq<TopProduct>): (r: seq<TopProduct>)
    requires Ranked(s)
    ensures Ranked(r)
    ensures multiset(r) == multiset(s) + multiset{x}
  {
    if s == [] || RanksBefore(x, s[0]) then
      FrontRanked(x, s);
      [x] + s
    else
      assert s == [s[0]] + s[1..];
      var rest := Insert(x, s[1..]);
      HeadBeforeInserted(s, x, rest);
      ConsRanked(s[0], rest);
      [s[0]] + rest
  }

  /** A list headed by an element that ranks before every other one is ranked. */
  lemma ConsRanked(h: TopProduct, rest: seq<TopProduct>)
    requires Ranked(rest)
    requires forall y :: y in rest ==> RanksBefore(h, y)
    ensures Ranked([h] + rest)
  {
    var r := [h] + rest;
    forall i, j | 0 <= i < j < |r| ensures RanksBefore(r[i], r[j]) {
      assert r[j] == rest[j - 1];
      if i == 0 { assert rest[j - 1] in rest; }
    }
  }

  /** An element that ranks before the head of a ranked list ranks before all of it. */
  lemma FrontRanked(x: TopProduct, s: seq<TopProduct>)
    requires Ranked(s)
    requires s == [] || RanksBefore(x, s[0])
    ensures Ranked([x] + s)
  {
    forall y | y in s ensures RanksBefore(x, y) {
      var j :| 0 <= j < |s| && s[j] == y;
      assert j == 0 || RanksBefore(s[0], s[j]);
    }
    ConsRanked(x, s);
  }

  /** The head of a ranked list ranks before the rest with an element it ranks before added. */
  lemma HeadBeforeInserted(s: seq<TopProduct>, x: TopProduct, rest: seq<TopProduct>)
    requires Ranked(s) && s != [] && !RanksBefore(x, s[0])
    requires multiset(rest) == multiset(s[1..]) + multiset{x}
    ensures forall y :: y in rest ==> RanksBefore(s[0], y)
  {
    forall y | y in rest ensures RanksBefore(s[0], y) {
      assert y in multiset(rest);
      if y != x {
        assert y in multiset(s[1..]);
        var j :| 0 <= j < |s[1..]| && s[1..][j] == y;
        assert s[j + 1] == y;
      }
    }
  }

  /** Sorts into ranking order (insertion sort). */
  function Rank(s: seq<TopProduct>): (r: seq<TopProduct>)
    ensures Ranked(r)
    ensures multiset(r) == multiset(s)
  {
    if s == [] then []
    else
      assert s == [s[0]] + s[1..];
      Insert(s[0], Rank(s[1..]))
  }

  /** The name of the first product with the id; UNKNOWN_NAME when there is no
      such product or its name is empty. */
  function NameOf(productos: seq<Product>, pid: int): (n: string)
    ensures (forall p :: p in productos ==> p.id != pid) ==> n == UNKNOWN_NAME
    ensures n != UNKNOWN_NAME ==> exists p :: p in productos && p.id == pid && p.articulo == n
    ensures forall i ::
      (0 <= i < |productos| && productos[i].id == pid && forall k :: 0 <= k < i ==> productos[k].id != pid) ==>
      n == if productos[i].articulo != "" then productos[i].articulo else UNKNOWN_NAME
  {
    match Find(productos, (p: Product) => p.id == pid)
    case Some(p) => if p.articulo != "" then p.articulo else UNKNOWN_NAME
    case None => UNKNOWN_NAME
  }

  /** The counters, in order, each with its product's name. */
  function Entries(counts: seq<Tally>, productos: seq<Product>): (r: seq<TopProduct>)
    ensures |r| == |counts|
    ensures forall k :: 0 <= k < |counts| ==>
      r[k] == TopProduct(counts[k].productId, NameOf(productos, counts[k].productId), counts[k].cantidad)
  {
    seq(|counts|, k requires 0 <= k < |counts| =>
      TopProduct(counts[k].productId, NameOf(productos, counts[k].productId), counts[k].cantidad))
  }

  /** The first ten entries of the ranking. */
  function TopOf(ranked: seq<TopProduct>): (r: seq<TopProduct>)
    ensures |r| <= TOP_N && r <= ranked
    ensures |r| == TOP_N || r == ranked
  {
    if |ranked| <= TOP_N then ranked else ranked[..TOP_N]
  }

  /** What GET /analytics promises of its report for the selected orders. */
  ghost predicate IsReport(rep: Report, orders: seq<Order>, productos: seq<Product>, month: Option<int>, year: Option<int>) {
    var items := ItemsOf(SelectOrders(orders, month, year));
    && rep.totalOrders == rep.ordersByMonth == |SelectOrders(orders, month, year)|
    && |rep.topProducts| <= TOP_N
    && Ranked(rep.topProducts)
    && (forall t :: t in rep.topProducts ==>
          Mentions(items, t.productId) && t.cantidad == CountIn(items, t.productId) &&
          t.nombre == NameOf(productos, t.productId))
    && (forall i, j :: 0 <= i < j < |rep.topProducts| ==>
          rep.topProducts[i].productId != rep.topProducts[j].productId)
    && (forall pid :: Mentions(items, pid) ==>
          var t := TopProduct(pid, NameOf(productos, pid), CountIn(items, pid));
          t in rep.topProducts || (|rep.topProducts| == TOP_N && RanksBefore(rep.topProducts[TOP_N - 1], t)))
  }

  /** The report of GET /analytics for the given orders and filters. */
  method Aggregate(orders: seq<Order>, productos: seq<Product>, month: Option<int>, year: Option<int>)
    returns (rep: Report)
    ensures IsReport(rep, orders, productos, month, year)
  {
    var selected := SelectOrders(orders, month, year);
    var counts := TallyItems(selected);
    var top := TopOf(Rank(Entries(counts, productos)));
    TopOfTally(counts, ItemsOf(selected), productos);
    rep := Report(|selected|, top, |selected|);
  }

  /** The top ten of an exact tally: ranked, each entry a named product with its
      exact count and name, no product twice, and no named product left out
      that outranks the tenth. */
  lemma TopOfTally(counts: seq<Tally>, items: seq<PricedItem>, productos: seq<Product>)
    requires Tallies(counts, items)
    ensures var top := TopOf(Rank(Entries(counts, productos)));
      && Ranked(top)
      && (forall t :: t in top ==>
            Mentions(items, t.productId) && t.cantidad == CountIn(items, t.productId) &&
            t.nombre == NameOf(productos, t.productId))
      && (forall i, j :: 0 <= i < j < |top| ==> top[i].productId != top[j].productId)
      && (forall pid :: Mentions(items, pid) ==>
            var t := TopProduct(pid, NameOf(productos, pid), CountIn(items, pid));
            t in top || (|top| == TOP_N && RanksBefore(top[TOP_N - 1], t)))
  {
    var es := Entries(counts, productos);
    EntriesOfTally(counts, items, productos);
    TopEntries(es, items, productos);
    TopCompleteness(es, items, productos);
  }

  /** `es` holds exactly one entry per product the lines name, with that
      product's total and name. */
  ghost predicate ExactEntries(es: seq<TopProduct>, items: seq<PricedItem>, productos: seq<Product>) {
    && (forall t :: t in es ==>
          Mentions(items, t.productId) && t.cantidad == CountIn(items, t.productId) &&
          t.nombre == NameOf(productos, t.productId))
    && (forall i, j :: 0 <= i < j < |es| ==> es[i].productId != es[j].productId)
    && (forall pid :: Mentions(items, pid) ==>
          TopProduct(pid, NameOf(productos, pid), CountIn(items, pid)) in es)
  }

  /** The entries of an exact tally are exact. */
  lemma EntriesOfTally(counts: seq<Tally>, items: seq<PricedItem>, productos: seq<Product>)
    requires Tallies(counts, items)
    ensures ExactEntries(Entries(counts, productos), items, productos)
  {
    var es := Entries(counts, productos);
    forall pid | Mentions(items, pid)
      ensures TopProduct(pid, NameOf(productos, pid), CountIn(items, pid)) in es
    {
      var k :| 0 <= k < |counts| && counts[k].productId == pid;
      assert es[k] == TopProduct(pid, NameOf(productos, pid), CountIn(items, pid));
    }
  }

  /** The top ten of exact entries is ranked, exact and free of repeats. */
  lemma TopEntries(es: seq<TopProduct>, items: seq<PricedItem>, productos: seq<Product>)
    requires ExactEntries(es, items, productos)
    ensures var top := TopOf(Rank(es));
      && Ranked(top)
      && (forall t :: t in top ==>
            Mentions(items, t.productId) && t.cantidad == CountIn(items, t.productId) &&
            t.nombre == NameOf(productos, t.productId))
      && (forall i, j :: 0 <= i < j < |top| ==> top[i].productId != top[j].productId)
  {
    var ranked := Rank(es);
    RankSameElements(es);
    DistinctAfterPermutation(es, ranked);
    var top := TopOf(ranked);
    assert forall i :: 0 <= i < |top| ==> top[i] == ranked[i];
    assert forall t :: t in top ==> t in ranked;
  }

  /** No product the lines name is missing from the top ten of exact entries
      unless ten entries rank before it. */
  lemma TopCompleteness(es: seq<TopProduct>, items: seq<PricedItem>, productos: seq<Product>)
    requires ExactEntries(es, items, productos)
    ensures var top := TopOf(Rank(es));
      forall pid :: Mentions(items, pid) ==>
        var t := TopProduct(pid, NameOf(productos, pid), CountIn(items, pid));
        t in top || (|top| == TOP_N && RanksBefore(top[TOP_N - 1], t))
  {
    var ranked := Rank(es);
    RankSameElements(es);
    forall pid | Mentions(items, pid)
      ensures var t := TopProduct(pid, NameOf(productos, pid), CountIn(items, pid));
              t in TopOf(ranked) || (|TopOf(ranked)| == TOP_N && RanksBefore(TopOf(ranked)[TOP_N - 1], t))
    {
      TopContains(ranked, TopProduct(pid, NameOf(productos, pid), CountIn(items, pid)));
    }
  }

  /** Sorting neither adds nor drops an entry. */
  lemma RankSameElements(es: seq<TopProduct>)
    ensures forall t :: t in Rank(es) <==> t in es
  {
    var ranked := Rank(es);
    forall t ensures t in ranked <==> t in es {
      calc {
        t in ranked;
        t in multiset(ranked);
        t in multiset(es);
        t in es;
      }
    }
  }

  /** An entry of a ranked list is in its first ten, or the tenth ranks before it. */
  lemma TopContains(ranked: seq<TopProduct>, t: TopProduct)
    requires Ranked(ranked) && t in ranked
    ensures var top := TopOf(ranked);
            t in top || (|top| == TOP_N && RanksBefore(top[TOP_N - 1], t))
  {
    var top := TopOf(ranked);
    var m :| 0 <= m < |ranked| && ranked[m] == t;
    if m < TOP_N {
      assert top[m] == t;
    } else {
      assert top[TOP_N - 1] == ranked[TOP_N - 1];
    }
  }

  /** With distinct product ids, no entry occurs twice. */
  lemma {:induction false} OccursOnce(a: seq<TopProduct>, x: TopProduct)
    requires forall i, j :: 0 <= i < j < |a| ==> a[i].productId != a[j].productId
    ensures multiset(a)[x] <= 1
  {
    if a != [] {
      var rest := a[1..];
      assert a == [a[0]] + rest;
      assert forall i, j :: 0 <= i < j < |rest| ==> rest[i].productId != rest[j].productId by {
        forall i, j | 0 <= i < j < |rest| ensures rest[i].productId != rest[j].productId {
          assert rest[i] == a[i + 1] && rest[j] == a[j + 1];
        }
      }
      OccursOnce(rest, x);
      if a[0] == x {
        assert forall k :: 0 <= k < |rest| ==> rest[k] != x by {
          forall k | 0 <= k < |rest| ensures rest[k] != x {
            assert rest[k] == a[k + 1];
          }
        }
        assert x !in rest;
      }
    }
  }

  /** A permutation of a list with distinct product ids has distinct product ids. */
  lemma DistinctAfterPermutation(a: seq<TopProduct>, b: seq<TopProduct>)
    requires multiset(a) == multiset(b)
    requires forall i, j :: 0 <= i < j < |a| ==> a[i].productId != a[j].productId
    ensures forall i, j :: 0 <= i < j < |b| ==> b[i].productId != b[j].productId
  {
    forall i, j | 0 <= i < j < |b|
      ensures b[i].productId != b[j].productId
    {
      if b[i] == b[j] {
        TwoOccurrences(b, i, j);
        OccursOnce(a, b[i]);
      } else {
        assert b[i] in multiset(a) && b[j] in multiset(a);
        var p :| 0 <= p < |a| && a[p] == b[i];
        var q :| 0 <= q < |a| && a[q] == b[j];
      }
    }
  }

  /** An element at two indices occurs at least twice. */
  lemma TwoOccurrences(b: seq<TopProduct>, i: nat, j: nat)
    requires i < j < |b| && b[i] == b[j]
    ensures multiset(b)[b[i]] >= 2
  {
    assert b == b[..j] + [b[j]] + b[j + 1..];
    assert b[..j][i] == b[i];
    assert multiset(b[..j])[b[i]] >= 1;
  }

}
