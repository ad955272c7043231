/** The access rules of the back end: what each role sees of products,
    categories and orders, and the category-assignment index they consult. */
module Policy {
  import opened Common
  import opened Store

  // ---------------------------------------------------------------------------
  // Category assignment index (`product_categories`)

  /** Some row assigns product `pid` to category `cid`. */
  predicate Assigned(pcs: seq<Assignment>, pid: int, cid: int) {
    exists a :: a in pcs && a.productId == pid && a.categoryId == cid
  }

  /** The rows that assign product `pid`, in order. */
  function AssignmentsOf(pcs: seq<Assignment>, pid: int): (r: seq<Assignment>)
    ensures forall a :: a in r <==> a in pcs && a.productId == pid
  {
    Filter(pcs, (a: Assignment) => a.productId == pid)
  }

  /** Every product is assigned to at most one category. */
  ghost predicate SingleCategory(pcs: seq<Assignment>) {
    forall pid :: |AssignmentsOf(pcs, pid)| <= 1
  }

  /** POST /products/:id/category: drop every row for `pid`, then add one if
      `categoryId` is truthy. */
  function Reassign(pcs: seq<Assignment>, pid: int, categoryId: Option<int>): (r: seq<Assignment>)
    ensures AssignmentsOf(r, pid) == if Truthy(categoryId) then [Assignment(pid, categoryId.value)] else []
    ensures forall q :: q != pid ==> AssignmentsOf(r, q) == AssignmentsOf(pcs, q)
  {
    var kept := Filter(pcs, (a: Assignment) => a.productId != pid);
    var added := if Truthy(categoryId) then [Assignment(pid, categoryId.value)] else [];
    var r := kept + added;
    FilterAppend(kept, added, (a: Assignment) => a.productId == pid);
    FilterKeepsNone(kept, (a: Assignment) => a.productId == pid);
    forall q | q != pid
      ensures AssignmentsOf(r, q) == AssignmentsOf(pcs, q)
    {
      FilterAppend(kept, added, (a: Assignment) => a.productId == q);
      FilterFilter(pcs, (a: Assignment) => a.productId != pid, (a: Assignment) => a.productId == q);
      FilterKeepsNone(added, (a: Assignment) => a.productId == q);
    }
    r
  }

  /** Reassigning keeps every product at one category at most. */
  lemma ReassignKeepsSingle(pcs: seq<Assignment>, pid: int, categoryId: Option<int>)
    requires SingleCategory(pcs)
    ensures SingleCategory(Reassign(pcs, pid, categoryId))
  {
    var r := Reassign(pcs, pid, categoryId);
    forall q ensures |AssignmentsOf(r, q)| <= 1 {
      if q != pid { assert |AssignmentsOf(pcs, q)| <= 1; }
    }
  }

  /** DELETE /products/:id cascade: the rows of every other product. */
  function WithoutProduct(pcs: seq<Assignment>, pid: int): (r: seq<Assignment>)
    ensures AssignmentsOf(r, pid) == []
    ensures forall q :: q != pid ==> AssignmentsOf(r, q) == AssignmentsOf(pcs, q)
  {
    var r := Filter(pcs, (a: Assignment) => a.productId != pid);
    FilterKeepsNone(r, (a: Assignment) => a.productId == pid);
    forall q | q != pid
      ensures AssignmentsOf(r, q) == AssignmentsOf(pcs, q)
    {
      FilterFilter(pcs, (a: Assignment) => a.productId != pid, (a: Assignment) => a.productId == q);
    }
    r
  }

  /** DELETE /categories/:id cascade: the rows pointing at every other category. */
  function WithoutCategory(pcs: seq<Assignment>, cid: int): (r: seq<Assignment>)
    ensures forall a :: a in r <==> a in pcs && a.categoryId != cid
    ensures forall pid :: |AssignmentsOf(r, pid)| <= |AssignmentsOf(pcs, pid)|
  {
    var r := Filter(pcs, (a: Assignment) => a.categoryId != cid);
    forall pid ensures |AssignmentsOf(r, pid)| <= |AssignmentsOf(pcs, pid)| {
      FilterCommute(pcs, (a: Assignment) => a.categoryId != cid, (a: Assignment) => a.productId == pid);
    }
    r
  }

  // ---------------------------------------------------------------------------
  // Role filters (GET /products, GET /categories, GET /orders)

  /** Ids of the products that some row puts in the cleaning category. */
  function CleaningProductIds(pcs: seq<Assignment>): (ids: seq<int>)
    ensures forall pid :: pid in ids <==> Assigned(pcs, pid, CLEANING_CATEGORY)
  {
    var rows := Filter(pcs, (a: Assignment) => a.categoryId == CLEANING_CATEGORY);
    var ids := seq(|rows|, i requires 0 <= i < |rows| => rows[i].productId);
    assert forall pid :: pid in ids ==> Assigned(pcs, pid, CLEANING_CATEGORY) by {
      forall pid | pid in ids ensures Assigned(pcs, pid, CLEANING_CATEGORY) {
        var i :| 0 <= i < |ids| && ids[i] == pid;
        assert rows[i] in rows;
      }
    }
    assert forall pid :: Assigned(pcs, pid, CLEANING_CATEGORY) ==> pid in ids by {
      forall pid | Assigned(pcs, pid, CLEANING_CATEGORY) ensures pid in ids {
        var a :| a in pcs && a.productId == pid && a.categoryId == CLEANING_CATEGORY;
        var i :| 0 <= i < |rows| && rows[i] == a;
        assert ids[i] == pid;
      }
    }
    ids
  }

  /** The product list a principal of role `tipo` receives: a Limited user
      loses every product with any cleaning-category row; everyone else gets the list as stored. */
  function VisibleProducts(tipo: int, productos: seq<Product>, pcs: seq<Assignment>): (r: seq<Product>)
    ensures tipo == LIMITED ==>
      forall p :: p in r <==> p in productos && !Assigned(pcs, p.id, CLEANING_CATEGORY)
    ensures tipo != LIMITED ==> r == productos
  {
    if tipo == LIMITED then
      var hidden := CleaningProductIds(pcs);
      Filter(productos, (p: Product) => p.id !in hidden)
    else productos
  }

  /** Hiding products never reorders them: the filtered catalogue of a
      concatenation is the concatenation of the filtered parts. */
  lemma VisibleProductsInOrder(tipo: int, a: seq<Product>, b: seq<Product>, pcs: seq<Assignment>)
    ensures VisibleProducts(tipo, a + b, pcs) == VisibleProducts(tipo, a, pcs) + VisibleProducts(tipo, b, pcs)
  {
    if tipo == LIMITED {
      var hidden := CleaningProductIds(pcs);
      FilterAppend(a, b, (p: Product) => p.id !in hidden);
    }
  }

  /** The category list for role `tipo`: Limited users do not see the cleaning category. */
  function VisibleCategories(tipo: int, categories: seq<Category>): (r: seq<Category>)
    ensures tipo == LIMITED ==> forall c :: c in r <==> c in categories && c.id != CLEANING_CATEGORY
    ensures tipo != LIMITED ==> r == categories
  {
    if tipo == LIMITED then Filter(categories, (c: Category) => c.id != CLEANING_CATEGORY)
    else categories
  }

  /** Hiding the cleaning category never reorders the list. */
  lemma VisibleCategoriesInOrder(tipo: int, a: seq<Category>, b: seq<Category>)
    ensures VisibleCategories(tipo, a + b) == VisibleCategories(tipo, a) + VisibleCategories(tipo, b)
  {
    if tipo == LIMITED {
      FilterAppend(a, b, (c: Category) => c.id != CLEANING_CATEGORY);
    }
  }

  /** The orders a principal sees: all of them for an Admin, their own otherwise. */
  function VisibleOrders(s: Session, orders: seq<Order>): (r: seq<Order>)
    ensures s.tipo == ADMIN ==> r == orders
    ensures s.tipo != ADMIN ==> forall o :: o in r <==> o in orders && o.userId == s.userId
  {
    if s.tipo != ADMIN then Filter(orders, (o: Order) => o.userId == s.userId)
    else orders
  }

  /** An order appended to the store shows up at the end of the lists of the
      principals allowed to see it, and nowhere else changes. */
  lemma VisibleOrdersAppend(s: Session, orders: seq<Order>, o: Order)
    ensures VisibleOrders(s, orders + [o]) ==
      VisibleOrders(s, orders) + (if s.tipo == ADMIN || o.userId == s.userId then [o] else [])
  {
    if s.tipo != ADMIN {
      FilterAppend(orders, [o], (x: Order) => x.userId == s.userId);
      assert [o][1..] == [];
    }
  }

  /** GET /orders/:id decision: 404 when no order has the id (checked first),
      403 when a non-admin does not own it, the first order with that id otherwise. */
  function ReadOrder(s: Session, orders: seq<Order>, id: int): (r: Response<Order>)
    ensures r.Ok? || r.Err403? || r.Err404?
    ensures r.Err404? <==> forall o :: o in orders ==> o.id != id
    ensures r.Err403? <==> var k := IndexOfId(orders, OrderId, id);
                           0 <= k && s.tipo != ADMIN && orders[k].userId != s.userId
    ensures r.Ok? ==> r.payload in orders && r.payload.id == id &&
                      (s.tipo == ADMIN || r.payload.userId == s.userId)
    ensures r.Ok? ==> r.payload == orders[IndexOfId(orders, OrderId, id)]
  {
    var k := IndexOfId(orders, OrderId, id);
    if k < 0 then Err404
    else if s.tipo != ADMIN && orders[k].userId != s.userId then Err403
    else Ok(orders[k])
  }
}
