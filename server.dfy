/** The Express back end: an in-memory session registry and the JSON database,
    with one method per endpoint. Each method answers with the payload or the
    status code the handler sends. */
module Server {
  import opened Common
  import opened Store
  import opened Policy
  import opened Orders
  import opened Analytics

  /** The `user` object of a successful login. */
  datatype LoginUser = LoginUser(id: int, username: string, nombre: string, tipo: int, sucursalId: Option<int>)

  datatype LoginReply = LoginReply(token: string, user: LoginUser)

  /** An element of GET /orders: the order with its branch. */
  datatype OrderView = OrderView(order: Order, sucursal: Option<Sucursal>)

  /** GET /orders/:id: the order with its branch and its owner's record. */
  datatype OrderDetail = OrderDetail(order: Order, sucursal: Option<Sucursal>, user: Option<User>)

  /** The body of POST /users; absent optional fields are None. */
  datatype NewUser = NewUser(
    username: string,
    password: string,
    nombre: string,
    tipo: int,
    sucursalId: Option<int>,
    viewAllCategories: Option<bool>,
    allowedCategories: Option<seq<int>>)

  /** The body of PUT /users/:id; an absent field is None. For `sucursalId`,
      Some(None) is an explicit null. */
  datatype UserPatch = UserPatch(
    username: Option<string>,
    password: Option<string>,
    nombre: Option<string>,
    tipo: Option<int>,
    sucursalId: Option<Option<int>>,
    viewAllCategories: Option<bool>,
    allowedCategories: Option<seq<int>>)

  // ---------------------------------------------------------------------------
  /** The user a login matches: the first with both that username and that password. */
  function FindCredentials(users: seq<User>, username: string, password: string): (r: Option<User>)
    ensures r.Some? <==> exists u :: u in users && u.username == username && u.password == password
    ensures r.Some? ==> r.value in users && r.value.username == username && r.value.password == password
    ensures r.Some? ==>
      exists i :: 0 <= i < |users| && users[i] == r.value &&
                  forall k :: 0 <= k < i ==> !(users[k].username == username && users[k].password == password)
  {
    Find(users, (u: User) => u.username == username && u.password == password)
  }

  /** The first branch with the order's branch id; an order without a branch has none. */
  function SucursalOf(sucursales: seq<Sucursal>, sid: Option<int>): (r: Option<Sucursal>)
    ensures r.Some? ==> r.value in sucursales && sid == Some(r.value.id)
    ensures r.None? <==> sid.None? || forall s :: s in sucursales ==> s.id != sid.value
    ensures r.Some? ==> r.value == sucursales[IndexOfId(sucursales, SucursalId, sid.value)]
  {
    if sid.None? then None
    else
      var k := IndexOfId(sucursales, SucursalId, sid.value);
      if k < 0 then None else Some(sucursales[k])
  }

  /** Each order, in order, paired with its branch record. */
  function Annotate(orders: seq<Order>, sucursales: seq<Sucursal>): (r: seq<OrderView>)
    ensures |r| == |orders|
    ensures forall i :: 0 <= i < |orders| ==>
      r[i].order == orders[i] && r[i].sucursal == SucursalOf(sucursales, orders[i].sucursalId)
  {
    seq(|orders|, i requires 0 <= i < |orders| => OrderView(orders[i], SucursalOf(sucursales, orders[i].sucursalId)))
  }

  // ---------------------------------------------------------------------------
  // Sessions

  /** The session map after POST /auth/logout: the token is deleted when one is supplied. */
  function Revoked(sessions: map<string, Session>, token: Option<string>): (r: map<string, Session>)
    ensures Given(token) ==> r == sessions - {token.value} && token.value !in r
    ensures !Given(token) ==> r == sessions
  {
    if Given(token) then sessions - {token.value} else sessions
  }

  /** Logging out twice is logging out once. */
  lemma RevokedIdempotent(sessions: map<string, Session>, token: Option<string>)
    ensures Revoked(Revoked(sessions, token), token) == Revoked(sessions, token)
  {
  }

  // ---------------------------------------------------------------------------
  // Record construction

  /** The record POST /users stores. */
  function NewUserRecord(id: int, req: NewUser): (u: User)
    ensures u.id == id && u.username == req.username && u.password == req.password
    ensures u.nombre == req.nombre && u.tipo == req.tipo
    ensures u.sucursalId == if Truthy(req.sucursalId) then req.sucursalId else None
    ensures u.viewAllCategories == (req.viewAllCategories == Some(true))
    ensures u.allowedCategories == req.allowedCategories.GetOr([])
  {
    User(id, req.username, req.password, req.nombre, req.tipo,
         if Truthy(req.sucursalId) then req.sucursalId else None,
         req.viewAllCategories.GetOr(false),
         req.allowedCategories.GetOr([]))
  }

  /** The record PUT /users/:id stores: omitted fields keep their value, and so
      do username, password and nombre when given empty. */
  function Patched(u: User, p: UserPatch): (v: User)
    ensures v.id == u.id
    ensures !Given(p.username) ==> v.username == u.username
    ensures Given(p.username) ==> v.username == p.username.value
    ensures !Given(p.password) ==> v.password == u.password
    ensures Given(p.password) ==> v.password == p.password.value
    ensures !Given(p.nombre) ==> v.nombre == u.nombre
    ensures Given(p.nombre) ==> v.nombre == p.nombre.value
    ensures v.tipo == p.tipo.GetOr(u.tipo)
    ensures p.sucursalId.None? ==> v.sucursalId == u.sucursalId
    ensures p.sucursalId.Some? ==> v.sucursalId == if Truthy(p.sucursalId.value) then p.sucursalId.value else None
    ensures v.viewAllCategories == p.viewAllCategories.GetOr(u.viewAllCategories)
    ensures v.allowedCategories == p.allowedCategories.GetOr(u.allowedCategories)
  {
    u.(username := if Given(p.username) then p.username.value else u.username,
       password := if Given(p.password) then p.password.value else u.password,
       nombre := if Given(p.nombre) then p.nombre.value else u.nombre,
       tipo := p.tipo.GetOr(u.tipo),
       sucursalId := match p.sucursalId
                     case None => u.sucursalId
                     case Some(s) => if Truthy(s) then s else None,
       viewAllCategories := p.viewAllCategories.GetOr(u.viewAllCategories),
       allowedCategories := p.allowedCategories.GetOr(u.allowedCategories))
  }

  /** Some user other than `id` already has the username `name`. */
  predicate UsernameTaken(users: seq<User>, name: string, id: int) {
    exists u :: u in users && u.username == name && u.id != id
  }

  /** Patching the user at `k` with a username no other id holds keeps usernames unique. */
  lemma PatchKeepsUniqueUsernames(users: seq<User>, k: nat, p: UserPatch)
    requires k < |users|
    requires UniqueUsernames(users) && DistinctIds(Ids(users, UserId))
    requires p.username.Some? ==> !UsernameTaken(users, p.username.value, users[k].id)
    ensures UniqueUsernames(users[k := Patched(users[k], p)])
  {
    var r := users[k := Patched(users[k], p)];
    forall i, j | 0 <= i < j < |r| ensures r[i].username != r[j].username {
      if (i == k || j == k) && Given(p.username) {
        var other := if i == k then j else i;
        assert Ids(users, UserId)[other] != Ids(users, UserId)[k];
        assert users[other] in users;
      }
    }
  }

  /** Appending a user whose username nobody holds, under a fresh id, keeps
      usernames unique and ids distinct. */
  lemma AppendUserKeepsUnique(users: seq<User>, u: User)
    requires UniqueUsernames(users) && DistinctIds(Ids(users, UserId))
    requires forall v :: v in users ==> v.username != u.username
    requires u.id == NextId(Ids(users, UserId))
    ensures UniqueUsernames(users + [u]) && DistinctIds(Ids(users + [u], UserId))
  {
    NextIdKeepsDistinct(Ids(users, UserId));
    assert Ids(users + [u], UserId) == Ids(users, UserId) + [u.id];
    forall i, j | 0 <= i < j < |users| + 1 ensures (users + [u])[i].username != (users + [u])[j].username {
      if j == |users| { assert users[i] in users; }
    }
  }

  function ProductsWithout(ps: seq<Product>, id: int): (r: seq<Product>)
    ensures forall p :: p in r <==> p in ps && p.id != id
  {
    Filter(ps, (p: Product) => p.id != id)
  }

  function CategoriesWithout(cs: seq<Category>, id: int): (r: seq<Category>)
    ensures forall c :: c in r <==> c in cs && c.id != id
  {
    Filter(cs, (c: Category) => c.id != id)
  }

  function UsersWithout(us: seq<User>, id: int): (r: seq<User>)
    ensures forall u :: u in r <==> u in us && u.id != id
  {
    Filter(us, (u: User) => u.id != id)
  }

  /** Deleting users keeps usernames unique. */
  lemma {:induction false} UsersWithoutKeepsUnique(us: seq<User>, id: int)
    requires UniqueUsernames(us)
    ensures UniqueUsernames(UsersWithout(us, id))
  {
    if us != [] {
      var rest := us[1..];
      assert UniqueUsernames(rest) by {
        forall i, j | 0 <= i < j < |rest| ensures rest[i].username != rest[j].username {
          assert rest[i] == us[i + 1] && rest[j] == us[j + 1];
        }
      }
      UsersWithoutKeepsUnique(rest, id);
      assert forall v :: v in rest ==> v.username != us[0].username by {
        forall v | v in rest ensures v.username != us[0].username {
          var m :| 0 <= m < |rest| && rest[m] == v;
          assert us[m + 1] == v;
        }
      }
      var fr := UsersWithout(rest, id);
      assert UsersWithout(us, id) == if us[0].id != id then [us[0]] + fr else fr;
    }
  }

  // ---------------------------------------------------------------------------
  // The order detail of GET /orders/:id

  /** The order detail as the source builds it: the order, its branch, and the
      owner's user record with every field, the first user with the owner's id. */
  function OrderDetailOf(db: Db, o: Order): (d: OrderDetail)
    ensures d.order == o
    ensures d.sucursal == SucursalOf(db.sucursales, o.sucursalId)
    ensures d.user.Some? ==> d.user.value in db.users && d.user.value.id == o.userId
    ensures d.user.None? <==> forall u :: u in db.users ==> u.id != o.userId
    ensures d.user.Some? ==> d.user.value == db.users[IndexOfId(db.users, UserId, o.userId)]
  {
    var k := IndexOfId(db.users, UserId, o.userId);
    OrderDetail(o, SucursalOf(db.sucursales, o.sucursalId), if k < 0 then None else Some(db.users[k]))
  }

  /** The order detail carries the owner's password, which every /users
      endpoint withholds. */
  lemma OrderDetailLeaksPassword(db: Db, o: Order, owner: User)
    requires owner in db.users && owner.id == o.userId
    requires forall u :: u in db.users && u.id == o.userId ==> u == owner
    ensures OrderDetailOf(db, o).user == Some(owner)
    ensures OrderDetailOf(db, o).user.value.password == owner.password
  {
  }

  /** The order detail as evidently intended: the owner appears with the same
      redaction the /users endpoints apply. */
  datatype PublicOrderDetail = PublicOrderDetail(order: Order, sucursal: Option<Sucursal>, user: Option<PublicUser>)

  function RedactedOrderDetailOf(db: Db, o: Order): (d: PublicOrderDetail)
    ensures d.order == o && d.sucursal == SucursalOf(db.sucursales, o.sucursalId)
    ensures d.user.None? <==> forall u :: u in db.users ==> u.id != o.userId
    ensures d.user.Some? ==> exists u :: u in db.users && u.id == o.userId && d.user.value == Redact(u)
    ensures var leaky := OrderDetailOf(db, o);
      leaky.user.Some? ==> d.user == Some(Redact(leaky.user.value))
  {
    var full := OrderDetailOf(db, o);
    PublicOrderDetail(o, full.sucursal, if full.user.Some? then Some(Redact(full.user.value)) else None)
  }

  // ---------------------------------------------------------------------------
  // The server state

  class Engine {
    /** `sessions`: token to principal snapshot. */
    var sessions: map<string, Session>
    /** The database document every handler reads and writes back. */
    var db: Db

    constructor (initial: Db)
      ensures sessions == map[] && db == initial
    {
      sessions := map[];
      db := initial;
    }

    /** The `authenticate` middleware: 401 unless the token is in the session map. */
    function Authenticate(token: Option<string>): (r: Response<Session>)
      reads this
      ensures r.Ok? || r.Err401?
      ensures r.Err401? <==> token.None? || token.value !in sessions
      ensures r.Ok? ==> r.payload == sessions[token.value]
    {
      if token.Some? && token.value in sessions then Ok(sessions[token.value]) else Err401
    }

    /** `authenticate` followed by the Admin-only guard: 403 unless the caller's `tipo` is 1. */
    function AuthenticateAdmin(token: Option<string>): (r: Response<Session>)
      reads this
      ensures r.Ok? || r.Err401? || r.Err403?
      ensures r.Err401? <==> Authenticate(token).Err401?
      ensures r.Err403? <==> Authenticate(token).Ok? && Authenticate(token).payload.tipo != ADMIN
      ensures r.Ok? ==> r == Authenticate(token) && r.payload.tipo == ADMIN
    {
      var a := Authenticate(token);
      if a.Ok? && a.payload.tipo != ADMIN then Err403 else a
    }

    // ----- /auth

    /** POST /auth/login; `token` stands for the freshly generated token. */
    method Login(username: string, password: string, token: string) returns (r: Response<LoginReply>)
      modifies this`sessions
      ensures r.Ok? || r.Err401?
      ensures r.Ok? <==> exists u :: u in db.users && u.username == username && u.password == password
      ensures r.Ok? ==>
        var u := FindCredentials(db.users, username, password).value;
        && r.payload == LoginReply(token, LoginUser(u.id, u.username, u.nombre, u.tipo, u.sucursalId))
        && sessions == old(sessions)[token := Session(u.id, u.tipo, u.sucursalId)]
      ensures r.Err401? ==> sessions == old(sessions)
    {
      var found := FindCredentials(db.users, username, password);
      if found.None? {
        return Err401;
      }
      var u := found.value;
      sessions := sessions[token := Session(u.id, u.tipo, u.sucursalId)];
      r := Ok(LoginReply(token, LoginUser(u.id, u.username, u.nombre, u.tipo, u.sucursalId)));
    }

    /** POST /auth/logout: always succeeds. */
    method Logout(token: Option<string>) returns (r: Response<()>)
      modifies this`sessions
      ensures r == Ok(())
      ensures sessions == Revoked(old(sessions), token)
      ensures Authenticate(token).Err401? || !Given(token)
    {
      if Given(token) {
        sessions := sessions - {token.value};
      }
      r := Ok(());
    }

    // ----- /products, /categories, /sucursales (reads)

    /** GET /products */
    method GetProducts(token: Option<string>) returns (r: Response<seq<Product>>)
      ensures r.Err401? <==> Authenticate(token).Err401?
      ensures r.Ok? || r.Err401?
      ensures r.Ok? ==> r.payload == VisibleProducts(Authenticate(token).payload.tipo, db.productos, db.productCategories)
    {
      var auth := Authenticate(token);
      if !auth.Ok? {
        return Err401;
      }
      r := Ok(VisibleProducts(auth.payload.tipo, db.productos, db.productCategories));
    }

    /** GET /products/:id: no role filter applies. */
    method GetProduct(token: Option<string>, id: int) returns (r: Response<Product>)
      ensures r.Ok? || r.Err401? || r.Err404?
      ensures r.Err401? <==> Authenticate(token).Err401?
      ensures r.Err404? <==> Authenticate(token).Ok? && forall p :: p in db.productos ==> p.id != id
      ensures r.Ok? ==> var k := IndexOfId(db.productos, ProductId, id); 0 <= k && r.payload == db.productos[k]
    {
      var auth := Authenticate(token);
      if !auth.Ok? {
        return Err401;
      }
      var k := IndexOfId(db.productos, ProductId, id);
      if k < 0 {
        return Err404;
      }
      r := Ok(db.productos[k]);
    }

    /** GET /categories */
    method GetCategories(token: Option<string>) returns (r: Response<seq<Category>>)
      ensures r.Ok? || r.Err401?
      ensures r.Err401? <==> Authenticate(token).Err401?
      ensures r.Ok? ==> r.payload == VisibleCategories(Authenticate(token).payload.tipo, db.categories)
    {
      var auth := Authenticate(token);
      if !auth.Ok? {
        return Err401;
      }
      r := Ok(VisibleCategories(auth.payload.tipo, db.categories));
    }

    /** GET /sucursales */
    method GetSucursales(token: Option<string>) returns (r: Response<seq<Sucursal>>)
      ensures r.Ok? || r.Err401?
      ensures r.Err401? <==> Authenticate(token).Err401?
      ensures r.Ok? ==> r.payload == db.sucursales
    {
      var auth := Authenticate(token);
      if !auth.Ok? {
        return Err401;
      }
      r := Ok(db.sucursales);
    }

    // ----- /orders

    /** GET /orders: the principal's visible orders, each with its branch. */
    method GetOrders(token: Option<string>) returns (r: Response<seq<OrderView>>)
      ensures r.Ok? || r.Err401?
      ensures r.Err401? <==> Authenticate(token).Err401?
      ensures r.Ok? ==> r.payload == Annotate(VisibleOrders(Authenticate(token).payload, db.orders), db.sucursales)
    {
      var auth := Authenticate(token);
      if !auth.Ok? {
        return Err401;
      }
      r := Ok(Annotate(VisibleOrders(auth.payload, db.orders), db.sucursales));
    }

    /** GET /orders/:id: 404 before the ownership check, then 403. */
    method GetOrder(token: Option<string>, id: int) returns (r: Response<OrderDetail>)
      ensures r.Err401? <==> Authenticate(token).Err401?
      ensures Authenticate(token).Ok? ==>
        var decision := ReadOrder(Authenticate(token).payload, db.orders, id);
        && (!decision.Ok? ==> r == Forward(decision))
        && (decision.Ok? ==> r == Ok(OrderDetailOf(db, decision.payload)))
    {
      var auth := Authenticate(token);
      if !auth.Ok? {
        return Err401;
      }
      var decision := ReadOrder(auth.payload, db.orders, id);
      if !decision.Ok? {
        return Forward(decision);
      }
      r := Ok(OrderDetailOf(db, decision.payload));
    }

    /** POST /orders: prices every line, appends the order with the next id. */
    method CreateOrder(token: Option<string>, items: seq<LineItem>, now: Date) returns (r: Response<Order>)
      modifies this`db
      ensures r.Ok? || r.Err401?
      ensures r.Err401? <==> Authenticate(token).Err401?
      ensures r.Err401? ==> db == old(db)
      ensures r.Ok? ==>
        var s, o := Authenticate(token).payload, r.payload;
        && o.id == NextId(Ids(old(db.orders), OrderId))
        && o.userId == s.userId && o.sucursalId == s.sucursalId
        && o.items == Priced(old(db.productos), items)
        && o.total == LinesTotal(o.items)
        && o.fecha == now && o.estado == "pendiente"
        && db == old(db).(orders := old(db.orders) + [o])
      ensures DistinctIds(Ids(old(db.orders), OrderId)) ==> DistinctIds(Ids(db.orders, OrderId))
    {
      var auth := Authenticate(token);
      if !auth.Ok? {
        return Err401;
      }
      var lines, total := PriceItems(db.productos, items);
      var o := Order(NextId(Ids(db.orders, OrderId)), auth.payload.userId, auth.payload.sucursalId,
                     lines, total, now, "pendiente");
      if DistinctIds(Ids(db.orders, OrderId)) {
        NextIdKeepsDistinct(Ids(db.orders, OrderId));
        assert Ids(db.orders + [o], OrderId) == Ids(db.orders, OrderId) + [o.id];
      }
      db := db.(orders := db.orders + [o]);
      r := Ok(o);
    }

    /** PATCH /orders/:id/status: any `estado` is accepted. */
    method UpdateOrderStatus(token: Option<string>, id: int, estado: string) returns (r: Response<Order>)
      modifies this`db
      ensures !AuthenticateAdmin(token).Ok? ==> r == Forward(AuthenticateAdmin(token)) && db == old(db)
      ensures AuthenticateAdmin(token).Ok? ==>
        var k := IndexOfId(old(db.orders), OrderId, id);
        && (k < 0 ==> r.Err404? && db == old(db))
        && (0 <= k ==>
              var o := old(db.orders)[k].(estado := estado);
              r == Ok(o) && db == old(db).(orders := old(db.orders)[k := o]))
    {
      var auth := AuthenticateAdmin(token);
      if !auth.Ok? {
        return Forward(auth);
      }
      var k := IndexOfId(db.orders, OrderId, id);
      if k < 0 {
        return Err404;
      }
      var o := db.orders[k].(estado := estado);
      db := db.(orders := db.orders[k := o]);
      r := Ok(o);
    }

    // ----- /products (admin)

    /** POST /products: `precio` defaults to 0. */
    method CreateProduct(token: Option<string>, articulo: string, precio: Option<int>) returns (r: Response<Product>)
      modifies this`db
      ensures !AuthenticateAdmin(token).Ok? ==> r == Forward(AuthenticateAdmin(token)) && db == old(db)
      ensures AuthenticateAdmin(token).Ok? ==>
        var p := Product(NextId(Ids(old(db.productos), ProductId)), articulo, precio.GetOr(0));
        r == Ok(p) && db == old(db).(productos := old(db.productos) + [p])
      ensures DistinctIds(Ids(old(db.productos), ProductId)) ==> DistinctIds(Ids(db.productos, ProductId))
    {
      var auth := AuthenticateAdmin(token);
      if !auth.Ok? {
        return Forward(auth);
      }
      var p := Product(NextId(Ids(db.productos, ProductId)), articulo, precio.GetOr(0));
      if DistinctIds(Ids(db.productos, ProductId)) {
        NextIdKeepsDistinct(Ids(db.productos, ProductId));
        assert Ids(db.productos + [p], ProductId) == Ids(db.productos, ProductId) + [p.id];
      }
      db := db.(productos := db.productos + [p]);
      r := Ok(p);
    }

    /** PUT /products/:id: a price of 0 or no price keeps the stored price. */
    method UpdateProduct(token: Option<string>, id: int, articulo: Option<string>, precio: Option<int>)
      returns (r: Response<Product>)
      modifies this`db
      ensures !AuthenticateAdmin(token).Ok? ==> r == Forward(AuthenticateAdmin(token)) && db == old(db)
      ensures AuthenticateAdmin(token).Ok? ==>
        var k := IndexOfId(old(db.productos), ProductId, id);
        && (k < 0 ==> r.Err404? && db == old(db))
        && (0 <= k ==>
              var was := old(db.productos)[k];
              var p := Product(was.id, articulo.GetOr(was.articulo), if Truthy(precio) then precio.value else was.precio);
              r == Ok(p) && db == old(db).(productos := old(db.productos)[k := p]))
    {
      var auth := AuthenticateAdmin(token);
      if !auth.Ok? {
        return Forward(auth);
      }
      var k := IndexOfId(db.productos, ProductId, id);
      if k < 0 {
        return Err404;
      }
      var was := db.productos[k];
      var p := Product(was.id, articulo.GetOr(was.articulo), if Truthy(precio) then precio.value else was.precio);
      db := db.(productos := db.productos[k := p]);
      r := Ok(p);
    }

    /** DELETE /products/:id: succeeds whether or not the product exists, and
        drops its category rows. */
    method DeleteProduct(token: Option<string>, id: int) returns (r: Response<()>)
      modifies this`db
      ensures !AuthenticateAdmin(token).Ok? ==> r == Forward(AuthenticateAdmin(token)) && db == old(db)
      ensures AuthenticateAdmin(token).Ok? ==>
        && r == Ok(())
        && db == old(db).(productos := ProductsWithout(old(db.productos), id),
                          productCategories := WithoutProduct(old(db.productCategories), id))
      ensures SingleCategory(old(db.productCategories)) ==> SingleCategory(db.productCategories)
      ensures DistinctIds(Ids(old(db.productos), ProductId)) ==> DistinctIds(Ids(db.productos, ProductId))
    {
      var auth := AuthenticateAdmin(token);
      if !auth.Ok? {
        return Forward(auth);
      }
      if DistinctIds(Ids(db.productos, ProductId)) {
        FilterKeepsDistinctIds(db.productos, (p: Product) => p.id != id, ProductId);
      }
      db := db.(productos := ProductsWithout(db.productos, id),
                productCategories := WithoutProduct(db.productCategories, id));
      r := Ok(());
    }

    /** POST /products/:id/category: replaces the product's category, or clears
        it when `categoryId` is falsy. The product need not exist. */
    method AssignCategory(token: Option<string>, productId: int, categoryId: Option<int>) returns (r: Response<()>)
      modifies this`db
      ensures !AuthenticateAdmin(token).Ok? ==> r == Forward(AuthenticateAdmin(token)) && db == old(db)
      ensures AuthenticateAdmin(token).Ok? ==>
        r == Ok(()) && db == old(db).(productCategories := Reassign(old(db.productCategories), productId, categoryId))
      ensures SingleCategory(old(db.productCategories)) ==> SingleCategory(db.productCategories)
    {
      var auth := AuthenticateAdmin(token);
      if !auth.Ok? {
        return Forward(auth);
      }
      if SingleCategory(db.productCategories) {
        ReassignKeepsSingle(db.productCategories, productId, categoryId);
      }
      db := db.(productCategories := Reassign(db.productCategories, productId, categoryId));
      r := Ok(());
    }

    // ----- /categories (admin)

    /** POST /categories */
    method CreateCategory(token: Option<string>, nombre: string) returns (r: Response<Category>)
      modifies this`db
      ensures !AuthenticateAdmin(token).Ok? ==> r == Forward(AuthenticateAdmin(token)) && db == old(db)
      ensures AuthenticateAdmin(token).Ok? ==>
        var c := Category(NextId(Ids(old(db.categories), CategoryId)), nombre);
        r == Ok(c) && db == old(db).(categories := old(db.categories) + [c])
      ensures DistinctIds(Ids(old(db.categories), CategoryId)) ==> DistinctIds(Ids(db.categories, CategoryId))
    {
      var auth := AuthenticateAdmin(token);
      if !auth.Ok? {
        return Forward(auth);
      }
      var c := Category(NextId(Ids(db.categories, CategoryId)), nombre);
      if DistinctIds(Ids(db.categories, CategoryId)) {
        NextIdKeepsDistinct(Ids(db.categories, CategoryId));
        assert Ids(db.categories + [c], CategoryId) == Ids(db.categories, CategoryId) + [c.id];
      }
      db := db.(categories := db.categories + [c]);
      r := Ok(c);
    }

    /** PUT /categories/:id */
    method UpdateCategory(token: Option<string>, id: int, nombre: Option<string>) returns (r: Response<Category>)
      modifies this`db
      ensures !AuthenticateAdmin(token).Ok? ==> r == Forward(AuthenticateAdmin(token)) && db == old(db)
      ensures AuthenticateAdmin(token).Ok? ==>
        var k := IndexOfId(old(db.categories), CategoryId, id);
        && (k < 0 ==> r.Err404? && db == old(db))
        && (0 <= k ==>
              var c := old(db.categories)[k].(nombre := nombre.GetOr(old(db.categories)[k].nombre));
              r == Ok(c) && db == old(db).(categories := old(db.categories)[k := c]))
    {
      var auth := AuthenticateAdmin(token);
      if !auth.Ok? {
        return Forward(auth);
      }
      var k := IndexOfId(db.categories, CategoryId, id);
      if k < 0 {
        return Err404;
      }
      var c := db.categories[k].(nombre := nombre.GetOr(db.categories[k].nombre));
      db := db.(categories := db.categories[k := c]);
      r := Ok(c);
    }

    /** DELETE /categories/:id: succeeds whether or not the category exists, and
        drops every row assigning it. */
    method DeleteCategory(token: Option<string>, id: int) returns (r: Response<()>)
      modifies this`db
      ensures !AuthenticateAdmin(token).Ok? ==> r == Forward(AuthenticateAdmin(token)) && db == old(db)
      ensures AuthenticateAdmin(token).Ok? ==>
        && r == Ok(())
        && db == old(db).(categories := CategoriesWithout(old(db.categories), id),
                          productCategories := WithoutCategory(old(db.productCategories), id))
      ensures SingleCategory(old(db.productCategories)) ==> SingleCategory(db.productCategories)
      ensures DistinctIds(Ids(old(db.categories), CategoryId)) ==> DistinctIds(Ids(db.categories, CategoryId))
    {
      var auth := AuthenticateAdmin(token);
      if !auth.Ok? {
        return Forward(auth);
      }
      if DistinctIds(Ids(db.categories, CategoryId)) {
        FilterKeepsDistinctIds(db.categories, (c: Category) => c.id != id, CategoryId);
      }
      db := db.(categories := CategoriesWithout(db.categories, id),
                productCategories := WithoutCategory(db.productCategories, id));
      r := Ok(());
    }

    // ----- /analytics (admin)

    /** GET /analytics */
    method GetAnalytics(token: Option<string>, month: Option<int>, year: Option<int>) returns (r: Response<Report>)
      ensures !AuthenticateAdmin(token).Ok? ==> r == Forward(AuthenticateAdmin(token))
      ensures AuthenticateAdmin(token).Ok? ==> r.Ok? && IsReport(r.payload, db.orders, db.productos, month, year)
    {
      var auth := AuthenticateAdmin(token);
      if !auth.Ok? {
        return Forward(auth);
      }
      var rep := Aggregate(db.orders, db.productos, month, year);
      r := Ok(rep);
    }

    // ----- /users (admin)

    /** GET /users: every user without the password. */
    method GetUsers(token: Option<string>) returns (r: Response<seq<PublicUser>>)
      ensures !AuthenticateAdmin(token).Ok? ==> r == Forward(AuthenticateAdmin(token))
      ensures AuthenticateAdmin(token).Ok? ==>
        r.Ok? && |r.payload| == |db.users| &&
        forall i :: 0 <= i < |db.users| ==> r.payload[i] == Redact(db.users[i])
    {
      var auth := AuthenticateAdmin(token);
      if !auth.Ok? {
        return Forward(auth);
      }
      var users := db.users;
      r := Ok(seq(|users|, i requires 0 <= i < |users| => Redact(users[i])));
    }

    /** GET /users/:id */
    method GetUser(token: Option<string>, id: int) returns (r: Response<PublicUser>)
      ensures !AuthenticateAdmin(token).Ok? ==> r == Forward(AuthenticateAdmin(token))
      ensures AuthenticateAdmin(token).Ok? ==>
        var k := IndexOfId(db.users, UserId, id);
        && (k < 0 ==> r.Err404?)
        && (0 <= k ==> r == Ok(Redact(db.users[k])))
    {
      var auth := AuthenticateAdmin(token);
      if !auth.Ok? {
        return Forward(auth);
      }
      var k := IndexOfId(db.users, UserId, id);
      if k < 0 {
        return Err404;
      }
      r := Ok(Redact(db.users[k]));
    }

    /** POST /users: 400 when the username exists. */
    method CreateUser(token: Option<string>, req: NewUser) returns (r: Response<PublicUser>)
      modifies this`db
      ensures !AuthenticateAdmin(token).Ok? ==> r == Forward(AuthenticateAdmin(token)) && db == old(db)
      ensures AuthenticateAdmin(token).Ok? ==>
        && ((exists u :: u in old(db.users) && u.username == req.username) ==> r.Err400? && db == old(db))
        && ((forall u :: u in old(db.users) ==> u.username != req.username) ==>
              var u := NewUserRecord(NextId(Ids(old(db.users), UserId)), req);
              r == Ok(Redact(u)) && db == old(db).(users := old(db.users) + [u]))
      ensures UniqueUsernames(old(db.users)) && DistinctIds(Ids(old(db.users), UserId)) ==>
        UniqueUsernames(db.users) && DistinctIds(Ids(db.users, UserId))
    {
      var auth := AuthenticateAdmin(token);
      if !auth.Ok? {
        return Forward(auth);
      }
      var taken := Find(db.users, (u: User) => u.username == req.username);
      if taken.Some? {
        return Err400;
      }
      var u := NewUserRecord(NextId(Ids(db.users, UserId)), req);
      if UniqueUsernames(db.users) && DistinctIds(Ids(db.users, UserId)) {
        AppendUserKeepsUnique(db.users, u);
      }
      db := db.(users := db.users + [u]);
      r := Ok(Redact(u));
    }

    /** PUT /users/:id: 404 for an unknown id, 400 when another id holds the
        requested username, otherwise a partial update. */
    method UpdateUser(token: Option<string>, id: int, patch: UserPatch) returns (r: Response<PublicUser>)
      modifies this`db
      ensures !AuthenticateAdmin(token).Ok? ==> r == Forward(AuthenticateAdmin(token)) && db == old(db)
      ensures AuthenticateAdmin(token).Ok? ==>
        var k := IndexOfId(old(db.users), UserId, id);
        && (k < 0 ==> r.Err404? && db == old(db))
        && (0 <= k && patch.username.Some? && UsernameTaken(old(db.users), patch.username.value, id) ==>
              r.Err400? && db == old(db))
        && (0 <= k && !(patch.username.Some? && UsernameTaken(old(db.users), patch.username.value, id)) ==>
              var v := Patched(old(db.users)[k], patch);
              r == Ok(Redact(v)) && db == old(db).(users := old(db.users)[k := v]))
      ensures UniqueUsernames(old(db.users)) && DistinctIds(Ids(old(db.users), UserId)) ==>
        UniqueUsernames(db.users) && DistinctIds(Ids(db.users, UserId))
    {
      var auth := AuthenticateAdmin(token);
      if !auth.Ok? {
        return Forward(auth);
      }
      var k := IndexOfId(db.users, UserId, id);
      if k < 0 {
        return Err404;
      }
      if patch.username.Some? {
        var name := patch.username.value;
        var clash := Find(db.users, (u: User) => u.username == name && u.id != id);
        if clash.Some? {
          return Err400;
        }
      }
      var v := Patched(db.users[k], patch);
      if UniqueUsernames(db.users) && DistinctIds(Ids(db.users, UserId)) {
        PatchKeepsUniqueUsernames(db.users, k, patch);
        assert Ids(db.users[k := v], UserId) == Ids(db.users, UserId)[k := v.id];
      }
      db := db.(users := db.users[k := v]);
      r := Ok(Redact(v));
    }

    /** DELETE /users/:id: 400 for the principal's own id; deleting an unknown id succeeds. */
    method DeleteUser(token: Option<string>, id: int) returns (r: Response<()>)
      modifies this`db
      ensures !AuthenticateAdmin(token).Ok? ==> r == Forward(AuthenticateAdmin(token)) && db == old(db)
      ensures AuthenticateAdmin(token).Ok? && id == AuthenticateAdmin(token).payload.userId ==>
        r.Err400? && db == old(db)
      ensures AuthenticateAdmin(token).Ok? && id != AuthenticateAdmin(token).payload.userId ==>
        r == Ok(()) && db == old(db).(users := UsersWithout(old(db.users), id))
      ensures UniqueUsernames(old(db.users)) ==> UniqueUsernames(db.users)
    {
      var auth := AuthenticateAdmin(token);
      if !auth.Ok? {
        return Forward(auth);
      }
      if id == auth.payload.userId {
        return Err400;
      }
      if UniqueUsernames(db.users) {
        UsersWithoutKeepsUnique(db.users, id);
      }
      db := db.(users := UsersWithout(db.users, id));
      r := Ok(());
    }
  }
}
