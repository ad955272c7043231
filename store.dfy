/** The records of the JSON database (`db.json`) and the session principal.
    Prices and totals are integer cents; an order's timestamp is kept only as
    the calendar (year, month) that analytics filters on. */
module Store {
  import opened Common

  /** User `tipo` values (src/context/AuthContext.jsx: 1 Admin, 2 Limited, 3 Full;
      Full users get no special treatment in the core, so it has no constant). */
  const ADMIN: int := 1
  const LIMITED: int := 2

  /** The "cleaning products" category hidden from Limited users. */
  const CLEANING_CATEGORY: int := 4

  datatype User = User(
    id: int,
    username: string,
    password: string,
    nombre: string,
    tipo: int,
    sucursalId: Option<int>,
    viewAllCategories: bool,
    allowedCategories: seq<int>)

  /** A user record as the /users endpoints return it: every field but the password. */
  datatype PublicUser = PublicUser(
    id: int,
    username: string,
    nombre: string,
    tipo: int,
    sucursalId: Option<int>,
    viewAllCategories: bool,
    allowedCategories: seq<int>)

  datatype Product = Product(id: int, articulo: string, precio: int)

  datatype Category = Category(id: int, nombre: string)

  /** A `product_categories` row. */
  datatype Assignment = Assignment(productId: int, categoryId: int)

  datatype Sucursal = Sucursal(id: int, nombre: string, direccion: string, telefono: string)

  /** Calendar month (1-12) and year of an order's `fecha`. */
  datatype Date = Date(year: int, month: int)

  /** One cart line, which the cart page posts unchanged as a requested order line. */
  datatype LineItem = LineItem(
    productId: int,
    nombre: string,
    tamano: string,
    conTapa: bool,
    tipoTapa: string,
    tipoFiltro: string,
    cantidad: int)

  /** A stored order line: the requested line plus the unit price captured at creation. */
  datatype PricedItem = PricedItem(line: LineItem, precio: int)

  datatype Order = Order(
    id: int,
    userId: int,
    sucursalId: Option<int>,
    items: seq<PricedItem>,
    total: int,
    fecha: Date,
    estado: string)

  /** The principal snapshot stored under a session token at login. */
  datatype Session = Session(userId: int, tipo: int, sucursalId: Option<int>)

  /** The whole database document. */
  datatype Db = Db(
    users: seq<User>,
    productos: seq<Product>,
    categories: seq<Category>,
    productCategories: seq<Assignment>,
    sucursales: seq<Sucursal>,
    orders: seq<Order>)

  /** The user as the /users endpoints return it: every field except the password. */
  function Redact(u: User): (p: PublicUser)
    ensures p.id == u.id && p.username == u.username && p.nombre == u.nombre
    ensures p.tipo == u.tipo && p.sucursalId == u.sucursalId
    ensures p.viewAllCategories == u.viewAllCategories && p.allowedCategories == u.allowedCategories
  {
    PublicUser(u.id, u.username, u.nombre, u.tipo, u.sucursalId, u.viewAllCategories, u.allowedCategories)
  }

  // The id field of each kind of record, for Ids and IndexOfId.
  function UserId(u: User): int { u.id }
  function ProductId(p: Product): int { p.id }
  function CategoryId(c: Category): int { c.id }
  function OrderId(o: Order): int { o.id }
  function SucursalId(s: Sucursal): int { s.id }

  /** No two users share a username. */
  predicate UniqueUsernames(us: seq<User>) {
    forall i, j :: 0 <= i < j < |us| ==> us[i].username != us[j].username
  }
}
