/**
 The shop's database as one immutable value: users, products and one cart per
 user, with the lookups every endpoint shares and the invariants the
 endpoints keep. Identifiers are `int`, as in the entity classes; prices are
 `int` (cents), so the `decimal` arithmetic of the original is exact here.
 */
module Store {

  datatype Option<+T> = None | Some(value: T)

  /** The failures an endpoint reports. */
  datatype Error =
    | NotFound(message: string)    // HTTP 404; an empty message stands for a response without body
    | BadRequest(message: string)  // HTTP 400
    | StorageFault                 // a save the database refuses (a dangling foreign key)

  datatype Result<+T> = Ok(value: T) | Err(error: Error)

  /** What a request leaves behind: the store after it, and what the caller receives. */
  datatype Reply<+T> = Reply(store: Store, result: Result<T>)

  /** Roles of `Usuario`; the database stores them as integers. */
  datatype Role = Customer | Company | Admin

  /** `Usuario` */
  datatype User = User(id: int, name: string, password: string, role: Role)

  /** `Producto`; `companyId` is the owning company user (`EmpresaId`). */
  datatype Product = Product(id: int, name: string, price: int, stock: int, companyId: int)

  /** `CarritoItem`: one line of a cart. */
  datatype CartItem = CartItem(id: int, productId: int, quantity: int)

  /** `Carrito`; its owner is the key under which the store keeps it. */
  datatype Cart = Cart(items: seq<CartItem>)

  /**
   The tables. `nextItemId` and `nextProductId` stand for the identity
   columns the database uses to number new cart lines and products.
   */
  datatype Store = Store(
    users: seq<User>,
    products: seq<Product>,
    carts: map<int, Cart>,
    nextItemId: int,
    nextProductId: int)

  /** `CarritoResponseDto`: one cart line as the cart endpoints return it. */
  datatype LineView = LineView(
    id: int, productId: int, productName: string, quantity: int, price: int, subtotal: int)

  /**
   The first position of `xs` whose element satisfies `f`, as LINQ's
   `FirstOrDefault` finds it.
   */
  function FirstIndex<T>(xs: seq<T>, f: T -> bool): (r: Option<nat>)
    ensures r.Some? ==> r.value < |xs| && f(xs[r.value])
    ensures r.Some? ==> forall k :: 0 <= k < r.value ==> !f(xs[k])
    ensures r.None? <==> forall k :: 0 <= k < |xs| ==> !f(xs[k])
  {
    if |xs| == 0 then None
    else if f(xs[0]) then Some(0)
    else match FirstIndex(xs[1..], f)
      case None => None
      case Some(i) => Some(i + 1)
  }

  predicate HasProduct(ps: seq<Product>, pid: int) {
    exists k :: 0 <= k < |ps| && ps[k].id == pid
  }

  predicate UniqueProductIds(ps: seq<Product>) {
    forall i, j :: 0 <= i < j < |ps| ==> ps[i].id != ps[j].id
  }

  /** The product a foreign key `pid` refers to (the navigation property `Producto`). */
  function ProductOf(ps: seq<Product>, pid: int): (p: Product)
    requires HasProduct(ps, pid)
    ensures p in ps && p.id == pid
    ensures UniqueProductIds(ps) ==> forall k :: 0 <= k < |ps| && ps[k].id == pid ==> ps[k] == p
  {
    var i := FirstIndex(ps, (q: Product) => q.id == pid);
    ps[i.value]
  }

  /** Every line refers to an existing product: the foreign key `ProductoId`. */
  predicate AllKnown(ps: seq<Product>, items: seq<CartItem>) {
    forall k :: 0 <= k < |items| ==> HasProduct(ps, items[k].productId)
  }

  predicate UniqueItemIds(items: seq<CartItem>) {
    forall i, j :: 0 <= i < j < |items| ==> items[i].id != items[j].id
  }

  /** The merge-on-add rule: no two lines of a cart name the same product. */
  predicate OneLinePerProduct(items: seq<CartItem>) {
    forall i, j :: 0 <= i < j < |items| ==> items[i].productId != items[j].productId
  }

  predicate CartConsistent(ps: seq<Product>, nextItemId: int, c: Cart) {
    && AllKnown(ps, c.items)
    && UniqueItemIds(c.items)
    && forall k :: 0 <= k < |c.items| ==> c.items[k].id < nextItemId
  }

  /**
   What the database itself guarantees: keys are unique, identity counters
   run ahead of every key, and foreign keys resolve.
   */
  predicate Consistent(s: Store) {
    && UniqueProductIds(s.products)
    && (forall k :: 0 <= k < |s.products| ==> s.products[k].id < s.nextProductId)
    && forall u :: u in s.carts ==> CartConsistent(s.products, s.nextItemId, s.carts[u])
  }

  /**
   The application-level invariant on top: at most one line per product in
   each cart. No database constraint enforces it; adding to a cart keeps it.
   */
  predicate Valid(s: Store) {
    && Consistent(s)
    && forall u :: u in s.carts ==> OneLinePerProduct(s.carts[u].items)
  }

  /** One cart line with its product's name and price, and quantity times price. */
  function Line(ps: seq<Product>, it: CartItem): (v: LineView)
    requires HasProduct(ps, it.productId)
  {
    var p := ProductOf(ps, it.productId);
    LineView(it.id, it.productId, p.name, it.quantity, p.price, it.quantity * p.price)
  }

  /** The projection of a whole cart, line by line in item order. */
  function Lines(ps: seq<Product>, items: seq<CartItem>): (vs: seq<LineView>)
    requires AllKnown(ps, items)
  {
    seq(|items|, k requires 0 <= k < |items| => Line(ps, items[k]))
  }
}
