/**
 The cart endpoints of `CarritosController` except checkout: read the
 caller's cart, add a product, set a line's quantity, remove a line. The
 caller's identity, which the controller parses from its token, is the
 parameter `uid`.
 */
module Carts {
  import opened Store

  const ItemNotFound := "Producto no encontrado en tu carrito"

  /** The caller's cart as the add endpoint finds or creates it. */
  function CartOrEmpty(s: Store, uid: int): Cart {
    if uid in s.carts then s.carts[uid] else Cart([])
  }

  predicate HasLine(items: seq<CartItem>, pid: int) {
    exists k :: 0 <= k < |items| && items[k].productId == pid
  }

  /** The first line naming product `pid`, the one `AgregarProducto` merges into. */
  function LineFor(items: seq<CartItem>, pid: int): (k: Option<nat>)
    ensures k.Some? <==> HasLine(items, pid)
    ensures k.Some? ==> k.value < |items| && items[k.value].productId == pid
  {
    FirstIndex(items, (it: CartItem) => it.productId == pid)
  }

  /** The position of the line with id `itemId`. */
  function ItemAt(items: seq<CartItem>, itemId: int): (k: Option<nat>)
    ensures k.Some? <==> exists j :: 0 <= j < |items| && items[j].id == itemId
    ensures k.Some? ==> k.value < |items| && items[k.value].id == itemId
  {
    FirstIndex(items, (it: CartItem) => it.id == itemId)
  }

  /** Some line of the caller's own cart has id `itemId`: the ownership-scoped lookup. */
  predicate Owns(s: Store, uid: int, itemId: int) {
    uid in s.carts && exists k :: 0 <= k < |s.carts[uid].items| && s.carts[uid].items[k].id == itemId
  }

  /** Nothing but the cart of `uid` and the line counter differs between `s` and `s'`. */
  predicate OthersUnchanged(s: Store, s': Store, uid: int) {
    && s'.users == s.users
    && s'.products == s.products
    && s'.nextProductId == s.nextProductId
    && s'.carts - {uid} == s.carts - {uid}
  }

  /**
   `GetCarrito`: the caller's lines in item order. This projection leaves
   `ProductoId` unset, so it reads as the default 0.
   */
  function GetCart(s: Store, uid: int): (r: Reply<seq<LineView>>)
    requires Consistent(s)
    ensures r.store == s
    ensures r.result.Err? <==> uid !in s.carts
    ensures r.result.Err? ==> r.result.error == NotFound("")
    ensures r.result.Ok? ==>
      var items := s.carts[uid].items;
      var vs := r.result.value;
      && |vs| == |items|
      && forall k :: 0 <= k < |vs| ==>
           var p := ProductOf(s.products, items[k].productId);
           && vs[k].id == items[k].id
           && vs[k].productId == 0
           && vs[k].productName == p.name
           && vs[k].quantity == items[k].quantity
           && vs[k].price == p.price
           && vs[k].subtotal == items[k].quantity * p.price
  {
    if uid !in s.carts then Reply(s, Err(NotFound("")))
    else
      var items := s.carts[uid].items;
      Reply(s, Ok(seq(|items|, k requires 0 <= k < |items| => Line(s.products, items[k]).(productId := 0))))
  }

  /**
   The merge-or-insert step of `AgregarProducto`: the first line naming
   `pid` grows by `qty`; without one, a line with the fresh id `next` is
   appended.
   */
  function AddLine(items: seq<CartItem>, pid: int, qty: int, next: int): (r: seq<CartItem>)
    ensures HasLine(r, pid)
    ensures HasLine(items, pid) ==>
      && |r| == |items|
      && var k := LineFor(items, pid).value;
         && (forall j :: 0 <= j < k ==> items[j].productId != pid)
         && forall j :: 0 <= j < |items| ==>
              r[j] == if j == k then items[j].(quantity := items[j].quantity + qty) else items[j]
    ensures !HasLine(items, pid) ==> r == items + [CartItem(next, pid, qty)]
    ensures OneLinePerProduct(items) ==>
      && OneLinePerProduct(r)
      && HeldQuantity(r, pid) == HeldQuantity(items, pid) + qty
      && forall j :: 0 <= j < |items| ==>
           r[j] == if items[j].productId == pid then items[j].(quantity := items[j].quantity + qty) else items[j]
  {
    match LineFor(items, pid)
    case Some(k) =>
      var r := items[k := items[k].(quantity := items[k].quantity + qty)];
      assert r[k].productId == pid;
      assert forall j :: 0 <= j < k ==> r[j] == items[j];
      r
    case None =>
      var r := items + [CartItem(next, pid, qty)];
      assert r[|items|].productId == pid;
      assert OneLinePerProduct(items) ==> LineFor(r, pid) == Some(|items|);
      r
  }

  /** The quantity a cart holds of product `pid`: its first line's, or none. */
  function HeldQuantity(items: seq<CartItem>, pid: int): int {
    match LineFor(items, pid)
    case Some(k) => items[k].quantity
    case None => 0
  }

  /**
   `AgregarProducto`. The caller's cart is created first and saved on its
   own; then the product is merged into it or appended (`AddLine`). No stock
   is consulted. A new line naming no product fails the second save, and the
   newly created cart stays.
   */
  function AddProduct(s: Store, uid: int, pid: int, qty: int): (r: Reply<seq<LineView>>)
    requires Consistent(s)
    ensures Consistent(r.store)
    ensures Valid(s) ==> Valid(r.store)
    ensures uid in r.store.carts
    ensures OthersUnchanged(s, r.store, uid)
    ensures
      var before := CartOrEmpty(s, uid).items;
      HasLine(before, pid) || HasProduct(s.products, pid) ==>
        && r.result.Ok?
        && r.store.carts[uid].items == AddLine(before, pid, qty, s.nextItemId)
        && r.store.nextItemId == s.nextItemId + (if HasLine(before, pid) then 0 else 1)
        && (forall k :: 0 <= k < |before| ==> before[k].id < s.nextItemId)
    ensures
      var before := CartOrEmpty(s, uid).items;
      !HasLine(before, pid) && !HasProduct(s.products, pid) ==>
        && r.result == Err(StorageFault)
        && r.store.nextItemId == s.nextItemId
        && r.store.carts[uid].items == before
    ensures r.result.Ok? ==> r.result.value == Lines(r.store.products, r.store.carts[uid].items)
  {
    var cart := CartOrEmpty(s, uid);
    PutCartKeeps(s, uid, cart, s.nextItemId);
    if !HasLine(cart.items, pid) && !HasProduct(s.products, pid) then
      Reply(PutCart(s, uid, cart, s.nextItemId), Err(StorageFault))
    else
      var items := AddLine(cart.items, pid, qty, s.nextItemId);
      var next := if HasLine(cart.items, pid) then s.nextItemId else s.nextItemId + 1;
      AddLineKeepsCart(s.products, s.nextItemId, cart.items, pid, qty);
      PutCartKeeps(s, uid, Cart(items), next);
      Reply(PutCart(s, uid, Cart(items), next), Ok(Lines(s.products, items)))
  }

  /** The store with cart `c` saved for `uid` and the line counter at `next`. */
  function PutCart(s: Store, uid: int, c: Cart, next: int): Store {
    s.(carts := s.carts[uid := c], nextItemId := next)
  }

  /** Storing a consistent cart, with a counter that does not move back, keeps the store consistent. */
  lemma PutCartKeeps(s: Store, uid: int, c: Cart, next: int)
    requires Consistent(s)
    requires CartConsistent(s.products, next, c)
    requires s.nextItemId <= next
    ensures Consistent(PutCart(s, uid, c, next))
    ensures Valid(s) && OneLinePerProduct(c.items) ==> Valid(PutCart(s, uid, c, next))
  {
  }

  /** Changing only quantities keeps a cart consistent and keeps one line per product. */
  lemma SameKeysKeepCart(ps: seq<Product>, next: int, items: seq<CartItem>, items': seq<CartItem>)
    requires CartConsistent(ps, next, Cart(items))
    requires |items'| == |items|
    requires forall j :: 0 <= j < |items| ==> items'[j].id == items[j].id && items'[j].productId == items[j].productId
    ensures CartConsistent(ps, next, Cart(items'))
    ensures OneLinePerProduct(items) ==> OneLinePerProduct(items')
  {
  }

  /** The merge-or-insert step keeps a cart consistent, with the counter moved past a fresh id. */
  lemma AddLineKeepsCart(ps: seq<Product>, next: int, items: seq<CartItem>, pid: int, qty: int)
    requires CartConsistent(ps, next, Cart(items))
    requires HasLine(items, pid) || HasProduct(ps, pid)
    ensures
      var next' := if HasLine(items, pid) then next else next + 1;
      CartConsistent(ps, next', Cart(AddLine(items, pid, qty, next)))
  {
    var r := AddLine(items, pid, qty, next);
    if HasLine(items, pid) {
      SameKeysKeepCart(ps, next, items, r);
    }
  }

  /**
   The overwrite step of `ActualizarCantidad`: the line with id `itemId`
   gets quantity `qty`; ids and products stay where they were.
   */
  function Overwrite(items: seq<CartItem>, itemId: int, qty: int): (r: seq<CartItem>)
    ensures |r| == |items|
    ensures forall j :: 0 <= j < |items| ==> r[j].id == items[j].id && r[j].productId == items[j].productId
    ensures UniqueItemIds(items) ==> forall j :: 0 <= j < |items| ==>
      r[j] == if items[j].id == itemId then items[j].(quantity := qty) else items[j]
  {
    match ItemAt(items, itemId)
    case None => items
    case Some(k) => items[k := items[k].(quantity := qty)]
  }

  /**
   `ActualizarCantidad`: overwrites the quantity of the caller's line
   `itemId`. A line of another user's cart is not found, exactly like a
   missing one.
   */
  function UpdateQuantity(s: Store, uid: int, itemId: int, qty: int): (r: Reply<LineView>)
    requires Consistent(s)
    ensures Consistent(r.store)
    ensures Valid(s) ==> Valid(r.store)
    ensures r.result.Err? <==> !Owns(s, uid, itemId)
    ensures r.result.Err? ==> r.store == s && r.result.error == NotFound(ItemNotFound)
    ensures r.result.Ok? ==>
      && OthersUnchanged(s, r.store, uid)
      && r.store.nextItemId == s.nextItemId
      && uid in r.store.carts
      && r.store.carts[uid].items == Overwrite(s.carts[uid].items, itemId, qty)
    ensures r.result.Ok? ==>
      var v := r.result.value;
      && v.id == itemId
      && v.quantity == qty
      && (exists k :: 0 <= k < |s.carts[uid].items| && s.carts[uid].items[k].id == itemId
                      && s.carts[uid].items[k].productId == v.productId)
      && HasProduct(s.products, v.productId)
      && v.productName == ProductOf(s.products, v.productId).name
      && v.price == ProductOf(s.products, v.productId).price
      && v.subtotal == qty * v.price
  {
    if uid !in s.carts then Reply(s, Err(NotFound(ItemNotFound)))
    else
      var items := s.carts[uid].items;
      match ItemAt(items, itemId)
      case None => Reply(s, Err(NotFound(ItemNotFound)))
      case Some(k) =>
        var items' := Overwrite(items, itemId, qty);
        SameKeysKeepCart(s.products, s.nextItemId, items, items');
        PutCartKeeps(s, uid, Cart(items'), s.nextItemId);
        Reply(PutCart(s, uid, Cart(items'), s.nextItemId), Ok(Line(s.products, items[k].(quantity := qty))))
  }

  /** The delete step of `QuitarProducto`: the line with id `itemId` is dropped, the rest keep their order. */
  function Without(items: seq<CartItem>, itemId: int): (r: seq<CartItem>)
    ensures ItemAt(items, itemId).Some? ==>
      var k := ItemAt(items, itemId).value;
      && |r| == |items| - 1
      && (forall j :: 0 <= j < k ==> r[j] == items[j])
      && (forall j :: k < j < |items| ==> r[j - 1] == items[j])
    ensures UniqueItemIds(items) ==> forall it :: it in r <==> it in items && it.id != itemId
  {
    match ItemAt(items, itemId)
    case None => items
    case Some(k) =>
      RemoveKeepsMembers(items, k);
      items[..k] + items[k + 1..]
  }

  /** `QuitarProducto`: deletes the caller's line `itemId`, with the same ownership-scoped lookup. */
  function RemoveItem(s: Store, uid: int, itemId: int): (r: Reply<()>)
    requires Consistent(s)
    ensures Consistent(r.store)
    ensures Valid(s) ==> Valid(r.store)
    ensures r.result.Err? <==> !Owns(s, uid, itemId)
    ensures r.result.Err? ==> r.store == s && r.result.error == NotFound(ItemNotFound)
    ensures r.result.Ok? ==>
      && OthersUnchanged(s, r.store, uid)
      && r.store.nextItemId == s.nextItemId
      && uid in r.store.carts
      && r.store.carts[uid].items == Without(s.carts[uid].items, itemId)
  {
    if !Owns(s, uid, itemId) then Reply(s, Err(NotFound(ItemNotFound)))
    else
      var items' := Without(s.carts[uid].items, itemId);
      WithoutKeepsCart(s.products, s.nextItemId, s.carts[uid].items, itemId);
      PutCartKeeps(s, uid, Cart(items'), s.nextItemId);
      Reply(PutCart(s, uid, Cart(items'), s.nextItemId), Ok(()))
  }

  /** Deleting position `k` of a line list with unique ids keeps exactly the lines with other ids. */
  lemma RemoveKeepsMembers(items: seq<CartItem>, k: nat)
    requires k < |items|
    ensures UniqueItemIds(items) ==>
      forall it :: it in items[..k] + items[k + 1..] <==> it in items && it.id != items[k].id
  {
    var after := items[..k] + items[k + 1..];
    assert forall j :: 0 <= j < |after| ==> after[j] == items[if j < k then j else j + 1];
    if UniqueItemIds(items) {
      forall it
        ensures it in after <==> it in items && it.id != items[k].id
      {
        if it in items && it.id != items[k].id {
          var j :| 0 <= j < |items| && items[j] == it;
          assert after[if j < k then j else j - 1] == it;
        }
      }
    }
  }

  /** Dropping a line keeps a cart consistent and keeps one line per product. */
  lemma WithoutKeepsCart(ps: seq<Product>, next: int, items: seq<CartItem>, itemId: int)
    requires CartConsistent(ps, next, Cart(items))
    ensures CartConsistent(ps, next, Cart(Without(items, itemId)))
    ensures OneLinePerProduct(items) ==> OneLinePerProduct(Without(items, itemId))
  {
    if ItemAt(items, itemId).Some? {
      RemoveKeepsCart(ps, next, items, ItemAt(items, itemId).value);
    }
  }

  /** Deleting position `k` keeps a cart consistent and keeps one line per product. */
  lemma RemoveKeepsCart(ps: seq<Product>, next: int, items: seq<CartItem>, k: nat)
    requires k < |items|
    requires CartConsistent(ps, next, Cart(items))
    ensures CartConsistent(ps, next, Cart(items[..k] + items[k + 1..]))
    ensures OneLinePerProduct(items) ==> OneLinePerProduct(items[..k] + items[k + 1..])
  {
  }

  /**
   Adding the same product twice leaves exactly one line for it, holding
   what the cart held before plus both quantities.
   */
  lemma AddTwiceAccumulates(s: Store, uid: int, pid: int, q1: int, q2: int)
    requires Valid(s)
    requires HasProduct(s.products, pid)
    ensures
      var s1 := AddProduct(s, uid, pid, q1).store;
      var r2 := AddProduct(s1, uid, pid, q2);
      var before := CartOrEmpty(s, uid).items;
      var after := r2.store.carts[uid].items;
      && r2.result.Ok?
      && |after| == |before| + (if HasLine(before, pid) then 0 else 1)
      && HasLine(after, pid)
      && (forall i, j :: 0 <= i < j < |after| ==> after[i].productId != after[j].productId)
      && HeldQuantity(after, pid) == HeldQuantity(before, pid) + q1 + q2
  {
  }

  /** Reading the cart right after an add returns what the add returned, without product ids. */
  lemma GetAfterAdd(s: Store, uid: int, pid: int, qty: int)
    requires Consistent(s)
    requires AddProduct(s, uid, pid, qty).result.Ok?
    ensures
      var r := AddProduct(s, uid, pid, qty);
      var g := GetCart(r.store, uid);
      && g.result.Ok?
      && |g.result.value| == |r.result.value|
      && forall k :: 0 <= k < |g.result.value| ==> g.result.value[k] == r.result.value[k].(productId := 0)
  {
  }

  /**
   Setting a line's quantity after adding to it overwrites rather than
   accumulates: the line ends with exactly the new quantity.
   */
  lemma AddThenUpdateOverwrites(s: Store, uid: int, pid: int, added: int, qty: int)
    requires Valid(s)
    requires HasProduct(s.products, pid)
    ensures
      var s1 := AddProduct(s, uid, pid, added).store;
      var line := s1.carts[uid].items[LineFor(s1.carts[uid].items, pid).value];
      var r := UpdateQuantity(s1, uid, line.id, qty);
      && r.result.Ok?
      && r.result.value.quantity == qty
      && HeldQuantity(r.store.carts[uid].items, pid) == qty
  {
    var s1 := AddProduct(s, uid, pid, added).store;
    var items := s1.carts[uid].items;
    var k := LineFor(items, pid).value;
    var r := UpdateQuantity(s1, uid, items[k].id, qty);
    var after := r.store.carts[uid].items;
    assert Owns(s1, uid, items[k].id);
    assert forall j :: 0 <= j < |items| ==> after[j].productId == items[j].productId;
    assert after[k].quantity == qty;
    assert LineFor(after, pid) == Some(k) by {
      forall j | 0 <= j < k ensures after[j].productId != pid {
        assert items[j].productId != pid;
      }
    }
  }
}
