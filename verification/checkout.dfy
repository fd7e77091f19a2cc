/**
 `CarritosController.Checkout`: validate every line of the caller's cart
 against its product's stock, and only if all pass, take each line's
 quantity from stock, charge quantity times price, and empty the cart. The
 cart itself stays, with no lines.
 */
module CartCheckout {
  import opened Store
  import Carts

  const EmptyCart := "Tu carrito está vacío"
  const Purchased := "Compra realizada con éxito"

  /** The message naming a product whose stock is too low. */
  function OutOfStock(name: string): string {
    "No hay suficiente stock para " + name
  }

  /** The body of a successful checkout. */
  datatype Receipt = Receipt(message: string, total: int)

  /** A line that asks for more than its product has in stock. */
  predicate Short(ps: seq<Product>, it: CartItem) {
    HasProduct(ps, it.productId) && ProductOf(ps, it.productId).stock < it.quantity
  }

  /** The first line, in item order, that fails the stock check. */
  function FirstShortfall(ps: seq<Product>, items: seq<CartItem>): (k: Option<nat>)
    ensures k.Some? ==> k.value < |items| && Short(ps, items[k.value])
    ensures k.Some? ==> forall j :: 0 <= j < k.value ==> !Short(ps, items[j])
    ensures k.None? <==> forall j :: 0 <= j < |items| ==> !Short(ps, items[j])
  {
    FirstIndex(items, (it: CartItem) => Short(ps, it))
  }

  /** The product table after one line's quantity is taken from its product's stock. */
  function Take(ps: seq<Product>, it: CartItem): seq<Product> {
    seq(|ps|, k requires 0 <= k < |ps| =>
      if ps[k].id == it.productId then ps[k].(stock := ps[k].stock - it.quantity) else ps[k])
  }

  /** How much all the lines together ask of product `pid`. */
  function Demand(items: seq<CartItem>, pid: int): int
    decreases |items|
  {
    if |items| == 0 then 0
    else (if items[0].productId == pid then items[0].quantity else 0) + Demand(items[1..], pid)
  }

  /**
   The decrement loop, one line after another. Each product loses what all
   lines together ask of it, and nothing else about it changes.
   */
  function Deduct(ps: seq<Product>, items: seq<CartItem>): (r: seq<Product>)
    ensures |r| == |ps|
    ensures forall k :: 0 <= k < |ps| ==> r[k] == ps[k].(stock := ps[k].stock - Demand(items, ps[k].id))
    decreases |items|
  {
    if |items| == 0 then ps else Deduct(Take(ps, items[0]), items[1..])
  }

  /** The sum of quantity times unit price over the lines. */
  function Total(ps: seq<Product>, items: seq<CartItem>): int
    requires AllKnown(ps, items)
    decreases |items|
  {
    if |items| == 0 then 0
    else items[0].quantity * ProductOf(ps, items[0].productId).price + Total(ps, items[1..])
  }

  /** `Checkout`. Every failure leaves the store as it was. */
  function Checkout(s: Store, uid: int): (r: Reply<Receipt>)
    requires Consistent(s)
    ensures Consistent(r.store)
    ensures Valid(s) ==> Valid(r.store)
    ensures r.result.Err? ==> r.store == s && r.result.error.BadRequest?
    ensures uid !in s.carts || |s.carts[uid].items| == 0 ==> r.result == Err(BadRequest(EmptyCart))
    ensures r.result.Ok? <==>
      && uid in s.carts
      && |s.carts[uid].items| > 0
      && forall k :: 0 <= k < |s.carts[uid].items| ==>
           s.carts[uid].items[k].quantity <= ProductOf(s.products, s.carts[uid].items[k].productId).stock
    ensures uid in s.carts && |s.carts[uid].items| > 0 && r.result.Err? ==>
      var items := s.carts[uid].items;
      var k := FirstShortfall(s.products, items).value;
      r.result.error == BadRequest(OutOfStock(ProductOf(s.products, items[k].productId).name))
    ensures r.result.Ok? ==>
      var items := s.carts[uid].items;
      && r.store.users == s.users
      && r.store.carts == s.carts[uid := Cart([])]
      && r.store.nextItemId == s.nextItemId
      && r.store.nextProductId == s.nextProductId
      && |r.store.products| == |s.products|
      && (forall k :: 0 <= k < |s.products| ==>
            r.store.products[k] == s.products[k].(stock := s.products[k].stock - Demand(items, s.products[k].id)))
      && r.result.value == Receipt(Purchased, Total(s.products, items))
  {
    if uid !in s.carts || |s.carts[uid].items| == 0 then Reply(s, Err(BadRequest(EmptyCart)))
    else
      var items := s.carts[uid].items;
      match FirstShortfall(s.products, items)
      case Some(k) =>
        Reply(s, Err(BadRequest(OutOfStock(ProductOf(s.products, items[k].productId).name))))
      case None =>
        var ps := Deduct(s.products, items);
        DeductKeepsKeys(s, ps, uid);
        Reply(s.(products := ps, carts := s.carts[uid := Cart([])]), Ok(Receipt(Purchased, Total(s.products, items))))
  }

  /** Replacing the product table by one with the same keys, and emptying one cart, keeps the invariants. */
  lemma DeductKeepsKeys(s: Store, ps: seq<Product>, uid: int)
    requires Consistent(s)
    requires |ps| == |s.products|
    requires forall k :: 0 <= k < |ps| ==> ps[k].id == s.products[k].id
    ensures Consistent(s.(products := ps, carts := s.carts[uid := Cart([])]))
    ensures Valid(s) ==> Valid(s.(products := ps, carts := s.carts[uid := Cart([])]))
  {
  }

  /** With one line per product, the demand on a product is the quantity of its line, or nothing. */
  lemma {:induction false} DemandOfOneLine(items: seq<CartItem>, pid: int)
    requires OneLinePerProduct(items)
    ensures forall k :: 0 <= k < |items| && items[k].productId == pid ==> Demand(items, pid) == items[k].quantity
    ensures !Carts.HasLine(items, pid) ==> Demand(items, pid) == 0
    decreases |items|
  {
    if |items| > 0 {
      var rest := items[1..];
      assert OneLinePerProduct(rest) by {
        forall i, j | 0 <= i < j < |rest| ensures rest[i].productId != rest[j].productId {
          assert rest[i] == items[i + 1] && rest[j] == items[j + 1];
        }
      }
      DemandOfOneLine(rest, pid);
      if items[0].productId == pid {
        assert !Carts.HasLine(rest, pid) by {
          forall j | 0 <= j < |rest| ensures rest[j].productId != pid {
            assert rest[j] == items[j + 1];
          }
        }
      } else {
        forall k | 0 <= k < |items| && items[k].productId == pid
          ensures Demand(items, pid) == items[k].quantity
        {
          assert rest[k - 1] == items[k];
        }
        if !Carts.HasLine(items, pid) {
          assert !Carts.HasLine(rest, pid) by {
            forall j | 0 <= j < |rest| ensures rest[j].productId != pid {
              assert rest[j] == items[j + 1];
            }
          }
        }
      }
    }
  }

  /**
   Under the one-line-per-product invariant a successful checkout takes
   exactly each line's quantity from its product and never drives a stock
   below zero; products the cart does not name keep their stock.
   */
  lemma CheckoutNeverOversells(s: Store, uid: int)
    requires Valid(s)
    requires Checkout(s, uid).result.Ok?
    ensures
      var items := s.carts[uid].items;
      var ps := Checkout(s, uid).store.products;
      && (forall k, j :: 0 <= k < |s.products| && 0 <= j < |items| && items[j].productId == s.products[k].id ==>
            ps[k].stock == s.products[k].stock - items[j].quantity && ps[k].stock >= 0)
      && (forall k :: 0 <= k < |s.products| && !Carts.HasLine(items, s.products[k].id) ==> ps[k] == s.products[k])
  {
    var items := s.carts[uid].items;
    var ps := Checkout(s, uid).store.products;
    forall k | 0 <= k < |s.products|
      ensures forall j :: 0 <= j < |items| && items[j].productId == s.products[k].id ==>
                ps[k].stock == s.products[k].stock - items[j].quantity && ps[k].stock >= 0
      ensures !Carts.HasLine(items, s.products[k].id) ==> ps[k] == s.products[k]
    {
      DemandOfOneLine(items, s.products[k].id);
      forall j | 0 <= j < |items| && items[j].productId == s.products[k].id
        ensures ps[k].stock >= 0
      {
        assert ProductOf(s.products, items[j].productId) == s.products[k];
        assert !Short(s.products, items[j]);
      }
    }
  }

  /** Stock that was never negative stays so across a checkout of a well-formed store. */
  lemma CheckoutKeepsStockNonNegative(s: Store, uid: int)
    requires Valid(s)
    requires forall k :: 0 <= k < |s.products| ==> s.products[k].stock >= 0
    ensures forall k :: 0 <= k < |Checkout(s, uid).store.products| ==> Checkout(s, uid).store.products[k].stock >= 0
  {
    if Checkout(s, uid).result.Ok? {
      CheckoutNeverOversells(s, uid);
      var items := s.carts[uid].items;
      forall k | 0 <= k < |s.products| && Carts.HasLine(items, s.products[k].id)
        ensures Checkout(s, uid).store.products[k].stock >= 0
      {
        var j :| 0 <= j < |items| && items[j].productId == s.products[k].id;
      }
    }
  }

  /**
   Why the invariant matters: two lines of one product each pass the stock
   check on their own, and together take more than the stock holds.
   */
  lemma DuplicateLinesOversell()
    ensures
      var p := Product(1, "p", 10, 5, 2);
      var s := Store([], [p], map[7 := Cart([CartItem(1, 1, 3), CartItem(2, 1, 3)])], 3, 2);
      && Consistent(s)
      && !Valid(s)
      && Checkout(s, 7).result.Ok?
      && Checkout(s, 7).store.products[0].stock == -1
  {
    var p := Product(1, "p", 10, 5, 2);
    var items := [CartItem(1, 1, 3), CartItem(2, 1, 3)];
    var s := Store([], [p], map[7 := Cart(items)], 3, 2);
    assert HasProduct([p], 1) by { assert [p][0].id == 1; }
    assert ProductOf([p], 1) == p;
    assert Consistent(s);
    assert !OneLinePerProduct(items) by { assert items[0].productId == items[1].productId; }
    assert !Short([p], items[0]) && !Short([p], items[1]);
    assert FirstShortfall([p], items).None?;
    assert Demand(items, 1) == 6 by {
      assert items[1..][1..] == [];
    }
    assert Checkout(s, 7).store.products == Deduct([p], items);
  }

  /** The sum of the subtotals of a list of cart lines. */
  function SumSubtotals(vs: seq<LineView>): int
    decreases |vs|
  {
    if |vs| == 0 then 0 else vs[0].subtotal + SumSubtotals(vs[1..])
  }

  lemma {:induction false} TotalIsSumOfSubtotals(ps: seq<Product>, items: seq<CartItem>, vs: seq<LineView>)
    requires AllKnown(ps, items)
    requires |vs| == |items|
    requires forall k :: 0 <= k < |vs| ==> vs[k].subtotal == items[k].quantity * ProductOf(ps, items[k].productId).price
    ensures Total(ps, items) == SumSubtotals(vs)
    decreases |items|
  {
    if |items| > 0 {
      assert forall k :: 0 <= k < |vs| - 1 ==> vs[1..][k] == vs[k + 1] && items[1..][k] == items[k + 1];
      TotalIsSumOfSubtotals(ps, items[1..], vs[1..]);
    }
  }

  /** The total charged is the sum of the subtotals the cart showed just before checkout. */
  lemma CheckoutChargesCartSubtotals(s: Store, uid: int)
    requires Consistent(s)
    requires Checkout(s, uid).result.Ok?
    ensures Carts.GetCart(s, uid).result.Ok?
    ensures Checkout(s, uid).result.value.total == SumSubtotals(Carts.GetCart(s, uid).result.value)
  {
    TotalIsSumOfSubtotals(s.products, s.carts[uid].items, Carts.GetCart(s, uid).result.value);
  }

  /** After a successful checkout the cart still exists and reads back empty. */
  lemma CheckoutLeavesEmptyCart(s: Store, uid: int)
    requires Consistent(s)
    requires Checkout(s, uid).result.Ok?
    ensures Carts.GetCart(Checkout(s, uid).store, uid).result == Ok([])
  {
  }

  /** The validation loop: the first line whose product has less stock than it asks for. */
  method ValidateStock(ps: seq<Product>, items: seq<CartItem>) returns (k: Option<nat>)
    requires AllKnown(ps, items)
    ensures k == FirstShortfall(ps, items)
  {
    var i := 0;
    while i < |items|
      invariant 0 <= i <= |items|
      invariant forall j :: 0 <= j < i ==> !Short(ps, items[j])
    {
      if ProductOf(ps, items[i].productId).stock < items[i].quantity {
        return Some(i);
      }
      i := i + 1;
    }
    return None;
  }

  /** The decrement loop: takes every line's quantity from stock and accumulates the total. */
  method DeductStock(ps: seq<Product>, items: seq<CartItem>) returns (ps': seq<Product>, total: int)
    requires AllKnown(ps, items)
    ensures ps' == Deduct(ps, items)
    ensures total == Total(ps, items)
  {
    ps' := ps;
    total := 0;
    var i := 0;
    while i < |items|
      invariant 0 <= i <= |items|
      invariant Deduct(ps', items[i..]) == Deduct(ps, items)
      invariant total + Total(ps, items[i..]) == Total(ps, items)
    {
      assert items[i..][1..] == items[i + 1..];
      total := total + items[i].quantity * ProductOf(ps, items[i].productId).price;
      ps' := Take(ps', items[i]);
      i := i + 1;
    }
    assert items[i..] == [];
  }

  /**
   `Checkout` with the controller's two loops: a validation pass that stops
   at the first short line, then a pass that takes stock and sums the total.
   */
  method CheckoutLoops(s: Store, uid: int) returns (r: Reply<Receipt>)
    requires Consistent(s)
    ensures r == Checkout(s, uid)
  {
    if uid !in s.carts || |s.carts[uid].items| == 0 {
      return Reply(s, Err(BadRequest(EmptyCart)));
    }
    var items := s.carts[uid].items;
    var short := ValidateStock(s.products, items);
    if short.Some? {
      var p := ProductOf(s.products, items[short.value].productId);
      return Reply(s, Err(BadRequest(OutOfStock(p.name))));
    }
    var ps, total := DeductStock(s.products, items);
    r := Reply(s.(products := ps, carts := s.carts[uid := Cart([])]), Ok(Receipt(Purchased, total)));
  }
}
