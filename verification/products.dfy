/**
 `ProductosController`: the product listing with its optional company
 filter, and product creation by a company user.
 */
module Products {
  import opened Store

  /** `ProductoResponseDto` */
  datatype ProductView = ProductView(id: int, name: string, price: int, stock: int, companyId: int)

  /** `ProductoDto`, the body of a create request. */
  datatype ProductRequest = ProductRequest(name: string, price: int, stock: int)

  function View(p: Product): ProductView {
    ProductView(p.id, p.name, p.price, p.stock, p.companyId)
  }

  /** Whether the optional company filter lets product `p` through. */
  predicate Admits(companyId: Option<int>, p: Product) {
    companyId.None? || p.companyId == companyId.value
  }

  /** The products the filter lets through, in storage order. */
  function Matching(ps: seq<Product>, companyId: Option<int>): (r: seq<Product>)
    ensures companyId.None? ==> r == ps
    ensures forall p :: p in r <==> p in ps && Admits(companyId, p)
    decreases |ps|
  {
    if |ps| == 0 then []
    else
      assert ps == [ps[0]] + ps[1..];
      (if Admits(companyId, ps[0]) then [ps[0]] else []) + Matching(ps[1..], companyId)
  }

  /** The filter keeps every admitted product as often as it is stored, and drops every other one. */
  lemma {:induction false} MatchingCount(ps: seq<Product>, companyId: Option<int>, p: Product)
    ensures multiset(Matching(ps, companyId))[p] == if Admits(companyId, p) then multiset(ps)[p] else 0
    decreases |ps|
  {
    if |ps| > 0 {
      assert ps == [ps[0]] + ps[1..];
      MatchingCount(ps[1..], companyId, p);
    }
  }

  /** Filtering commutes with concatenation: the listing keeps storage order. */
  lemma {:induction false} MatchingAppend(a: seq<Product>, b: seq<Product>, companyId: Option<int>)
    ensures Matching(a + b, companyId) == Matching(a, companyId) + Matching(b, companyId)
    decreases |a|
  {
    if |a| == 0 {
      assert a + b == b;
    } else {
      assert (a + b)[0] == a[0];
      assert (a + b)[1..] == a[1..] + b;
      MatchingAppend(a[1..], b, companyId);
    }
  }

  /** The response projection of a list of products, one entry per product in order. */
  function Views(ps: seq<Product>): (vs: seq<ProductView>)
    ensures |vs| == |ps|
    ensures forall k :: 0 <= k < |ps| ==> vs[k] == View(ps[k])
  {
    seq(|ps|, k requires 0 <= k < |ps| => View(ps[k]))
  }

  lemma ViewsAppend(a: seq<Product>, b: seq<Product>)
    ensures Views(a + b) == Views(a) + Views(b)
  {
  }

  /** `GetProductos`: a read-only listing, filtered to one company when an id is given. */
  function ListProducts(s: Store, companyId: Option<int>): (r: Reply<seq<ProductView>>)
    ensures r.store == s && r.result.Ok?
    ensures companyId.None? ==>
      var vs := r.result.value;
      && |vs| == |s.products|
      && forall k :: 0 <= k < |vs| ==>
           && vs[k].id == s.products[k].id
           && vs[k].name == s.products[k].name
           && vs[k].price == s.products[k].price
           && vs[k].stock == s.products[k].stock
           && vs[k].companyId == s.products[k].companyId
    ensures companyId.Some? ==>
      var vs := r.result.value;
      && (forall k :: 0 <= k < |vs| ==> vs[k].companyId == companyId.value)
      && (forall p :: p in s.products && p.companyId == companyId.value ==> View(p) in vs)
      && (forall v :: v in vs ==> v in Views(s.products))
      && (forall v {:trigger multiset(vs)[v]} :: multiset(vs)[v] == if v.companyId == companyId.value then multiset(Views(s.products))[v] else 0)
  {
    var m := Matching(s.products, companyId);
    ViewsCoverMatching(s.products, companyId);
    match companyId
    case None => Reply(s, Ok(Views(m)))
    case Some(c) =>
      assert forall v :: multiset(Views(m))[v] == if v.companyId == c then multiset(Views(s.products))[v] else 0 by {
        forall v { FilteredListingCount(s.products, c, v); }
      }
      Reply(s, Ok(Views(m)))
  }

  /** Every listed entry is the view of an admitted product, and every admitted product is listed. */
  lemma ViewsCoverMatching(ps: seq<Product>, companyId: Option<int>)
    ensures forall k :: 0 <= k < |Views(Matching(ps, companyId))| ==>
      var m := Matching(ps, companyId);
      Admits(companyId, m[k]) && Views(m)[k] == View(m[k])
    ensures forall v :: v in Views(Matching(ps, companyId)) ==> v in Views(ps)
    ensures forall p :: p in ps && Admits(companyId, p) ==> View(p) in Views(Matching(ps, companyId))
  {
  }

  /** A view is listed under company `c` as often as the full listing holds it when it belongs to `c`, and otherwise never. */
  lemma {:induction false} FilteredListingCount(ps: seq<Product>, c: int, v: ProductView)
    ensures multiset(Views(Matching(ps, Some(c))))[v] == if v.companyId == c then multiset(Views(ps))[v] else 0
    decreases |ps|
  {
    if |ps| > 0 {
      var head := if Admits(Some(c), ps[0]) then [ps[0]] else [];
      assert ps == [ps[0]] + ps[1..];
      assert Matching(ps, Some(c)) == head + Matching(ps[1..], Some(c));
      ViewsAppend([ps[0]], ps[1..]);
      ViewsAppend(head, Matching(ps[1..], Some(c)));
      assert Views([ps[0]]) == [View(ps[0])];
      FilteredListingCount(ps[1..], c, v);
    }
  }

  /** Listing one company's products from two concatenated tables lists each table's in turn. */
  lemma ListingKeepsStorageOrder(s: Store, a: seq<Product>, b: seq<Product>, companyId: Option<int>)
    ensures ListProducts(s.(products := a + b), companyId).result.value
         == ListProducts(s.(products := a), companyId).result.value + ListProducts(s.(products := b), companyId).result.value
  {
    MatchingAppend(a, b, companyId);
    ViewsAppend(Matching(a, companyId), Matching(b, companyId));
  }

  /**
   `CrearProducto`: appends a product with a fresh id owned by the caller;
   name, price and stock come from the request. The response echoes the
   stored product.
   */
  function CreateProduct(s: Store, caller: int, req: ProductRequest): (r: Reply<ProductView>)
    requires Consistent(s)
    ensures Consistent(r.store)
    ensures Valid(s) ==> Valid(r.store)
    ensures r.result.Ok?
    ensures r.store.users == s.users && r.store.carts == s.carts && r.store.nextItemId == s.nextItemId
    ensures |r.store.products| == |s.products| + 1
    ensures r.store.products[..|s.products|] == s.products
    ensures
      var p := r.store.products[|s.products|];
      && p.companyId == caller
      && p.name == req.name
      && p.price == req.price
      && p.stock == req.stock
      && !HasProduct(s.products, p.id)
    ensures
      var p := r.store.products[|s.products|];
      var v := r.result.value;
      v.id == p.id && v.name == p.name && v.price == p.price && v.stock == p.stock && v.companyId == p.companyId
  {
    var p := Product(s.nextProductId, req.name, req.price, req.stock, caller);
    var s' := s.(products := s.products + [p], nextProductId := s.nextProductId + 1);
    AppendKeepsForeignKeys(s, p);
    Reply(s', Ok(View(p)))
  }

  /** A product with a fresh id keeps keys unique and every cart line resolving. */
  lemma AppendKeepsForeignKeys(s: Store, p: Product)
    requires Consistent(s)
    requires p.id == s.nextProductId
    ensures Consistent(s.(products := s.products + [p], nextProductId := s.nextProductId + 1))
    ensures Valid(s) ==> Valid(s.(products := s.products + [p], nextProductId := s.nextProductId + 1))
  {
    var ps := s.products + [p];
    forall pid | HasProduct(s.products, pid) ensures HasProduct(ps, pid) {
      var k :| 0 <= k < |s.products| && s.products[k].id == pid;
      assert ps[k].id == pid;
    }
  }

  /** A created product shows up at the end of its owner's listing, and no other company's listing changes. */
  lemma CreatedProductIsListed(s: Store, caller: int, req: ProductRequest, companyId: int)
    requires Consistent(s)
    ensures
      var r := CreateProduct(s, caller, req);
      var before := ListProducts(s, Some(companyId)).result.value;
      var after := ListProducts(r.store, Some(companyId)).result.value;
      after == if companyId == caller then before + [r.result.value] else before
  {
    var r := CreateProduct(s, caller, req);
    var p := Product(s.nextProductId, req.name, req.price, req.stock, caller);
    assert r.store.products == s.products + [p] && r.result.value == View(p);
    MatchingAppend(s.products, [p], Some(companyId));
    assert Matching([p], Some(companyId)) == if companyId == caller then [p] else [] by {
      assert [p][1..] == [];
    }
    ViewsAppend(Matching(s.products, Some(companyId)), Matching([p], Some(companyId)));
    assert Views([p]) == [View(p)];
  }
}
