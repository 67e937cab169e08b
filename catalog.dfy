/** The product record both product pages read from the `products` table, and
    the status update the admin products page sends. */
module Catalog {
  import opened Outcomes
  import opened Sequences

  datatype Product = Product(
    id: string,
    name: string,
    category: string,
    size: string,
    price: int,
    description: string,
    image_url: Option<string>,
    is_active: bool)

  /** The one-field update `{ is_active }` sent for the row whose `id` matches. */
  datatype StatusUpdate = StatusUpdate(id: string, is_active: bool)

  predicate IsActive(p: Product) {
    p.is_active
  }

  predicate IsInactive(p: Product) {
    !p.is_active
  }

  /** `products.filter(p => p.is_active)` */
  function ActiveProducts(ps: seq<Product>): (r: seq<Product>)
    ensures forall i :: 0 <= i < |r| ==> r[i] in ps && r[i].is_active
    ensures forall i :: 0 <= i < |ps| && ps[i].is_active ==> ps[i] in r
  {
    Filter(ps, IsActive)
  }

  /** `products.filter(p => !p.is_active)` */
  function InactiveProducts(ps: seq<Product>): (r: seq<Product>)
    ensures forall i :: 0 <= i < |r| ==> r[i] in ps && !r[i].is_active
    ensures forall i :: 0 <= i < |ps| && !ps[i].is_active ==> ps[i] in r
  {
    Filter(ps, IsInactive)
  }

  /** Every product is counted exactly once, as active or as inactive. */
  lemma ActiveInactivePartition(ps: seq<Product>)
    ensures |ActiveProducts(ps)| + |InactiveProducts(ps)| == |ps|
  {
    FilterComplementLength(ps, IsActive, IsInactive);
  }

  /** The store applying a status update: the row with the update's id gets the
      new `is_active` and keeps every other field; every other row is untouched. */
  function ApplyStatusUpdate(rows: seq<Product>, u: StatusUpdate): (r: seq<Product>)
    ensures |r| == |rows|
    ensures forall i :: 0 <= i < |rows| && rows[i].id != u.id ==> r[i] == rows[i]
    ensures forall i :: 0 <= i < |rows| && rows[i].id == u.id ==> r[i] == rows[i].(is_active := u.is_active)
  {
    if rows == [] then []
    else
      var head := if rows[0].id == u.id then rows[0].(is_active := u.is_active) else rows[0];
      [head] + ApplyStatusUpdate(rows[1..], u)
  }
}
