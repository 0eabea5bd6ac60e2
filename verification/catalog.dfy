/**
  The product catalog as the orders service sees it: the list of products the
  remote `validate_products` command answers with, searched with `Array.find`.
*/
module Catalog {
  import opened Wrappers

  /** Product identifiers are JavaScript numbers in the source; integers here. */
  type ProductId = int

  /** One catalog entry: identifier, display name and authoritative unit price. */
  datatype Product = Product(id: ProductId, name: string, price: int)

  /** Position of the first entry whose id equals `id` (what `find` stops at). */
  function FirstIndex(catalog: seq<Product>, id: ProductId): (r: Option<nat>)
    ensures r.Some? ==> r.value < |catalog| && catalog[r.value].id == id
    ensures r.Some? ==> forall j :: 0 <= j < r.value ==> catalog[j].id != id
    ensures r.None? <==> forall j :: 0 <= j < |catalog| ==> catalog[j].id != id
    decreases |catalog|
  {
    if |catalog| == 0 then None
    else if catalog[0].id == id then Some(0)
    else
      match FirstIndex(catalog[1..], id)
      case None => None
      case Some(k) => Some(k + 1)
  }

  /**
    `products.find(product => product.id === id)`: the first matching entry,
    or `None` for JavaScript's `undefined`.
  */
  function Lookup(catalog: seq<Product>, id: ProductId): (r: Option<Product>)
    ensures r.Some? ==> r.value in catalog && r.value.id == id
    ensures r.None? <==> forall p :: p in catalog ==> p.id != id
    ensures r.Some? ==> exists k :: 0 <= k < |catalog| && catalog[k] == r.value
                                    && forall j :: 0 <= j < k ==> catalog[j].id != id
  {
    match FirstIndex(catalog, id)
    case None => None
    case Some(k) => Some(catalog[k])
  }

  /** A catalog answer that mentions `id` twice: `find` returns the earlier entry. */
  lemma LookupPrefersEarlierEntry(front: seq<Product>, p: Product, back: seq<Product>)
    requires forall q :: q in front ==> q.id != p.id
    ensures Lookup(front + [p] + back, p.id) == Some(p)
  {
    var c := front + [p] + back;
    assert c[|front|] == p;
    assert forall j :: 0 <= j < |front| ==> c[j] == front[j];
  }
}
