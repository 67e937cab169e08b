/** The public home page's catalogue (app/page.tsx): the active products,
    grouped into one section per screen size in a fixed order. */
module HomePage {
  import opened Outcomes
  import opened Sequences
  import opened Catalog

  /** The select `fetchProducts` sends: active products only, ordered by category. */
  const ActiveByCategory := Select("products", "*", true, Some("category"))

  /** The sections the page renders, top to bottom. */
  const CategoryOrder: seq<string> := ["24 inch", "32 inch", "43 inch", "50 inch", "65 inch"]

  /** `getProductsByCategory(c)`: the products whose category is exactly `c`, in
      the order of the list. */
  function ProductsByCategory(ps: seq<Product>, c: string): (r: seq<Product>)
    ensures forall i :: 0 <= i < |r| ==> r[i] in ps && r[i].category == c
    ensures forall i :: 0 <= i < |ps| && ps[i].category == c ==> ps[i] in r
  {
    Filter(ps, (p: Product) => p.category == c)
  }

  /** Grouping keeps the list's order: the group of a concatenation is the
      concatenation of the groups. */
  lemma ProductsByCategoryConcat(a: seq<Product>, b: seq<Product>, c: string)
    ensures ProductsByCategory(a + b, c) == ProductsByCategory(a, c) + ProductsByCategory(b, c)
  {
    FilterConcat(a, b, (p: Product) => p.category == c);
  }

  /** The condition `getProductsByCategory(c).length > 0` that guards a section. */
  function HasProducts(ps: seq<Product>): string -> bool {
    (c: string) => ProductsByCategory(ps, c) != []
  }

  datatype Section = Section(category: string, products: seq<Product>)

  function Headings(ss: seq<Section>): (r: seq<string>)
    ensures |r| == |ss| && forall k :: 0 <= k < |ss| ==> r[k] == ss[k].category
  {
    if ss == [] then [] else [ss[0].category] + Headings(ss[1..])
  }

  /** All products shown, section after section. */
  function Shown(ss: seq<Section>): seq<Product> {
    if ss == [] then [] else ss[0].products + Shown(ss[1..])
  }

  /** One section per category of `cats` that has products, in the order of
      `cats`; an empty group is not rendered. */
  function SectionsFor(ps: seq<Product>, cats: seq<string>): (r: seq<Section>)
    ensures forall k :: 0 <= k < |r| ==>
              r[k].products != [] && r[k].products == ProductsByCategory(ps, r[k].category)
    ensures Headings(r) == Filter(cats, HasProducts(ps))
  {
    if cats == [] then []
    else
      var group := ProductsByCategory(ps, cats[0]);
      var rest := SectionsFor(ps, cats[1..]);
      if group == [] then rest else [Section(cats[0], group)] + rest
  }

  /** The page's sections: at most one per screen size, in the fixed order, each
      non-empty and holding exactly that size's products. */
  function Sections(ps: seq<Product>): (r: seq<Section>)
    ensures |r| <= |CategoryOrder|
    ensures forall k :: 0 <= k < |r| ==>
              r[k].products != [] && r[k].products == ProductsByCategory(ps, r[k].category)
    ensures Headings(r) == Filter(CategoryOrder, HasProducts(ps))
  {
    SectionsFor(ps, CategoryOrder)
  }

  /** A product is shown exactly when it is in the list and its category is
      one of the sections' categories; a product of any other category never is. */
  lemma {:induction false} ShownIff(ps: seq<Product>, cats: seq<string>, p: Product)
    ensures p in Shown(SectionsFor(ps, cats)) <==> p in ps && p.category in cats
  {
    if cats != [] {
      ShownIff(ps, cats[1..], p);
      var group := ProductsByCategory(ps, cats[0]);
      if p in ps && p.category == cats[0] {
        var i :| 0 <= i < |ps| && ps[i] == p;
        assert p in group;
      }
    }
  }

  /** If the store honours the active-only query, the page shows no inactive product. */
  lemma ShownAreActive(ps: seq<Product>)
    requires forall i :: 0 <= i < |ps| ==> ps[i].is_active
    ensures forall p :: p in Shown(Sections(ps)) ==> p.is_active
  {
    forall p | p in Shown(Sections(ps)) ensures p.is_active {
      ShownIff(ps, CategoryOrder, p);
    }
  }

  class Home {
    var products: seq<Product>
    var loading: bool

    constructor ()
      ensures products == [] && loading
    {
      products := [];
      loading := true;
    }

    /** `fetchProducts`: asks for the active products by category; on error the
        list stays as it was, otherwise it becomes `data || []`. Loading ends
        either way. */
    method FetchProducts(outcome: FetchOutcome<Product>) returns (query: Select)
      modifies this
      ensures query == ActiveByCategory
      ensures outcome.FetchFailed? ==> products == old(products)
      ensures outcome.Fetched? ==> products == outcome.data.GetOr([])
      ensures !loading
    {
      query := ActiveByCategory;
      products := Refreshed(products, outcome);
      loading := false;
    }

    /** What the category section renders: nothing but the loading notice while
        loading, the sections afterwards. */
    function Rendered(): (r: seq<Section>)
      reads this
      ensures loading ==> r == []
      ensures !loading ==> Headings(r) == Filter(CategoryOrder, HasProducts(products))
    {
      if loading then [] else Sections(products)
    }
  }
}
