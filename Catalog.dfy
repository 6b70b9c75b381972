/** The catalog page, `src/pages/Product.jsx`: its paging state, the request
    it derives from that state, the defaults it reads the list payload with,
    the page count it hands to the pager, and the per-product favourite map. */
module Catalog {
  import opened Js
  import ProductSlice

  /** The page sizes the "Per Page" select offers. */
  predicate ValidLimit(limit: int) {
    limit == 10 || limit == 20 || limit == 30
  }

  /** `(currentPage - 1) * limit`: the number of products on the pages before
      `page`. */
  function Skip(page: int, limit: int): (skip: nat)
    requires page >= 1 && limit >= 0
    ensures limit > 0 ==> skip % limit == 0 && skip / limit == page - 1
    ensures page == 1 ==> skip == 0
  {
    WholePages(page - 1, limit);
    (page - 1) * limit
  }

  /** `pages` whole pages of `limit` products divide evenly back into `pages`. */
  lemma WholePages(pages: nat, limit: int)
    ensures limit > 0 ==> (pages * limit) % limit == 0 && (pages * limit) / limit == pages
  {
    if limit > 0 {
      var x := pages * limit;
      var q, r := x / limit, x % limit;
      assert (pages - q) * limit == r by {
        assert x == q * limit + r;
        assert (pages - q) * limit == pages * limit - q * limit;
      }
      ScaledAway(pages - q, limit);
    }
  }

  /** A non-zero multiple of `limit` is at least `limit` away from zero. */
  lemma ScaledAway(k: int, limit: int)
    requires limit > 0
    ensures k >= 1 ==> k * limit >= limit
    ensures k <= -1 ==> k * limit <= -limit
  {
    if k >= 1 {
      assert k * limit == (k - 1) * limit + limit;
    } else if k <= -1 {
      assert k * limit == (k + 1) * limit - limit;
    }
  }

  /** `Math.ceil(total / limit)`: the least whole number of pages of `limit`
      products that holds `total` products. */
  function PageCount(total: int, limit: int): (count: int)
    requires limit > 0
    ensures (count - 1) * limit < total <= count * limit
  {
    var c := -((-total) / limit);
    assert (-total) / limit * limit <= -total < ((-total) / limit + 1) * limit;
    c
  }

  /** 35 products at 10 per page make four pages. */
  lemma PageCountOfThirtyFive()
    ensures PageCount(35, 10) == 4
  {
  }

  /** Every page the pager offers starts inside the result list, and the
      pages before the last are full: page `page` shows the products from
      `Skip(page, limit)` on, and only the last page can be short. */
  lemma PagesCoverResults(total: int, limit: int, page: int)
    requires ValidLimit(limit)
    requires 1 <= page <= PageCount(total, limit)
    ensures Skip(page, limit) < total
    ensures page < PageCount(total, limit) ==> Skip(page, limit) + limit < total
    ensures page == PageCount(total, limit) ==> total <= Skip(page, limit) + limit
  {
    var count := PageCount(total, limit);
    assert (count - 1) * limit < total <= count * limit;
    assert Skip(page, limit) + limit == page * limit;
    if page < count {
      assert page * limit <= (count - 1) * limit by {
        assert page <= count - 1;
      }
    }
    assert (page - 1) * limit <= (count - 1) * limit;
  }

  /** `productList?.products || []`: the payload's truthy `products`, and an
      empty array otherwise, in particular for the initial and the rejected
      payload `[]`. */
  function ProductsOf(payload: Json): (products: Json)
    ensures Truthy(products) || products == JArr([])
    ensures !payload.JObj? ==> products == JArr([])
    ensures !(Prop(payload, "products").Some? && Truthy(Prop(payload, "products").value)) ==>
              products == JArr([])
    ensures Prop(payload, "products").Some? && Truthy(Prop(payload, "products").value) ==>
              products == Prop(payload, "products").value
  {
    var v := Prop(payload, "products");
    if v.Some? && Truthy(v.value) then v.value else JArr([])
  }

  /** `productList?.total || 0`: the payload's truthy `total`, and 0 otherwise. */
  function TotalOf(payload: Json): (total: Json)
    ensures Truthy(total) || total == JNum(0)
    ensures !payload.JObj? ==> total == JNum(0)
    ensures !(Prop(payload, "total").Some? && Truthy(Prop(payload, "total").value)) ==>
              total == JNum(0)
    ensures Prop(payload, "total").Some? && Truthy(Prop(payload, "total").value) ==>
              total == Prop(payload, "total").value
  {
    var v := Prop(payload, "total");
    if v.Some? && Truthy(v.value) then v.value else JNum(0)
  }

  /** Whether product `id` is marked; a missing entry reads as `false`. */
  predicate Liked(hearts: map<int, bool>, id: int) {
    id in hearts && hearts[id]
  }

  /** The update `handleHeartClick(id)` applies: the entry for `id` is set to
      the negation of its old truth value, every other entry is kept. */
  function Toggle(hearts: map<int, bool>, id: int): (r: map<int, bool>)
    ensures id in r && r[id] == !Liked(hearts, id)
    ensures forall k :: k != id ==> (k in r <==> k in hearts)
    ensures forall k :: k != id && k in hearts ==> r[k] == hearts[k]
  {
    hearts[id := !Liked(hearts, id)]
  }

  /** Clicking the same heart twice restores its truth value and leaves every
      other product's entry alone. */
  lemma ToggleTwice(hearts: map<int, bool>, id: int)
    ensures Liked(Toggle(Toggle(hearts, id), id), id) == Liked(hearts, id)
    ensures forall k :: k != id ==> Liked(Toggle(Toggle(hearts, id), id), k) == Liked(hearts, k)
  {
  }

  /** The component state of the catalog page. */
  class CatalogPage {
    var currentPage: int
    var limit: int
    var category: string
    var productFilter: string
    var heartClicked: map<int, bool>

    ghost predicate Valid()
      reads this
    {
      currentPage >= 1 && ValidLimit(limit)
    }

    /** The `useState` initial values. */
    constructor ()
      ensures Valid()
      ensures currentPage == 1 && limit == 30
      ensures category == "" && productFilter == "" && heartClicked == map[]
    {
      currentPage, limit := 1, 30;
      category, productFilter := "", "";
      heartClicked := map[];
    }

    /** The argument the list effect dispatches `productListApi` with. */
    function ListRequest(): (p: ProductSlice.ListParams)
      reads this
      requires Valid()
      ensures p.limit == limit && p.category == category && p.q == productFilter
      ensures p.skip % limit == 0 && p.skip / limit == currentPage - 1
    {
      ProductSlice.ListParams(Skip(currentPage, limit), limit, category, productFilter)
    }

    /** `handlePagination`: the pager reports a page number from 1 on. */
    method HandlePagination(page: int)
      requires Valid() && page >= 1
      modifies this
      ensures Valid() && currentPage == page
      ensures limit == old(limit) && category == old(category)
      ensures productFilter == old(productFilter) && heartClicked == old(heartClicked)
    {
      currentPage := page;
    }

    /** `handleHeartClick`. */
    method HandleHeartClick(id: int)
      requires Valid()
      modifies this
      ensures Valid() && heartClicked == Toggle(old(heartClicked), id)
      ensures currentPage == old(currentPage) && limit == old(limit)
      ensures category == old(category) && productFilter == old(productFilter)
    {
      heartClicked := Toggle(heartClicked, id);
    }

    /** `handleLimitChange`: the select delivers one of its three values. The
        current page is not reset. */
    method HandleLimitChange(selected: int)
      requires Valid() && ValidLimit(selected)
      modifies this
      ensures Valid() && limit == selected
      ensures currentPage == old(currentPage) && category == old(category)
      ensures productFilter == old(productFilter) && heartClicked == old(heartClicked)
    {
      limit := selected;
    }

    /** The category select's `onChange`. The current page is not reset. */
    method SetCategory(c: string)
      requires Valid()
      modifies this
      ensures Valid() && category == c
      ensures currentPage == old(currentPage) && limit == old(limit)
      ensures productFilter == old(productFilter) && heartClicked == old(heartClicked)
    {
      category := c;
    }

    /** The search field's `onChange`. The current page is not reset. */
    method SetProductFilter(q: string)
      requires Valid()
      modifies this
      ensures Valid() && productFilter == q
      ensures currentPage == old(currentPage) && limit == old(limit)
      ensures category == old(category) && heartClicked == old(heartClicked)
    {
      productFilter := q;
    }
  }
}
