/** The admin products page (app/admin/dashboard/products/page.tsx): the product
    list, its three counters and the active/inactive switch. */
module ProductsAdmin {
  import opened Outcomes
  import opened Catalog

  /** The select `fetchProducts` sends: every product, ordered by category. */
  const AllByCategory := Select("products", "*", false, Some("category"))

  /** The three counters the page shows. */
  datatype Counts = Counts(total: nat, active: nat, inactive: nat)

  /** The counters of a product list: the total is its length, the other two
      count the active and the inactive products, and they add up to the total. */
  function CountsOf(ps: seq<Product>): (c: Counts)
    ensures c.total == |ps|
    ensures c.active == |ActiveProducts(ps)| && c.inactive == |InactiveProducts(ps)|
    ensures c.active + c.inactive == c.total
  {
    ActiveInactivePartition(ps);
    Counts(|ps|, |ActiveProducts(ps)|, |InactiveProducts(ps)|)
  }

  /** The request `toggleActive(id, currentStatus)` sends: the negated status,
      for that id, and no other field. */
  function ToggleRequest(id: string, currentStatus: bool): (u: StatusUpdate)
    ensures u.id == id && u.is_active != currentStatus
  {
    StatusUpdate(id, !currentStatus)
  }

  /** Applying the toggle for a product's own status flips that product's status
      and changes nothing else in the table. */
  lemma ToggleFlipsOnlyThatRow(rows: seq<Product>, k: nat)
    requires k < |rows|
    ensures ApplyStatusUpdate(rows, ToggleRequest(rows[k].id, rows[k].is_active))[k]
            == rows[k].(is_active := !rows[k].is_active)
    ensures forall i :: 0 <= i < |rows| && rows[i].id != rows[k].id ==>
              ApplyStatusUpdate(rows, ToggleRequest(rows[k].id, rows[k].is_active))[i] == rows[i]
  {
  }

  /** Toggling a product and toggling it back restores the table. */
  lemma ToggleTwiceRestores(rows: seq<Product>, id: string, status: bool)
    requires forall i :: 0 <= i < |rows| && rows[i].id == id ==> rows[i].is_active == status
    ensures ApplyStatusUpdate(ApplyStatusUpdate(rows, ToggleRequest(id, status)), ToggleRequest(id, !status)) == rows
  {
    var once := ApplyStatusUpdate(rows, ToggleRequest(id, status));
    var twice := ApplyStatusUpdate(once, ToggleRequest(id, !status));
    forall i | 0 <= i < |rows| ensures twice[i] == rows[i] {
      assert once[i].id == rows[i].id;
    }
  }

  class ProductsPage {
    var products: seq<Product>
    var loading: bool

    constructor ()
      ensures products == [] && loading
    {
      products := [];
      loading := true;
    }

    /** `fetchProducts`: on error the list stays as it was; otherwise it becomes
        `data || []`. Loading ends either way. */
    method FetchProducts(outcome: FetchOutcome<Product>) returns (query: Select)
      modifies this
      ensures query == AllByCategory
      ensures outcome.FetchFailed? ==> products == old(products)
      ensures outcome.Fetched? ==> products == outcome.data.GetOr([])
      ensures !loading
    {
      query := AllByCategory;
      products := Refreshed(products, outcome);
      loading := false;
    }

    /** `toggleActive(id, currentStatus)`: sends the negated status for `id`; only
        when the update succeeds is the list fetched again (with `refetch`'s
        outcome), otherwise the page is unchanged. The second result is the
        re-fetch select, sent only after a successful update. */
    method ToggleActive(id: string, currentStatus: bool, outcome: WriteOutcome, refetch: FetchOutcome<Product>)
      returns (request: StatusUpdate, refetchQuery: Option<Select>)
      modifies this
      ensures request == ToggleRequest(id, currentStatus)
      ensures refetchQuery == (if outcome.Written? then Some(AllByCategory) else None)
      ensures outcome.Written? ==> products == Refreshed(old(products), refetch) && !loading
      ensures outcome.WriteFailed? ==> unchanged(this)
    {
      request := ToggleRequest(id, currentStatus);
      refetchQuery := None;
      if outcome.Written? {
        var query := FetchProducts(refetch);
        refetchQuery := Some(query);
      }
    }

    /** The "Total", "Active" and "Inactive" cards and the footer line. */
    function Counters(): (c: Counts)
      reads this
      ensures c.active + c.inactive == c.total == |products|
    {
      CountsOf(products)
    }
  }
}
