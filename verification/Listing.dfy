/** The cross-tenant order listing and the two paginations. */
module Listing {
  import opened Wrappers
  import opened Text
  import opened Sorting

  datatype Order = Order(id: string, userId: string, createdAt: int)

  /** The order tables by lower-cased tenant code: two spellings of a code share one database. */
  type Store = map<string, seq<Order>>

  /** A flagged user's tenant code, and whether reading its database succeeds. */
  datatype Tenant = Tenant(code: string, readable: bool)

  datatype Listed = Listed(order: Order, tenantCode: string)

  datatype Page<T> = Page(page: int, perPage: int, total: nat, totalPages: int, data: seq<T>)

  // ----- the controller's clamping of the query; `None` is what `parseInt` cannot read -----

  function ClampPage(page: Option<int>): (n: int)
    ensures n >= 1
    ensures page.Some? && page.value >= 1 ==> n == page.value
    ensures page.None? || page.value < 1 ==> n == 1
  {
    var p := page.GetOr(1);
    if p < 1 then 1 else p
  }

  function ClampPerPage(perPage: Option<int>): (n: int)
    ensures 1 <= n <= 100
    ensures perPage.Some? && 1 <= perPage.value <= 100 ==> n == perPage.value
    ensures perPage.None? || perPage.value == 0 ==> n == 10
  {
    var p := perPage.GetOr(10);
    var q := if p == 0 then 10 else p;
    if q < 1 then 1 else if q > 100 then 100 else q
  }

  // ----- slicing -----

  function TotalPages(total: nat, perPage: int): int
    requires perPage >= 1
  {
    var pages := (total + perPage - 1) / perPage;
    if pages < 1 then 1 else pages
  }

  /** `s.slice(start, start + count)` for a non-negative start. */
  function Slice<T>(s: seq<T>, start: nat, count: nat): seq<T> {
    var lo := if start < |s| then start else |s|;
    var hi := if start + count < |s| then start + count else |s|;
    s[lo..hi]
  }

  /** Page `page` of the order listing: a page past the end is the last page. */
  function OrderPage<T>(sorted: seq<T>, page: int, perPage: int): Page<T>
    requires page >= 1 && perPage >= 1
  {
    var pages := TotalPages(|sorted|, perPage);
    var current := if page < pages then page else pages;
    Start(current, perPage);
    Page(current, perPage, |sorted|, pages, Slice(sorted, (current - 1) * perPage, perPage))
  }

  /** Page `page` of the product listing: `skip` and `take` use the page asked for, the label the clamped one. */
  function ProductPage<T>(sorted: seq<T>, page: int, perPage: int): Page<T>
    requires page >= 1 && perPage >= 1
  {
    var pages := TotalPages(|sorted|, perPage);
    var current := if page < pages then page else pages;
    Start(page, perPage);
    Page(current, perPage, |sorted|, pages, Slice(sorted, (page - 1) * perPage, perPage))
  }

  lemma Start(page: int, perPage: int)
    requires page >= 1 && perPage >= 1
    ensures (page - 1) * perPage >= 0
  {}

  // ----- the merged list -----

  predicate NewerFirst(a: Listed, b: Listed) {
    a.order.createdAt >= b.order.createdAt
  }

  predicate OrderNewerFirst(a: Order, b: Order) {
    a.createdAt >= b.createdAt
  }

  function Own(rows: seq<Order>, userId: string): seq<Order> {
    if rows == [] then []
    else (if rows[0].userId == userId then [rows[0]] else []) + Own(rows[1..], userId)
  }

  function Labelled(rows: seq<Order>, code: string): seq<Listed> {
    seq(|rows|, i requires 0 <= i < |rows| => Listed(rows[i], code))
  }

  /** The rows a tenant's query sees; none on an error. */
  function RowsOf(store: Store, t: Tenant): seq<Order> {
    if t.readable && Lower(t.code) in store then store[Lower(t.code)] else []
  }

  /** What one tenant contributes: `findMany` for the user, newest first, labelled with the code as it is spelled. */
  function FromTenant(store: Store, t: Tenant, userId: string): seq<Listed> {
    Labelled(Sort(Own(RowsOf(store, t), userId), OrderNewerFirst), t.code)
  }

  function Collected(store: Store, tenants: seq<Tenant>, userId: string): seq<Listed> {
    if tenants == [] then []
    else Collected(store, tenants[..|tenants| - 1], userId) + FromTenant(store, tenants[|tenants| - 1], userId)
  }

  /** The whole list, before it is cut into pages. */
  function Merged(store: Store, tenants: seq<Tenant>, userId: string): seq<Listed> {
    Sort(Collected(store, tenants, userId), NewerFirst)
  }

  method FindAll(userId: string, store: Store, tenants: seq<Tenant>, page: int, perPage: int) returns (r: Page<Listed>)
    requires page >= 1 && perPage >= 1
    ensures r == OrderPage(Merged(store, tenants, userId), page, perPage)
  {
    var allOrders := [];
    var n := 0;
    while n < |tenants|
      invariant 0 <= n <= |tenants|
      invariant allOrders == Collected(store, tenants[..n], userId)
    {
      var tenant := tenants[n];
      assert tenants[..n + 1][..n] == tenants[..n];
      if tenant.readable && Lower(tenant.code) in store {
        var tenantOrders := Sort(Own(store[Lower(tenant.code)], userId), OrderNewerFirst);
        allOrders := allOrders + Labelled(tenantOrders, tenant.code);
      } else {
        assert FromTenant(store, tenant, userId) == [];
      }
      n := n + 1;
    }
    assert tenants[..n] == tenants;
    r := OrderPage(Sort(allOrders, NewerFirst), page, perPage);
  }

  // ----- what the list holds -----

  lemma {:induction false} OwnKeepsTheUsers(rows: seq<Order>, userId: string, o: Order)
    ensures multiset(Own(rows, userId))[o] == if o.userId == userId then multiset(rows)[o] else 0
  {
    if rows != [] {
      assert rows == [rows[0]] + rows[1..];
      OwnKeepsTheUsers(rows[1..], userId, o);
    }
  }

  /** How often an entry shows up: once per row of the user in the database of each tenant read under that spelling. */
  function Occurrences(store: Store, tenants: seq<Tenant>, userId: string, l: Listed): nat {
    if tenants == [] then 0
    else
      var n := |tenants| - 1;
      Occurrences(store, tenants[..n], userId, l) +
      if tenants[n].code == l.tenantCode && l.order.userId == userId
      then multiset(RowsOf(store, tenants[n]))[l.order] else 0
  }

  lemma {:induction false} LabelledCounts(rows: seq<Order>, code: string, l: Listed)
    ensures multiset(Labelled(rows, code))[l] == if l.tenantCode == code then multiset(rows)[l.order] else 0
  {
    if rows != [] {
      var n := |rows| - 1;
      LabelledCounts(rows[..n], code, l);
      assert rows == rows[..n] + [rows[n]];
      assert Labelled(rows, code) == Labelled(rows[..n], code) + [Listed(rows[n], code)];
    }
  }

  lemma FromTenantCounts(store: Store, t: Tenant, userId: string, l: Listed)
    ensures multiset(FromTenant(store, t, userId))[l]
         == if t.code == l.tenantCode && l.order.userId == userId then multiset(RowsOf(store, t))[l.order] else 0
  {
    var own := Own(RowsOf(store, t), userId);
    SortSorts(own, OrderNewerFirst);
    LabelledCounts(Sort(own, OrderNewerFirst), t.code, l);
    OwnKeepsTheUsers(RowsOf(store, t), userId, l.order);
  }

  lemma {:induction false} CollectedCounts(store: Store, tenants: seq<Tenant>, userId: string, l: Listed)
    ensures multiset(Collected(store, tenants, userId))[l] == Occurrences(store, tenants, userId, l)
  {
    if tenants != [] {
      var n := |tenants| - 1;
      CollectedCounts(store, tenants[..n], userId, l);
      FromTenantCounts(store, tenants[n], userId, l);
    }
  }

  // ----- pages -----

  function PagesUpTo<T>(sorted: seq<T>, perPage: int, count: nat): seq<T>
    requires perPage >= 1
  {
    if count == 0 then [] else PagesUpTo(sorted, perPage, count - 1) + OrderPage(sorted, count, perPage).data
  }

  lemma PagesCover(total: nat, perPage: int)
    requires perPage >= 1
    ensures TotalPages(total, perPage) * perPage >= total
    ensures total > 0 ==> (TotalPages(total, perPage) - 1) * perPage < total
  {
    var k := (total + perPage - 1) / perPage;
    assert k * perPage <= total + perPage - 1 < k * perPage + perPage;
    assert (k - 1) * perPage == k * perPage - perPage;
    assert total > 0 ==> k >= 1;
  }

  lemma {:induction false} PagesArePrefixes<T>(sorted: seq<T>, perPage: int, count: nat)
    requires perPage >= 1 && count <= TotalPages(|sorted|, perPage)
    ensures count * perPage >= 0
    ensures PagesUpTo(sorted, perPage, count) == Slice(sorted, 0, count * perPage)
  {
    if count > 0 {
      PagesArePrefixes(sorted, perPage, count - 1);
      var lo := (count - 1) * perPage;
      OneMore(count, perPage);
      assert OrderPage(sorted, count, perPage).data == Slice(sorted, lo, perPage);
      SlicesJoin(sorted, lo, perPage);
    }
  }

  lemma OneMore(count: int, perPage: int)
    ensures count * perPage == (count - 1) * perPage + perPage
  {}

  lemma SlicesJoin<T>(s: seq<T>, a: nat, b: nat)
    ensures Slice(s, 0, a) + Slice(s, a, b) == Slice(s, 0, a + b)
  {}

  /** Pages 1 to `total_pages`, put together, are a newest-first permutation of what the tenants read offer. */
  lemma PagesAreTheWholeList(userId: string, store: Store, tenants: seq<Tenant>, perPage: int)
    requires perPage >= 1
    ensures var merged := Merged(store, tenants, userId);
            var all := PagesUpTo(merged, perPage, TotalPages(|merged|, perPage));
            && (forall i, j :: 0 <= i < j < |all| ==> all[i].order.createdAt >= all[j].order.createdAt)
            && forall l :: multiset(all)[l] == Occurrences(store, tenants, userId, l)
  {
    var list := Collected(store, tenants, userId);
    var sorted := Sort(list, NewerFirst);
    SortSorts(list, NewerFirst);
    var pages := TotalPages(|sorted|, perPage);
    PagesArePrefixes(sorted, perPage, pages);
    PagesCover(|sorted|, perPage);
    assert Slice(sorted, 0, pages * perPage) == sorted;
    forall l ensures multiset(sorted)[l] == Occurrences(store, tenants, userId, l) {
      CollectedCounts(store, tenants, userId, l);
    }
  }

  lemma PlaceInSlice<T>(s: seq<T>, start: nat, count: nat, i: nat)
    requires i < |s|
    ensures start <= i < start + count <==> 0 <= i - start < |Slice(s, start, count)|
    ensures start <= i < start + count ==> Slice(s, start, count)[i - start] == s[i]
  {}

  lemma SliceEmpty<T>(s: seq<T>, start: nat, count: nat)
    requires count >= 1
    ensures Slice(s, start, count) == [] <==> start >= |s|
  {}

  /** `page` starts at or before `i` and ends after it exactly when it is the quotient's page. */
  lemma PageOfPlace(i: nat, page: int, perPage: int)
    requires page >= 1 && perPage >= 1
    ensures page == i / perPage + 1 <==> (page - 1) * perPage <= i < (page - 1) * perPage + perPage
  {
    var q, r := i / perPage, i % perPage;
    var d := q - (page - 1);
    assert i == q * perPage + r;
    assert q * perPage == (page - 1) * perPage + d * perPage;
    if d <= -1 {
      assert d * perPage <= -perPage;
    } else if d >= 1 {
      assert d * perPage >= perPage;
    } else {
      assert d * perPage == 0;
    }
  }

  lemma MulStrict(a: int, b: int, p: int)
    requires a * p < b * p && p >= 1
    ensures a < b
  {}

  /** Place `i` of the list is on exactly one page, at one place of it. */
  lemma EachPlaceOnOnePage<T>(sorted: seq<T>, perPage: int, i: nat, page: int)
    requires perPage >= 1 && i < |sorted| && 1 <= page <= TotalPages(|sorted|, perPage)
    ensures 1 <= i / perPage + 1 <= TotalPages(|sorted|, perPage)
    ensures var data := OrderPage(sorted, page, perPage).data;
            page == i / perPage + 1 <==> 0 <= i - (page - 1) * perPage < |data|
    ensures page == i / perPage + 1 ==> OrderPage(sorted, page, perPage).data[i - (page - 1) * perPage] == sorted[i]
  {
    var pages, q := TotalPages(|sorted|, perPage), i / perPage;
    PagesCover(|sorted|, perPage);
    PageOfPlace(i, q + 1, perPage);
    MulStrict(q, pages, perPage);
    PageOfPlace(i, page, perPage);
    Start(page, perPage);
    PlaceInSlice(sorted, (page - 1) * perPage, perPage, i);
  }

  /** A page past the end returns the last page, which is not empty unless the list is. */
  lemma PastTheEndIsLast<T>(sorted: seq<T>, page: int, perPage: int)
    requires perPage >= 1 && page > TotalPages(|sorted|, perPage)
    ensures OrderPage(sorted, page, perPage) == OrderPage(sorted, TotalPages(|sorted|, perPage), perPage)
    ensures sorted != [] ==> OrderPage(sorted, page, perPage).data != []
  {
    var pages := TotalPages(|sorted|, perPage);
    PagesCover(|sorted|, perPage);
    Start(pages, perPage);
    SliceEmpty(sorted, (pages - 1) * perPage, perPage);
  }

  /** The two paginations give the same answer exactly for the pages that exist, and for an empty table. */
  lemma PaginationsAgreeExactly<T>(sorted: seq<T>, page: int, perPage: int)
    requires page >= 1 && perPage >= 1
    ensures ProductPage(sorted, page, perPage) == OrderPage(sorted, page, perPage)
       <==> page <= TotalPages(|sorted|, perPage) || sorted == []
  {
    var pages := TotalPages(|sorted|, perPage);
    Start(page, perPage);
    Start(pages, perPage);
    if page > pages {
      PastTheEndIsLast(sorted, page, perPage);
      PagesCover(|sorted|, perPage);
      Start(page - pages, perPage);
      assert (page - 1) * perPage == pages * perPage + (page - pages - 1) * perPage;
      SliceEmpty(sorted, (page - 1) * perPage, perPage);
      SliceEmpty(sorted, (pages - 1) * perPage, perPage);
    }
  }

  /**
   What a page says of itself: the page asked for or the last one, the size asked for, the length of the list, and the
   least number of pages, at least one, that holds it.
   */
  lemma PageLabels<T>(sorted: seq<T>, page: int, perPage: int)
    requires page >= 1 && perPage >= 1
    ensures var p := OrderPage(sorted, page, perPage);
            && p.total == |sorted| && p.perPage == perPage
            && p.totalPages >= 1 && p.totalPages * perPage >= |sorted|
            && (p.totalPages > 1 ==> (p.totalPages - 1) * perPage < |sorted|)
            && (page <= p.totalPages ==> p.page == page) && (page > p.totalPages ==> p.page == p.totalPages)
    ensures var p, q := OrderPage(sorted, page, perPage), ProductPage(sorted, page, perPage);
            q.(data := p.data) == p
  {
    PagesCover(|sorted|, perPage);
  }
}
