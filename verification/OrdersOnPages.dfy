/** Exactly when every order of the user is on exactly one page, at one place of it. */
module OrdersOnPages {
  import opened Text
  import opened Sorting
  import opened Listing

  // ----- counting an order's entries -----

  /** Is this entry the order `id` of database `d`? */
  function IsOrder(d: string, id: string): Listed -> bool {
    (l: Listed) => Lower(l.tenantCode) == d && l.order.id == id
  }

  function HasId(id: string): Order -> bool {
    (o: Order) => o.id == id
  }

  /** Does this tenant's query read database `d`? */
  function ReadsFrom(d: string): Tenant -> bool {
    (t: Tenant) => t.readable && Lower(t.code) == d
  }

  /** Identifiers are primary keys. */
  ghost predicate UniqueIds(store: Store) {
    forall d, i, j :: d in store && 0 <= i < j < |store[d]| ==> store[d][i].id != store[d][j].id
  }

  lemma {:induction false} LabelledIds(rows: seq<Order>, code: string, d: string, id: string)
    ensures CountIf(Labelled(rows, code), IsOrder(d, id)) == if Lower(code) == d then CountIf(rows, HasId(id)) else 0
  {
    if rows != [] {
      assert Labelled(rows, code)[1..] == Labelled(rows[1..], code);
      LabelledIds(rows[1..], code, d, id);
    }
  }

  lemma {:induction false} OwnAbsent(rows: seq<Order>, userId: string, id: string)
    requires forall i :: 0 <= i < |rows| ==> rows[i].id != id
    ensures CountIf(Own(rows, userId), HasId(id)) == 0
  {
    if rows != [] {
      OwnAbsent(rows[1..], userId, id);
      CountAppend(if rows[0].userId == userId then [rows[0]] else [], Own(rows[1..], userId), HasId(id));
    }
  }

  lemma {:induction false} OwnOnce(rows: seq<Order>, userId: string, k: nat)
    requires k < |rows| && rows[k].userId == userId
    requires forall i, j :: 0 <= i < j < |rows| ==> rows[i].id != rows[j].id
    ensures CountIf(Own(rows, userId), HasId(rows[k].id)) == 1
  {
    var id := rows[k].id;
    var head := if rows[0].userId == userId then [rows[0]] else [];
    CountAppend(head, Own(rows[1..], userId), HasId(id));
    if k == 0 {
      OwnAbsent(rows[1..], userId, id);
    } else {
      OwnOnce(rows[1..], userId, k - 1);
      assert rows[0].id != id;
    }
  }

  lemma FromTenantIds(store: Store, t: Tenant, userId: string, d: string, id: string)
    requires d in store
    ensures CountIf(FromTenant(store, t, userId), IsOrder(d, id))
         == if ReadsFrom(d)(t) then CountIf(Own(store[d], userId), HasId(id)) else 0
  {
    var own := Own(RowsOf(store, t), userId);
    SortCounts(own, OrderNewerFirst, HasId(id));
    LabelledIds(Sort(own, OrderNewerFirst), t.code, d, id);
  }

  /** An order of the user has one entry per listed code that reads its database. */
  lemma {:induction false} CollectedIds(store: Store, tenants: seq<Tenant>, userId: string, d: string, id: string)
    requires d in store && CountIf(Own(store[d], userId), HasId(id)) == 1
    ensures CountIf(Collected(store, tenants, userId), IsOrder(d, id)) == CountIf(tenants, ReadsFrom(d))
  {
    if tenants != [] {
      var n := |tenants| - 1;
      CollectedIds(store, tenants[..n], userId, d, id);
      FromTenantIds(store, tenants[n], userId, d, id);
      var before, own := Collected(store, tenants[..n], userId), FromTenant(store, tenants[n], userId);
      assert Collected(store, tenants, userId) == before + own;
      CountAppend(before, own, IsOrder(d, id));
      CountLast(tenants, ReadsFrom(d));
    }
  }

  // ----- places and pages -----

  /** The entry at place `i` of page `page` satisfies `p`. */
  ghost predicate ShownAt<T>(merged: seq<T>, perPage: int, page: int, i: int, p: T -> bool)
    requires perPage >= 1
  {
    && 1 <= page <= TotalPages(|merged|, perPage)
    && 0 <= i < |OrderPage(merged, page, perPage).data|
    && p(OrderPage(merged, page, perPage).data[i])
  }

  /** Such an entry is on exactly one page, at one place of it. */
  ghost predicate ShownOnce<T>(merged: seq<T>, perPage: int, p: T -> bool)
    requires perPage >= 1
  {
    exists page, i :: ShownAt(merged, perPage, page, i, p) &&
      forall page', i' :: ShownAt(merged, perPage, page', i', p) ==> page' == page && i' == i
  }

  function PageOf(q: nat, perPage: int): int
    requires perPage >= 1
  {
    q / perPage + 1
  }

  function OnPage(q: nat, perPage: int): int
    requires perPage >= 1
  {
    q - (PageOf(q, perPage) - 1) * perPage
  }

  /** Place `q` of the list is shown at one place of one page. */
  lemma PlaceShown<T>(merged: seq<T>, perPage: int, q: nat, p: T -> bool)
    requires perPage >= 1 && q < |merged| && p(merged[q])
    ensures ShownAt(merged, perPage, PageOf(q, perPage), OnPage(q, perPage), p)
  {
    EachPlaceOnOnePage(merged, perPage, q, PagesAtLeastOne(|merged|, perPage));
    EachPlaceOnOnePage(merged, perPage, q, PageOf(q, perPage));
  }

  function PagesAtLeastOne(total: nat, perPage: int): (n: int)
    requires perPage >= 1
    ensures 1 <= n <= TotalPages(total, perPage)
  {
    TotalPages(total, perPage)
  }

  /** What a page shows stands at a place of the list, and that place determines page and index. */
  lemma ShownPlace<T>(merged: seq<T>, perPage: int, page: int, i: int, p: T -> bool) returns (q: nat)
    requires perPage >= 1 && ShownAt(merged, perPage, page, i, p)
    ensures q < |merged| && p(merged[q]) && page == PageOf(q, perPage) && i == OnPage(q, perPage)
  {
    Start(page, perPage);
    var start := (page - 1) * perPage;
    q := start + i;
    assert OrderPage(merged, page, perPage).data == Slice(merged, start, perPage);
    EachPlaceOnOnePage(merged, perPage, q, page);
  }

  lemma ShownOnceExactly<T(!new)>(merged: seq<T>, perPage: int, p: T -> bool)
    requires perPage >= 1
    ensures ShownOnce(merged, perPage, p) <==> CountIf(merged, p) == 1
  {
    if CountIf(merged, p) == 1 {
      var q := FindCounted(merged, p);
      PlaceShown(merged, perPage, q, p);
      forall page, i | ShownAt(merged, perPage, page, i, p) ensures page == PageOf(q, perPage) && i == OnPage(q, perPage) {
        var q' := ShownPlace(merged, perPage, page, i, p);
        if q < q' { CountTwo(merged, p, q, q'); }
        if q' < q { CountTwo(merged, p, q', q); }
      }
    } else if CountIf(merged, p) >= 2 {
      var q, q' := FindTwo(merged, p);
      PlaceShown(merged, perPage, q, p);
      PlaceShown(merged, perPage, q', p);
      assert PageOf(q, perPage) != PageOf(q', perPage) || OnPage(q, perPage) != OnPage(q', perPage);
    } else {
      forall page, i ensures !ShownAt(merged, perPage, page, i, p) {
        if ShownAt(merged, perPage, page, i, p) {
          var q := ShownPlace(merged, perPage, page, i, p);
          CountAt(merged, p, q);
        }
      }
    }
  }

  // ----- the result -----

  /** An order of the user that some listed code reads. */
  ghost predicate Readable(store: Store, tenants: seq<Tenant>, userId: string, d: string, k: nat) {
    && d in store && k < |store[d]| && store[d][k].userId == userId
    && exists t :: t in tenants && ReadsFrom(d)(t)
  }

  predicate SameDatabase(t: Tenant, u: Tenant) {
    t.readable && u.readable && Lower(t.code) == Lower(u.code)
  }

  /** No two listed codes that are read share a database in which the user has an order. */
  predicate SeparateDatabases(store: Store, tenants: seq<Tenant>, userId: string) {
    forall i, j :: 0 <= i < j < |tenants| && SameDatabase(tenants[i], tenants[j]) ==>
      Own(RowsOf(store, tenants[i]), userId) == []
  }

  /** An order is shown once exactly when one listed code reads its database. */
  lemma OrderShownOnceExactly(store: Store, tenants: seq<Tenant>, userId: string, perPage: int, d: string, k: nat)
    requires perPage >= 1 && UniqueIds(store) && Readable(store, tenants, userId, d, k)
    ensures ShownOnce(Merged(store, tenants, userId), perPage, IsOrder(d, store[d][k].id))
       <==> CountIf(tenants, ReadsFrom(d)) == 1
  {
    var id := store[d][k].id;
    OwnOnce(store[d], userId, k);
    CollectedIds(store, tenants, userId, d, id);
    SortCounts(Collected(store, tenants, userId), NewerFirst, IsOrder(d, id));
    ShownOnceExactly(Merged(store, tenants, userId), perPage, IsOrder(d, id));
  }

  /**
   Every order of the user that can be read is on exactly one page, at one place, if and only if no two listed tenant
   codes read the same database and find orders of the user there.
   */
  lemma OrdersShownOnceExactly(store: Store, tenants: seq<Tenant>, userId: string, perPage: int)
    requires perPage >= 1 && UniqueIds(store)
    ensures (forall d, k: nat :: Readable(store, tenants, userId, d, k) ==>
               ShownOnce(Merged(store, tenants, userId), perPage, IsOrder(d, store[d][k].id)))
       <==> SeparateDatabases(store, tenants, userId)
  {
    if SeparateDatabases(store, tenants, userId) {
      forall d, k: nat | Readable(store, tenants, userId, d, k)
        ensures ShownOnce(Merged(store, tenants, userId), perPage, IsOrder(d, store[d][k].id))
      {
        OneReader(store, tenants, userId, d, k);
        OrderShownOnceExactly(store, tenants, userId, perPage, d, k);
      }
    } else {
      var i, j :| 0 <= i < j < |tenants| && SameDatabase(tenants[i], tenants[j])
               && Own(RowsOf(store, tenants[i]), userId) != [];
      var d := Lower(tenants[i].code);
      var k := OwnFrom(store[d], userId);
      assert ReadsFrom(d)(tenants[i]) && tenants[i] in tenants;
      CountTwo(tenants, ReadsFrom(d), i, j);
      OrderShownOnceExactly(store, tenants, userId, perPage, d, k);
    }
  }

  lemma {:induction false} OwnFrom(rows: seq<Order>, userId: string) returns (k: nat)
    requires Own(rows, userId) != []
    ensures k < |rows| && rows[k].userId == userId
  {
    if rows[0].userId == userId {
      k := 0;
    } else {
      k := OwnFrom(rows[1..], userId);
      k := k + 1;
    }
  }

  lemma OneReader(store: Store, tenants: seq<Tenant>, userId: string, d: string, k: nat)
    requires SeparateDatabases(store, tenants, userId) && UniqueIds(store) && Readable(store, tenants, userId, d, k)
    ensures CountIf(tenants, ReadsFrom(d)) == 1
  {
    OwnOnce(store[d], userId, k);
    var t :| t in tenants && ReadsFrom(d)(t);
    var n :| 0 <= n < |tenants| && tenants[n] == t;
    CountAt(tenants, ReadsFrom(d), n);
    if CountIf(tenants, ReadsFrom(d)) >= 2 {
      var i, j := FindTwo(tenants, ReadsFrom(d));
      assert false;
    }
  }

  /** It is enough that no two listed codes have the same lower case. */
  lemma DistinctSpellingsSuffice(store: Store, tenants: seq<Tenant>, userId: string)
    requires forall i, j :: 0 <= i < j < |tenants| ==> Lower(tenants[i].code) != Lower(tenants[j].code)
    ensures SeparateDatabases(store, tenants, userId)
  {}

  /** Two spellings of a code, both listed: the one order of their database is on page 1 and again on page 2. */
  lemma TwoSpellingsListTwice(order: Order)
    ensures var merged := Merged(map["acme" := [order]], [Tenant("ACME", true), Tenant("acme", true)], order.userId);
            && OrderPage(merged, 1, 1).data == [Listed(order, "ACME")]
            && OrderPage(merged, 2, 1).data == [Listed(order, "acme")]
  {
    var store: Store, upper, lower := map["acme" := [order]], Tenant("ACME", true), Tenant("acme", true);
    assert Lower("ACME") == "acme" && Lower("acme") == "acme";
    assert [order][1..] == [] && Own([order], order.userId) == [order];
    assert Sort([order], OrderNewerFirst) == [order] by { assert Sort([], OrderNewerFirst) == []; }
    assert FromTenant(store, upper, order.userId) == [Listed(order, "ACME")];
    assert FromTenant(store, lower, order.userId) == [Listed(order, "acme")];
    assert [upper, lower][..1] == [upper] && [upper][..0] == [];
    assert Collected(store, [upper], order.userId) == [Listed(order, "ACME")];
    var list := Collected(store, [upper, lower], order.userId);
    assert list == [Listed(order, "ACME"), Listed(order, "acme")];
    SortTied(list[0], list[1]);
  }

  lemma SortTied(a: Listed, b: Listed)
    requires NewerFirst(a, b)
    ensures Sort([a, b], NewerFirst) == [a, b]
  {
    assert [a, b][1..] == [b] && [b][1..] == [];
    assert Sort([b], NewerFirst) == [b] by { assert Sort([], NewerFirst) == []; }
  }
}
