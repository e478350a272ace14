/**
 * The read side of `OrdersService` (src/orders/orders.service.ts): which items belong to an order,
 * the newest-first listing, the per-seller view, and the invariant the two tables keep.
 */
module OrderQueries {
  import opened Identity
  import opened ProductEntity
  import opened OrderEntity
  import opened Exceptions
  import opened Products
  import opened OrderRules
  import Seqs

  type OrderTable = map<OrderId, Order>

  /** An order as the service returns it: the header with a list of its items attached. */
  datatype OrderView = OrderView(order: Order, items: seq<OrderItem>)

  /** Every header is stored under its own id, and ids come from a counter now at `n`. */
  ghost predicate OrdersKeyed(orders: OrderTable, n: nat) {
    forall k :: k in orders ==> orders[k].id == k && k < n
  }

  /** `orderItemRepository.find({ where: { orderId } })`: the items of order `id`, in stored order. */
  function ItemsOf(items: seq<OrderItem>, id: OrderId): (r: seq<OrderItem>)
    ensures forall it :: it in r <==> it in items && it.orderId == id
    ensures (forall i :: 0 <= i < |items| ==> items[i].orderId == id) ==> r == items
    ensures (forall i :: 0 <= i < |items| ==> items[i].orderId != id) ==> r == []
  {
    if items == [] then []
    else if items[0].orderId == id then [items[0]] + ItemsOf(items[1..], id)
    else ItemsOf(items[1..], id)
  }

  /** Looking up an order's items over two item lists is looking them up in each, in order. */
  lemma {:induction false} ItemsOfAppend(a: seq<OrderItem>, b: seq<OrderItem>, id: OrderId)
    ensures ItemsOf(a + b, id) == ItemsOf(a, id) + ItemsOf(b, id)
  {
    if a == [] {
      assert a + b == b;
    } else {
      assert (a + b)[1..] == a[1..] + b;
      ItemsOfAppend(a[1..], b, id);
    }
  }

  /** The inner join of an item with its product, restricted to seller `seller`. */
  predicate SoldBy(t: ProductTable, seller: UserId, it: OrderItem) {
    it.productId in t && t[it.productId].sellerId == seller
  }

  /**
   * The join condition agrees with the seller's product listing: an item passes it exactly when its
   * product is one of the products `findBySeller` of the products service lists for that seller.
   */
  lemma SoldByListedProduct(t: ProductTable, n: nat, seller: UserId, it: OrderItem)
    requires Keyed(t, n)
    ensures SoldBy(t, seller, it) <==>
              exists i :: 0 <= i < |ProductsOfSeller(t, n, seller)| && ProductsOfSeller(t, n, seller)[i].id == it.productId
  {
    var ps := ProductsOfSeller(t, n, seller);
    if i :| 0 <= i < |ps| && ps[i].id == it.productId {
      assert t[ps[i].id] == ps[i];
    }
  }

  /** The items of order `id` whose product is sold by `seller`, active or not. */
  function SellerItemsOf(items: seq<OrderItem>, t: ProductTable, seller: UserId, id: OrderId): (r: seq<OrderItem>)
    ensures forall it :: it in r <==> it in items && it.orderId == id && SoldBy(t, seller, it)
  {
    Seqs.Filter(items, (it: OrderItem) => it.orderId == id && SoldBy(t, seller, it))
  }

  // ---------------------------------------------------------------- ordering by createdAt DESC

  ghost predicate AllIn(orders: OrderTable, ks: seq<OrderId>) {
    forall i :: 0 <= i < |ks| ==> ks[i] in orders
  }

  /** `order: { createdAt: 'DESC' }`: no header is listed after an older one. */
  ghost predicate NewestFirst(orders: OrderTable, ks: seq<OrderId>)
    requires AllIn(orders, ks)
  {
    forall i, j :: 0 <= i < j < |ks| ==> orders[ks[i]].createdAt >= orders[ks[j]].createdAt
  }

  /** Places `k` before the first header that is not newer than it. */
  function InsertNewest(orders: OrderTable, k: OrderId, ks: seq<OrderId>): (r: seq<OrderId>)
    requires k in orders && AllIn(orders, ks) && NewestFirst(orders, ks)
    ensures |r| == |ks| + 1
    ensures forall x :: x in r <==> x == k || x in ks
    ensures AllIn(orders, r) && NewestFirst(orders, r)
    ensures Seqs.Distinct(ks) && k !in ks ==> Seqs.Distinct(r)
    decreases |ks|
  {
    if ks == [] then [k]
    else if orders[k].createdAt >= orders[ks[0]].createdAt then [k] + ks
    else
      assert Seqs.Distinct(ks) ==> Seqs.Distinct(ks[1..]) && ks[0] !in ks[1..];
      var rest := InsertNewest(orders, k, ks[1..]);
      assert forall j :: 0 <= j < |rest| ==> orders[ks[0]].createdAt >= orders[rest[j]].createdAt by {
        forall j | 0 <= j < |rest| ensures orders[ks[0]].createdAt >= orders[rest[j]].createdAt {
          if rest[j] != k {
            assert rest[j] in ks[1..];
            var m :| 0 <= m < |ks[1..]| && ks[1..][m] == rest[j];
            assert ks[m + 1] == rest[j];
          }
        }
      }
      [ks[0]] + rest
  }

  /** Insertion sort of header ids by `createdAt`, newest first. */
  function SortNewest(orders: OrderTable, ks: seq<OrderId>): (r: seq<OrderId>)
    requires AllIn(orders, ks)
    ensures |r| == |ks|
    ensures forall x :: x in r <==> x in ks
    ensures AllIn(orders, r) && NewestFirst(orders, r)
    ensures Seqs.Distinct(ks) ==> Seqs.Distinct(r)
    decreases |ks|
  {
    if ks == [] then []
    else
      assert ks == [ks[0]] + ks[1..];
      InsertNewest(orders, ks[0], SortNewest(orders, ks[1..]))
  }

  /** The headers `ks`, each with the items `itemsOf` attaches to it. */
  function Hydrate(orders: OrderTable, ks: seq<OrderId>, itemsOf: OrderId -> seq<OrderItem>): (r: seq<OrderView>)
    requires AllIn(orders, ks)
    ensures |r| == |ks| && forall i :: 0 <= i < |ks| ==> r[i] == OrderView(orders[ks[i]], itemsOf(ks[i]))
  {
    seq(|ks|, i requires 0 <= i < |ks| => OrderView(orders[ks[i]], itemsOf(ks[i])))
  }

  // ---------------------------------------------------------------- queries

  /**
   * `findOne`: NotFound when there is no such order, Forbidden unless the caller is its buyer or an
   * admin, otherwise the header with all of its items.
   */
  function FindOrder(orders: OrderTable, items: seq<OrderItem>, id: OrderId, userId: UserId, role: UserRole)
    : (r: Result<OrderView>)
    ensures id !in orders ==> r == Failure(NotFound(OrderRecord, id))
    ensures id in orders && !CanAccess(orders[id], userId, role) ==> r == Failure(Forbidden(NotOwner))
    ensures r.Success? <==> id in orders && CanAccess(orders[id], userId, role)
    ensures r.Success? ==> r.value == OrderView(orders[id], ItemsOf(items, id))
  {
    if id !in orders then Failure(NotFound(OrderRecord, id))
    else if !CanAccess(orders[id], userId, role) then Failure(Forbidden(NotOwner))
    else Success(OrderView(orders[id], ItemsOf(items, id)))
  }

  /** The ids of the selected headers, each once, newest first. */
  function ListedKeys(orders: OrderTable, n: nat, keep: OrderId -> bool): (ks: seq<OrderId>)
    requires OrdersKeyed(orders, n)
    ensures AllIn(orders, ks) && NewestFirst(orders, ks) && Seqs.Distinct(ks)
    ensures forall k :: k in ks <==> k in orders && keep(k)
  {
    var all := Seqs.KeysBelow(orders, n);
    Seqs.IncreasingIsDistinct(all);
    var chosen := Seqs.Filter(all, keep);
    SortNewest(orders, chosen)
  }

  /** Shared by the two listings: the selected headers of the table, newest first, hydrated. */
  function Listing(orders: OrderTable, n: nat, keep: OrderId -> bool, itemsOf: OrderId -> seq<OrderItem>)
    : (r: seq<OrderView>)
    requires OrdersKeyed(orders, n)
    ensures forall i :: 0 <= i < |r| ==>
              r[i].order.id in orders && r[i].order == orders[r[i].order.id] &&
              keep(r[i].order.id) && r[i].items == itemsOf(r[i].order.id)
    ensures forall k :: k in orders && keep(k) ==> exists i :: 0 <= i < |r| && r[i].order.id == k
    ensures forall i, j :: 0 <= i < j < |r| ==> r[i].order.id != r[j].order.id
    ensures forall i, j :: 0 <= i < j < |r| ==> r[i].order.createdAt >= r[j].order.createdAt
  {
    var ks := ListedKeys(orders, n, keep);
    var r := Hydrate(orders, ks, itemsOf);
    assert forall i :: 0 <= i < |r| ==> r[i].order.id == ks[i];
    assert forall k :: k in orders && keep(k) ==> exists i :: 0 <= i < |r| && r[i].order.id == k by {
      forall k | k in orders && keep(k) ensures exists i :: 0 <= i < |r| && r[i].order.id == k {
        var i :| 0 <= i < |ks| && ks[i] == k;
        assert r[i].order.id == k;
      }
    }
    r
  }

  /**
   * `findAll`: every order for an admin, the caller's own orders for anyone else, newest first,
   * each with all of its items.
   */
  function ListOrders(orders: OrderTable, items: seq<OrderItem>, n: nat, userId: UserId, role: UserRole)
    : (r: seq<OrderView>)
    requires OrdersKeyed(orders, n)
    ensures forall i :: 0 <= i < |r| ==>
              r[i].order.id in orders && r[i].order == orders[r[i].order.id] &&
              CanAccess(r[i].order, userId, role) && r[i].items == ItemsOf(items, r[i].order.id)
    ensures forall k :: k in orders && CanAccess(orders[k], userId, role) ==>
              exists i :: 0 <= i < |r| && r[i].order.id == k
    ensures forall i, j :: 0 <= i < j < |r| ==> r[i].order.id != r[j].order.id
    ensures forall i, j :: 0 <= i < j < |r| ==> r[i].order.createdAt >= r[j].order.createdAt
  {
    Listing(orders, n, (k: OrderId) => k in orders && CanAccess(orders[k], userId, role), (k: OrderId) => ItemsOf(items, k))
  }

  /** The orders holding at least one item of `seller`: the distinct `orderId`s of the joined items. */
  function TouchedBy(items: seq<OrderItem>, t: ProductTable, seller: UserId): (r: set<OrderId>)
    ensures forall k :: k in r <==> exists it :: it in items && it.orderId == k && SoldBy(t, seller, it)
  {
    set it | it in Seqs.Filter(items, (it: OrderItem) => SoldBy(t, seller, it)) :: it.orderId
  }

  /**
   * `findBySeller`: the orders holding an item of `seller`, newest first, each with only that
   * seller's items attached; the header, its total included, is returned as stored.
   */
  function SellerOrders(orders: OrderTable, items: seq<OrderItem>, t: ProductTable, n: nat, seller: UserId)
    : (r: seq<OrderView>)
    requires OrdersKeyed(orders, n)
    ensures forall i :: 0 <= i < |r| ==>
              r[i].order.id in orders && r[i].order == orders[r[i].order.id] &&
              r[i].items == SellerItemsOf(items, t, seller, r[i].order.id) &&
              forall it :: it in r[i].items ==> SoldBy(t, seller, it)
    ensures forall k :: k in orders && k in TouchedBy(items, t, seller) ==>
              exists i :: 0 <= i < |r| && r[i].order.id == k
    ensures forall i :: 0 <= i < |r| ==> r[i].order.id in TouchedBy(items, t, seller)
    ensures forall i, j :: 0 <= i < j < |r| ==> r[i].order.id != r[j].order.id
    ensures forall i, j :: 0 <= i < j < |r| ==> r[i].order.createdAt >= r[j].order.createdAt
  {
    var touched := TouchedBy(items, t, seller);
    Listing(orders, n, (k: OrderId) => k in touched, (k: OrderId) => SellerItemsOf(items, t, seller, k))
  }

  /** An order in a seller's listing has at least one item, and every attached item is one of the order's own. */
  lemma SellerViewIsPartOfOrder(orders: OrderTable, items: seq<OrderItem>, t: ProductTable, n: nat, seller: UserId, i: nat)
    requires OrdersKeyed(orders, n)
    requires i < |SellerOrders(orders, items, t, n, seller)|
    ensures var v := SellerOrders(orders, items, t, n, seller)[i];
            v.items != [] && forall it :: it in v.items ==> it in ItemsOf(items, v.order.id)
  {
    var v := SellerOrders(orders, items, t, n, seller)[i];
    var it :| it in items && it.orderId == v.order.id && SoldBy(t, seller, it);
    assert it in v.items;
  }

  /** An order that `findOne` shows a caller is among the orders `findAll` lists for that caller, with the same items. */
  lemma FindOrderAgreesWithList(orders: OrderTable, items: seq<OrderItem>, n: nat, id: OrderId, userId: UserId, role: UserRole)
    requires OrdersKeyed(orders, n)
    requires FindOrder(orders, items, id, userId, role).Success?
    ensures FindOrder(orders, items, id, userId, role).value in ListOrders(orders, items, n, userId, role)
  {
    var r := ListOrders(orders, items, n, userId, role);
    var i :| 0 <= i < |r| && r[i].order.id == id;
    assert r[i] == FindOrder(orders, items, id, userId, role).value;
  }

  // ---------------------------------------------------------------- store invariant

  /** One currency and a total that is the sum of price × quantity of the order's items. */
  ghost predicate WellFormed(o: Order, its: seq<OrderItem>) {
    its != [] && ItemsTotal(its) == o.totalAmount && InCurrency(its, o.currency)
  }

  ghost predicate InCurrency(its: seq<OrderItem>, c: Currency) {
    forall i :: 0 <= i < |its| ==> its[i].currency == c
  }

  /**
   * What `create`, `update` and `cancel` keep true of the two tables: headers keyed by their ids,
   * every item belongs to a stored header, and every header is well formed over its items.
   */
  ghost predicate Consistent(orders: OrderTable, items: seq<OrderItem>, n: nat) {
    OrdersKeyed(orders, n) &&
    (forall i :: 0 <= i < |items| ==> items[i].orderId in orders) &&
    forall k {:trigger ItemsOf(items, k)} :: k in orders ==> WellFormed(orders[k], ItemsOf(items, k))
  }

  /** Items appended for order `n` neither join nor leave any other order, and are exactly order `n`'s. */
  lemma ItemsOfAfterAppend(items: seq<OrderItem>, saved: seq<OrderItem>, n: OrderId, k: OrderId)
    requires forall i :: 0 <= i < |items| ==> items[i].orderId != n
    requires forall i :: 0 <= i < |saved| ==> saved[i].orderId == n
    ensures ItemsOf(items + saved, k) == if k == n then saved else ItemsOf(items, k)
  {
    ItemsOfAppend(items, saved, k);
  }

  /**
   * Appending a fresh order `n` and its item snapshots, priced in one currency and summing to its
   * total, keeps the tables consistent; the other orders keep their items.
   */
  lemma ConsistentAfterCreate(orders: OrderTable, items: seq<OrderItem>, n: nat, o: Order, saved: seq<OrderItem>)
    requires Consistent(orders, items, n)
    requires o.id == n && WellFormed(o, saved)
    requires forall i :: 0 <= i < |saved| ==> saved[i].orderId == n
    ensures Consistent(orders[n := o], items + saved, n + 1)
    ensures ItemsOf(items + saved, n) == saved
  {
    var orders' := orders[n := o];
    FreshOrderHasNoItems(orders, items, n);
    forall k | k in orders' ensures ItemsOf(items + saved, k) == if k == n then saved else ItemsOf(items, k) {
      ItemsOfAfterAppend(items, saved, n, k);
    }
    forall k | k in orders' ensures WellFormed(orders'[k], ItemsOf(items + saved, k)) {
      if k != n {
        assert WellFormed(orders[k], ItemsOf(items, k));
      }
    }
    AppendedItemsBelong(orders, items, o, saved);
  }

  /** No stored item refers to an id the counter has not handed out. */
  lemma FreshOrderHasNoItems(orders: OrderTable, items: seq<OrderItem>, n: nat)
    requires Consistent(orders, items, n)
    ensures forall i :: 0 <= i < |items| ==> items[i].orderId != n
  {
    forall i | 0 <= i < |items| ensures items[i].orderId != n {
      assert items[i].orderId in orders;
    }
  }

  /** After the append every item still refers to a stored header. */
  lemma AppendedItemsBelong(orders: OrderTable, items: seq<OrderItem>, o: Order, saved: seq<OrderItem>)
    requires forall i :: 0 <= i < |items| ==> items[i].orderId in orders
    requires forall i :: 0 <= i < |saved| ==> saved[i].orderId == o.id
    ensures forall i :: 0 <= i < |items + saved| ==> (items + saved)[i].orderId in orders[o.id := o]
  {
  }

  /** Replacing a header by one with the same id, total and currency keeps the tables consistent. */
  lemma ConsistentAfterReplace(orders: OrderTable, items: seq<OrderItem>, n: nat, o: Order)
    requires Consistent(orders, items, n)
    requires o.id in orders && orders[o.id].totalAmount == o.totalAmount && orders[o.id].currency == o.currency
    ensures Consistent(orders[o.id := o], items, n)
  {
    var orders' := orders[o.id := o];
    forall k | k in orders' ensures WellFormed(orders'[k], ItemsOf(items, k)) {
      assert WellFormed(orders[k], ItemsOf(items, k));
    }
    assert OrdersKeyed(orders', n);
  }
}
