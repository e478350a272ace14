/**
 * `OrdersService` of src/orders/orders.service.ts: the `orders` and `order_items` tables, and the
 * operations that create, update and cancel orders, moving stock through `ProductsService`.
 * Header and item writes are inside a transaction; stock writes go through the products table
 * directly and survive a rollback.
 */
module Orders {
  import opened Wrappers
  import opened Identity
  import opened ProductEntity
  import opened OrderEntity
  import opened Exceptions
  import opened Products
  import opened OrderRules
  import opened OrderQueries

  /**
   * The header `create` saves: pending, priced in the first product's currency at the validated
   * total, with a missing address, zip code or note stored as the empty string and no payment id.
   */
  function NewHeader(dto: CreateOrderDto, buyerId: UserId, id: OrderId, currency: Currency, total: int, now: Timestamp)
    : (o: Order)
    ensures o.id == id && o.buyerId == buyerId && o.status == Pending && o.paymentId.None?
    ensures o.totalAmount == total && o.currency == currency && o.createdAt == now
    ensures o.shippingAddress == Some(dto.shippingAddress.GetOr(""))
    ensures o.zipCode == Some(dto.zipCode.GetOr("")) && o.notes == Some(dto.notes.GetOr(""))
  {
    Order(id, buyerId, Pending, total, currency,
          Some(dto.shippingAddress.GetOr("")), Some(dto.zipCode.GetOr("")), None, Some(dto.notes.GetOr("")), now)
  }

  /**
   * The checks `create` makes before writing anything: BadRequest for an empty request, then the
   * validation pass. It succeeds exactly when every line is orderable and all products share the
   * first one's currency, with that currency and Σ price × quantity as its tally.
   */
  function Placement(t: ProductTable, lines: seq<CreateOrderItemDto>): (r: Result<Tally>)
    ensures lines == [] ==> r == Failure(BadRequest(EmptyOrder))
    ensures lines != [] ==>
              (r.Success? <==> Orderable(t, lines) && OneCurrency(t, lines, t[lines[0].productId].currency))
    ensures r.Success? ==> Available(t, lines) && r.value.currency.Some?
    ensures r.Success? ==>
              r.value == Tally(Some(t[lines[0].productId].currency), LinesTotal(t, lines))
    ensures Available(t, lines) && r.Failure? ==> r.error.BadRequest?
  {
    if lines == [] then Failure(BadRequest(EmptyOrder))
    else
      ValidationSpec(t, lines);
      CheckLines(t, lines, None, 0)
  }

  /**
   * The checks `update` makes: NotFound, then Forbidden unless the caller is the buyer or an admin,
   * then, for a non-admin, Forbidden listing every key outside address, zip code and notes.
   */
  function UpdateGuard(orders: OrderTable, id: OrderId, patch: UpdateOrderDto, userId: UserId, role: UserRole)
    : (r: Result<Order>)
    ensures id !in orders ==> r == Failure(NotFound(OrderRecord, id))
    ensures id in orders && !CanAccess(orders[id], userId, role) ==> r == Failure(Forbidden(NotOwner))
    ensures id in orders && CanAccess(orders[id], userId, role) && role != Admin && Disallowed(patch) != [] ==>
              r == Failure(Forbidden(DisallowedFields(FieldNames(Disallowed(patch)))))
    ensures r.Success? <==> id in orders && CanAccess(orders[id], userId, role) && (role == Admin || Disallowed(patch) == [])
    ensures r.Success? ==> r.value == orders[id]
  {
    if id !in orders then Failure(NotFound(OrderRecord, id))
    else if !CanAccess(orders[id], userId, role) then Failure(Forbidden(NotOwner))
    else if role != Admin && |Disallowed(patch)| > 0 then Failure(Forbidden(DisallowedFields(FieldNames(Disallowed(patch)))))
    else Success(orders[id])
  }

  /**
   * The checks `cancel` makes: NotFound, then Forbidden unless the caller is the buyer or an admin,
   * then BadRequest unless the order is pending, paid or processing.
   */
  function CancelGuard(orders: OrderTable, id: OrderId, userId: UserId, role: UserRole): (r: Result<Order>)
    ensures id !in orders ==> r == Failure(NotFound(OrderRecord, id))
    ensures id in orders && !CanAccess(orders[id], userId, role) ==> r == Failure(Forbidden(NotOwner))
    ensures id in orders && CanAccess(orders[id], userId, role) && !Cancellable(orders[id].status) ==>
              r == Failure(BadRequest(NotCancellable(orders[id].status)))
    ensures r.Success? <==> id in orders && CanAccess(orders[id], userId, role) && Cancellable(orders[id].status)
    ensures r.Success? ==> r.value == orders[id]
  {
    if id !in orders then Failure(NotFound(OrderRecord, id))
    else if !CanAccess(orders[id], userId, role) then Failure(Forbidden(NotOwner))
    else if !Cancellable(orders[id].status) then Failure(BadRequest(NotCancellable(orders[id].status)))
    else Success(orders[id])
  }

  /** Once `cancel` has set the status to cancelled, cancelling the same order again is a BadRequest. */
  lemma SecondCancelRejected(orders: OrderTable, id: OrderId, userId: UserId, role: UserRole)
    requires CancelGuard(orders, id, userId, role).Success?
    ensures CancelGuard(orders[id := orders[id].(status := Cancelled)], id, userId, role) ==
              Failure(BadRequest(NotCancellable(Cancelled)))
  {
  }

  class OrdersService {
    var orders: OrderTable
    var items: seq<OrderItem>
    var nextOrderId: nat
    const productsService: ProductsService

    ghost predicate Valid()
      reads this, productsService
    {
      Consistent(orders, items, nextOrderId) && productsService.Valid()
    }

    constructor (productsService: ProductsService)
      requires productsService.Valid()
      ensures Valid() && this.productsService == productsService
      ensures orders == map[] && items == [] && nextOrderId == 0
    {
      this.productsService := productsService;
      orders := map[];
      items := [];
      nextOrderId := 0;
    }

    /**
     * `create`. An empty request is BadRequest. The first pass validates every line against the
     * products as they are (see `CheckLines`); the second re-reads each product, snapshots its price
     * and currency into an item and writes its stock less the quantity as the buyer (see `Adjust`).
     * On success the header, at the next id, and its items are committed and returned; on any
     * failure no header or item is kept, but the stock writes already made are.
     */
    method Create(dto: CreateOrderDto, buyerId: UserId, now: Timestamp) returns (r: Result<OrderView>)
      requires Valid()
      modifies this, productsService
      ensures Valid() && productsService.nextId == old(productsService.nextId)
      ensures var g := Placement(old(productsService.products), dto.items);
              g.Failure? ==> r == Failure(g.error) && productsService.products == old(productsService.products)
      ensures var g := Placement(old(productsService.products), dto.items);
              var run := Adjust(old(productsService.products), Decrements(dto.items), buyerId);
              g.Success? ==>
                productsService.products == run.table &&
                r == if run.failure.Some? then Failure(run.failure.value)
                     else Success(OrderView(NewHeader(dto, buyerId, old(nextOrderId), g.value.currency.value, g.value.total, now),
                                            Snapshot(old(productsService.products), dto.items, old(nextOrderId))))
      ensures r.Failure? ==> orders == old(orders) && items == old(items) && nextOrderId == old(nextOrderId)
      ensures r.Success? ==> orders == old(orders)[old(nextOrderId) := r.value.order] &&
                             items == old(items) + r.value.items && nextOrderId == old(nextOrderId) + 1
    {
      var lines := dto.items;
      if lines == [] {
        return Failure(BadRequest(EmptyOrder));
      }
      ghost var t0 := productsService.products;
      var tally := Validate(lines);
      if tally.Failure? {
        return Failure(tally.error);
      }
      assert tally == Placement(t0, lines);
      var id := nextOrderId;
      var header := NewHeader(dto, buyerId, id, tally.value.currency.value, tally.value.total, now);
      var saved, failure := ReserveStock(lines, id, buyerId);
      if failure.Some? {
        return Failure(failure.value);
      }
      SnapshotTotal(t0, lines, id);
      Commit(header, saved);
      r := FindOne(id, buyerId, Regular);
    }

    /** The end of `create`'s transaction: the header is saved at the next id with its items, both committed. */
    method Commit(header: Order, saved: seq<OrderItem>)
      requires Valid() && header.id == nextOrderId && WellFormed(header, saved)
      requires forall i :: 0 <= i < |saved| ==> saved[i].orderId == header.id
      modifies this
      ensures Valid() && ItemsOf(items, header.id) == saved
      ensures orders == old(orders)[header.id := header] && items == old(items) + saved
      ensures nextOrderId == old(nextOrderId) + 1
    {
      ConsistentAfterCreate(orders, items, nextOrderId, header, saved);
      orders := orders[header.id := header];
      items := items + saved;
      nextOrderId := nextOrderId + 1;
    }

    /** The first loop of `create`: validates the lines and totals them, writing nothing. */
    method Validate(lines: seq<CreateOrderItemDto>) returns (r: Result<Tally>)
      ensures r == CheckLines(productsService.products, lines, None, 0)
    {
      var t0 := productsService.products;
      var currency: Option<Currency> := None;
      var total := 0;
      var i := 0;
      while i < |lines|
        invariant 0 <= i <= |lines|
        invariant CheckLines(t0, lines, None, 0) == CheckLines(t0, lines[i..], currency, total)
      {
        assert lines[i..][1..] == lines[i + 1..];
        var found := productsService.FindOne(lines[i].productId);
        if found.Failure? {
          return Failure(found.error);
        }
        var product := found.value;
        // The source's inactive-product check cannot fire: `findOne` only returns active rows.
        assert product.active;
        if product.stockQuantity < lines[i].quantity {
          return Failure(BadRequest(InsufficientStock(lines[i].productId)));
        }
        if currency.None? {
          currency := Some(product.currency);
        }
        if currency.value != product.currency {
          return Failure(BadRequest(CurrencyMismatch));
        }
        total := total + product.price * lines[i].quantity;
        i := i + 1;
      }
      assert lines[|lines|..] == [];
      r := Success(Tally(currency, total));
    }

    /**
     * The second loop of `create`: for each line, re-reads the product, snapshots it into an item of
     * order `id` and writes its stock less the quantity as the buyer. Stops at the first failing write.
     */
    method ReserveStock(lines: seq<CreateOrderItemDto>, id: OrderId, buyerId: UserId)
      returns (saved: seq<OrderItem>, failure: Option<Exception>)
      requires productsService.Valid() && Available(productsService.products, lines)
      modifies productsService
      ensures productsService.Valid() && productsService.nextId == old(productsService.nextId)
      ensures StockRun(productsService.products, failure) == Adjust(old(productsService.products), Decrements(lines), buyerId)
      ensures failure.None? ==> saved == Snapshot(old(productsService.products), lines, id)
    {
      ghost var t0 := productsService.products;
      ReservingStart(t0, lines, id, buyerId);
      saved := [];
      var j := 0;
      while j < |lines|
        invariant productsService.Valid() && productsService.nextId == old(productsService.nextId)
        invariant Reserving(t0, productsService.products, lines, j, id, buyerId, saved)
      {
        ghost var cur := productsService.products;
        ReservingNext(t0, cur, lines, j, id, buyerId, saved);
        var item, stopped := ReserveLine(lines[j], id, buyerId);
        if stopped.Some? {
          ReservingStop(t0, cur, lines, j, id, buyerId, saved, stopped.value);
          return saved, stopped;
        }
        ReservingStep(t0, cur, lines, j, id, buyerId, saved, productsService.products);
        saved := saved + [item];
        j := j + 1;
      }
      ReservingDone(t0, productsService.products, lines, id, buyerId, saved);
      failure := None;
    }

    /** One iteration of `create`'s second loop, on a product that is stored and active. */
    method ReserveLine(line: CreateOrderItemDto, id: OrderId, buyerId: UserId) returns (item: OrderItem, failure: Option<Exception>)
      requires productsService.Valid()
      requires line.productId in productsService.products && productsService.products[line.productId].active
      modifies productsService
      ensures productsService.Valid() && productsService.nextId == old(productsService.nextId)
      ensures StockRun(productsService.products, failure) ==
                Step(old(productsService.products), StockMove(line.productId, -line.quantity), buyerId)
      ensures item == OrderItem(id, line.productId, line.quantity,
                                old(productsService.products)[line.productId].price,
                                old(productsService.products)[line.productId].currency)
    {
      var found := productsService.FindOne(line.productId);
      var product := found.value;
      item := OrderItem(id, product.id, line.quantity, product.price, product.currency);
      var written := productsService.UpdateStock(product.id, product.stockQuantity - line.quantity, buyerId);
      failure := if written.Failure? then Some(written.error) else None;
    }

    /** The loop of `cancel`: for each item, re-reads the product and writes its stock plus the quantity as `actor`. */
    method RestoreStock(its: seq<OrderItem>, actor: UserId) returns (failure: Option<Exception>)
      requires productsService.Valid()
      modifies productsService
      ensures productsService.Valid() && productsService.nextId == old(productsService.nextId)
      ensures StockRun(productsService.products, failure) == Adjust(old(productsService.products), Restores(its), actor)
    {
      ghost var t0 := productsService.products;
      ghost var moves := Restores(its);
      var j := 0;
      assert moves[0..] == moves;
      while j < |its|
        invariant 0 <= j <= |its|
        invariant productsService.Valid() && productsService.nextId == old(productsService.nextId)
        invariant Adjust(t0, moves, actor) == Adjust(productsService.products, moves[j..], actor)
      {
        assert moves[j..] == [moves[j]] + moves[j + 1..];
        AdjustCons(productsService.products, moves[j], moves[j + 1..], actor);
        var stopped := RestoreLine(its[j], actor);
        if stopped.Some? {
          return stopped;
        }
        j := j + 1;
      }
      assert moves[|its|..] == [];
      failure := None;
    }

    /** One iteration of `cancel`'s loop. */
    method RestoreLine(it: OrderItem, actor: UserId) returns (failure: Option<Exception>)
      requires productsService.Valid()
      modifies productsService
      ensures productsService.Valid() && productsService.nextId == old(productsService.nextId)
      ensures StockRun(productsService.products, failure) ==
                Step(old(productsService.products), StockMove(it.productId, it.quantity), actor)
    {
      var found := productsService.FindOne(it.productId);
      if found.Failure? {
        return Some(found.error);
      }
      var product := found.value;
      var written := productsService.UpdateStock(it.productId, product.stockQuantity + it.quantity, actor);
      failure := if written.Failure? then Some(written.error) else None;
    }

    /** `findOne`: see `FindOrder`. */
    function FindOne(id: OrderId, userId: UserId, role: UserRole): Result<OrderView>
      reads this
    {
      FindOrder(orders, items, id, userId, role)
    }

    /** `findAll`: see `ListOrders`. */
    function FindAll(userId: UserId, role: UserRole): seq<OrderView>
      reads this, productsService
      requires Valid()
    {
      ListOrders(orders, items, nextOrderId, userId, role)
    }

    /** `findBySeller`: see `SellerOrders`, joined against the current products table. */
    function FindBySeller(sellerId: UserId): seq<OrderView>
      reads this, productsService
      requires Valid()
    {
      SellerOrders(orders, items, productsService.products, nextOrderId, sellerId)
    }

    /**
     * `update`: NotFound, then Forbidden unless the caller is the buyer or an admin, then, for a
     * non-admin, Forbidden listing every key outside address, zip code and notes; otherwise the
     * patch is merged into the header and the updated order returned.
     */
    method Update(id: OrderId, patch: UpdateOrderDto, userId: UserId, role: UserRole) returns (r: Result<OrderView>)
      requires Valid()
      modifies this
      ensures Valid()
      ensures var g := UpdateGuard(old(orders), id, patch, userId, role);
              r == if g.Success? then Success(OrderView(Merge(g.value, patch), ItemsOf(items, id))) else Failure(g.error)
      ensures orders == if r.Success? then old(orders)[id := Merge(old(orders)[id], patch)] else old(orders)
      ensures items == old(items) && nextOrderId == old(nextOrderId)
    {
      if id !in orders {
        return Failure(NotFound(OrderRecord, id));
      }
      var order := orders[id];
      if !CanAccess(order, userId, role) {
        return Failure(Forbidden(NotOwner));
      }
      if role != Admin {
        var disallowed := Disallowed(patch);
        if |disallowed| > 0 {
          return Failure(Forbidden(DisallowedFields(FieldNames(disallowed))));
        }
      }
      var updated := Merge(order, patch);
      ConsistentAfterReplace(orders, items, nextOrderId, updated);
      orders := orders[id := updated];
      r := FindOne(id, userId, role);
    }

    /**
     * `cancel`: NotFound, then Forbidden unless the caller is the buyer or an admin, then BadRequest
     * unless the order is pending, paid or processing. Each item's product is re-read and its stock
     * written back plus the item's quantity, as the caller (see `Adjust`); then the status becomes
     * cancelled. On a failing stock write the status is kept, but the writes already made are not
     * undone.
     */
    method Cancel(id: OrderId, userId: UserId, role: UserRole) returns (r: Result<OrderView>)
      requires Valid()
      modifies this, productsService
      ensures Valid() && productsService.nextId == old(productsService.nextId)
      ensures var g := CancelGuard(old(orders), id, userId, role);
              g.Failure? ==> r == Failure(g.error) && productsService.products == old(productsService.products)
      ensures var g := CancelGuard(old(orders), id, userId, role);
              var run := Adjust(old(productsService.products), Restores(ItemsOf(items, id)), userId);
              g.Success? ==>
                productsService.products == run.table &&
                r == if run.failure.Some? then Failure(run.failure.value)
                     else Success(OrderView(g.value.(status := Cancelled), ItemsOf(items, id)))
      ensures orders == if r.Success? then old(orders)[id := old(orders)[id].(status := Cancelled)] else old(orders)
      ensures items == old(items) && nextOrderId == old(nextOrderId)
    {
      if id !in orders {
        return Failure(NotFound(OrderRecord, id));
      }
      var order := orders[id];
      if !CanAccess(order, userId, role) {
        return Failure(Forbidden(NotOwner));
      }
      if !Cancellable(order.status) {
        return Failure(BadRequest(NotCancellable(order.status)));
      }
      var failure := RestoreStock(ItemsOf(items, id), userId);
      assert orders == old(orders) && items == old(items) && nextOrderId == old(nextOrderId);
      if failure.Some? {
        return Failure(failure.value);
      }
      var cancelled := order.(status := Cancelled);
      ConsistentAfterReplace(orders, items, nextOrderId, cancelled);
      orders := orders[id := cancelled];
      r := FindOne(id, userId, role);
    }
  }
}
