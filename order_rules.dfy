/**
 * The rules `OrdersService` applies (src/orders/orders.service.ts), as functions over the tables:
 * the validation pass of `create`, the item snapshots, the stock runs of `create` and `cancel`,
 * the access policy and the update patch.
 */
module OrderRules {
  import opened Wrappers
  import opened Identity
  import opened ProductEntity
  import opened OrderEntity
  import opened Exceptions
  import opened Products
  import Seqs

  /** One requested line of a create request. `quantity` is only checked to be a number. */
  datatype CreateOrderItemDto = CreateOrderItemDto(productId: ProductId, quantity: int)

  datatype CreateOrderDto = CreateOrderDto(
    items: seq<CreateOrderItemDto>,
    shippingAddress: Option<string>,
    zipCode: Option<string>,
    notes: Option<string>)

  /** The body of an update request: a present key is `Some`. */
  datatype UpdateOrderDto = UpdateOrderDto(
    status: Option<OrderStatus>,
    shippingAddress: Option<string>,
    zipCode: Option<string>,
    paymentId: Option<string>,
    notes: Option<string>)

  // ---------------------------------------------------------------- access policy

  /** Only the buyer or an admin may see, update or cancel an order. */
  function CanAccess(o: Order, userId: UserId, role: UserRole): (r: bool)
    ensures role == Admin ==> r
    ensures role == Regular ==> (r <==> o.buyerId == userId)
  {
    o.buyerId == userId || role == Admin
  }

  /** `cancel` accepts only these statuses: a shipped, delivered, cancelled or refunded order is refused. */
  function Cancellable(s: OrderStatus): (r: bool)
    ensures r <==> s !in {Shipped, Delivered, Cancelled, Refunded}
  {
    s == Pending || s == Paid || s == Processing
  }

  // ---------------------------------------------------------------- validation pass of create

  /** What the validation loop accumulates: the currency ('' until the first product) and the total. */
  datatype Tally = Tally(currency: Option<Currency>, total: int)

  /** Every line names a stored, active product. */
  ghost predicate Available(t: ProductTable, lines: seq<CreateOrderItemDto>) {
    forall i :: 0 <= i < |lines| ==> lines[i].productId in t && t[lines[i].productId].active
  }

  /** Every line names a stored, active product whose stock, read on its own, covers the line. */
  ghost predicate Orderable(t: ProductTable, lines: seq<CreateOrderItemDto>) {
    Available(t, lines) &&
    forall i :: 0 <= i < |lines| ==> t[lines[i].productId].stockQuantity >= lines[i].quantity
  }

  /** Every stored product named by a line is priced in `c`. */
  ghost predicate OneCurrency(t: ProductTable, lines: seq<CreateOrderItemDto>, c: Currency) {
    forall i :: 0 <= i < |lines| ==> lines[i].productId in t ==> t[lines[i].productId].currency == c
  }

  /** Σ price × quantity over the lines, at the prices in `t`. */
  function LinesTotal(t: ProductTable, lines: seq<CreateOrderItemDto>): int
    requires forall i :: 0 <= i < |lines| ==> lines[i].productId in t
  {
    if lines == [] then 0
    else t[lines[0].productId].price * lines[0].quantity + LinesTotal(t, lines[1..])
  }

  /**
   * The first loop of `create`, line by line: look the product up (NotFound when missing or
   * inactive), reject a line whose quantity exceeds that product's stock, fix the currency from the
   * first product and reject any other, and add price × quantity to the total.
   */
  function CheckLines(t: ProductTable, lines: seq<CreateOrderItemDto>, currency: Option<Currency>, total: int)
    : (r: Result<Tally>)
    ensures r.Success? ==> forall i :: 0 <= i < |lines| ==> lines[i].productId in t
    ensures r.Success? && (currency.Some? || lines != []) ==> r.value.currency.Some?
    ensures r.Failure? ==> r.error.BadRequest? || r.error.NotFound?
    decreases |lines|
  {
    if lines == [] then Success(Tally(currency, total))
    else
      match FindActive(t, lines[0].productId)
      case Failure(e) => Failure(e)
      case Success(p) =>
        if p.stockQuantity < lines[0].quantity then Failure(BadRequest(InsufficientStock(lines[0].productId)))
        else
          var c := if currency.None? then p.currency else currency.value;
          if c != p.currency then Failure(BadRequest(CurrencyMismatch))
          else
            var r := CheckLines(t, lines[1..], Some(c), total + p.price * lines[0].quantity);
            assert r.Success? ==> forall i :: 1 <= i < |lines| ==> lines[1..][i - 1] == lines[i];
            r
  }

  /**
   * Once the currency is fixed, the validation pass succeeds exactly when every line is orderable and
   * every product is priced in that currency; it then adds the lines' total. A request whose products
   * are all available can only fail with BadRequest.
   */
  lemma {:induction false} CheckLinesSpec(t: ProductTable, lines: seq<CreateOrderItemDto>, c: Currency, total: int)
    ensures CheckLines(t, lines, Some(c), total).Success? <==> Orderable(t, lines) && OneCurrency(t, lines, c)
    ensures CheckLines(t, lines, Some(c), total).Success? ==>
              CheckLines(t, lines, Some(c), total).value == Tally(Some(c), total + LinesTotal(t, lines))
    ensures Available(t, lines) && CheckLines(t, lines, Some(c), total).Failure? ==>
              CheckLines(t, lines, Some(c), total).error.BadRequest?
    decreases |lines|
  {
    if lines != [] {
      var rest := lines[1..];
      assert forall i :: 1 <= i < |lines| ==> rest[i - 1] == lines[i];
      match FindActive(t, lines[0].productId)
      case Failure(e) =>
      case Success(p) =>
        if p.stockQuantity >= lines[0].quantity && c == p.currency {
          CheckLinesSpec(t, rest, c, total + p.price * lines[0].quantity);
          assert Orderable(t, rest) && OneCurrency(t, rest, c) ==> Orderable(t, lines) && OneCurrency(t, lines, c) by {
            if Orderable(t, rest) && OneCurrency(t, rest, c) {
              forall i | 1 <= i < |lines| ensures lines[i].productId in t && t[lines[i].productId].active {
                assert rest[i - 1] == lines[i];
              }
            }
          }
          assert Available(t, lines) ==> Available(t, rest);
        }
    }
  }

  /**
   * The whole validation pass of `create`, with the currency still unset: on a non-empty request it
   * succeeds exactly when every line is orderable and all products share the first product's currency,
   * and its tally is that currency and Σ price × quantity.
   */
  lemma ValidationSpec(t: ProductTable, lines: seq<CreateOrderItemDto>)
    requires lines != []
    ensures CheckLines(t, lines, None, 0).Success? <==>
              Orderable(t, lines) && OneCurrency(t, lines, t[lines[0].productId].currency)
    ensures CheckLines(t, lines, None, 0).Success? ==>
              CheckLines(t, lines, None, 0).value == Tally(Some(t[lines[0].productId].currency), LinesTotal(t, lines))
    ensures Available(t, lines) && CheckLines(t, lines, None, 0).Failure? ==> CheckLines(t, lines, None, 0).error.BadRequest?
  {
    var rest := lines[1..];
    assert forall i :: 1 <= i < |lines| ==> rest[i - 1] == lines[i];
    if lines[0].productId in t && t[lines[0].productId].active {
      var p := t[lines[0].productId];
      CheckLinesSpec(t, rest, p.currency, p.price * lines[0].quantity);
      assert Orderable(t, rest) && OneCurrency(t, rest, p.currency) && p.stockQuantity >= lines[0].quantity ==>
               Orderable(t, lines) && OneCurrency(t, lines, p.currency) by {
        if Orderable(t, rest) && OneCurrency(t, rest, p.currency) && p.stockQuantity >= lines[0].quantity {
          forall i | 1 <= i < |lines| ensures lines[i].productId in t && t[lines[i].productId].active {
            assert rest[i - 1] == lines[i];
          }
        }
      }
      assert Available(t, lines) ==> Available(t, rest);
    }
  }

  // ---------------------------------------------------------------- item snapshots

  /** The items `create` saves for order `orderId`: each line's quantity and its product's price and currency. */
  function Snapshot(t: ProductTable, lines: seq<CreateOrderItemDto>, orderId: OrderId): (r: seq<OrderItem>)
    requires forall i :: 0 <= i < |lines| ==> lines[i].productId in t
    ensures |r| == |lines|
    ensures forall i :: 0 <= i < |lines| ==>
              r[i] == OrderItem(orderId, lines[i].productId, lines[i].quantity,
                                t[lines[i].productId].price, t[lines[i].productId].currency)
  {
    seq(|lines|, i requires 0 <= i < |lines| =>
      OrderItem(orderId, lines[i].productId, lines[i].quantity, t[lines[i].productId].price, t[lines[i].productId].currency))
  }

  /** Σ price × quantity over saved items. */
  function ItemsTotal(items: seq<OrderItem>): int {
    if items == [] then 0 else items[0].price * items[0].quantity + ItemsTotal(items[1..])
  }

  /** The snapshots add up to the total the validation pass computed. */
  lemma {:induction false} SnapshotTotal(t: ProductTable, lines: seq<CreateOrderItemDto>, orderId: OrderId)
    requires forall i :: 0 <= i < |lines| ==> lines[i].productId in t
    ensures ItemsTotal(Snapshot(t, lines, orderId)) == LinesTotal(t, lines)
  {
    if lines != [] {
      var rest := lines[1..];
      assert forall i :: 0 <= i < |rest| ==> rest[i] == lines[i + 1];
      SnapshotTotal(t, rest, orderId);
      assert Snapshot(t, lines, orderId)[1..] == Snapshot(t, rest, orderId);
    }
  }

  // ---------------------------------------------------------------- stock runs

  /** One stock write of a run: the product and the amount added to the stock read just before. */
  datatype StockMove = StockMove(productId: ProductId, delta: int)

  /** Where a run stopped: the product table after the writes that happened, and the error, if any. */
  datatype StockRun = StockRun(table: ProductTable, failure: Option<Exception>)

  /** `create`'s second loop writes `stock − quantity` for each line. */
  function Decrements(lines: seq<CreateOrderItemDto>): (r: seq<StockMove>)
    ensures |r| == |lines| && forall i :: 0 <= i < |lines| ==> r[i] == StockMove(lines[i].productId, -lines[i].quantity)
  {
    seq(|lines|, i requires 0 <= i < |lines| => StockMove(lines[i].productId, -lines[i].quantity))
  }

  /** `cancel`'s loop writes `stock + quantity` for each item of the order. */
  function Restores(items: seq<OrderItem>): (r: seq<StockMove>)
    ensures |r| == |items| && forall i :: 0 <= i < |items| ==> r[i] == StockMove(items[i].productId, items[i].quantity)
  {
    seq(|items|, i requires 0 <= i < |items| => StockMove(items[i].productId, items[i].quantity))
  }

  /** Two tables hold the same rows except, perhaps, for their stock. */
  ghost predicate SameCatalog(t: ProductTable, u: ProductTable) {
    t.Keys == u.Keys && forall k :: k in t ==> u[k] == t[k].(stockQuantity := u[k].stockQuantity)
  }

  /**
   * One iteration of a stock loop of `create` or `cancel`: re-read the product through `findOne`
   * (NotFound when missing or inactive) and call `updateStock` with the stock just read plus the
   * delta, the caller as actor (Forbidden unless the caller is the product's seller).
   */
  function Step(t: ProductTable, m: StockMove, actor: UserId): (r: StockRun)
    ensures r.failure.None? <==> m.productId in t && t[m.productId].active && t[m.productId].sellerId == actor
    ensures r.failure.None? ==>
              r.table == t[m.productId := t[m.productId].(stockQuantity := t[m.productId].stockQuantity + m.delta)]
    ensures r.failure.Some? ==> r.table == t
    ensures !(m.productId in t && t[m.productId].active) ==> r.failure == Some(NotFound(ProductRecord, m.productId))
    ensures m.productId in t && t[m.productId].active && t[m.productId].sellerId != actor ==>
              r.failure == Some(Forbidden(NotOwner))
  {
    match FindActive(t, m.productId)
    case Failure(e) => StockRun(t, Some(e))
    case Success(p) =>
      match SetStock(t, m.productId, p.stockQuantity + m.delta, actor)
      case Failure(e) => StockRun(t, Some(e))
      case Success(q) => StockRun(t[m.productId := q], None)
  }

  /**
   * A whole stock loop: the moves are applied one `Step` at a time and the first failure stops it.
   * The writes go straight to the product table, so those made before a failure stay.
   */
  function Adjust(t: ProductTable, moves: seq<StockMove>, actor: UserId): (r: StockRun)
    ensures r.table.Keys == t.Keys
    decreases |moves|
  {
    if moves == [] then StockRun(t, None)
    else
      var s := Step(t, moves[0], actor);
      if s.failure.Some? then s else Adjust(s.table, moves[1..], actor)
  }

  /** A run is its first step followed, when that goes through, by the rest of the run. */
  lemma AdjustCons(t: ProductTable, m: StockMove, rest: seq<StockMove>, actor: UserId)
    ensures Adjust(t, [m] + rest, actor) ==
              if Step(t, m, actor).failure.Some? then Step(t, m, actor) else Adjust(Step(t, m, actor).table, rest, actor)
  {
    assert ([m] + rest)[1..] == rest;
  }

  /** A step changes at most one product's stock and nothing else. */
  lemma StepKeepsCatalog(t0: ProductTable, t: ProductTable, m: StockMove, actor: UserId)
    requires SameCatalog(t0, t)
    ensures SameCatalog(t0, Step(t, m, actor).table)
  {
  }

  /** A run, complete or not, changes stock and nothing else. */
  lemma {:induction false} AdjustKeepsCatalog(t: ProductTable, moves: seq<StockMove>, actor: UserId)
    ensures SameCatalog(t, Adjust(t, moves, actor).table)
    decreases |moves|
  {
    if moves != [] {
      var s := Step(t, moves[0], actor);
      if s.failure.None? {
        AdjustKeepsCatalog(s.table, moves[1..], actor);
        StepKeepsCatalog(t, t, moves[0], actor);
      }
    }
  }

  /**
   * The state of `create`'s second loop after `j` lines, started on table `t0` and now at `cur`:
   * only stock has changed, the rest of the run is what remains of the whole run, and `saved` holds
   * the snapshots of the first `j` lines.
   */
  ghost predicate Reserving(t0: ProductTable, cur: ProductTable, lines: seq<CreateOrderItemDto>, j: nat,
                            orderId: OrderId, buyer: UserId, saved: seq<OrderItem>)
  {
    j <= |lines| && Available(t0, lines) && SameCatalog(t0, cur) &&
    Adjust(t0, Decrements(lines), buyer) == Adjust(cur, Decrements(lines)[j..], buyer) &&
    saved == Snapshot(t0, lines[..j], orderId)
  }

  /** Before the loop. */
  lemma ReservingStart(t0: ProductTable, lines: seq<CreateOrderItemDto>, orderId: OrderId, buyer: UserId)
    requires Available(t0, lines)
    ensures Reserving(t0, t0, lines, 0, orderId, buyer, [])
  {
    assert Decrements(lines)[0..] == Decrements(lines);
  }

  /** Inside the loop, the next line's product is still stored and active. */
  lemma ReservingNext(t0: ProductTable, cur: ProductTable, lines: seq<CreateOrderItemDto>, j: nat,
                      orderId: OrderId, buyer: UserId, saved: seq<OrderItem>)
    requires Reserving(t0, cur, lines, j, orderId, buyer, saved) && j < |lines|
    ensures lines[j].productId in cur && cur[lines[j].productId].active
  {
  }

  /** A step that goes through, with its snapshot appended, keeps the loop state. */
  lemma ReservingStep(t0: ProductTable, cur: ProductTable, lines: seq<CreateOrderItemDto>, j: nat,
                      orderId: OrderId, buyer: UserId, saved: seq<OrderItem>, next: ProductTable)
    requires Reserving(t0, cur, lines, j, orderId, buyer, saved) && j < |lines|
    requires Step(cur, StockMove(lines[j].productId, -lines[j].quantity), buyer) == StockRun(next, None)
    ensures Reserving(t0, next, lines, j + 1, orderId, buyer,
                      saved + [OrderItem(orderId, lines[j].productId, lines[j].quantity,
                                         cur[lines[j].productId].price, cur[lines[j].productId].currency)])
  {
    var moves := Decrements(lines);
    assert moves[j..] == [moves[j]] + moves[j + 1..];
    AdjustCons(cur, moves[j], moves[j + 1..], buyer);
    StepKeepsCatalog(t0, cur, moves[j], buyer);
    SnapshotExtend(t0, cur, lines, j, orderId);
  }

  /** The snapshot of one more line, taken from a table that differs from `t0` in stock only. */
  lemma SnapshotExtend(t0: ProductTable, cur: ProductTable, lines: seq<CreateOrderItemDto>, j: nat, orderId: OrderId)
    requires Available(t0, lines) && SameCatalog(t0, cur) && j < |lines|
    ensures Snapshot(t0, lines[..j + 1], orderId) ==
              Snapshot(t0, lines[..j], orderId) +
              [OrderItem(orderId, lines[j].productId, lines[j].quantity, cur[lines[j].productId].price, cur[lines[j].productId].currency)]
  {
    assert lines[..j + 1] == lines[..j] + [lines[j]];
  }

  /** A step that fails ends the whole run where it stands. */
  lemma ReservingStop(t0: ProductTable, cur: ProductTable, lines: seq<CreateOrderItemDto>, j: nat,
                      orderId: OrderId, buyer: UserId, saved: seq<OrderItem>, e: Exception)
    requires Reserving(t0, cur, lines, j, orderId, buyer, saved) && j < |lines|
    requires Step(cur, StockMove(lines[j].productId, -lines[j].quantity), buyer).failure == Some(e)
    ensures Adjust(t0, Decrements(lines), buyer) == StockRun(cur, Some(e))
  {
    var moves := Decrements(lines);
    assert moves[j..] == [moves[j]] + moves[j + 1..];
    AdjustCons(cur, moves[j], moves[j + 1..], buyer);
  }

  /** After the last line the run is complete and every line has its snapshot. */
  lemma ReservingDone(t0: ProductTable, cur: ProductTable, lines: seq<CreateOrderItemDto>,
                      orderId: OrderId, buyer: UserId, saved: seq<OrderItem>)
    requires Reserving(t0, cur, lines, |lines|, orderId, buyer, saved)
    ensures Adjust(t0, Decrements(lines), buyer) == StockRun(cur, None)
    ensures saved == Snapshot(t0, lines, orderId)
  {
    assert Decrements(lines)[|lines|..] == [];
    assert lines[..|lines|] == lines;
  }

  /** Every move names a stored, active product. */
  ghost predicate Listed(t: ProductTable, moves: seq<StockMove>) {
    forall i :: 0 <= i < |moves| ==> moves[i].productId in t && t[moves[i].productId].active
  }

  /** Every move names a stored, active product whose seller is `actor`. */
  ghost predicate Writable(t: ProductTable, moves: seq<StockMove>, actor: UserId) {
    Listed(t, moves) && forall i :: 0 <= i < |moves| ==> t[moves[i].productId].sellerId == actor
  }

  /** The sum of the deltas a run applies to product `id`. */
  function NetDelta(moves: seq<StockMove>, id: ProductId): int {
    if moves == [] then 0
    else (if moves[0].productId == id then moves[0].delta else 0) + NetDelta(moves[1..], id)
  }

  /** Changing stock alone changes neither which moves are listed nor which are writable. */
  lemma CatalogKeepsAccess(t: ProductTable, u: ProductTable, moves: seq<StockMove>, actor: UserId)
    requires SameCatalog(t, u)
    ensures Listed(t, moves) <==> Listed(u, moves)
    ensures Writable(t, moves, actor) <==> Writable(u, moves, actor)
  {
    assert forall k :: k in t ==> u[k].active == t[k].active && u[k].sellerId == t[k].sellerId;
  }

  /** The moves after the first are listed/writable when all of them are. */
  lemma TailAccess(t: ProductTable, moves: seq<StockMove>, actor: UserId)
    requires moves != []
    ensures Listed(t, moves) <==>
              Listed(t, moves[1..]) && moves[0].productId in t && t[moves[0].productId].active
    ensures Writable(t, moves, actor) <==>
              Writable(t, moves[1..], actor) && moves[0].productId in t && t[moves[0].productId].active &&
              t[moves[0].productId].sellerId == actor
  {
    var rest := moves[1..];
    assert forall i :: 1 <= i < |moves| ==> rest[i - 1] == moves[i];
  }

  /**
   * A run completes exactly when the actor owns every product it touches (all stored and active);
   * each product's stock then moves by the sum of its deltas, so repeated products accumulate.
   * When every product is stored and active, the only way a run stops is Forbidden.
   */
  lemma {:induction false} AdjustSpec(t: ProductTable, moves: seq<StockMove>, actor: UserId)
    ensures Adjust(t, moves, actor).failure.None? <==> Writable(t, moves, actor)
    ensures Adjust(t, moves, actor).failure.None? ==> forall k :: k in t ==>
              Adjust(t, moves, actor).table[k].stockQuantity == t[k].stockQuantity + NetDelta(moves, k)
    ensures Listed(t, moves) && Adjust(t, moves, actor).failure.Some? ==>
              Adjust(t, moves, actor).failure == Some(Forbidden(NotOwner))
    decreases |moves|
  {
    if moves != [] {
      var m := moves[0];
      TailAccess(t, moves, actor);
      if m.productId in t && t[m.productId].active && t[m.productId].sellerId == actor {
        var u := t[m.productId := t[m.productId].(stockQuantity := t[m.productId].stockQuantity + m.delta)];
        assert Adjust(t, moves, actor) == Adjust(u, moves[1..], actor);
        AdjustSpec(u, moves[1..], actor);
        CatalogKeepsAccess(t, u, moves[1..], actor);
      }
    }
  }

  /** A run and its negation move every stock by opposite amounts. */
  lemma {:induction false} NetDeltaOfSnapshot(t: ProductTable, lines: seq<CreateOrderItemDto>, orderId: OrderId, id: ProductId)
    requires forall i :: 0 <= i < |lines| ==> lines[i].productId in t
    ensures NetDelta(Restores(Snapshot(t, lines, orderId)), id) == -NetDelta(Decrements(lines), id)
  {
    if lines != [] {
      var rest := lines[1..];
      assert forall i :: 0 <= i < |rest| ==> rest[i] == lines[i + 1];
      NetDeltaOfSnapshot(t, rest, orderId, id);
      assert Restores(Snapshot(t, lines, orderId))[1..] == Restores(Snapshot(t, rest, orderId));
      assert Decrements(lines)[1..] == Decrements(rest);
    }
  }

  /**
   * Stock conservation: when `create`'s decrements all go through, `cancel`'s restores over the items
   * it saved go through as well, for the same actor, and give back exactly the table before `create`.
   */
  lemma CancelRestoresStock(t: ProductTable, lines: seq<CreateOrderItemDto>, orderId: OrderId, buyer: UserId)
    requires forall i :: 0 <= i < |lines| ==> lines[i].productId in t
    requires Adjust(t, Decrements(lines), buyer).failure.None?
    ensures Adjust(Adjust(t, Decrements(lines), buyer).table, Restores(Snapshot(t, lines, orderId)), buyer) == StockRun(t, None)
  {
    var down := Decrements(lines);
    var up := Restores(Snapshot(t, lines, orderId));
    var u := Adjust(t, down, buyer).table;
    AdjustSpec(t, down, buyer);
    AdjustKeepsCatalog(t, down, buyer);
    assert Writable(u, up, buyer) by {
      forall i | 0 <= i < |up|
        ensures up[i].productId in u && u[up[i].productId].active && u[up[i].productId].sellerId == buyer
      {
        assert up[i].productId == down[i].productId;
      }
    }
    AdjustSpec(u, up, buyer);
    AdjustKeepsCatalog(u, up, buyer);
    var back := Adjust(u, up, buyer).table;
    forall k | k in t ensures back[k] == t[k] {
      NetDeltaOfSnapshot(t, lines, orderId, k);
    }
    assert back == t;
  }

  /** A one-unit product of seller `seller`, priced 10 BRL. */
  function Sample(id: ProductId, seller: UserId): Product {
    Product(id, "sample", "", 10, BRL, 1, New, true, seller)
  }

  /**
   * Validation reads every line against the stock before any write, so two lines for the same
   * one-unit product both pass, and the stock loop then leaves that product at −1.
   */
  lemma DuplicateLinesOversell()
    ensures var t := map[0 := Sample(0, 7)];
            var lines := [CreateOrderItemDto(0, 1), CreateOrderItemDto(0, 1)];
            CheckLines(t, lines, None, 0).Success? &&
            Adjust(t, Decrements(lines), 7) == StockRun(map[0 := Sample(0, 7).(stockQuantity := -1)], None)
  {
    var t := map[0 := Sample(0, 7)];
    var t1 := t[0 := Sample(0, 7).(stockQuantity := 0)];
    assert Adjust(t, Decrements([CreateOrderItemDto(0, 1), CreateOrderItemDto(0, 1)]), 7)
        == Adjust(t1, [StockMove(0, -1)], 7);
    assert t1[0 := Sample(0, 7).(stockQuantity := -1)] == map[0 := Sample(0, 7).(stockQuantity := -1)];
  }

  /**
   * The stock loop stops at the first product the buyer does not sell, with Forbidden, and the
   * decrement already written for an earlier line stays in the table.
   */
  lemma PartialStockWriteSurvives()
    ensures var t := map[0 := Sample(0, 7), 1 := Sample(1, 8)];
            var lines := [CreateOrderItemDto(0, 1), CreateOrderItemDto(1, 1)];
            CheckLines(t, lines, None, 0).Success? &&
            Adjust(t, Decrements(lines), 7) ==
              StockRun(t[0 := Sample(0, 7).(stockQuantity := 0)], Some(Forbidden(NotOwner)))
  {
    var t := map[0 := Sample(0, 7), 1 := Sample(1, 8)];
    assert Adjust(t, Decrements([CreateOrderItemDto(0, 1), CreateOrderItemDto(1, 1)]), 7)
        == Adjust(t[0 := Sample(0, 7).(stockQuantity := 0)], [StockMove(1, -1)], 7);
  }

  // ---------------------------------------------------------------- update patch

  /** The keys of an update body. */
  datatype PatchField = StatusField | ShippingAddressField | ZipCodeField | PaymentIdField | NotesField

  /** The key as it appears in the request body and in the Forbidden message. */
  function FieldName(f: PatchField): string {
    match f
    case StatusField => "status"
    case ShippingAddressField => "shippingAddress"
    case ZipCodeField => "zipCode"
    case PaymentIdField => "paymentId"
    case NotesField => "notes"
  }

  /** The keys a non-admin may send. */
  predicate AllowedField(f: PatchField) {
    f == ShippingAddressField || f == ZipCodeField || f == NotesField
  }

  /** Whether the body carries key `f`. */
  predicate Present(patch: UpdateOrderDto, f: PatchField) {
    match f
    case StatusField => patch.status.Some?
    case ShippingAddressField => patch.shippingAddress.Some?
    case ZipCodeField => patch.zipCode.Some?
    case PaymentIdField => patch.paymentId.Some?
    case NotesField => patch.notes.Some?
  }

  /**
   * `Object.keys(updateOrderDto)`: the keys present. The source lists them in the order the request
   * body sends them; the model has no body order and lists them in a fixed order.
   */
  function PatchKeys(patch: UpdateOrderDto): (r: seq<PatchField>)
    ensures forall f :: f in r <==> Present(patch, f)
  {
    (if patch.status.Some? then [StatusField] else []) +
    (if patch.shippingAddress.Some? then [ShippingAddressField] else []) +
    (if patch.zipCode.Some? then [ZipCodeField] else []) +
    (if patch.paymentId.Some? then [PaymentIdField] else []) +
    (if patch.notes.Some? then [NotesField] else [])
  }

  /** The present keys a non-admin may not send: exactly `status` and `paymentId`, when present. */
  function Disallowed(patch: UpdateOrderDto): (r: seq<PatchField>)
    ensures StatusField in r <==> patch.status.Some?
    ensures PaymentIdField in r <==> patch.paymentId.Some?
    ensures forall f :: f in r ==> !AllowedField(f)
    ensures r == [] <==> patch.status.None? && patch.paymentId.None?
  {
    var r := Seqs.Filter(PatchKeys(patch), (f: PatchField) => !AllowedField(f));
    assert r != [] ==> r[0] in r;
    r
  }

  /** The names listed in the Forbidden error, in the same order. */
  function FieldNames(fs: seq<PatchField>): (r: seq<string>)
    ensures |r| == |fs| && forall i :: 0 <= i < |fs| ==> r[i] == FieldName(fs[i])
  {
    seq(|fs|, i requires 0 <= i < |fs| => FieldName(fs[i]))
  }

  /**
   * `Object.assign(order, updateOrderDto)`: every present key overwrites its field. The id, the buyer,
   * the total, the currency and the creation time are never touched.
   */
  function Merge(o: Order, patch: UpdateOrderDto): (r: Order)
    ensures r.id == o.id && r.buyerId == o.buyerId && r.totalAmount == o.totalAmount
    ensures r.currency == o.currency && r.createdAt == o.createdAt
    ensures r.status == patch.status.GetOr(o.status)
    ensures r.shippingAddress == (if patch.shippingAddress.Some? then patch.shippingAddress else o.shippingAddress)
    ensures r.zipCode == (if patch.zipCode.Some? then patch.zipCode else o.zipCode)
    ensures r.paymentId == (if patch.paymentId.Some? then patch.paymentId else o.paymentId)
    ensures r.notes == (if patch.notes.Some? then patch.notes else o.notes)
  {
    o.(status := patch.status.GetOr(o.status),
       shippingAddress := if patch.shippingAddress.Some? then patch.shippingAddress else o.shippingAddress,
       zipCode := if patch.zipCode.Some? then patch.zipCode else o.zipCode,
       paymentId := if patch.paymentId.Some? then patch.paymentId else o.paymentId,
       notes := if patch.notes.Some? then patch.notes else o.notes)
  }

  /** A patch a non-admin is allowed to send leaves the status and the payment id as they were. */
  lemma AllowedPatchKeepsStatus(o: Order, patch: UpdateOrderDto)
    requires Disallowed(patch) == []
    ensures Merge(o, patch).status == o.status && Merge(o, patch).paymentId == o.paymentId
  {
  }
}
