/**
 * `ProductsService` of src/products/products.service.ts: the products table, its queries, and the
 * mutators, each of which loads the row, checks that it exists and that the caller owns it, changes
 * it in place and saves it.
 */
module Products {
  import opened Wrappers
  import opened Identity
  import opened ProductEntity
  import opened Exceptions
  import Seqs

  type ProductTable = map<ProductId, Product>

  /** Every row is stored under its own id, and ids come from a counter now at `n`. */
  ghost predicate Keyed(t: ProductTable, n: nat) {
    forall k :: k in t ==> t[k].id == k && k < n
  }

  /** The body of a create request. `active` may be omitted; the DTO then defaults it to true. */
  datatype CreateProductDto = CreateProductDto(
    title: Title,
    description: string,
    price: nat,
    currency: Currency,
    stockQuantity: nat,
    condition: Condition,
    active: Option<bool>)

  /** The body of an update request: a present key is `Some`. */
  datatype UpdateProductDto = UpdateProductDto(
    title: Option<Title>,
    description: Option<string>,
    price: Option<nat>,
    currency: Option<Currency>,
    stockQuantity: Option<nat>,
    condition: Option<Condition>,
    active: Option<bool>)

  /** `findOne`: the row if it exists and is active; a missing and an inactive product are both NotFound. */
  function FindActive(t: ProductTable, id: ProductId): (r: Result<Product>)
    ensures r.Success? <==> id in t && t[id].active
    ensures r.Success? ==> r.value == t[id] && r.value.active
    ensures r.Failure? ==> r.error == NotFound(ProductRecord, id)
  {
    if id in t && t[id].active then Success(t[id]) else Failure(NotFound(ProductRecord, id))
  }

  /**
   * The guard shared by `update`, `remove`, `reactivate` and `updateStock`: the row must exist,
   * active or not (NotFound), and belong to `userId` (Forbidden).
   */
  function Owned(t: ProductTable, id: ProductId, userId: UserId): (r: Result<Product>)
    ensures r.Success? <==> id in t && t[id].sellerId == userId
    ensures r.Success? ==> r.value == t[id]
    ensures id !in t ==> r == Failure(NotFound(ProductRecord, id))
    ensures id in t && t[id].sellerId != userId ==> r == Failure(Forbidden(NotOwner))
  {
    if id !in t then Failure(NotFound(ProductRecord, id))
    else if t[id].sellerId != userId then Failure(Forbidden(NotOwner))
    else Success(t[id])
  }

  /** `updateStock`: the owner's row with `stockQuantity` set to exactly `quantity`. */
  function SetStock(t: ProductTable, id: ProductId, quantity: int, userId: UserId): (r: Result<Product>)
    ensures r.Success? <==> id in t && t[id].sellerId == userId
    ensures r.Success? ==> r.value == t[id].(stockQuantity := quantity)
    ensures r.Failure? ==> r.error == Owned(t, id, userId).error
  {
    match Owned(t, id, userId)
    case Failure(e) => Failure(e)
    case Success(p) => Success(p.(stockQuantity := quantity))
  }

  /** `Object.assign(product, dto)`: every present key overwrites its field; the rest, `id` and `sellerId` among them, stay. */
  function ApplyPatch(p: Product, patch: UpdateProductDto): (q: Product)
    ensures q.id == p.id && q.sellerId == p.sellerId
    ensures q.title == patch.title.GetOr(p.title)
    ensures q.description == patch.description.GetOr(p.description)
    ensures q.price == if patch.price.Some? then patch.price.value else p.price
    ensures q.currency == patch.currency.GetOr(p.currency)
    ensures q.stockQuantity == if patch.stockQuantity.Some? then patch.stockQuantity.value else p.stockQuantity
    ensures q.condition == patch.condition.GetOr(p.condition)
    ensures q.active == patch.active.GetOr(p.active)
  {
    p.(title := patch.title.GetOr(p.title),
       description := patch.description.GetOr(p.description),
       price := if patch.price.Some? then patch.price.value else p.price,
       currency := patch.currency.GetOr(p.currency),
       stockQuantity := if patch.stockQuantity.Some? then patch.stockQuantity.value else p.stockQuantity,
       condition := patch.condition.GetOr(p.condition),
       active := patch.active.GetOr(p.active))
  }

  /** The rows stored under the given keys, in the same order. */
  function Rows(t: ProductTable, ks: seq<ProductId>): (r: seq<Product>)
    requires forall i :: 0 <= i < |ks| ==> ks[i] in t
    ensures |r| == |ks| && forall i :: 0 <= i < |ks| ==> r[i] == t[ks[i]]
  {
    seq(|ks|, i requires 0 <= i < |ks| => t[ks[i]])
  }

  /** The rows whose key satisfies `keep`, by increasing id. */
  function Select(t: ProductTable, n: nat, keep: ProductId -> bool): (r: seq<Product>)
    requires Keyed(t, n)
    ensures forall i :: 0 <= i < |r| ==> r[i].id in t && t[r[i].id] == r[i] && keep(r[i].id)
    ensures forall k :: k in t && keep(k) ==> exists i :: 0 <= i < |r| && r[i].id == k
    ensures forall i, j :: 0 <= i < j < |r| ==> r[i].id < r[j].id
  {
    var all := Seqs.KeysBelow(t, n);
    var ks := Seqs.Filter(all, keep);
    Seqs.IncreasingIsDistinct(all);
    Seqs.FilterKeepsIncreasing(all, keep);
    RowsCover(t, ks);
    Rows(t, ks)
  }

  lemma RowsCover(t: ProductTable, ks: seq<ProductId>)
    requires forall i :: 0 <= i < |ks| ==> ks[i] in t && t[ks[i]].id == ks[i]
    ensures forall i :: 0 <= i < |ks| ==> Rows(t, ks)[i].id == ks[i]
    ensures forall k :: k in ks ==> exists i :: 0 <= i < |ks| && Rows(t, ks)[i].id == k
  {
    forall k | k in ks ensures exists i :: 0 <= i < |ks| && Rows(t, ks)[i].id == k {
      var i :| 0 <= i < |ks| && ks[i] == k;
      assert Rows(t, ks)[i].id == k;
    }
  }

  /** `findAll`: exactly the active products. */
  function ActiveProducts(t: ProductTable, n: nat): (r: seq<Product>)
    requires Keyed(t, n)
    ensures forall i :: 0 <= i < |r| ==> r[i].id in t && t[r[i].id] == r[i] && r[i].active
    ensures forall k :: k in t && t[k].active ==> exists i :: 0 <= i < |r| && r[i].id == k
    ensures forall i, j :: 0 <= i < j < |r| ==> r[i].id != r[j].id
  {
    Select(t, n, k => k in t && t[k].active)
  }

  /** `findBySeller`: all of a seller's products, active or not. */
  function ProductsOfSeller(t: ProductTable, n: nat, sellerId: UserId): (r: seq<Product>)
    requires Keyed(t, n)
    ensures forall i :: 0 <= i < |r| ==> r[i].id in t && t[r[i].id] == r[i] && r[i].sellerId == sellerId
    ensures forall k :: k in t && t[k].sellerId == sellerId ==> exists i :: 0 <= i < |r| && r[i].id == k
    ensures forall i, j :: 0 <= i < j < |r| ==> r[i].id != r[j].id
  {
    Select(t, n, k => k in t && t[k].sellerId == sellerId)
  }

  /** `findOne` succeeds on exactly the ids that `findAll` lists, and returns the listed row. */
  lemma FindOneAgreesWithFindAll(t: ProductTable, n: nat, id: ProductId)
    requires Keyed(t, n)
    ensures FindActive(t, id).Success? <==> exists i :: 0 <= i < |ActiveProducts(t, n)| && ActiveProducts(t, n)[i].id == id
    ensures forall i :: 0 <= i < |ActiveProducts(t, n)| && ActiveProducts(t, n)[i].id == id ==>
              FindActive(t, id) == Success(ActiveProducts(t, n)[i])
  {
    var r := ActiveProducts(t, n);
    if id in t && t[id].active {
      var i :| 0 <= i < |r| && r[i].id == id;
    }
  }

  /** Every product `findAll` lists is also listed by `findBySeller` for its seller. */
  lemma ActiveListedBySeller(t: ProductTable, n: nat, i: nat)
    requires Keyed(t, n)
    requires i < |ActiveProducts(t, n)|
    ensures var p := ActiveProducts(t, n)[i];
            exists j :: 0 <= j < |ProductsOfSeller(t, n, p.sellerId)| && ProductsOfSeller(t, n, p.sellerId)[j] == p
  {
    var p := ActiveProducts(t, n)[i];
    var bs := ProductsOfSeller(t, n, p.sellerId);
    var j :| 0 <= j < |bs| && bs[j].id == p.id;
    assert bs[j] == t[p.id] == p;
  }

  class ProductsService {
    var products: ProductTable
    var nextId: nat

    ghost predicate Valid()
      reads this
    {
      Keyed(products, nextId)
    }

    constructor ()
      ensures Valid() && products == map[] && nextId == 0
    {
      products := map[];
      nextId := 0;
    }

    /** `create`: saves the DTO as a new row whose seller is the caller, whatever the DTO holds. */
    method Create(dto: CreateProductDto, sellerId: UserId) returns (product: Product)
      requires Valid()
      modifies this
      ensures Valid() && nextId == old(nextId) + 1
      ensures product == Product(old(nextId), dto.title, dto.description, dto.price, dto.currency,
                                 dto.stockQuantity, dto.condition, dto.active.GetOr(true), sellerId)
      ensures old(nextId) !in old(products) && products == old(products)[product.id := product]
    {
      product := Product(nextId, dto.title, dto.description, dto.price, dto.currency,
                         dto.stockQuantity, dto.condition, dto.active.GetOr(true), sellerId);
      products := products[nextId := product];
      nextId := nextId + 1;
    }

    function FindAll(): seq<Product>
      reads this
      requires Valid()
    {
      ActiveProducts(products, nextId)
    }

    function FindOne(id: ProductId): Result<Product>
      reads this
    {
      FindActive(products, id)
    }

    function FindBySeller(sellerId: UserId): seq<Product>
      reads this
      requires Valid()
    {
      ProductsOfSeller(products, nextId, sellerId)
    }

    /** `update`: NotFound, then Forbidden for a non-owner; otherwise the patch is merged into the row. */
    method Update(id: ProductId, patch: UpdateProductDto, userId: UserId) returns (r: Result<Product>)
      requires Valid()
      modifies this
      ensures Valid() && nextId == old(nextId)
      ensures var g := Owned(old(products), id, userId);
              if g.Failure? then r == g && products == old(products)
              else r == Success(ApplyPatch(g.value, patch)) && products == old(products)[id := r.value]
    {
      var g := Owned(products, id, userId);
      if g.Failure? {
        return g;
      }
      var updated := ApplyPatch(g.value, patch);
      products := products[id := updated];
      r := Success(updated);
    }

    /** `remove`: the soft delete; only `active` changes, and removing an inactive product changes nothing. */
    method Remove(id: ProductId, userId: UserId) returns (r: Result<bool>)
      requires Valid()
      modifies this
      ensures Valid() && nextId == old(nextId)
      ensures var g := Owned(old(products), id, userId);
              if g.Failure? then r == Failure(g.error) && products == old(products)
              else r == Success(true) && products == old(products)[id := g.value.(active := false)]
      ensures r.Success? && !old(products)[id].active ==> products == old(products)
    {
      var g := Owned(products, id, userId);
      if g.Failure? {
        return Failure(g.error);
      }
      products := products[id := g.value.(active := false)];
      r := Success(true);
    }

    /**
     * `hardDelete`: NotFound, then Forbidden for a non-admin before ownership is looked at, then
     * Forbidden for an admin who does not own the product; otherwise the row is deleted.
     */
    method HardDelete(id: ProductId, userId: UserId, role: UserRole) returns (r: Result<bool>)
      requires Valid()
      modifies this
      ensures Valid() && nextId == old(nextId)
      ensures id !in old(products) ==> r == Failure(NotFound(ProductRecord, id)) && products == old(products)
      ensures id in old(products) && role != Admin ==> r == Failure(Forbidden(AdminOnly)) && products == old(products)
      ensures id in old(products) && role == Admin && old(products)[id].sellerId != userId ==>
                r == Failure(Forbidden(NotOwner)) && products == old(products)
      ensures id in old(products) && role == Admin && old(products)[id].sellerId == userId ==>
                r == Success(true) && products == old(products) - {id}
    {
      if id !in products {
        return Failure(NotFound(ProductRecord, id));
      }
      if role != Admin {
        return Failure(Forbidden(AdminOnly));
      }
      if products[id].sellerId != userId {
        return Failure(Forbidden(NotOwner));
      }
      products := products - {id};
      r := Success(true);
    }

    /** `reactivate`: only `active` changes, and reactivating an active product changes nothing. */
    method Reactivate(id: ProductId, userId: UserId) returns (r: Result<Product>)
      requires Valid()
      modifies this
      ensures Valid() && nextId == old(nextId)
      ensures var g := Owned(old(products), id, userId);
              if g.Failure? then r == g && products == old(products)
              else r == Success(g.value.(active := true)) && products == old(products)[id := r.value]
      ensures r.Success? && old(products)[id].active ==> products == old(products)
    {
      var g := Owned(products, id, userId);
      if g.Failure? {
        return g;
      }
      var reactivated := g.value.(active := true);
      products := products[id := reactivated];
      r := Success(reactivated);
    }

    /** `updateStock`: sets `stockQuantity` to exactly `quantity` for the owner, and touches nothing else. */
    method UpdateStock(id: ProductId, quantity: int, userId: UserId) returns (r: Result<Product>)
      requires Valid()
      modifies this
      ensures Valid() && nextId == old(nextId)
      ensures r == SetStock(old(products), id, quantity, userId)
      ensures products == if r.Success? then old(products)[id := r.value] else old(products)
    {
      r := SetStock(products, id, quantity, userId);
      if r.Success? {
        products := products[id := r.value];
      }
    }
  }
}
