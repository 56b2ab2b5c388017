/** The products service: creation, paged listing, lookup, field-merge
    update and removal over the product collection, and its error
    classifier. */
module Products {
  import opened Store
  import opened Errors

  /** A catalogue entry; prices are whole cents. */
  datatype Product = Product(id: Id, name: string, description: string, price: int,
                             createdAt: int, updatedAt: int)

  datatype CreateProductDto = CreateProductDto(name: string, description: string, price: int)

  /** A partial product: only the fields present are written. */
  datatype UpdateProductDto = UpdateProductDto(name: Option<string>, description: Option<string>,
                                               price: Option<int>)

  datatype ProductPage = ProductPage(total: nat, products: seq<Product>, offset: nat, limit: nat)

  /** `handleDBErrors` of the products service: a duplicate key and a schema
      validation failure are bad requests, everything else, including any
      HTTP exception thrown inside the `try`, is an internal error. */
  function HandleDbErrors(e: Thrown): (r: HttpError)
    ensures e == StoreFault(DuplicateKey) ==> r == BadRequest("Duplicate entry in database")
    ensures e.StoreFault? && e.fault.ValidationError? ==> r == BadRequest(e.fault.message)
    ensures r.BadRequest? <==> e.StoreFault? && !e.fault.OtherFault?
    ensures !r.BadRequest? ==> r == InternalServerError(CheckLogs)
  {
    match e
    case StoreFault(DuplicateKey) => BadRequest("Duplicate entry in database")
    case StoreFault(ValidationError(message)) => BadRequest(message)
    case _ => InternalServerError(CheckLogs)
  }

  /** `new this.productModel(dto)` with the schema's timestamps set to `now`. */
  function NewProduct(dto: CreateProductDto, id: Id, now: int): Product
  {
    Product(id, dto.name, dto.description, dto.price, now, now)
  }

  /** `{ $set: dto }` applied at time `now`: the fields present in `dto`
      overwrite, the others are kept; the id and creation time never change
      and `updatedAt` is refreshed. */
  function Merge(p: Product, dto: UpdateProductDto, now: int): (q: Product)
    ensures q.id == p.id && q.createdAt == p.createdAt && q.updatedAt == now
    ensures q.name == (if dto.name.Some? then dto.name.value else p.name)
    ensures q.description == (if dto.description.Some? then dto.description.value else p.description)
    ensures q.price == (if dto.price.Some? then dto.price.value else p.price)
  {
    p.(name := OrDefault(dto.name, p.name),
       description := OrDefault(dto.description, p.description),
       price := OrDefault(dto.price, p.price),
       updatedAt := now)
  }

  /** Applying the same patch twice is the same as applying it once. */
  lemma MergeIdempotent(p: Product, dto: UpdateProductDto, now: int)
    ensures Merge(Merge(p, dto, now), dto, now) == Merge(p, dto, now)
  {
  }

  /** The creation time of every product, by id. */
  function CreationTimes(products: map<Id, Product>): (stamps: map<Id, int>)
    ensures stamps.Keys == products.Keys
    ensures forall id :: id in stamps ==> stamps[id] == products[id].createdAt
  {
    map id | id in products :: products[id].createdAt
  }

  /** The page of products that `sort({ createdAt: -1 })`, `skip(offset)` and
      `limit(limit)` select. */
  ghost function ProductWindow(products: map<Id, Product>, offset: nat, limit: nat): (page: seq<Product>)
    ensures forall i :: 0 <= i < |page| ==> page[i] in products.Values
    ensures forall i, j :: 0 <= i < j < |page| ==> page[j].createdAt <= page[i].createdAt
    ensures limit > 0 ==> |page| <= limit
    ensures |page| > 0 ==> offset + |page| <= |products|
    ensures (limit == 0 || |page| < limit) ==> offset + |page| >= |products|
    ensures forall i :: 0 <= i < |page| ==>
              page[i] == products[NewestFirst(CreationTimes(products))[offset + i]]
  {
    var stamps := CreationTimes(products);
    assert |stamps| == |products| by {
      assert |stamps| == |stamps.Keys| && |products| == |products.Keys|;
    }
    var ids := PageIds(stamps, offset, limit);
    var page := Fetch(products, ids);
    assert forall i :: 0 <= i < |page| ==> page[i].createdAt == stamps[ids[i]];
    page
  }

  /** `findAll(limit = 10, offset = 0)`: the count of all products and one
      page of them, newest first. */
  ghost function FindAll(products: map<Id, Product>, limit: Option<nat>, offset: Option<nat>,
                         fault: Option<DbFault>): (r: Result<ProductPage>)
    ensures r.Err? <==> fault.Some?
    ensures r.Err? ==> r.error == HandleDbErrors(StoreFault(fault.value))
    ensures r.Ok? ==> r.value.limit == OrDefault(limit, 10) && r.value.offset == OrDefault(offset, 0)
    ensures r.Ok? ==> r.value.total == |products|
    ensures r.Ok? ==> r.value.products == ProductWindow(products, r.value.offset, r.value.limit)
  {
    if fault.Some? then Err(HandleDbErrors(StoreFault(fault.value)))
    else
      var off := OrDefault(offset, 0);
      var lim := OrDefault(limit, 10);
      Ok(ProductPage(|products|, ProductWindow(products, off, lim), off, lim))
  }

  /** `findOne(id)`: the product if it exists. The `NotFound` thrown for a
      missing id is caught and reclassified, so it surfaces as an internal
      error. */
  function FindOne(products: map<Id, Product>, id: Id, fault: Option<DbFault>): (r: Result<Product>)
    ensures r.Ok? <==> fault.None? && id in products
    ensures r.Ok? ==> r.value == products[id]
    ensures fault.Some? ==> r == Err(HandleDbErrors(StoreFault(fault.value)))
    ensures fault.None? && id !in products ==> r == Err(InternalServerError(CheckLogs))
  {
    if fault.Some? then Err(HandleDbErrors(StoreFault(fault.value)))
    else if id in products then Ok(products[id])
    else Err(HandleDbErrors(Http(NotFound("Product with id " + id + " not found"))))
  }

  /** The product collection behind `ProductsService`. */
  class ProductsService {
    var products: map<Id, Product>

    ghost predicate Valid()
      reads this
    {
      forall id :: id in products ==> products[id].id == id
    }

    constructor ()
      ensures Valid() && products == map[]
    {
      products := map[];
    }

    /** `create(dto)`: store one product built from the request; `fault` is
        what `save()` raises, if anything. */
    method Create(dto: CreateProductDto, newId: Id, now: int, fault: Option<DbFault>)
      returns (r: Result<Product>)
      requires Valid()
      requires newId !in products
      modifies this
      ensures Valid()
      ensures r.Ok? <==> fault.None?
      ensures r.Ok? ==> r.value == NewProduct(dto, newId, now) && products == old(products)[newId := r.value]
      ensures r.Err? ==> r.error == HandleDbErrors(StoreFault(fault.value)) && products == old(products)
    {
      if fault.Some? {
        r := Err(HandleDbErrors(StoreFault(fault.value)));
        return;
      }
      var product := NewProduct(dto, newId, now);
      products := products[newId := product];
      r := Ok(product);
    }

    /** `update(id, dto)`: `findByIdAndUpdate(id, { $set: dto }, { new: true })`.
        Only the product `id` changes, only in the fields `dto` carries, and
        the updated record is returned; a missing id changes nothing and is
        an internal error. */
    method Update(id: Id, dto: UpdateProductDto, now: int, fault: Option<DbFault>)
      returns (r: Result<Product>)
      requires Valid()
      modifies this
      ensures Valid()
      ensures r.Ok? <==> fault.None? && id in old(products)
      ensures r.Ok? ==> r.value == Merge(old(products)[id], dto, now)
      ensures r.Ok? ==> products == old(products)[id := r.value]
      ensures r.Err? ==> products == old(products)
      ensures fault.Some? ==> r == Err(HandleDbErrors(StoreFault(fault.value)))
      ensures fault.None? && r.Err? ==> r.error == InternalServerError(CheckLogs)
    {
      if fault.Some? {
        r := Err(HandleDbErrors(StoreFault(fault.value)));
        return;
      }
      if id !in products {
        r := Err(HandleDbErrors(Http(NotFound("Product with id " + id + " not found"))));
        return;
      }
      var updated := Merge(products[id], dto, now);
      products := products[id := updated];
      r := Ok(updated);
    }

    /** `remove(id)`: `findByIdAndDelete(id)`. Exactly that product goes; a
        missing id changes nothing and is an internal error. */
    method Remove(id: Id, fault: Option<DbFault>) returns (r: Result<string>)
      requires Valid()
      modifies this
      ensures Valid()
      ensures r.Ok? <==> fault.None? && id in old(products)
      ensures r.Ok? ==> r.value == "Product deleted successfully" && products == old(products) - {id}
      ensures r.Err? ==> products == old(products)
      ensures fault.Some? ==> r == Err(HandleDbErrors(StoreFault(fault.value)))
      ensures fault.None? && r.Err? ==> r.error == InternalServerError(CheckLogs)
    {
      if fault.Some? {
        r := Err(HandleDbErrors(StoreFault(fault.value)));
        return;
      }
      if id !in products {
        r := Err(HandleDbErrors(Http(NotFound("Product with id " + id + " not found"))));
        return;
      }
      products := products - {id};
      r := Ok("Product deleted successfully");
    }
  }
}
