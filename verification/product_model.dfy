/**
 * The product schema and the `products` collection it governs
 * (models/product.ts). A document becomes a stored Product by the schema's
 * cast: required paths must be present, `stock` defaults to 0 and `featured`
 * to false when absent, and `sku` is unique across the collection.
 */
module ProductModel {
  import opened Wrappers
  import opened JsValues

  datatype Product = Product(
    id: string,
    name: string,
    description: string,
    category: string,
    sku: string,
    price: int,
    stock: int,
    cloudinaryPublicIds: seq<string>,
    attributes: JsValue,
    featured: bool)

  /** Why a document was refused: a required path is missing, a value has the wrong type, or a unique key is taken. */
  datatype SchemaError = Required(path: string) | CastFailed(path: string) | DuplicateKey(path: string)

  function ErrorMessage(e: SchemaError): string
  {
    match e
    case Required(path) => "Path `" + path + "` is required."
    case CastFailed(path) => "Cast failed for path `" + path + "`"
    case DuplicateKey(path) => "E11000 duplicate key error: " + path
  }

  /** What every stored product satisfies besides uniqueness: the required paths hold values. */
  predicate SchemaValid(p: Product)
  {
    && p.name != ""
    && p.description != ""
    && p.category != ""
    && p.sku != ""
    && !IsNullish(p.attributes)
  }

  /** A required `String` path: an empty string counts as missing. */
  function RequiredString(path: string, v: JsValue): (r: Result<string, SchemaError>)
    ensures r.Success? <==> v.Str? && v.s != ""
    ensures r.Success? ==> r.value == v.s
  {
    match v
    case Str(s) => if s == "" then Failure(Required(path)) else Success(s)
    case Undefined => Failure(Required(path))
    case Null => Failure(Required(path))
    case _ => Failure(CastFailed(path))
  }

  /** A required `Number` path with an optional default used only when the path is undefined. */
  function RequiredNumber(path: string, v: JsValue, default: Option<int>): (r: Result<int, SchemaError>)
    ensures r.Success? <==> v.Num? || (v.Undefined? && default.Some?)
    ensures r.Success? && v.Num? ==> r.value == v.n
    ensures r.Success? && v.Undefined? ==> r.value == default.value
  {
    match v
    case Num(n) => Success(n)
    case Undefined => if default.Some? then Success(default.value) else Failure(Required(path))
    case Null => Failure(Required(path))
    case _ => Failure(CastFailed(path))
  }

  /** The required `Boolean` path `featured`, defaulting to false when undefined. */
  function FeaturedFlag(v: JsValue): (r: Result<bool, SchemaError>)
    ensures r.Success? <==> v.Bool? || v.Undefined?
    ensures r.Success? ==> r.value == (v.Bool? && v.b)
  {
    match v
    case Bool(b) => Success(b)
    case Undefined => Success(false)
    case Null => Failure(Required("featured"))
    case _ => Failure(CastFailed("featured"))
  }

  /** The required `[String]` path `cloudinaryPublicIds`. */
  function PublicIdList(v: JsValue): (r: Result<seq<string>, SchemaError>)
    ensures r.Success? <==> IsStringArray(v)
    ensures r.Success? ==> StringArray(r.value) == v
  {
    if IsStringArray(v) then
      assert StringArray(StringsOf(v)) == v;
      Success(StringsOf(v))
    else if IsNullish(v) then Failure(Required("cloudinaryPublicIds"))
    else Failure(CastFailed("cloudinaryPublicIds"))
  }

  /** The required `Object` path `attributes`: any value that is not undefined or null. */
  function AttributesValue(v: JsValue): (r: Result<JsValue, SchemaError>)
    ensures r.Success? <==> !IsNullish(v)
    ensures r.Success? ==> r.value == v
  {
    if IsNullish(v) then Failure(Required("attributes")) else Success(v)
  }

  /**
   * Casting a document through the schema. Paths outside the schema are dropped;
   * `id` is the identifier the database driver assigns to the new document.
   */
  function Cast(doc: JsValue, id: string): (r: Result<Product, SchemaError>)
    ensures r.Success? ==> SchemaValid(r.value) && r.value.id == id
    // every value is the document's own
    ensures r.Success? ==> Get(doc, "name") == Str(r.value.name)
    ensures r.Success? ==> Get(doc, "description") == Str(r.value.description)
    ensures r.Success? ==> Get(doc, "category") == Str(r.value.category)
    ensures r.Success? ==> Get(doc, "sku") == Str(r.value.sku)
    ensures r.Success? ==> Get(doc, "price") == Num(r.value.price)
    ensures r.Success? ==> StringArray(r.value.cloudinaryPublicIds) == Get(doc, "cloudinaryPublicIds")
    ensures r.Success? ==> Get(doc, "attributes") == r.value.attributes
    // defaults
    ensures r.Success? && Get(doc, "stock").Undefined? ==> r.value.stock == 0
    ensures r.Success? && Get(doc, "stock").Num? ==> r.value.stock == Get(doc, "stock").n
    ensures r.Success? && Get(doc, "featured").Undefined? ==> !r.value.featured
    ensures r.Success? && Get(doc, "featured").Bool? ==> r.value.featured == Get(doc, "featured").b
    // a missing required path is refused
    ensures IsNullish(Get(doc, "name")) || IsNullish(Get(doc, "description")) || IsNullish(Get(doc, "category"))
            || IsNullish(Get(doc, "sku")) || IsNullish(Get(doc, "price"))
            || IsNullish(Get(doc, "cloudinaryPublicIds")) || IsNullish(Get(doc, "attributes"))
            ==> r.Failure?
  {
    var name :- RequiredString("name", Get(doc, "name"));
    var description :- RequiredString("description", Get(doc, "description"));
    var category :- RequiredString("category", Get(doc, "category"));
    var sku :- RequiredString("sku", Get(doc, "sku"));
    var price :- RequiredNumber("price", Get(doc, "price"), None);
    var stock :- RequiredNumber("stock", Get(doc, "stock"), Some(0));
    var ids :- PublicIdList(Get(doc, "cloudinaryPublicIds"));
    var attributes :- AttributesValue(Get(doc, "attributes"));
    var featured :- FeaturedFlag(Get(doc, "featured"));
    Success(Product(id, name, description, category, sku, price, stock, ids, attributes, featured))
  }

  /** No two products share a SKU, and no two share an identifier. */
  predicate UniqueKeys(ps: seq<Product>)
  {
    forall i, j :: 0 <= i < j < |ps| ==> ps[i].sku != ps[j].sku && ps[i].id != ps[j].id
  }

  /** The SKUs held by a list of products. */
  function SkuSet(ps: seq<Product>): (r: set<string>)
    ensures forall i :: 0 <= i < |ps| ==> ps[i].sku in r
    ensures forall x :: x in r ==> exists i :: 0 <= i < |ps| && ps[i].sku == x
    ensures |r| <= |ps|
  {
    if ps == [] then {}
    else
      var rest := SkuSet(ps[..|ps| - 1]);
      assert forall i :: 0 <= i < |ps| - 1 ==> ps[..|ps| - 1][i] == ps[i];
      rest + {ps[|ps| - 1].sku}
  }

  /** The identifiers held by a list of products. */
  function IdSet(ps: seq<Product>): set<string>
  {
    set i | 0 <= i < |ps| :: ps[i].id
  }

  /** The `products` collection. */
  class ProductCollection {
    var products: seq<Product>

    ghost predicate Valid()
      reads this
    {
      && UniqueKeys(products)
      && forall i :: 0 <= i < |products| ==> SchemaValid(products[i])
    }

    function Skus(): set<string>
      reads this
    {
      SkuSet(products)
    }

    constructor ()
      ensures Valid() && products == []
    {
      products := [];
    }

    /** `Product.findOne({ sku })`: the product holding `sku`, if any. */
    method FindOneBySku(sku: string) returns (found: Option<Product>)
      ensures found.Some? <==> sku in Skus()
      ensures found.Some? ==> found.value in products && found.value.sku == sku
    {
      if sku in SkuSet(products) {
        var p :| p in products && p.sku == sku;
        found := Some(p);
      } else {
        found := None;
      }
    }

    /** `Product.find({})`: every stored product. With no sort the order is the database's; here it is the stored sequence. */
    method FindAll() returns (all: seq<Product>)
      ensures all == products
    {
      all := products;
    }

    /**
     * `Product.create(doc)`: cast the document, then insert it unless its SKU or
     * its identifier is already taken; a refused document leaves the collection as it was.
     */
    method Create(doc: JsValue, id: string) returns (r: Result<Product, SchemaError>)
      requires Valid()
      modifies this
      ensures Valid()
      ensures Cast(doc, id).Failure? ==> r == Cast(doc, id).PropagateFailure() && products == old(products)
      ensures Cast(doc, id).Success? && Cast(doc, id).value.sku in old(Skus()) ==>
                r == Failure(DuplicateKey("sku")) && products == old(products)
      ensures Cast(doc, id).Success? && Cast(doc, id).value.sku !in old(Skus()) && id in IdSet(old(products)) ==>
                r == Failure(DuplicateKey("_id")) && products == old(products)
      ensures r.Success? <==> Cast(doc, id).Success? && Cast(doc, id).value.sku !in old(Skus()) && id !in IdSet(old(products))
      ensures r.Success? ==> r == Cast(doc, id) && products == old(products) + [r.value]
    {
      var cast := Cast(doc, id);
      if cast.Failure? {
        return cast.PropagateFailure();
      }
      var p := cast.value;
      if p.sku in SkuSet(products) {
        return Failure(DuplicateKey("sku"));
      }
      if id in IdSet(products) {
        return Failure(DuplicateKey("_id"));
      }
      products := products + [p];
      r := Success(p);
    }
  }
}
