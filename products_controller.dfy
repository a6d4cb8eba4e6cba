/**
  The in-memory product list of the first API (build-api/controller/productsController.js):
  a module-level array of product objects that the five route handlers read,
  append to (`push`), cut (`splice`) and update in place (`Object.assign`).
  Products are compared with the route parameter through `parseInt`, and ids
  come from the array's length, so nothing keeps them unique.
*/
module ProductsController {
  import opened Wrappers
  import opened JsText
  import opened SeqSearch

  /** A JSON value as `express.json()` parses it and `res.json` writes it (numbers are integers here). */
  datatype Json =
    | JNull
    | JBool(b: bool)
    | JNum(n: int)
    | JStr(s: string)
    | JArr(items: seq<Json>)
    | JObj(fields: map<string, Json>)

  /** A product, and a request body: a plain object from property names to values. */
  type Product = map<string, Json>

  /** What a handler sends: `res.status(status).json(body)` (status 200 when not set). */
  datatype Response = Response(status: nat, body: Json)

  /** The two products the array starts with. */
  function Seed(): seq<Product> {
    [ map["id" := JNum(1), "name" := JStr("Product 1"), "description" := JStr("Description for Product 1")],
      map["id" := JNum(2), "name" := JStr("Product 2"), "description" := JStr("Description for Product 2")] ]
  }

  function Message(text: string): Json {
    JObj(map["message" := JStr(text)])
  }

  function NotFound(): Response {
    Response(404, Message("Product not found"))
  }

  function Listing(ps: seq<Product>): (j: Json)
    ensures j.JArr? && |j.items| == |ps|
    ensures forall i :: 0 <= i < |ps| ==> j.items[i] == JObj(ps[i])
  {
    JArr(seq(|ps|, i requires 0 <= i < |ps| => JObj(ps[i])))
  }

  /** `p.id === key`: strict equality with the parsed parameter; `NaN` equals nothing. */
  predicate HasId(p: Product, key: Option<int>) {
    key.Some? && "id" in p && p["id"] == JNum(key.value)
  }

  /** The callback `(p) => p.id === parseInt(id)` once `parseInt(id)` is evaluated. */
  function IdIs(key: Option<int>): Product -> bool {
    p => HasId(p, key)
  }

  /** `{ id: products.length + 1, ...newProduct }`: the body's own properties,
      over a generated id that a body `id` property overrides. */
  function NewProduct(len: nat, body: Product): (p: Product)
    ensures p.Keys == body.Keys + {"id"}
    ensures forall k :: k in body ==> p[k] == body[k]
    ensures "id" !in body ==> p["id"] == JNum(len + 1)
  {
    map["id" := JNum(len + 1)] + body
  }

  /** `Object.assign(p, body)`: every property of the body is copied over; the rest stay. */
  function Assign(p: Product, body: Product): (q: Product)
    ensures q.Keys == p.Keys + body.Keys
    ensures forall k :: k in body ==> q[k] == body[k]
    ensures forall k :: k in p && k !in body ==> q[k] == p[k]
  {
    p + body
  }

  /** The array after `createProduct`. */
  function AfterCreate(ps: seq<Product>, body: Product): (r: seq<Product>)
    ensures |r| == |ps| + 1 && r[..|ps|] == ps
    ensures r[|ps|] == NewProduct(|ps|, body)
  {
    ps + [NewProduct(|ps|, body)]
  }

  /** The array after `deleteProduct`: the first product with the id is cut out,
      the others keep their order; with no such product nothing changes. */
  function AfterDelete(ps: seq<Product>, key: Option<int>): (r: seq<Product>)
    ensures FirstIndex(ps, IdIs(key)) < 0 ==> r == ps
    ensures FirstIndex(ps, IdIs(key)) >= 0 ==>
              var i := FirstIndex(ps, IdIs(key));
              && |r| == |ps| - 1
              && (forall j :: 0 <= j < i ==> r[j] == ps[j])
              && (forall j :: i <= j < |r| ==> r[j] == ps[j + 1])
              && multiset(r) + multiset{ps[i]} == multiset(ps)
  {
    var i := FirstIndex(ps, IdIs(key));
    if i < 0 then ps
    else
      assert ps == ps[..i] + [ps[i]] + ps[i + 1..];
      ps[..i] + ps[i + 1..]
  }

  /** The array after `updateProduct`: the first product with the id gets the
      body's properties; with no such product nothing changes. */
  function AfterUpdate(ps: seq<Product>, key: Option<int>, body: Product): (r: seq<Product>)
    ensures |r| == |ps|
    ensures FirstIndex(ps, IdIs(key)) < 0 ==> r == ps
    ensures FirstIndex(ps, IdIs(key)) >= 0 ==>
              var i := FirstIndex(ps, IdIs(key));
              && r[i] == Assign(ps[i], body)
              && (forall j :: 0 <= j < |ps| && j != i ==> r[j] == ps[j])
  {
    var i := FirstIndex(ps, IdIs(key));
    if i < 0 then ps else ps[i := Assign(ps[i], body)]
  }

  /** The module-level `products` array and the handlers over it. */
  class ProductStore {
    var products: seq<Product>

    constructor ()
      ensures products == Seed()
    {
      products := Seed();
    }

    /** `getAllProducts`: the whole array, in order. */
    method GetAllProducts() returns (r: Response)
      ensures r.status == 200 && r.body.JArr? && |r.body.items| == |products|
      ensures forall i :: 0 <= i < |products| ==> r.body.items[i] == JObj(products[i])
    {
      r := Response(200, Listing(products));
    }

    /** `createProduct`: appends one product and answers 201 with the body as it came in. */
    method CreateProduct(body: Product) returns (r: Response)
      modifies this
      ensures products == AfterCreate(old(products), body)
      ensures r == Response(201, JObj(map["message" := JStr("Product created"), "product" := JObj(body)]))
    {
      products := products + [NewProduct(|products|, body)];
      r := Response(201, JObj(map["message" := JStr("Product created"), "product" := JObj(body)]));
    }

    /** `getProductById`: the first product whose id is `parseInt(id)`, else 404. */
    method GetProductById(id: string) returns (r: Response)
      ensures var i := FirstIndex(products, IdIs(ParseInt(id)));
              if i < 0 then r == NotFound() else r == Response(200, JObj(products[i]))
    {
      var i := FindIndex(products, IdIs(ParseInt(id)));
      if i >= 0 {
        r := Response(200, JObj(products[i]));
      } else {
        r := NotFound();
      }
    }

    /** `deleteProduct`: splices out the first product whose id is `parseInt(id)`, else 404. */
    method DeleteProduct(id: string) returns (r: Response)
      modifies this
      ensures products == AfterDelete(old(products), ParseInt(id))
      ensures if FirstIndex(old(products), IdIs(ParseInt(id))) < 0 then r == NotFound()
              else r == Response(200, Message("Product with ID " + id + " deleted"))
    {
      var index := FindIndex(products, IdIs(ParseInt(id)));
      if index != -1 {
        products := products[..index] + products[index + 1..];
        r := Response(200, Message("Product with ID " + id + " deleted"));
      } else {
        r := NotFound();
      }
    }

    /** `updateProduct`: assigns the body onto the first product whose id is
        `parseInt(id)` and answers with the updated product, else 404. */
    method UpdateProduct(id: string, body: Product) returns (r: Response)
      modifies this
      ensures products == AfterUpdate(old(products), ParseInt(id), body)
      ensures var i := FirstIndex(old(products), IdIs(ParseInt(id)));
              if i < 0 then r == NotFound()
              else r == Response(200, JObj(map["message" := JStr("Product updated"),
                                              "product" := JObj(products[i])]))
    {
      var i := FindIndex(products, IdIs(ParseInt(id)));
      if i >= 0 {
        products := products[i := Assign(products[i], body)];
        r := Response(200, JObj(map["message" := JStr("Product updated"), "product" := JObj(products[i])]));
      } else {
        r := NotFound();
      }
    }
  }

  // ---------------------------------------------------------------------------
  // Properties relating several requests
  // ---------------------------------------------------------------------------

  /** Ids are not kept unique: from the seed array, deleting product 1 and then
      creating a product hands out id 2 a second time. */
  lemma IdsNotUnique()
    ensures var after := AfterCreate(AfterDelete(Seed(), ParseInt("1")), map[]);
            && |after| == 2
            && after[0]["id"] == JNum(2) && after[1]["id"] == JNum(2)
  {
    assert ParseInt("1") == Some(1) by {
      ParseIntToDecimal(1);
      assert ToDecimal(1) == "1";
    }
    var ps := Seed();
    assert FirstIndex(ps, IdIs(Some(1))) == 0 by {
      assert IdIs(Some(1))(ps[0]);
    }
    var deleted := AfterDelete(ps, Some(1));
    assert deleted == [ps[1]];
    var after := AfterCreate(deleted, map[]);
    assert after[1] == NewProduct(1, map[]);
  }

  /** A product created with a body that has no `id` is the first one carrying
      its generated id, provided no earlier product already carries it. */
  lemma CreatedIsFirstWithId(ps: seq<Product>, body: Product)
    requires "id" !in body
    requires FirstIndex(ps, IdIs(Some(|ps| + 1))) < 0
    ensures FirstIndex(AfterCreate(ps, body), IdIs(Some(|ps| + 1))) == |ps|
  {
  }

  /** A product created with a body that has no `id` is found again by its
      decimal id, provided no earlier product already carries that id. */
  lemma GetAfterCreate(ps: seq<Product>, body: Product)
    requires "id" !in body
    requires FirstIndex(ps, IdIs(Some(|ps| + 1))) < 0
    ensures FirstIndex(AfterCreate(ps, body), IdIs(ParseInt(ToDecimal(|ps| + 1)))) == |ps|
  {
    ParseIntToDecimal(|ps| + 1);
    CreatedIsFirstWithId(ps, body);
  }

  /** Updating twice with the same body is updating once, as long as the body
      does not move the product to another id. */
  lemma UpdateIdempotent(ps: seq<Product>, key: Option<int>, body: Product)
    requires key.Some? && "id" in body ==> body["id"] == JNum(key.value)
    ensures AfterUpdate(AfterUpdate(ps, key, body), key, body) == AfterUpdate(ps, key, body)
  {
    var once := AfterUpdate(ps, key, body);
    var i := FirstIndex(ps, IdIs(key));
    if i >= 0 {
      assert IdIs(key)(once[i]);
      FirstIndexStable(ps, once, IdIs(key));
      assert Assign(once[i], body) == once[i];
    }
  }
}
