/** The first version of the service (prakt3.py): shops and the products
    they sell, with no authentication. The SQLAlchemy session is the
    `Database` object; each resource handler is a method on it when it adds
    or deletes rows and a function when it only reads them. */
module Prakt3 {
  import opened Http
  import opened Tables

  /** A row of `products`; `shop_id` is not checked against `shops`. */
  datatype Product = Product(title: string, cost: Float, shopId: int)

  /** A row of `shops`. */
  datatype Shop = Shop(title: string)

  function ProductTitle(p: Product): string { p.title }
  function ShopTitle(s: Shop): string { s.title }

  class Database {
    var products: map<int, Product>
    var shops: map<int, Shop>
    var nextProductId: int
    var nextShopId: int

    /** Titles are unique in both tables and every id is below the next
        autoincrement value, so a new row never reuses a live id. */
    ghost predicate Valid()
      reads this
    {
      && UniqueBy(products, ProductTitle)
      && UniqueBy(shops, ShopTitle)
      && KeysBelow(products, nextProductId)
      && KeysBelow(shops, nextShopId)
    }

    constructor ()
      ensures Valid()
      ensures products == map[] && shops == map[]
    {
      products := map[];
      shops := map[];
      nextProductId := 1;
      nextShopId := 1;
    }

    /** GET /product/<title> */
    function GetProduct(title: string): (r: Response<(int, Product)>)
      reads this
      ensures r.status == NOT_FOUND <==> forall id :: id in products ==> products[id].title != title
      ensures r.status == NOT_FOUND ==> r.body == None
      ensures r.status != NOT_FOUND ==>
        r.status == OK && r.body.Some? && IsRow(products, r.body.value) && r.body.value.1.title == title
    {
      NoMatch(products, ProductTitle, title);
      match First(Matching(products, ProductTitle, title))
      case None => Response(NOT_FOUND, None)
      case Some(id) => Response(OK, Some((id, products[id])))
    }

    /** DELETE /product/<title>: succeeds whether or not the product exists. */
    method DeleteProduct(title: string) returns (status: int)
      requires Valid()
      modifies this
      ensures Valid()
      ensures status == OK
      ensures products == old(products) - Matching(old(products), ProductTitle, title)
      ensures Matching(products, ProductTitle, title) == {}
      ensures shops == old(shops) && nextProductId == old(nextProductId) && nextShopId == old(nextShopId)
    {
      var found := First(Matching(products, ProductTitle, title));
      if found.Some? {
        UniqueMatch(products, ProductTitle, title, found.value);
        products := products - {found.value};
      }
      status := OK;
    }

    /** GET /products */
    function ListProducts(): (r: Response<seq<(int, Product)>>)
      reads this
      ensures r.status == OK && r.body.Some?
      ensures Enumerates(r.body.value, products)
    {
      RowsEnumerate(products);
      Response(OK, Some(Rows(products)))
    }

    /** POST /products. `body` is `None` when the JSON misses a required
        field (title, cost, shop_id). */
    method PostProduct(body: Option<Product>) returns (r: Response<(int, Product)>)
      requires Valid()
      modifies this
      ensures Valid()
      ensures body.None? ==> r == Response(BAD_REQUEST, None) && unchanged(this)
      ensures body.Some? && old(Matching(products, ProductTitle, body.value.title)) != {} ==>
        r == Response(BAD_REQUEST, None) && unchanged(this)
      ensures body.Some? && old(Matching(products, ProductTitle, body.value.title)) == {} ==>
        && old(nextProductId) !in old(products)
        && products == old(products)[old(nextProductId) := body.value]
        && r == Response(CREATED, Some((old(nextProductId), body.value)))
        && nextProductId == old(nextProductId) + 1
        && shops == old(shops) && nextShopId == old(nextShopId)
    {
      if body.None? {
        return Response(BAD_REQUEST, None);
      }
      var data := body.value;
      if First(Matching(products, ProductTitle, data.title)).Some? {
        return Response(BAD_REQUEST, None);
      }
      var id := nextProductId;
      InsertKeepsUnique(products, ProductTitle, id, data);
      products := products[id := data];
      nextProductId := nextProductId + 1;
      r := Response(CREATED, Some((id, data)));
    }

    /** GET /shop/<title> */
    function GetShop(title: string): (r: Response<(int, Shop)>)
      reads this
      ensures r.status == NOT_FOUND <==> forall id :: id in shops ==> shops[id].title != title
      ensures r.status == NOT_FOUND ==> r.body == None
      ensures r.status != NOT_FOUND ==>
        r.status == OK && r.body.Some? && IsRow(shops, r.body.value) && r.body.value.1.title == title
    {
      NoMatch(shops, ShopTitle, title);
      match First(Matching(shops, ShopTitle, title))
      case None => Response(NOT_FOUND, None)
      case Some(id) => Response(OK, Some((id, shops[id])))
    }

    /** DELETE /shop/<title>: succeeds whether or not the shop exists. */
    method DeleteShop(title: string) returns (status: int)
      requires Valid()
      modifies this
      ensures Valid()
      ensures status == OK
      ensures shops == old(shops) - Matching(old(shops), ShopTitle, title)
      ensures Matching(shops, ShopTitle, title) == {}
      ensures products == old(products) && nextProductId == old(nextProductId) && nextShopId == old(nextShopId)
    {
      var found := First(Matching(shops, ShopTitle, title));
      if found.Some? {
        UniqueMatch(shops, ShopTitle, title, found.value);
        shops := shops - {found.value};
      }
      status := OK;
    }

    /** GET /shops */
    function ListShops(): (r: Response<seq<(int, Shop)>>)
      reads this
      ensures r.status == OK && r.body.Some?
      ensures Enumerates(r.body.value, shops)
    {
      RowsEnumerate(shops);
      Response(OK, Some(Rows(shops)))
    }

    /** POST /shops. `body` is `None` when the JSON has no title. */
    method PostShop(body: Option<Shop>) returns (r: Response<(int, Shop)>)
      requires Valid()
      modifies this
      ensures Valid()
      ensures body.None? ==> r == Response(BAD_REQUEST, None) && unchanged(this)
      ensures body.Some? && old(Matching(shops, ShopTitle, body.value.title)) != {} ==>
        r == Response(BAD_REQUEST, None) && unchanged(this)
      ensures body.Some? && old(Matching(shops, ShopTitle, body.value.title)) == {} ==>
        && old(nextShopId) !in old(shops)
        && shops == old(shops)[old(nextShopId) := body.value]
        && r == Response(CREATED, Some((old(nextShopId), body.value)))
        && nextShopId == old(nextShopId) + 1
        && products == old(products) && nextProductId == old(nextProductId)
    {
      if body.None? {
        return Response(BAD_REQUEST, None);
      }
      var data := body.value;
      if First(Matching(shops, ShopTitle, data.title)).Some? {
        return Response(BAD_REQUEST, None);
      }
      var id := nextShopId;
      InsertKeepsUnique(shops, ShopTitle, id, data);
      shops := shops[id := data];
      nextShopId := nextShopId + 1;
      r := Response(CREATED, Some((id, data)));
    }
  }
}
