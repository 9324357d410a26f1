/** The third version of the service (prakt5.py): users who register and log
    in, shops, products, tags, and the many-to-many `product_tags` link
    between products and tags. Every handler except register and login sits
    behind the JWT gate; `authenticated` says whether the request carried a
    valid access token, and when it did not the gate answers 401 before the
    handler runs. Password hashing and token signing are foreign calls: the
    hash function is a parameter of register (werkzeug salts every call), the
    check function a parameter of login, and the access token is the user id
    it is bound to. */
module Prakt5 {
  import opened Http
  import opened Tables

  /** A row of `users`; `password` holds the stored hash, never the plain text. */
  datatype User = User(username: string, password: string)

  /** A row of `products`; `shop_id` is not checked against `shops`. */
  datatype Product = Product(title: string, cost: Float, shopId: int)

  /** A row of `shops`. */
  datatype Shop = Shop(title: string)

  /** A row of `tags`. */
  datatype Tag = Tag(name: string)

  /** The body of /register and /login. */
  datatype Credentials = Credentials(username: string, password: string)

  /** The body of POST /products; a missing `tag_ids` is the empty list. */
  datatype ProductBody = ProductBody(title: string, cost: Float, shopId: int, tagIds: seq<int>) {
    function Row(): Product { Product(title, cost, shopId) }
  }

  /** The identity an access token carries. */
  datatype Token = Token(subject: int)

  /** A serialised product: its row and the tags linked to it. */
  datatype ProductView = ProductView(id: int, product: Product, tags: map<int, Tag>)

  function Username(u: User): string { u.username }
  function ProductTitle(p: Product): string { p.title }
  function ShopTitle(s: Shop): string { s.title }
  function TagName(t: Tag): string { t.name }

  /** The password check accepts every password against its own hash. */
  ghost predicate Sound(hash: string -> string, check: (string, string) -> bool) {
    forall password :: check(hash(password), password)
  }

  /** The (id, row) pairs of a list of serialised products. */
  function Pairs(views: seq<ProductView>): seq<(int, Product)> {
    seq(|views|, i requires 0 <= i < |views| => (views[i].id, views[i].product))
  }

  class Database {
    var users: map<int, User>
    var shops: map<int, Shop>
    var products: map<int, Product>
    var tags: map<int, Tag>
    /** The `product_tags` table: (product_id, tag_id) pairs, its primary key. */
    var productTags: set<(int, int)>
    var nextUserId: int
    var nextShopId: int
    var nextProductId: int
    var nextTagId: int

    /** The unique columns are unique, every id is below the next
        autoincrement value, and no link names a product id or a tag id not
        yet handed out, so a new product or a new tag starts unlinked. */
    ghost predicate Valid()
      reads this
    {
      && UniqueBy(users, Username)
      && UniqueBy(shops, ShopTitle)
      && UniqueBy(products, ProductTitle)
      && UniqueBy(tags, TagName)
      && KeysBelow(users, nextUserId)
      && KeysBelow(shops, nextShopId)
      && KeysBelow(products, nextProductId)
      && KeysBelow(tags, nextTagId)
      && (forall link :: link in productTags ==> link.0 < nextProductId)
      && (forall link :: link in productTags ==> link.1 < nextTagId)
    }

    constructor ()
      ensures Valid()
      ensures users == map[] && shops == map[] && products == map[] && tags == map[]
      ensures productTags == {}
    {
      users, shops, products, tags := map[], map[], map[], map[];
      productTags := {};
      nextUserId, nextShopId, nextProductId, nextTagId := 1, 1, 1, 1;
    }

    /** `prod.tags`: the existing tags linked to product `id`. */
    function TagsOf(id: int): map<int, Tag>
      reads this
    {
      map t | t in tags && (id, t) in productTags :: tags[t]
    }

    function View(row: (int, Product)): ProductView
      reads this
    {
      ProductView(row.0, row.1, TagsOf(row.0))
    }

    // ---------------------------------------------------------------------
    // Credentials

    /** POST /register. `body` is `None` when username or password is missing. */
    method Register(body: Option<Credentials>, hash: string -> string) returns (status: int)
      requires Valid()
      modifies this
      ensures Valid()
      ensures body.None? ==> status == BAD_REQUEST && unchanged(this)
      ensures body.Some? && old(Matching(users, Username, body.value.username)) != {} ==>
        status == CONFLICT && unchanged(this)
      ensures body.Some? && old(Matching(users, Username, body.value.username)) == {} ==>
        && status == CREATED
        && old(nextUserId) !in old(users)
        && users == old(users)[old(nextUserId) := User(body.value.username, hash(body.value.password))]
        && nextUserId == old(nextUserId) + 1
      ensures shops == old(shops) && products == old(products) && tags == old(tags)
      ensures productTags == old(productTags)
      ensures nextShopId == old(nextShopId) && nextProductId == old(nextProductId) && nextTagId == old(nextTagId)
    {
      if body.None? {
        return BAD_REQUEST;
      }
      var data := body.value;
      if First(Matching(users, Username, data.username)).Some? {
        return CONFLICT;
      }
      var user := User(data.username, hash(data.password));
      var id := nextUserId;
      InsertKeepsUnique(users, Username, id, user);
      users := users[id := user];
      nextUserId := nextUserId + 1;
      status := CREATED;
    }

    /** POST /login: a token for the user whose stored hash accepts the
        password, 401 for an unknown user or a wrong password. */
    function Login(body: Option<Credentials>, check: (string, string) -> bool): (r: Response<Token>)
      reads this
      requires Valid()
      ensures body.None? ==> r == Response(BAD_REQUEST, None)
      ensures body.Some? ==>
        (r.status == OK <==>
          exists id :: id in users && users[id].username == body.value.username
                       && check(users[id].password, body.value.password))
      ensures body.Some? && r.status != OK ==> r == Response(UNAUTHORIZED, None)
      ensures r.status == OK ==>
        && r.body.Some? && r.body.value.subject in users
        && users[r.body.value.subject].username == body.value.username
        && check(users[r.body.value.subject].password, body.value.password)
    {
      if body.None? then Response(BAD_REQUEST, None)
      else
        var name := body.value.username;
        match First(Matching(users, Username, name))
        case None =>
          NoMatch(users, Username, name);
          Response(UNAUTHORIZED, None)
        case Some(id) =>
          UniqueMatch(users, Username, name, id);
          assert forall other :: other in users && users[other].username == name ==> other == id by {
            forall other | other in users && users[other].username == name ensures other == id {
              assert other in Matching(users, Username, name);
            }
          }
          if check(users[id].password, body.value.password) then Response(OK, Some(Token(id)))
          else Response(UNAUTHORIZED, None)
    }

    // ---------------------------------------------------------------------
    // Products

    /** `Product.query.filter_by(title=title).first()` */
    function ProductNamed(title: string): (r: Option<int>)
      reads this
      ensures r.None? <==> forall id :: id in products ==> products[id].title != title
      ensures r.Some? ==> r.value in products && products[r.value].title == title
    {
      NoMatch(products, ProductTitle, title);
      First(Matching(products, ProductTitle, title))
    }

    /** GET /product/<title> */
    function GetProduct(authenticated: bool, title: string): (r: Response<ProductView>)
      reads this
      ensures !authenticated ==> r == Response(UNAUTHORIZED, None)
      ensures authenticated ==>
        (r.status == NOT_FOUND <==> forall id :: id in products ==> products[id].title != title)
      ensures authenticated && r.status == NOT_FOUND ==> r.body == None
      ensures authenticated && r.status != NOT_FOUND ==>
        && r.status == OK && r.body.Some?
        && IsRow(products, (r.body.value.id, r.body.value.product))
        && r.body.value.product.title == title
        && r.body.value.tags == TagsOf(r.body.value.id)
    {
      if !authenticated then Response(UNAUTHORIZED, None)
      else
        match ProductNamed(title)
        case None => Response(NOT_FOUND, None)
        case Some(id) => Response(OK, Some(View((id, products[id]))))
    }

    /** DELETE /product/<title>: succeeds whether or not the product exists. */
    method DeleteProduct(authenticated: bool, title: string) returns (status: int)
      requires Valid()
      modifies this
      ensures Valid()
      ensures !authenticated ==> status == UNAUTHORIZED && unchanged(this)
      ensures authenticated ==>
        && status == OK
        && products == old(products) - Matching(old(products), ProductTitle, title)
        && Matching(products, ProductTitle, title) == {}
      ensures users == old(users) && shops == old(shops) && tags == old(tags)
      ensures productTags == old(productTags)
      ensures nextUserId == old(nextUserId) && nextShopId == old(nextShopId)
      ensures nextProductId == old(nextProductId) && nextTagId == old(nextTagId)
    {
      if !authenticated {
        return UNAUTHORIZED;
      }
      var found := ProductNamed(title);
      if found.Some? {
        UniqueMatch(products, ProductTitle, title, found.value);
        products := products - {found.value};
      }
      status := OK;
    }

    /** GET /products */
    function ListProducts(authenticated: bool): (r: Response<seq<ProductView>>)
      reads this
      ensures !authenticated ==> r == Response(UNAUTHORIZED, None)
      ensures authenticated ==> r.status == OK && r.body.Some?
      ensures authenticated ==> Enumerates(Pairs(r.body.value), products)
      ensures authenticated ==>
        forall i :: 0 <= i < |r.body.value| ==> r.body.value[i].tags == TagsOf(r.body.value[i].id)
    {
      if !authenticated then Response(UNAUTHORIZED, None)
      else
        var rows := Rows(products);
        RowsEnumerate(products);
        var views := seq(|rows|, i requires 0 <= i < |rows| reads this => View(rows[i]));
        assert Pairs(views) == rows;
        Response(OK, Some(views))
    }

    /** `for tid in tag_ids: if Tag.query.get(tid): new_prod.tags.append(tag)`:
        the listed ids that name an existing tag, unknown ids skipped. */
    method ResolveTagIds(tagIds: seq<int>) returns (linked: seq<int>)
      ensures forall t :: t in linked <==> t in tagIds && t in tags
    {
      linked := [];
      for i := 0 to |tagIds|
        invariant forall t :: t in linked <==> t in tagIds[..i] && t in tags
      {
        assert tagIds[..i + 1] == tagIds[..i] + [tagIds[i]];
        if tagIds[i] in tags {
          linked := linked + [tagIds[i]];
        }
      }
      assert tagIds[..|tagIds|] == tagIds;
    }

    /** POST /products. `body` is `None` when title, cost or shop_id is missing. */
    method PostProduct(authenticated: bool, body: Option<ProductBody>) returns (r: Response<ProductView>)
      requires Valid()
      modifies this
      ensures Valid()
      ensures !authenticated ==> r == Response(UNAUTHORIZED, None) && unchanged(this)
      ensures authenticated && body.None? ==> r == Response(BAD_REQUEST, None) && unchanged(this)
      ensures authenticated && body.Some? && old(Matching(products, ProductTitle, body.value.title)) != {} ==>
        r == Response(BAD_REQUEST, None) && unchanged(this)
      ensures authenticated && body.Some? && old(Matching(products, ProductTitle, body.value.title)) == {} ==>
        var id := old(nextProductId);
        && id !in old(products)
        && products == old(products)[id := body.value.Row()]
        && productTags == old(productTags) + (set t | t in body.value.tagIds && t in tags :: (id, t))
        && TagsOf(id) == (map t | t in body.value.tagIds && t in tags :: tags[t])
        && r == Response(CREATED, Some(ProductView(id, body.value.Row(), TagsOf(id))))
        && nextProductId == id + 1
      ensures users == old(users) && shops == old(shops) && tags == old(tags)
      ensures nextUserId == old(nextUserId) && nextShopId == old(nextShopId) && nextTagId == old(nextTagId)
    {
      if !authenticated {
        return Response(UNAUTHORIZED, None);
      }
      if body.None? {
        return Response(BAD_REQUEST, None);
      }
      var data := body.value;
      if ProductNamed(data.title).Some? {
        return Response(BAD_REQUEST, None);
      }
      var linked := ResolveTagIds(data.tagIds);
      var id := nextProductId;
      var row := data.Row();
      InsertKeepsUnique(products, ProductTitle, id, row);
      ghost var before := productTags;
      var links := set t | t in linked :: (id, t);
      assert links == set t | t in data.tagIds && t in tags :: (id, t);
      products := products[id := row];
      productTags := productTags + links;
      nextProductId := nextProductId + 1;
      forall t | t in tags ensures (id, t) in productTags <==> t in data.tagIds {
        assert (id, t) !in before;
      }
      r := Response(CREATED, Some(View((id, row))));
    }

    // ---------------------------------------------------------------------
    // Shops

    /** GET /shop/<title> */
    function GetShop(authenticated: bool, title: string): (r: Response<(int, Shop)>)
      reads this
      ensures !authenticated ==> r == Response(UNAUTHORIZED, None)
      ensures authenticated ==>
        (r.status == NOT_FOUND <==> forall id :: id in shops ==> shops[id].title != title)
      ensures authenticated && r.status == NOT_FOUND ==> r.body == None
      ensures authenticated && r.status != NOT_FOUND ==>
        r.status == OK && r.body.Some? && IsRow(shops, r.body.value) && r.body.value.1.title == title
    {
      if !authenticated then Response(UNAUTHORIZED, None)
      else
        NoMatch(shops, ShopTitle, title);
        match First(Matching(shops, ShopTitle, title))
        case None => Response(NOT_FOUND, None)
        case Some(id) => Response(OK, Some((id, shops[id])))
    }

    /** DELETE /shop/<title>: succeeds whether or not the shop exists. */
    method DeleteShop(authenticated: bool, title: string) returns (status: int)
      requires Valid()
      modifies this
      ensures Valid()
      ensures !authenticated ==> status == UNAUTHORIZED && unchanged(this)
      ensures authenticated ==>
        && status == OK
        && shops == old(shops) - Matching(old(shops), ShopTitle, title)
        && Matching(shops, ShopTitle, title) == {}
      ensures users == old(users) && products == old(products) && tags == old(tags)
      ensures productTags == old(productTags)
      ensures nextUserId == old(nextUserId) && nextShopId == old(nextShopId)
      ensures nextProductId == old(nextProductId) && nextTagId == old(nextTagId)
    {
      if !authenticated {
        return UNAUTHORIZED;
      }
      var found := First(Matching(shops, ShopTitle, title));
      if found.Some? {
        UniqueMatch(shops, ShopTitle, title, found.value);
        shops := shops - {found.value};
      }
      status := OK;
    }

    /** GET /shops */
    function ListShops(authenticated: bool): (r: Response<seq<(int, Shop)>>)
      reads this
      ensures !authenticated ==> r == Response(UNAUTHORIZED, None)
      ensures authenticated ==> r.status == OK && r.body.Some? && Enumerates(r.body.value, shops)
    {
      if !authenticated then Response(UNAUTHORIZED, None)
      else
        RowsEnumerate(shops);
        Response(OK, Some(Rows(shops)))
    }

    /** POST /shops. `body` is `None` when the JSON has no title. */
    method PostShop(authenticated: bool, body: Option<Shop>) returns (r: Response<(int, Shop)>)
      requires Valid()
      modifies this
      ensures Valid()
      ensures !authenticated ==> r == Response(UNAUTHORIZED, None) && unchanged(this)
      ensures authenticated && body.None? ==> r == Response(BAD_REQUEST, None) && unchanged(this)
      ensures authenticated && body.Some? && old(Matching(shops, ShopTitle, body.value.title)) != {} ==>
        r == Response(BAD_REQUEST, None) && unchanged(this)
      ensures authenticated && body.Some? && old(Matching(shops, ShopTitle, body.value.title)) == {} ==>
        && old(nextShopId) !in old(shops)
        && shops == old(shops)[old(nextShopId) := body.value]
        && r == Response(CREATED, Some((old(nextShopId), body.value)))
        && nextShopId == old(nextShopId) + 1
      ensures users == old(users) && products == old(products) && tags == old(tags)
      ensures productTags == old(productTags)
      ensures nextUserId == old(nextUserId) && nextProductId == old(nextProductId) && nextTagId == old(nextTagId)
    {
      if !authenticated {
        return Response(UNAUTHORIZED, None);
      }
      if body.None? {
        return Response(BAD_REQUEST, None);
      }
      var data := body.value;
      if First(Matching(shops, ShopTitle, data.title)).Some? {
        return Response(BAD_REQUEST, None);
      }
      var id := nextShopId;
      InsertKeepsUnique(shops, ShopTitle, id, data);
      shops := shops[id := data];
      nextShopId := nextShopId + 1;
      r := Response(CREATED, Some((id, data)));
    }

    // ---------------------------------------------------------------------
    // Tags

    /** GET /tag/<name> */
    function GetTag(authenticated: bool, name: string): (r: Response<(int, Tag)>)
      reads this
      ensures !authenticated ==> r == Response(UNAUTHORIZED, None)
      ensures authenticated ==>
        (r.status == NOT_FOUND <==> forall id :: id in tags ==> tags[id].name != name)
      ensures authenticated && r.status == NOT_FOUND ==> r.body == None
      ensures authenticated && r.status != NOT_FOUND ==>
        r.status == OK && r.body.Some? && IsRow(tags, r.body.value) && r.body.value.1.name == name
    {
      if !authenticated then Response(UNAUTHORIZED, None)
      else
        NoMatch(tags, TagName, name);
        match First(Matching(tags, TagName, name))
        case None => Response(NOT_FOUND, None)
        case Some(id) => Response(OK, Some((id, tags[id])))
    }

    /** DELETE /tag/<name>: succeeds whether or not the tag exists. */
    method DeleteTag(authenticated: bool, name: string) returns (status: int)
      requires Valid()
      modifies this
      ensures Valid()
      ensures !authenticated ==> status == UNAUTHORIZED && unchanged(this)
      ensures authenticated ==>
        && status == OK
        && tags == old(tags) - Matching(old(tags), TagName, name)
        && Matching(tags, TagName, name) == {}
      ensures users == old(users) && shops == old(shops) && products == old(products)
      ensures productTags == old(productTags)
      ensures nextUserId == old(nextUserId) && nextShopId == old(nextShopId)
      ensures nextProductId == old(nextProductId) && nextTagId == old(nextTagId)
    {
      if !authenticated {
        return UNAUTHORIZED;
      }
      var found := First(Matching(tags, TagName, name));
      if found.Some? {
        UniqueMatch(tags, TagName, name, found.value);
        tags := tags - {found.value};
      }
      status := OK;
    }

    /** GET /tags */
    function ListTags(authenticated: bool): (r: Response<seq<(int, Tag)>>)
      reads this
      ensures !authenticated ==> r == Response(UNAUTHORIZED, None)
      ensures authenticated ==> r.status == OK && r.body.Some? && Enumerates(r.body.value, tags)
    {
      if !authenticated then Response(UNAUTHORIZED, None)
      else
        RowsEnumerate(tags);
        Response(OK, Some(Rows(tags)))
    }

    /** POST /tags. `body` is `None` when the JSON has no name. */
    method PostTag(authenticated: bool, body: Option<Tag>) returns (r: Response<(int, Tag)>)
      requires Valid()
      modifies this
      ensures Valid()
      ensures !authenticated ==> r == Response(UNAUTHORIZED, None) && unchanged(this)
      ensures authenticated && body.None? ==> r == Response(BAD_REQUEST, None) && unchanged(this)
      ensures authenticated && body.Some? && old(Matching(tags, TagName, body.value.name)) != {} ==>
        r == Response(BAD_REQUEST, None) && unchanged(this)
      ensures authenticated && body.Some? && old(Matching(tags, TagName, body.value.name)) == {} ==>
        && old(nextTagId) !in old(tags)
        && tags == old(tags)[old(nextTagId) := body.value]
        && (forall id :: old(nextTagId) !in TagsOf(id))
        && r == Response(CREATED, Some((old(nextTagId), body.value)))
        && nextTagId == old(nextTagId) + 1
      ensures users == old(users) && shops == old(shops) && products == old(products)
      ensures productTags == old(productTags)
      ensures nextUserId == old(nextUserId) && nextShopId == old(nextShopId) && nextProductId == old(nextProductId)
    {
      if !authenticated {
        return Response(UNAUTHORIZED, None);
      }
      if body.None? {
        return Response(BAD_REQUEST, None);
      }
      var data := body.value;
      if First(Matching(tags, TagName, data.name)).Some? {
        return Response(BAD_REQUEST, None);
      }
      var id := nextTagId;
      InsertKeepsUnique(tags, TagName, id, data);
      tags := tags[id := data];
      nextTagId := nextTagId + 1;
      r := Response(CREATED, Some((id, data)));
    }

    // ---------------------------------------------------------------------
    // Product-tag links

    /** POST /product/<title>/tags/<tag_id>: 404 unless both the product and
        the tag exist; otherwise the pair is linked, and linking a linked
        pair changes nothing. */
    method Link(authenticated: bool, title: string, tagId: int) returns (status: int)
      requires Valid()
      modifies this
      ensures Valid()
      ensures !authenticated ==> status == UNAUTHORIZED && unchanged(this)
      ensures authenticated ==>
        (status == NOT_FOUND <==> old(ProductNamed(title)).None? || tagId !in old(tags))
      ensures status == NOT_FOUND ==> unchanged(this)
      ensures authenticated && status != NOT_FOUND ==>
        var id := old(ProductNamed(title)).value;
        && status == OK
        && productTags == old(productTags) + {(id, tagId)}
        && tagId in tags && TagsOf(id) == old(TagsOf(id))[tagId := tags[tagId]]
      ensures users == old(users) && shops == old(shops) && products == old(products) && tags == old(tags)
      ensures nextUserId == old(nextUserId) && nextShopId == old(nextShopId)
      ensures nextProductId == old(nextProductId) && nextTagId == old(nextTagId)
    {
      if !authenticated {
        return UNAUTHORIZED;
      }
      var product := ProductNamed(title);
      if product.None? || tagId !in tags {
        return NOT_FOUND;
      }
      var id := product.value;
      if (id, tagId) !in productTags {
        productTags := productTags + {(id, tagId)};
      }
      status := OK;
    }

    /** DELETE /product/<title>/tags/<tag_id>: 404 unless both the product
        and the tag exist; otherwise the pair is unlinked, and unlinking an
        unlinked pair changes nothing. */
    method Unlink(authenticated: bool, title: string, tagId: int) returns (status: int)
      requires Valid()
      modifies this
      ensures Valid()
      ensures !authenticated ==> status == UNAUTHORIZED && unchanged(this)
      ensures authenticated ==>
        (status == NOT_FOUND <==> old(ProductNamed(title)).None? || tagId !in old(tags))
      ensures status == NOT_FOUND ==> unchanged(this)
      ensures authenticated && status != NOT_FOUND ==>
        var id := old(ProductNamed(title)).value;
        && status == OK
        && productTags == old(productTags) - {(id, tagId)}
        && TagsOf(id) == old(TagsOf(id)) - {tagId}
      ensures users == old(users) && shops == old(shops) && products == old(products) && tags == old(tags)
      ensures nextUserId == old(nextUserId) && nextShopId == old(nextShopId)
      ensures nextProductId == old(nextProductId) && nextTagId == old(nextTagId)
    {
      if !authenticated {
        return UNAUTHORIZED;
      }
      var product := ProductNamed(title);
      if product.None? || tagId !in tags {
        return NOT_FOUND;
      }
      var id := product.value;
      if (id, tagId) in productTags {
        productTags := productTags - {(id, tagId)};
      }
      status := OK;
    }
  }

  /** A user whose stored hash was made from `password` logs in with it and
      gets a token bound to their own id. */
  lemma RegisteredUserCanLogIn(db: Database, id: int, password: string,
                               hash: string -> string, check: (string, string) -> bool)
    requires db.Valid() && Sound(hash, check)
    requires id in db.users && db.users[id].password == hash(password)
    ensures db.Login(Some(Credentials(db.users[id].username, password)), check) == Response(OK, Some(Token(id)))
  {
  }

  /** A password the stored hash rejects is refused with 401. */
  lemma WrongPasswordIsRejected(db: Database, id: int, password: string, check: (string, string) -> bool)
    requires db.Valid()
    requires id in db.users && !check(db.users[id].password, password)
    ensures db.Login(Some(Credentials(db.users[id].username, password)), check) == Response(UNAUTHORIZED, None)
  {
  }

  /** POST /register then POST /login with the same body: a fresh username
      is registered and then logs in as the new user; a taken one gets 409. */
  method RegisterThenLogIn(db: Database, username: string, password: string,
                           hash: string -> string, check: (string, string) -> bool)
    returns (registered: int, login: Response<Token>)
    requires db.Valid() && Sound(hash, check)
    modifies db
    ensures db.Valid()
    ensures registered == CONFLICT || registered == CREATED
    ensures registered == CONFLICT <==> old(Matching(db.users, Username, username)) != {}
    ensures registered == CREATED ==> login == Response(OK, Some(Token(old(db.nextUserId))))
    ensures registered == CREATED ==> old(db.nextUserId) in db.users && db.users[old(db.nextUserId)] == User(username, hash(password))
  {
    registered := db.Register(Some(Credentials(username, password)), hash);
    if registered == CREATED {
      RegisteredUserCanLogIn(db, old(db.nextUserId), password, hash, check);
    }
    login := db.Login(Some(Credentials(username, password)), check);
  }

  /** Linking the same pair twice answers the same and leaves the same link
      set as linking it once. */
  method LinkTwice(db: Database, authenticated: bool, title: string, tagId: int)
    returns (first: int, second: int)
    requires db.Valid()
    modifies db
    ensures db.Valid()
    ensures second == first
    ensures first == OK ==> old(db.ProductNamed(title)).Some? && db.productTags == old(db.productTags) + {(old(db.ProductNamed(title)).value, tagId)}
    ensures first != OK ==> db.productTags == old(db.productTags)
  {
    first := db.Link(authenticated, title, tagId);
    second := db.Link(authenticated, title, tagId);
  }

  /** Unlinking the same pair twice answers the same and leaves the same link
      set as unlinking it once. */
  method UnlinkTwice(db: Database, authenticated: bool, title: string, tagId: int)
    returns (first: int, second: int)
    requires db.Valid()
    modifies db
    ensures db.Valid()
    ensures second == first
    ensures first == OK ==> old(db.ProductNamed(title)).Some? && db.productTags == old(db.productTags) - {(old(db.ProductNamed(title)).value, tagId)}
    ensures first != OK ==> db.productTags == old(db.productTags)
  {
    first := db.Unlink(authenticated, title, tagId);
    second := db.Unlink(authenticated, title, tagId);
  }
}
