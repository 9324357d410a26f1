# A verified model of the praktichni shop/store CRUD services

The repository holds three successive versions of one small Flask service
over SQLite:

- `prakt3.py`: shops and products, looked up and deleted by title, no
  authentication;
- `prakt4.py`: stores and items, looked up by integer id, request bodies
  checked by a schema before the handler runs;
- `prakt5.py`: users, shops, products, tags and the many-to-many
  `product_tags` link, with register/login and a JWT gate in front of every
  other endpoint.

Under the framework calls each handler is a small state transition on a few
tables. The model keeps that shape. Each version is a Dafny module with a
`Database` class, standing for the SQLAlchemy session:

- every table is a `map` from the integer primary key to the row;
- `product_tags` is a `set` of `(product_id, tag_id)` pairs, so a pair can
  be present at most once, as its composite primary key demands;
- one autoincrement counter per table hands out fresh ids.

Handlers that add, change or delete rows are methods with `modifies this`.
Their `ensures` clauses give the status code and the whole new state in
terms of the old one. They also keep `Valid()`: unique columns stay unique,
and ids stay below the counters. Handlers that only read (get, list, login)
are functions with `reads this`.

Module `Tables` models the ORM queries that recur in every handler:

- `query.filter_by(col=v)` is `Matching` (the keys of the matching rows).
- `.first()` is `First` (the least matching key, the order SQLite scans a
  rowid table in).
- `query.all()` is `Rows`, the rows in ascending id order.
  `RowsEnumerate` proves that this lists every row exactly once.

External calls become parameters:

- The request body is an `Option` of the record, `None` when a required
  field is missing. prakt3 and prakt5 answer that with 400. prakt4 answers
  422, because its schema decorator rejects the body before the handler runs.
- werkzeug's salted `generate_password_hash` is a parameter
  `hash: string -> string` of `Register`. A fresh function per call stands
  for the random salt. `check_password_hash` is a parameter `check` of
  `Login`. `Sound(hash, check)` (`check(hash(p), p)` for every `p`) is
  assumed only where a lemma needs it.
- The JWT gate is a boolean `authenticated`. When it is false the handler
  answers 401 and changes nothing. The access token is `Token(id)`, the user
  id it is bound to.

The model follows the code where the versions disagree or where a check one
might expect is missing:

- product creation never checks that `shop_id` names a shop;
- prakt4 deletes answer 404 for a missing row, while prakt3 and prakt5
  deletes answer 200 whether or not the row existed;
- duplicates get 400 for shops, products, tags and stores, and 409 for
  usernames;
- a repeated id in `tag_ids` links the pair once: `Tag.query.get` returns the
  same identity-mapped tag and the relationship keeps one pair, as the
  model's link set does.

## Model

| member | source | states |
|---|---|---|
| `Tables.First` | prakt5.py:138 | `.first()` finds nothing exactly when no row matches; otherwise it returns a matching key, the least one |
| `Tables.RowsEnumerate` | prakt3.py:69-71 | `query.all()` lists every row of the table exactly once, and nothing else, in ascending id order |
| `Tables.InsertKeepsUnique` | prakt5.py:161-171 | inserting a row under a fresh id, when its unique column value is not yet taken, keeps that column unique |
| `Tables.UniqueMatch` | prakt5.py:33 | under a unique column, at most one row matches a value, so `.first()` finds the only one |
| `Tables.NoMatch` | prakt5.py:138-140 | the filter matches no key exactly when no row holds the value |
| `Prakt3.Database.constructor` | prakt3.py:133-134 | the tables start empty and valid |
| `Prakt3.Database.GetProduct` | prakt3.py:54-58 | 404 with no body exactly when no product has the title; otherwise 200 with that product's row |
| `Prakt3.Database.DeleteProduct` | prakt3.py:60-65 | always 200; removes exactly the products with the title, so none is left and a second delete changes nothing; shops untouched |
| `Prakt3.Database.ListProducts` | prakt3.py:69-71 | 200 with exactly the current products, each once |
| `Prakt3.Database.PostProduct` | prakt3.py:73-86 | a missing field gives 400 and no change; a taken title gives 400 and no change; otherwise exactly one product is added under a fresh id, with 201; titles stay unique |
| `Prakt3.Database.GetShop` | prakt3.py:90-94 | 404 exactly when no shop has the title; otherwise 200 with that shop's row |
| `Prakt3.Database.DeleteShop` | prakt3.py:96-101 | always 200; removes exactly the shops with the title, so a second delete changes nothing; products untouched |
| `Prakt3.Database.ListShops` | prakt3.py:105-107 | 200 with exactly the current shops, each once |
| `Prakt3.Database.PostShop` | prakt3.py:109-122 | a missing title or a taken title gives 400 and no change; otherwise exactly one shop is added with 201; titles stay unique |
| `Prakt4.Database.constructor` | prakt4.py:123-124 | the tables start empty and valid |
| `Prakt4.Database.GetStore` | prakt4.py:57-59 | 200 with the store exactly when the id is present, else 404 |
| `Prakt4.Database.DeleteStore` | prakt4.py:61-65 | an absent id gives 404 and no change; a present id removes only that store, with 200; items untouched |
| `Prakt4.Database.PostStore` | prakt4.py:69-77 | a missing name gives 422; a taken name gives 400; in both cases nothing changes; otherwise one store is added with 201; names stay unique |
| `Prakt4.Database.ListStores` | prakt4.py:79-81 | 200 with exactly the current stores, each once |
| `Prakt4.Database.GetItem` | prakt4.py:85-87 | 200 with the item exactly when the id is present, else 404 |
| `Prakt4.Database.DeleteItem` | prakt4.py:89-93 | an absent id gives 404 and no change; a present id removes only that item, with 200; stores untouched |
| `Prakt4.Database.PutItem` | prakt4.py:95-102 | an incomplete body gives 422 and an absent id gives 404, with no change; otherwise name and price take the supplied value or keep the old one, `store_id` and every other item are unchanged, with 200 |
| `Prakt4.Database.PostItem` | prakt4.py:106-114 | an incomplete body gives 422; a `store_id` naming no store gives 400; in both cases nothing changes; otherwise exactly one item is added with that `store_id`, with 201 |
| `Prakt4.Database.ListItems` | prakt4.py:116-118 | 200 with exactly the current items, each once |
| `Prakt5.Database.constructor` | prakt5.py:269-270 | the tables and the link set start empty and valid |
| `Prakt5.Database.Register` | prakt5.py:99-116 | a missing field gives 400; a taken username gives 409; in both cases nothing changes; otherwise exactly one user is added, storing `hash(password)`, with 201; usernames stay unique |
| `Prakt5.Database.Login` | prakt5.py:118-131 | a missing field gives 400; 200 exactly when some user has the username and `check` accepts the password against the stored hash, and then the token is bound to that user; otherwise 401 |
| `Prakt5.RegisteredUserCanLogIn` | prakt5.py:110-131 | a user stored with `hash(p)` logs in with `p` and gets a token for their own id, given `check(hash(p), p)` |
| `Prakt5.WrongPasswordIsRejected` | prakt5.py:126-128 | a password the stored hash rejects gets 401 |
| `Prakt5.RegisterThenLogIn` | prakt5.py:99-131 | registering a fresh username and then logging in with the same body yields 200 and a token for the new user, whose stored password is `hash(password)`; a taken username yields 409; nothing else can answer |
| `Prakt5.LinkTwice` | prakt5.py:241-248 | linking a pair twice gives the same status both times and the same link set as linking once |
| `Prakt5.UnlinkTwice` | prakt5.py:250-256 | unlinking a pair twice gives the same status both times and the same link set as unlinking once |
| `Prakt5.Database.ProductNamed` | prakt5.py:243 | the product lookup by title finds nothing exactly when no product has the title, otherwise a product with it |
| `Prakt5.Database.GetProduct` | prakt5.py:137-141 | 401 without a token; 404 exactly when no product has the title; otherwise 200 with the product and exactly the tags linked to it |
| `Prakt5.Database.DeleteProduct` | prakt5.py:143-148 | 401 without a token and no change; otherwise 200 and exactly the products with the title are gone, so a second delete changes nothing |
| `Prakt5.Database.ListProducts` | prakt5.py:150-152 | 401 without a token; otherwise 200 with every product exactly once, each with exactly its linked tags |
| `Prakt5.Database.ResolveTagIds` | prakt5.py:164-169 | the ids kept are exactly the listed ids that name an existing tag |
| `Prakt5.Database.PostProduct` | prakt5.py:154-173 | 401, a missing field (400) or a taken title (400) change nothing; otherwise one product is added under a fresh id; its tags are exactly the listed `tag_ids` that exist, none when there are none; unknown ids are skipped; 201 |
| `Prakt5.Database.GetShop` | prakt5.py:175-180 | 401 without a token; 404 exactly when no shop has the title; otherwise 200 with that shop |
| `Prakt5.Database.DeleteShop` | prakt5.py:182-187 | 401 and no change without a token; otherwise 200 and exactly the shops with the title are gone |
| `Prakt5.Database.ListShops` | prakt5.py:189-191 | 401 without a token; otherwise 200 with exactly the current shops |
| `Prakt5.Database.PostShop` | prakt5.py:193-206 | 401, a missing title or a taken title change nothing; otherwise one shop is added with 201; titles stay unique |
| `Prakt5.Database.GetTag` | prakt5.py:208-213 | 401 without a token; 404 exactly when no tag has the name; otherwise 200 with that tag |
| `Prakt5.Database.DeleteTag` | prakt5.py:215-220 | 401 and no change without a token; otherwise 200 and exactly the tags with the name are gone |
| `Prakt5.Database.ListTags` | prakt5.py:222-224 | 401 without a token; otherwise 200 with exactly the current tags |
| `Prakt5.Database.PostTag` | prakt5.py:226-239 | 401, a missing name or a taken name change nothing; otherwise one tag is added with 201, linked to no product; names stay unique |
| `Prakt5.Database.Link` | prakt5.py:241-248 | 401 without a token; 404 with no change exactly when the title or the tag id does not resolve; otherwise 200 and the link set becomes the old one plus that pair, so linking twice is linking once and the pair is never duplicated |
| `Prakt5.Database.Unlink` | prakt5.py:250-256 | 401 without a token; 404 with no change exactly when either side is missing; otherwise 200 whether or not the pair was linked, the pair is absent afterwards and every other pair is untouched |

## Left out

- HTTP routing, JSON parsing and serialisation are not modelled. Message
  bodies (`{"message": ...}`, marshmallow's error maps, the 401 body of the
  JWT loader) are reduced to `body == None`.
- Schema validation beyond "the required fields are present" is not
  modelled (field types, `dump_only`/`load_only`). A body that is not JSON
  at all is folded into the same 400/422 answer.
- Prakt4.Database.PutItem: `ItemSchema` requires name, price and store_id,
  so through the route the keep-the-old-value fallback of lines 99-100 never
  fires. The model keeps both the 422 gate and the fallback as written.
- Prakt5.Database.GetProduct: the serialised product carries its tags but not
  the nested shop summary. Likewise prakt3 products carry no shop, and shops
  and stores carry no product or item lists. These are serialisation of
  related rows.
- Prakt5.Database.ListProducts: tags are a map by id, not the dump's list,
  whose order the dynamic relationship does not fix.
- Password hashing, salting, token signing, token expiry and the signing
  secret are foreign calls. They are parameters (`hash`, `check`) or reduced
  to the user id the token carries and the `authenticated` flag.
- Commit, rollback and transactions are not modelled, nor are concurrent
  requests. Each handler is one atomic step.
- Integrity errors raised at commit time (HTTP 500) are not modelled:
  - a duplicate item name in prakt4 (the handler does not check it; the model
    inserts the item);
  - deleting a shop or store that still has products or items (the ORM
    would null their foreign key).
- Foreign-key enforcement for `shop_id` is not modelled, because the code
  never checks it.
- Cascades are not modelled. Deleting a product or tag leaves its
  `product_tags` pairs in the model. `TagsOf` joins with the tags table, so a
  deleted tag is never shown. A deleted product's id is never handed out
  again.
- Ids come from a per-table counter. SQLite can reuse the largest rowid
  after it is deleted; the model only guarantees a fresh id.
- The float columns `cost` and `price` are opaque 64-bit values with no
  arithmetic.
- Bootstrap is not modelled: app configuration, OpenAPI/Swagger settings,
  `app.run`.
