# Products store, products service and gateway order routes

This project models three pieces of the nameko example shop.

- **The product store** (`StorageWrapper`). Product records are kept in Redis as hashes under the keys `products:<id>`. The store can read one record, list all records or ids, create a record, delete one, and lower the stock of a batch of products with one HINCRBY per product.
- **The products service.** `get` and `create` delegate to the store. The `order_created` handler turns the new order's lines into a `{product_id: quantity}` dict and passes it to the store's `decrement_stock`.
- **The gateway's order routes.** Reading an order fetches it from the orders service. Each line then gets a product snapshot, if the product exists, and an image URL. Creating an order first checks every product in turn, stops at the first missing one with a 404, and otherwise asks the orders service to create the order.

The Redis server is modelled as a keyspace `map<string, map<string, Value>>`, where a field holds either text or an integer. The model has the five commands the store uses:
- HGETALL;
- KEYS with `*` globs;
- HMSET;
- DEL;
- HINCRBY, where a missing key or field counts as 0 and a text field fails.

A Python dict is an insertion-ordered sequence of `(key, value)` pairs with distinct keys (`Dicts.Entries`).

`decrement_stock` is specified in two ways:
- `ProductStore.Applied` applies the entries one at a time, in the dict's order.
- `ProductStore.DecrementAll` applies the whole batch with no order, as a map over the keyspace.

`ProductStore.AppliedIsDecrementAll` proves the two agree.

The remote services of the gateway are functions in a `Services` value. Every gateway operation returns, beside its result, the remote calls it made, in order.

Where the code and its documentation disagree, the model follows the code:
- `handle_order_created` keeps the quantity of the last line for a repeated product; it does not sum the quantities.
- The gateway's 404 for an unknown product says `Product with id <id> not found`.

Modules: `Wrappers` (Option, Result), `Text` (prefixes, substrings, `str.replace` with an empty replacement), `Dicts`, `Redis`, `ProductStore`, `ProductsService`, `OrderRouter`.

## Model

| member | source | states |
|---|---|---|
| ProductStore.FormatKey | products/products/dependencies.py:27-28 | the key is `products:` followed by exactly the id |
| ProductStore.FormatKeyInjective | products/products/dependencies.py:27-28 | distinct ids get distinct keys |
| Text.RemoveAll | products/products/dependencies.py:39-40 | `str.replace(pattern, '')` never makes a string longer |
| Text.RemoveAllShrinks | products/products/dependencies.py:39-40 | a string in which the pattern occurs comes back strictly shorter |
| ProductStore.FormatIds | products/products/dependencies.py:39-40 | `_format_ids` leaves a key without `products:` as it is and strictly shortens every key that contains it |
| Text.RemoveAllAbsent | products/products/dependencies.py:39-40 | a string that does not contain the pattern is left as it is |
| Text.RemoveAllLeading | products/products/dependencies.py:39-40 | removing every occurrence also removes a leading occurrence |
| ProductStore.FormatIdsRoundTrip | products/products/dependencies.py:27-40 | `_format_ids(_format_key(id)) == id` exactly when `products:` does not occur inside the id |
| ProductStore.FormatIdsDropsInnerPrefix | products/products/dependencies.py:39-40 | the id `products:x` comes back as `x`: every occurrence is removed, not only the prefix |
| Redis.Match | products/products/dependencies.py:50 | KEYS glob matching for patterns whose only special character is `*`; a pattern without `*` matches only itself |
| Redis.MatchPrefixPattern | products/products/dependencies.py:50 | a glob `literal*` matches exactly the keys that begin with the literal |
| ProductStore.ProductPatternMatches | products/products/dependencies.py:50 | `products:*` matches exactly the keys that begin with `products:` |
| ProductStore.ProductKeys | products/products/dependencies.py:50 | the keys KEYS `products:*` returns are exactly the stored keys beginning with `products:` |
| ProductStore.FromHash | products/products/dependencies.py:30-37 | decoding succeeds exactly when the hash has the five fields with the right kinds, and then the record holds the hash's values; otherwise the error names the first field, in the order id, title, passenger_capacity, maximum_speed, in_stock, that is missing (MissingField) or of the wrong kind (BadField) |
| ProductStore.Lookup | products/products/dependencies.py:42-47 | NotFound with the message `Product ID <id> does not exist` exactly when the key has no hash; otherwise the result is the decoding of the stored hash (`_from_hash`), and a record returned is the one stored under the key |
| ProductStore.StorageWrapper.Get | products/products/dependencies.py:42-47 | `get` gives what `Lookup` specifies for the current store |
| ProductStore.StorageWrapper.List | products/products/dependencies.py:49-52 | one decoded record per `products:*` key, in the KEYS order; the error is the decoding error of the first key, in KEYS order, that does not decode |
| ProductStore.StorageWrapper.ListIds | products/products/dependencies.py:54-56 | one `{'id': ...}` entry per `products:*` key, each the key with the prefix text removed |
| ProductStore.ListedIds | products/products/dependencies.py:54-56 | an id is listed exactly when it is `_format_ids` of a stored key beginning with `products:` |
| ProductStore.ProductKeyListed | products/products/dependencies.py:54-56 | every stored key beginning with `products:` is listed |
| ProductStore.StoredIdIsListed | products/products/dependencies.py:54-56 | a stored product whose id does not contain `products:` is listed under its own id |
| ProductStore.NestedKeyListsUnknownId | products/products/dependencies.py:39-56 | a key `products:products:x` is listed as `x`, an id that `get` does not find |
| ProductStore.Stored | products/products/dependencies.py:59-62 | after `create(p)`, the key of `p.id` holds `p`'s five fields and, besides them, exactly the hash's old fields, with their values; every other key is kept |
| ProductStore.StorageWrapper.Create | products/products/dependencies.py:59-62 | HMSET of the record's five fields under its key; other fields of that hash and all other keys are kept |
| ProductStore.CreateThenGet | products/products/dependencies.py:42-62 | after `create(p)`, `get(p.id)` returns `p`, whatever was stored before |
| ProductStore.CreateKeepsOthers | products/products/dependencies.py:59-62 | `create` changes no other product |
| ProductStore.StorageWrapper.Delete | products/products/dependencies.py:64-69 | NotFound, with the store unchanged, exactly when the id is not among the listed ids; otherwise that one key is removed and DEL's count returned |
| ProductStore.DeleteThenGet | products/products/dependencies.py:64-69 | after a delete, `get` of the id is NotFound |
| ProductStore.DeleteKeepsOthers | products/products/dependencies.py:64-69 | a delete changes no other product |
| ProductStore.DeleteAsWritten | products/products/dependencies.py:66 | the delete as written always fails |
| ProductStore.DeleteAsWrittenRejectsListed | products/products/dependencies.py:64-69 | a just-created product is listed, yet the delete as written fails on it |
| Redis.Client.HGetAll | products/products/dependencies.py:43 | the empty hash exactly for an absent key; otherwise the stored hash |
| Redis.Client.Keys | products/products/dependencies.py:50 | every matching key exactly once |
| Redis.Client.HMSet | products/products/dependencies.py:60-62 | the given fields are set and the others kept |
| Redis.Client.Del | products/products/dependencies.py:69 | the key is gone and the count of removed keys is returned |
| Redis.Client.HIncrBy | products/products/dependencies.py:76 | fails, changing nothing, exactly when the field holds text; otherwise the field (0 when missing) is increased and its new value returned |
| ProductStore.DecrementAll | products/products/dependencies.py:71-81 | for every product in the batch its hash is lowered by its amount; every other key is kept |
| ProductStore.DecrementAllStep | products/products/dependencies.py:75-77 | adding one product to a batch changes the result at that product's key only |
| ProductStore.Applied | products/products/dependencies.py:73-78 | the entries applied one HINCRBY at a time, in the dict's order; no key is removed |
| ProductStore.AppliedKeys | products/products/dependencies.py:73-78 | the keys after the batch are the old keys plus the batch's product keys |
| ProductStore.AppliedIsDecrementAll | products/products/dependencies.py:73-78 | applying the entries one by one in the dict's order gives the order-free result |
| ProductStore.DecrementOrderIndependent | products/products/dependencies.py:73-78 | any order of the same entries leaves the same store |
| ProductStore.AppliedAt | products/products/dependencies.py:75-77 | after the batch, each product's hash is its old hash with the stock lowered by that product's amount |
| ProductStore.AppliedStock | products/products/dependencies.py:76 | each product's stock ends exactly its amount lower, with no floor |
| ProductStore.StockHasNoFloor | products/products/dependencies.py:76 | a stock of 1 lowered by 3 becomes -2 |
| ProductStore.DecrementMissingProduct | products/products/dependencies.py:71-81 | lowering the stock of a product that is not stored creates a hash with only `in_stock` (the negated amount), and `get` then fails on the missing `id` field, not with NotFound |
| ProductStore.FirstUndecrementable | products/products/dependencies.py:75-77 | the index of the first entry whose stock is not an integer: all before it are integers |
| ProductStore.LevelsMatchMeaning | products/products/dependencies.py:78 | the response holds, for each entry in order, the product id and its old stock minus its amount |
| ProductStore.LevelsKeys | products/products/dependencies.py:78 | the response has exactly the batch's products as keys, each once |
| ProductStore.StorageWrapper.DecrementStock | products/products/dependencies.py:71-81 | succeeds exactly when every stock is an integer, leaving the sequentially applied store and a response of the new levels; otherwise it fails at the first text stock, with the entries before it already committed |
| Dicts.Put | products/products/dependencies.py:78 | `d[k] = v` keeps the keys distinct, adds `k`, replaces in place or appends at the end |
| Dicts.PutLookup | products/products/dependencies.py:78 | after `d[k] = v`, `d[k]` is `v` |
| Dicts.PutLookupOther | products/products/service.py:45 | after `d[k] = v`, other keys are unchanged |
| Dicts.ToMap | products/products/dependencies.py:75 | the mapping a dict denotes has exactly the dict's keys |
| Dicts.ToMapAt | products/products/dependencies.py:75 | with distinct keys, every entry is what the dict gives for its key |
| Dicts.SameEntriesSameMap | products/products/dependencies.py:75 | two dicts with the same entries denote the same mapping, whatever their order |
| ProductsService.QuantitiesByProduct | products/products/service.py:44-45 | one entry per product id of the order's lines, each id once |
| ProductsService.LastQuantityWins | products/products/service.py:45 | a product's quantity is the one on the last line naming it |
| ProductsService.RepeatedProductNotSummed | products/products/service.py:45 | lines `p:2` then `p:3` give `{p: 3}`, not 5 |
| ProductStore.DecrementedTwice | products/products/service.py:42-46 | handling the same batch twice lowers each stock by twice its amount: there is no deduplication |
| ProductsService.ProductsService.Get | products/products/service.py:18-21 | the stored record, or the store's NotFound unchanged |
| ProductsService.ProductsService.Create | products/products/service.py:32-35 | the record is stored as `create` stores it |
| ProductsService.ProductsService.HandleOrderCreated | products/products/service.py:42-46 | one `decrement_stock` with the lines' quantities: it succeeds exactly when every listed stock is an integer, and the store ends as that call leaves it |
| OrderRouter.Enriched | gateapi/gateapi/api/routers/order.py:35-40 | a line keeps its product id and every other key; `image` is always the image URL; `product` is added, as `products.get` returns it, exactly when the product exists |
| OrderRouter.ImageUrl | gateapi/gateapi/api/routers/order.py:40 | the image URL is the image root, `/`, the product id and `.jpg` |
| OrderRouter.EnrichLine | gateapi/gateapi/api/routers/order.py:36-40 | one loop step gives the enriched line and asks `exist`, then `get` only if the product exists |
| OrderRouter.EnrichLines | gateapi/gateapi/api/routers/order.py:35-40 | the lines keep their number and order and each one is enriched |
| OrderRouter.ItemCallsAsk | gateapi/gateapi/api/routers/order.py:37 | enriching one line asks `exist` once, about that line's product |
| OrderRouter.EnrichCallsAskEachLine | gateapi/gateapi/api/routers/order.py:35-37 | reading an order asks `exist` once per line, in line order |
| OrderRouter.LineProductIds | gateapi/gateapi/api/routers/order.py:36 | the lines' product ids, in order |
| OrderRouter.FetchOrder | gateapi/gateapi/api/routers/order.py:24-42 | an orders-service error is returned after the one `get_order` call; otherwise the order keeps its id and its enriched lines in order |
| OrderRouter.GetOrderRoute | gateapi/gateapi/api/routers/order.py:14-22 | OrderNotFound becomes a 404 with the error's message; other errors pass through; a found order is returned enriched; the calls are `get_order` and, for a found order, one `exist` per line (and `get` for each existing product), in line order |
| OrderRouter.FirstMissing | gateapi/gateapi/api/routers/order.py:54-56 | the index of the first line whose product does not exist; all before it exist |
| OrderRouter.ExistChecks | gateapi/gateapi/api/routers/order.py:54-55 | one `exist` call per line, in line order |
| OrderRouter.FirstMissingAt | gateapi/gateapi/api/routers/order.py:54-59 | the checks stop at the first missing product |
| OrderRouter.MissingProductMessage | gateapi/gateapi/api/routers/order.py:58 | the 404 detail holds the product id between `Product with id ` and ` not found` |
| OrderRouter.SubmitOrder | gateapi/gateapi/api/routers/order.py:51-64 | fails with a 404 `Product with id <id> not found` exactly when a product is missing, after the checks up to and including it, and with no create; otherwise every product is checked in order and `create_order` is called once with the lines unchanged |
| OrderRouter.CreateOrderRoute | gateapi/gateapi/api/routers/order.py:44-49 | success is `{'id': <new id>}`; a missing product gives its 404; `create_order` is called exactly when it succeeds |

## Left out

- The `Storage` dependency provider, the Redis connection and the configuration (products/products/dependencies.py:84-90) are I/O and start-up.
- Redis pipelines and MULTI are not modelled. Each HINCRBY is applied to the store at once, as the `execute()` inside the loop commits it. Concurrent handlers are not modelled.
- Byte encoding is not modelled: a field keeps the type its writer gave it.
- ProductStore.FromHash: a text field that spells an integer is a malformed field here, while `int()` in the source would accept it; and an integer in `id` or `title` is a malformed field here, while the source decodes its digits as text.
- Redis.Client.HIncrBy: a text field that spells an integer counts as not an integer, and Redis's 64-bit overflow error is not modelled.
- ProductStore.StorageWrapper.List: the source is a generator that yields the records before a bad one; the model returns only the error.
- The `schemas` load and dump are taken as the identity on well-formed records; validation of incoming records is not modelled.
- `ProductsService.list`, `list_ids` and `delete` are thin pass-throughs and are not modelled separately. `delete` dumps an integer through the product schema, whose code is not part of this model.
- Gateway: FastAPI routing and dependency injection are not modelled, and nor is the lifetime of the RPC handle. The remote `exist`, `get` and `create_order` are total functions, so their own remote errors are not modelled. `exist` returns a boolean rather than any truthy value.
- OrderRouter.Order: keys of the order other than its id and lines are not modelled.
- The gateway service test file tests a separate service; its message `Product Id unknown` is not the router's.

## Findings

| source | as written | input that shows it | evidently intended | confidence | as-written member | corrected member |
|---|---|---|---|---|---|---|
| products/products/dependencies.py:66 | iterates `self.list_ids`, the bound method, without calling it, so every call raises a TypeError before the membership check | `create({'id': 'a', ...})` then `delete('a')` | `self.list_ids()`: NotFound for an unlisted id, otherwise the key is deleted | not executed | ProductStore.DeleteAsWritten (with ProductStore.DeleteAsWrittenRejectsListed) | ProductStore.StorageWrapper.Delete |
