/** The product store of the products service (`StorageWrapper` in
    products/products/dependencies.py): product records kept as Redis hashes
    under the keys `products:<id>`. */
module ProductStore {
  import opened Wrappers
  import opened Redis
  import Text
  import Dicts

  datatype Product = Product(
    id: string,
    title: string,
    passengerCapacity: int,
    maximumSpeed: int,
    inStock: int)

  datatype StoreError =
    /** `products.exceptions.NotFound`. */
    | NotFound(message: string)
    /** The KeyError `_from_hash` raises for a hash without one of the five fields. */
    | MissingField(field: string)
    /** Decoding a field that holds the other kind of value. */
    | BadField(field: string)
    /** A failed HINCRBY inside `decrement_stock`. */
    | CommandFailed(cause: Redis.Error)
    /** The TypeError of iterating an uncalled bound method. */
    | NotIterable

  const Prefix: string := "products:"

  /** `_format_key`: the store key of a product id. */
  function FormatKey(id: string): (key: string)
    ensures Text.HasPrefix(Prefix, key) && key[|Prefix|..] == id
  {
    Prefix + id
  }

  lemma FormatKeyInjective(a: string, b: string)
    requires FormatKey(a) == FormatKey(b)
    ensures a == b
  {
    assert a == FormatKey(a)[|Prefix|..];
  }

  /** `_format_ids`: the id shown for a key; every occurrence of the prefix is removed,
      so a key is shortened exactly when the prefix text occurs in it. */
  function FormatIds(key: string): (id: string)
    ensures !Text.Contains(key, Prefix) ==> id == key
    ensures Text.Contains(key, Prefix) ==> |id| < |key|
  {
    if Text.Contains(key, Prefix) then
      Text.RemoveAllShrinks(key, Prefix);
      Text.RemoveAll(key, Prefix)
    else
      Text.RemoveAllAbsent(key, Prefix);
      Text.RemoveAll(key, Prefix)
  }

  /** Stripping gives the id back exactly when the prefix text does not occur inside the id. */
  lemma FormatIdsRoundTrip(id: string)
    ensures FormatIds(FormatKey(id)) == id <==> !Text.Contains(id, Prefix)
  {
    Text.RemoveAllLeading(Prefix, id);
    if Text.Contains(id, Prefix) {
      Text.RemoveAllShrinks(id, Prefix);
    } else {
      Text.RemoveAllAbsent(id, Prefix);
    }
  }

  /** An id that contains the prefix text does not survive the round trip. */
  lemma FormatIdsDropsInnerPrefix()
    ensures FormatIds(FormatKey("products:x")) == "x"
  {
    Text.RemoveAllLeading(Prefix, "products:x");
    Text.RemoveAllLeading(Prefix, "x");
  }

  /** The KEYS pattern `_format_key('*')`. */
  const ProductPattern: string := FormatKey("*")

  lemma ProductPatternMatches(key: string)
    ensures Match(ProductPattern, key) <==> Text.HasPrefix(Prefix, key)
  {
    MatchPrefixPattern(Prefix, key);
  }

  lemma ProductPatternMatchesAll()
    ensures forall k :: Match(ProductPattern, k) <==> Text.HasPrefix(Prefix, k)
  {
    forall k ensures Match(ProductPattern, k) <==> Text.HasPrefix(Prefix, k) {
      ProductPatternMatches(k);
    }
  }

  /** The keys KEYS `products:*` returns: the stored keys that begin with the prefix. */
  function ProductKeys(db: Store): (keys: set<string>)
    ensures forall k :: k in keys <==> k in db && Text.HasPrefix(Prefix, k)
  {
    ProductPatternMatchesAll();
    set k | k in db && Match(ProductPattern, k)
  }

  /** The ids `list_ids` reports: each stored key that begins with the prefix, stripped. */
  function ListedIds(db: Store): (ids: set<string>)
    ensures forall x :: x in ids <==> exists k :: k in db && Text.HasPrefix(Prefix, k) && FormatIds(k) == x
  {
    set k | k in ProductKeys(db) :: FormatIds(k)
  }

  /** The mapping HMSET receives from `create`. */
  function ToHash(p: Product): Hash
  {
    map["id" := Str(p.id), "title" := Str(p.title),
        "passenger_capacity" := Int(p.passengerCapacity),
        "maximum_speed" := Int(p.maximumSpeed), "in_stock" := Int(p.inStock)]
  }

  /** The five fields of `p` are all in `h`, with the values `p` gives them. */
  predicate HoldsRecord(h: Hash, p: Product)
  {
    forall f :: f in ToHash(p) ==> f in h && h[f] == ToHash(p)[f]
  }

  function TextField(h: Hash, name: string): Result<string, StoreError>
  {
    if name !in h then Err(MissingField(name))
    else match h[name]
      case Str(s) => Ok(s)
      case Int(_) => Err(BadField(name))
  }

  function IntField(h: Hash, name: string): Result<int, StoreError>
  {
    if name !in h then Err(MissingField(name))
    else match h[name]
      case Int(n) => Ok(n)
      case Str(_) => Err(BadField(name))
  }

  /** The five fields of a record, in the order `_from_hash` reads them. */
  const RecordFields: seq<string> := ["id", "title", "passenger_capacity", "maximum_speed", "in_stock"]

  /** Field `i` of the record is in the hash with its kind: text for the first two, an integer for the rest. */
  predicate FieldOk(h: Hash, i: int)
    requires 0 <= i < |RecordFields|
  {
    RecordFields[i] in h && (if i < 2 then h[RecordFields[i]].Str? else h[RecordFields[i]].Int?)
  }

  /** The index of the first field, in reading order, that is missing or of the wrong kind. */
  function FirstBadField(h: Hash): (i: nat)
    ensures i <= |RecordFields|
    ensures forall j :: 0 <= j < i ==> FieldOk(h, j)
    ensures i < |RecordFields| ==> !FieldOk(h, i)
  {
    if !FieldOk(h, 0) then 0
    else if !FieldOk(h, 1) then 1
    else if !FieldOk(h, 2) then 2
    else if !FieldOk(h, 3) then 3
    else if !FieldOk(h, 4) then 4
    else 5
  }

  /** The hash holds the five fields, the two text fields as text and the three counts as integers. */
  predicate IsRecord(h: Hash)
  {
    FirstBadField(h) == |RecordFields|
  }

  /** `_from_hash`: reads the five fields in the order the source names them. */
  function FromHash(h: Hash): (r: Result<Product, StoreError>)
    ensures r.Ok? <==> IsRecord(h)
    ensures r.Ok? ==> HoldsRecord(h, r.value)
    ensures r.Err? ==> r.error.MissingField? || r.error.BadField?
    ensures r.Err? ==> FirstBadField(h) < |RecordFields| && r.error.field == RecordFields[FirstBadField(h)]
    ensures r.Err? && r.error.MissingField? ==> r.error.field !in h
    ensures r.Err? && r.error.BadField? ==> r.error.field in h
  {
    var id :- TextField(h, "id");
    var title :- TextField(h, "title");
    var capacity :- IntField(h, "passenger_capacity");
    var speed :- IntField(h, "maximum_speed");
    var stock :- IntField(h, "in_stock");
    var p := Product(id, title, capacity, speed, stock);
    assert HoldsRecord(h, p);
    Ok(p)
  }

  function NotFoundMessage(id: string): string
  {
    "Product ID " + id + " does not exist"
  }

  /** `get`: the record stored under the id's key. */
  function Lookup(db: Store, id: string): (r: Result<Product, StoreError>)
    ensures r == Err(NotFound(NotFoundMessage(id))) <==> HashAt(db, FormatKey(id)) == map[]
    ensures r.Ok? ==> FormatKey(id) in db && HoldsRecord(db[FormatKey(id)], r.value)
    ensures HashAt(db, FormatKey(id)) != map[] ==> r == FromHash(HashAt(db, FormatKey(id)))
  {
    var h := HashAt(db, FormatKey(id));
    if h == map[] then Err(NotFound(NotFoundMessage(id))) else FromHash(h)
  }

  /** The store after `create(p)`: the product's hash holds its record, the hash's
      other fields and every other key are kept. */
  function Stored(db: Store, p: Product): (r: Store)
    ensures r.Keys == db.Keys + {FormatKey(p.id)}
    ensures r[FormatKey(p.id)].Keys == HashAt(db, FormatKey(p.id)).Keys + ToHash(p).Keys
    ensures HoldsRecord(r[FormatKey(p.id)], p)
    ensures forall f :: f in HashAt(db, FormatKey(p.id)) && f !in ToHash(p) ==>
              f in r[FormatKey(p.id)] && r[FormatKey(p.id)][f] == HashAt(db, FormatKey(p.id))[f]
    ensures forall k :: k in db && k != FormatKey(p.id) ==> r[k] == db[k]
  {
    db[FormatKey(p.id) := HashAt(db, FormatKey(p.id)) + ToHash(p)]
  }

  /** Reading a product back after creating it gives the product, whatever was stored before. */
  lemma CreateThenGet(db: Store, p: Product)
    ensures Lookup(Stored(db, p), p.id) == Ok(p)
  {
    var h := HashAt(db, FormatKey(p.id)) + ToHash(p);
    assert h["id"] == Str(p.id) && h["title"] == Str(p.title);
    assert h["passenger_capacity"] == Int(p.passengerCapacity) && h["maximum_speed"] == Int(p.maximumSpeed);
    assert h["in_stock"] == Int(p.inStock);
  }

  /** Creating a product leaves every other product as it was. */
  lemma CreateKeepsOthers(db: Store, p: Product, id: string)
    requires id != p.id
    ensures Lookup(Stored(db, p), id) == Lookup(db, id)
  {
    if FormatKey(id) == FormatKey(p.id) {
      FormatKeyInjective(id, p.id);
    }
  }

  /** The in-stock counter `decrement_stock` starts from for an id. */
  function StockBefore(db: Store, id: string): Option<int>
  {
    CounterAt(HashAt(db, FormatKey(id)), "in_stock")
  }

  /** The hash at an id's key after HINCRBY lowered its stock by `amount`; a
      stock that is not an integer makes the command fail and leaves the hash alone. */
  function Lowered(db: Store, id: string, amount: int): Hash
  {
    var h := HashAt(db, FormatKey(id));
    match CounterAt(h, "in_stock")
    case Some(n) => h["in_stock" := Int(n - amount)]
    case None => h
  }

  /** The key names a product of the batch `m`. */
  predicate KeyOfBatch(k: string, m: map<string, int>)
  {
    Text.HasPrefix(Prefix, k) && k[|Prefix|..] in m
  }

  /** The keys of the products in the batch `m`. */
  function BatchKeys(m: map<string, int>): (keys: set<string>)
    ensures forall k :: k in keys <==> KeyOfBatch(k, m)
  {
    var keys := set id | id in m :: FormatKey(id);
    assert forall k :: KeyOfBatch(k, m) ==> k == FormatKey(k[|Prefix|..]);
    keys
  }

  /** The store after every product in `m` had its stock lowered by its amount. */
  function DecrementAll(db: Store, m: map<string, int>): (r: Store)
    ensures r.Keys == db.Keys + BatchKeys(m)
    ensures forall id :: id in m ==> FormatKey(id) in r && r[FormatKey(id)] == Lowered(db, id, m[id])
    ensures forall k :: k in db && !KeyOfBatch(k, m) ==> r[k] == db[k]
  {
    map k | k in db.Keys + BatchKeys(m) ::
      if KeyOfBatch(k, m) then Lowered(db, k[|Prefix|..], m[k[|Prefix|..]]) else db[k]
  }

  /** Adding one more product to a batch changes the resulting store at that product's key only. */
  lemma {:induction false} DecrementAllStep(db: Store, m: map<string, int>, id: string, amount: int)
    requires id !in m
    ensures DecrementAll(db, m[id := amount])
            == DecrementAll(db, m)[FormatKey(id) := Lowered(db, id, amount)]
  {
    var m' := m[id := amount];
    var lhs := DecrementAll(db, m');
    var before := DecrementAll(db, m);
    var rhs := before[FormatKey(id) := Lowered(db, id, amount)];
    forall k | k in lhs ensures k in rhs && lhs[k] == rhs[k] {
      if k == FormatKey(id) {
      } else if KeyOfBatch(k, m') {
        var x := k[|Prefix|..];
        assert k == FormatKey(x) && x in m;
      }
    }
    forall k | k in rhs ensures k in lhs {
    }
  }

  /** After the batch, each of its products' hashes is its old hash with the stock lowered
      by that product's amount (or, for a stock that is not an integer, the old hash). */
  lemma {:induction false} AppliedAt(db: Store, quantities: Dicts.Entries<int>, i: int)
    requires Dicts.UniqueKeys(quantities) && 0 <= i < |quantities|
    ensures var (id, amount) := quantities[i];
            HashAt(Applied(db, quantities), FormatKey(id)) == Lowered(db, id, amount)
    decreases |quantities|
  {
    var n := |quantities|;
    if i < n - 1 {
      var init := quantities[..n - 1];
      Dicts.PrefixUnique(quantities, n - 1);
      assert init[i] == quantities[i];
      AppliedAt(db, init, i);
    }
  }

  /** Each product of the batch has its counter lowered by exactly its amount, with no floor. */
  lemma AppliedStock(db: Store, quantities: Dicts.Entries<int>, i: int)
    requires Dicts.UniqueKeys(quantities) && 0 <= i < |quantities|
    requires StockBefore(db, quantities[i].0).Some?
    ensures StockBefore(Applied(db, quantities), quantities[i].0)
            == Some(StockBefore(db, quantities[i].0).value - quantities[i].1)
  {
    AppliedAt(db, quantities, i);
  }

  /** Applying the same batch twice lowers each of its products' counters twice. */
  lemma DecrementedTwice(db: Store, quantities: Dicts.Entries<int>, i: int)
    requires Dicts.UniqueKeys(quantities) && 0 <= i < |quantities|
    requires StockBefore(db, quantities[i].0).Some?
    ensures StockBefore(Applied(Applied(db, quantities), quantities), quantities[i].0)
            == Some(StockBefore(db, quantities[i].0).value - 2 * quantities[i].1)
  {
    AppliedStock(db, quantities, i);
    AppliedStock(Applied(db, quantities), quantities, i);
  }

  /** No floor: a stock of 1 lowered by 3 becomes -2. */
  lemma StockHasNoFloor()
    ensures var db := Stored(map[], Product("p", "t", 1, 1, 1));
            StockBefore(Applied(db, [("p", 3)]), "p") == Some(-2)
  {
    var db := Stored(map[], Product("p", "t", 1, 1, 1));
    assert StockBefore(db, "p") == Some(1);
    AppliedStock(db, [("p", 3)], 0);
  }

  /** HINCRBY on a product that is not stored creates a hash holding only `in_stock`;
      `get` then fails on the missing `id` field rather than with NotFound. */
  lemma DecrementMissingProduct(db: Store, quantities: Dicts.Entries<int>, i: int)
    requires Dicts.UniqueKeys(quantities) && 0 <= i < |quantities|
    requires FormatKey(quantities[i].0) !in db
    ensures StockBefore(Applied(db, quantities), quantities[i].0) == Some(-quantities[i].1)
    ensures Lookup(Applied(db, quantities), quantities[i].0) == Err(MissingField("id"))
  {
    AppliedAt(db, quantities, i);
    var h := HashAt(Applied(db, quantities), FormatKey(quantities[i].0));
    assert h == map["in_stock" := Int(-quantities[i].1)];
  }

  /** Applying a batch in any order of its entries leaves the same store. */
  lemma DecrementOrderIndependent(db: Store, q1: Dicts.Entries<int>, q2: Dicts.Entries<int>)
    requires Dicts.UniqueKeys(q1) && Dicts.UniqueKeys(q2)
    requires forall e :: e in q1 <==> e in q2
    ensures Applied(db, q1) == Applied(db, q2)
  {
    AppliedIsDecrementAll(db, q1);
    AppliedIsDecrementAll(db, q2);
    Dicts.SameEntriesSameMap(q1, q2);
  }

  /** Every stored key that begins with the prefix is listed, under the key with the prefix text removed. */
  lemma ProductKeyListed(db: Store, key: string)
    requires key in db && Text.HasPrefix(Prefix, key)
    ensures key in ProductKeys(db) && FormatIds(key) in ListedIds(db)
  {
    ProductPatternMatches(key);
  }

  /** A stored product whose id does not contain the prefix text is listed under its own id. */
  lemma StoredIdIsListed(db: Store, id: string)
    requires FormatKey(id) in db && !Text.Contains(id, Prefix)
    ensures id in ListedIds(db)
  {
    ProductKeyListed(db, FormatKey(id));
    FormatIdsRoundTrip(id);
  }

  /** A key `products:products:x` is listed as `x`, an id that `get` does not find. */
  lemma NestedKeyListsUnknownId()
    ensures var db := map["products:products:x" := map["id" := Str("products:x")]];
            "x" in ListedIds(db) && Lookup(db, "x") == Err(NotFound(NotFoundMessage("x")))
  {
    var db := map["products:products:x" := map["id" := Str("products:x")]];
    assert FormatKey("products:x") == "products:products:x";
    ProductKeyListed(db, FormatKey("products:x"));
    FormatIdsDropsInnerPrefix();
    assert FormatKey("x") !in db;
  }

  /** After a delete, `get` of that id fails with NotFound. */
  lemma DeleteThenGet(db: Store, id: string)
    ensures Lookup(db - {FormatKey(id)}, id) == Err(NotFound(NotFoundMessage(id)))
  {
  }

  /** A delete leaves every other product as it was. */
  lemma DeleteKeepsOthers(db: Store, id: string, other: string)
    requires other != id
    ensures Lookup(db - {FormatKey(id)}, other) == Lookup(db, other)
  {
    if FormatKey(other) == FormatKey(id) {
      FormatKeyInjective(other, id);
    }
  }

  /** `delete` as written fails on a product that was just created, although its id is listed. */
  lemma DeleteAsWrittenRejectsListed(db: Store, p: Product)
    requires !Text.Contains(p.id, Prefix)
    ensures p.id in ListedIds(Stored(db, p))
    ensures DeleteAsWritten(Stored(db, p), p.id) == Err(NotIterable)
  {
    StoredIdIsListed(Stored(db, p), p.id);
  }

  /** The index of the first entry whose product's stock is not an integer, or the entry count. */
  function FirstUndecrementable(db: Store, entries: Dicts.Entries<int>): (n: nat)
    ensures n <= |entries|
    ensures forall j :: 0 <= j < n ==> StockBefore(db, entries[j].0).Some?
    ensures n < |entries| ==> StockBefore(db, entries[n].0).None?
  {
    if entries == [] then 0
    else if StockBefore(db, entries[0].0).None? then 0
    else 1 + FirstUndecrementable(db, entries[1..])
  }

  /** `response_dict` of a successful call: each product, in input order, with its new stock. */
  predicate NewStockLevels(db: Store, quantities: Dicts.Entries<int>, response: Dicts.Entries<int>)
  {
    && |response| == |quantities|
    && forall i :: 0 <= i < |quantities| ==>
         StockBefore(db, quantities[i].0).Some? &&
         response[i] == (quantities[i].0, StockBefore(db, quantities[i].0).value - quantities[i].1)
  }

  /** `list_ids` entry: `{'id': ...}`. */
  datatype IdEntry = IdEntry(id: string)

  /** `delete` as the source has it: line 66 iterates `self.list_ids` without calling
      it, which raises before the membership check. */
  function DeleteAsWritten(db: Store, id: string): (r: Result<int, StoreError>)
    ensures r.Err?
  {
    Err(NotIterable)
  }

  class StorageWrapper {
    const client: Client

    constructor (client: Client)
      ensures this.client == client
    {
      this.client := client;
    }

    method Get(id: string) returns (r: Result<Product, StoreError>)
      requires client.Valid()
      ensures r == Lookup(client.data, id)
    {
      var h := client.HGetAll(FormatKey(id));
      if h == map[] {
        return Err(NotFound(NotFoundMessage(id)));
      }
      r := FromHash(h);
    }

    /** `list`: one decoded record per product key, in the order KEYS gave the keys (also returned). */
    method List() returns (r: Result<seq<Product>, StoreError>, keys: seq<string>)
      requires client.Valid()
      ensures forall i, j :: 0 <= i < j < |keys| ==> keys[i] != keys[j]
      ensures forall k :: k in keys <==> k in ProductKeys(client.data)
      ensures r.Ok? ==>
                && |r.value| == |keys|
                && forall i :: 0 <= i < |keys| ==> FromHash(HashAt(client.data, keys[i])) == Ok(r.value[i])
      ensures r.Err? ==>
                exists i :: 0 <= i < |keys| && FromHash(HashAt(client.data, keys[i])) == Err(r.error)
                  && forall j :: 0 <= j < i ==> FromHash(HashAt(client.data, keys[j])).Ok?
    {
      var ks := client.Keys(ProductPattern);
      keys := ks;
      var products := [];
      var i := 0;
      while i < |ks|
        invariant 0 <= i <= |ks|
        invariant |products| == i
        invariant forall j :: 0 <= j < i ==> FromHash(HashAt(client.data, ks[j])) == Ok(products[j])
      {
        var h := client.HGetAll(ks[i]);
        var p := FromHash(h);
        if p.Err? {
          assert FromHash(HashAt(client.data, keys[i])) == Err(p.error);
          return Err(p.error), keys;
        }
        products := products + [p.value];
        i := i + 1;
      }
      r := Ok(products);
    }

    /** `list_ids`: one `{'id': ...}` per product key (the keys also returned), the id being the key with the prefix removed. */
    method ListIds() returns (ids: seq<IdEntry>, keys: seq<string>)
      ensures forall i, j :: 0 <= i < j < |keys| ==> keys[i] != keys[j]
      ensures forall k :: k in keys <==> k in ProductKeys(client.data)
      ensures |ids| == |keys|
      ensures forall i :: 0 <= i < |keys| ==> ids[i] == IdEntry(FormatIds(keys[i]))
    {
      var ks := client.Keys(ProductPattern);
      keys := ks;
      ids := [];
      var i := 0;
      while i < |ks|
        invariant 0 <= i <= |ks|
        invariant |ids| == i
        invariant forall j :: 0 <= j < i ==> ids[j] == IdEntry(FormatIds(ks[j]))
      {
        ids := ids + [IdEntry(FormatIds(ks[i]))];
        i := i + 1;
      }
    }

    /** `create`: HMSET of the record under its key. */
    method Create(p: Product)
      requires client.Valid()
      modifies client
      ensures client.Valid()
      ensures client.data == Stored(old(client.data), p)
    {
      assert "id" in ToHash(p);
      client.HMSet(FormatKey(p.id), ToHash(p));
    }

    /** `delete` with `list_ids()` called, as the code evidently means: the id must be
        among the listed ids, and then its key is deleted. */
    method Delete(id: string) returns (r: Result<int, StoreError>)
      requires client.Valid()
      modifies client
      ensures client.Valid()
      ensures r.Err? <==> id !in ListedIds(old(client.data))
      ensures r.Err? ==> r.error == NotFound(NotFoundMessage(id)) && client.data == old(client.data)
      ensures r.Ok? ==>
                && r.value == (if FormatKey(id) in old(client.data) then 1 else 0)
                && client.data == old(client.data) - {FormatKey(id)}
    {
      var entries, keys := ListIds();
      var listed := set e | e in entries :: e.id;
      assert listed == ListedIds(client.data) by {
        forall x | x in ListedIds(client.data) ensures x in listed {
          var k :| k in ProductKeys(client.data) && FormatIds(k) == x;
          var i :| 0 <= i < |keys| && keys[i] == k;
          assert entries[i].id == x;
        }
      }
      if id !in listed {
        return Err(NotFound(NotFoundMessage(id)));
      }
      var removed := client.Del(FormatKey(id));
      r := Ok(removed);
    }

    /** `decrement_stock`: one HINCRBY per entry, in the dict's order, each committed on its own. */
    method DecrementStock(quantities: Dicts.Entries<int>) returns (r: Result<Dicts.Entries<int>, StoreError>)
      requires client.Valid() && Dicts.UniqueKeys(quantities)
      modifies client
      ensures client.Valid()
      ensures var n := FirstUndecrementable(old(client.data), quantities);
              && (r.Ok? <==> n == |quantities|)
              && (r.Ok? ==>
                    && client.data == Applied(old(client.data), quantities)
                    && NewStockLevels(old(client.data), quantities, r.value))
              && (r.Err? ==>
                    && r.error == CommandFailed(NotAnInteger(FormatKey(quantities[n].0), "in_stock"))
                    && client.data == Applied(old(client.data), quantities[..n]))
    {
      ghost var db := client.data;
      var response: Dicts.Entries<int> := [];
      var i := 0;
      while i < |quantities|
        invariant 0 <= i <= |quantities| && client.Valid()
        invariant i <= FirstUndecrementable(db, quantities)
        invariant client.data == Applied(db, quantities[..i])
        invariant LevelsMatch(db, quantities[..i], response)
      {
        var id, amount := quantities[i].0, quantities[i].1;
        DecrementPrefixUnchanged(db, quantities, i);
        var x := client.HIncrBy(FormatKey(id), "in_stock", -amount);
        if x.Err? {
          DecrementStopped(db, quantities, i);
          return Err(CommandFailed(x.error));
        }
        DecrementPrefixStep(db, quantities, i, response);
        assert x.value == StockBefore(db, id).value - amount;
        response := Dicts.Put(response, id, x.value);
        i := i + 1;
      }
      DecrementFinished(db, quantities, i, response);
      r := Ok(response);
    }
  }

  /** The facts `decrement_stock` reports when entry `i` is the first that fails. */
  lemma DecrementStopped(db: Store, quantities: Dicts.Entries<int>, i: int)
    requires Dicts.UniqueKeys(quantities) && 0 <= i < |quantities|
    requires i <= FirstUndecrementable(db, quantities)
    requires StockBefore(db, quantities[i].0).None?
    ensures FirstUndecrementable(db, quantities) == i
  {
    FirstUndecrementableAt(db, quantities, i);
  }

  /** The facts `decrement_stock` reports once every entry has been applied. */
  lemma DecrementFinished(db: Store, quantities: Dicts.Entries<int>, i: int, response: Dicts.Entries<int>)
    requires Dicts.UniqueKeys(quantities) && i == |quantities|
    requires LevelsMatch(db, quantities[..i], response)
    ensures quantities[..i] == quantities
    ensures NewStockLevels(db, quantities, response)
  {
    assert quantities[..i] == quantities;
    LevelsMatchMeaning(db, quantities, response);
  }

  /** The store after the first entries of `decrement_stock` were applied one at a time;
      no key is removed. */
  function Applied(db: Store, quantities: Dicts.Entries<int>): (r: Store)
    ensures db.Keys <= r.Keys
    decreases |quantities|
  {
    if quantities == [] then db
    else
      var n := |quantities|;
      Applied(db, quantities[..n - 1])[FormatKey(quantities[n - 1].0) := Lowered(db, quantities[n - 1].0, quantities[n - 1].1)]
  }

  /** Applying the entries one at a time, in the dict's order, gives the order-free DecrementAll. */
  lemma {:induction false} AppliedIsDecrementAll(db: Store, quantities: Dicts.Entries<int>)
    requires Dicts.UniqueKeys(quantities)
    ensures Applied(db, quantities) == DecrementAll(db, Dicts.ToMap(quantities))
    decreases |quantities|
  {
    if quantities == [] {
      assert DecrementAll(db, map[]) == db;
    } else {
      var n := |quantities|;
      var init := quantities[..n - 1];
      Dicts.PrefixUnique(quantities, n - 1);
      AppliedIsDecrementAll(db, init);
      Dicts.PrefixFresh(quantities, n - 1);
      Dicts.PrefixSnoc(quantities, n - 1);
      assert quantities[..n] == quantities;
      DecrementAllStep(db, Dicts.ToMap(init), quantities[n - 1].0, quantities[n - 1].1);
    }
  }

  /** `decrement_stock` removes no key, and the keys it adds are the batch's product keys. */
  lemma AppliedKeys(db: Store, quantities: Dicts.Entries<int>)
    requires Dicts.UniqueKeys(quantities)
    ensures Applied(db, quantities).Keys == db.Keys + BatchKeys(Dicts.ToMap(quantities))
  {
    AppliedIsDecrementAll(db, quantities);
  }

  /** Before entry `i` is applied, its product's hash is as it was at the start. */
  lemma DecrementPrefixUnchanged(db: Store, quantities: Dicts.Entries<int>, i: int)
    requires Dicts.UniqueKeys(quantities) && 0 <= i < |quantities|
    ensures HashAt(Applied(db, quantities[..i]), FormatKey(quantities[i].0)) == HashAt(db, FormatKey(quantities[i].0))
  {
    var id := quantities[i].0;
    Dicts.PrefixUnique(quantities, i);
    AppliedIsDecrementAll(db, quantities[..i]);
    Dicts.PrefixFresh(quantities, i);
    assert !KeyOfBatch(FormatKey(id), Dicts.ToMap(quantities[..i]));
  }

  /** Applying entry `i` extends every loop fact of `decrement_stock` to the first `i + 1` entries. */
  lemma DecrementPrefixStep(db: Store, quantities: Dicts.Entries<int>, i: int, response: Dicts.Entries<int>)
    requires Dicts.UniqueKeys(quantities) && 0 <= i < |quantities|
    requires StockBefore(db, quantities[i].0).Some?
    requires LevelsMatch(db, quantities[..i], response)
    ensures Dicts.UniqueKeys(response)
    ensures var (id, amount) := quantities[i];
            var before := Applied(db, quantities[..i]);
            && Applied(db, quantities[..i + 1])
               == before[FormatKey(id) := HashAt(before, FormatKey(id))["in_stock" := Int(StockBefore(db, id).value - amount)]]
            && LevelsMatch(db, quantities[..i + 1], Dicts.Put(response, id, StockBefore(db, id).value - amount))
  {
    var (id, amount) := quantities[i];
    assert quantities[..i + 1][..i] == quantities[..i];
    DecrementPrefixUnchanged(db, quantities, i);
    Dicts.PrefixUnique(quantities, i);
    Dicts.PrefixFresh(quantities, i);
    LevelsKeys(db, quantities[..i], response);
    var next := Dicts.Put(response, id, StockBefore(db, id).value - amount);
    assert next == response + [(id, StockBefore(db, id).value - amount)];
    LevelsMatchSnoc(db, quantities, i, response);
  }

  /** The response holds the products of the entries, in their order. */
  lemma LevelsKeys(db: Store, quantities: Dicts.Entries<int>, response: Dicts.Entries<int>)
    requires Dicts.UniqueKeys(quantities)
    requires LevelsMatch(db, quantities, response)
    ensures Dicts.UniqueKeys(response)
    ensures Dicts.KeySet(response) == Dicts.KeySet(quantities)
  {
    LevelsMatchMeaning(db, quantities, response);
    assert forall j :: 0 <= j < |response| ==> response[j].0 == quantities[j].0;
    forall k | k in Dicts.KeySet(quantities) ensures k in Dicts.KeySet(response) {
      var j :| 0 <= j < |quantities| && quantities[j].0 == k;
      assert response[j].0 == k;
    }
  }

  /** NewStockLevels, stated entry by entry from the back. */
  predicate LevelsMatch(db: Store, quantities: Dicts.Entries<int>, response: Dicts.Entries<int>)
    decreases |quantities|
  {
    if quantities == [] then response == []
    else
      var n := |quantities|;
      && |response| == n
      && LevelsMatch(db, quantities[..n - 1], response[..n - 1])
      && StockBefore(db, quantities[n - 1].0).Some?
      && response[n - 1] == (quantities[n - 1].0, StockBefore(db, quantities[n - 1].0).value - quantities[n - 1].1)
  }

  lemma LevelsMatchSnoc(db: Store, quantities: Dicts.Entries<int>, i: int, response: Dicts.Entries<int>)
    requires 0 <= i < |quantities|
    requires LevelsMatch(db, quantities[..i], response)
    requires StockBefore(db, quantities[i].0).Some?
    ensures LevelsMatch(db, quantities[..i + 1],
      response + [(quantities[i].0, StockBefore(db, quantities[i].0).value - quantities[i].1)])
  {
    var grown := quantities[..i + 1];
    var next := response + [(quantities[i].0, StockBefore(db, quantities[i].0).value - quantities[i].1)];
    assert grown[..i] == quantities[..i];
    assert next[..i] == response by {
      if i > 0 { assert |response| == i; } else { assert response == []; }
    }
  }

  lemma {:induction false} LevelsMatchMeaning(db: Store, quantities: Dicts.Entries<int>, response: Dicts.Entries<int>)
    requires LevelsMatch(db, quantities, response)
    ensures NewStockLevels(db, quantities, response)
    decreases |quantities|
  {
    if quantities != [] {
      var n := |quantities|;
      LevelsMatchMeaning(db, quantities[..n - 1], response[..n - 1]);
      forall j | 0 <= j < n - 1
        ensures StockBefore(db, quantities[j].0).Some?
        ensures response[j] == (quantities[j].0, StockBefore(db, quantities[j].0).value - quantities[j].1)
      {
        assert quantities[..n - 1][j] == quantities[j];
        assert response[..n - 1][j] == response[j];
      }
    }
  }

  /** The first failing entry is the one FirstUndecrementable names. */
  lemma {:induction false} FirstUndecrementableAt(db: Store, entries: Dicts.Entries<int>, i: int)
    requires 0 <= i < |entries|
    requires forall j :: 0 <= j < i ==> StockBefore(db, entries[j].0).Some?
    requires StockBefore(db, entries[i].0).None?
    ensures FirstUndecrementable(db, entries) == i
  {
    if i > 0 {
      FirstUndecrementableAt(db, entries[1..], i - 1);
    }
  }
}
