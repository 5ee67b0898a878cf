/** The products RPC service (products/products/service.py): `get` and `create`
    delegate to the store, and the `order_created` handler lowers the stock of
    every product the new order names. */
module ProductsService {
  import opened Wrappers
  import opened Redis
  import Dicts
  import ProductStore

  /** One line of `payload['order']['order_details']`. */
  datatype OrderDetail = OrderDetail(productId: string, quantity: int)

  datatype EventOrder = EventOrder(orderDetails: seq<OrderDetail>)

  /** The `order_created` event payload. */
  datatype Payload = Payload(order: EventOrder)

  /** The product ids the lines name. */
  function ProductIds(details: seq<OrderDetail>): set<string>
  {
    set i | 0 <= i < |details| :: details[i].productId
  }

  lemma ProductIdsSnoc(details: seq<OrderDetail>)
    requires details != []
    ensures ProductIds(details) == ProductIds(details[..|details| - 1]) + {details[|details| - 1].productId}
  {
    var init := details[..|details| - 1];
    forall x | x in ProductIds(details) ensures x in ProductIds(init) + {details[|details| - 1].productId} {
      var i :| 0 <= i < |details| && details[i].productId == x;
      if i < |details| - 1 { assert init[i].productId == x; }
    }
  }

  /** The dict comprehension `{product_id: quantity}` over the lines: one entry per
      product, in order of first appearance, a later line overwriting an earlier one. */
  function QuantitiesByProduct(details: seq<OrderDetail>): (d: Dicts.Entries<int>)
    ensures Dicts.UniqueKeys(d)
    ensures Dicts.KeySet(d) == ProductIds(details)
  {
    if details == [] then []
    else
      var last := details[|details| - 1];
      ProductIdsSnoc(details);
      Dicts.Put(QuantitiesByProduct(details[..|details| - 1]), last.productId, last.quantity)
  }

  /** A product's quantity is the one on the last line naming it. */
  lemma {:induction false} LastQuantityWins(details: seq<OrderDetail>, i: int)
    requires 0 <= i < |details|
    requires forall j :: i < j < |details| ==> details[j].productId != details[i].productId
    ensures details[i].productId in Dicts.ToMap(QuantitiesByProduct(details))
    ensures Dicts.ToMap(QuantitiesByProduct(details))[details[i].productId] == details[i].quantity
  {
    var n := |details|;
    var init := details[..n - 1];
    var last := details[n - 1];
    var d := QuantitiesByProduct(init);
    assert QuantitiesByProduct(details) == Dicts.Put(d, last.productId, last.quantity);
    if i == n - 1 {
      Dicts.PutLookup(d, last.productId, last.quantity);
    } else {
      assert init[i] == details[i];
      forall j | i < j < |init| ensures init[j].productId != init[i].productId {
        assert init[j] == details[j];
      }
      LastQuantityWins(init, i);
      Dicts.PutLookupOther(d, last.productId, last.quantity, details[i].productId);
    }
  }

  /** Two lines for the same product: the second quantity replaces the first, it is not added. */
  lemma RepeatedProductNotSummed()
    ensures Dicts.ToMap(QuantitiesByProduct([OrderDetail("p", 2), OrderDetail("p", 3)])) == map["p" := 3]
  {
    var details := [OrderDetail("p", 2), OrderDetail("p", 3)];
    LastQuantityWins(details, 1);
    assert Dicts.KeySet(QuantitiesByProduct(details)) == {"p"} by {
      assert ProductIds(details) == {"p"};
    }
  }

  class ProductsService {
    const storage: ProductStore.StorageWrapper

    constructor (storage: ProductStore.StorageWrapper)
      ensures this.storage == storage
    {
      this.storage := storage;
    }

    /** `get`: the stored record, or the store's NotFound unchanged. */
    method Get(id: string) returns (r: Result<ProductStore.Product, ProductStore.StoreError>)
      requires storage.client.Valid()
      ensures r == ProductStore.Lookup(storage.client.data, id)
    {
      r := storage.Get(id);
    }

    /** `create`: stores the record. */
    method Create(p: ProductStore.Product)
      requires storage.client.Valid()
      modifies storage.client
      ensures storage.client.Valid()
      ensures storage.client.data == ProductStore.Stored(old(storage.client.data), p)
    {
      storage.Create(p);
    }

    /** `handle_order_created`: one `decrement_stock` call with the lines' quantities. */
    method HandleOrderCreated(payload: Payload) returns (r: Result<(), ProductStore.StoreError>)
      requires storage.client.Valid()
      modifies storage.client
      ensures storage.client.Valid()
      ensures var q := QuantitiesByProduct(payload.order.orderDetails);
              var n := ProductStore.FirstUndecrementable(old(storage.client.data), q);
              && (r.Ok? <==> n == |q|)
              && (r.Ok? ==> storage.client.data == ProductStore.Applied(old(storage.client.data), q))
              && (r.Err? ==>
                    && r.error == ProductStore.CommandFailed(NotAnInteger(ProductStore.FormatKey(q[n].0), "in_stock"))
                    && storage.client.data == ProductStore.Applied(old(storage.client.data), q[..n]))
    {
      var quantities := QuantitiesByProduct(payload.order.orderDetails);
      var levels := storage.DecrementStock(quantities);
      if levels.Err? {
        return Err(levels.error);
      }
      r := Ok(());
    }
  }
}
