/** The order routes of the HTTP gateway (gateapi/gateapi/api/routers/order.py):
    reading an order enriches its lines with product snapshots and image URLs,
    and creating an order first checks that every product exists. The orders and
    products services are remote; the model receives them as functions and
    returns, beside each result, the remote calls made in their order. */
module OrderRouter {
  import opened Wrappers
  import ProductStore

  /** A value in a line-item dict other than its product id. */
  datatype Field =
    | TextValue(text: string)
    | Number(number: int)
    | Snapshot(product: ProductStore.Product)

  /** One entry of `order_details`: its `product_id` and the rest of its keys. */
  datatype LineItem = LineItem(productId: string, fields: map<string, Field>)

  datatype Order = Order(id: int, orderDetails: seq<LineItem>)

  /** Errors the orders service raises; `OrderNotFound` is mapped to its own exception. */
  datatype RemoteFault = OrderNotFound(message: string) | OtherFault(message: string)

  datatype Failure =
    /** An `HTTPException` with its status code and detail. */
    | HttpError(status: int, detail: string)
    /** A remote error that reaches the caller unchanged. */
    | Remote(fault: RemoteFault)

  /** The remote services, as the functions they compute. */
  datatype Services = Services(
    getOrder: int -> Result<Order, RemoteFault>,
    exist: string -> bool,
    getProduct: string -> ProductStore.Product,
    createOrder: seq<LineItem> -> int)

  /** A remote call, as the gateway issues it. */
  datatype RpcCall =
    | GetOrder(orderId: int)
    | Exist(productId: string)
    | GetProduct(productId: string)
    | CreateOrder(orderDetails: seq<LineItem>)

  const NotFoundStatus: int := 404

  /** `'{}/{}.jpg'.format(image_root, product_id)`. */
  function ImageUrl(imageRoot: string, productId: string): (url: string)
    ensures |url| == |imageRoot| + |productId| + 5
    ensures url[..|imageRoot|] == imageRoot && url[|imageRoot|] == '/'
    ensures url[|imageRoot| + 1..|url| - 4] == productId && url[|url| - 4..] == ".jpg"
  {
    imageRoot + "/" + productId + ".jpg"
  }

  /** One line item after the enrichment step of `_get_order`: the product id and every
      other key keep their values; `image` is always set to the line's image URL, and
      `product` is set to the snapshot `products.get` returns exactly when the product exists. */
  function Enriched(item: LineItem, services: Services, imageRoot: string): (e: LineItem)
    ensures e.productId == item.productId
    ensures e.fields.Keys
            == item.fields.Keys + {"image"} + (if services.exist(item.productId) then {"product"} else {})
    ensures forall k :: k in item.fields && k != "image" && k != "product" ==> e.fields[k] == item.fields[k]
    ensures e.fields["image"] == TextValue(ImageUrl(imageRoot, item.productId))
    ensures services.exist(item.productId) ==>
              e.fields["product"] == Snapshot(services.getProduct(item.productId))
    ensures !services.exist(item.productId) && "product" in item.fields ==>
              e.fields["product"] == item.fields["product"]
  {
    var withProduct :=
      if services.exist(item.productId)
      then item.fields["product" := Snapshot(services.getProduct(item.productId))]
      else item.fields;
    LineItem(item.productId, withProduct["image" := TextValue(ImageUrl(imageRoot, item.productId))])
  }

  /** The calls the enrichment of one line makes. */
  function ItemCalls(item: LineItem, services: Services): seq<RpcCall>
  {
    if services.exist(item.productId)
    then [Exist(item.productId), GetProduct(item.productId)]
    else [Exist(item.productId)]
  }

  /** The calls the enrichment loop makes over `details`, line after line. */
  function EnrichCalls(details: seq<LineItem>, services: Services): seq<RpcCall>
  {
    if details == [] then []
    else EnrichCalls(details[..|details| - 1], services) + ItemCalls(details[|details| - 1], services)
  }

  /** The product ids of the `exist` calls in a trace. */
  function ExistQueries(calls: seq<RpcCall>): seq<string>
  {
    if calls == [] then []
    else
      var last := calls[|calls| - 1];
      ExistQueries(calls[..|calls| - 1]) + (if last.Exist? then [last.productId] else [])
  }

  lemma {:induction false} ExistQueriesAppend(a: seq<RpcCall>, b: seq<RpcCall>)
    ensures ExistQueries(a + b) == ExistQueries(a) + ExistQueries(b)
    decreases |b|
  {
    if b != [] {
      var init := b[..|b| - 1];
      assert (a + b)[..|a + b| - 1] == a + init;
      ExistQueriesAppend(a, init);
    } else {
      assert a + b == a;
    }
  }

  /** The product ids of the lines, in order. */
  function LineProductIds(details: seq<LineItem>): (ids: seq<string>)
    ensures |ids| == |details|
    ensures forall i :: 0 <= i < |details| ==> ids[i] == details[i].productId
  {
    if details == [] then []
    else LineProductIds(details[..|details| - 1]) + [details[|details| - 1].productId]
  }

  /** Enriching one line asks `exist` once, about that line's product. */
  lemma ItemCallsAsk(item: LineItem, services: Services)
    ensures ExistQueries(ItemCalls(item, services)) == [item.productId]
  {
    var calls := ItemCalls(item, services);
    var ask := [Exist(item.productId)];
    assert ask[..0] == [];
    assert ExistQueries(ask) == [item.productId];
    if services.exist(item.productId) {
      assert calls[..|calls| - 1] == ask;
    } else {
      assert calls == ask;
    }
  }

  /** Reading an order asks `exist` once per line, in the order of the lines. */
  lemma {:induction false} EnrichCallsAskEachLine(details: seq<LineItem>, services: Services)
    ensures ExistQueries(EnrichCalls(details, services)) == LineProductIds(details)
    decreases |details|
  {
    if details != [] {
      var init := details[..|details| - 1];
      var last := details[|details| - 1];
      EnrichCallsAskEachLine(init, services);
      ExistQueriesAppend(EnrichCalls(init, services), ItemCalls(last, services));
      ItemCallsAsk(last, services);
    }
  }

  lemma EnrichCallsSnoc(details: seq<LineItem>, services: Services, i: int)
    requires 0 <= i < |details|
    ensures EnrichCalls(details[..i + 1], services) == EnrichCalls(details[..i], services) + ItemCalls(details[i], services)
  {
    assert details[..i + 1][..i] == details[..i];
  }

  /** The body of the enrichment loop: asks whether the product exists, attaches its
      snapshot if it does, and sets the image URL, updating the line's keys one by one. */
  method EnrichLine(item: LineItem, services: Services, imageRoot: string)
    returns (e: LineItem, calls: seq<RpcCall>)
    ensures e == Enriched(item, services, imageRoot)
    ensures calls == ItemCalls(item, services)
  {
    calls := [Exist(item.productId)];
    var fields := item.fields;
    if services.exist(item.productId) {
      calls := calls + [GetProduct(item.productId)];
      fields := fields["product" := Snapshot(services.getProduct(item.productId))];
    }
    fields := fields["image" := TextValue(ImageUrl(imageRoot, item.productId))];
    e := LineItem(item.productId, fields);
  }

  /** The enrichment loop of `_get_order`: each line in turn is enriched in place. */
  method EnrichLines(lines: seq<LineItem>, services: Services, imageRoot: string)
    returns (details: seq<LineItem>, calls: seq<RpcCall>)
    ensures |details| == |lines|
    ensures forall i :: 0 <= i < |lines| ==> details[i] == Enriched(lines[i], services, imageRoot)
    ensures calls == EnrichCalls(lines, services)
  {
    details := lines;
    calls := [];
    var i := 0;
    while i < |details|
      invariant 0 <= i <= |details| == |lines|
      invariant forall j :: 0 <= j < i ==> details[j] == Enriched(lines[j], services, imageRoot)
      invariant forall j :: i <= j < |details| ==> details[j] == lines[j]
      invariant calls == EnrichCalls(lines[..i], services)
    {
      var enriched, itemCalls := EnrichLine(lines[i], services, imageRoot);
      EnrichCallsSnoc(lines, services, i);
      calls := calls + itemCalls;
      details := details[i := enriched];
      i := i + 1;
    }
    assert lines[..i] == lines;
  }

  /** `_get_order`: fetches the order, then enriches its lines. */
  method FetchOrder(orderId: int, services: Services, imageRoot: string)
    returns (r: Result<Order, RemoteFault>, calls: seq<RpcCall>)
    ensures services.getOrder(orderId).Err? ==>
              r == Err(services.getOrder(orderId).error) && calls == [GetOrder(orderId)]
    ensures services.getOrder(orderId).Ok? ==>
              var order := services.getOrder(orderId).value;
              && r.Ok?
              && r.value.id == order.id
              && |r.value.orderDetails| == |order.orderDetails|
              && (forall i :: 0 <= i < |order.orderDetails| ==>
                    r.value.orderDetails[i] == Enriched(order.orderDetails[i], services, imageRoot))
              && calls == [GetOrder(orderId)] + EnrichCalls(order.orderDetails, services)
  {
    var fetched := services.getOrder(orderId);
    if fetched.Err? {
      return Err(fetched.error), [GetOrder(orderId)];
    }
    var order := fetched.value;
    var details, lineCalls := EnrichLines(order.orderDetails, services, imageRoot);
    r := Ok(Order(order.id, details));
    calls := [GetOrder(orderId)] + lineCalls;
  }

  /** `get_order`: a missing order becomes a 404 carrying the service's message;
      any other remote error is passed on. */
  method GetOrderRoute(orderId: int, services: Services, imageRoot: string)
    returns (r: Result<Order, Failure>, calls: seq<RpcCall>)
    ensures services.getOrder(orderId).Err? && services.getOrder(orderId).error.OrderNotFound? ==>
              r == Err(HttpError(NotFoundStatus, services.getOrder(orderId).error.message))
    ensures services.getOrder(orderId).Err? && services.getOrder(orderId).error.OtherFault? ==>
              r == Err(Remote(services.getOrder(orderId).error))
    ensures services.getOrder(orderId).Ok? ==>
              var order := services.getOrder(orderId).value;
              && r.Ok?
              && r.value.id == order.id
              && |r.value.orderDetails| == |order.orderDetails|
              && (forall i :: 0 <= i < |order.orderDetails| ==>
                    r.value.orderDetails[i] == Enriched(order.orderDetails[i], services, imageRoot))
    ensures services.getOrder(orderId).Err? ==> calls == [GetOrder(orderId)]
    ensures services.getOrder(orderId).Ok? ==>
              calls == [GetOrder(orderId)] + EnrichCalls(services.getOrder(orderId).value.orderDetails, services)
  {
    var fetched;
    fetched, calls := FetchOrder(orderId, services, imageRoot);
    match fetched
    case Ok(order) => r := Ok(order);
    case Err(OrderNotFound(message)) => r := Err(HttpError(NotFoundStatus, message));
    case Err(fault) => r := Err(Remote(fault));
  }

  /** The index of the first line whose product does not exist, or the line count. */
  function FirstMissing(details: seq<LineItem>, exist: string -> bool): (n: nat)
    ensures n <= |details|
    ensures forall j :: 0 <= j < n ==> exist(details[j].productId)
    ensures n < |details| ==> !exist(details[n].productId)
  {
    if details == [] then 0
    else if !exist(details[0].productId) then 0
    else 1 + FirstMissing(details[1..], exist)
  }

  /** The `exist` calls for the lines, one per line, in order. */
  function ExistChecks(details: seq<LineItem>): (calls: seq<RpcCall>)
    ensures |calls| == |details|
    ensures forall j :: 0 <= j < |details| ==> calls[j] == Exist(details[j].productId)
  {
    if details == [] then []
    else ExistChecks(details[..|details| - 1]) + [Exist(details[|details| - 1].productId)]
  }

  function MissingProductMessage(productId: string): (message: string)
    ensures |message| == |productId| + 26
    ensures message[..16] == "Product with id " && message[|message| - 10..] == " not found"
    ensures message[16..|message| - 10] == productId
  {
    "Product with id " + productId + " not found"
  }

  /** `_create_order`: checks the products in order, stops at the first missing one,
      and otherwise asks the orders service to create the order with the lines as given. */
  method SubmitOrder(details: seq<LineItem>, services: Services)
    returns (r: Result<int, Failure>, calls: seq<RpcCall>)
    ensures var n := FirstMissing(details, services.exist);
            && (r.Err? <==> n < |details|)
            && (r.Err? ==>
                  && r.error == HttpError(NotFoundStatus, MissingProductMessage(details[n].productId))
                  && calls == ExistChecks(details[..n + 1]))
            && (r.Ok? ==>
                  && r.value == services.createOrder(details)
                  && calls == ExistChecks(details) + [CreateOrder(details)])
  {
    calls := [];
    var i := 0;
    while i < |details|
      invariant 0 <= i <= |details|
      invariant forall j :: 0 <= j < i ==> services.exist(details[j].productId)
      invariant calls == ExistChecks(details[..i])
    {
      var productId := details[i].productId;
      calls := calls + [Exist(productId)];
      assert details[..i + 1][..i] == details[..i];
      if !services.exist(productId) {
        FirstMissingAt(details, services.exist, i);
        r := Err(HttpError(NotFoundStatus, MissingProductMessage(productId)));
        return;
      }
      i := i + 1;
    }
    FirstMissingAt(details, services.exist, i);
    assert details[..i] == details;
    calls := calls + [CreateOrder(details)];
    r := Ok(services.createOrder(details));
  }

  /** FirstMissing is the index at which the checks first fail. */
  lemma {:induction false} FirstMissingAt(details: seq<LineItem>, exist: string -> bool, i: int)
    requires 0 <= i <= |details|
    requires forall j :: 0 <= j < i ==> exist(details[j].productId)
    requires i < |details| ==> !exist(details[i].productId)
    ensures FirstMissing(details, exist) == i
  {
    if i > 0 {
      FirstMissingAt(details[1..], exist, i - 1);
    }
  }

  /** The body of `POST /orders`. */
  datatype CreateOrderRequest = CreateOrderRequest(orderDetails: seq<LineItem>)

  /** The `{'id': ...}` response of `create_order`. */
  datatype CreateOrderSuccess = CreateOrderSuccess(id: int)

  /** `create_order`: the new order's id, wrapped; a failed check ends in its 404. */
  method CreateOrderRoute(request: CreateOrderRequest, services: Services)
    returns (r: Result<CreateOrderSuccess, Failure>, calls: seq<RpcCall>)
    ensures var details := request.orderDetails;
            var n := FirstMissing(details, services.exist);
            && (r.Ok? <==> n == |details|)
            && (r.Ok? ==> r.value == CreateOrderSuccess(services.createOrder(details)))
            && (r.Err? ==> r.error == HttpError(NotFoundStatus, MissingProductMessage(details[n].productId)))
            && (CreateOrder(details) in calls <==> r.Ok?)
  {
    var id;
    id, calls := SubmitOrder(request.orderDetails, services);
    if id.Err? {
      return Err(id.error), calls;
    }
    r := Ok(CreateOrderSuccess(id.value));
  }
}
