/** The order handlers over the line-item ledger: create (one row per product, all sharing a
    generated `YM-` order id), the paginated per-user listing, the detail view, and cancel. */
module OrderController {
  import opened Wrappers
  import opened JsSemantics
  import opened Http
  import opened OrderModel
  import opened Paging
  import RankOrder
  import CartController
  import UserController
  import VNPay

  const MissingOrderInfo := "Vui lòng cung cấp đầy đủ thông tin đơn hàng"
  const RedirectToPayment := "Đơn hàng đã được tạo, chuyển đến trang thanh toán"
  const OrderPlaced := "Đặt hàng thành công"
  const OrdersListed := "Lấy danh sách đơn hàng thành công"
  const ProvideOrderId := "Vui lòng cung cấp mã đơn hàng"
  const OrderNotFound := "Không tìm thấy đơn hàng"
  const DetailFound := "Lấy chi tiết đơn hàng thành công"
  const CannotCancel := "Không thể hủy đơn hàng ở trạng thái này"
  const OrderCancelled := "Hủy đơn hàng thành công"
  /** The head of the `ValidationError` message mongoose throws for the `order` model. */
  const ValidationFailed := "order validation failed"

  /** One element of the request's `products`; an absent field is `None`. */
  datatype ProductInput = ProductInput(productId: string, quantity: Option<int>, price: Option<int>,
                                       name: string, image: Option<seq<string>>)

  /** What the handler reads from its environment: the VNPay client's configuration, its HMAC
      and date formatter, and `FRONTEND_URL`. */
  datatype Env = Env(vnpay: VNPay.Config, hmac: VNPay.Hmac, format: VNPay.Formatter, frontendUrl: string)

  /** `price * quantity`; a missing operand makes it `NaN`, which is `None`. */
  function ItemTotal(p: ProductInput): Option<int> {
    if p.price.Some? && p.quantity.Some? then Some(p.price.value * p.quantity.value) else None
  }

  /** The document `new OrderModel({...})` is given for one product. */
  function ItemDraft(userId: string, orderId: string, addressId: string, paymentMethod: string, p: ProductInput): Draft {
    Draft(userId, orderId, p.productId, p.name, p.image, p.quantity, p.price, ItemTotal(p),
          Some(paymentMethod), Some("Pending"), Some("Processing"), addressId)
  }

  function Drafts(userId: string, orderId: string, addressId: string, paymentMethod: string,
                  products: seq<ProductInput>): (ds: seq<Draft>)
    ensures |ds| == |products|
  {
    seq(|products|, i requires 0 <= i < |products| => ItemDraft(userId, orderId, addressId, paymentMethod, products[i]))
  }

  /** What saving one draft writes: the validated row after the save hook, or `None` when
      validation throws. */
  function Saved(d: Draft, id: string, now: Time): Option<LineItem> {
    match Validate(d, id, now)
    case None => None
    case Some(row) => Some(SaveStamp(row, d.paymentStatus.Some?, now))
  }

  function Outcomes(ds: seq<Draft>, ids: seq<string>, now: Time): (r: seq<Option<LineItem>>)
    requires |ids| == |ds|
    ensures |r| == |ds|
  {
    seq(|ds|, j requires 0 <= j < |ds| => Saved(ds[j], ids[j], now))
  }

  /** The values of the leading `Some`s: what a loop that stops at the first failure collects. */
  function Leading<T>(s: seq<Option<T>>): (r: seq<T>)
    ensures |r| <= |s|
  {
    if |s| == 0 || s[0].None? then [] else [s[0].value] + Leading(s[1..])
  }

  /** The collected values are the leading outcomes in order; when the loop stopped early, the
      next outcome is the failure that stopped it. */
  lemma {:induction false} LeadingFacts<T>(s: seq<Option<T>>)
    ensures forall j :: 0 <= j < |Leading(s)| ==> s[j] == Some(Leading(s)[j])
    ensures |Leading(s)| < |s| ==> s[|Leading(s)|].None?
  {
    if |s| > 0 && s[0].Some? {
      LeadingFacts(s[1..]);
    }
  }

  lemma {:induction false} LeadingAppend<T>(a: seq<Option<T>>, b: seq<Option<T>>)
    requires |Leading(a)| == |a|
    ensures Leading(a + b) == Leading(a) + Leading(b)
  {
    if |a| > 0 {
      assert (a + b)[1..] == a[1..] + b;
      LeadingAppend(a[1..], b);
    } else {
      assert a + b == b;
    }
  }

  /** One more outcome after an unbroken run: a failure ends the run, a success extends it. */
  lemma LeadingStep<T>(s: seq<Option<T>>, i: nat)
    requires i < |s| && |Leading(s[..i])| == i
    ensures s[i].None? ==> Leading(s) == Leading(s[..i])
    ensures s[i].Some? ==> Leading(s[..i + 1]) == Leading(s[..i]) + [s[i].value]
  {
    assert s[..i + 1] == s[..i] + [s[i]];
    LeadingAppend(s[..i], [s[i]]);
    if s[i].None? {
      assert s == s[..i] + s[i..];
      LeadingAppend(s[..i], s[i..]);
    }
  }

  /** The rows the save loop writes: the drafts are saved one by one, and the first one that
      fails validation ends the loop, leaving the earlier ones written. */
  function SaveRows(ds: seq<Draft>, ids: seq<string>, now: Time): (r: seq<LineItem>)
    requires |ids| == |ds|
    ensures |r| <= |ds|
  {
    Leading(Outcomes(ds, ids, now))
  }

  /** The rows written are the stamped validations of the leading drafts that pass, in order;
      when fewer rows than drafts were written, the next draft is the one that failed. */
  lemma SaveRowsFacts(ds: seq<Draft>, ids: seq<string>, now: Time)
    requires |ids| == |ds|
    ensures var r := SaveRows(ds, ids, now);
            forall j :: 0 <= j < |r| ==>
              Validate(ds[j], ids[j], now).Some? &&
              r[j] == SaveStamp(Validate(ds[j], ids[j], now).value, ds[j].paymentStatus.Some?, now)
    ensures var r := SaveRows(ds, ids, now);
            |r| < |ds| ==> Validate(ds[|r|], ids[|r|], now).None?
  {
    var r := SaveRows(ds, ids, now);
    LeadingFacts(Outcomes(ds, ids, now));
    forall j | 0 <= j < |r|
      ensures Validate(ds[j], ids[j], now).Some?
      ensures r[j] == SaveStamp(Validate(ds[j], ids[j], now).value, ds[j].paymentStatus.Some?, now)
    {
      assert Saved(ds[j], ids[j], now) == Some(r[j]);
    }
    if |r| < |ds| {
      assert Saved(ds[|r|], ids[|r|], now).None?;
    }
  }

  /** The rows written carry the `_id`s in the order they were given. */
  lemma SaveRowsIds(ds: seq<Draft>, ids: seq<string>, now: Time)
    requires |ids| == |ds|
    ensures var r := SaveRows(ds, ids, now);
            forall j :: 0 <= j < |r| ==> r[j].id == ids[j]
  {
    var r := SaveRows(ds, ids, now);
    LeadingFacts(Outcomes(ds, ids, now));
    forall j | 0 <= j < |r| ensures r[j].id == ids[j] {
      assert Saved(ds[j], ids[j], now) == Some(r[j]);
      SavedId(ds[j], ids[j], now);
    }
  }

  /** `orderItems.reduce((sum, item) => sum + item.itemTotal, 0)`. */
  function TotalOf(items: seq<LineItem>): (total: int)
    ensures (forall i :: 0 <= i < |items| ==> items[i].itemTotal >= 0) ==> total >= 0
  {
    if |items| == 0 then 0 else TotalOf(items[..|items| - 1]) + items[|items| - 1].itemTotal
  }

  /** Every row an order creation writes carries the one generated order id, the caller, the
      address and the chosen payment method, starts `Pending` / `Processing` with no payment
      date, and has `itemTotal = price * quantity` for its product. */
  lemma CreatedRowFacts(userId: string, orderId: string, addressId: string, paymentMethod: string,
                        products: seq<ProductInput>, ids: seq<string>, now: Time, j: nat)
    requires |ids| == |products|
    requires j < |SaveRows(Drafts(userId, orderId, addressId, paymentMethod, products), ids, now)|
    ensures var r := SaveRows(Drafts(userId, orderId, addressId, paymentMethod, products), ids, now)[j];
            && r.id == ids[j] && r.orderId == orderId && r.userId == userId && r.deliveryAddress == addressId
            && PaymentMethodName(r.paymentMethod) == paymentMethod
            && r.paymentStatus == Pending && r.orderStatus == Processing && r.paymentDate.None?
  {
    var ds := Drafts(userId, orderId, addressId, paymentMethod, products);
    SaveRowsFacts(ds, ids, now);
    SaveRowsIds(ds, ids, now);
    assert ds[j] == ItemDraft(userId, orderId, addressId, paymentMethod, products[j]);
    assert ParsePaymentStatus("Pending") == Some(Pending);
    assert ParseOrderStatus("Processing") == Some(Processing);
  }

  lemma CreatedRowAmounts(userId: string, orderId: string, addressId: string, paymentMethod: string,
                          products: seq<ProductInput>, ids: seq<string>, now: Time, j: nat)
    requires |ids| == |products|
    requires j < |SaveRows(Drafts(userId, orderId, addressId, paymentMethod, products), ids, now)|
    ensures var r := SaveRows(Drafts(userId, orderId, addressId, paymentMethod, products), ids, now)[j];
            && r.productId == products[j].productId
            && products[j].price == Some(r.pricePerUnit) && products[j].quantity == Some(r.quantity)
            && r.itemTotal == r.pricePerUnit * r.quantity && r.quantity >= 1
  {
    var ds := Drafts(userId, orderId, addressId, paymentMethod, products);
    SaveRowsFacts(ds, ids, now);
    assert ds[j] == ItemDraft(userId, orderId, addressId, paymentMethod, products[j]);
  }

  /** The client address: `x-forwarded-for`, then the connection's, then the socket's, then
      `127.0.0.1`, each taken only when truthy. */
  function ClientIp(forwardedFor: string, connectionAddress: string, socketAddress: string): (ip: string)
    ensures ip != ""
    ensures ip in {forwardedFor, connectionAddress, socketAddress, "127.0.0.1"}
    ensures forwardedFor != "" ==> ip == forwardedFor
  {
    if forwardedFor != "" then forwardedFor
    else if connectionAddress != "" then connectionAddress
    else if socketAddress != "" then socketAddress
    else "127.0.0.1"
  }

  /** The `createPaymentUrl` call for a new online order. */
  function OnlineRequest(env: Env, orderId: string, totalAmount: int, ip: string): VNPay.PaymentRequest {
    VNPay.PaymentRequest(orderId, totalAmount, "Thanh toan don hang " + orderId, ip, env.frontendUrl + "/payment-result")
  }

  /** The reply of `createOrderController`. */
  datatype CreateReply =
    | Refused(response: Response)
    | PayOnline(orderId: string, totalAmount: int, paymentUrl: string)
    | PaidOnDelivery(orderId: string, totalAmount: int, paymentMethod: string, items: seq<LineItem>)

  /** Order creation passes the request guard. */
  predicate CompleteOrder(addressId: string, paymentMethod: string, products: seq<ProductInput>) {
    addressId != "" && paymentMethod != "" && |products| > 0
  }

  /** No stored row has `_id` `id`. */
  predicate FreshIn(rows: seq<LineItem>, id: string) {
    forall m :: 0 <= m < |rows| ==> rows[m].id != id
  }

  /** One draft is saved: what is written is `Saved`'s row, appended to the collection. */
  method SaveNext(orders: OrderCollection, d: Draft, id: string, now: Time) returns (saved: Option<LineItem>)
    requires orders.Valid()
    requires FreshIn(orders.rows, id)
    modifies orders
    ensures orders.Valid()
    ensures saved == Saved(d, id, now)
    ensures saved.None? ==> orders.rows == old(orders.rows)
    ensures saved.Some? ==> orders.rows == old(orders.rows) + [saved.value]
  {
    saved := orders.Save(d, id, now);
  }

  /** How the rows written so far grow by one draft's outcome, and where they stop. */
  lemma SaveRowsStep(drafts: seq<Draft>, ids: seq<string>, now: Time, i: nat)
    requires |ids| == |drafts| && i < |drafts|
    requires |SaveRows(drafts[..i], ids[..i], now)| == i
    ensures Saved(drafts[i], ids[i], now).None? ==> SaveRows(drafts, ids, now) == SaveRows(drafts[..i], ids[..i], now)
    ensures Saved(drafts[i], ids[i], now).Some? ==>
              SaveRows(drafts[..i + 1], ids[..i + 1], now)
                == SaveRows(drafts[..i], ids[..i], now) + [Saved(drafts[i], ids[i], now).value]
  {
    var outcomes := Outcomes(drafts, ids, now);
    assert Outcomes(drafts[..i + 1], ids[..i + 1], now) == outcomes[..i + 1];
    assert Outcomes(drafts[..i], ids[..i], now) == outcomes[..i];
    LeadingStep(outcomes, i);
  }

  /** A saved row carries the `_id` it was given. */
  lemma SavedId(d: Draft, id: string, now: Time)
    requires Saved(d, id, now).Some?
    ensures Saved(d, id, now).value.id == id
  {
    ValidatedRow(d, id, now);
    SaveStampFacts(Validate(d, id, now).value, d.paymentStatus.Some?, now);
  }

  lemma TotalOfAppend(items: seq<LineItem>, x: LineItem)
    ensures TotalOf(items + [x]) == TotalOf(items) + x.itemTotal
  {
    assert (items + [x])[..|items|] == items;
  }

  /** The later ids stay fresh once the row for `ids[i]` is written. */
  lemma FreshAfterSave(rows: seq<LineItem>, row: LineItem, ids: seq<string>, i: nat)
    requires i < |ids| && row.id == ids[i]
    requires forall a, b :: 0 <= a < b < |ids| ==> ids[a] != ids[b]
    requires forall k :: i <= k < |ids| ==> FreshIn(rows, ids[k])
    ensures forall k :: i + 1 <= k < |ids| ==> FreshIn(rows + [row], ids[k])
  {
    forall k, m | i + 1 <= k < |ids| && 0 <= m < |rows| + 1 ensures (rows + [row])[m].id != ids[k] {
      if m < |rows| {
        assert FreshIn(rows, ids[k]);
      }
    }
  }

  /** The save loop of `createOrderController`: each draft is saved in turn and its `itemTotal`
      added to the running total; a draft that fails validation ends the loop with the earlier
      rows already written. */
  method SaveItems(orders: OrderCollection, drafts: seq<Draft>, ids: seq<string>, now: Time)
    returns (orderItems: seq<LineItem>, totalAmount: int)
    requires orders.Valid()
    requires |ids| == |drafts|
    requires forall i, j :: 0 <= i < j < |ids| ==> ids[i] != ids[j]
    requires forall k :: 0 <= k < |ids| ==> FreshIn(orders.rows, ids[k])
    modifies orders
    ensures orders.Valid()
    ensures orderItems == SaveRows(drafts, ids, now)
    ensures orders.rows == old(orders.rows) + orderItems
    ensures totalAmount == TotalOf(orderItems)
  {
    totalAmount := 0;
    orderItems := [];
    for i := 0 to |drafts|
      invariant orders.Valid()
      invariant orderItems == SaveRows(drafts[..i], ids[..i], now) && |orderItems| == i
      invariant orders.rows == old(orders.rows) + orderItems
      invariant totalAmount == TotalOf(orderItems)
      invariant forall k :: i <= k < |ids| ==> FreshIn(orders.rows, ids[k])
    {
      var before := orders.rows;
      var saved := SaveNext(orders, drafts[i], ids[i], now);
      SaveRowsStep(drafts, ids, now, i);
      if saved.None? {
        return;
      }
      SavedId(drafts[i], ids[i], now);
      FreshAfterSave(before, saved.value, ids, i);
      TotalOfAppend(orderItems, saved.value);
      orderItems := orderItems + [saved.value];
      totalAmount := totalAmount + saved.value.itemTotal;
    }
    assert drafts[..|drafts|] == drafts && ids[..|drafts|] == ids;
  }

  /** `createOrderController`. `nanoid` is the generated suffix of the order id and `ids` the
      `_id`s the saves assign, fresh and distinct; the three addresses are the request's
      `x-forwarded-for` header, connection address and socket address ("" when absent). */
  method CreateOrder(orders: OrderCollection, carts: CartController.CartCollection,
                     users: UserController.UserCollection, env: Env,
                     userId: string, addressId: string, paymentMethod: string, products: seq<ProductInput>,
                     nanoid: string, ids: seq<string>,
                     forwardedFor: string, connectionAddress: string, socketAddress: string, now: Time)
    returns (reply: CreateReply)
    requires orders.Valid() && carts.Valid() && users.Valid()
    requires |ids| == |products|
    requires forall i, j :: 0 <= i < j < |ids| ==> ids[i] != ids[j]
    requires forall k :: 0 <= k < |ids| ==> FreshIn(orders.rows, ids[k])
    modifies orders, carts, users
    ensures orders.Valid() && carts.Valid() && users.Valid()
    ensures !CompleteOrder(addressId, paymentMethod, products) ==>
              reply == Refused(Fail(400, MissingOrderInfo))
              && orders.rows == old(orders.rows) && carts.rows == old(carts.rows) && users.users == old(users.users)
    ensures CompleteOrder(addressId, paymentMethod, products) ==>
              var created := SaveRows(Drafts(userId, "YM-" + nanoid, addressId, paymentMethod, products), ids, now);
              && orders.rows == old(orders.rows) + created
              && (|created| < |products| ==>
                    reply == Refused(Fail(500, ValidationFailed))
                    && carts.rows == old(carts.rows) && users.users == old(users.users))
              && (|created| == |products| ==>
                    && carts.rows == CartController.DeleteAllOf(old(carts.rows), userId)
                    && users.users == UserController.UpdateById(
                         UserController.UpdateById(old(users.users), userId,
                           (u: UserController.User) => u.(orderHistory := u.orderHistory + ids)),
                         userId, (u: UserController.User) => u.(shoppingCart := [])))
    ensures CompleteOrder(addressId, paymentMethod, products) ==>
              var orderId := "YM-" + nanoid;
              var created := SaveRows(Drafts(userId, orderId, addressId, paymentMethod, products), ids, now);
              |created| == |products| ==>
              if paymentMethod != "Online" then
                reply == PaidOnDelivery(orderId, TotalOf(created), paymentMethod, created)
              else if env.vnpay.hashSecret.None? then
                reply == Refused(Fail(500, VNPay.CannotCreateUrl))
              else
                reply == PayOnline(orderId, TotalOf(created),
                                   env.vnpay.url + "?" + VNPay.Stringify(VNPay.Sign(env.vnpay.hashSecret.value, env.hmac,
                                     VNPay.PaymentParams(env.vnpay, env.format, OnlineRequest(env, orderId, TotalOf(created),
                                                                 ClientIp(forwardedFor, connectionAddress, socketAddress)), now))))
  {
    if addressId == "" || paymentMethod == "" || |products| == 0 {
      return Refused(Fail(400, MissingOrderInfo));
    }
    var orderId := "YM-" + nanoid;
    var drafts := Drafts(userId, orderId, addressId, paymentMethod, products);
    var orderItems, totalAmount := SaveItems(orders, drafts, ids, now);
    if |orderItems| < |products| {
      return Refused(Fail(500, ValidationFailed));
    }
    var historyIds := seq(|orderItems|, j requires 0 <= j < |orderItems| => orderItems[j].id);
    SaveRowsIds(drafts, ids, now);
    assert historyIds == ids;
    users.PushOrderHistory(userId, historyIds);
    carts.DeleteAll(userId);
    users.ClearShoppingCart(userId);
    if paymentMethod == "Online" {
      var ip := ClientIp(forwardedFor, connectionAddress, socketAddress);
      var url := VNPay.CreatePaymentUrl(env.vnpay, env.hmac, env.format, OnlineRequest(env, orderId, totalAmount, ip), now);
      match url
      case Err(m) => return Refused(Fail(500, m));
      case Ok(u) => return PayOnline(orderId, totalAmount, u);
    }
    reply := PaidOnDelivery(orderId, totalAmount, paymentMethod, orderItems);
  }

  // ---------------------------------------------------------------------------
  // The order views

  /** One order as the listing and the detail handlers return it: the header fields come from
      the first of its rows, the total is the sum of their `itemTotal`. */
  datatype OrderView = OrderView(orderId: string, items: seq<LineItem>, createdAt: Time,
                                 status: OrderStatus, paymentMethod: PaymentMethod,
                                 paymentStatus: PaymentStatus, address: string, totalAmount: int)

  function ViewOf(orderId: string, items: seq<LineItem>): OrderView
    requires |items| > 0
  {
    OrderView(orderId, items, items[0].createdAt, items[0].orderStatus, items[0].paymentMethod,
              items[0].paymentStatus, items[0].deliveryAddress, TotalOf(items))
  }

  /** The rows of one order of one user: `find({ userId, orderId })`. */
  function OrderRows(rows: seq<LineItem>, userId: string, orderId: string): seq<LineItem> {
    Find(rows, ByUserOrder(userId, orderId))
  }

  datatype DetailReply = DetailRefused(response: Response) | Detail(view: OrderView)

  /** `getOrderDetailController`. */
  function OrderDetail(rows: seq<LineItem>, userId: string, orderId: string): (r: DetailReply)
    ensures orderId == "" ==> r == DetailRefused(Fail(400, ProvideOrderId))
    ensures orderId != "" && (forall x :: x in rows ==> !(x.userId == userId && x.orderId == orderId)) ==>
              r == DetailRefused(Fail(404, OrderNotFound))
    ensures r.Detail? ==>
              && r.view.orderId == orderId && |r.view.items| > 0
              && (forall x :: x in r.view.items <==> x in rows && x.userId == userId && x.orderId == orderId)
              && r.view.totalAmount == TotalOf(r.view.items)
              && r.view.status == r.view.items[0].orderStatus
              && r.view.paymentStatus == r.view.items[0].paymentStatus
  {
    if orderId == "" then DetailRefused(Fail(400, ProvideOrderId))
    else
      var items := OrderRows(rows, userId, orderId);
      if |items| == 0 then DetailRefused(Fail(404, OrderNotFound))
      else
        assert items[0] in items;
        Detail(ViewOf(orderId, items))
  }

  /** The detail is found exactly when the caller has a row of that order. */
  lemma DetailFoundIff(rows: seq<LineItem>, userId: string, orderId: string)
    requires orderId != ""
    ensures OrderDetail(rows, userId, orderId).Detail? <==>
              exists i :: 0 <= i < |rows| && rows[i].userId == userId && rows[i].orderId == orderId
  {
    var items := OrderRows(rows, userId, orderId);
    if i :| 0 <= i < |rows| && rows[i].userId == userId && rows[i].orderId == orderId {
      assert rows[i] in items;
    }
  }

  /** The order total is never negative, since every stored `itemTotal` is at least zero. */
  lemma DetailTotalNonNegative(rows: seq<LineItem>, userId: string, orderId: string)
    requires StoreInvariant(rows)
    requires OrderDetail(rows, userId, orderId).Detail?
    ensures OrderDetail(rows, userId, orderId).view.totalAmount >= 0
  {
    var items := OrderRows(rows, userId, orderId);
    forall i | 0 <= i < |items| ensures items[i].itemTotal >= 0 {
      assert items[i] in rows;
      var k :| 0 <= k < |rows| && rows[k] == items[i];
      assert RowInvariant(rows[k]);
    }
  }

  // ---------------------------------------------------------------------------
  // Cancel

  /** Why `cancelOrderController` refuses, if it does; the status is read from the first row. */
  function CancelRefusal(rows: seq<LineItem>, userId: string, orderId: string): (r: Option<Response>)
    ensures orderId == "" ==> r == Some(Fail(400, ProvideOrderId))
    ensures orderId != "" && FindOne(rows, ByUserOrder(userId, orderId)).None? ==> r == Some(Fail(404, OrderNotFound))
    ensures r.None? <==> orderId != "" && FindOne(rows, ByUserOrder(userId, orderId)).Some?
                         && FindOne(rows, ByUserOrder(userId, orderId)).value.orderStatus == Processing
  {
    if orderId == "" then Some(Fail(400, ProvideOrderId))
    else match FindOne(rows, ByUserOrder(userId, orderId))
      case None => Some(Fail(404, OrderNotFound))
      case Some(order) => if order.orderStatus != Processing then Some(Fail(400, CannotCancel)) else None
  }

  /** The `$set` cancel sends. */
  const CancelSet := SetClause(None, Some(Cancelled), None, None)

  /** Cancelling marks exactly the rows of that order of that user `Cancelled` (and bumps their
      `updatedAt`); payment status and every other row stay as they were. */
  lemma CancelEffect(rows: seq<LineItem>, userId: string, orderId: string, now: Time)
    ensures var after := UpdateRows(rows, ByUserOrder(userId, orderId), CancelSet, now);
            && |after| == |rows|
            && forall i :: 0 <= i < |rows| ==>
                 after[i] == if rows[i].userId == userId && rows[i].orderId == orderId
                             then rows[i].(orderStatus := Cancelled, updatedAt := now)
                             else rows[i]
  {
  }

  /** After one successful cancel, cancelling the same order again is refused. */
  lemma {:induction false} SecondCancelRefused(rows: seq<LineItem>, userId: string, orderId: string, now: Time)
    requires CancelRefusal(rows, userId, orderId).None?
    ensures CancelRefusal(UpdateRows(rows, ByUserOrder(userId, orderId), CancelSet, now),
                          userId, orderId) == Some(Fail(400, CannotCancel))
  {
    FindAfterCancel(rows, userId, orderId, now);
  }

  /** The matching rows after a cancel are the matching rows before it, each cancelled. */
  lemma {:induction false} FindAfterCancel(rows: seq<LineItem>, userId: string, orderId: string, now: Time)
    ensures var f := ByUserOrder(userId, orderId);
            var after := UpdateRows(rows, f, CancelSet, now);
            && |Find(after, f)| == |Find(rows, f)|
            && forall i :: 0 <= i < |Find(after, f)| ==> Find(after, f)[i].orderStatus == Cancelled
  {
    var f := ByUserOrder(userId, orderId);
    if |rows| > 0 {
      FindAfterCancel(rows[1..], userId, orderId, now);
      var after := UpdateRows(rows, f, CancelSet, now);
      assert after[1..] == UpdateRows(rows[1..], f, CancelSet, now);
      assert Matches(f, after[0]) == Matches(f, rows[0]);
    }
  }

  /** `cancelOrderController`. */
  method Cancel(orders: OrderCollection, userId: string, orderId: string, now: Time) returns (reply: Response)
    requires orders.Valid()
    modifies orders
    ensures orders.Valid()
    ensures CancelRefusal(old(orders.rows), userId, orderId).Some? ==>
              reply == CancelRefusal(old(orders.rows), userId, orderId).value && orders.rows == old(orders.rows)
    ensures CancelRefusal(old(orders.rows), userId, orderId).None? ==>
              reply == Done(OrderCancelled)
              && orders.rows == UpdateRows(old(orders.rows), ByUserOrder(userId, orderId),
                                           CancelSet, now)
  {
    if orderId == "" {
      return Fail(400, ProvideOrderId);
    }
    var order := FindOne(orders.rows, ByUserOrder(userId, orderId));
    if order.None? {
      return Fail(404, OrderNotFound);
    }
    if order.value.orderStatus != Processing {
      return Fail(400, CannotCancel);
    }
    orders.UpdateMany(ByUserOrder(userId, orderId), CancelSet, now);
    StampUpdateFacts(Some(CancelSet), now);
    reply := Done(OrderCancelled);
  }

  // ---------------------------------------------------------------------------
  // The paginated listing

  /** One `$group` bucket: an order id and the earliest `createdAt` among its rows. */
  datatype OrderGroup = OrderGroup(orderId: string, firstOrderDate: Time)

  function OrderIds(gs: seq<OrderGroup>): (r: seq<string>)
    ensures |r| == |gs|
  {
    seq(|gs|, i requires 0 <= i < |gs| => gs[i].orderId)
  }

  predicate DistinctOrders(gs: seq<OrderGroup>) {
    forall i, j :: 0 <= i < j < |gs| ==> gs[i].orderId != gs[j].orderId
  }

  /** The bucket `row` goes into: its order's bucket, its date folded in with `$min`, or a new
      bucket at the end. */
  function Absorb(gs: seq<OrderGroup>, row: LineItem): (r: seq<OrderGroup>)
    requires DistinctOrders(gs)
    ensures DistinctOrders(r)
    ensures forall o :: o in OrderIds(r) <==> o in OrderIds(gs) || o == row.orderId
  {
    if row.orderId in OrderIds(gs) then
      var k :| 0 <= k < |gs| && gs[k].orderId == row.orderId;
      var date := if row.createdAt < gs[k].firstOrderDate then row.createdAt else gs[k].firstOrderDate;
      var r := gs[k := OrderGroup(row.orderId, date)];
      assert OrderIds(r) == OrderIds(gs);
      r
    else
      var r := gs + [OrderGroup(row.orderId, row.createdAt)];
      assert OrderIds(r) == OrderIds(gs) + [row.orderId];
      assert forall k :: 0 <= k < |gs| ==> gs[k].orderId == OrderIds(gs)[k];
      r
  }

  /** `$match` on the user, then `$group` by `orderId` with `firstOrderDate: { $min: "$createdAt" }`. */
  function Groups(rows: seq<LineItem>, userId: string): (r: seq<OrderGroup>)
    ensures DistinctOrders(r)
    ensures forall o :: o in OrderIds(r) <==> exists i :: 0 <= i < |rows| && rows[i].userId == userId && rows[i].orderId == o
  {
    if |rows| == 0 then []
    else
      var prefix := rows[..|rows| - 1];
      var last := rows[|rows| - 1];
      assert forall i :: 0 <= i < |prefix| ==> prefix[i] == rows[i];
      if last.userId == userId then Absorb(Groups(prefix, userId), last) else Groups(prefix, userId)
  }

  /** `{ $sort: { firstOrderDate: -1 } }`. */
  function SortedGroups(rows: seq<LineItem>, userId: string): seq<OrderGroup> {
    RankOrder.SortDesc(Groups(rows, userId), (g: OrderGroup) => g.firstOrderDate)
  }

  datatype OrderPage = OrderPage(orders: seq<OrderView>, totalOrders: nat, totalPages: Option<int>,
                                 currentPage: int, limit: int)

  /** The rows of one order, newest first: `find({ userId, orderId }).sort({ createdAt: -1 })`. */
  function NewestFirst(rows: seq<LineItem>, userId: string, orderId: string): seq<LineItem> {
    RankOrder.SortDesc(OrderRows(rows, userId, orderId), (x: LineItem) => x.createdAt)
  }

  /** The rows the listing loop fetches for a group: that order's rows, newest first. */
  function ItemsOf(rows: seq<LineItem>, userId: string): OrderGroup -> seq<LineItem> {
    (g: OrderGroup) => NewestFirst(rows, userId, g.orderId)
  }

  /** The views a loop over `groups` pushes: one per group whose rows `itemsOf` finds nonempty. */
  function Views(itemsOf: OrderGroup -> seq<LineItem>, groups: seq<OrderGroup>): (r: seq<OrderView>)
    ensures |r| <= |groups|
  {
    if |groups| == 0 then []
    else
      var items := itemsOf(groups[|groups| - 1]);
      Views(itemsOf, groups[..|groups| - 1])
        + (if |items| > 0 then [ViewOf(groups[|groups| - 1].orderId, items)] else [])
  }

  /** The views the listing loop pushes for `groups`. */
  function ViewsOf(rows: seq<LineItem>, userId: string, groups: seq<OrderGroup>): seq<OrderView> {
    Views(ItemsOf(rows, userId), groups)
  }

  lemma ViewsStep(itemsOf: OrderGroup -> seq<LineItem>, groups: seq<OrderGroup>, i: nat)
    requires i < |groups|
    ensures var items := itemsOf(groups[i]);
            Views(itemsOf, groups[..i + 1])
              == Views(itemsOf, groups[..i]) + (if |items| > 0 then [ViewOf(groups[i].orderId, items)] else [])
  {
    assert groups[..i + 1][..i] == groups[..i];
  }

  /** `getUserOrdersController`; an absent `page` or `limit` is 1 or 6. */
  method ListOrders(orders: OrderCollection, userId: string, page: Option<int>, limit: Option<int>)
    returns (result: OrderPage)
    ensures var all := SortedGroups(orders.rows, userId);
            && result.totalOrders == |all|
            && result.totalPages == TotalPages(|all|, limit.GetOr(6))
            && result.currentPage == page.GetOr(1) && result.limit == limit.GetOr(6)
            && result.orders == ViewsOf(orders.rows, userId, Page(all, page.GetOr(1), limit.GetOr(6)))
  {
    var p := page.GetOr(1);
    var l := limit.GetOr(6);
    var allOrderGroups := SortedGroups(orders.rows, userId);
    var totalOrders := |allOrderGroups|;
    var totalPages := TotalPages(totalOrders, l);
    var paginated := Page(allOrderGroups, p, l);
    var views: seq<OrderView> := [];
    for i := 0 to |paginated|
      invariant views == ViewsOf(orders.rows, userId, paginated[..i])
    {
      var orderId := paginated[i].orderId;
      var orderItems := NewestFirst(orders.rows, userId, orderId);
      ViewsStep(ItemsOf(orders.rows, userId), paginated, i);
      if |orderItems| > 0 {
        views := views + [ViewOf(orderId, orderItems)];
      }
    }
    assert paginated[..|paginated|] == paginated;
    result := OrderPage(views, totalOrders, totalPages, p, l);
  }

  /** Every listed group has at least one row. */
  lemma GroupHasRows(rows: seq<LineItem>, userId: string, g: OrderGroup)
    requires g in SortedGroups(rows, userId)
    ensures |NewestFirst(rows, userId, g.orderId)| > 0
  {
    var groups := Groups(rows, userId);
    RankOrder.SortDescSameElements(groups, (g: OrderGroup) => g.firstOrderDate, g);
    var k :| 0 <= k < |groups| && groups[k] == g;
    assert g.orderId == OrderIds(groups)[k];
    assert g.orderId in OrderIds(groups);
    var m :| 0 <= m < |rows| && rows[m].userId == userId && rows[m].orderId == g.orderId;
    assert rows[m] in OrderRows(rows, userId, g.orderId);
    assert |OrderRows(rows, userId, g.orderId)| > 0;
  }

  /** So the listing's `orderItems.length > 0` test always passes: there is one view per group
      on the page, in page order, each built from that order's rows newest first. */
  lemma ListedViews(rows: seq<LineItem>, userId: string, groups: seq<OrderGroup>)
    requires forall g :: g in groups ==> g in SortedGroups(rows, userId)
    ensures |ViewsOf(rows, userId, groups)| == |groups|
    ensures forall i :: 0 <= i < |groups| ==>
              |NewestFirst(rows, userId, groups[i].orderId)| > 0 &&
              ViewsOf(rows, userId, groups)[i] == ViewOf(groups[i].orderId, NewestFirst(rows, userId, groups[i].orderId))
  {
    forall i | 0 <= i < |groups| ensures |NewestFirst(rows, userId, groups[i].orderId)| > 0 {
      GroupHasRows(rows, userId, groups[i]);
    }
    ViewsNonEmpty(ItemsOf(rows, userId), groups);
  }

  /** When every group has rows, the loop keeps one view per group, in order. */
  lemma {:induction false} ViewsNonEmpty(itemsOf: OrderGroup -> seq<LineItem>, groups: seq<OrderGroup>)
    requires forall i :: 0 <= i < |groups| ==> |itemsOf(groups[i])| > 0
    ensures |Views(itemsOf, groups)| == |groups|
    ensures forall i :: 0 <= i < |groups| ==> Views(itemsOf, groups)[i] == ViewOf(groups[i].orderId, itemsOf(groups[i]))
  {
    if |groups| > 0 {
      var n := |groups| - 1;
      var prefix := groups[..n];
      ViewsNonEmpty(itemsOf, prefix);
      var before, view := Views(itemsOf, prefix), ViewOf(groups[n].orderId, itemsOf(groups[n]));
      assert Views(itemsOf, groups) == before + [view];
      forall i | 0 <= i < n ensures Views(itemsOf, groups)[i] == ViewOf(groups[i].orderId, itemsOf(groups[i])) {
        assert prefix[i] == groups[i];
      }
    }
  }

  /** The listing is newest first across pages: a group on an earlier page started no earlier
      than any group on a later one. */
  lemma ListingNewestFirst(rows: seq<LineItem>, userId: string, limit: int, p: int, q: int,
                           g: OrderGroup, h: OrderGroup)
    requires limit > 0 && 1 <= p < q
    requires g in Page(SortedGroups(rows, userId), p, limit) && h in Page(SortedGroups(rows, userId), q, limit)
    ensures g.firstOrderDate >= h.firstOrderDate
  {
    var key := (g: OrderGroup) => g.firstOrderDate;
    RankOrder.SortDescSorted(Groups(rows, userId), key);
    SortedPagesOrdered(SortedGroups(rows, userId), key, limit, p, q, g, h);
  }

  /** The listed groups carry distinct orders, so their pages are disjoint. */
  lemma SortedGroupsDistinct(rows: seq<LineItem>, userId: string)
    ensures RankOrder.Distinct(SortedGroups(rows, userId))
  {
    var groups := Groups(rows, userId);
    assert RankOrder.Distinct(groups) by {
      forall i, j | 0 <= i < j < |groups| ensures groups[i] != groups[j] {
        assert groups[i].orderId != groups[j].orderId;
      }
    }
    RankOrder.SortDescDistinct(groups, (g: OrderGroup) => g.firstOrderDate);
  }
}
