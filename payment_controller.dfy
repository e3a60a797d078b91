/** The payment handlers: building a payment URL for an order, the VNPay return callback that
    marks an order paid, and the payment-status lookup. */
module PaymentController {
  import opened Wrappers
  import opened Http
  import opened OrderModel
  import VNPay
  import OrderController

  const ProvidePaymentInfo := "Vui lòng cung cấp đầy đủ thông tin thanh toán"
  const UrlCreatedMessage := "Đã tạo URL thanh toán"
  const InvalidSignature := "Chữ ký không hợp lệ"
  const ProvideOrderId := "Vui lòng cung cấp mã đơn hàng"
  const OrderNotFound := "Không tìm thấy đơn hàng"
  const PaymentInfo := "Thông tin thanh toán"

  /** The `TypeError` thrown when every address lookup fails and
      `request.connection.socket.remoteAddress` is read from `undefined`. */
  const NoSocketAddress := "Cannot read properties of undefined (reading 'remoteAddress')"

  // ---------------------------------------------------------------------------
  // createPaymentUrlController

  /** The request body; a missing field is "" or `None`. */
  datatype UrlRequest = UrlRequest(orderId: string, amount: Option<int>, orderInfo: string)

  datatype UrlReply = UrlRefused(response: Response) | UrlCreated(paymentUrl: string)

  /** `!amount`: absent and zero amounts are falsy. */
  predicate Truthy(amount: Option<int>) {
    amount.Some? && amount.value != 0
  }

  /** The address chain `x-forwarded-for || connection.remoteAddress || socket.remoteAddress ||
      connection.socket.remoteAddress`; the last step throws, shown as `None`. */
  function PaymentIp(forwardedFor: string, connectionAddress: string, socketAddress: string): (ip: Option<string>)
    ensures ip.Some? <==> forwardedFor != "" || connectionAddress != "" || socketAddress != ""
    ensures ip.Some? ==> ip.value != "" && ip.value in {forwardedFor, connectionAddress, socketAddress}
    ensures forwardedFor != "" ==> ip == Some(forwardedFor)
  {
    if forwardedFor != "" then Some(forwardedFor)
    else if connectionAddress != "" then Some(connectionAddress)
    else if socketAddress != "" then Some(socketAddress)
    else None
  }

  /** `createPaymentUrlController`. The return URL passed along is the same environment
      variable the VNPay configuration reads. */
  method CreatePaymentUrlHandler(env: OrderController.Env, body: UrlRequest,
                                 forwardedFor: string, connectionAddress: string, socketAddress: string,
                                 now: int)
    returns (reply: UrlReply)
    ensures (body.orderId == "" || !Truthy(body.amount) || body.orderInfo == "") ==>
              reply == UrlRefused(Fail(400, ProvidePaymentInfo))
    ensures body.orderId != "" && Truthy(body.amount) && body.orderInfo != "" ==>
              var ip := PaymentIp(forwardedFor, connectionAddress, socketAddress);
              if ip.None? then reply == UrlRefused(Fail(500, NoSocketAddress))
              else if env.vnpay.hashSecret.None? then reply == UrlRefused(Fail(500, VNPay.CannotCreateUrl))
              else
                var req := VNPay.PaymentRequest(body.orderId, body.amount.value, body.orderInfo, ip.value, env.vnpay.returnUrl);
                reply == UrlCreated(env.vnpay.url + "?" +
                           VNPay.Stringify(VNPay.Sign(env.vnpay.hashSecret.value, env.hmac,
                                                      VNPay.PaymentParams(env.vnpay, env.format, req, now))))
  {
    if body.orderId == "" || !Truthy(body.amount) || body.orderInfo == "" {
      return UrlRefused(Fail(400, ProvidePaymentInfo));
    }
    var ip := PaymentIp(forwardedFor, connectionAddress, socketAddress);
    if ip.None? {
      return UrlRefused(Fail(500, NoSocketAddress));
    }
    var req := VNPay.PaymentRequest(body.orderId, body.amount.value, body.orderInfo, ip.value, env.vnpay.returnUrl);
    var url := VNPay.CreatePaymentUrl(env.vnpay, env.hmac, env.format, req, now);
    match url
    case Err(message) =>
      reply := UrlRefused(Fail(500, message));
    case Ok(paymentUrl) =>
      reply := UrlCreated(paymentUrl);
  }

  // ---------------------------------------------------------------------------
  // vnpayReturnController

  datatype ReturnReply = ReturnRefused(response: Response) | Redirect(url: string)

  /** A query field interpolated into a template string; a missing one reads "undefined". */
  function Text(field: Option<string>): string {
    if field.Some? then field.value else "undefined"
  }

  /** The `$set` a successful payment applies. */
  function PaidSet(transactionNo: string): SetClause {
    SetClause(Some(Paid), Some(Confirmed), Some(transactionNo), None)
  }

  function SuccessUrl(frontendUrl: string, txnRef: string): string {
    frontendUrl + "/success?orderId=" + txnRef
  }

  function NotFoundUrl(frontendUrl: string): string {
    frontendUrl + "/cancel?error=order_not_found"
  }

  function FailedUrl(frontendUrl: string, code: string): string {
    frontendUrl + "/cancel?error=payment_failed&code=" + code
  }

  /** `vnpayReturnController` on the query `vnpParams`. A forged query is refused; a success
      code marks every row of the order paid and confirmed, if there is one; anything else
      redirects to the cancel page and changes nothing. */
  method VnpayReturn(orders: OrderCollection, env: OrderController.Env, vnpParams: VNPay.Params, now: Time)
    returns (reply: ReturnReply)
    requires orders.Valid()
    modifies orders
    ensures orders.Valid()
    ensures !VNPay.IsValidSignature(env.vnpay, env.hmac, vnpParams) ==>
              reply == ReturnRefused(Fail(400, InvalidSignature)) && orders.rows == old(orders.rows)
    ensures VNPay.IsValidSignature(env.vnpay, env.hmac, vnpParams) ==>
              var code := VNPay.Get(vnpParams, "vnp_ResponseCode");
              var txnRef := Text(VNPay.Get(vnpParams, "vnp_TxnRef"));
              var f := ByTxnPattern(txnRef);
              if code != Some("00") then
                reply == Redirect(FailedUrl(env.frontendUrl, Text(code))) && orders.rows == old(orders.rows)
              else if Find(old(orders.rows), f) == [] then
                reply == Redirect(NotFoundUrl(env.frontendUrl)) && orders.rows == old(orders.rows)
              else
                var transactionNo := VNPay.Get(vnpParams, "vnp_TransactionNo").GetOr("");
                reply == Redirect(SuccessUrl(env.frontendUrl, txnRef)) &&
                orders.rows == UpdateRows(old(orders.rows), f, StampUpdate(Some(PaidSet(transactionNo)), now).value, now)
  {
    var valid := VNPay.VerifyReturnUrl(env.vnpay, env.hmac, vnpParams);
    if !valid {
      return ReturnRefused(Fail(400, InvalidSignature));
    }
    var code := VNPay.Get(vnpParams, "vnp_ResponseCode");
    var txnRef := Text(VNPay.Get(vnpParams, "vnp_TxnRef"));
    if code == Some("00") {
      var orderItems := Find(orders.rows, ByTxnPattern(txnRef));
      if |orderItems| > 0 {
        var transactionNo := VNPay.Get(vnpParams, "vnp_TransactionNo").GetOr("");
        orders.UpdateMany(ByTxnPattern(txnRef), PaidSet(transactionNo), now);
        reply := Redirect(SuccessUrl(env.frontendUrl, txnRef));
      } else {
        reply := Redirect(NotFoundUrl(env.frontendUrl));
      }
    } else {
      reply := Redirect(FailedUrl(env.frontendUrl, Text(code)));
    }
  }

  /** A success callback changes exactly the rows of the order: each becomes `Paid` and
      `Confirmed` whatever its earlier status (a cancelled order included), carries the
      transaction number and is dated now; every other row is untouched. */
  lemma SuccessMarksOrderRows(rows: seq<LineItem>, txnRef: string, transactionNo: string, now: Time)
    ensures var after := UpdateRows(rows, ByTxnPattern(txnRef), StampUpdate(Some(PaidSet(transactionNo)), now).value, now);
            forall i :: 0 <= i < |rows| ==>
              if MatchesTxnPattern(txnRef, rows[i].orderId) then
                && after[i].paymentStatus == Paid && after[i].orderStatus == Confirmed
                && after[i].paymentId == transactionNo && after[i].paymentDate == Some(now)
                && after[i].(paymentStatus := rows[i].paymentStatus, orderStatus := rows[i].orderStatus,
                             paymentId := rows[i].paymentId, paymentDate := rows[i].paymentDate,
                             updatedAt := rows[i].updatedAt) == rows[i]
              else after[i] == rows[i]
  {
    StampUpdateFacts(Some(PaidSet(transactionNo)), now);
  }

  /** Replaying a success callback leaves every status and the payment id as one application
      left them; only `payment_date` and `updatedAt` move to the replay's time. */
  lemma ReplayKeepsStatuses(rows: seq<LineItem>, txnRef: string, transactionNo: string, first: Time, second: Time)
    ensures var f := ByTxnPattern(txnRef);
            var once := UpdateRows(rows, f, StampUpdate(Some(PaidSet(transactionNo)), first).value, first);
            var twice := UpdateRows(once, f, StampUpdate(Some(PaidSet(transactionNo)), second).value, second);
            |twice| == |once| &&
            forall i :: 0 <= i < |once| ==>
              twice[i] == if Matches(f, rows[i]) then once[i].(paymentDate := Some(second), updatedAt := second)
                          else once[i]
  {
    var f := ByTxnPattern(txnRef);
    StampUpdateFacts(Some(PaidSet(transactionNo)), first);
    StampUpdateFacts(Some(PaidSet(transactionNo)), second);
    var once := UpdateRows(rows, f, StampUpdate(Some(PaidSet(transactionNo)), first).value, first);
    forall i | 0 <= i < |once| ensures Matches(f, once[i]) == Matches(f, rows[i]) {
      assert once[i].orderId == rows[i].orderId;
    }
  }

  /** Order ids are `"YM-" + nanoid(10)`, all of one length. A reference never matches an id of
      its own length, so when the reference is such an id, no row is found and the callback
      ends on the not-found page however the payment went. */
  lemma SameLengthIdsNeverMatch(rows: seq<LineItem>, txnRef: string)
    requires forall i :: 0 <= i < |rows| ==> |rows[i].orderId| == |txnRef|
    ensures Find(rows, ByTxnPattern(txnRef)) == []
  {
    var found := Find(rows, ByTxnPattern(txnRef));
    forall x | x in rows ensures !MatchesTxnPattern(txnRef, x.orderId) {
      var i :| 0 <= i < |rows| && rows[i] == x;
    }
  }

  /** A reference `ref` matches `ref + "-" + digits` and nothing without the dash and digits:
      the pattern expects ids carrying a numeric suffix. */
  lemma SuffixedIdMatches(txnRef: string, digits: string)
    requires |digits| > 0 && forall i :: 0 <= i < |digits| ==> IsAsciiDigit(digits[i])
    ensures MatchesTxnPattern(txnRef, txnRef + "-" + digits)
    ensures !MatchesTxnPattern(txnRef, txnRef)
    ensures !MatchesTxnPattern(txnRef, txnRef + "-")
  {
    var id := txnRef + "-" + digits;
    assert id[..|txnRef|] == txnRef;
    forall i | |txnRef| < i < |id| ensures IsAsciiDigit(id[i]) {
      assert id[i] == digits[i - |txnRef| - 1];
    }
  }

  // ---------------------------------------------------------------------------
  // checkPaymentStatusController

  datatype StatusReply = StatusRefused(response: Response)
                       | Status(orderId: string, paymentStatus: string, orderStatus: string)

  /** `checkPaymentStatusController`: 400 without an id, 404 when no row's `orderId` matches
      `^<orderId>-\d+$`, otherwise the statuses of the first stored row that matches. */
  function CheckPaymentStatus(rows: seq<LineItem>, orderId: string): (reply: StatusReply)
    ensures orderId == "" ==> reply == StatusRefused(Fail(400, ProvideOrderId))
    ensures orderId != "" && (forall x :: x in rows ==> !MatchesTxnPattern(orderId, x.orderId)) ==>
              reply == StatusRefused(Fail(404, OrderNotFound))
    ensures reply.Status? ==>
              reply.orderId == orderId &&
              exists x :: x in rows && MatchesTxnPattern(orderId, x.orderId) &&
                          reply.paymentStatus == PaymentStatusName(x.paymentStatus) &&
                          reply.orderStatus == OrderStatusName(x.orderStatus)
    ensures orderId != "" && (exists x :: x in rows && MatchesTxnPattern(orderId, x.orderId)) ==>
              reply.Status? &&
              reply.paymentStatus == PaymentStatusName(Find(rows, ByTxnPattern(orderId))[0].paymentStatus) &&
              reply.orderStatus == OrderStatusName(Find(rows, ByTxnPattern(orderId))[0].orderStatus)
  {
    if orderId == "" then StatusRefused(Fail(400, ProvideOrderId))
    else
      match FindOne(rows, ByTxnPattern(orderId))
      case None =>
        assert forall x :: x in rows ==> !MatchesTxnPattern(orderId, x.orderId) by {
          forall x | x in rows ensures !MatchesTxnPattern(orderId, x.orderId) {
            assert x !in Find(rows, ByTxnPattern(orderId));
          }
        }
        StatusRefused(Fail(404, OrderNotFound))
      case Some(row) =>
        assert row in Find(rows, ByTxnPattern(orderId));
        Status(orderId, PaymentStatusName(row.paymentStatus), OrderStatusName(row.orderStatus))
  }

  /** Setting fields never changes whether a row matches a filter. */
  lemma ApplySetKeepsMatch(f: Filter, x: LineItem, s: SetClause, now: Time)
    ensures Matches(f, ApplySet(x, s, now)) == Matches(f, x)
  {
  }

  /** The first step of `find` over updated rows. */
  lemma UpdatedFindStep(rows: seq<LineItem>, f: Filter, s: SetClause, now: Time)
    requires |rows| > 0
    ensures Find(UpdateRows(rows, f, s, now), f) ==
            (if Matches(f, rows[0]) then [ApplySet(rows[0], s, now)] else []) + Find(UpdateRows(rows[1..], f, s, now), f)
  {
    var updated := UpdateRows(rows, f, s, now);
    assert updated[1..] == UpdateRows(rows[1..], f, s, now);
    ApplySetKeepsMatch(f, rows[0], s, now);
  }

  /** `find` after `updateMany` with the same filter sees the updated copies of the rows it
      saw before, in the same order. */
  lemma {:induction false} FindAfterUpdate(rows: seq<LineItem>, f: Filter, s: SetClause, now: Time)
    ensures var before := Find(rows, f);
            var after := Find(UpdateRows(rows, f, s, now), f);
            |after| == |before| && forall k :: 0 <= k < |before| ==> after[k] == ApplySet(before[k], s, now)
  {
    if |rows| > 0 {
      UpdatedFindStep(rows, f, s, now);
      FindAfterUpdate(rows[1..], f, s, now);
      var before, after := Find(rows[1..], f), Find(UpdateRows(rows[1..], f, s, now), f);
      var head := if Matches(f, rows[0]) then [rows[0]] else [];
      var headAfter := if Matches(f, rows[0]) then [ApplySet(rows[0], s, now)] else [];
      assert Find(rows, f) == head + before;
      forall k | 0 <= k < |head + before| ensures (headAfter + after)[k] == ApplySet((head + before)[k], s, now) {
        if k >= |head| {
          assert (head + before)[k] == before[k - |head|];
        }
      }
    }
  }

  /** After a success callback the status check reports the order paid and confirmed. */
  lemma StatusAfterSuccess(rows: seq<LineItem>, txnRef: string, transactionNo: string, now: Time)
    requires txnRef != ""
    requires Find(rows, ByTxnPattern(txnRef)) != []
    ensures CheckPaymentStatus(UpdateRows(rows, ByTxnPattern(txnRef), StampUpdate(Some(PaidSet(transactionNo)), now).value, now), txnRef)
            == Status(txnRef, "Paid", "Confirmed")
  {
    var s := StampUpdate(Some(PaidSet(transactionNo)), now).value;
    StampUpdateFacts(Some(PaidSet(transactionNo)), now);
    FindAfterUpdate(rows, ByTxnPattern(txnRef), s, now);
  }
}
