# Yumora order, payment and account core, in Dafny

Yumora is an online grocery shop: an Express/MongoDB server with a React client. This project
models the part of it that carries the money and the accounts, and proves properties of that
model:

- **VNPay codec** (`VNPay`): `sortObject`, the payment-URL builder `createPaymentUrl`, return-URL
  verification `verifyReturnUrl` and the response-code table. HMAC-SHA512 and the `moment`
  date formatting are parameters of the model, so every property holds for any HMAC and any
  formatter. The tamper-rejection lemmas additionally ask that the HMAC tell different sign
  data apart.
- **Order ledger** (`OrderModel`, `OrderController`): one stored row per line item, grouped by a
  shared `orderId` of the form `YM-<nanoid>`. It covers:
  - the schema's enums, defaults and `min` bounds;
  - the three `pre` hooks that stamp `payment_date`;
  - order creation, the paginated per-user listing, the detail view and cancel.
- **Payment callback** (`PaymentController`): the payment-URL endpoint, the VNPay return callback
  that marks an order paid, and the status check.
- **Cart table** (`CartController`): one row per user and product.
- **Product handlers** (`ProductController`): the create and update checks and clamping, delete,
  and the listing, search and category queries with their page arithmetic (`Paging`).
- **Accounts** (`UserController`): the register and login guards, the partial profile update,
  and forgotten-password OTP issue, verify and reset.
- **OTP form** (`OtpVerification`): the client's six-slot code entry.

The helper modules are:
- `Wrappers`: `Option` and `Result`;
- `JsSemantics`: JavaScript's `slice`, `Math.ceil` and integer-to-text;
- `KeyOrder`: the default string order of `Array.prototype.sort`;
- `RankOrder`: a descending sort standing for a Mongo `{ field: -1 }` sort, in which records
  with equal keys come out in reverse stored order;
- `Http`: the JSON replies.

The store is modelled as one class per collection. Each class holds a `seq` of records, and
its handler methods state the new contents. Queries (`find`, `findOne`, `updateMany`,
`deleteOne`) are pure functions over those sequences. The mongoose hooks are small classes
(`OrderDocument`, `UpdateQuery`) whose methods change the document or the `$set` in place, as
the hooks do.

The model follows the code as written, including where its behaviour is easy to miss:

- **The callback cannot find orders that `createOrderController` writes.** It matches rows with
  `^<txnRef>-\d+$`. `createOrderController` writes bare `YM-xxxxxxxxxx` ids, all of one length,
  and such an id never matches (`SameLengthIdsNeverMatch`). A successful VNPay payment for a
  created order therefore ends on `order_not_found`. `SuffixedIdMatches` shows what the pattern
  does accept.
- **A success callback can revive a cancelled order.** It sets `order_status` to `Confirmed`
  whatever the order's current status was.
- **Replaying a success callback re-stamps `payment_date`.** The `updateMany` hook stamps it on
  every `Paid` update. Statuses and `paymentId` stay the same (`ReplayKeepsStatuses`).
- **The sign data is not URL-encoded.** `qs.stringify(…, { encode: false })` joins the raw
  values, so a value holding `&b=2` signs the same text as a separate field `b`
  (`UnencodedSignDataIsAmbiguous`).
- **`resetPassword` never looks at the OTP.** It resets the password whether or not an OTP was
  verified (`ResetIgnoresOtp`, `ResetWithoutOtp`).
- **`forgotPasswordController` does not compute "now plus one hour".** It computes the expiry
  by concatenating a string. The model takes the expiry as a given value.
- **`getProductByCategoryAndSubCategory` reassigns its `const` `page` and `limit`.** So any
  request that omits either one throws, and is answered with 500 (`OmittedPagingNeverLists`).
- **Several digits delivered to one OTP slot replace the whole form.** Every slot has
  `maxLength={1}`, so the branch is reached only when an input delivers more than one character
  despite that limit. Two to five digits then shrink the form to that many slots, and the
  Verify button is enabled with a code shorter than six digits (`ShortPasteSubmitsShortCode`).
- **`createProductController` passes `Math.max(0, Number(undefined))`, which is `NaN`, when no
  stock is sent.** What is then stored depends on the ProductModel schema, which is not part of
  this model. The model stores the stock as absent.
- **`getProductDetails` and `forgotPasswordController` do not check that their lookup field was
  sent.** An absent `productId` or `email` drops out of the `findOne` filter, so the first stored
  product is returned, or the first stored user receives the OTP. An empty `productId` cannot be
  cast to an ObjectId and is answered with 500.
- **Falsy fields before a missing list fail differently from a missing list itself.** The
  required-field test of `createProductController` reads `image[0]`, `category[0]` and
  `subCategory[0]` in order. A missing list therefore throws (500) unless an earlier field was
  already falsy (400) (`MissingFields`).
- **The resend button also submits the OTP form.** It has no `type`, so it is a submit button,
  and the first one, so Enter in a slot presses it too. `handleSubmit` then sends whatever the
  slots hold, even with empty slots (`Resend`, `JoinLength`).
- **Keys that are array indices come first.** `Object.keys`, and so `qs.stringify`, lists keys
  such as `9` and `10` in numeric order ahead of every other key, not in the `sort()` order in
  which `sortObject` added them (`IndexKeysComeFirst`). No field `createPaymentUrl` builds is
  such a key (`SignedRequestInOwnKeyOrder`).
- **`getVNPayErrorMessage` can return an inherited member instead of the fallback.** It looks
  codes up in a plain object literal, so a code such as `"toString"` finds an inherited
  member of `Object.prototype`, not the fallback text.

## Model

| member | source | states |
|---|---|---|
| VNPay.Keys | server/config/vnpay.js:107 | `Object.keys`: one key per field, in field order |
| VNPay.Get | server/config/vnpay.js:74 | a lookup finds a value exactly when the key is present, and that field is in the object |
| VNPay.Remove | server/config/vnpay.js:77-79 | `delete` keeps exactly the fields under other keys and drops the key |
| VNPay.Assign | server/config/vnpay.js:58 | assigning a new key appends the field at the end, which is where JavaScript puts a key that is not an array index, such as `vnp_SecureHash`; the key then reads the assigned value |
| VNPay.Pick | server/config/vnpay.js:109-111 | the sorted object has one field per sorted key |
| VNPay.GetMember | server/config/vnpay.js:110 | in an object with distinct keys, a field's key reads back its value |
| VNPay.RemoveKeepsDistinct | server/config/vnpay.js:77-79 | deleting a key keeps the keys distinct and never adds fields |
| VNPay.RemoveAbsent | server/config/vnpay.js:78-79 | deleting an absent key changes nothing |
| VNPay.RemoveAppend | server/config/vnpay.js:77-79 | deleting distributes over concatenation |
| VNPay.SameEntriesSameKeys | server/config/vnpay.js:107 | objects with the same fields have the same keys |
| VNPay.AppendNewKey | server/config/vnpay.js:58 | appending `vnp_SecureHash` to a sorted object keeps the keys distinct and makes the hash readable |
| VNPay.SortedObjectFacts | server/config/vnpay.js:105-114 | `sortObject` keeps exactly the input's fields, as many, in the ascending order of `sort()`; `Object.keys` lists them in that order when no key is an array index (`SignedInOwnKeyOrder`) |
| VNPay.SortedObjectOfAscending | server/config/vnpay.js:105-114 | sorting an already ascending object returns it unchanged |
| VNPay.SameEntriesSameSortedObject | server/config/vnpay.js:105-114 | the sorted object depends only on which fields there are, not on their order |
| VNPay.StringifyValueChange | server/config/vnpay.js:52 | changing one value (keys untouched) changes the unencoded sign data |
| VNPay.SortObject | server/config/vnpay.js:105-114 | the loop builds the object of the sorted keys, in the order they are added; for distinct keys they ascend and the object holds exactly the input's fields |
| VNPay.SignFacts | server/config/vnpay.js:49-58 | the signed object is the sorted fields followed by `vnp_SecureHash` = HMAC of their sign data, and every input field stays readable |
| VNPay.CreatePaymentUrl | server/config/vnpay.js:26-69 | without a secret the call fails with "Không thể tạo URL thanh toán"; otherwise the URL is base `?` the unencoded join of the sorted, signed fields |
| VNPay.VerifyReturnUrl | server/config/vnpay.js:72-102 | answers the re-signed comparison, over the fields in sorted order, after dropping both hash fields; false without a secret; true only when a hash was sent |
| VNPay.PaymentParamsFacts | server/config/vnpay.js:32-46 | the request object has distinct keys, all starting with `vnp_`, and no hash field |
| VNPay.SignedFieldReadable | server/config/vnpay.js:49-58 | every unsigned field can be read back from the signed object |
| VNPay.SignedRequestOrder | server/config/vnpay.js:38-41 | the signed request carries `vnp_TxnRef` = order id and `vnp_Amount` = amount × 100 |
| VNPay.SignedRequestReturnUrl | server/config/vnpay.js:42 | `vnp_ReturnUrl` is the given return URL, or the configured one when none is given |
| VNPay.SignedRequestProtocol | server/config/vnpay.js:33-37 | version `2.1.0`, command `pay`, currency `VND` |
| VNPay.SignedRequestWindow | server/config/vnpay.js:28-58 | `vnp_ExpireDate` is the formatted time 15 minutes after `vnp_CreateDate`; the hash is the HMAC of the sorted unsigned fields |
| VNPay.VerificationIgnoresOrder | server/config/vnpay.js:77-97 | verification gives the same answer for any order of the same fields |
| VNPay.SignThenVerify | server/config/vnpay.js:49-97 | round trip: any signed object verifies, in any field order |
| VNPay.CreatedUrlVerifies | server/config/vnpay.js:26-97 | the fields of a URL built by `createPaymentUrl` verify when they come back, in any order |
| VNPay.StripTrailingHash | server/config/vnpay.js:77-79 | dropping the hash fields from sorted fields plus a hash leaves the sorted fields |
| VNPay.TamperedHashRejected | server/config/vnpay.js:88-97 | a hash other than the HMAC of the sorted fields is rejected |
| VNPay.TamperedFieldRejected | server/config/vnpay.js:85-97 | a field changed after signing is rejected when the HMAC tells the sign data apart |
| VNPay.SortedWithoutHash | server/config/vnpay.js:49-82 | sorting hash-free fields gives ascending, hash-free fields |
| VNPay.TamperedValueRejected | server/config/vnpay.js:77-97 | with an injective HMAC, changing the value of any one signed field, hash included, fails verification |
| VNPay.UnencodedSignDataIsAmbiguous | server/config/vnpay.js:52-85 | two different objects can have the same unencoded sign data |
| VNPay.OwnKeys | server/config/vnpay.js:105-114 | `Object.keys` of an object filled in a given key order: the array indices, in numeric order, then the other keys as added |
| VNPay.OwnKeysWithoutIndices | server/config/vnpay.js:105-114 | without array-index keys, `Object.keys` gives the keys in the order they were added |
| VNPay.SignedInOwnKeyOrder | server/config/vnpay.js:49-61 | signing an object without array-index keys gives fields that `Object.keys` lists in the model's order |
| VNPay.SignedRequestInOwnKeyOrder | server/config/vnpay.js:32-61 | the URL `createPaymentUrl` builds lists its fields in the model's order, as no `vnp_` name is an array index |
| VNPay.IndexKeysComeFirst | server/config/vnpay.js:77-85 | for a returned query with keys `9` and `10`, the sort gives `10, 9` and `Object.keys` gives `9, 10` |
| VNPay.ErrorMessageTable | server/config/vnpay.js:117-135 | listed codes give their message (`"00"` the success text); other non-inherited codes give `Lỗi không xác định (<code>)`, distinct per code |
| KeyOrder.LessIrreflexive | server/config/vnpay.js:107 | the sort order is irreflexive |
| KeyOrder.LessAsymmetric | server/config/vnpay.js:107 | the sort order is asymmetric |
| KeyOrder.LessTransitive | server/config/vnpay.js:107 | the sort order is transitive |
| KeyOrder.LessConnected | server/config/vnpay.js:107 | any two different keys are ordered |
| KeyOrder.AscendingDistinct | server/config/vnpay.js:107 | ascending keys are distinct |
| KeyOrder.DistinctMultiplicity | server/config/vnpay.js:107 | distinct keys occur once each |
| KeyOrder.Insert | server/config/vnpay.js:107 | one insertion step adds exactly one key |
| KeyOrder.InsertAscending | server/config/vnpay.js:107 | inserting a new key keeps the keys ascending |
| KeyOrder.SortKeys | server/config/vnpay.js:107 | `sort()` rearranges the same keys |
| KeyOrder.SortKeysAscending | server/config/vnpay.js:107 | distinct keys come out strictly ascending |
| KeyOrder.SortAscendingIsIdentity | server/config/vnpay.js:107 | sorting ascending keys changes nothing |
| KeyOrder.AscendingHeadIsLeast | server/config/vnpay.js:107 | the first of ascending keys precedes every other |
| KeyOrder.AscendingTail | server/config/vnpay.js:107 | the tail of ascending keys is ascending |
| KeyOrder.MultisetTail | server/config/vnpay.js:107 | the tail holds all keys but the first |
| KeyOrder.AscendingUnique | server/config/vnpay.js:107 | two ascending arrangements of the same keys are equal, so the sort result is unique |
| JsSemantics.SliceIndex | server/controllers/order.controller.js:142-145 | a `slice` bound is clamped to the length; in-range bounds are kept |
| JsSemantics.Slice | server/controllers/order.controller.js:142-145 | `slice(start, end)` with in-range bounds is that subsequence, never longer than the input |
| JsSemantics.Ceil | server/controllers/order.controller.js:138 | `Math.ceil(x)` is the integer `r` with `r - 1 < x <= r` |
| JsSemantics.NatToString | server/config/vnpay.js:41 | a non-negative number prints as a nonempty digit string |
| JsSemantics.IntToString | server/config/vnpay.js:41 | an integer prints with a leading digit, or `-` when negative |
| JsSemantics.DigitChar | server/config/vnpay.js:41 | each decimal digit prints as a digit character |
| OrderModel.ParsePaymentMethod | server/models/order.model.js:50-55 | the enum check accepts exactly the names `COD` and `Online` |
| OrderModel.ParsePaymentStatus | server/models/order.model.js:56-60 | accepts exactly `Pending`, `Paid`, `Failed`, `Refunded` |
| OrderModel.ParseOrderStatus | server/models/order.model.js:61-65 | accepts exactly `Processing`, `Confirmed`, `Shipped`, `Delivered`, `Cancelled` |
| OrderModel.ValidatedRow | server/models/order.model.js:5-92 | a validated row keeps the given fields, meets quantity ≥ 1, price and total ≥ 0, and has no payment date |
| OrderModel.ValidateDefaults | server/models/order.model.js:30-87 | absent fields default to quantity 1, `COD`, `Pending`, `Processing`, empty paymentId, no payment date |
| OrderModel.ValidateRejects | server/models/order.model.js:5-72 | a draft is accepted exactly when every required field is present, the amounts meet their `min` and each enum field is absent or one of its values |
| OrderModel.SaveStampFacts | server/models/order.model.js:104-113 | the save hook only touches `payment_date`: it keeps an existing date, and dates a row just modified to `Paid` |
| OrderModel.OrderDocument.constructor | server/models/order.model.js:104 | the hook sees the document and whether `payment_status` was modified |
| OrderModel.OrderDocument.PreSave | server/models/order.model.js:104-113 | the hook's in-place effect on the document is that stamp |
| OrderModel.StampUpdateFacts | server/models/order.model.js:115-129 | an update setting `Paid` always (re)stamps `payment_date` with now; any other update is left alone |
| OrderModel.UpdateQuery.constructor | server/models/order.model.js:115 | the hook sees the query's `$set`, if any |
| OrderModel.UpdateQuery.PreUpdate | server/models/order.model.js:115-129 | the `updateOne`/`updateMany` hooks change the query's `$set` in place as stated |
| OrderModel.Find | server/controllers/payment.controller.js:73-75 | `find` returns exactly the stored rows that match, and never more rows than are stored |
| OrderModel.FindOne | server/controllers/payment.controller.js:126-128 | `findOne` is the first match, absent exactly when nothing matches |
| OrderModel.UpdateRows | server/controllers/payment.controller.js:79-88 | `updateMany` applies the `$set` to every matching row and leaves the others |
| OrderModel.SavePreservesRowInvariant | server/models/order.model.js:104-113 | a saved row meets the bounds, and a `Paid` row carries a payment date |
| OrderModel.UpdatePreservesInvariant | server/models/order.model.js:115-129 | updates through the hook keep every row's invariant and the distinct `_id`s |
| OrderModel.OrderCollection.constructor | server/models/order.model.js:131 | an empty collection, which meets the store invariant |
| OrderModel.OrderCollection.Save | server/models/order.model.js:104-113 | a save validates, runs the hook, and appends the row; a failed validation writes nothing |
| OrderModel.OrderCollection.UpdateMany | server/models/order.model.js:123-129 | the hook runs first, then every matching row is updated; the invariant is kept |
| OrderController.Drafts | server/controllers/order.controller.js:32-49 | one document per product |
| OrderController.Outcomes | server/controllers/order.controller.js:51 | one save outcome per document |
| OrderController.Leading | server/controllers/order.controller.js:32-53 | the rows the loop collects before the first failed save are never more than the outcomes |
| OrderController.LeadingFacts | server/controllers/order.controller.js:32-53 | the collected rows are the leading successes in order; when the loop stopped early, the next save failed |
| OrderController.LeadingAppend | server/controllers/order.controller.js:32-53 | collecting across concatenated outcomes |
| OrderController.LeadingStep | server/controllers/order.controller.js:51-52 | a failed save ends the collection, a success extends it by one row |
| OrderController.SaveRows | server/controllers/order.controller.js:32-53 | the rows written are never more than the products |
| OrderController.SaveRowsFacts | server/controllers/order.controller.js:37-52 | each row written is the validated, stamped document for its product; a short run means the next document failed validation |
| OrderController.SaveRowsIds | server/controllers/order.controller.js:51-57 | the rows written carry the given `_id`s, in order |
| OrderController.TotalOf | server/controllers/order.controller.js:159-162 | the sum of `itemTotal` is non-negative when every item's is |
| OrderController.CreatedRowFacts | server/controllers/order.controller.js:26-49 | every created row has the one generated order id, the caller, the address and the payment method, and starts `Pending`/`Processing` with no payment date |
| OrderController.CreatedRowAmounts | server/controllers/order.controller.js:33-44 | every created row has `itemTotal = price × quantity` for its product, and quantity ≥ 1 |
| OrderController.ClientIp | server/controllers/order.controller.js:66-70 | never empty: one of the forwarded header, the two socket addresses or `127.0.0.1`, and the forwarded header whenever it is truthy |
| OrderController.SaveNext | server/controllers/order.controller.js:37-51 | one save appends exactly the saved row, or nothing |
| OrderController.SaveRowsStep | server/controllers/order.controller.js:32-53 | the rows written grow by one product's outcome, and stop at the first failure |
| OrderController.SavedId | server/controllers/order.controller.js:51 | a saved row carries its `_id` |
| OrderController.TotalOfAppend | server/controllers/order.controller.js:35 | adding one row adds its `itemTotal` |
| OrderController.FreshAfterSave | server/controllers/order.controller.js:51 | the later ids stay unused after a save |
| OrderController.SaveItems | server/controllers/order.controller.js:29-53 | the loop writes exactly the leading valid rows, appends them to the collection, and `totalAmount` is their sum |
| OrderController.CreateOrder | server/controllers/order.controller.js:11-116 | 400 with nothing written when a field is missing; otherwise the rows are appended. A failed save gives 500 with the cart kept. On success the history is pushed, the cart emptied, and the reply is the COD answer or a payment URL for the same id and total, signed with the client address `ClientIp` picks |
| OrderController.OrderDetail | server/controllers/order.controller.js:202-257 | 400 without an id, 404 without rows; else exactly the caller's rows of that order, with the sum as total and the status from the first row |
| OrderController.DetailFoundIff | server/controllers/order.controller.js:215-225 | the detail is found exactly when the caller has a row of that order |
| OrderController.DetailTotalNonNegative | server/controllers/order.controller.js:227-230 | the detail total is never negative |
| OrderController.CancelRefusal | server/controllers/order.controller.js:265-291 | 400 without an id, 404 without a row, 400 when the first row is not `Processing`; no refusal exactly when a row exists |
| OrderController.CancelEffect | server/controllers/order.controller.js:294-297 | exactly that order's rows become `Cancelled`; payment status and every other row stay |
| OrderController.SecondCancelRefused | server/controllers/order.controller.js:285-291 | cancelling the same order a second time is refused |
| OrderController.FindAfterCancel | server/controllers/order.controller.js:274-297 | after a cancel the order's rows are the same number, each `Cancelled` |
| OrderController.Cancel | server/controllers/order.controller.js:260-313 | a refusal leaves the rows as they were; otherwise every row of the order is cancelled |
| OrderController.OrderIds | server/controllers/order.controller.js:128-129 | one order id per group |
| OrderController.Absorb | server/controllers/order.controller.js:128-131 | grouping one more row keeps one group per order id |
| OrderController.Groups | server/controllers/order.controller.js:125-133 | one group per order id the user has, and no other |
| OrderController.Views | server/controllers/order.controller.js:150-175 | the loop pushes at most one view per group |
| OrderController.ViewsStep | server/controllers/order.controller.js:158-174 | one loop step pushes the group's view exactly when it has rows |
| OrderController.ListOrders | server/controllers/order.controller.js:119-199 | total orders and `totalPages = ceil(total / limit)`, page and limit default 1 and 6, the views of page `page` of the sorted groups |
| OrderController.GroupHasRows | server/controllers/order.controller.js:154-158 | every listed group has rows |
| OrderController.ListedViews | server/controllers/order.controller.js:158-174 | so the listing has exactly one view per group of the page, in order |
| OrderController.ViewsNonEmpty | server/controllers/order.controller.js:150-175 | when every group has rows the loop keeps them all, in order |
| OrderController.ListingNewestFirst | server/controllers/order.controller.js:134-145 | a group on an earlier page began no earlier than one on a later page |
| OrderController.SortedGroupsDistinct | server/controllers/order.controller.js:128-134 | the sorted groups are distinct, so pages never share an order |
| RankOrder.InsertDesc | server/controllers/order.controller.js:134 | an insertion step adds exactly one element |
| RankOrder.InsertDescSorted | server/controllers/order.controller.js:134 | inserting keeps the sequence sorted largest first |
| RankOrder.SortDesc | server/controllers/order.controller.js:134 | the sort rearranges the same elements |
| RankOrder.SortDescSorted | server/controllers/order.controller.js:134 | the result is sorted by descending key |
| RankOrder.SortDescSameElements | server/controllers/order.controller.js:134 | the sort keeps exactly the elements it was given |
| RankOrder.DistinctCountsOne | server/controllers/order.controller.js:134 | a distinct sequence holds each element at most once |
| RankOrder.SortDescDistinct | server/controllers/order.controller.js:134 | sorting does not create repetitions |
| RankOrder.RepeatCountsTwo | server/controllers/order.controller.js:134 | an element at two positions occurs twice |
| RankOrder.Reversed | server/controllers/order.controller.js:154-156 | the records in reverse order, element by element |
| RankOrder.InsertDescTie | server/controllers/order.controller.js:154-156 | inserting among records of the same key puts the new one last |
| RankOrder.SortDescTiesReversed | server/controllers/order.controller.js:154-156 | records sharing one key come out in reverse stored order, as the rows of one order, saved one after another, do under `sort({ createdAt: -1 })` |
| Paging.PageBounds | server/controllers/order.controller.js:139-145 | page `page` holds exactly the items at positions `(page-1)·limit` up to `page·limit`, within the length |
| Paging.PagesDisjoint | server/controllers/order.controller.js:139-145 | different pages of a repetition-free list share no item |
| Paging.EveryItemListed | server/controllers/order.controller.js:137-145 | item `k` is on page `k / limit + 1`, which is within `totalPages` |
| Paging.DivBounds | server/controllers/order.controller.js:139 | `k` lies on the page starting at `(k / limit)·limit` |
| Paging.TotalPagesBounds | server/controllers/order.controller.js:138 | `ceil(n / limit)` is the least number of pages of `limit` items that holds all `n` |
| Paging.CeilBounds | server/controllers/order.controller.js:138 | integer form of the ceiling bounds |
| Paging.SortedPagesOrdered | server/controllers/order.controller.js:134-145 | over a list sorted largest first, an earlier page's items have keys no smaller than a later page's |
| Paging.PagePosition | server/controllers/order.controller.js:142-145 | where a page's item sits in the whole list |
| PaymentController.PaymentIp | server/controllers/payment.controller.js:18-22 | the first truthy address; none exactly when all three are falsy (the last lookup then throws) |
| PaymentController.CreatePaymentUrlHandler | server/controllers/payment.controller.js:5-46 | 400 on a falsy `orderId`, `amount` or `orderInfo`; 500 when no address or no secret; else the signed URL for that order and amount |
| PaymentController.VnpayReturn | server/controllers/payment.controller.js:49-110 | a bad signature is 400 with no change; a code other than `"00"` redirects to `payment_failed` with no change; no matching row redirects to `order_not_found`; else exactly the matching rows are marked and the client goes to `/success` |
| PaymentController.SuccessMarksOrderRows | server/controllers/payment.controller.js:79-89 | the matching rows become `Paid`, `Confirmed`, with `paymentId` = the transaction number and a payment date; the other rows stay |
| PaymentController.ReplayKeepsStatuses | server/controllers/payment.controller.js:79-89 | a replayed success leaves statuses and `paymentId` as one application did |
| PaymentController.SameLengthIdsNeverMatch | server/controllers/payment.controller.js:73-75 | no id of the reference's own length matches, so bare `YM-` ids never do |
| PaymentController.SuffixedIdMatches | server/controllers/payment.controller.js:74 | `ref-<digits>` matches; `ref` and `ref-` do not |
| PaymentController.CheckPaymentStatus | server/controllers/payment.controller.js:113-155 | 400 without an id; 404 exactly when no row's `orderId` matches the pattern; otherwise the order id with the statuses of the first stored row that matches |
| PaymentController.ApplySetKeepsMatch | server/controllers/payment.controller.js:79-80 | setting fields never changes whether a row matches |
| PaymentController.UpdatedFindStep | server/controllers/payment.controller.js:79-80 | the first step of `find` over updated rows |
| PaymentController.FindAfterUpdate | server/controllers/payment.controller.js:73-88 | `find` after `updateMany` with the same filter sees the updated copies of the same rows |
| PaymentController.StatusAfterSuccess | server/controllers/payment.controller.js:126-144 | after a success the status check reports `Paid` and `Confirmed` |
| CartController.CartOf | server/controllers/cart.controller.js:63-65 | exactly the caller's rows |
| CartController.SetQuantity | server/controllers/cart.controller.js:92-100 | only the row matching both `_id` and user gets the quantity |
| CartController.DeleteOne | server/controllers/cart.controller.js:130-133 | removes at most one row and adds none |
| CartController.DeleteAllOf | server/controllers/order.controller.js:61 | keeps exactly the other users' rows |
| CartController.AddKeepsInvariant | server/controllers/cart.controller.js:17-33 | adding a product not yet in the user's cart keeps one row per user and product |
| CartController.SetQuantityKeepsInvariant | server/controllers/cart.controller.js:92-100 | quantity updates keep the table invariant |
| CartController.ConsInvariant | server/controllers/cart.controller.js:17-26 | how the invariant splits into the head row and the rest |
| CartController.DeleteOneKeepsInvariant | server/controllers/cart.controller.js:130-133 | deleting keeps the invariant |
| CartController.DeleteOneRemovesExactly | server/controllers/cart.controller.js:130-133 | a row is kept exactly when it is not the caller's row with that `_id` |
| CartController.DeleteAllOfKeepsInvariant | server/controllers/order.controller.js:61 | clearing a user's cart keeps the invariant |
| CartController.SetQuantityScoped | server/controllers/cart.controller.js:92-100 | another user's cart is unchanged by an update |
| CartController.DeleteOneScoped | server/controllers/cart.controller.js:130-133 | another user's cart is unchanged by a delete |
| CartController.AddedProductIsInCart | server/controllers/cart.controller.js:17-26 | after an add, adding the same product again finds it and is refused |
| CartController.CartCollection.constructor | server/controllers/cart.controller.js:17-26 | an empty cart table, which meets the one-row-per-product invariant |
| CartController.CartCollection.Add | server/controllers/cart.controller.js:4-57 | 402 without a product; 400 with no change when it is already in the cart; else a row with quantity 1 and the product pushed onto `shopping_cart` |
| CartController.CartCollection.Get | server/controllers/cart.controller.js:59-79 | the caller's rows |
| CartController.CartCollection.UpdateQuantity | server/controllers/cart.controller.js:81-115 | 400 with no change on a falsy `_id` or `qty`, else the scoped quantity update |
| CartController.CartCollection.Delete | server/controllers/cart.controller.js:117-148 | 400 with no change without `_id`, else the scoped delete |
| CartController.CartCollection.DeleteAll | server/controllers/order.controller.js:61 | `deleteMany({ userId })` |
| ProductController.NormalStock | server/controllers/product.controller.js:36-69 | an accepted stock is stored as given, never negative |
| ProductController.NormalPrice | server/controllers/product.controller.js:44-70 | the stored price is at least 0.01, and unchanged from 0.01 up |
| ProductController.NormalDiscount | server/controllers/product.controller.js:52-74 | an accepted discount is stored as given, within 0–100 |
| ProductController.MissingFields | server/controllers/product.controller.js:19-33 | accepted exactly when every required field is truthy; otherwise 400, or 500 when a missing list is read |
| ProductController.NumericRefusal | server/controllers/product.controller.js:36-61 | the create checks, which the update at lines 259-284 repeats: accepted exactly when stock, price and discount pass; stock is checked first, then price (when required or sent), then discount |
| ProductController.Build | server/controllers/product.controller.js:63-77 | the stored product is normalised |
| ProductController.BuildKeepsValues | server/controllers/product.controller.js:63-77 | the stored product keeps the given fields, stock as given, price as given from 0.01 up, discount as given or 0 |
| ProductController.ApplyPatchFacts | server/controllers/product.controller.js:287-304 | an update keeps the product normalised and its id; fields not sent stay, given stock and discount are stored as sent |
| ProductController.IndexOf | server/controllers/product.controller.js:301-304 | finds the first product with that `_id`, or reports none has it |
| ProductController.ProductCollection.constructor | server/controllers/product.controller.js:63-77 | an empty catalogue, in which every product is normalised |
| ProductController.ProductCollection.Create | server/controllers/product.controller.js:3-93 | refusals change nothing; an accepted body is appended as the built product |
| ProductController.ProductCollection.Update | server/controllers/product.controller.js:246-319 | 400 without `_id`; numeric refusals change nothing; else the product with that id is patched |
| ProductController.ProductCollection.Delete | server/controllers/product.controller.js:322-349 | 400 without `_id`, else the first product with that id is removed |
| ProductController.DeleteRemovesOne | server/controllers/product.controller.js:334 | delete removes that one product and keeps every other |
| ProductController.Select | server/controllers/product.controller.js:107-118 | exactly the products the query keeps |
| ProductController.SkipLimitIsPage | server/controllers/product.controller.js:115-121 | `skip((page-1)·limit).limit(limit)` is page `page` when the limit is positive |
| ProductController.ListProducts | server/controllers/product.controller.js:95-141 | `getProductController`, and `searchProduct` at lines 351-399, which computes the same: defaults page 1 and limit 10; a negative skip is a 500; else the count of matches, `ceil(count / limit)` and the newest-first page |
| ProductController.DefaultListingCoversCatalogue | server/controllers/product.controller.js:99-131 | with the defaults every product is on one page within the page count |
| ProductController.InCategories | server/controllers/product.controller.js:155-157 | `{ category: { $in: ids } }` keeps exactly the products in one of the categories |
| ProductController.IdList | server/controllers/product.controller.js:155-157 | the ids `$in` tests: a single id cast to the array of that id, an array as given |
| ProductController.ByCategory | server/controllers/product.controller.js:143-172 | 400 without an id, else the first `min(15, matches)` products of the given category or categories, in stored order |
| ProductController.SingleCategoryIsArrayOfOne | server/controllers/product.controller.js:155-157 | a single category id gets the same reply as the array holding it, and every product listed is in that category |
| ProductController.FewMatchesAllReturned | server/controllers/product.controller.js:155-157 | when at most 15 products are in the categories, every one of them is returned |
| ProductController.InCategoriesAndSub | server/controllers/product.controller.js:194-197 | the query keeps exactly the products in one of the categories and one of the subcategories |
| ProductController.ByCategoryAndSubCategory | server/controllers/product.controller.js:174-222 | 400 without both ids; 500 when `page` or `limit` is omitted; otherwise products are listed exactly when the skip is not negative, and a listing has the count and the newest-first page of the matches |
| ProductController.SingleIdsAreArraysOfOne | server/controllers/product.controller.js:194-197 | single category and subcategory ids get the same reply as the arrays holding them |
| ProductController.OmittedPagingNeverLists | server/controllers/product.controller.js:176-192 | no request leaving out `page` or `limit` is answered with products |
| ProductController.Details | server/controllers/product.controller.js:224-243 | an absent id finds the first stored product (none when there is none); an empty id is a 500 cast error; any other id gives the product with that id, absent exactly when there is none |
| UserController.FindByEmail | server/controllers/user.controller.js:120 | `findOne({ email })`: the first user with that email, absent exactly when none has it |
| UserController.UpdateById | server/controllers/user.controller.js:158 | only the user with that `_id` is changed |
| UserController.UpdateByIdOnly | server/controllers/user.controller.js:297 | with distinct ids an update by id changes that one user |
| UserController.LoginGuardOrder | server/controllers/user.controller.js:112-145 | login passes exactly when fields are given, the email is known, the account is `Active` and the password matches; each failure reports the first guard in that order |
| UserController.OtpDecisionFacts | server/controllers/user.controller.js:348-364 | an expired OTP is refused as expired even when it matches; a live matching OTP passes; a cleared OTP never passes |
| UserController.ApplyDetailsFacts | server/controllers/user.controller.js:247-261 | supplied fields are set (the password hashed), omitted ones kept, nothing else changes |
| UserController.UserCollection.constructor | server/controllers/user.controller.js:12-70 | an empty user store with distinct ids |
| UserController.UserCollection.Register | server/controllers/user.controller.js:12-70 | 400 on a missing field, an error with status 200 when the email is taken, both with no change; else one new user with the hashed password is appended |
| UserController.UserCollection.Login | server/controllers/user.controller.js:108-178 | a refusal changes nothing; success stamps `last_login_date` |
| UserController.UserCollection.UpdateDetails | server/controllers/user.controller.js:242-277 | the caller's record gets the supplied fields |
| UserController.FindUser | server/controllers/user.controller.js:284 | an absent email finds the first stored user, none in an empty store; a given email is the email lookup |
| UserController.UserCollection.ForgotPassword | server/controllers/user.controller.js:280-323 | 400 with no change when the lookup finds nobody; else the user found, the first stored one when no email is sent, gets the OTP and expiry |
| UserController.UserCollection.VerifyOtp | server/controllers/user.controller.js:326-386 | the decision; a refusal changes nothing; success clears the OTP and expiry |
| UserController.UserCollection.ResetPassword | server/controllers/user.controller.js:389-436 | the decision; a refusal changes nothing; success replaces the password by its hash |
| UserController.UserCollection.PushShoppingCart | server/controllers/cart.controller.js:35-42 | appends the product to that user's `shopping_cart` |
| UserController.UserCollection.ClearShoppingCart | server/controllers/order.controller.js:62 | empties that user's `shopping_cart` |
| UserController.UserCollection.PushOrderHistory | server/controllers/order.controller.js:56-58 | appends the ids to that user's `orderHistory` |
| UserController.VerifiedOtpCannotBeReused | server/controllers/user.controller.js:358-372 | after a successful verify, verifying again with any code fails |
| UserController.FindByEmailAfterUpdate | server/controllers/user.controller.js:338-369 | changing a user without touching emails keeps every email lookup |
| UserController.ResetIgnoresOtp | server/controllers/user.controller.js:393-422 | the reset decision is the same whatever a user's OTP state |
| UserController.ResetWithoutOtp | server/controllers/user.controller.js:393-422 | a password can be reset without any verified OTP |
| OtpVerification.KeepDigits | client/src/pages/OtpVerification.jsx:116 | the filtered text holds only digits, drawn from the input |
| OtpVerification.KeepDigitsOfDigits | client/src/pages/OtpVerification.jsx:116 | all-digit text passes unchanged |
| OtpVerification.KeepDigitsIdempotent | client/src/pages/OtpVerification.jsx:116 | filtering twice is filtering once |
| OtpVerification.KeepDigitsKeepsCount | client/src/pages/OtpVerification.jsx:116 | every digit of the input is kept |
| OtpVerification.Split | client/src/pages/OtpVerification.jsx:120 | one slot per character, at most six |
| OtpVerification.JoinFilled | client/src/pages/OtpVerification.jsx:38-49 | filled slots join to one digit per slot, and the code gives the slots back |
| OtpVerification.JoinLength | client/src/pages/OtpVerification.jsx:49 | the joined code has at most one digit per slot, fewer when a slot is empty, which is what the resend button or Enter sends from an unfilled form |
| OtpVerification.OtpForm.constructor | client/src/pages/OtpVerification.jsx:10 | six empty slots, not submitting, resend unlocked |
| OtpVerification.OtpForm.OnChange | client/src/pages/OtpVerification.jsx:115-133 | several digits replace the form with up to six slots; otherwise only slot `index` is set to the digit or cleared |
| OtpVerification.OtpForm.OnBackspace | client/src/pages/OtpVerification.jsx:134-150 | an empty slot after the first clears the previous one, otherwise the slot itself; the length is kept |
| OtpVerification.OtpForm.HandleSubmit | client/src/pages/OtpVerification.jsx:40-73 | unless a request is in flight, sends the joined slots whatever they hold; the slots reset on success and the form is ready again |
| OtpVerification.OtpForm.Submit | client/src/pages/OtpVerification.jsx:175-180 | the Verify button sends a code only when every slot is filled and no request is in flight, and then it is the joined slots |
| OtpVerification.OtpForm.Resend | client/src/pages/OtpVerification.jsx:162-170 | the resend button, pressed or reached by Enter: nothing while locked; otherwise a new code is asked for, the button locks, and the form is submitted with its slots as they are |
| OtpVerification.OtpForm.ResendTimerElapsed | client/src/pages/OtpVerification.jsx:94 | the timer unlocks the resend button and changes nothing else |
| OtpVerification.PasteFillsForm | client/src/pages/OtpVerification.jsx:116-121 | pasting six or more digits fills every slot with the first six, in order |
| OtpVerification.ShortPasteSubmitsShortCode | client/src/pages/OtpVerification.jsx:116-121 | pasting two to five digits shrinks the form, enables submit and sends a short code |
| OtpVerification.TypedCodeIsSent | client/src/pages/OtpVerification.jsx:38-49 | six slots holding one digit each enable submit, and the code sent is exactly those digits in slot order |

## Left out

- Database I/O is left out: connections, `populate`, indexes, the aggregation engine. The
  collections are in-memory sequences. Queries are calls one at a time, with no concurrency and
  no atomicity.
- The order of Mongo `{ field: -1 }` sort ties is not specified by the engine. The model puts
  tied records in reverse stored order (`SortDescTiesReversed`). The rows of one order are saved
  one after another, so their `createdAt` increases and the sort puts the last-saved row first.
  The model gives those rows the one time `now`, and the reversed ties give the same order.
- The order in which `$group` emits its buckets is left out, for the same reason.
- Crypto is left out. HMAC-SHA512 is an uninterpreted parameter, and injective where a lemma
  says so. bcrypt `hash`/`compare` is a parameter function. JWT, cookies and refresh tokens are
  not modelled.
- `nanoid`, `generatedOtp` and ObjectId generation are given values. The model assumes `_id`s
  are fresh.
- `moment` formatting is a parameter, and times are milliseconds. The OTP expiry is a given
  time, not the code's string concatenation.
- Email sending (`sendEmail`, the templates) and `console` logging are left out.
- The `x-forwarded-for` and socket address lookups are parameters. An absent or empty address is
  "".
- VNPay.CreatePaymentUrl: amounts are integers, so `Math.round(amount * 100)` is exact. Float
  rounding of fractional amounts is not modelled.
- `vnpayReturnController` computes `vnp_Amount / 100` but never uses it, so it is left out.
- The `system_error` redirect of `vnpayReturnController` is left out. No operation in the model
  throws there.
- OrderModel.ValidateRejects: the wording of mongoose's `ValidationError` message is abstracted
  to its fixed head. A `NaN` amount (a product without price or quantity) counts as missing.
- Regular-expression metacharacters in `vnp_TxnRef` are not modelled. The model treats the
  reference literally.
- The `$text` index is a parameter (`textMatch`). Its tokenising and scoring are not modelled.
- The ProductModel schema is not part of this model: its defaults, its casting and the
  `populate` of categories. Whether a `NaN` stock is refused by the cast or dropped depends on
  it. The model stores it as absent.
- ProductController.Details: only the empty `productId` is a cast error. Other ids that are not
  ObjectIds are treated as ids that no product has.
- UserController.FindUser: `findOne({})` returns an arbitrary document. The model takes the
  first stored one.
- The error text the database gives for a negative `skip` is abstracted to a fixed message.
- ProductController.ByCategory and ProductController.ByCategoryAndSubCategory: an id that is not
  an ObjectId is a cast error in the database. The model treats it as an id that no product has.
- VNPay.SortedObjectFacts: the order stated is that of `sort()`. `Object.keys` lists array-index
  keys first, in numeric order, so for an object holding such keys the JavaScript order differs
  (`OwnKeys`, `IndexKeysComeFirst`). No `vnp_` field is such a key.
- VNPay.SortObject: the object built keeps its keys in the order they are added. An array-index
  key of a returned query is not moved to the front as JavaScript would move it.
- VNPay.VerifyReturnUrl: for a returned query holding array-index keys the model re-signs the
  fields in `sort()` order, while the program signs them in `Object.keys` order. The two texts
  differ there (`IndexKeysComeFirst`); they agree for every key VNPay sends.
- VNPay.Assign: a new array-index key is appended at the end. JavaScript places it among the
  other array indices, ahead of the named keys.
- KeyOrder.Less compares Unicode code points. `sort()` compares UTF-16 code units, so keys that
  mix characters at or above U+E000 with characters beyond U+FFFF sort differently.
- CartController.CartCollection.Add, CartController.CartCollection.UpdateQuantity and
  CartController.CartCollection.Delete: an `_id` or `productId` that is not an ObjectId, or a
  `qty` that is not a number, makes the database's cast throw, and the handler answers 500. The
  model takes ids as strings and `qty` as an integer, and answers as for an id that matches no
  row.
- VNPay.PaymentParams: `qs.stringify` leaves out a field whose value is `undefined`. The model
  takes `VNPay.Config` and the return URL as strings, so an unset `tmnCode` or return URL still
  gives a `vnp_TmnCode=` or `vnp_ReturnUrl=` entry in the URL and in the signed data. The same
  holds for an address that is `undefined`, which the model takes as "".
- OrderController.ListOrders: `page` and `limit` are integers or absent. The source coerces the
  query text with arithmetic and `parseInt`. Text that is not a number, such as `?page=abc`, gives
  `NaN`, an empty page and `null` for `currentPage` and `totalPages`; the model does not capture
  that.
- A negative `limit` in `skip/limit` returns as many as its absolute value. This is modelled,
  but `Page` results are only stated for positive limits.
- The user schema is not part of this model. The expiry test at
  `server/controllers/user.controller.js:350` compares the stored ISO text with the current time, and is
  modelled as time order. A cleared expiry (stored as `""`) is modelled as absent. The model then
  refuses a later OTP as invalid, where the string comparison would call it expired. Both refuse.
- The other user handlers are left out, because they are token and upload plumbing:
  `verifyEmailController`, `logoutController`, `uploadAvatar`, `refreshToken` and `userDetails`.
- OtpVerification: focus handling, the length of the resend timer, routing, toasts and the e-mail taken from
  local storage are UI concerns and are left out. The server's answer to a submit is the
  parameter `accepted`.
- Other request-body keys that `updateProductDetails` passes through to `updateOne` (any field
  name) are limited to the product's own fields.
- `Intl.NumberFormat` price display and every other client page are left out.
