/** The order line-item schema: its enums, defaults and bounds, the `pre("save")` hook and the
    `pre("updateOne")` / `pre("updateMany")` hooks that stamp `payment_date`, and the order
    collection those hooks guard. Times are milliseconds. */
module OrderModel {
  import opened Wrappers

  type Time = int

  datatype PaymentMethod = COD | Online
  datatype PaymentStatus = Pending | Paid | Failed | Refunded
  datatype OrderStatus = Processing | Confirmed | Shipped | Delivered | Cancelled

  function PaymentMethodName(m: PaymentMethod): string {
    match m
    case COD => "COD"
    case Online => "Online"
  }

  function PaymentStatusName(s: PaymentStatus): string {
    match s
    case Pending => "Pending"
    case Paid => "Paid"
    case Failed => "Failed"
    case Refunded => "Refunded"
  }

  function OrderStatusName(s: OrderStatus): string {
    match s
    case Processing => "Processing"
    case Confirmed => "Confirmed"
    case Shipped => "Shipped"
    case Delivered => "Delivered"
    case Cancelled => "Cancelled"
  }

  /** The schema's `enum` check on `paymentMethod`. */
  function ParsePaymentMethod(s: string): (r: Option<PaymentMethod>)
    ensures r.Some? ==> PaymentMethodName(r.value) == s
    ensures forall m :: PaymentMethodName(m) == s ==> r == Some(m)
  {
    if s == "COD" then Some(COD) else if s == "Online" then Some(Online) else None
  }

  /** The schema's `enum` check on `payment_status`. */
  function ParsePaymentStatus(s: string): (r: Option<PaymentStatus>)
    ensures r.Some? ==> PaymentStatusName(r.value) == s
    ensures forall p :: PaymentStatusName(p) == s ==> r == Some(p)
  {
    if s == "Pending" then Some(Pending)
    else if s == "Paid" then Some(Paid)
    else if s == "Failed" then Some(Failed)
    else if s == "Refunded" then Some(Refunded)
    else None
  }

  /** The schema's `enum` check on `order_status`. */
  function ParseOrderStatus(s: string): (r: Option<OrderStatus>)
    ensures r.Some? ==> OrderStatusName(r.value) == s
    ensures forall o :: OrderStatusName(o) == s ==> r == Some(o)
  {
    if s == "Processing" then Some(Processing)
    else if s == "Confirmed" then Some(Confirmed)
    else if s == "Shipped" then Some(Shipped)
    else if s == "Delivered" then Some(Delivered)
    else if s == "Cancelled" then Some(Cancelled)
    else None
  }

  /** A stored order line item. Amounts are whole VND; ids are strings. */
  datatype LineItem = LineItem(
    id: string,
    userId: string,
    orderId: string,
    productId: string,
    name: string,
    image: seq<string>,
    quantity: int,
    pricePerUnit: int,
    itemTotal: int,
    paymentId: string,
    paymentMethod: PaymentMethod,
    paymentStatus: PaymentStatus,
    orderStatus: OrderStatus,
    deliveryAddress: string,
    subTotalAmt: int,
    totalAmt: int,
    invoiceReceipt: string,
    paymentDate: Option<Time>,
    notes: string,
    createdAt: Time,
    updatedAt: Time)

  /** What `new OrderModel({...})` is given. `None` is an absent field (or a `NaN` amount);
      "" is an absent id or name. */
  datatype Draft = Draft(
    userId: string,
    orderId: string,
    productId: string,
    name: string,
    image: Option<seq<string>>,
    quantity: Option<int>,
    pricePerUnit: Option<int>,
    itemTotal: Option<int>,
    paymentMethod: Option<string>,
    paymentStatus: Option<string>,
    orderStatus: Option<string>,
    deliveryAddress: string)

  /** The `min` constraints every stored row meets. */
  predicate WithinBounds(r: LineItem) {
    r.quantity >= 1 && r.pricePerUnit >= 0 && r.itemTotal >= 0
  }

  /** The schema's checks: required fields present, `min` bounds met, enum values allowed. */
  predicate Acceptable(d: Draft) {
    && d.userId != "" && d.orderId != "" && d.productId != "" && d.name != "" && d.deliveryAddress != ""
    && d.pricePerUnit.Some? && d.itemTotal.Some?
    && d.quantity.GetOr(1) >= 1 && d.pricePerUnit.value >= 0 && d.itemTotal.value >= 0
    && ParsePaymentMethod(d.paymentMethod.GetOr("COD")).Some?
    && ParsePaymentStatus(d.paymentStatus.GetOr("Pending")).Some?
    && ParseOrderStatus(d.orderStatus.GetOr("Processing")).Some?
  }

  /** The stored row for an acceptable draft, with the defaults filled in. */
  function Row(d: Draft, id: string, now: Time): LineItem
    requires Acceptable(d)
  {
    LineItem(id, d.userId, d.orderId, d.productId, d.name, d.image.GetOr([]),
             d.quantity.GetOr(1), d.pricePerUnit.value, d.itemTotal.value,
             "", ParsePaymentMethod(d.paymentMethod.GetOr("COD")).value,
             ParsePaymentStatus(d.paymentStatus.GetOr("Pending")).value,
             ParseOrderStatus(d.orderStatus.GetOr("Processing")).value, d.deliveryAddress,
             0, 0, "", None, "", now, now)
  }

  /** Schema validation on save, with the defaults filled in; `None` is a `ValidationError`. */
  function Validate(d: Draft, id: string, now: Time): Option<LineItem> {
    if Acceptable(d) then Some(Row(d, id, now)) else None
  }

  /** A validated row keeps the given fields, meets the bounds, and has no payment yet. */
  lemma ValidatedRow(d: Draft, id: string, now: Time)
    requires Validate(d, id, now).Some?
    ensures var r := Validate(d, id, now).value;
            && WithinBounds(r)
            && r.id == id && r.userId == d.userId && r.orderId == d.orderId && r.productId == d.productId
            && Some(r.quantity) == (if d.quantity.Some? then d.quantity else Some(1))
            && Some(r.pricePerUnit) == d.pricePerUnit && Some(r.itemTotal) == d.itemTotal
            && r.paymentId == "" && r.paymentDate.None?
            && r.createdAt == now && r.updatedAt == now
  {
  }

  /** Absent fields take the schema defaults: quantity 1, `COD`, `Pending`, `Processing`. */
  lemma ValidateDefaults(d: Draft, id: string, now: Time)
    requires d.userId != "" && d.orderId != "" && d.productId != "" && d.name != "" && d.deliveryAddress != ""
    requires d.pricePerUnit.Some? && d.pricePerUnit.value >= 0 && d.itemTotal.Some? && d.itemTotal.value >= 0
    requires d.quantity.None? && d.image.None?
    requires d.paymentMethod.None? && d.paymentStatus.None? && d.orderStatus.None?
    ensures Validate(d, id, now).Some?
    ensures var r := Validate(d, id, now).value;
            r.quantity == 1 && r.paymentMethod == COD && r.paymentStatus == Pending &&
            r.orderStatus == Processing && r.image == []
  {
  }

  /** Out-of-range amounts, missing required fields and values outside the enums are refused,
      and a draft is accepted exactly when it has none of these faults. */
  lemma ValidateRejects(d: Draft, id: string, now: Time)
    ensures d.quantity.Some? && d.quantity.value < 1 ==> Validate(d, id, now).None?
    ensures d.pricePerUnit.None? || d.itemTotal.None? ==> Validate(d, id, now).None?
    ensures d.pricePerUnit.Some? && d.pricePerUnit.value < 0 ==> Validate(d, id, now).None?
    ensures d.itemTotal.Some? && d.itemTotal.value < 0 ==> Validate(d, id, now).None?
    ensures d.userId == "" || d.orderId == "" || d.name == "" ==> Validate(d, id, now).None?
    ensures d.paymentMethod.Some? && d.paymentMethod.value !in {"COD", "Online"} ==> Validate(d, id, now).None?
    ensures d.paymentStatus.Some? && ParsePaymentStatus(d.paymentStatus.value).None? ==> Validate(d, id, now).None?
    ensures d.productId == "" || d.deliveryAddress == "" ==> Validate(d, id, now).None?
    ensures d.orderStatus.Some? && ParseOrderStatus(d.orderStatus.value).None? ==> Validate(d, id, now).None?
    ensures Validate(d, id, now).Some? <==>
              && d.userId != "" && d.orderId != "" && d.productId != "" && d.name != "" && d.deliveryAddress != ""
              && d.pricePerUnit.Some? && d.pricePerUnit.value >= 0 && d.itemTotal.Some? && d.itemTotal.value >= 0
              && (d.quantity.None? || d.quantity.value >= 1)
              && (d.paymentMethod.None? || d.paymentMethod.value in {"COD", "Online"})
              && (d.paymentStatus.None? || d.paymentStatus.value in {"Pending", "Paid", "Failed", "Refunded"})
              && (d.orderStatus.None? || d.orderStatus.value in {"Processing", "Confirmed", "Shipped", "Delivered", "Cancelled"})
  {
  }

  // ---------------------------------------------------------------------------
  // pre("save")

  /** The `pre("save")` hook's effect: stamp `payment_date` when `payment_status` was modified to
      `Paid` and no date is set yet. */
  function SaveStamp(r: LineItem, paymentStatusModified: bool, now: Time): LineItem {
    if paymentStatusModified && r.paymentStatus == Paid && r.paymentDate.None? then r.(paymentDate := Some(now))
    else r
  }

  /** The hook only ever touches `payment_date`; it keeps an existing date; it dates a row that
      was just marked `Paid`; a row left unmodified is left alone. */
  lemma SaveStampFacts(r: LineItem, modified: bool, now: Time)
    ensures SaveStamp(r, modified, now).(paymentDate := r.paymentDate) == r
    ensures r.paymentDate.Some? ==> SaveStamp(r, modified, now) == r
    ensures !modified ==> SaveStamp(r, modified, now) == r
    ensures modified && r.paymentStatus == Paid ==> SaveStamp(r, modified, now).paymentDate.Some?
    ensures r.paymentStatus != Paid ==> SaveStamp(r, modified, now) == r
  {
  }

  /** A document about to be saved: the row and whether `payment_status` was modified. */
  class OrderDocument {
    var row: LineItem
    var paymentStatusModified: bool

    constructor(row: LineItem, paymentStatusModified: bool)
      ensures this.row == row && this.paymentStatusModified == paymentStatusModified
    {
      this.row := row;
      this.paymentStatusModified := paymentStatusModified;
    }

    /** `orderSchema.pre("save", ...)`. */
    method PreSave(now: Time)
      modifies this
      ensures row == SaveStamp(old(row), old(paymentStatusModified), now)
      ensures paymentStatusModified == old(paymentStatusModified)
    {
      if paymentStatusModified && row.paymentStatus == Paid && row.paymentDate.None? {
        row := row.(paymentDate := Some(now));
      }
    }
  }

  // ---------------------------------------------------------------------------
  // pre("updateOne") and pre("updateMany")

  /** The `$set` part of an update; `None` fields are not set. */
  datatype SetClause = SetClause(
    paymentStatus: Option<PaymentStatus>,
    orderStatus: Option<OrderStatus>,
    paymentId: Option<string>,
    paymentDate: Option<Time>)

  /** The update hooks' effect on `update.$set`. */
  function StampUpdate(setClause: Option<SetClause>, now: Time): Option<SetClause> {
    if setClause.Some? && setClause.value.paymentStatus == Some(Paid) then Some(setClause.value.(paymentDate := Some(now)))
    else setClause
  }

  /** Setting `Paid` always (re)stamps `payment_date` with the current time, overwriting any
      date the update carried; any other update is left exactly as it was. */
  lemma StampUpdateFacts(setClause: Option<SetClause>, now: Time)
    ensures setClause.Some? && setClause.value.paymentStatus == Some(Paid) ==>
              StampUpdate(setClause, now) == Some(setClause.value.(paymentDate := Some(now)))
    ensures !(setClause.Some? && setClause.value.paymentStatus == Some(Paid)) ==> StampUpdate(setClause, now) == setClause
    ensures StampUpdate(setClause, now).Some? == setClause.Some?
  {
  }

  /** The query object an update hook sees through `this.getUpdate()`. */
  class UpdateQuery {
    var setClause: Option<SetClause>

    constructor(setClause: Option<SetClause>)
      ensures this.setClause == setClause
    {
      this.setClause := setClause;
    }

    /** `orderSchema.pre("updateOne", ...)` and `orderSchema.pre("updateMany", ...)`, which
        have the same body. */
    method PreUpdate(now: Time)
      modifies this
      ensures setClause == StampUpdate(old(setClause), now)
    {
      if setClause.Some? && setClause.value.paymentStatus == Some(Paid) {
        setClause := Some(setClause.value.(paymentDate := Some(now)));
      }
    }
  }

  /** Applying a `$set` to one row; the timestamps option sets `updatedAt`. */
  function ApplySet(r: LineItem, s: SetClause, now: Time): LineItem {
    r.(paymentStatus := s.paymentStatus.GetOr(r.paymentStatus),
       orderStatus := s.orderStatus.GetOr(r.orderStatus),
       paymentId := s.paymentId.GetOr(r.paymentId),
       paymentDate := if s.paymentDate.Some? then s.paymentDate else r.paymentDate,
       updatedAt := now)
  }

  // ---------------------------------------------------------------------------
  // Queries

  /** The filters the controllers use: `{ userId, orderId }`, and
      `{ orderId: { $regex: new RegExp("^" + txnRef + "-\\d+$") } }`. */
  datatype Filter = ByUserOrder(userId: string, orderId: string) | ByTxnPattern(txnRef: string)

  predicate IsAsciiDigit(c: char) {
    '0' <= c <= '9'
  }

  /** `orderId` is the reference, a dash, and one or more ASCII digits. */
  predicate MatchesTxnPattern(txnRef: string, orderId: string) {
    |orderId| > |txnRef| + 1
    && orderId[..|txnRef|] == txnRef
    && orderId[|txnRef|] == '-'
    && forall i :: |txnRef| < i < |orderId| ==> IsAsciiDigit(orderId[i])
  }

  predicate Matches(f: Filter, r: LineItem) {
    match f
    case ByUserOrder(u, o) => r.userId == u && r.orderId == o
    case ByTxnPattern(ref) => MatchesTxnPattern(ref, r.orderId)
  }

  /** `find(filter)` in insertion order. */
  function Find(rows: seq<LineItem>, f: Filter): (r: seq<LineItem>)
    ensures |r| <= |rows|
    ensures forall x :: x in r <==> x in rows && Matches(f, x)
  {
    if |rows| == 0 then []
    else (if Matches(f, rows[0]) then [rows[0]] else []) + Find(rows[1..], f)
  }

  /** `findOne(filter)`: the first match in insertion order. */
  function FindOne(rows: seq<LineItem>, f: Filter): (r: Option<LineItem>)
    ensures r.None? <==> Find(rows, f) == []
    ensures r.Some? ==> r.value == Find(rows, f)[0]
  {
    if |Find(rows, f)| == 0 then None else Some(Find(rows, f)[0])
  }

  /** `updateMany(filter, { $set })`: every matching row gets the `$set` applied, others stay. */
  function UpdateRows(rows: seq<LineItem>, f: Filter, s: SetClause, now: Time): (r: seq<LineItem>)
    ensures |r| == |rows|
    ensures forall i :: 0 <= i < |rows| ==>
              r[i] == if Matches(f, rows[i]) then ApplySet(rows[i], s, now) else rows[i]
  {
    seq(|rows|, i requires 0 <= i < |rows| => if Matches(f, rows[i]) then ApplySet(rows[i], s, now) else rows[i])
  }

  // ---------------------------------------------------------------------------
  // The collection

  /** Every stored row has a distinct `_id`. */
  ghost predicate DistinctIds(rows: seq<LineItem>) {
    forall i, j :: 0 <= i < j < |rows| ==> rows[i].id != rows[j].id
  }

  /** What holds of every stored row: the schema bounds, and a `Paid` row carries a payment date. */
  predicate RowInvariant(r: LineItem) {
    WithinBounds(r) && (r.paymentStatus == Paid ==> r.paymentDate.Some?)
  }

  ghost predicate StoreInvariant(rows: seq<LineItem>) {
    DistinctIds(rows) && forall i :: 0 <= i < |rows| ==> RowInvariant(rows[i])
  }

  /** Saving keeps the row invariant: validation gives the bounds and the hook dates a `Paid` row. */
  lemma SavePreservesRowInvariant(d: Draft, id: string, now: Time)
    requires Validate(d, id, now).Some?
    ensures RowInvariant(SaveStamp(Validate(d, id, now).value, d.paymentStatus.Some?, now))
  {
    var r := Validate(d, id, now).value;
    if d.paymentStatus.None? {
      assert r.paymentStatus == ParsePaymentStatus("Pending").value == Pending;
    }
  }

  /** Updates through the hook keep the row invariant and `_id`s, and change nothing but the
      set fields of matching rows. */
  lemma {:induction false} UpdatePreservesInvariant(rows: seq<LineItem>, f: Filter, s: SetClause, now: Time)
    requires StoreInvariant(rows)
    requires StampUpdate(Some(s), now).Some?
    ensures StoreInvariant(UpdateRows(rows, f, StampUpdate(Some(s), now).value, now))
  {
    var s' := StampUpdate(Some(s), now).value;
    var r := UpdateRows(rows, f, s', now);
    forall i | 0 <= i < |r| ensures RowInvariant(r[i]) && r[i].id == rows[i].id {
      assert RowInvariant(rows[i]);
    }
  }

  /** The order collection. */
  class OrderCollection {
    var rows: seq<LineItem>

    ghost predicate Valid()
      reads this
    {
      StoreInvariant(rows)
    }

    constructor()
      ensures rows == [] && Valid()
    {
      rows := [];
    }

    /** `new OrderModel(draft).save()` with a fresh `_id`: validation, then the save hook, then
        the insert. A refused row leaves the collection as it was. */
    method Save(d: Draft, id: string, now: Time) returns (saved: Option<LineItem>)
      requires Valid()
      requires forall i :: 0 <= i < |rows| ==> rows[i].id != id
      modifies this
      ensures Valid()
      ensures Validate(d, id, now).None? ==> saved.None? && rows == old(rows)
      ensures Validate(d, id, now).Some? ==>
                saved == Some(SaveStamp(Validate(d, id, now).value, d.paymentStatus.Some?, now)) &&
                rows == old(rows) + [saved.value]
    {
      var validated := Validate(d, id, now);
      if validated.None? {
        return None;
      }
      var doc := new OrderDocument(validated.value, d.paymentStatus.Some?);
      doc.PreSave(now);
      SavePreservesRowInvariant(d, id, now);
      rows := rows + [doc.row];
      saved := Some(doc.row);
    }

    /** `OrderModel.updateMany(filter, { $set: s })`, with the update hook run first. */
    method UpdateMany(f: Filter, s: SetClause, now: Time)
      requires Valid()
      modifies this
      ensures Valid()
      ensures rows == UpdateRows(old(rows), f, StampUpdate(Some(s), now).value, now)
    {
      var query := new UpdateQuery(Some(s));
      query.PreUpdate(now);
      UpdatePreservesInvariant(rows, f, s, now);
      rows := UpdateRows(rows, f, query.setClause.value, now);
    }
  }
}
