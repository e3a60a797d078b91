/** The cart table: one row per (user, product) with a quantity, and its four handlers.
    Adding also appends the product to the user's `shopping_cart`. */
module CartController {
  import opened Wrappers
  import opened Http
  import UserController

  datatype CartRow = CartRow(id: string, userId: string, productId: string, quantity: int)

  const ProvideProductId := "Provide productId"
  const AlreadyInCart := "Sản phẩm đã có trong giỏ hàng"
  const Added := "Thêm sản phẩm thành công"
  const ProvideIdQty := "provide _id, qty"
  const CartUpdated := "Cập nhật giỏ hàng"
  const ProvideId := "Provide _id"
  const Removed := "Đã xóa sản phẩm"

  /** Row ids are distinct and no user holds the same product twice. */
  ghost predicate TableInvariant(rows: seq<CartRow>) {
    forall i, j :: 0 <= i < j < |rows| ==> Compatible(rows[i], rows[j])
  }

  /** Two rows that may sit in the same table. */
  predicate Compatible(a: CartRow, b: CartRow) {
    a.id != b.id && (a.userId != b.userId || a.productId != b.productId)
  }

  /** `CartProductModel.findOne({ userId, productId })` finds something. */
  predicate InCart(rows: seq<CartRow>, userId: string, productId: string) {
    exists i :: 0 <= i < |rows| && rows[i].userId == userId && rows[i].productId == productId
  }

  /** `getCartItemController`: `find({ userId })`, in insertion order. */
  function CartOf(rows: seq<CartRow>, userId: string): (r: seq<CartRow>)
    ensures forall x :: x in r <==> x in rows && x.userId == userId
    ensures |r| <= |rows|
  {
    if |rows| == 0 then []
    else (if rows[0].userId == userId then [rows[0]] else []) + CartOf(rows[1..], userId)
  }

  /** `updateOne({ _id, userId }, { quantity })`: the quantity of the row matching both. */
  function SetQuantity(rows: seq<CartRow>, id: string, userId: string, qty: int): (r: seq<CartRow>)
    ensures |r| == |rows|
    ensures forall i :: 0 <= i < |rows| ==>
              r[i] == if rows[i].id == id && rows[i].userId == userId then rows[i].(quantity := qty) else rows[i]
  {
    seq(|rows|, i requires 0 <= i < |rows| =>
      if rows[i].id == id && rows[i].userId == userId then rows[i].(quantity := qty) else rows[i])
  }

  /** `deleteOne({ _id, userId })`: the first row matching both goes. */
  function DeleteOne(rows: seq<CartRow>, id: string, userId: string): (r: seq<CartRow>)
    ensures forall x :: x in r ==> x in rows
    ensures |r| == |rows| || |r| == |rows| - 1
  {
    if |rows| == 0 then []
    else if rows[0].id == id && rows[0].userId == userId then rows[1..]
    else [rows[0]] + DeleteOne(rows[1..], id, userId)
  }

  /** `deleteMany({ userId })`. */
  function DeleteAllOf(rows: seq<CartRow>, userId: string): (r: seq<CartRow>)
    ensures forall x :: x in r <==> x in rows && x.userId != userId
    ensures |r| <= |rows|
  {
    if |rows| == 0 then []
    else (if rows[0].userId == userId then [] else [rows[0]]) + DeleteAllOf(rows[1..], userId)
  }

  // ---------------------------------------------------------------------------
  // The table invariant under each change

  lemma AddKeepsInvariant(rows: seq<CartRow>, row: CartRow)
    requires TableInvariant(rows)
    requires !InCart(rows, row.userId, row.productId)
    requires forall i :: 0 <= i < |rows| ==> rows[i].id != row.id
    ensures TableInvariant(rows + [row])
  {
  }

  lemma SetQuantityKeepsInvariant(rows: seq<CartRow>, id: string, userId: string, qty: int)
    requires TableInvariant(rows)
    ensures TableInvariant(SetQuantity(rows, id, userId, qty))
  {
    var r := SetQuantity(rows, id, userId, qty);
    forall i, j | 0 <= i < j < |r|
      ensures r[i].id != r[j].id && (r[i].userId != r[j].userId || r[i].productId != r[j].productId)
    {
      assert Compatible(rows[i], rows[j]);
    }
  }

  /** A valid table is a valid head row in front of a valid tail it clashes with nowhere. */
  lemma ConsInvariant(rows: seq<CartRow>)
    requires |rows| > 0
    ensures TableInvariant(rows) <==>
              TableInvariant(rows[1..]) && forall x :: x in rows[1..] ==> Compatible(rows[0], x)
  {
    if TableInvariant(rows[1..]) && forall x :: x in rows[1..] ==> Compatible(rows[0], x) {
      forall i, j | 0 <= i < j < |rows| ensures Compatible(rows[i], rows[j]) {
        if i > 0 {
          assert rows[i] == rows[1..][i - 1] && rows[j] == rows[1..][j - 1];
        } else {
          assert rows[j] in rows[1..] by { assert rows[j] == rows[1..][j - 1]; }
        }
      }
    }
    if TableInvariant(rows) {
      forall i, j | 0 <= i < j < |rows| - 1 ensures Compatible(rows[1..][i], rows[1..][j]) {
        assert rows[1..][i] == rows[i + 1] && rows[1..][j] == rows[j + 1];
      }
      forall x | x in rows[1..] ensures Compatible(rows[0], x) {
        var m :| 0 <= m < |rows[1..]| && rows[1..][m] == x;
        assert rows[m + 1] == x;
      }
    }
  }

  /** `deleteOne` keeps the invariant. */
  lemma {:induction false} DeleteOneKeepsInvariant(rows: seq<CartRow>, id: string, userId: string)
    requires TableInvariant(rows)
    ensures TableInvariant(DeleteOne(rows, id, userId))
  {
    if |rows| > 0 {
      ConsInvariant(rows);
      if !(rows[0].id == id && rows[0].userId == userId) {
        DeleteOneKeepsInvariant(rows[1..], id, userId);
        var r := DeleteOne(rows, id, userId);
        assert r[1..] == DeleteOne(rows[1..], id, userId);
        ConsInvariant(r);
      }
    }
  }

  /** `deleteOne` removes the row with that id when it belongs to that user, and nothing else. */
  lemma {:induction false} DeleteOneRemovesExactly(rows: seq<CartRow>, id: string, userId: string, x: CartRow)
    requires TableInvariant(rows)
    ensures x in DeleteOne(rows, id, userId) <==> x in rows && !(x.id == id && x.userId == userId)
  {
    if |rows| > 0 {
      ConsInvariant(rows);
      assert rows == [rows[0]] + rows[1..];
      if !(rows[0].id == id && rows[0].userId == userId) {
        DeleteOneRemovesExactly(rows[1..], id, userId, x);
      } else if x in rows[1..] {
        assert Compatible(rows[0], x);
      }
    }
  }

  /** `deleteMany({ userId })` keeps the invariant. */
  lemma {:induction false} DeleteAllOfKeepsInvariant(rows: seq<CartRow>, userId: string)
    requires TableInvariant(rows)
    ensures TableInvariant(DeleteAllOf(rows, userId))
  {
    if |rows| > 0 {
      ConsInvariant(rows);
      DeleteAllOfKeepsInvariant(rows[1..], userId);
      var r := DeleteAllOf(rows, userId);
      if rows[0].userId != userId {
        assert r[1..] == DeleteAllOf(rows[1..], userId);
        ConsInvariant(r);
      } else {
        assert r == DeleteAllOf(rows[1..], userId);
      }
    }
  }

  // ---------------------------------------------------------------------------
  // Scoping: a request made as one user never touches another user's cart

  lemma {:induction false} SetQuantityScoped(rows: seq<CartRow>, id: string, userId: string, other: string, qty: int)
    requires other != userId
    ensures CartOf(SetQuantity(rows, id, userId, qty), other) == CartOf(rows, other)
  {
    if |rows| > 0 {
      var r := SetQuantity(rows, id, userId, qty);
      assert r[1..] == SetQuantity(rows[1..], id, userId, qty);
      SetQuantityScoped(rows[1..], id, userId, other, qty);
    }
  }

  lemma {:induction false} DeleteOneScoped(rows: seq<CartRow>, id: string, userId: string, other: string)
    requires other != userId
    ensures CartOf(DeleteOne(rows, id, userId), other) == CartOf(rows, other)
  {
    if |rows| > 0 {
      DeleteOneScoped(rows[1..], id, userId, other);
      if !(rows[0].id == id && rows[0].userId == userId) {
        assert DeleteOne(rows, id, userId)[1..] == DeleteOne(rows[1..], id, userId);
      }
    }
  }

  /** Adding the same product twice: the second request finds the first row and is refused. */
  lemma AddedProductIsInCart(rows: seq<CartRow>, row: CartRow)
    ensures InCart(rows + [row], row.userId, row.productId)
  {
    assert (rows + [row])[|rows|] == row;
  }

  /** The cart collection (`CartProductModel`). */
  class CartCollection {
    var rows: seq<CartRow>

    ghost predicate Valid()
      reads this
    {
      TableInvariant(rows)
    }

    constructor()
      ensures rows == [] && Valid()
    {
      rows := [];
    }

    /** `addToCartItemController`: a new row with quantity 1, and the product pushed onto the
        user's `shopping_cart`. `id` is the fresh ObjectId the save assigns. */
    method Add(users: UserController.UserCollection, userId: string, productId: string, id: string)
      returns (reply: Response)
      requires Valid() && users.Valid()
      requires forall x :: x in rows ==> x.id != id
      modifies this, users
      ensures Valid() && users.Valid()
      ensures productId == "" ==>
                reply == Fail(402, ProvideProductId) && rows == old(rows) && users.users == old(users.users)
      ensures productId != "" && InCart(old(rows), userId, productId) ==>
                reply == Response(400, false, AlreadyInCart) && rows == old(rows) && users.users == old(users.users)
      ensures productId != "" && !InCart(old(rows), userId, productId) ==>
                reply == Done(Added)
                && rows == old(rows) + [CartRow(id, userId, productId, 1)]
                && users.users == UserController.UpdateById(old(users.users), userId,
                                    (u: UserController.User) => u.(shoppingCart := u.shoppingCart + [productId]))
    {
      if productId == "" {
        return Fail(402, ProvideProductId);
      }
      if InCart(rows, userId, productId) {
        return Response(400, false, AlreadyInCart);
      }
      var row := CartRow(id, userId, productId, 1);
      AddKeepsInvariant(rows, row);
      rows := rows + [row];
      users.PushShoppingCart(userId, productId);
      reply := Done(Added);
    }

    /** `getCartItemController`. */
    method Get(userId: string) returns (cart: seq<CartRow>)
      ensures cart == CartOf(rows, userId)
    {
      cart := CartOf(rows, userId);
    }

    /** `updateCartItemQtyController`; a falsy `qty` is 0. */
    method UpdateQuantity(userId: string, id: string, qty: int) returns (reply: Response)
      requires Valid()
      modifies this
      ensures Valid()
      ensures id == "" || qty == 0 ==> reply == Response(400, false, ProvideIdQty) && rows == old(rows)
      ensures id != "" && qty != 0 ==> reply == Done(CartUpdated) && rows == SetQuantity(old(rows), id, userId, qty)
    {
      if id == "" || qty == 0 {
        return Response(400, false, ProvideIdQty);
      }
      SetQuantityKeepsInvariant(rows, id, userId, qty);
      rows := SetQuantity(rows, id, userId, qty);
      reply := Done(CartUpdated);
    }

    /** `deleteCartItemQtyController`. */
    method Delete(userId: string, id: string) returns (reply: Response)
      requires Valid()
      modifies this
      ensures Valid()
      ensures id == "" ==> reply == Fail(400, ProvideId) && rows == old(rows)
      ensures id != "" ==> reply == Done(Removed) && rows == DeleteOne(old(rows), id, userId)
    {
      if id == "" {
        return Fail(400, ProvideId);
      }
      DeleteOneKeepsInvariant(rows, id, userId);
      rows := DeleteOne(rows, id, userId);
      reply := Done(Removed);
    }

    /** `CartProductModel.deleteMany({ userId })`, run when an order is placed. */
    method DeleteAll(userId: string)
      requires Valid()
      modifies this
      ensures Valid()
      ensures rows == DeleteAllOf(old(rows), userId)
    {
      DeleteAllOfKeepsInvariant(rows, userId);
      rows := DeleteAllOf(rows, userId);
    }
  }
}
