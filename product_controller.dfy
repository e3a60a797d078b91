/** The product handlers: required-field and numeric checks on create and update, the
    normalisation of stock, price and discount, paged listing and search, the category
    queries, and delete. Prices and discounts are JavaScript numbers, here reals. */
module ProductController {
  import opened Wrappers
  import opened JsSemantics
  import opened Http
  import opened Paging
  import RankOrder

  const EnterRequired := "Nhập các trường bắt buộc"
  const StockPositive := "Số lượng sản phẩm phải là số dương"
  const PricePositive := "Giá sản phẩm phải là số dương"
  const DiscountRange := "Giảm giá phải là số từ 0 đến 100"
  const ProductCreated := "Đã tạo sản phẩm thành công"
  const ProductData := "Dữ liệu sản phẩm"
  const SearchData := "Product data"
  const ProvideCategoryId := "Cung cấp id loại sản phẩm"
  const CategoryList := "Danh sách loại sản phẩm"
  const ProvideBothIds := "Cung cấp categoryId và subCategoryId"
  const ProductList := "Danh sách sản phẩm"
  const ProductDetail := "Chi tiết sản phẩm"
  const ProvideProductId := "Cung cấp id sản phẩm"
  const Updated := "Cập nhật thành công"
  const ProvideId := "Cung cấp _id "
  const Deleted := "Xóa thành công"

  /** `image[0]` read when `image` is `undefined`. */
  const IndexOfUndefined := "Cannot read properties of undefined (reading '0')"
  /** Reassigning the `const` bindings `page` and `limit`. */
  const ConstAssignment := "Assignment to constant variable."
  /** The database's answer to a negative `skip`. */
  const NegativeSkip := "skip value must be non-negative"
  /** The cast error for an `_id` that is not an ObjectId, such as "". */
  const CastObjectId := "Cast to ObjectId failed for value \"\" (type string) at path \"_id\" for model \"product\""

  /** How a request field behaves under `!x`, `x !== undefined`, `isNaN(x)` and `Number(x)`:
      absent, or present with its truthiness and its numeric value (`None` for `NaN`). */
  datatype Input = Undefined | Defined(truthy: bool, number: Option<real>)

  predicate Falsy(x: Input) {
    x.Undefined? || !x.truthy
  }

  /** `Number(x)`; `Number(undefined)` is `NaN`. */
  function NumberOf(x: Input): Option<real> {
    if x.Undefined? then None else x.number
  }

  /** `!page`, `!limit` on an integer field: absent or zero. */
  predicate FalsyInt(x: Option<int>) {
    x.None? || x.value == 0
  }

  function MaxReal(a: real, b: real): real { if a < b then b else a }
  function MinReal(a: real, b: real): real { if a < b then a else b }

  /** A stored product. A `NaN` stock is `None`. */
  datatype Product = Product(
    id: string,
    name: string,
    image: seq<string>,
    category: seq<string>,
    subCategory: seq<string>,
    unit: string,
    stock: Option<real>,
    price: real,
    discount: real,
    description: string,
    moreDetails: string,
    createdAt: int)

  /** What every stored product satisfies after the handlers' checks and clamping. */
  predicate Normalised(p: Product) {
    p.price >= 0.01 && 0.0 <= p.discount <= 100.0 && (p.stock.Some? ==> p.stock.value >= 0.0)
  }

  // ---------------------------------------------------------------------------
  // Checks and normalisation

  /** `stock !== undefined && (isNaN(stock) || Number(stock) < 0)`. */
  predicate BadStock(x: Input) {
    x.Defined? && (x.number.None? || x.number.value < 0.0)
  }

  /** `isNaN(price) || Number(price) <= 0`. */
  predicate BadPrice(x: Input) {
    NumberOf(x).None? || NumberOf(x).value <= 0.0
  }

  /** `discount !== undefined && (isNaN(discount) || Number(discount) < 0 || Number(discount) > 100)`. */
  predicate BadDiscount(x: Input) {
    x.Defined? && (x.number.None? || x.number.value < 0.0 || x.number.value > 100.0)
  }

  /** `Math.max(0, Number(stock))`; `Math.max` of `NaN` is `NaN`. */
  function NormalStock(x: Input): (r: Option<real>)
    ensures !BadStock(x) && x.Defined? ==> r == x.number
    ensures r.Some? ==> r.value >= 0.0
  {
    if NumberOf(x).None? then None else Some(MaxReal(0.0, NumberOf(x).value))
  }

  /** `Math.max(0.01, Number(price))` of a price the checks let through. */
  function NormalPrice(x: Input): (r: real)
    requires !BadPrice(x)
    ensures r >= 0.01
    ensures NumberOf(x).value >= 0.01 ==> r == NumberOf(x).value
    ensures NumberOf(x).value < 0.01 ==> r == 0.01
  {
    MaxReal(0.01, NumberOf(x).value)
  }

  /** `Math.min(100, Math.max(0, Number(discount)))` of a discount the checks let through. */
  function NormalDiscount(x: Input): (r: real)
    requires x.Defined? && !BadDiscount(x)
    ensures r == x.number.value
    ensures 0.0 <= r <= 100.0
  {
    MinReal(100.0, MaxReal(0.0, x.number.value))
  }

  /** The request body of `createProductController`; an absent list is `None`. */
  datatype NewProduct = NewProduct(
    name: string,
    image: Option<seq<string>>,
    category: Option<seq<string>>,
    subCategory: Option<seq<string>>,
    unit: string,
    stock: Input,
    price: Input,
    discount: Input,
    description: string,
    moreDetails: string)

  /** `!list[0]`: no first element, or an empty one. */
  predicate NoFirst(list: seq<string>) {
    |list| == 0 || list[0] == ""
  }

  /** The required-field test, read left to right: a falsy field before a missing list ends it
      with 400, reading `[0]` of a missing list throws. `None` is all present. */
  function MissingFields(b: NewProduct): (r: Option<Response>)
    ensures r.None? <==>
              && b.name != "" && b.image.Some? && !NoFirst(b.image.value)
              && b.category.Some? && !NoFirst(b.category.value)
              && b.subCategory.Some? && !NoFirst(b.subCategory.value)
              && b.unit != "" && !Falsy(b.price) && b.description != ""
    ensures r.Some? ==> r.value in {Fail(400, EnterRequired), Fail(500, IndexOfUndefined)}
    ensures b.name == "" ==> r == Some(Fail(400, EnterRequired))
  {
    if b.name == "" then Some(Fail(400, EnterRequired))
    else if b.image.None? then Some(Fail(500, IndexOfUndefined))
    else if NoFirst(b.image.value) then Some(Fail(400, EnterRequired))
    else if b.category.None? then Some(Fail(500, IndexOfUndefined))
    else if NoFirst(b.category.value) then Some(Fail(400, EnterRequired))
    else if b.subCategory.None? then Some(Fail(500, IndexOfUndefined))
    else if NoFirst(b.subCategory.value) then Some(Fail(400, EnterRequired))
    else if b.unit == "" || Falsy(b.price) || b.description == "" then Some(Fail(400, EnterRequired))
    else None
  }

  /** The numeric checks, in the handlers' order; the price check applies when `priceRequired`
      (create) or when a price is given (update). */
  function NumericRefusal(stock: Input, price: Input, discount: Input, priceRequired: bool): (r: Option<Response>)
    ensures r.None? <==> !BadStock(stock) && !((priceRequired || price.Defined?) && BadPrice(price)) && !BadDiscount(discount)
    ensures BadStock(stock) ==> r == Some(Fail(400, StockPositive))
    ensures !BadStock(stock) && (priceRequired || price.Defined?) && BadPrice(price) ==> r == Some(Fail(400, PricePositive))
    ensures r.Some? && r != Some(Fail(400, StockPositive)) && r != Some(Fail(400, PricePositive)) ==>
              r == Some(Fail(400, DiscountRange)) && BadDiscount(discount)
  {
    if BadStock(stock) then Some(Fail(400, StockPositive))
    else if (priceRequired || price.Defined?) && BadPrice(price) then Some(Fail(400, PricePositive))
    else if BadDiscount(discount) then Some(Fail(400, DiscountRange))
    else None
  }

  /** The body as a stored product: stock, price and discount normalised, absent discount 0. */
  function Build(b: NewProduct, id: string, now: int): (p: Product)
    requires MissingFields(b).None? && NumericRefusal(b.stock, b.price, b.discount, true).None?
    ensures Normalised(p)
  {
    Product(id, b.name, b.image.value, b.category.value, b.subCategory.value, b.unit,
            NormalStock(b.stock), NormalPrice(b.price),
            if b.discount.Defined? then NormalDiscount(b.discount) else 0.0,
            b.description, b.moreDetails, now)
  }

  /** What `new ProductModel({...})` stores for an accepted body: the fields as given, a given
      stock unchanged, the price raised to at least 0.01 and unchanged from 0.01 up, the
      discount as given or 0 when absent. */
  lemma BuildKeepsValues(b: NewProduct, id: string, now: int)
    requires MissingFields(b).None? && NumericRefusal(b.stock, b.price, b.discount, true).None?
    ensures var p := Build(b, id, now);
            && p.id == id && p.name == b.name && p.unit == b.unit && p.description == b.description
            && p.image == b.image.value && p.category == b.category.value && p.subCategory == b.subCategory.value
            && (b.stock.Defined? ==> p.stock == b.stock.number)
            && (b.stock.Undefined? ==> p.stock.None?)
            && (NumberOf(b.price).value >= 0.01 ==> p.price == NumberOf(b.price).value)
            && p.discount == (if b.discount.Defined? then b.discount.number.value else 0.0)
  {
  }

  /** The request body of `updateProductDetails`; a field not sent is `None` or `Undefined`. */
  datatype Patch = Patch(
    id: string,
    name: Option<string>,
    image: Option<seq<string>>,
    category: Option<seq<string>>,
    subCategory: Option<seq<string>>,
    unit: Option<string>,
    stock: Input,
    price: Input,
    discount: Input,
    description: Option<string>,
    moreDetails: Option<string>)

  /** `updateOne({ _id }, dataToUpdate)` on one product: every field sent replaces the stored
      one, stock, price and discount normalised. */
  function ApplyPatch(p: Product, u: Patch): Product
    requires NumericRefusal(u.stock, u.price, u.discount, false).None?
  {
    p.(name := u.name.GetOr(p.name),
       image := u.image.GetOr(p.image),
       category := u.category.GetOr(p.category),
       subCategory := u.subCategory.GetOr(p.subCategory),
       unit := u.unit.GetOr(p.unit),
       stock := if u.stock.Defined? then NormalStock(u.stock) else p.stock,
       price := if u.price.Defined? then NormalPrice(u.price) else p.price,
       discount := if u.discount.Defined? then NormalDiscount(u.discount) else p.discount,
       description := u.description.GetOr(p.description),
       moreDetails := u.moreDetails.GetOr(p.moreDetails))
  }

  /** A patch keeps a product normalised, keeps its id, and leaves a field not sent alone. */
  lemma ApplyPatchFacts(p: Product, u: Patch)
    requires NumericRefusal(u.stock, u.price, u.discount, false).None?
    requires Normalised(p)
    ensures var q := ApplyPatch(p, u);
            && Normalised(q) && q.id == p.id && q.createdAt == p.createdAt
            && (u.stock.Undefined? ==> q.stock == p.stock)
            && (u.stock.Defined? ==> q.stock == u.stock.number)
            && (u.price.Undefined? ==> q.price == p.price)
            && (u.discount.Undefined? ==> q.discount == p.discount)
            && (u.discount.Defined? ==> q.discount == u.discount.number.value)
            && (u.name.None? ==> q.name == p.name)
  {
  }

  // ---------------------------------------------------------------------------
  // The collection

  /** `updateOne({ _id: id }, ...)` and `findOne({ _id: id })` reach the first product with
      that id. */
  function IndexOf(products: seq<Product>, id: string): (r: Option<nat>)
    ensures r.Some? ==> r.value < |products| && products[r.value].id == id &&
                        forall k :: 0 <= k < r.value ==> products[k].id != id
    ensures r.None? ==> forall k :: 0 <= k < |products| ==> products[k].id != id
  {
    if |products| == 0 then None
    else if products[0].id == id then Some(0)
    else
      var r := IndexOf(products[1..], id);
      if r.None? then None
      else
        assert forall k :: 1 <= k < |products| ==> products[k] == products[1..][k - 1];
        Some(r.value + 1)
  }

  /** The reply to create: a refusal, or the saved product. */
  datatype CreateReply = CreateRefused(response: Response) | Created(product: Product)

  class ProductCollection {
    var products: seq<Product>

    ghost predicate Valid()
      reads this
    {
      forall k :: 0 <= k < |products| ==> Normalised(products[k])
    }

    constructor()
      ensures products == [] && Valid()
    {
      products := [];
    }

    /** `createProductController` with a fresh `_id`. */
    method Create(b: NewProduct, id: string, now: int) returns (reply: CreateReply)
      requires Valid()
      modifies this
      ensures Valid()
      ensures MissingFields(b).Some? ==> reply == CreateRefused(MissingFields(b).value) && products == old(products)
      ensures MissingFields(b).None? && NumericRefusal(b.stock, b.price, b.discount, true).Some? ==>
                reply == CreateRefused(NumericRefusal(b.stock, b.price, b.discount, true).value) &&
                products == old(products)
      ensures MissingFields(b).None? && NumericRefusal(b.stock, b.price, b.discount, true).None? ==>
                reply == Created(Build(b, id, now)) && products == old(products) + [Build(b, id, now)]
    {
      var missing := MissingFields(b);
      if missing.Some? {
        return CreateRefused(missing.value);
      }
      var refusal := NumericRefusal(b.stock, b.price, b.discount, true);
      if refusal.Some? {
        return CreateRefused(refusal.value);
      }
      var product := Build(b, id, now);
      products := products + [product];
      reply := Created(product);
    }

    /** `updateProductDetails`: `dataToUpdate` starts as a copy of the body and the given
        stock, price and discount are replaced by their normalised values. */
    method Update(u: Patch) returns (reply: Response)
      requires Valid()
      modifies this
      ensures Valid()
      ensures u.id == "" ==> reply == Fail(400, ProvideProductId) && products == old(products)
      ensures u.id != "" && NumericRefusal(u.stock, u.price, u.discount, false).Some? ==>
                reply == NumericRefusal(u.stock, u.price, u.discount, false).value && products == old(products)
      ensures u.id != "" && NumericRefusal(u.stock, u.price, u.discount, false).None? ==>
                && reply == Done(Updated)
                && var at := IndexOf(old(products), u.id);
                   if at.None? then products == old(products)
                   else products == old(products)[at.value := ApplyPatch(old(products)[at.value], u)]
    {
      if u.id == "" {
        return Fail(400, ProvideProductId);
      }
      var refusal := NumericRefusal(u.stock, u.price, u.discount, false);
      if refusal.Some? {
        return refusal.value;
      }
      var at := IndexOf(products, u.id);
      if at.Some? {
        ApplyPatchFacts(products[at.value], u);
        products := products[at.value := ApplyPatch(products[at.value], u)];
      }
      reply := Done(Updated);
    }

    /** `deleteProductDetails`: `deleteOne({ _id })`. */
    method Delete(id: string) returns (reply: Response)
      requires Valid()
      modifies this
      ensures Valid()
      ensures id == "" ==> reply == Fail(400, ProvideId) && products == old(products)
      ensures id != "" ==>
                && reply == Done(Deleted)
                && var at := IndexOf(old(products), id);
                   if at.None? then products == old(products)
                   else products == old(products)[..at.value] + old(products)[at.value + 1..]
    {
      if id == "" {
        return Fail(400, ProvideId);
      }
      var at := IndexOf(products, id);
      if at.Some? {
        products := products[..at.value] + products[at.value + 1..];
      }
      reply := Done(Deleted);
    }
  }

  /** Delete removes the first product with that id and nothing else: a product remains
      exactly when it was there and is not that one. */
  lemma DeleteRemovesOne(products: seq<Product>, id: string)
    requires IndexOf(products, id).Some?
    ensures var at := IndexOf(products, id).value;
            var rest := products[..at] + products[at + 1..];
            |rest| == |products| - 1 &&
            (forall k :: 0 <= k < |products| && k != at ==> products[k] in rest) &&
            (forall x :: x in rest ==> x in products)
  {
    var at := IndexOf(products, id).value;
    var rest := products[..at] + products[at + 1..];
    forall k | 0 <= k < |products| && k != at ensures products[k] in rest {
      if k < at {
        assert rest[k] == products[k];
      } else {
        assert rest[k - 1] == products[k];
      }
    }
  }

  // ---------------------------------------------------------------------------
  // Queries

  /** `find(query).sort({ createdAt: -1 })`; products created at the same time come out in
      reverse stored order (`RankOrder.SortDescTiesReversed`). */
  function NewestFirst(products: seq<Product>): seq<Product> {
    RankOrder.SortDesc(products, (p: Product) => p.createdAt)
  }

  /** The documents a query selects, in insertion order. */
  function Select(products: seq<Product>, keep: Product -> bool): (r: seq<Product>)
    ensures |r| <= |products|
    ensures forall p :: p in r <==> p in products && keep(p)
  {
    if |products| == 0 then []
    else (if keep(products[0]) then [products[0]] else []) + Select(products[1..], keep)
  }

  /** `.skip(skip).limit(limit)`: a negative limit returns as many as its absolute value. */
  function SkipLimit(all: seq<Product>, skip: nat, limit: int): seq<Product> {
    var n := if limit < 0 then -limit else limit;
    Slice(all, skip, skip + n)
  }

  /** With a non-negative `skip` and a positive `limit` the database's window is page `page`. */
  lemma SkipLimitIsPage(all: seq<Product>, page: int, limit: int)
    requires (page - 1) * limit >= 0
    ensures limit > 0 ==> SkipLimit(all, (page - 1) * limit, limit) == Page(all, page, limit)
  {
  }

  /** A listing answer: the page, the number of matches, `Math.ceil(count / limit)`, and the
      page and limit used. */
  datatype Listing = ListRefused(response: Response)
                   | Listed(data: seq<Product>, totalCount: nat, totalPages: Option<int>, page: int, limit: int)

  /** `getProductController` and `searchProduct`: a truthy `search` is a text query (the text
      index is `textMatch`), `!page` is page 1 and `!limit` is 10. */
  function ListProducts(products: seq<Product>, textMatch: (string, Product) -> bool,
                        search: string, page: Option<int>, limit: Option<int>): (r: Listing)
    ensures var p := if FalsyInt(page) then 1 else page.value;
            var l := if FalsyInt(limit) then 10 else limit.value;
            var matching := Select(products, (x: Product) => search == "" || textMatch(search, x));
            && ((p - 1) * l < 0 <==> r.ListRefused?)
            && (r.ListRefused? ==> r.response == Fail(500, NegativeSkip))
            && (r.Listed? ==>
                  && r.page == p && r.limit == l
                  && r.totalCount == |matching| && r.totalPages == TotalPages(|matching|, l)
                  && (l > 0 ==> r.data == Page(NewestFirst(matching), p, l)))
  {
    var p := if FalsyInt(page) then 1 else page.value;
    var l := if FalsyInt(limit) then 10 else limit.value;
    var matching := Select(products, (x: Product) => search == "" || textMatch(search, x));
    var skip := (p - 1) * l;
    if skip < 0 then ListRefused(Fail(500, NegativeSkip))
    else
      SkipLimitIsPage(NewestFirst(matching), p, l);
      Listed(SkipLimit(NewestFirst(matching), skip, l), |matching|, TotalPages(|matching|, l), p, l)
  }

  /** With the defaults, every product of the catalogue is listed on exactly one page within
      `totalNoPage`, newest first across pages. */
  lemma DefaultListingCoversCatalogue(products: seq<Product>, k: nat)
    requires k < |products|
    ensures var all := NewestFirst(products);
            var page := k / 10 + 1;
            && all[k] in Page(all, page, 10)
            && TotalPages(|products|, 10).Some? && page <= TotalPages(|products|, 10).value
  {
    var all := NewestFirst(products);
    EveryItemListed(all, 10, k);
  }

  /** An identifier field of a category query: absent or "", one id, or an array of ids. */
  datatype Ids = NoIds | OneId(id: string) | ManyIds(ids: seq<string>)

  predicate FalsyIds(x: Ids) {
    x.NoIds? || (x.OneId? && x.id == "")
  }

  /** The ids `$in` tests against: the cast of the `ObjectId` path wraps a single id into an
      array of one. */
  function IdList(x: Ids): (r: seq<string>)
    ensures x.OneId? ==> r == [x.id]
    ensures x.ManyIds? ==> r == x.ids
  {
    match x
    case NoIds => []
    case OneId(s) => [s]
    case ManyIds(ids) => ids
  }

  /** `{ $in: ids }` against an array field: some element is one of the ids. */
  predicate AnyIn(field: seq<string>, ids: seq<string>) {
    exists i :: 0 <= i < |field| && field[i] in ids
  }

  datatype CategoryReply = CategoryRefused(response: Response) | InCategory(data: seq<Product>)

  /** `find({ category: { $in: ids } })`: the products of any of the categories, in stored order. */
  function InCategories(products: seq<Product>, ids: seq<string>): (r: seq<Product>)
    ensures forall p :: p in r <==> p in products && AnyIn(p.category, ids)
  {
    Select(products, (p: Product) => AnyIn(p.category, ids))
  }

  /** `getProductByCategory`: up to 15 products of the given categories, in stored order;
      an empty array is truthy and selects nothing. */
  function ByCategory(products: seq<Product>, id: Ids): (r: CategoryReply)
    ensures FalsyIds(id) ==> r == CategoryRefused(Fail(400, ProvideCategoryId))
    ensures !FalsyIds(id) ==>
              r.InCategory? && |r.data| <= 15 &&
              forall p :: p in r.data ==> p in products && AnyIn(p.category, IdList(id))
    ensures !FalsyIds(id) ==>
              var matching := InCategories(products, IdList(id));
              |r.data| == (if |matching| < 15 then |matching| else 15) &&
              r.data == matching[..|r.data|]
  {
    if FalsyIds(id) then CategoryRefused(Fail(400, ProvideCategoryId))
    else
      var matching := InCategories(products, IdList(id));
      var data := Slice(matching, 0, 15);
      assert forall p :: p in data ==> p in matching;
      InCategory(data)
  }

  /** A single category id is answered as the array holding just that id. */
  lemma SingleCategoryIsArrayOfOne(products: seq<Product>, s: string)
    requires s != ""
    ensures ByCategory(products, OneId(s)) == ByCategory(products, ManyIds([s]))
    ensures forall p :: p in ByCategory(products, OneId(s)).data ==> p in products && s in p.category
  {
    forall p | p in ByCategory(products, OneId(s)).data
      ensures s in p.category
    {
      var i :| 0 <= i < |p.category| && p.category[i] in [s];
    }
  }

  /** When at most 15 products are in the categories, the reply holds every one of them. */
  lemma FewMatchesAllReturned(products: seq<Product>, ids: seq<string>, p: Product)
    requires |InCategories(products, ids)| <= 15
    requires p in products && AnyIn(p.category, ids)
    ensures p in ByCategory(products, ManyIds(ids)).data
  {
    var matching := InCategories(products, ids);
    assert ByCategory(products, ManyIds(ids)).data == matching[..|matching|];
    assert matching[..|matching|] == matching;
  }

  /** `find({ category: { $in: categoryIds }, subCategory: { $in: subCategoryIds } })`, in stored order. */
  function InCategoriesAndSub(products: seq<Product>, categoryIds: seq<string>, subCategoryIds: seq<string>): (r: seq<Product>)
    ensures forall p :: p in r <==> p in products && AnyIn(p.category, categoryIds) && AnyIn(p.subCategory, subCategoryIds)
  {
    Select(products, (p: Product) => AnyIn(p.category, categoryIds) && AnyIn(p.subCategory, subCategoryIds))
  }

  /** `getProductByCategoryAndSubCategory`. `page` and `limit` are `const`, so a request that
      omits either throws on the reassignment; a single id stands for the array of that id. */
  function ByCategoryAndSubCategory(products: seq<Product>, categoryId: Ids, subCategoryId: Ids,
                                    page: Option<int>, limit: Option<int>): (r: Listing)
    ensures FalsyIds(categoryId) || FalsyIds(subCategoryId) ==> r == ListRefused(Fail(400, ProvideBothIds))
    ensures !FalsyIds(categoryId) && !FalsyIds(subCategoryId) && (FalsyInt(page) || FalsyInt(limit)) ==>
              r == ListRefused(Fail(500, ConstAssignment))
    ensures !FalsyIds(categoryId) && !FalsyIds(subCategoryId) && !FalsyInt(page) && !FalsyInt(limit) ==>
              && (r.Listed? <==> (page.value - 1) * limit.value >= 0)
              && (r.ListRefused? ==> r.response == Fail(500, NegativeSkip))
    ensures r.Listed? ==>
              && !FalsyIds(categoryId) && !FalsyIds(subCategoryId) && page.Some? && limit.Some?
              && r.page == page.value && r.limit == limit.value && r.totalPages.None?
              && var matching := InCategoriesAndSub(products, IdList(categoryId), IdList(subCategoryId));
                 r.totalCount == |matching| &&
                 (limit.value > 0 ==> r.data == Page(NewestFirst(matching), page.value, limit.value))
  {
    if FalsyIds(categoryId) || FalsyIds(subCategoryId) then ListRefused(Fail(400, ProvideBothIds))
    else if FalsyInt(page) || FalsyInt(limit) then ListRefused(Fail(500, ConstAssignment))
    else
      var p, l := page.value, limit.value;
      var matching := InCategoriesAndSub(products, IdList(categoryId), IdList(subCategoryId));
      var skip := (p - 1) * l;
      if skip < 0 then ListRefused(Fail(500, NegativeSkip))
      else
        SkipLimitIsPage(NewestFirst(matching), p, l);
        Listed(SkipLimit(NewestFirst(matching), skip, l), |matching|, None, p, l)
  }

  /** Single category and subcategory ids are answered as the arrays holding just those ids. */
  lemma SingleIdsAreArraysOfOne(products: seq<Product>, c: string, sub: string,
                                page: Option<int>, limit: Option<int>)
    requires c != "" && sub != ""
    ensures ByCategoryAndSubCategory(products, OneId(c), OneId(sub), page, limit) ==
            ByCategoryAndSubCategory(products, ManyIds([c]), ManyIds([sub]), page, limit)
    ensures ByCategoryAndSubCategory(products, OneId(c), OneId(sub), page, limit) ==
            ByCategoryAndSubCategory(products, OneId(c), ManyIds([sub]), page, limit)
  {
  }

  /** No request that leaves out `page` or `limit` is ever answered with products: the
      defaults the handler means to apply are never reached. */
  lemma OmittedPagingNeverLists(products: seq<Product>, categoryId: Ids, subCategoryId: Ids,
                                page: Option<int>, limit: Option<int>)
    requires page.None? || limit.None?
    ensures ByCategoryAndSubCategory(products, categoryId, subCategoryId, page, limit).ListRefused?
  {
  }

  datatype DetailsReply = DetailsRefused(response: Response) | ProductDetails(data: Option<Product>)

  /** `getProductDetails`: `findOne({ _id: productId })`, `null` being `None`. An absent
      `productId` drops out of the filter, which then finds the first stored product; an empty
      one cannot be cast to an ObjectId and the handler answers 500. */
  function Details(products: seq<Product>, productId: Option<string>): (r: DetailsReply)
    ensures productId.None? ==>
              r.ProductDetails? && (r.data.Some? <==> |products| > 0) &&
              (r.data.Some? ==> r.data.value == products[0])
    ensures productId == Some("") ==> r == DetailsRefused(Fail(500, CastObjectId))
    ensures productId.Some? && productId.value != "" ==>
              && r.ProductDetails?
              && (r.data.Some? <==> exists k :: 0 <= k < |products| && products[k].id == productId.value)
              && (r.data.Some? ==> r.data.value in products && r.data.value.id == productId.value)
  {
    match productId
    case None => ProductDetails(if |products| == 0 then None else Some(products[0]))
    case Some(id) =>
      if id == "" then DetailsRefused(Fail(500, CastObjectId))
      else
        var at := IndexOf(products, id);
        ProductDetails(if at.None? then None else Some(products[at.value]))
  }
}
