/** The VNPay 2.1.0 signed-redirect codec: parameter canonicalisation, the payment URL
    builder, return-URL verification and the response-code message table.
    HMAC-SHA512 and the clock formatting are parameters (`hmac`, `format`). */
module VNPay {
  import opened Wrappers
  import opened JsSemantics
  import KeyOrder
  import RankOrder

  /** A JavaScript object whose fields are strings, in insertion order. */
  type Params = seq<(string, string)>

  /** `crypto.createHmac("sha512", secret).update(data).digest("hex")`, as (secret, data) -> digest. */
  type Hmac = (string, string) -> string

  /** `moment(t).format("YYYYMMDDHHmmss")` for a time in milliseconds. */
  type Formatter = int -> string

  const SecureHash := "vnp_SecureHash"
  const SecureHashType := "vnp_SecureHashType"

  /** `moment(date).add(15, "minutes")`, in milliseconds. */
  const FifteenMinutes := 15 * 60 * 1000

  /** The message `createPaymentUrl` throws when anything inside it fails. */
  const CannotCreateUrl := "Không thể tạo URL thanh toán"

  /** The merchant configuration read from the environment; a missing secret is `None`. */
  datatype Config = Config(tmnCode: string, hashSecret: Option<string>, url: string, returnUrl: string)

  // ---------------------------------------------------------------------------
  // Objects as ordered field lists

  /** `Object.keys(p)`. */
  function Keys(p: Params): (ks: seq<string>)
    ensures |ks| == |p|
    ensures forall i :: 0 <= i < |p| ==> ks[i] == p[i].0
  {
    seq(|p|, i requires 0 <= i < |p| => p[i].0)
  }

  /** A JavaScript object never holds the same key twice. */
  predicate DistinctKeys(p: Params) {
    KeyOrder.Distinct(Keys(p))
  }

  /** `p[k]`, `None` standing for `undefined`. */
  function Get(p: Params, k: string): (r: Option<string>)
    ensures r.Some? <==> k in Keys(p)
    ensures r.Some? ==> (k, r.value) in p
  {
    if |p| == 0 then None
    else if p[0].0 == k then Some(p[0].1)
    else
      assert Keys(p) == [p[0].0] + Keys(p[1..]);
      Get(p[1..], k)
  }

  /** `delete p[k]`. */
  function Remove(p: Params, k: string): (r: Params)
    ensures forall e :: e in r <==> e in p && e.0 != k
    ensures k !in Keys(r)
  {
    if |p| == 0 then []
    else (if p[0].0 == k then [] else [p[0]]) + Remove(p[1..], k)
  }

  /** `p[k] = v`: a new key goes to the end, an existing one keeps its place. */
  function Assign(p: Params, k: string, v: string): (r: Params)
    ensures k !in Keys(p) ==> r == p + [(k, v)]
    ensures Get(r, k) == Some(v)
  {
    if |p| == 0 then [(k, v)]
    else if p[0].0 == k then [(k, v)] + p[1..]
    else
      assert k !in Keys(p) ==> k !in Keys(p[1..]);
      [p[0]] + Assign(p[1..], k, v)
  }

  /** The object `sortObject` builds: for each key of `ks`, in that order, the value `p` has. */
  function Pick(p: Params, ks: seq<string>): (r: Params)
    ensures |r| == |ks|
  {
    seq(|ks|, i requires 0 <= i < |ks| => (ks[i], Get(p, ks[i]).GetOr("")))
  }

  function SortedObject(p: Params): Params {
    Pick(p, KeyOrder.SortKeys(Keys(p)))
  }

  /** `qs.stringify(p, { encode: false })`: the unencoded `k=v` pairs joined by `&`. */
  function Stringify(p: Params): string {
    if |p| == 0 then ""
    else if |p| == 1 then p[0].0 + "=" + p[0].1
    else p[0].0 + "=" + p[0].1 + "&" + Stringify(p[1..])
  }

  // ---------------------------------------------------------------------------
  // Facts about objects

  lemma {:induction false} GetMember(p: Params, k: string, v: string)
    requires DistinctKeys(p) && (k, v) in p
    ensures Get(p, k) == Some(v)
  {
    if p[0] != (k, v) {
      assert p[0].0 != k by {
        var j :| 0 <= j < |p| && p[j] == (k, v);
        assert Keys(p)[0] != Keys(p)[j];
      }
      assert (k, v) in p[1..];
      assert Keys(p[1..]) == Keys(p)[1..];
      GetMember(p[1..], k, v);
    }
  }

  lemma {:induction false} RemoveKeepsDistinct(p: Params, k: string)
    requires DistinctKeys(p)
    ensures DistinctKeys(Remove(p, k))
    ensures |Remove(p, k)| <= |p|
  {
    if |p| > 0 {
      assert Keys(p[1..]) == Keys(p)[1..];
      RemoveKeepsDistinct(p[1..], k);
      var tail := Remove(p[1..], k);
      if p[0].0 != k {
        forall j | 0 <= j < |tail| ensures tail[j].0 != p[0].0 {
          assert tail[j] in p[1..];
          var m :| 0 <= m < |p[1..]| && p[1..][m] == tail[j];
          assert Keys(p)[0] != Keys(p)[m + 1];
        }
      }
    }
  }

  lemma {:induction false} RemoveAbsent(p: Params, k: string)
    requires k !in Keys(p)
    ensures Remove(p, k) == p
  {
    if |p| > 0 {
      assert Keys(p[1..]) == Keys(p)[1..];
      RemoveAbsent(p[1..], k);
    }
  }

  lemma {:induction false} RemoveAppend(a: Params, b: Params, k: string)
    ensures Remove(a + b, k) == Remove(a, k) + Remove(b, k)
  {
    if |a| > 0 {
      assert (a + b)[1..] == a[1..] + b;
      RemoveAppend(a[1..], b, k);
    } else {
      assert a + b == b;
    }
  }

  /** Distinct sequences holding the same elements hold them with the same multiplicities. */
  lemma SameSetSameMultiset(a: seq<string>, b: seq<string>)
    requires KeyOrder.Distinct(a) && KeyOrder.Distinct(b)
    requires forall x :: x in a <==> x in b
    ensures multiset(a) == multiset(b)
  {
    forall x ensures multiset(a)[x] == multiset(b)[x] {
      KeyOrder.DistinctMultiplicity(a, x);
      KeyOrder.DistinctMultiplicity(b, x);
    }
  }

  /** Objects holding the same fields have the same keys. */
  lemma SameEntriesSameKeys(a: Params, b: Params)
    requires forall e :: e in a <==> e in b
    ensures forall k :: k in Keys(a) <==> k in Keys(b)
  {
    forall k ensures k in Keys(a) <==> k in Keys(b) {
      if k in Keys(a) {
        var i :| 0 <= i < |a| && Keys(a)[i] == k;
        assert a[i] in b;
        var j :| 0 <= j < |b| && b[j] == a[i];
        assert Keys(b)[j] == k;
      }
      if k in Keys(b) {
        var i :| 0 <= i < |b| && Keys(b)[i] == k;
        assert b[i] in a;
        var j :| 0 <= j < |a| && a[j] == b[i];
        assert Keys(a)[j] == k;
      }
    }
  }

  /** Appending a field under a new key to a sorted object keeps its keys distinct and
      makes the field readable. */
  lemma AppendNewKey(s: Params, k: string, v: string)
    requires KeyOrder.Ascending(Keys(s)) && k !in Keys(s)
    ensures DistinctKeys(s + [(k, v)])
    ensures Get(s + [(k, v)], k) == Some(v)
  {
    var q := s + [(k, v)];
    KeyOrder.AscendingDistinct(Keys(s));
    forall m, n | 0 <= m < n < |q| ensures Keys(q)[m] != Keys(q)[n] {
      if n < |s| {
        assert Keys(q)[m] == Keys(s)[m] && Keys(q)[n] == Keys(s)[n];
      } else {
        assert Keys(q)[m] == Keys(s)[m];
        assert Keys(s)[m] in Keys(s);
      }
    }
    GetMember(q, k, v);
  }

  /** `sortObject` keeps exactly the fields it was given and puts their keys in ascending order. */
  lemma {:induction false} SortedObjectFacts(p: Params)
    requires DistinctKeys(p)
    ensures KeyOrder.Ascending(Keys(SortedObject(p)))
    ensures |SortedObject(p)| == |p|
    ensures forall e :: e in SortedObject(p) <==> e in p
  {
    var ks := KeyOrder.SortKeys(Keys(p));
    KeyOrder.SortKeysAscending(Keys(p));
    var s := SortedObject(p);
    assert Keys(s) == ks;
    forall e ensures e in s <==> e in p {
      if e in s {
        var i :| 0 <= i < |s| && s[i] == e;
        assert ks[i] in multiset(Keys(p));
        var j :| 0 <= j < |p| && Keys(p)[j] == ks[i];
        GetMember(p, p[j].0, p[j].1);
      }
      if e in p {
        var j :| 0 <= j < |p| && p[j] == e;
        assert Keys(p)[j] in multiset(ks);
        var i :| 0 <= i < |ks| && ks[i] == e.0;
        GetMember(p, e.0, e.1);
        assert s[i] == e;
      }
    }
  }

  /** `sortObject` leaves an object whose keys are already ascending as it is. */
  lemma SortedObjectOfAscending(p: Params)
    requires KeyOrder.Ascending(Keys(p))
    ensures SortedObject(p) == p
  {
    KeyOrder.SortAscendingIsIdentity(Keys(p));
    forall i | 0 <= i < |p| ensures Get(p, p[i].0) == Some(p[i].1) {
      assert forall m, n :: 0 <= m < n < |p| ==> Keys(p)[m] != Keys(p)[n] by {
        forall m, n | 0 <= m < n < |p| ensures Keys(p)[m] != Keys(p)[n] {
          KeyOrder.LessIrreflexive(Keys(p)[m]);
        }
      }
      GetMember(p, p[i].0, p[i].1);
    }
  }

  /** What `sortObject` produces depends only on the fields, not on their order. */
  lemma SameEntriesSameSortedObject(a: Params, b: Params)
    requires DistinctKeys(a) && DistinctKeys(b)
    requires forall e :: e in a <==> e in b
    ensures SortedObject(a) == SortedObject(b)
  {
    SameEntriesSameKeys(a, b);
    SameSetSameMultiset(Keys(a), Keys(b));
    KeyOrder.SortKeysAscending(Keys(a));
    KeyOrder.SortKeysAscending(Keys(b));
    KeyOrder.AscendingUnique(KeyOrder.SortKeys(Keys(a)), KeyOrder.SortKeys(Keys(b)));
    var ks := KeyOrder.SortKeys(Keys(a));
    forall i | 0 <= i < |ks| ensures Get(a, ks[i]) == Get(b, ks[i]) {
      assert ks[i] in multiset(Keys(a));
      var j :| 0 <= j < |a| && Keys(a)[j] == ks[i];
      GetMember(a, a[j].0, a[j].1);
      GetMember(b, a[j].0, a[j].1);
    }
  }

  lemma {:induction false} PrefixCancel(x: string, a: string, b: string)
    requires x + a == x + b
    ensures a == b
  {
    assert a == (x + a)[|x|..];
    assert b == (x + b)[|x|..];
  }

  /** Two strings that differ only in one middle part differ. */
  lemma {:induction false} MiddleDiffers(x: string, v: string, w: string, t: string)
    requires v != w
    ensures x + v + t != x + w + t
  {
    assert (x + v + t)[|x|..|x| + |v|] == v;
    assert (x + w + t)[|x|..|x| + |w|] == w;
  }

  /** Changing one value, keys untouched, changes the sign data. */
  lemma {:induction false} StringifyValueChange(p: Params, i: nat, v: string)
    requires i < |p| && v != p[i].1
    ensures Stringify(p[i := (p[i].0, v)]) != Stringify(p)
  {
    var q := p[i := (p[i].0, v)];
    if i == 0 {
      if |p| == 1 {
        MiddleDiffers(p[0].0 + "=", v, p[0].1, "");
        assert Stringify(q) == p[0].0 + "=" + v + "";
        assert Stringify(p) == p[0].0 + "=" + p[0].1 + "";
      } else {
        assert q[1..] == p[1..];
        var t := "&" + Stringify(p[1..]);
        MiddleDiffers(p[0].0 + "=", v, p[0].1, t);
        assert Stringify(q) == p[0].0 + "=" + v + t;
        assert Stringify(p) == p[0].0 + "=" + p[0].1 + t;
      }
    } else {
      assert q[1..] == p[1..][i - 1 := (p[i].0, v)];
      StringifyValueChange(p[1..], i - 1, v);
      var x := p[0].0 + "=" + p[0].1 + "&";
      if x + Stringify(q[1..]) == x + Stringify(p[1..]) {
        PrefixCancel(x, Stringify(q[1..]), Stringify(p[1..]));
      }
    }
  }

  // ---------------------------------------------------------------------------
  // sortObject, createPaymentUrl, verifyReturnUrl

  /** `sortObject`: a new object holding the same fields, filled key by key in sorted key order. */
  method SortObject(obj: Params) returns (sorted: Params)
    ensures sorted == SortedObject(obj)
    ensures DistinctKeys(obj) ==> KeyOrder.Ascending(Keys(sorted))
    ensures DistinctKeys(obj) ==> |sorted| == |obj| && forall e :: e in sorted <==> e in obj
  {
    var keys := KeyOrder.SortKeys(Keys(obj));
    sorted := [];
    for i := 0 to |keys|
      invariant |sorted| == i
      invariant forall j :: 0 <= j < i ==> sorted[j] == (keys[j], Get(obj, keys[j]).GetOr(""))
    {
      // every key comes from `obj`, so the lookup always finds a value
      sorted := sorted + [(keys[i], Get(obj, keys[i]).GetOr(""))];
    }
    if DistinctKeys(obj) {
      SortedObjectFacts(obj);
    }
  }

  /** The arguments of `createPaymentUrl`; an omitted `returnUrl` is "". */
  datatype PaymentRequest = PaymentRequest(orderId: string, amount: int, orderInfo: string,
                                           ipAddr: string, returnUrl: string)

  /** The object literal `createPaymentUrl` starts from, at time `now`. */
  function PaymentParams(cfg: Config, format: Formatter, req: PaymentRequest, now: int): Params {
    [ ("vnp_Version", "2.1.0"),
      ("vnp_Command", "pay"),
      ("vnp_TmnCode", cfg.tmnCode),
      ("vnp_Locale", "vn"),
      ("vnp_CurrCode", "VND"),
      ("vnp_TxnRef", req.orderId),
      ("vnp_OrderInfo", req.orderInfo),
      ("vnp_OrderType", "other"),
      ("vnp_Amount", IntToString(req.amount * 100)),
      ("vnp_ReturnUrl", if req.returnUrl != "" then req.returnUrl else cfg.returnUrl),
      ("vnp_IpAddr", req.ipAddr),
      ("vnp_CreateDate", format(now)),
      ("vnp_ExpireDate", format(now + FifteenMinutes)) ]
  }

  /** The sorted fields followed by `vnp_SecureHash`, the HMAC of their sign data. */
  function Sign(secret: string, hmac: Hmac, p: Params): Params {
    var sorted := SortedObject(p);
    sorted + [(SecureHash, hmac(secret, Stringify(sorted)))]
  }

  /** Signing keeps every field readable under its key, adds `vnp_SecureHash` holding the HMAC
      of the sorted fields' sign data, and leaves the sorted fields in front. */
  lemma SignFacts(secret: string, hmac: Hmac, p: Params)
    requires DistinctKeys(p) && SecureHash !in Keys(p)
    ensures var signed := Sign(secret, hmac, p);
            && DistinctKeys(signed)
            && signed[..|signed| - 1] == SortedObject(p)
            && KeyOrder.Ascending(Keys(SortedObject(p)))
            && SecureHash !in Keys(SortedObject(p))
            && Get(signed, SecureHash) == Some(hmac(secret, Stringify(SortedObject(p))))
            && forall e :: e in p ==> Get(signed, e.0) == Some(e.1)
  {
    var sorted := SortedObject(p);
    var signed := Sign(secret, hmac, p);
    SortedObjectFacts(p);
    SameEntriesSameKeys(sorted, p);
    AppendNewKey(sorted, SecureHash, hmac(secret, Stringify(sorted)));
    assert signed[..|signed| - 1] == sorted;
    forall e | e in p ensures Get(signed, e.0) == Some(e.1) {
      assert e in signed;
      GetMember(signed, e.0, e.1);
    }
  }

  /** `createPaymentUrl`; the thrown error is `Err`. A missing secret makes `createHmac` throw. */
  method CreatePaymentUrl(cfg: Config, hmac: Hmac, format: Formatter, req: PaymentRequest, now: int)
    returns (r: Result<string>)
    ensures cfg.hashSecret.None? ==> r == Err(CannotCreateUrl)
    ensures cfg.hashSecret.Some? ==>
      r == Ok(cfg.url + "?" + Stringify(Sign(cfg.hashSecret.value, hmac, PaymentParams(cfg, format, req, now))))
  {
    var base := PaymentParams(cfg, format, req, now);
    var vnpParams := SortObject(base);
    var signData := Stringify(vnpParams);
    if cfg.hashSecret.None? {
      return Err(CannotCreateUrl);
    }
    var signed := hmac(cfg.hashSecret.value, signData);
    PaymentParamsFacts(cfg, format, req, now);
    SignFacts(cfg.hashSecret.value, hmac, base);
    vnpParams := Assign(vnpParams, SecureHash, signed);
    r := Ok(cfg.url + "?" + Stringify(vnpParams));
  }

  /** The check `verifyReturnUrl` performs, answered for every input. */
  function IsValidSignature(cfg: Config, hmac: Hmac, vnpParams: Params): bool {
    match cfg.hashSecret
    case None => false
    case Some(secret) =>
      var stripped := Remove(Remove(vnpParams, SecureHash), SecureHashType);
      Get(vnpParams, SecureHash) == Some(hmac(secret, Stringify(SortedObject(stripped))))
  }

  /** `verifyReturnUrl`: drop both hash fields from a copy, re-sort, re-sign and compare.
      It never throws: a failure inside (a missing secret) answers `false`. */
  method VerifyReturnUrl(cfg: Config, hmac: Hmac, vnpParams: Params) returns (valid: bool)
    ensures valid == IsValidSignature(cfg, hmac, vnpParams)
    ensures cfg.hashSecret.None? ==> !valid
    ensures valid ==> Get(vnpParams, SecureHash).Some?
  {
    var secureHash := Get(vnpParams, SecureHash);
    var paramsToVerify := vnpParams;
    paramsToVerify := Remove(paramsToVerify, SecureHash);
    paramsToVerify := Remove(paramsToVerify, SecureHashType);
    var sortedParams := SortObject(paramsToVerify);
    var signData := Stringify(sortedParams);
    if cfg.hashSecret.None? {
      return false;
    }
    var signed := hmac(cfg.hashSecret.value, signData);
    valid := secureHash == Some(signed);
  }

  // ---------------------------------------------------------------------------
  // Properties of the payment request

  /** The payment request carries distinct keys and no hash field. */
  lemma PaymentParamsFacts(cfg: Config, format: Formatter, req: PaymentRequest, now: int)
    ensures DistinctKeys(PaymentParams(cfg, format, req, now))
    ensures SecureHash !in Keys(PaymentParams(cfg, format, req, now))
    ensures SecureHashType !in Keys(PaymentParams(cfg, format, req, now))
    ensures forall k :: k in Keys(PaymentParams(cfg, format, req, now)) ==> k[..4] == "vnp_"
  {
  }

  /** Every field of the unsigned object can be read back from the signed one. */
  lemma SignedFieldReadable(secret: string, hmac: Hmac, p: Params, j: nat)
    requires DistinctKeys(p) && SecureHash !in Keys(p) && j < |p|
    ensures Get(Sign(secret, hmac, p), p[j].0) == Some(p[j].1)
  {
    SignFacts(secret, hmac, p);
    assert p[j] in p;
  }

  /** The signed request carries the order id as transaction reference and the amount in
      minor units (times 100). */
  lemma SignedRequestOrder(cfg: Config, hmac: Hmac, format: Formatter, req: PaymentRequest, now: int)
    requires cfg.hashSecret.Some?
    ensures Get(Sign(cfg.hashSecret.value, hmac, PaymentParams(cfg, format, req, now)), "vnp_TxnRef")
              == Some(req.orderId)
    ensures Get(Sign(cfg.hashSecret.value, hmac, PaymentParams(cfg, format, req, now)), "vnp_Amount")
              == Some(IntToString(req.amount * 100))
  {
    var base := PaymentParams(cfg, format, req, now);
    PaymentParamsFacts(cfg, format, req, now);
    assert base[5] == ("vnp_TxnRef", req.orderId);
    SignedFieldReadable(cfg.hashSecret.value, hmac, base, 5);
    assert base[8] == ("vnp_Amount", IntToString(req.amount * 100));
    SignedFieldReadable(cfg.hashSecret.value, hmac, base, 8);
  }

  /** The signed request returns to the given URL, or to the configured one when none is given. */
  lemma SignedRequestReturnUrl(cfg: Config, hmac: Hmac, format: Formatter, req: PaymentRequest, now: int)
    requires cfg.hashSecret.Some?
    ensures Get(Sign(cfg.hashSecret.value, hmac, PaymentParams(cfg, format, req, now)), "vnp_ReturnUrl")
              == Some(if req.returnUrl != "" then req.returnUrl else cfg.returnUrl)
  {
    var base := PaymentParams(cfg, format, req, now);
    PaymentParamsFacts(cfg, format, req, now);
    assert base[9] == ("vnp_ReturnUrl", if req.returnUrl != "" then req.returnUrl else cfg.returnUrl);
    SignedFieldReadable(cfg.hashSecret.value, hmac, base, 9);
  }

  /** The signed request speaks version 2.1.0 of the `pay` command in Vietnamese dong. */
  lemma SignedRequestProtocol(cfg: Config, hmac: Hmac, format: Formatter, req: PaymentRequest, now: int)
    requires cfg.hashSecret.Some?
    ensures Get(Sign(cfg.hashSecret.value, hmac, PaymentParams(cfg, format, req, now)), "vnp_Version")
              == Some("2.1.0")
    ensures Get(Sign(cfg.hashSecret.value, hmac, PaymentParams(cfg, format, req, now)), "vnp_Command")
              == Some("pay")
    ensures Get(Sign(cfg.hashSecret.value, hmac, PaymentParams(cfg, format, req, now)), "vnp_CurrCode")
              == Some("VND")
  {
    var base := PaymentParams(cfg, format, req, now);
    PaymentParamsFacts(cfg, format, req, now);
    assert base[0] == ("vnp_Version", "2.1.0");
    SignedFieldReadable(cfg.hashSecret.value, hmac, base, 0);
    assert base[1] == ("vnp_Command", "pay");
    SignedFieldReadable(cfg.hashSecret.value, hmac, base, 1);
    assert base[4] == ("vnp_CurrCode", "VND");
    SignedFieldReadable(cfg.hashSecret.value, hmac, base, 4);
  }

  /** The signed request expires exactly fifteen minutes after it was created, and its hash is
      the HMAC of the sorted unsigned fields. */
  lemma SignedRequestWindow(cfg: Config, hmac: Hmac, format: Formatter, req: PaymentRequest, now: int)
    requires cfg.hashSecret.Some?
    ensures Get(Sign(cfg.hashSecret.value, hmac, PaymentParams(cfg, format, req, now)), "vnp_CreateDate")
              == Some(format(now))
    ensures Get(Sign(cfg.hashSecret.value, hmac, PaymentParams(cfg, format, req, now)), "vnp_ExpireDate")
              == Some(format(now + FifteenMinutes))
    ensures Get(Sign(cfg.hashSecret.value, hmac, PaymentParams(cfg, format, req, now)), SecureHash)
              == Some(hmac(cfg.hashSecret.value, Stringify(SortedObject(PaymentParams(cfg, format, req, now)))))
  {
    var secret := cfg.hashSecret.value;
    var base := PaymentParams(cfg, format, req, now);
    PaymentParamsFacts(cfg, format, req, now);
    SignFacts(secret, hmac, base);
    assert base[11] == ("vnp_CreateDate", format(now));
    SignedFieldReadable(secret, hmac, base, 11);
    assert base[12] == ("vnp_ExpireDate", format(now + FifteenMinutes));
    SignedFieldReadable(secret, hmac, base, 12);
  }

  /** Verification depends only on which fields arrive, not on their order. */
  lemma VerificationIgnoresOrder(cfg: Config, hmac: Hmac, a: Params, b: Params)
    requires DistinctKeys(a) && DistinctKeys(b)
    requires forall e :: e in a <==> e in b
    ensures IsValidSignature(cfg, hmac, a) == IsValidSignature(cfg, hmac, b)
  {
    if cfg.hashSecret.Some? {
      var sa := Remove(Remove(a, SecureHash), SecureHashType);
      var sb := Remove(Remove(b, SecureHash), SecureHashType);
      RemoveKeepsDistinct(a, SecureHash);
      RemoveKeepsDistinct(Remove(a, SecureHash), SecureHashType);
      RemoveKeepsDistinct(b, SecureHash);
      RemoveKeepsDistinct(Remove(b, SecureHash), SecureHashType);
      SameEntriesSameSortedObject(sa, sb);
      if Get(a, SecureHash).Some? {
        GetMember(b, SecureHash, Get(a, SecureHash).value);
      }
      if Get(b, SecureHash).Some? {
        GetMember(a, SecureHash, Get(b, SecureHash).value);
      }
    }
  }

  /** Round trip: whatever is signed verifies, in any field order. */
  lemma {:induction false} SignThenVerify(cfg: Config, hmac: Hmac, p: Params, q: Params)
    requires cfg.hashSecret.Some?
    requires DistinctKeys(p) && SecureHash !in Keys(p) && SecureHashType !in Keys(p)
    requires DistinctKeys(q) && forall e :: e in q <==> e in Sign(cfg.hashSecret.value, hmac, p)
    ensures IsValidSignature(cfg, hmac, q)
  {
    var secret := cfg.hashSecret.value;
    var sorted := SortedObject(p);
    var h := hmac(secret, Stringify(sorted));
    SortedObjectFacts(p);
    assert (SecureHash, h) in q;
    GetMember(q, SecureHash, h);
    var stripped := Remove(Remove(q, SecureHash), SecureHashType);
    RemoveKeepsDistinct(q, SecureHash);
    RemoveKeepsDistinct(Remove(q, SecureHash), SecureHashType);
    forall e ensures e in stripped <==> e in p {
      if e in p {
        assert e.0 in Keys(p) by {
          var i :| 0 <= i < |p| && p[i] == e;
          assert Keys(p)[i] == e.0;
        }
      }
    }
    SameEntriesSameSortedObject(stripped, p);
  }

  /** The URL built for an order verifies when its fields come back, in any order. */
  lemma CreatedUrlVerifies(cfg: Config, hmac: Hmac, format: Formatter, req: PaymentRequest, now: int, q: Params)
    requires cfg.hashSecret.Some?
    requires DistinctKeys(q)
    requires forall e :: e in q <==> e in Sign(cfg.hashSecret.value, hmac, PaymentParams(cfg, format, req, now))
    ensures IsValidSignature(cfg, hmac, q)
  {
    PaymentParamsFacts(cfg, format, req, now);
    SignThenVerify(cfg, hmac, PaymentParams(cfg, format, req, now), q);
  }

  /** HMAC treated as injective in its data for a fixed secret. */
  ghost predicate Injective(hmac: Hmac, secret: string) {
    forall d1, d2 :: hmac(secret, d1) == hmac(secret, d2) ==> d1 == d2
  }

  /** Stripping the hash fields from sorted fields plus a trailing hash leaves the sorted fields. */
  lemma StripTrailingHash(s: Params, v: string)
    requires SecureHash !in Keys(s) && SecureHashType !in Keys(s)
    ensures Remove(Remove(s + [(SecureHash, v)], SecureHash), SecureHashType) == s
  {
    var last := [(SecureHash, v)];
    RemoveAppend(s, last, SecureHash);
    assert last[1..] == [];
    assert Remove(last, SecureHash) == [] + Remove(last[1..], SecureHash);
    RemoveAbsent(s, SecureHash);
    assert Remove(s + last, SecureHash) == s;
    RemoveAbsent(s, SecureHashType);
  }

  lemma KeysAfterValueChange(s: Params, i: nat, v: string)
    requires i < |s|
    ensures Keys(s[i := (s[i].0, v)]) == Keys(s)
  {
    var changed := s[i := (s[i].0, v)];
    assert |Keys(changed)| == |Keys(s)|;
    forall j | 0 <= j < |s| ensures Keys(changed)[j] == Keys(s)[j] {
    }
  }

  /** A hash field that is not the HMAC of the sorted fields is rejected. */
  lemma TamperedHashRejected(cfg: Config, hmac: Hmac, s: Params, v: string)
    requires cfg.hashSecret.Some?
    requires KeyOrder.Ascending(Keys(s)) && SecureHash !in Keys(s) && SecureHashType !in Keys(s)
    requires v != hmac(cfg.hashSecret.value, Stringify(s))
    ensures !IsValidSignature(cfg, hmac, s + [(SecureHash, v)])
  {
    StripTrailingHash(s, v);
    AppendNewKey(s, SecureHash, v);
    SortedObjectOfAscending(s);
  }

  /** A sorted field whose value changed no longer matches the HMAC of the original fields,
      when the HMAC tells the two sign data apart. */
  lemma TamperedFieldRejected(cfg: Config, hmac: Hmac, s: Params, i: nat, v: string)
    requires cfg.hashSecret.Some?
    requires KeyOrder.Ascending(Keys(s)) && SecureHash !in Keys(s) && SecureHashType !in Keys(s)
    requires i < |s|
    requires hmac(cfg.hashSecret.value, Stringify(s[i := (s[i].0, v)])) != hmac(cfg.hashSecret.value, Stringify(s))
    ensures !IsValidSignature(cfg, hmac, s[i := (s[i].0, v)] + [(SecureHash, hmac(cfg.hashSecret.value, Stringify(s)))])
  {
    KeysAfterValueChange(s, i, v);
    TamperedHashRejected(cfg, hmac, s[i := (s[i].0, v)], hmac(cfg.hashSecret.value, Stringify(s)));
  }

  /** An injective HMAC tells different data apart. */
  lemma InjectiveDistinguishes(hmac: Hmac, secret: string, d1: string, d2: string)
    requires Injective(hmac, secret) && d1 != d2
    ensures hmac(secret, d1) != hmac(secret, d2)
  {
  }

  lemma UpdateAppended(a: Params, x: (string, string), i: nat, y: (string, string))
    requires i <= |a|
    ensures i < |a| ==> (a + [x])[i := y] == a[i := y] + [x]
    ensures i == |a| ==> (a + [x])[i := y] == a + [y]
  {
  }

  /** The sorted fields of an object without hash fields are ascending and hash-free. */
  lemma SortedWithoutHash(p: Params)
    requires DistinctKeys(p) && SecureHash !in Keys(p) && SecureHashType !in Keys(p)
    ensures KeyOrder.Ascending(Keys(SortedObject(p)))
    ensures SecureHash !in Keys(SortedObject(p)) && SecureHashType !in Keys(SortedObject(p))
  {
    SortedObjectFacts(p);
    SameEntriesSameKeys(SortedObject(p), p);
  }

  /** Tampering: changing the value of any one signed field, the hash included, makes
      verification fail, when the HMAC is injective. */
  lemma TamperedValueRejected(cfg: Config, hmac: Hmac, p: Params, i: nat, v: string)
    requires cfg.hashSecret.Some? && Injective(hmac, cfg.hashSecret.value)
    requires DistinctKeys(p) && SecureHash !in Keys(p) && SecureHashType !in Keys(p)
    requires i < |Sign(cfg.hashSecret.value, hmac, p)|
    requires v != Sign(cfg.hashSecret.value, hmac, p)[i].1
    ensures var signed := Sign(cfg.hashSecret.value, hmac, p);
            !IsValidSignature(cfg, hmac, signed[i := (signed[i].0, v)])
  {
    var secret := cfg.hashSecret.value;
    var sorted := SortedObject(p);
    var h := hmac(secret, Stringify(sorted));
    var signed := Sign(secret, hmac, p);
    assert signed == sorted + [(SecureHash, h)];
    SortedWithoutHash(p);
    UpdateAppended(sorted, (SecureHash, h), i, (signed[i].0, v));
    if i == |sorted| {
      TamperedHashRejected(cfg, hmac, sorted, v);
    } else {
      assert signed[i] == sorted[i];
      StringifyValueChange(sorted, i, v);
      InjectiveDistinguishes(hmac, secret, Stringify(sorted[i := (sorted[i].0, v)]), Stringify(sorted));
      TamperedFieldRejected(cfg, hmac, sorted, i, v);
    }
  }

  /** The sign data is `qs.stringify(sorted, { encode: false })`, which joins the raw values, so
      a value holding `&` and `=` signs the same text as two separate fields. */
  lemma UnencodedSignDataIsAmbiguous()
    ensures var one := [("a", "1&b=2")];
            var two := [("a", "1"), ("b", "2")];
            one != two && Stringify(SortedObject(one)) == Stringify(SortedObject(two))
  {
    var one := [("a", "1&b=2")];
    var two := [("a", "1"), ("b", "2")];
    assert Keys(one) == ["a"];
    assert Keys(two) == ["a", "b"];
    assert KeyOrder.Less("a", "b");
    SortedObjectOfAscending(one);
    SortedObjectOfAscending(two);
    assert Stringify(one) == "a" + "=" + "1&b=2";
    assert Stringify(two) == "a" + "=" + "1" + "&" + ("b" + "=" + "2");
  }

  // ---------------------------------------------------------------------------
  // The own-key order of a JavaScript object

  predicate IsDigitChar(c: char) {
    '0' <= c <= '9'
  }

  /** The number a string of decimal digits spells. */
  function DigitsValue(s: string): int {
    if |s| == 0 then 0 else DigitsValue(s[..|s| - 1]) * 10 + (s[|s| - 1] as int - '0' as int)
  }

  /** A canonical array index: "0" or digits without a leading zero, below 2^32 - 1. */
  predicate IsArrayIndex(k: string) {
    && |k| > 0
    && (forall i :: 0 <= i < |k| ==> IsDigitChar(k[i]))
    && (k[0] != '0' || |k| == 1)
    && DigitsValue(k) < 0xFFFF_FFFF
  }

  /** Array indices in the order they were added. */
  function IndexKeys(ks: seq<string>): (r: seq<string>)
    ensures forall k :: k in r <==> k in ks && IsArrayIndex(k)
  {
    if |ks| == 0 then [] else (if IsArrayIndex(ks[0]) then [ks[0]] else []) + IndexKeys(ks[1..])
  }

  /** The other keys in the order they were added. */
  function NamedKeys(ks: seq<string>): (r: seq<string>)
    ensures forall k :: k in r <==> k in ks && !IsArrayIndex(k)
  {
    if |ks| == 0 then [] else (if IsArrayIndex(ks[0]) then [] else [ks[0]]) + NamedKeys(ks[1..])
  }

  /** Sorting by this, largest first, puts array indices in ascending numeric order. */
  function NegatedIndex(k: string): int {
    -DigitsValue(k)
  }

  /** `Object.keys` of an object whose keys were added in the order `ks`: the array indices
      first, in ascending numeric order, then the other keys in the order they were added. */
  function OwnKeys(ks: seq<string>): (r: seq<string>)
    ensures multiset(r) == multiset(IndexKeys(ks)) + multiset(NamedKeys(ks))
  {
    RankOrder.SortDesc(IndexKeys(ks), NegatedIndex) + NamedKeys(ks)
  }

  /** When no key is an array index, `Object.keys` lists the keys in the order they were added. */
  lemma {:induction false} OwnKeysWithoutIndices(ks: seq<string>)
    requires forall i :: 0 <= i < |ks| ==> !IsArrayIndex(ks[i])
    ensures IndexKeys(ks) == [] && NamedKeys(ks) == ks
    ensures OwnKeys(ks) == ks
  {
    if |ks| > 0 {
      OwnKeysWithoutIndices(ks[1..]);
      assert ks == [ks[0]] + ks[1..];
    }
  }

  /** A `vnp_` name is not an array index. */
  lemma VnpNameIsNotIndex(k: string)
    requires |k| >= 4 && k[..4] == "vnp_"
    ensures !IsArrayIndex(k)
  {
    assert k[0] == 'v';
  }

  /** Signing an object none of whose keys is an array index gives an object that
      `Object.keys` lists in the model's order. */
  lemma SignedInOwnKeyOrder(secret: string, hmac: Hmac, p: Params)
    requires DistinctKeys(p) && SecureHash !in Keys(p)
    requires forall k :: k in Keys(p) ==> !IsArrayIndex(k)
    ensures OwnKeys(Keys(Sign(secret, hmac, p))) == Keys(Sign(secret, hmac, p))
  {
    var sorted := SortedObject(p);
    var signed := Sign(secret, hmac, p);
    SortedObjectFacts(p);
    SameEntriesSameKeys(sorted, p);
    VnpNameIsNotIndex(SecureHash);
    forall i | 0 <= i < |signed| ensures !IsArrayIndex(Keys(signed)[i]) {
      if i < |sorted| {
        assert Keys(signed)[i] == Keys(sorted)[i];
        assert Keys(sorted)[i] in Keys(sorted);
      }
    }
    OwnKeysWithoutIndices(Keys(signed));
  }

  /** The object `createPaymentUrl` signs is listed by `Object.keys`, and so by `qs.stringify`,
      in exactly the order of the model: no `vnp_` name is an array index. */
  lemma SignedRequestInOwnKeyOrder(secret: string, cfg: Config, hmac: Hmac, format: Formatter,
                                   req: PaymentRequest, now: int)
    ensures var signed := Sign(secret, hmac, PaymentParams(cfg, format, req, now));
            OwnKeys(Keys(signed)) == Keys(signed)
  {
    var p := PaymentParams(cfg, format, req, now);
    PaymentParamsFacts(cfg, format, req, now);
    forall k | k in Keys(p) ensures !IsArrayIndex(k) {
      VnpNameIsNotIndex(k);
    }
    SignedInOwnKeyOrder(secret, hmac, p);
  }

  /** Where the model and JavaScript part: the sort puts "10" before "9", while `Object.keys`
      lists the array index 9 first, so a returned query with such keys is signed over other
      text than the model's. */
  lemma IndexKeysComeFirst()
    ensures Keys(SortedObject([("9", "a"), ("10", "b")])) == ["10", "9"]
    ensures OwnKeys(["10", "9"]) == ["9", "10"]
  {
    SortPutsTenBeforeNine();
    IndicesAscendNumerically();
  }

  lemma SortPutsTenBeforeNine()
    ensures Keys(SortedObject([("9", "a"), ("10", "b")])) == ["10", "9"]
  {
    var p := [("9", "a"), ("10", "b")];
    assert Keys(p) == ["9", "10"];
    assert ["9", "10"][1..] == ["10"];
    assert KeyOrder.SortKeys(["10"]) == ["10"];
    assert KeyOrder.Less("10", "9");
    assert KeyOrder.Insert("9", ["10"]) == ["10", "9"];
  }

  lemma IndicesAscendNumerically()
    ensures OwnKeys(["10", "9"]) == ["9", "10"]
  {
    assert "10"[..1] == "1";
    assert DigitsValue("1") == 1;
    assert DigitsValue("10") == 10;
    assert DigitsValue("9") == 9;
    assert IsArrayIndex("9") && IsArrayIndex("10");
    assert ["10", "9"][1..] == ["9"];
    assert IndexKeys(["10", "9"]) == ["10", "9"];
    assert NamedKeys(["10", "9"]) == [];
    assert RankOrder.SortDesc(["9"], NegatedIndex) == ["9"];
  }

  // ---------------------------------------------------------------------------
  // getVNPayErrorMessage

  /** What the table lookup yields: a message, or an inherited member of `Object.prototype`
      (a function or object, truthy) when the code names one. */
  datatype Message = Text(text: string) | Inherited(name: string)

  const ErrorMessages: map<string, string> := map[
    "00" := "Giao dịch thành công",
    "07" := "Trừ tiền thành công. Giao dịch bị nghi ngờ (liên quan tới lừa đảo, giao dịch bất thường).",
    "09" := "Thẻ/Tài khoản của khách hàng chưa đăng ký dịch vụ InternetBanking tại ngân hàng.",
    "10" := "Khách hàng xác thực thông tin thẻ/tài khoản không đúng quá 3 lần",
    "11" := "Đã hết hạn chờ thanh toán. Xin quý khách vui lòng thực hiện lại giao dịch.",
    "12" := "Thẻ/Tài khoản của khách hàng bị khóa.",
    "13" := "Quý khách nhập sai mật khẩu xác thực giao dịch (OTP). Xin quý khách vui lòng thực hiện lại giao dịch.",
    "24" := "Khách hàng hủy giao dịch",
    "51" := "Tài khoản của quý khách không đủ số dư để thực hiện giao dịch.",
    "65" := "Tài khoản của Quý khách đã vượt quá hạn mức giao dịch trong ngày.",
    "75" := "Ngân hàng thanh toán đang bảo trì.",
    "79" := "KH nhập sai mật khẩu thanh toán quá số lần quy định. Xin quý khách vui lòng thực hiện lại giao dịch",
    "99" := "Các lỗi khác (lỗi còn lại, không có trong danh sách mã lỗi đã liệt kê)"
  ]

  /** The members every object literal inherits from `Object.prototype`. */
  const InheritedMembers: set<string> := {
    "constructor", "hasOwnProperty", "isPrototypeOf", "propertyIsEnumerable", "toString",
    "valueOf", "toLocaleString", "__proto__", "__defineGetter__", "__defineSetter__",
    "__lookupGetter__", "__lookupSetter__"
  }

  const UnknownPrefix := "Lỗi không xác định ("

  /** `errorMessages[code] || "Lỗi không xác định (code)"`. */
  function ErrorMessage(code: string): Message {
    if code in ErrorMessages then Text(ErrorMessages[code])
    else if code in InheritedMembers then Inherited(code)
    else Text(UnknownPrefix + code + ")")
  }

  /** The table answers every listed code with its message, "00" with the success text, and
      every other code that is not an inherited member with the fallback naming that code;
      different unknown codes get different messages. */
  lemma ErrorMessageTable(code: string, other: string)
    ensures ErrorMessage("00") == Text("Giao dịch thành công")
    ensures code in ErrorMessages ==> ErrorMessage(code) == Text(ErrorMessages[code])
    ensures code !in ErrorMessages && code !in InheritedMembers ==>
              ErrorMessage(code) == Text(UnknownPrefix + code + ")")
    ensures code !in ErrorMessages && code !in InheritedMembers &&
            other !in ErrorMessages && other !in InheritedMembers && code != other ==>
              ErrorMessage(code) != ErrorMessage(other)
  {
    var n := |UnknownPrefix|;
    assert (UnknownPrefix + code + ")")[n..n + |code|] == code;
    assert (UnknownPrefix + other + ")")[n..n + |other|] == other;
  }
}
