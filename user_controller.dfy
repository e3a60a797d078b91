/** Accounts: the register and login guards, the partial profile update, and the
    forgot-password OTP machine (issue, verify, reset). bcrypt is the parameter `hash`;
    OTP values, expiry timestamps and new ids are given by the caller. */
module UserController {
  import opened Wrappers
  import opened Http

  type Time = int

  /** bcrypt's `hash`, with the salt abstracted away; `compare(p, h)` is `hash(p) == h`. */
  type Hasher = string -> string

  /** A stored user. An OTP expiry that was never set or was cleared is `None`. */
  datatype User = User(
    id: string,
    name: string,
    email: string,
    password: string,
    mobile: string,
    status: string,
    forgotPasswordOtp: string,
    forgotPasswordExpiry: Option<Time>,
    lastLoginDate: Option<Time>,
    shoppingCart: seq<string>,
    orderHistory: seq<string>)

  const MissingRegisterFields := "Cung cấp email, tên, mật khẩu"
  const EmailTaken := "Đã đăng ký email"
  const Registered := "Đăng ký thành công"
  const MissingLoginFields := "Cung cấp email, mật khẩu"
  const UnknownAccount := "Chưa đăng ký tài khoản"
  const ContactAdmin := "Liên hệ Admin"
  const WrongPassword := "Kiểm tra mật khẩu của bạn"
  const LoggedIn := "Đăng nhập thành công"
  const Updated := "Đã cập nhật thành công"
  const UnknownEmail := "Email không có sẵn"
  const CheckEmail := "Kiểm tra email của bạn"
  const MissingOtpFields := "Cung cấp email, mã OTP"
  const OtpExpired := "Otp đã hết hạn"
  const OtpInvalid := "OTP không hợp lệ"
  const OtpVerified := "Xác minh Otp thành công"
  const MissingResetFields := "Cung cập email, mật khẩu"
  const PasswordsDiffer := "Mật khẩu không khớp."
  const PasswordReset := "Đã cập nhật mật khẩu thành công."

  // ---------------------------------------------------------------------------
  // Queries over the user list

  /** `findOne({ email })`: the index of the first user with that email. */
  function FindByEmail(users: seq<User>, email: string): (r: Option<nat>)
    ensures r.Some? ==> r.value < |users| && users[r.value].email == email
    ensures r.Some? ==> forall j :: 0 <= j < r.value ==> users[j].email != email
    ensures r.None? ==> forall j :: 0 <= j < |users| ==> users[j].email != email
  {
    if |users| == 0 then None
    else if users[0].email == email then Some(0)
    else match FindByEmail(users[1..], email)
      case None => None
      case Some(i) => Some(i + 1)
  }

  /** `findOne({ email })` when the `email` field may be absent from the request: an absent
      value drops out of the filter, which then finds the first stored user. */
  function FindUser(users: seq<User>, email: Option<string>): (r: Option<nat>)
    ensures r.Some? ==> r.value < |users|
    ensures email.None? ==> (r.Some? <==> |users| > 0) && (r.Some? ==> r.value == 0)
    ensures email.Some? ==> r == FindByEmail(users, email.value)
  {
    match email
    case None => if |users| == 0 then None else Some(0)
    case Some(e) => FindByEmail(users, e)
  }

  /** `findByIdAndUpdate(id, ...)` / `updateOne({ _id: id }, ...)`: `f` applied to the user with
      that `_id`, everyone else untouched. */
  function UpdateById(users: seq<User>, id: string, f: User -> User): (r: seq<User>)
    ensures |r| == |users|
    ensures forall i :: 0 <= i < |users| ==> r[i] == if users[i].id == id then f(users[i]) else users[i]
  {
    seq(|users|, i requires 0 <= i < |users| => if users[i].id == id then f(users[i]) else users[i])
  }

  ghost predicate DistinctIds(users: seq<User>) {
    forall i, j :: 0 <= i < j < |users| ==> users[i].id != users[j].id
  }

  /** With distinct ids, updating by the id of user `k` changes user `k` alone. */
  lemma UpdateByIdOnly(users: seq<User>, k: nat, f: User -> User)
    requires DistinctIds(users) && k < |users|
    ensures UpdateById(users, users[k].id, f) == users[k := f(users[k])]
  {
  }

  /** A new account: the schema's defaults, status `Active`, no OTP. */
  function NewUser(id: string, name: string, email: string, hashed: string): User {
    User(id, name, email, hashed, "", "Active", "", None, None, [], [])
  }

  // ---------------------------------------------------------------------------
  // Decisions

  /** `loginController`'s guards, in order; `None` means every guard passed. */
  function LoginRefusal(users: seq<User>, hash: Hasher, email: string, password: string): Option<Response> {
    if email == "" || password == "" then Some(Fail(400, MissingLoginFields))
    else match FindByEmail(users, email)
      case None => Some(Fail(400, UnknownAccount))
      case Some(i) =>
        if users[i].status != "Active" then Some(Fail(400, ContactAdmin))
        else if hash(password) != users[i].password then Some(Fail(400, WrongPassword))
        else None
  }

  /** Login succeeds exactly when both fields are given, the email is registered, the first
      account with it is `Active` and the password matches its hash; each failure reports the
      first guard that fails. */
  lemma LoginGuardOrder(users: seq<User>, hash: Hasher, email: string, password: string)
    ensures LoginRefusal(users, hash, email, password).None? <==>
              email != "" && password != "" && FindByEmail(users, email).Some? &&
              users[FindByEmail(users, email).value].status == "Active" &&
              hash(password) == users[FindByEmail(users, email).value].password
    ensures email == "" || password == "" ==> LoginRefusal(users, hash, email, password) == Some(Fail(400, MissingLoginFields))
    ensures email != "" && password != "" && FindByEmail(users, email).None? ==>
              LoginRefusal(users, hash, email, password) == Some(Fail(400, UnknownAccount))
    ensures email != "" && password != "" && FindByEmail(users, email).Some? &&
            users[FindByEmail(users, email).value].status != "Active" ==>
              LoginRefusal(users, hash, email, password) == Some(Fail(400, ContactAdmin))
  {
  }

  /** `verifyForgotPasswordOtp`'s decision: the expiry is checked before the OTP itself. */
  function OtpDecision(users: seq<User>, email: string, otp: string, now: Time): Response {
    if email == "" || otp == "" then Fail(400, MissingOtpFields)
    else match FindByEmail(users, email)
      case None => Fail(400, UnknownEmail)
      case Some(i) =>
        if users[i].forgotPasswordExpiry.Some? && users[i].forgotPasswordExpiry.value < now then Fail(400, OtpExpired)
        else if otp != users[i].forgotPasswordOtp then Fail(400, OtpInvalid)
        else Done(OtpVerified)
  }

  /** An expired OTP is refused as expired even when it matches; a live matching OTP is
      accepted; a user whose OTP was never issued or was cleared cannot pass. */
  lemma OtpDecisionFacts(users: seq<User>, email: string, otp: string, now: Time)
    requires email != "" && otp != "" && FindByEmail(users, email).Some?
    ensures var u := users[FindByEmail(users, email).value];
            u.forgotPasswordExpiry.Some? && u.forgotPasswordExpiry.value < now ==>
              OtpDecision(users, email, otp, now) == Fail(400, OtpExpired)
    ensures var u := users[FindByEmail(users, email).value];
            OtpDecision(users, email, otp, now).Succeeded() <==>
              otp == u.forgotPasswordOtp && !(u.forgotPasswordExpiry.Some? && u.forgotPasswordExpiry.value < now)
    ensures users[FindByEmail(users, email).value].forgotPasswordOtp == "" ==>
              !OtpDecision(users, email, otp, now).Succeeded()
  {
  }

  /** `resetPassword`'s decision: it consults neither the OTP nor its expiry. */
  function ResetDecision(users: seq<User>, email: string, newPassword: string, confirmPassword: string): Response {
    if email == "" || newPassword == "" || confirmPassword == "" then Response(400, false, MissingResetFields)
    else match FindByEmail(users, email)
      case None => Fail(400, UnknownEmail)
      case Some(i) =>
        if newPassword != confirmPassword then Fail(400, PasswordsDiffer)
        else Done(PasswordReset)
  }

  /** The profile update's `...(field && { field })` spread: supplied (truthy) fields only, the
      password stored hashed. */
  function ApplyDetails(u: User, hash: Hasher, name: string, email: string, mobile: string, password: string): User {
    u.(name := if name != "" then name else u.name,
       email := if email != "" then email else u.email,
       mobile := if mobile != "" then mobile else u.mobile,
       password := if password != "" then hash(password) else u.password)
  }

  /** Supplied fields are set, omitted ones are kept, and nothing else about the user changes. */
  lemma ApplyDetailsFacts(u: User, hash: Hasher, name: string, email: string, mobile: string, password: string)
    ensures var v := ApplyDetails(u, hash, name, email, mobile, password);
            && (name != "" ==> v.name == name) && (name == "" ==> v.name == u.name)
            && (email != "" ==> v.email == email) && (email == "" ==> v.email == u.email)
            && (mobile != "" ==> v.mobile == mobile) && (mobile == "" ==> v.mobile == u.mobile)
            && (password != "" ==> v.password == hash(password)) && (password == "" ==> v.password == u.password)
            && v.(name := u.name, email := u.email, mobile := u.mobile, password := u.password) == u
  {
  }

  function WithOtp(u: User, otp: string, expiry: Time): User {
    u.(forgotPasswordOtp := otp, forgotPasswordExpiry := Some(expiry))
  }

  function ClearOtp(u: User): User {
    u.(forgotPasswordOtp := "", forgotPasswordExpiry := None)
  }

  function WithPassword(u: User, hashed: string): User {
    u.(password := hashed)
  }

  function WithLastLogin(u: User, now: Time): User {
    u.(lastLoginDate := Some(now))
  }

  // ---------------------------------------------------------------------------
  // The collection and its handlers

  class UserCollection {
    var users: seq<User>

    ghost predicate Valid()
      reads this
    {
      DistinctIds(users)
    }

    constructor()
      ensures users == [] && Valid()
    {
      users := [];
    }

    /** `registerUserController`; `id` is the new document's fresh `_id`. */
    method Register(hash: Hasher, id: string, name: string, email: string, password: string)
      returns (reply: Response)
      requires Valid()
      requires forall i :: 0 <= i < |users| ==> users[i].id != id
      modifies this
      ensures Valid()
      ensures name == "" || email == "" || password == "" ==>
                reply == Fail(400, MissingRegisterFields) && users == old(users)
      ensures name != "" && email != "" && password != "" && FindByEmail(old(users), email).Some? ==>
                reply == Fail(200, EmailTaken) && users == old(users)
      ensures name != "" && email != "" && password != "" && FindByEmail(old(users), email).None? ==>
                reply == Done(Registered) && users == old(users) + [NewUser(id, name, email, hash(password))]
    {
      if name == "" || email == "" || password == "" {
        return Fail(400, MissingRegisterFields);
      }
      var user := FindByEmail(users, email);
      if user.Some? {
        return Fail(200, EmailTaken);
      }
      var hashPassword := hash(password);
      users := users + [NewUser(id, name, email, hashPassword)];
      reply := Done(Registered);
    }

    /** `loginController`: the guards, then `last_login_date` is stamped. */
    method Login(hash: Hasher, email: string, password: string, now: Time) returns (reply: Response)
      requires Valid()
      modifies this
      ensures Valid()
      ensures LoginRefusal(old(users), hash, email, password).Some? ==>
                reply == LoginRefusal(old(users), hash, email, password).value && users == old(users)
      ensures LoginRefusal(old(users), hash, email, password).None? ==>
                var i := FindByEmail(old(users), email).value;
                reply == Done(LoggedIn) && users == old(users)[i := WithLastLogin(old(users)[i], now)]
    {
      var refusal := LoginRefusal(users, hash, email, password);
      if refusal.Some? {
        return refusal.value;
      }
      var i := FindByEmail(users, email).value;
      UpdateByIdOnly(users, i, (u: User) => WithLastLogin(u, now));
      users := UpdateById(users, users[i].id, (u: User) => WithLastLogin(u, now));
      reply := Done(LoggedIn);
    }

    /** `updateUserDetails` for the signed-in user `userId`. */
    method UpdateDetails(hash: Hasher, userId: string, name: string, email: string, mobile: string, password: string)
      returns (reply: Response)
      requires Valid()
      modifies this
      ensures Valid()
      ensures users == UpdateById(old(users), userId, (u: User) => ApplyDetails(u, hash, name, email, mobile, password))
      ensures reply == Done(Updated)
    {
      users := UpdateById(users, userId, (u: User) => ApplyDetails(u, hash, name, email, mobile, password));
      reply := Done(Updated);
    }

    /** `forgotPasswordController`; `otp` and `expiry` are the generated code and its expiry.
        The handler does not check that `email` was sent (`None`): the lookup then finds the
        first stored user, who receives the OTP. */
    method ForgotPassword(email: Option<string>, otp: string, expiry: Time) returns (reply: Response)
      requires Valid()
      modifies this
      ensures Valid()
      ensures FindUser(old(users), email).None? ==> reply == Fail(400, UnknownEmail) && users == old(users)
      ensures FindUser(old(users), email).Some? ==>
                var i := FindUser(old(users), email).value;
                reply == Done(CheckEmail) && users == old(users)[i := WithOtp(old(users)[i], otp, expiry)]
    {
      var found := FindUser(users, email);
      if found.None? {
        return Fail(400, UnknownEmail);
      }
      var i := found.value;
      UpdateByIdOnly(users, i, (u: User) => WithOtp(u, otp, expiry));
      users := UpdateById(users, users[i].id, (u: User) => WithOtp(u, otp, expiry));
      reply := Done(CheckEmail);
    }

    /** `verifyForgotPasswordOtp`: on success the OTP and its expiry are cleared. */
    method VerifyOtp(email: string, otp: string, now: Time) returns (reply: Response)
      requires Valid()
      modifies this
      ensures Valid()
      ensures reply == OtpDecision(old(users), email, otp, now)
      ensures !reply.Succeeded() ==> users == old(users)
      ensures reply.Succeeded() ==>
                var i := FindByEmail(old(users), email).value;
                users == old(users)[i := ClearOtp(old(users)[i])]
    {
      reply := OtpDecision(users, email, otp, now);
      if reply.Succeeded() {
        var i := FindByEmail(users, email).value;
        UpdateByIdOnly(users, i, ClearOtp);
        users := UpdateById(users, users[i].id, ClearOtp);
      }
    }

    /** `resetPassword`: the password is replaced by the hash of the new one. */
    method ResetPassword(hash: Hasher, email: string, newPassword: string, confirmPassword: string)
      returns (reply: Response)
      requires Valid()
      modifies this
      ensures Valid()
      ensures reply == ResetDecision(old(users), email, newPassword, confirmPassword)
      ensures !reply.Succeeded() ==> users == old(users)
      ensures reply.Succeeded() ==>
                var i := FindByEmail(old(users), email).value;
                users == old(users)[i := WithPassword(old(users)[i], hash(newPassword))]
    {
      reply := ResetDecision(users, email, newPassword, confirmPassword);
      if reply.Succeeded() {
        var i := FindByEmail(users, email).value;
        UpdateByIdOnly(users, i, (u: User) => WithPassword(u, hash(newPassword)));
        users := UpdateById(users, users[i].id, (u: User) => WithPassword(u, hash(newPassword)));
      }
    }

    /** `UserModel.updateOne({ _id: userId }, { $push: { shopping_cart: productId } })`. */
    method PushShoppingCart(userId: string, productId: string)
      requires Valid()
      modifies this
      ensures Valid()
      ensures users == UpdateById(old(users), userId, (u: User) => u.(shoppingCart := u.shoppingCart + [productId]))
    {
      users := UpdateById(users, userId, (u: User) => u.(shoppingCart := u.shoppingCart + [productId]));
    }

    /** `UserModel.findByIdAndUpdate(userId, { $set: { shopping_cart: [] } })`. */
    method ClearShoppingCart(userId: string)
      requires Valid()
      modifies this
      ensures Valid()
      ensures users == UpdateById(old(users), userId, (u: User) => u.(shoppingCart := []))
    {
      users := UpdateById(users, userId, (u: User) => u.(shoppingCart := []));
    }

    /** `UserModel.findByIdAndUpdate(userId, { $push: { orderHistory: { $each: ids } } })`. */
    method PushOrderHistory(userId: string, ids: seq<string>)
      requires Valid()
      modifies this
      ensures Valid()
      ensures users == UpdateById(old(users), userId, (u: User) => u.(orderHistory := u.orderHistory + ids))
    {
      users := UpdateById(users, userId, (u: User) => u.(orderHistory := u.orderHistory + ids));
    }
  }

  // ---------------------------------------------------------------------------
  // Properties of the OTP machine

  /** Once an OTP has been verified it is gone: verifying again, with any code, fails. */
  lemma VerifiedOtpCannotBeReused(users: seq<User>, email: string, otp: string, again: string, now: Time, later: Time)
    requires OtpDecision(users, email, otp, now).Succeeded()
    ensures var i := FindByEmail(users, email).value;
            !OtpDecision(users[i := ClearOtp(users[i])], email, again, later).Succeeded()
  {
    var i := FindByEmail(users, email).value;
    var after := users[i := ClearOtp(users[i])];
    if email != "" && again != "" {
      assert FindByEmail(after, email) == Some(i) by {
        FindByEmailAfterUpdate(users, i, ClearOtp(users[i]), email);
      }
    }
  }

  /** Changing user `i` without touching its email keeps every email lookup where it was. */
  lemma FindByEmailAfterUpdate(users: seq<User>, i: nat, u: User, email: string)
    requires i < |users| && u.email == users[i].email
    ensures FindByEmail(users[i := u], email) == FindByEmail(users, email)
  {
    var after := users[i := u];
    assert forall j :: 0 <= j < |users| ==> after[j].email == users[j].email;
  }

  /** `resetPassword` does not look at OTP state: two stores that differ only in their users'
      OTP fields get the same reply. */
  lemma ResetIgnoresOtp(users: seq<User>, email: string, newPassword: string, confirmPassword: string,
                        i: nat, otp: string, expiry: Time)
    requires i < |users|
    ensures ResetDecision(users[i := WithOtp(users[i], otp, expiry)], email, newPassword, confirmPassword)
              == ResetDecision(users, email, newPassword, confirmPassword)
  {
    FindByEmailAfterUpdate(users, i, WithOtp(users[i], otp, expiry), email);
  }

  /** In particular a password can be reset for a user who never verified an OTP. */
  lemma ResetWithoutOtp(users: seq<User>, email: string, password: string)
    requires email != "" && password != "" && FindByEmail(users, email).Some?
    requires users[FindByEmail(users, email).value].forgotPasswordOtp == ""
    ensures ResetDecision(users, email, password, password).Succeeded()
  {
  }
}
