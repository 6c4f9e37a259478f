/** The account-code lifecycle of the auth controller: registration with an e-mailed verification
    code, two-step login with a ten-minute login code, refresh tokens that must match the one stored,
    and single-use password-reset tokens that live an hour. Random bytes, the password hash, the
    token signer and the mailer are inputs. */
module Accounts {
  import opened Common
  import Seqs
  import opened Codes

  const LoginCodeLifetimeMs := 10 * 60 * 1000
  const ResetTokenLifetimeMs := 3600000
  const DayMs := 86400000
  const EmailTokenLifetimeMs := DayMs
  const SessionLifetimeMs := 7 * DayMs
  const RefreshedLifetimeMs := 15 * 60 * 1000

  /** A user account; `password` is the stored hash. Absent optional fields are `None`. */
  datatype Account = Account(
    userId: string,
    email: string,
    password: string,
    name: string,
    companyId: string,
    companyRefId: string,
    verificationCode: Option<string>,
    isVerified: bool,
    loginCode: Option<string>,
    loginCodeExpires: Option<int>,
    resetPasswordToken: Option<string>,
    resetPasswordExpires: Option<int>,
    refreshToken: Option<string>)

  /** The unique index on `email`. */
  predicate UniqueEmails(users: seq<Account>) {
    forall i, j :: 0 <= i < |users| && 0 <= j < |users| && i != j ==> users[i].email != users[j].email
  }

  /** The claims a signed token carries and how long it lives. */
  datatype Claims = Claims(userId: string, companyId: Option<string>)
  datatype Issued = Issued(claims: Claims, lifetimeMs: int)

  /** A response: status, message, the store afterwards, and the tokens handed out. */
  datatype Outcome = Outcome(status: int, message: string, users: seq<Account>, issued: seq<Issued>)

  function FindByEmail(users: seq<Account>, email: string): (r: Option<nat>)
    ensures r.Some? ==> r.value < |users| && users[r.value].email == email
    ensures r.Some? ==> forall j :: 0 <= j < r.value ==> users[j].email != email
    ensures r.None? <==> forall j :: 0 <= j < |users| ==> users[j].email != email
  {
    Seqs.FirstIndex(users, (a: Account) => a.email == email)
  }

  function FindById(users: seq<Account>, userId: string): (r: Option<nat>)
    ensures r.Some? ==> r.value < |users| && users[r.value].userId == userId
    ensures r.None? <==> forall j :: 0 <= j < |users| ==> users[j].userId != userId
  {
    Seqs.FirstIndex(users, (a: Account) => a.userId == userId)
  }

  /** An unexpired deadline: `{ $gt: now }` on an optional date. */
  predicate Unexpired(deadline: Option<int>, now: int) {
    deadline.Some? && deadline.value > now
  }

  /** The query of `verifyLogin`: e-mail, login code, and an unexpired login-code deadline. */
  predicate LoginCodeMatches(u: Account, email: string, code: string, now: int) {
    u.email == email && u.loginCode == Some(code) && Unexpired(u.loginCodeExpires, now)
  }

  function FindLoginCode(users: seq<Account>, email: string, code: string, now: int): (r: Option<nat>)
    ensures r.Some? ==> r.value < |users| && LoginCodeMatches(users[r.value], email, code, now)
    ensures r.None? <==> forall j :: 0 <= j < |users| ==> !LoginCodeMatches(users[j], email, code, now)
  {
    Seqs.FirstIndex(users, (a: Account) => LoginCodeMatches(a, email, code, now))
  }

  /** The query of `resetPassword`: the token and an unexpired reset deadline. */
  predicate ResetTokenMatches(u: Account, token: string, now: int) {
    u.resetPasswordToken == Some(token) && Unexpired(u.resetPasswordExpires, now)
  }

  function FindResetToken(users: seq<Account>, token: string, now: int): (r: Option<nat>)
    ensures r.Some? ==> r.value < |users| && ResetTokenMatches(users[r.value], token, now)
    ensures r.None? <==> forall j :: 0 <= j < |users| ==> !ResetTokenMatches(users[j], token, now)
  {
    Seqs.FirstIndex(users, (a: Account) => ResetTokenMatches(a, token, now))
  }

  /** The fresh values a registration draws: the new user's and company's ids and the random bytes
      of the reference id and the verification code. */
  datatype Draw = Draw(userId: string, companyId: string, refBytes: seq<Byte>, codeBytes: seq<Byte>)

  predicate WellFormedDraw(d: Draw) {
    |d.refBytes| == 4 && |d.codeBytes| == 3
  }

  // ---------------------------------------------------------------- register / verify

  /** `register`. Any of e-mail, password or name missing is 400; a known e-mail is 400; otherwise
      an unverified account with a fresh company, reference id and verification code is saved and the
      code is mailed. A mail failure is caught as 400 although the account is already saved. */
  function Register(users: seq<Account>, email: string, password: string, name: string,
                    draw: Draw, hash: string -> string, mailSent: bool): (r: Outcome)
    requires WellFormedDraw(draw)
    ensures r.status in {201, 400} && r.issued == []
    ensures email == "" || password == "" || name == "" || FindByEmail(users, email).Some? ==> r.users == users && r.status == 400
    ensures r.status == 201 <==> email != "" && password != "" && name != "" && FindByEmail(users, email).None? && mailSent
    ensures r.users != users <==> email != "" && password != "" && name != "" && FindByEmail(users, email).None?
    ensures r.users != users ==>
      && |r.users| == |users| + 1 && r.users[..|users|] == users
      && var u := r.users[|users|];
      && u.email == email && u.password == hash(password) && u.name == name
      && !u.isVerified && u.verificationCode == Some(VerificationCode(draw.codeBytes))
      && u.companyId == draw.companyId && u.companyRefId == CompanyRefId(draw.refBytes)
    ensures UniqueEmails(users) ==> UniqueEmails(r.users)
  {
    if email == "" || password == "" || name == "" then Outcome(400, "Missing required fields", users, [])
    else if FindByEmail(users, email).Some? then Outcome(400, "User already exists", users, [])
    else
      var u := Account(draw.userId, email, hash(password), name, draw.companyId, CompanyRefId(draw.refBytes),
                       Some(VerificationCode(draw.codeBytes)), false, None, None, None, None, None);
      var users' := users + [u];
      if mailSent then Outcome(201, "User registered. Please check your email for verification code.", users', [])
      else Outcome(400, "Mail could not be sent", users', [])
  }

  /** A failed mail still leaves the account behind, so trying again is refused as a duplicate. */
  lemma RetryAfterMailFailure(users: seq<Account>, email: string, password: string, name: string,
                              d1: Draw, d2: Draw, hash: string -> string)
    requires WellFormedDraw(d1) && WellFormedDraw(d2)
    requires email != "" && password != "" && name != "" && FindByEmail(users, email).None?
    ensures var first := Register(users, email, password, name, d1, hash, false);
            first.status == 400
            && Register(first.users, email, password, name, d2, hash, true) == Outcome(400, "User already exists", first.users, [])
  {
    var first := Register(users, email, password, name, d1, hash, false);
    assert first.users[|users|].email == email;
  }

  /** `verifyEmail`. An unknown e-mail is 404; a code that differs from the stored one is 400 (an
      absent code equals an absent stored code); otherwise the account is marked verified, its code
      cleared, and a one-day token is issued. */
  function VerifyEmail(users: seq<Account>, email: string, code: Option<string>): (r: Outcome)
    ensures r.status in {200, 400, 404}
    ensures r.status != 200 ==> r.users == users && r.issued == []
    ensures r.status == 404 <==> FindByEmail(users, email).None?
    ensures r.status == 200 <==> FindByEmail(users, email).Some? && users[FindByEmail(users, email).value].verificationCode == code
    ensures r.status == 200 ==>
      var i := FindByEmail(users, email).value;
      && |r.users| == |users|
      && r.users[i] == users[i].(isVerified := true, verificationCode := None)
      && (forall j :: 0 <= j < |users| && j != i ==> r.users[j] == users[j])
      && r.issued == [Issued(Claims(users[i].userId, Some(users[i].companyId)), EmailTokenLifetimeMs)]
  {
    match FindByEmail(users, email)
    case None => Outcome(404, "User not found", users, [])
    case Some(i) =>
      var u := users[i];
      if u.verificationCode != code then Outcome(400, "Invalid verification code", users, [])
      else
        Outcome(200, "Email verified successfully", users[i := u.(isVerified := true, verificationCode := None)],
                [Issued(Claims(u.userId, Some(u.companyId)), EmailTokenLifetimeMs)])
  }

  /** Once an account is verified its code is gone, so a request with the e-mail alone and no code
      verifies it again and hands out a fresh one-day token, without any password. */
  lemma VerifiedEmailAloneGetsToken(users: seq<Account>, email: string)
    requires FindByEmail(users, email).Some?
    requires users[FindByEmail(users, email).value].verificationCode.None?
    ensures VerifyEmail(users, email, None).status == 200
    ensures |VerifyEmail(users, email, None).issued| == 1
  {
  }

  /** The verification code works once: verifying with it clears it, and a second attempt with the
      same code is refused. */
  lemma {:induction false} VerificationCodeSingleUse(users: seq<Account>, email: string, code: string)
    requires VerifyEmail(users, email, Some(code)).status == 200
    ensures VerifyEmail(VerifyEmail(users, email, Some(code)).users, email, Some(code)).status == 400
  {
    var i := FindByEmail(users, email).value;
    var after := VerifyEmail(users, email, Some(code)).users;
    assert forall j :: 0 <= j < |users| ==> after[j].email == users[j].email;
    assert FindByEmail(after, email) == Some(i);
  }

  // ---------------------------------------------------------------- login

  /** `login` (after the rate limiter). An unknown e-mail or a wrong password is 401 "Invalid
      credentials", an unverified account 401 "Email not verified"; otherwise a login code valid for
      ten minutes is saved and mailed, and a mail failure is 500 with the code saved. */
  function Login(users: seq<Account>, email: string, password: string, passwordMatches: (string, string) -> bool,
                 codeBytes: seq<Byte>, now: int, mailSent: bool): (r: Outcome)
    requires |codeBytes| == 3
    ensures r.status in {200, 401, 500} && r.issued == []
    ensures r.status == 401 <==>
      (|| FindByEmail(users, email).None?
       || !users[FindByEmail(users, email).value].isVerified
       || !passwordMatches(password, users[FindByEmail(users, email).value].password))
    ensures r.status == 401 ==> r.users == users
    ensures r.status != 401 ==>
      var i := FindByEmail(users, email).value;
      && |r.users| == |users|
      && r.users[i] == users[i].(loginCode := Some(VerificationCode(codeBytes)), loginCodeExpires := Some(now + LoginCodeLifetimeMs))
      && (forall j :: 0 <= j < |users| && j != i ==> r.users[j] == users[j])
      && (r.status == 200 <==> mailSent)
  {
    match FindByEmail(users, email)
    case None => Outcome(401, "Invalid credentials", users, [])
    case Some(i) =>
      var u := users[i];
      if !u.isVerified then Outcome(401, "Email not verified", users, [])
      else if !passwordMatches(password, u.password) then Outcome(401, "Invalid credentials", users, [])
      else
        var users' := users[i := u.(loginCode := Some(VerificationCode(codeBytes)), loginCodeExpires := Some(now + LoginCodeLifetimeMs))];
        if mailSent then Outcome(200, "Please check your email for login verification code", users', [])
        else Outcome(500, "Internal server error", users', [])
  }

  /** `verifyLogin`. The first account with this e-mail, this login code and an unexpired deadline
      is signed in: a seven-day access token (user and company) and a seven-day refresh token (user
      only), the refresh token stored, the login code and deadline cleared. No such account is 401.
      `sign` renders a token's claims as the string the client receives. */
  function VerifyLogin(users: seq<Account>, email: string, code: string, now: int, sign: Issued -> string): (r: Outcome)
    ensures r.status in {200, 401}
    ensures r.status == 401 <==> FindLoginCode(users, email, code, now).None?
    ensures r.status == 401 ==> r.users == users && r.issued == []
    ensures r.status == 200 ==>
      var i := FindLoginCode(users, email, code, now).value;
      var refresh := Issued(Claims(users[i].userId, None), SessionLifetimeMs);
      && r.issued == [Issued(Claims(users[i].userId, Some(users[i].companyId)), SessionLifetimeMs), refresh]
      && |r.users| == |users|
      && r.users[i] == users[i].(refreshToken := Some(sign(refresh)), loginCode := None, loginCodeExpires := None)
      && (forall j :: 0 <= j < |users| && j != i ==> r.users[j] == users[j])
  {
    match FindLoginCode(users, email, code, now)
    case None => Outcome(401, "Invalid or expired login code", users, [])
    case Some(i) =>
      var u := users[i];
      var access := Issued(Claims(u.userId, Some(u.companyId)), SessionLifetimeMs);
      var refresh := Issued(Claims(u.userId, None), SessionLifetimeMs);
      Outcome(200, "Login successful", users[i := u.(refreshToken := Some(sign(refresh)), loginCode := None, loginCodeExpires := None)],
              [access, refresh])
  }

  /** The login code is good for exactly ten minutes: after a successful login at `t0` the mailed
      code signs in at `t1` exactly when `t1 - t0` is under ten minutes (e-mails being unique). */
  lemma {:induction false} LoginCodeWindow(users: seq<Account>, email: string, password: string,
                                           passwordMatches: (string, string) -> bool, codeBytes: seq<Byte>,
                                           t0: int, t1: int, sign: Issued -> string)
    requires |codeBytes| == 3 && UniqueEmails(users)
    requires Login(users, email, password, passwordMatches, codeBytes, t0, true).status == 200
    ensures var after := Login(users, email, password, passwordMatches, codeBytes, t0, true).users;
            VerifyLogin(after, email, VerificationCode(codeBytes), t1, sign).status == 200 <==> t1 < t0 + LoginCodeLifetimeMs
  {
    var i := FindByEmail(users, email).value;
    var after := Login(users, email, password, passwordMatches, codeBytes, t0, true).users;
    var code := VerificationCode(codeBytes);
    assert forall j :: 0 <= j < |after| && j != i ==> after[j].email != email;
    if t1 < t0 + LoginCodeLifetimeMs {
      assert LoginCodeMatches(after[i], email, code, t1);
    } else {
      assert forall j :: 0 <= j < |after| ==> !LoginCodeMatches(after[j], email, code, t1);
    }
  }

  /** A login code signs in once: the successful verification clears it. */
  lemma {:induction false} LoginCodeSingleUse(users: seq<Account>, email: string, code: string, now: int, later: int, sign: Issued -> string)
    requires UniqueEmails(users)
    requires VerifyLogin(users, email, code, now, sign).status == 200
    ensures VerifyLogin(VerifyLogin(users, email, code, now, sign).users, email, code, later, sign).status == 401
  {
    var i := FindLoginCode(users, email, code, now).value;
    var after := VerifyLogin(users, email, code, now, sign).users;
    assert forall j :: 0 <= j < |after| && j != i ==> after[j].email != email;
    assert forall j :: 0 <= j < |after| ==> !LoginCodeMatches(after[j], email, code, later);
  }

  // ---------------------------------------------------------------- refresh

  /** `refreshToken`. A missing token is 401; one that does not verify (`verify` gives its user id)
      or that is not the account's stored refresh token is 401; otherwise a fifteen-minute access
      token is issued. The store is never changed. */
  function RefreshToken(users: seq<Account>, token: string, verify: string -> Option<string>): (r: Outcome)
    ensures r.status in {200, 401} && r.users == users
    ensures r.status == 200 <==>
      && token != "" && verify(token).Some? && FindById(users, verify(token).value).Some?
      && users[FindById(users, verify(token).value).value].refreshToken == Some(token)
    ensures r.status == 200 ==>
      var u := users[FindById(users, verify(token).value).value];
      r.issued == [Issued(Claims(u.userId, Some(u.companyId)), RefreshedLifetimeMs)]
    ensures r.status == 401 ==> r.issued == []
  {
    if token == "" then Outcome(401, "Refresh token required", users, [])
    else
      match verify(token)
      case None => Outcome(401, "Invalid refresh token", users, [])
      case Some(userId) =>
        match FindById(users, userId)
        case None => Outcome(401, "Invalid refresh token", users, [])
        case Some(i) =>
          var u := users[i];
          if u.refreshToken != Some(token) then Outcome(401, "Invalid refresh token", users, [])
          else Outcome(200, "", users, [Issued(Claims(u.userId, Some(u.companyId)), RefreshedLifetimeMs)])
  }

  /** Only the latest refresh token works: after a new sign-in stores a different one, the old
      token is refused. */
  lemma {:induction false} NewLoginRevokesOldRefresh(users: seq<Account>, email: string, code: string, now: int,
                                                     sign: Issued -> string, previous: string, verify: string -> Option<string>)
    requires VerifyLogin(users, email, code, now, sign).status == 200
    requires verify(previous) == Some(users[FindLoginCode(users, email, code, now).value].userId)
    requires forall j, k :: 0 <= j < |users| && 0 <= k < |users| && j != k ==> users[j].userId != users[k].userId
    requires previous != sign(Issued(Claims(users[FindLoginCode(users, email, code, now).value].userId, None), SessionLifetimeMs))
    ensures RefreshToken(VerifyLogin(users, email, code, now, sign).users, previous, verify).status == 401
  {
    var i := FindLoginCode(users, email, code, now).value;
    var after := VerifyLogin(users, email, code, now, sign).users;
    assert forall j :: 0 <= j < |after| ==> after[j].userId == users[j].userId;
    assert FindById(after, users[i].userId).Some?;
    assert forall j :: 0 <= j < |after| && j != i ==> after[j].userId != users[i].userId;
  }

  // ---------------------------------------------------------------- password reset

  /** `forgotPassword`. An unknown e-mail is 404; otherwise a reset token valid for an hour is
      saved and mailed (a mail failure is 500 with the token saved). */
  function ForgotPassword(users: seq<Account>, email: string, tokenBytes: seq<Byte>, now: int, mailSent: bool): (r: Outcome)
    requires |tokenBytes| == 20
    ensures r.status in {200, 404, 500} && r.issued == []
    ensures r.status == 404 <==> FindByEmail(users, email).None?
    ensures r.status == 404 ==> r.users == users
    ensures r.status != 404 ==>
      var i := FindByEmail(users, email).value;
      && |r.users| == |users|
      && r.users[i] == users[i].(resetPasswordToken := Some(ResetToken(tokenBytes)), resetPasswordExpires := Some(now + ResetTokenLifetimeMs))
      && (forall j :: 0 <= j < |users| && j != i ==> r.users[j] == users[j])
      && (r.status == 200 <==> mailSent)
  {
    match FindByEmail(users, email)
    case None => Outcome(404, "User not found", users, [])
    case Some(i) =>
      var users' := users[i := users[i].(resetPasswordToken := Some(ResetToken(tokenBytes)), resetPasswordExpires := Some(now + ResetTokenLifetimeMs))];
      if mailSent then Outcome(200, "Password reset email sent", users', [])
      else Outcome(500, "Internal server error", users', [])
  }

  /** `resetPassword`. The first account holding the token with an unexpired deadline gets the new
      password (hashed on save) and loses the token; none is 400. An empty new password fails the
      schema's `required` and is 500 with nothing saved. */
  function ResetPassword(users: seq<Account>, token: string, newPassword: string, hash: string -> string, now: int): (r: Outcome)
    ensures r.status in {200, 400, 500} && r.issued == []
    ensures r.status != 200 ==> r.users == users
    ensures r.status == 400 <==> FindResetToken(users, token, now).None?
    ensures r.status == 200 <==> FindResetToken(users, token, now).Some? && newPassword != ""
    ensures r.status == 200 ==>
      var i := FindResetToken(users, token, now).value;
      && |r.users| == |users|
      && r.users[i] == users[i].(password := hash(newPassword), resetPasswordToken := None, resetPasswordExpires := None)
      && (forall j :: 0 <= j < |users| && j != i ==> r.users[j] == users[j])
  {
    match FindResetToken(users, token, now)
    case None => Outcome(400, "Invalid or expired reset token", users, [])
    case Some(i) =>
      if newPassword == "" then Outcome(500, "Internal server error", users, [])
      else
        var u := users[i];
        Outcome(200, "Password reset successful",
                users[i := u.(password := hash(newPassword), resetPasswordToken := None, resetPasswordExpires := None)], [])
  }

  /** A reset token is single-use when no other account holds it: after a successful reset it is
      refused. */
  lemma {:induction false} ResetTokenSingleUse(users: seq<Account>, token: string, newPassword: string, hash: string -> string,
                                               now: int, later: int)
    requires ResetPassword(users, token, newPassword, hash, now).status == 200
    requires forall j :: 0 <= j < |users| && users[j].resetPasswordToken == Some(token) ==> j == FindResetToken(users, token, now).value
    ensures ResetPassword(ResetPassword(users, token, newPassword, hash, now).users, token, newPassword, hash, later).status == 400
  {
    var after := ResetPassword(users, token, newPassword, hash, now).users;
    assert forall j :: 0 <= j < |after| ==> !ResetTokenMatches(after[j], token, later);
  }

  /** The reset link is good for exactly an hour after it is requested. */
  lemma {:induction false} ResetTokenWindow(users: seq<Account>, email: string, tokenBytes: seq<Byte>, t0: int, t1: int,
                                            newPassword: string, hash: string -> string)
    requires |tokenBytes| == 20 && newPassword != ""
    requires ForgotPassword(users, email, tokenBytes, t0, true).status == 200
    ensures var after := ForgotPassword(users, email, tokenBytes, t0, true).users;
            t1 < t0 + ResetTokenLifetimeMs ==> ResetPassword(after, ResetToken(tokenBytes), newPassword, hash, t1).status == 200
    ensures var after := ForgotPassword(users, email, tokenBytes, t0, true).users;
            (forall j :: 0 <= j < |users| ==> users[j].resetPasswordToken != Some(ResetToken(tokenBytes))) && t1 >= t0 + ResetTokenLifetimeMs ==>
              ResetPassword(after, ResetToken(tokenBytes), newPassword, hash, t1).status == 400
  {
    var i := FindByEmail(users, email).value;
    var after := ForgotPassword(users, email, tokenBytes, t0, true).users;
    var token := ResetToken(tokenBytes);
    if t1 < t0 + ResetTokenLifetimeMs {
      assert ResetTokenMatches(after[i], token, t1);
    }
    if (forall j :: 0 <= j < |users| ==> users[j].resetPasswordToken != Some(token)) && t1 >= t0 + ResetTokenLifetimeMs {
      assert forall j :: 0 <= j < |after| ==> !ResetTokenMatches(after[j], token, t1);
    }
  }
}
