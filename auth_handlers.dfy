/** The guard chains of the authentication handlers
    (pkg/services/featureOne/controller/auth.go). E-mail and password-strength
    validity, bcrypt hashing and its check, SHA-512, JWT signing and the
    random reset token come from a library outside this model and are
    parameters; so are the store's answers. Each lemma beside a handler says
    which of those answers the handler cannot depend on, which is how the
    model states that a check runs before a call. */
module AuthHandlers {
  import opened Wrappers
  import opened Text
  import opened Http

  const InvalidBody: string := "Invalid request body"
  const EmailRequired: string := "Email is required"
  const InvalidEmail: string := "Invalid email format"
  const EmailTaken: string := "Email already exists"
  const PasswordRequired: string := "Password is required"
  const WeakPassword: string := "Password must be 8+ chars with uppercase, lowercase, and special char"
  const NameRequired: string := "Name is required"
  const HashFailed: string := "Failed to hash password"
  const InvalidCredentials: string := "Invalid credentials"
  const BothPasswords: string := "Both oldPassword and newPassword are required to change password"
  const OldPasswordEmpty: string := "Old password cannot be empty"
  const NewPasswordEmpty: string := "New password cannot be empty"
  const WeakNewPassword: string := "New password must be 8+ chars with uppercase, lowercase, and special char"
  const IncorrectOldPassword: string := "Incorrect old password"
  const UserUpdated: string := "User updated successfully"
  const UserUpdatedWithPassword: string := "User updated successfully (including password)"
  const ResetLinkSent: string := "If email exists, reset link sent"
  const TokenRequired: string := "Token is required"
  const BadToken: string := "Invalid or expired token"

  datatype RegisterRequest = RegisterRequest(email: string, password: string, name: string)
  datatype LoginRequest = LoginRequest(email: string, password: string)
  datatype UpdateUserRequest = UpdateUserRequest(name: string, oldPassword: Option<string>, newPassword: Option<string>)
  datatype ResetPasswordRequest = ResetPasswordRequest(token: string, newPassword: string)

  /** A user as the handlers return it. */
  datatype UserResponse = UserResponse(id: int, email: string, name: string, createdAt: string, updatedAt: string)

  /** A user row, with its password hash. */
  datatype UserEntity = UserEntity(id: int, email: string, name: string, password: string,
                                   createdAt: string, updatedAt: string)

  datatype LoginResponse = LoginResponse(token: string, user: UserResponse)

  /** The claims Login signs. */
  datatype Claims = Claims(userId: int, email: string, name: string)

  /** The data ForgotPassword answers with: a JSON object whose one field,
      "token", holds the generated token. */
  datatype ResetInitiated = ResetInitiated(token: string)

  /** A valid reset token, as the store resolves its hash. */
  datatype ResetTokenVerification = ResetTokenVerification(tokenID: int, userID: int)

  function ResponseOf(u: UserEntity): (r: UserResponse)
    ensures r.id == u.id && r.email == u.email && r.name == u.name
    ensures r.createdAt == u.createdAt && r.updatedAt == u.updatedAt
  {
    UserResponse(u.id, u.email, u.name, u.createdAt, u.updatedAt)
  }

  predicate Blank(s: string) {
    TrimSpace(s) == ""
  }

  // ---------------------------------------------------------------------
  // Register
  // ---------------------------------------------------------------------

  /** The checks of Register, for the format oracles and the store's
      answer `taken` to UserExistsByEmail: the first that fails decides. */
  function RegisterCheck(req: RegisterRequest, emailValid: string -> bool, taken: bool,
                         passwordValid: string -> bool): (r: Option<string>)
    ensures r == Some(EmailRequired) <==> Blank(req.email)
    ensures r == Some(InvalidEmail) <==> !Blank(req.email) && !emailValid(req.email)
    ensures r == Some(EmailTaken) <==> !Blank(req.email) && emailValid(req.email) && taken
    ensures r == Some(PasswordRequired) <==>
              !Blank(req.email) && emailValid(req.email) && !taken && Blank(req.password)
    ensures r == Some(WeakPassword) <==>
              !Blank(req.email) && emailValid(req.email) && !taken && !Blank(req.password)
              && !passwordValid(req.password)
    ensures r == Some(NameRequired) <==>
              !Blank(req.email) && emailValid(req.email) && !taken && !Blank(req.password)
              && passwordValid(req.password) && Blank(req.name)
    ensures r.None? <==>
              !Blank(req.email) && emailValid(req.email) && !taken && !Blank(req.password)
              && passwordValid(req.password) && !Blank(req.name)
  {
    if Blank(req.email) then Some(EmailRequired)
    else if !emailValid(req.email) then Some(InvalidEmail)
    else if taken then Some(EmailTaken)
    else if Blank(req.password) then Some(PasswordRequired)
    else if !passwordValid(req.password) then Some(WeakPassword)
    else if Blank(req.name) then Some(NameRequired)
    else None
  }

  /** Register, for the bound body, the oracles, the password hasher
      `hashData` (bcrypt, which may fail) and the store's answer `register`
      to RegisterUser. The request reaches the store with its password
      replaced by the hash of that password. */
  function Register(body: Option<RegisterRequest>, emailValid: string -> bool, taken: bool,
                    passwordValid: string -> bool, hashData: string -> Result<string, string>,
                    register: RegisterRequest -> Result<UserResponse, string>): (r: Response<UserResponse>)
    ensures body.None? ==> r == BadRequest(InvalidBody)
    ensures body.Some? && RegisterCheck(body.value, emailValid, taken, passwordValid).Some? ==>
              r == BadRequest(RegisterCheck(body.value, emailValid, taken, passwordValid).value)
    ensures r.status == StatusCreated <==>
              body.Some? && RegisterCheck(body.value, emailValid, taken, passwordValid).None?
              && hashData(body.value.password).Success?
              && register(body.value.(password := hashData(body.value.password).value)).Success?
    ensures r.status == StatusCreated ==>
              r.DataResponse? && r.data == Some(register(body.value.(password := hashData(body.value.password).value)).value)
    ensures body.Some? && RegisterCheck(body.value, emailValid, taken, passwordValid).None?
              && hashData(body.value.password).Failure? ==>
              r == ServerError(HashFailed)
  {
    if body.None? then BadRequest(InvalidBody)
    else
      var check := RegisterCheck(body.value, emailValid, taken, passwordValid);
      if check.Some? then BadRequest(check.value)
      else
        var hash := hashData(body.value.password);
        if hash.Failure? then ServerError(HashFailed)
        else
          var user := register(body.value.(password := hash.value));
          if user.Failure? then ServerError("Registration failed")
          else DataResponse(Suc201, "User registered successfully", Some(user.value), StatusCreated)
  }

  /** The e-mail is checked for presence and format before the store is
      asked whether it is taken. */
  lemma RegisterEmailBeforeStore(body: Option<RegisterRequest>, emailValid: string -> bool,
                                 taken1: bool, taken2: bool, passwordValid: string -> bool,
                                 hashData: string -> Result<string, string>,
                                 register: RegisterRequest -> Result<UserResponse, string>)
    requires body.Some? && (Blank(body.value.email) || !emailValid(body.value.email))
    ensures Register(body, emailValid, taken1, passwordValid, hashData, register)
            == Register(body, emailValid, taken2, passwordValid, hashData, register)
  {
  }

  /** RegisterUser receives the request with its password replaced by the
      hash of that password: the answer depends on the store only through
      its answer for that one request, and on the hasher only through its
      result for the request's password. */
  lemma RegisterStoresHash(req: RegisterRequest, emailValid: string -> bool, taken: bool,
                           passwordValid: string -> bool,
                           hashData1: string -> Result<string, string>,
                           hashData2: string -> Result<string, string>,
                           register1: RegisterRequest -> Result<UserResponse, string>,
                           register2: RegisterRequest -> Result<UserResponse, string>)
    requires hashData1(req.password) == hashData2(req.password)
    requires hashData1(req.password).Success? ==>
               register1(req.(password := hashData1(req.password).value))
               == register2(req.(password := hashData1(req.password).value))
    ensures Register(Some(req), emailValid, taken, passwordValid, hashData1, register1)
            == Register(Some(req), emailValid, taken, passwordValid, hashData2, register2)
  {
  }

  // ---------------------------------------------------------------------
  // Login
  // ---------------------------------------------------------------------

  /** Login, for the store's answers (`registered` for UserExistsByEmail,
      `got` for GetUserByEmail), the hash check `matches(plain, hash)` and
      the signer of the claims. */
  function Login(body: Option<LoginRequest>, registered: bool, got: Result<UserEntity, string>,
                 matches: (string, string) -> bool, sign: Claims -> Result<string, string>)
    : (r: Response<LoginResponse>)
    ensures body.None? ==> r == BadRequest(InvalidBody)
    ensures body.Some? && Blank(body.value.email) ==> r == BadRequest(EmailRequired)
    ensures body.Some? && !Blank(body.value.email) && Blank(body.value.password) ==> r == BadRequest(PasswordRequired)
    ensures r == ErrorResponse(Err401, InvalidCredentials, StatusUnauthorized) <==>
              body.Some? && !Blank(body.value.email) && !Blank(body.value.password)
              && (!registered || (got.Success? && !matches(body.value.password, got.value.password)))
    ensures r.status == StatusOK <==>
              body.Some? && !Blank(body.value.email) && !Blank(body.value.password) && registered
              && got.Success? && matches(body.value.password, got.value.password)
              && sign(Claims(got.value.id, got.value.email, got.value.name)).Success?
    ensures r.status == StatusOK ==>
              r.DataResponse?
              && r.data == Some(LoginResponse(sign(Claims(got.value.id, got.value.email, got.value.name)).value,
                                              ResponseOf(got.value)))
  {
    if body.None? then BadRequest(InvalidBody)
    else if Blank(body.value.email) then BadRequest(EmailRequired)
    else if Blank(body.value.password) then BadRequest(PasswordRequired)
    else if !registered then ErrorResponse(Err401, InvalidCredentials, StatusUnauthorized)
    else if got.Failure? then ServerError("Failed to retrieve user")
    else if !matches(body.value.password, got.value.password) then
      ErrorResponse(Err401, InvalidCredentials, StatusUnauthorized)
    else
      var user := got.value;
      var token := sign(Claims(user.id, user.email, user.name));
      if token.Failure? then ServerError("Token generation failed")
      else DataResponse(Suc200, "Login successful", Some(LoginResponse(token.value, ResponseOf(user))), StatusOK)
  }

  /** An unknown e-mail and a wrong password get the very same answer, so
      the answer does not reveal which e-mails are registered. */
  lemma LoginSameRejection(req: LoginRequest, got: Result<UserEntity, string>, user: UserEntity,
                           matches: (string, string) -> bool, sign: Claims -> Result<string, string>)
    requires !Blank(req.email) && !Blank(req.password)
    requires !matches(req.password, user.password)
    ensures Login(Some(req), false, got, matches, sign) == Login(Some(req), true, Success(user), matches, sign)
  {
  }

  // ---------------------------------------------------------------------
  // UpdateUser
  // ---------------------------------------------------------------------

  predicate WantsPasswordChange(req: UpdateUserRequest) {
    req.oldPassword.Some? || req.newPassword.Some?
  }

  /** The password part of UpdateUser: no new hash when no password field
      is given, `hashData` of the new password once every check and the old
      password's verification pass, else the rejection. `current` is the
      store's answer to GetUserByID; `hashData` is bcrypt, which may fail. */
  function PasswordChange(req: UpdateUserRequest, passwordValid: string -> bool,
                          current: Result<UserEntity, string>, matches: (string, string) -> bool,
                          hashData: string -> Result<string, string>): (r: Result<Option<string>, Rejection>)
    ensures r == Success(None) <==> !WantsPasswordChange(req)
    ensures req.oldPassword.None? != req.newPassword.None? ==> r == Failure(BadInput(BothPasswords))
    ensures r.Success? && r.value.Some? <==>
              req.oldPassword.Some? && req.newPassword.Some?
              && !Blank(req.oldPassword.value) && !Blank(req.newPassword.value)
              && passwordValid(req.newPassword.value)
              && current.Success? && matches(req.oldPassword.value, current.value.password)
              && hashData(req.newPassword.value).Success?
    ensures r.Success? && r.value.Some? ==> r.value.value == hashData(req.newPassword.value).value
    ensures r == Failure(BadInput(IncorrectOldPassword)) <==>
              req.oldPassword.Some? && req.newPassword.Some?
              && !Blank(req.oldPassword.value) && !Blank(req.newPassword.value)
              && passwordValid(req.newPassword.value)
              && current.Success? && !matches(req.oldPassword.value, current.value.password)
  {
    if !WantsPasswordChange(req) then Success(None)
    else if req.oldPassword.None? || req.newPassword.None? then Failure(BadInput(BothPasswords))
    else if Blank(req.oldPassword.value) then Failure(BadInput(OldPasswordEmpty))
    else if Blank(req.newPassword.value) then Failure(BadInput(NewPasswordEmpty))
    else if !passwordValid(req.newPassword.value) then Failure(BadInput(WeakNewPassword))
    else if current.Failure? then Failure(Rejection(Err500, "Failed to verify user", StatusInternalServerError))
    else if !matches(req.oldPassword.value, current.value.password) then Failure(BadInput(IncorrectOldPassword))
    else
      var hash := hashData(req.newPassword.value);
      if hash.Failure? then Failure(Rejection(Err500, HashFailed, StatusInternalServerError))
      else Success(Some(hash.value))
  }

  /** UpdateUser, for the store's answer `update(userID, request, newHash)`
      to UpdateUser; `newHash` is `hashData` of the new password when one
      is set. */
  function UpdateUser(userID: int, body: Option<UpdateUserRequest>, passwordValid: string -> bool,
                      current: Result<UserEntity, string>, matches: (string, string) -> bool,
                      hashData: string -> Result<string, string>,
                      update: (int, UpdateUserRequest, Option<string>) -> Result<UserEntity, string>)
    : (r: Response<UserResponse>)
    ensures userID == 0 ==> r == NoUser.Answer()
    ensures userID != 0 && body.None? ==> r == BadRequest(InvalidBody)
    ensures userID != 0 && body.Some? && Blank(body.value.name) ==> r == BadRequest(NameRequired)
    ensures r.status == StatusOK <==>
              userID != 0 && body.Some? && !Blank(body.value.name)
              && PasswordChange(body.value, passwordValid, current, matches, hashData).Success?
              && update(userID, body.value, PasswordChange(body.value, passwordValid, current, matches, hashData).value).Success?
    ensures r.status == StatusOK ==>
              r.DataResponse?
              && r.data == Some(ResponseOf(update(userID, body.value,
                                                  PasswordChange(body.value, passwordValid, current, matches, hashData).value).value))
              && (r.message == UserUpdatedWithPassword <==>
                    PasswordChange(body.value, passwordValid, current, matches, hashData).value.Some?)
              && (r.message == UserUpdatedWithPassword || r.message == UserUpdated)
  {
    if userID == 0 then NoUser.Answer()
    else if body.None? then BadRequest(InvalidBody)
    else if Blank(body.value.name) then BadRequest(NameRequired)
    else
      var change := PasswordChange(body.value, passwordValid, current, matches, hashData);
      if change.Failure? then change.error.Answer()
      else
        var user := update(userID, body.value, change.value);
        if user.Failure? then ServerError("Failed to update user")
        else
          var message := if change.value.Some? then UserUpdatedWithPassword else UserUpdated;
          DataResponse(Suc200, message, Some(ResponseOf(user.value)), StatusOK)
  }

  /** Supplying only one of the two passwords is refused before the store
      is asked for anything. */
  lemma UpdateUserOnePassword(userID: int, req: UpdateUserRequest, passwordValid: string -> bool,
                              current: Result<UserEntity, string>, matches: (string, string) -> bool,
                              hashData: string -> Result<string, string>,
                              update: (int, UpdateUserRequest, Option<string>) -> Result<UserEntity, string>)
    requires userID != 0 && !Blank(req.name)
    requires req.oldPassword.None? != req.newPassword.None?
    ensures UpdateUser(userID, Some(req), passwordValid, current, matches, hashData, update)
            == BadRequest(BothPasswords)
  {
  }

  /** A wrong old password stops the request: nothing is hashed and the
      store is never asked to update. */
  lemma UpdateUserWrongOldPassword(userID: int, req: UpdateUserRequest, passwordValid: string -> bool,
                                   user: UserEntity, matches: (string, string) -> bool,
                                   hashData1: string -> Result<string, string>,
                                   hashData2: string -> Result<string, string>,
                                   update1: (int, UpdateUserRequest, Option<string>) -> Result<UserEntity, string>,
                                   update2: (int, UpdateUserRequest, Option<string>) -> Result<UserEntity, string>)
    requires userID != 0 && !Blank(req.name)
    requires req.oldPassword.Some? && req.newPassword.Some?
    requires !Blank(req.oldPassword.value) && !Blank(req.newPassword.value) && passwordValid(req.newPassword.value)
    requires !matches(req.oldPassword.value, user.password)
    ensures UpdateUser(userID, Some(req), passwordValid, Success(user), matches, hashData1, update1)
            == UpdateUser(userID, Some(req), passwordValid, Success(user), matches, hashData2, update2)
            == BadRequest(IncorrectOldPassword)
  {
  }

  /** Without password fields the current user is not looked up and no
      hash is computed. */
  lemma UpdateUserProfileOnly(userID: int, req: UpdateUserRequest, passwordValid: string -> bool,
                              current1: Result<UserEntity, string>, current2: Result<UserEntity, string>,
                              matches: (string, string) -> bool,
                              hashData1: string -> Result<string, string>,
                              hashData2: string -> Result<string, string>,
                              update: (int, UpdateUserRequest, Option<string>) -> Result<UserEntity, string>)
    requires !WantsPasswordChange(req)
    ensures UpdateUser(userID, Some(req), passwordValid, current1, matches, hashData1, update)
            == UpdateUser(userID, Some(req), passwordValid, current2, matches, hashData2, update)
  {
  }

  // ---------------------------------------------------------------------
  // Password reset
  // ---------------------------------------------------------------------

  /** time.Hour, in nanoseconds: how long a reset token stays valid. */
  const ResetTokenLifetime: int := 3_600_000_000_000

  /** ForgotPassword, for the store's answers (`registered`, `got`), the
      clock reading `now` (nanoseconds), the generated token, SHA-512 and the
      store's answer `create(userID, tokenHash, expiresAt)` to
      CreateResetToken (None on success). The answer's data is the object
      `{"token": token}`. */
  function ForgotPassword(body: Option<string>, emailValid: string -> bool, registered: bool,
                          got: Result<UserEntity, string>, now: int, token: string, sha512: string -> string,
                          create: (int, string, int) -> Option<string>): (r: Response<ResetInitiated>)
    ensures body.None? ==> r == BadRequest(InvalidBody)
    ensures body.Some? && (Blank(body.value) || !emailValid(body.value)) ==> r == BadRequest("Valid email required")
    ensures r == DataResponse(Suc200, ResetLinkSent, None, StatusOK) <==>
              body.Some? && !Blank(body.value) && emailValid(body.value) && (!registered || got.Failure?)
    ensures r.status == StatusInternalServerError <==>
              body.Some? && !Blank(body.value) && emailValid(body.value) && registered && got.Success?
              && create(got.value.id, sha512(token), now + ResetTokenLifetime).Some?
    ensures r.DataResponse? && r.data.Some? <==>
              body.Some? && !Blank(body.value) && emailValid(body.value) && registered && got.Success?
              && create(got.value.id, sha512(token), now + ResetTokenLifetime).None?
    ensures r.DataResponse? && r.data.Some? ==> r.data.value == ResetInitiated(token)
  {
    if body.None? then BadRequest(InvalidBody)
    else if Blank(body.value) || !emailValid(body.value) then BadRequest("Valid email required")
    else if !registered || got.Failure? then DataResponse(Suc200, ResetLinkSent, None, StatusOK)
    else
      var expiresAt := now + ResetTokenLifetime;
      if create(got.value.id, sha512(token), expiresAt).Some? then ServerError("Failed to create reset token")
      else DataResponse(Suc200, "Password reset initiated", Some(ResetInitiated(token)), StatusOK)
  }

  /** An unknown e-mail and a failed lookup answer alike, and the answer
      does not depend on the clock, the token or the store behind it. */
  lemma ForgotPasswordSameAnswer(email: string, emailValid: string -> bool, error: string,
                                 got: Result<UserEntity, string>, now1: int, now2: int,
                                 token1: string, token2: string, sha512: string -> string,
                                 create1: (int, string, int) -> Option<string>,
                                 create2: (int, string, int) -> Option<string>)
    requires !Blank(email) && emailValid(email)
    ensures ForgotPassword(Some(email), emailValid, false, got, now1, token1, sha512, create1)
            == ForgotPassword(Some(email), emailValid, true, Failure(error), now2, token2, sha512, create2)
  {
  }

  /** The token is stored for the user, under its SHA-512 hash, to expire
      one hour after the request: two stores that answer alike for exactly
      that call give the same answer. */
  lemma ForgotPasswordExpiry(body: Option<string>, emailValid: string -> bool, registered: bool,
                             got: Result<UserEntity, string>, now: int, token: string, sha512: string -> string,
                             create1: (int, string, int) -> Option<string>,
                             create2: (int, string, int) -> Option<string>)
    requires got.Success? ==> create1(got.value.id, sha512(token), now + ResetTokenLifetime)
                              == create2(got.value.id, sha512(token), now + ResetTokenLifetime)
    ensures ForgotPassword(body, emailValid, registered, got, now, token, sha512, create1)
            == ForgotPassword(body, emailValid, registered, got, now, token, sha512, create2)
  {
  }

  /** VerifyResetToken, for the store's answer `verify` to each token hash. */
  function VerifyResetToken(body: Option<string>, sha512: string -> string,
                            verify: string -> Result<ResetTokenVerification, string>): (r: Response<string>)
    ensures body.None? ==> r == BadRequest(InvalidBody)
    ensures body.Some? && Blank(body.value) ==> r == BadRequest(TokenRequired)
    ensures r.status == StatusOK <==> body.Some? && !Blank(body.value) && verify(sha512(body.value)).Success?
  {
    if body.None? then BadRequest(InvalidBody)
    else if Blank(body.value) then BadRequest(TokenRequired)
    else if verify(sha512(body.value)).Failure? then BadRequest(BadToken)
    else DataResponse(Suc200, "Token is valid", None, StatusOK)
  }

  /** The checks of ResetPassword that need no store. */
  function ResetCheck(req: ResetPasswordRequest, passwordValid: string -> bool): (r: Option<string>)
    ensures r == Some(TokenRequired) <==> Blank(req.token)
    ensures r == Some("New password is required") <==> !Blank(req.token) && Blank(req.newPassword)
    ensures r.None? <==> !Blank(req.token) && !Blank(req.newPassword) && passwordValid(req.newPassword)
  {
    if Blank(req.token) then Some(TokenRequired)
    else if Blank(req.newPassword) then Some("New password is required")
    else if !passwordValid(req.newPassword) then Some("Password does not meet requirements")
    else None
  }

  /** ResetPassword, for the token verification, the password hasher
      `hashData` (bcrypt, which may fail) and the store's answer
      `reset(tokenID, userID, hash)` to ResetPassword (None on success); the
      store receives the hash of the request's new password. */
  function ResetPassword(body: Option<ResetPasswordRequest>, passwordValid: string -> bool,
                         sha512: string -> string, verify: string -> Result<ResetTokenVerification, string>,
                         hashData: string -> Result<string, string>, reset: (int, int, string) -> Option<string>)
    : (r: Response<string>)
    ensures body.None? ==> r == BadRequest(InvalidBody)
    ensures body.Some? && ResetCheck(body.value, passwordValid).Some? ==>
              r == BadRequest(ResetCheck(body.value, passwordValid).value)
    ensures body.Some? && ResetCheck(body.value, passwordValid).None? && verify(sha512(body.value.token)).Failure? ==>
              r == BadRequest(BadToken)
    ensures r.status == StatusOK <==>
              body.Some? && ResetCheck(body.value, passwordValid).None? && verify(sha512(body.value.token)).Success?
              && hashData(body.value.newPassword).Success?
              && reset(verify(sha512(body.value.token)).value.tokenID,
                       verify(sha512(body.value.token)).value.userID,
                       hashData(body.value.newPassword).value).None?
    ensures body.Some? && ResetCheck(body.value, passwordValid).None? && verify(sha512(body.value.token)).Success?
              && hashData(body.value.newPassword).Failure? ==>
              r == ServerError(HashFailed)
  {
    if body.None? then BadRequest(InvalidBody)
    else
      var check := ResetCheck(body.value, passwordValid);
      if check.Some? then BadRequest(check.value)
      else
        var verification := verify(sha512(body.value.token));
        if verification.Failure? then BadRequest(BadToken)
        else
          var hash := hashData(body.value.newPassword);
          if hash.Failure? then ServerError(HashFailed)
          else if reset(verification.value.tokenID, verification.value.userID, hash.value).Some? then
            ServerError("Failed to reset password")
          else DataResponse(Suc200, "Password reset successfully", None, StatusOK)
  }

  /** The token, the new password and its strength are checked before the
      token is verified: a request failing them answers the same whatever
      the store holds. */
  lemma ResetChecksFirst(req: ResetPasswordRequest, passwordValid: string -> bool, sha512: string -> string,
                         verify1: string -> Result<ResetTokenVerification, string>,
                         verify2: string -> Result<ResetTokenVerification, string>,
                         hashData1: string -> Result<string, string>,
                         hashData2: string -> Result<string, string>,
                         reset1: (int, int, string) -> Option<string>,
                         reset2: (int, int, string) -> Option<string>)
    requires ResetCheck(req, passwordValid).Some?
    ensures ResetPassword(Some(req), passwordValid, sha512, verify1, hashData1, reset1)
            == ResetPassword(Some(req), passwordValid, sha512, verify2, hashData2, reset2)
  {
  }
}
