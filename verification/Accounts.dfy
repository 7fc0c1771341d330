/** Accounts and stored tokens as one state machine: registration, login, refresh
    rotation, codes, onboarding review and the lockout counter. */
module Accounts {
  import opened Common
  import opened Slugs

  type UserId = nat

  /** Settings checked at start-up to be at least one. */
  type Positive = n: int | n >= 1 witness 1

  datatype Config = Config(maxFailedAttempts: Positive, lockDuration: Positive, refreshTtl: nat, otpTtl: nat)

  datatype Role = SuperAdmin | Member

  datatype Status = Active | Inactive | Blocked

  datatype Strategy = Local | Google | Apple

  datatype OnboardingStep = Registered | Verified | ProfileCompleted | UnderReview | Approved

  datatype Account = Account(email: string, password: string, role: Role, status: Status, strategy: Strategy,
                             isEmailVerified: bool, isDeleted: bool, identityDocument: string,
                             failedAttempts: nat, lockUntil: Option<int>,
                             step: OnboardingStep, isOnboardingCompleted: bool, rejectionReason: Option<string>)

  datatype JwtType = Access | Refresh | Onboarding | Verification | ForgotPass

  /** A signed token with its own `jti`, or a numeric code. */
  datatype Token = Jwt(jwtType: JwtType, sub: UserId, jti: nat) | Otp(code: string)

  /** SHA-256, taken to be injective. */
  datatype Digest = Sha256(token: Token)

  datatype TokenType = RefreshToken | ResetPassword | VerifyEmail

  /** The unique index of the token collection. */
  datatype Key = Key(user: UserId, tokenType: TokenType, tokenHash: Digest)

  datatype Row = Row(expiresAt: int, blacklisted: bool)

  datatype State = State(users: map<UserId, Account>, tokens: map<Key, Row>, nextUser: UserId, nextJti: nat)

  datatype Error =
    | InvalidLogin | AccountNotFound | InvalidCredentials | TooManyAttempts | AccountBlocked | ProviderMismatch
    | EmailNotVerified | AccountUnderReview | InvalidToken | UserNotFound | EmailExists | AlreadyVerified
    | CurrentPasswordRequired | OldPasswordWrong | OnboardingAlreadyComplete | AdminNotReviewed | AlreadyApproved
    | DuplicateKey

  datatype Reply = Done | Issued(user: UserId, refreshToken: Token) | Refused(error: Error)

  /** A refused request may have changed the state before it was refused. */
  datatype Outcome = Outcome(state: State, reply: Reply)

  /** One request. `otp` and `generated` are what the random source would give;
      `genuine` is the verdict of the signature and expiry check. */
  datatype Action =
    | Register(email: string, password: string, identityDocument: string, otp: string)
    | Login(email: string, password: string, otp: string)
    | SocialLogin(provider: Strategy, email: string, emailVerified: Option<bool>, generated: string, otp: string)
    | RefreshTokens(token: Token, genuine: bool)
    | Logout(token: Token, genuine: bool)
    | ForgotPassword(email: string, otp: string)
    | VerifyResetCode(sub: UserId, genuine: bool, otp: string)
    | ChangePassword(user: UserId, current: string, isReset: bool, newPassword: string)
    | SetPassword(user: UserId, newPassword: string)
    | ResendOtp(email: string, otp: string)
    | ConfirmEmail(email: string, otp: string)
    | CompleteProfile(user: UserId)
    | Approve(user: UserId)
    | Decline(user: UserId, reason: string)
    | Delete(user: UserId)
    | Sweep(keys: set<Key>)

  datatype Event = Event(now: int, action: Action)

  // ----- Lookups -----------------------------------------------------------------------

  /** The first live account with this email. */
  function FindLive(users: map<UserId, Account>, email: string, n: nat): (r: Option<UserId>)
    ensures r.Some? ==> r.value < n && r.value in users && users[r.value].email == email && !users[r.value].isDeleted
    ensures r.None? ==> forall u :: u < n && u in users ==> users[u].email != email || users[u].isDeleted
  {
    if n == 0 then None
    else
      var earlier := FindLive(users, email, n - 1);
      if earlier.Some? then earlier
      else if n - 1 in users && users[n - 1].email == email && !users[n - 1].isDeleted then Some(n - 1) else None
  }

  /** The first account with this email, deleted or not. */
  function FindAny(users: map<UserId, Account>, email: string, n: nat): (r: Option<UserId>)
    ensures r.Some? ==> r.value < n && r.value in users && users[r.value].email == email
    ensures r.None? ==> forall u :: u < n && u in users ==> users[u].email != email
  {
    if n == 0 then None
    else
      var earlier := FindAny(users, email, n - 1);
      if earlier.Some? then earlier
      else if n - 1 in users && users[n - 1].email == email then Some(n - 1) else None
  }

  function ByEmail(s: State, email: string): (r: Option<UserId>)
    ensures r.Some? ==> Live(s, r.value)
  {
    FindLive(s.users, Lower(email), s.nextUser)
  }

  predicate Live(s: State, u: UserId) {
    u in s.users && !s.users[u].isDeleted
  }

  predicate Locked(a: Account, now: int) {
    a.lockUntil.Some? && a.lockUntil.value > now
  }

  // ----- Tokens --------------------------------------------------------------------------

  predicate Unrevoked(s: State, key: Key) {
    key in s.tokens && !s.tokens[key].blacklisted
  }

  predicate IsActive(s: State, key: Key, now: int) {
    Unrevoked(s, key) && s.tokens[key].expiresAt > now
  }

  function Put(s: State, key: Key, expiresAt: int): State {
    s.(tokens := s.tokens[key := Row(expiresAt, false)])
  }

  function Revoked(s: State, key: Key): State {
    if key in s.tokens then s.(tokens := s.tokens[key := s.tokens[key].(blacklisted := true)]) else s
  }

  function RevokedAll(s: State, u: UserId, tokenType: TokenType): State {
    s.(tokens := map key | key in s.tokens ::
                   if key.user == u && key.tokenType == tokenType then s.tokens[key].(blacklisted := true) else s.tokens[key])
  }

  /** Rows that have expired may be deleted at any time. */
  function Swept(s: State, keys: set<Key>, now: int): State {
    s.(tokens := map key | key in s.tokens && !(key in keys && s.tokens[key].expiresAt <= now) :: s.tokens[key])
  }

  function OtpKey(u: UserId, tokenType: TokenType, otp: string): Key {
    Key(u, tokenType, Sha256(Otp(otp)))
  }

  function RefreshKey(u: UserId, jti: nat): Key {
    Key(u, RefreshToken, Sha256(Jwt(Refresh, u, jti)))
  }

  /** Stores a code and answers `reply`, unless the unique index refuses it. */
  function WithOtp(s: State, key: Key, expiresAt: int, reply: Reply): Outcome {
    if key in s.tokens then Outcome(s, Refused(DuplicateKey)) else Outcome(Put(s, key, expiresAt), reply)
  }

  function IssuePair(cfg: Config, s: State, u: UserId, now: int): Outcome {
    Outcome(Put(s, RefreshKey(u, s.nextJti), now + cfg.refreshTtl).(nextJti := s.nextJti + 1),
            Issued(u, Jwt(Refresh, u, s.nextJti)))
  }

  // ----- Accounts ------------------------------------------------------------------------

  function SetUser(s: State, u: UserId, a: Account): State {
    s.(users := s.users[u := a])
  }

  function AddUser(s: State, a: Account): State {
    s.(users := s.users[s.nextUser := a], nextUser := s.nextUser + 1)
  }

  function Failed(cfg: Config, a: Account, now: int): Account {
    var attempts := a.failedAttempts + 1;
    a.(failedAttempts := attempts,
       lockUntil := if attempts >= cfg.maxFailedAttempts && !Locked(a, now) then Some(now + cfg.lockDuration) else a.lockUntil)
  }

  function Cleared(a: Account): Account {
    a.(failedAttempts := 0, lockUntil := None)
  }

  function NewAccount(email: string, password: string, strategy: Strategy, verified: bool, document: string,
                      step: OnboardingStep): Account {
    Account(Lower(email), password, Member, Active, strategy, verified, false, document, 0, None, step, false, None)
  }

  /** A deleted account registered again keeps its id, role and status. */
  function Revived(a: Account, password: string, document: string): Account {
    a.(password := password, isDeleted := false, strategy := Local, isEmailVerified := false,
       step := Registered, isOnboardingCompleted := false, failedAttempts := 0, lockUntil := None,
       identityDocument := document)
  }

  /** The approval check of both logins: None lets the login go on. */
  function Gate(cfg: Config, s: State, u: UserId, now: int, otp: string): Option<Outcome>
    requires u in s.users
  {
    var a := s.users[u];
    if a.role == SuperAdmin then None
    else if !a.isEmailVerified || a.step == Registered then
      Some(WithOtp(s, OtpKey(u, VerifyEmail, otp), now + cfg.otpTtl, Refused(EmailNotVerified)))
    else if a.step == Approved && a.isOnboardingCompleted then None
    else Some(Outcome(s, Refused(AccountUnderReview)))
  }

  // ----- Requests --------------------------------------------------------------------------

  function Refuse(s: State, e: Error): Outcome {
    Outcome(s, Refused(e))
  }

  function Registering(cfg: Config, s: State, now: int, email: string, password: string, document: string, otp: string): Outcome {
    var found := FindAny(s.users, Lower(email), s.nextUser);
    if found.Some? && s.users[found.value].isDeleted then
      var u := found.value;
      if ByEmail(s, email).Some? then Refuse(s, DuplicateKey)
      else
        var s1 := SetUser(s, u, Revived(s.users[u], password, document));
        var s2 := RevokedAll(RevokedAll(s1, u, RefreshToken), u, VerifyEmail);
        WithOtp(s2, OtpKey(u, VerifyEmail, otp), now + cfg.otpTtl, Done)
    else if ByEmail(s, email).Some? then Refuse(s, EmailExists)
    else
      var s1 := AddUser(s, NewAccount(email, password, Local, false, document, Registered));
      WithOtp(s1, OtpKey(s.nextUser, VerifyEmail, otp), now + cfg.otpTtl, Done)
  }

  function LoggingIn(cfg: Config, s: State, now: int, email: string, password: string, otp: string): Outcome {
    if email == "" || password == "" then Refuse(s, InvalidLogin)
    else match ByEmail(s, email)
         case None => Refuse(s, AccountNotFound)
         case Some(u) =>
           var a := s.users[u];
           if a.password == "" then Refuse(s, InvalidCredentials)
           else if Locked(a, now) then Refuse(s, TooManyAttempts)
           else if a.password != password then Refuse(SetUser(s, u, Failed(cfg, a, now)), InvalidCredentials)
           else if a.status == Blocked then Refuse(s, AccountBlocked)
           else if a.strategy != Local then Refuse(s, ProviderMismatch)
           else match Gate(cfg, s, u, now, otp)
                case Some(stop) => stop
                case None => IssuePair(cfg, SetUser(s, u, Cleared(a)), u, now)
  }

  function GateAndIssue(cfg: Config, s: State, u: UserId, now: int, otp: string): Outcome
    requires u in s.users
  {
    match Gate(cfg, s, u, now, otp)
    case Some(stop) => stop
    case None => IssuePair(cfg, s, u, now)
  }

  function SocialLoggingIn(cfg: Config, s: State, now: int, provider: Strategy, email: string,
                           emailVerified: Option<bool>, generated: string, otp: string): Outcome {
    match ByEmail(s, email)
    case None =>
      var verified := emailVerified.None? || emailVerified.value;
      GateAndIssue(cfg, AddUser(s, NewAccount(email, generated, provider, verified, "", Verified)), s.nextUser, now, otp)
    case Some(u) =>
      var a := s.users[u];
      if a.status == Blocked then Refuse(s, AccountBlocked)
      else if a.strategy != provider then Refuse(s, ProviderMismatch)
      else
        GateAndIssue(cfg, SetUser(s, u, a.(isEmailVerified := a.isEmailVerified || emailVerified == Some(true))), u, now, otp)
  }

  function Refreshing(cfg: Config, s: State, now: int, token: Token, genuine: bool): Outcome {
    if !genuine || !token.Jwt? || token.jwtType != Refresh then Refuse(s, InvalidToken)
    else
      var u := token.sub;
      var key := Key(u, RefreshToken, Sha256(token));
      if !IsActive(s, key, now) then Refuse(s, InvalidToken)
      else if !Live(s, u) then Refuse(s, InvalidToken)
      else if s.users[u].status == Blocked then Refuse(s, AccountBlocked)
      else IssuePair(cfg, Revoked(s, key), u, now)
  }

  /** Verified with the access secret, then looked up among refresh tokens. */
  function LoggingOut(s: State, token: Token, genuine: bool): Outcome {
    if !genuine || !token.Jwt? || token.jwtType == Refresh then Outcome(s, Done)
    else Outcome(Revoked(s, Key(token.sub, RefreshToken, Sha256(token))), Done)
  }

  function ForgettingPassword(cfg: Config, s: State, now: int, email: string, otp: string): Outcome {
    match ByEmail(s, email)
    case None => Refuse(s, UserNotFound)
    case Some(u) =>
      if Locked(s.users[u], now) then Refuse(s, TooManyAttempts)
      else
        var s1 := RevokedAll(SetUser(s, u, Cleared(s.users[u])), u, ResetPassword);
        WithOtp(s1, OtpKey(u, ResetPassword, otp), now + cfg.otpTtl, Done)
  }

  function VerifyingResetCode(cfg: Config, s: State, now: int, u: UserId, genuine: bool, otp: string): Outcome {
    if !genuine then Refuse(s, InvalidToken)
    else if !Live(s, u) then Refuse(s, UserNotFound)
    else if Locked(s.users[u], now) then Refuse(s, TooManyAttempts)
    else if !IsActive(s, OtpKey(u, ResetPassword, otp), now) then
      Refuse(SetUser(s, u, Failed(cfg, s.users[u], now)), InvalidToken)
    else Outcome(RevokedAll(s, u, ResetPassword), Done)
  }

  function ChangingPassword(s: State, u: UserId, current: string, isReset: bool, newPassword: string): Outcome {
    if !Live(s, u) then Refuse(s, UserNotFound)
    else
      var a := s.users[u];
      if a.password != "" && !isReset && current == "" then Refuse(s, CurrentPasswordRequired)
      else if a.password != "" && !isReset && current != a.password then Refuse(s, OldPasswordWrong)
      else Outcome(SetUser(s, u, a.(password := newPassword)), Done)
  }

  function SettingPassword(s: State, u: UserId, newPassword: string): Outcome {
    if !Live(s, u) then Refuse(s, UserNotFound)
    else Outcome(RevokedAll(SetUser(s, u, s.users[u].(password := newPassword)), u, RefreshToken), Done)
  }

  function ResendingOtp(cfg: Config, s: State, now: int, email: string, otp: string): Outcome {
    match ByEmail(s, email)
    case None => Refuse(s, AccountNotFound)
    case Some(u) =>
      var a := s.users[u];
      if a.isEmailVerified then Refuse(s, AlreadyVerified)
      else if Locked(a, now) then Refuse(s, TooManyAttempts)
      else WithOtp(SetUser(s, u, Failed(cfg, a, now)), OtpKey(u, VerifyEmail, otp), now + cfg.otpTtl, Done)
  }

  function ConfirmingEmail(cfg: Config, s: State, now: int, email: string, otp: string): Outcome {
    match ByEmail(s, email)
    case None => Refuse(s, AccountNotFound)
    case Some(u) =>
      var a := s.users[u];
      if a.isEmailVerified then Refuse(s, AlreadyVerified)
      else if Locked(a, now) then Refuse(s, TooManyAttempts)
      else if !IsActive(s, OtpKey(u, VerifyEmail, otp), now) then Refuse(SetUser(s, u, Failed(cfg, a, now)), InvalidToken)
      else
        var step := if a.identityDocument != "" then UnderReview else Verified;
        Outcome(RevokedAll(SetUser(s, u, a.(isEmailVerified := true, step := step)), u, VerifyEmail), Done)
  }

  function CompletingProfile(s: State, u: UserId): Outcome {
    if !Live(s, u) then Refuse(s, UserNotFound)
    else if s.users[u].isOnboardingCompleted then Refuse(s, OnboardingAlreadyComplete)
    else Outcome(SetUser(s, u, s.users[u].(step := UnderReview)), Done)
  }

  function Approving(s: State, u: UserId): Outcome {
    if !Live(s, u) then Refuse(s, UserNotFound)
    else if s.users[u].role == SuperAdmin then Refuse(s, AdminNotReviewed)
    else if s.users[u].step == Approved && s.users[u].isOnboardingCompleted then Refuse(s, AlreadyApproved)
    else Outcome(SetUser(s, u, s.users[u].(step := Approved, isOnboardingCompleted := true, rejectionReason := None)), Done)
  }

  function Declining(s: State, u: UserId, reason: string): Outcome {
    if !Live(s, u) then Refuse(s, UserNotFound)
    else if s.users[u].role == SuperAdmin then Refuse(s, AdminNotReviewed)
    else Outcome(SetUser(s, u, s.users[u].(step := UnderReview, isOnboardingCompleted := false,
                                         rejectionReason := if reason != "" then Some(reason) else None)), Done)
  }

  function Deleting(s: State, u: UserId): Outcome {
    if !Live(s, u) then Refuse(s, UserNotFound)
    else Outcome(SetUser(s, u, s.users[u].(isDeleted := true, status := Inactive)), Done)
  }

  function Handle(cfg: Config, s: State, ev: Event): Outcome {
    match ev.action
    case Register(email, password, document, otp) => Registering(cfg, s, ev.now, email, password, document, otp)
    case Login(email, password, otp) => LoggingIn(cfg, s, ev.now, email, password, otp)
    case SocialLogin(provider, email, emailVerified, generated, otp) =>
      SocialLoggingIn(cfg, s, ev.now, provider, email, emailVerified, generated, otp)
    case RefreshTokens(token, genuine) => Refreshing(cfg, s, ev.now, token, genuine)
    case Logout(token, genuine) => LoggingOut(s, token, genuine)
    case ForgotPassword(email, otp) => ForgettingPassword(cfg, s, ev.now, email, otp)
    case VerifyResetCode(sub, genuine, otp) => VerifyingResetCode(cfg, s, ev.now, sub, genuine, otp)
    case ChangePassword(u, current, isReset, newPassword) => ChangingPassword(s, u, current, isReset, newPassword)
    case SetPassword(u, newPassword) => SettingPassword(s, u, newPassword)
    case ResendOtp(email, otp) => ResendingOtp(cfg, s, ev.now, email, otp)
    case ConfirmEmail(email, otp) => ConfirmingEmail(cfg, s, ev.now, email, otp)
    case CompleteProfile(u) => CompletingProfile(s, u)
    case Approve(u) => Approving(s, u)
    case Decline(u, reason) => Declining(s, u, reason)
    case Delete(u) => Deleting(s, u)
    case Sweep(keys) => Outcome(Swept(s, keys, ev.now), Done)
  }

  function Next(cfg: Config, s: State, ev: Event): State {
    Handle(cfg, s, ev).state
  }

  function Run(cfg: Config, s: State, evs: seq<Event>): State
    decreases |evs|
  {
    if evs == [] then s else Next(cfg, Run(cfg, s, evs[..|evs| - 1]), evs[|evs| - 1])
  }
}
