/** What every request does to every stored token: which row it adds, and which it
    revokes. */
module TokenRows {
  import opened Common
  import opened Slugs
  import opened Accounts
  import opened Onboarding
  import opened AccountLaws

  // ----- Which row is revoked -----------------------------------------------------------------

  /** The refresh goes through for the account in the token. */
  predicate Refreshes(s: State, ev: Event) {
    && ev.action.RefreshTokens? && ev.action.genuine && ev.action.token.Jwt? && ev.action.token.jwtType == Refresh
    && var u := ev.action.token.sub;
       var key := Key(u, RefreshToken, Sha256(ev.action.token));
       && key in s.tokens && !s.tokens[key].blacklisted && s.tokens[key].expiresAt > ev.now
       && u in s.users && !s.users[u].isDeleted && s.users[u].status != Blocked
  }

  /** The reset code of `u` is right. */
  predicate ResetCodeFits(s: State, ev: Event, u: UserId) {
    && ev.action.VerifyResetCode? && ev.action.sub == u && ev.action.genuine && Live(s, u) && !Locked(s.users[u], ev.now)
    && var key := Key(u, ResetPassword, Sha256(Otp(ev.action.otp)));
       key in s.tokens && !s.tokens[key].blacklisted && s.tokens[key].expiresAt > ev.now
  }

  predicate Forgets(s: State, ev: Event, u: UserId) {
    ev.action.ForgotPassword? && ByEmail(s, ev.action.email) == Some(u) && !Locked(s.users[u], ev.now)
  }

  /** The request blacklists the row under `key`, if there is one. */
  predicate Revokes(s: State, ev: Event, key: Key) {
    match ev.action
    case Register(_, _, _, _) => Revives(s, ev, key.user) && key.tokenType != ResetPassword
    case RefreshTokens(token, _) => Refreshes(s, ev) && key == Key(token.sub, RefreshToken, Sha256(token))
    case Logout(token, genuine) =>
      genuine && token.Jwt? && token.jwtType != Refresh && key == Key(token.sub, RefreshToken, Sha256(token))
    case ForgotPassword(_, _) => key.tokenType == ResetPassword && Forgets(s, ev, key.user)
    case VerifyResetCode(_, _, _) => key.tokenType == ResetPassword && ResetCodeFits(s, ev, key.user)
    case SetPassword(u, _) => key.tokenType == RefreshToken && key.user == u && Live(s, u)
    case ConfirmEmail(_, _) => key.tokenType == VerifyEmail && Verifies(s, ev, key.user)
    case _ => false
  }

  /** Each code and each refresh token has a row of its own. */
  lemma KeysDiffer(u: UserId, v: UserId, t: TokenType, r: TokenType, a: string, b: string, i: nat, j: nat)
    ensures OtpKey(u, t, a) == OtpKey(v, r, b) <==> u == v && t == r && a == b
    ensures RefreshKey(u, i) == RefreshKey(v, j) <==> u == v && i == j
    ensures OtpKey(u, t, a) != RefreshKey(v, j)
  {
  }

  // ----- Which row is added -----------------------------------------------------------------------

  /** The account may sign in as far as onboarding goes. */
  predicate Onboarded(a: Account) {
    a.role == SuperAdmin || (a.isEmailVerified && a.step == Approved && a.isOnboardingCompleted)
  }

  /** Signing in ends with another verification code instead. */
  predicate NeedsVerification(a: Account) {
    a.role == Member && (!a.isEmailVerified || a.step == Registered)
  }

  /** The login passes all that comes before the onboarding check. */
  predicate KnowsPassword(s: State, ev: Event, u: UserId) {
    && ev.action.Login? && ev.action.email != "" && ev.action.password != ""
    && ByEmail(s, ev.action.email) == Some(u) && s.users[u].password == ev.action.password
    && !Locked(s.users[u], ev.now) && s.users[u].status != Blocked && s.users[u].strategy == Local
  }

  predicate SocialPasses(s: State, ev: Event, u: UserId) {
    && ev.action.SocialLogin? && ByEmail(s, ev.action.email) == Some(u)
    && s.users[u].status != Blocked && s.users[u].strategy == ev.action.provider
  }

  /** The account as the onboarding check of a social login sees it. */
  function Vouched(s: State, ev: Event, u: UserId): Account
    requires u in s.users
  {
    s.users[u].(isEmailVerified := s.users[u].isEmailVerified || Vouches(s, ev, u))
  }

  /** The code a request sends: whose, and for what. */
  predicate SendsCode(s: State, ev: Event, u: UserId, tokenType: TokenType) {
    match ev.action
    case Register(_, _, _, _) => tokenType == VerifyEmail && (Revives(s, ev, u) || Creates(s, ev, u))
    case Login(_, _, _) => tokenType == VerifyEmail && KnowsPassword(s, ev, u) && NeedsVerification(s.users[u])
    case SocialLogin(_, _, _, _, _) =>
      && tokenType == VerifyEmail
      && (|| (SocialPasses(s, ev, u) && NeedsVerification(Vouched(s, ev, u)))
          || (Creates(s, ev, u) && ev.action.emailVerified == Some(false)))
    case ForgotPassword(_, _) => tokenType == ResetPassword && Forgets(s, ev, u)
    case ResendOtp(email, _) =>
      && tokenType == VerifyEmail && ByEmail(s, email) == Some(u)
      && !s.users[u].isEmailVerified && !Locked(s.users[u], ev.now)
    case _ => false
  }

  function CodeOf(ev: Event): string {
    match ev.action
    case Register(_, _, _, otp) => otp
    case Login(_, _, otp) => otp
    case SocialLogin(_, _, _, _, otp) => otp
    case ForgotPassword(_, otp) => otp
    case ResendOtp(_, otp) => otp
    case _ => ""
  }

  /** The account that the request signs in. */
  predicate SignsIn(s: State, ev: Event, u: UserId) {
    || (KnowsPassword(s, ev, u) && Onboarded(s.users[u]))
    || (SocialPasses(s, ev, u) && Onboarded(Vouched(s, ev, u)))
    || (Refreshes(s, ev) && ev.action.token.sub == u)
  }

  /** The row a request adds under `key`, when it adds one: the next refresh token of
      the account it signs in, or the code it sends when the index has no such row. */
  function RowAdded(cfg: Config, s: State, ev: Event, key: Key): Option<Row> {
    if SignsIn(s, ev, key.user) && key == RefreshKey(key.user, s.nextJti) then Some(Row(ev.now + cfg.refreshTtl, false))
    else if SendsCode(s, ev, key.user, key.tokenType) && key == OtpKey(key.user, key.tokenType, CodeOf(ev)) && key !in s.tokens
    then Some(Row(ev.now + cfg.otpTtl, false))
    else None
  }

  predicate Sweeps(s: State, ev: Event, key: Key) {
    ev.action.Sweep? && key in ev.action.keys && key in s.tokens && s.tokens[key].expiresAt <= ev.now
  }

  /** The row under `key` after a request. */
  function RowAfter(cfg: Config, s: State, ev: Event, key: Key): Option<Row> {
    if RowAdded(cfg, s, ev, key).Some? then RowAdded(cfg, s, ev, key)
    else if key !in s.tokens || Sweeps(s, ev, key) then None
    else Some(Row(s.tokens[key].expiresAt, s.tokens[key].blacklisted || Revokes(s, ev, key)))
  }

  function RowOf(s: State, key: Key): Option<Row> {
    if key in s.tokens then Some(s.tokens[key]) else None
  }

  lemma {:induction false} RegisterRow(cfg: Config, s: State, ev: Event, key: Key)
    requires ev.action.Register?
    ensures RowOf(Next(cfg, s, ev), key) == RowAfter(cfg, s, ev, key)
  {
  }

  lemma {:induction false} LoginRow(cfg: Config, s: State, ev: Event, key: Key)
    requires ev.action.Login?
    ensures RowOf(Next(cfg, s, ev), key) == RowAfter(cfg, s, ev, key)
  {
  }

  /** What the onboarding check and the answer after it store. */
  lemma {:induction false} GateRow(cfg: Config, s: State, u: UserId, now: int, otp: string, key: Key)
    requires u in s.users
    ensures RowOf(GateAndIssue(cfg, s, u, now, otp).state, key)
            == if Onboarded(s.users[u]) && key == RefreshKey(u, s.nextJti) then Some(Row(now + cfg.refreshTtl, false))
               else if NeedsVerification(s.users[u]) && key == OtpKey(u, VerifyEmail, otp) && key !in s.tokens
               then Some(Row(now + cfg.otpTtl, false))
               else RowOf(s, key)
  {
  }

  lemma {:induction false} NewSocialRow(cfg: Config, s: State, ev: Event, key: Key)
    requires ev.action.SocialLogin? && ByEmail(s, ev.action.email).None?
    ensures RowOf(Next(cfg, s, ev), key) == RowAfter(cfg, s, ev, key)
  {
    hide ByEmail, Gate, GateAndIssue, Lower;
    var a := ev.action;
    var account := NewAccount(a.email, a.generated, a.provider, a.emailVerified.None? || a.emailVerified.value, "", Verified);
    GateRow(cfg, AddUser(s, account), s.nextUser, ev.now, a.otp, key);
  }

  lemma {:induction false} KnownSocialRow(cfg: Config, s: State, ev: Event, key: Key)
    requires ev.action.SocialLogin? && ByEmail(s, ev.action.email).Some?
    ensures RowOf(Next(cfg, s, ev), key) == RowAfter(cfg, s, ev, key)
  {
    hide ByEmail, Gate, GateAndIssue, Lower;
    var u := ByEmail(s, ev.action.email).value;
    GateRow(cfg, SetUser(s, u, Vouched(s, ev, u)), u, ev.now, ev.action.otp, key);
  }

  lemma {:induction false} RefreshRow(cfg: Config, s: State, ev: Event, key: Key)
    requires ev.action.RefreshTokens? || ev.action.Logout? || ev.action.Sweep? || ev.action.SetPassword?
    ensures RowOf(Next(cfg, s, ev), key) == RowAfter(cfg, s, ev, key)
  {
  }

  lemma {:induction false} SendingRow(cfg: Config, s: State, ev: Event, key: Key)
    requires ev.action.ForgotPassword? || ev.action.ResendOtp?
    ensures RowOf(Next(cfg, s, ev), key) == RowAfter(cfg, s, ev, key)
  {
  }

  lemma {:induction false} CheckingRow(cfg: Config, s: State, ev: Event, key: Key)
    requires ev.action.ConfirmEmail? || ev.action.VerifyResetCode?
    ensures RowOf(Next(cfg, s, ev), key) == RowAfter(cfg, s, ev, key)
  {
  }

  lemma {:induction false} OtherRow(cfg: Config, s: State, ev: Event, key: Key)
    requires ev.action.ChangePassword? || ev.action.CompleteProfile? || ev.action.Approve? || ev.action.Decline? || ev.action.Delete?
    ensures RowOf(Next(cfg, s, ev), key) == RowAfter(cfg, s, ev, key)
  {
  }

  /** Every request leaves under every key exactly this row. */
  lemma {:induction false} NextRow(cfg: Config, s: State, ev: Event, key: Key)
    ensures RowOf(Next(cfg, s, ev), key) == RowAfter(cfg, s, ev, key)
  {
    hide Handle, RowAfter, RowOf;
    if ev.action.Register? {
      RegisterRow(cfg, s, ev, key);
    } else if ev.action.Login? {
      LoginRow(cfg, s, ev, key);
    } else if ev.action.SocialLogin? {
      if ByEmail(s, ev.action.email).None? {
        NewSocialRow(cfg, s, ev, key);
      } else {
        KnownSocialRow(cfg, s, ev, key);
      }
    } else if ev.action.ForgotPassword? || ev.action.ResendOtp? {
      SendingRow(cfg, s, ev, key);
    } else if ev.action.ConfirmEmail? || ev.action.VerifyResetCode? {
      CheckingRow(cfg, s, ev, key);
    } else if ev.action.RefreshTokens? || ev.action.Logout? || ev.action.Sweep? || ev.action.SetPassword? {
      RefreshRow(cfg, s, ev, key);
    } else {
      OtherRow(cfg, s, ev, key);
    }
  }
}
