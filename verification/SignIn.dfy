/** Who is signed in by a request, with what, and for how long the answer is good. */
module SignIn {
  import opened Common
  import opened Slugs
  import opened Accounts
  import opened Lockout
  import opened Rotation
  import opened Onboarding
  import opened AccountLaws
  import opened TokenRows

  // ----- One request ---------------------------------------------------------------------------

  /** A live account with this email, up to case. */
  predicate HasEmail(s: State, u: UserId, email: string) {
    u in s.users && !s.users[u].isDeleted && s.users[u].email == Lower(email)
  }

  /** With distinct emails, the account found is the one that has the email. */
  lemma {:induction false} FoundByEmail(s: State, email: string, u: UserId)
    requires IdsUsed(s) && EmailsDistinct(s)
    ensures ByEmail(s, email) == Some(u) <==> HasEmail(s, u, email)
  {
  }

  function NextToken(s: State, u: UserId): Token {
    Jwt(Refresh, u, s.nextJti)
  }

  lemma {:induction false} LoginReply(cfg: Config, s: State, ev: Event)
    requires ev.action.Login?
    ensures var r := Handle(cfg, s, ev).reply;
            r.Issued? ==> SignsIn(s, ev, r.user) && r == Issued(r.user, NextToken(s, r.user))
    ensures forall u :: SignsIn(s, ev, u) ==> Handle(cfg, s, ev).reply == Issued(u, NextToken(s, u))
  {
  }

  lemma {:induction false} SocialReply(cfg: Config, s: State, ev: Event)
    requires ev.action.SocialLogin?
    ensures var r := Handle(cfg, s, ev).reply;
            r.Issued? ==> SignsIn(s, ev, r.user) && r == Issued(r.user, NextToken(s, r.user))
    ensures forall u :: SignsIn(s, ev, u) ==> Handle(cfg, s, ev).reply == Issued(u, NextToken(s, u))
  {
  }

  lemma {:induction false} RefreshReply(cfg: Config, s: State, ev: Event)
    requires ev.action.RefreshTokens?
    ensures var r := Handle(cfg, s, ev).reply;
            r.Issued? ==> SignsIn(s, ev, r.user) && r == Issued(r.user, NextToken(s, r.user))
    ensures forall u :: SignsIn(s, ev, u) ==> Handle(cfg, s, ev).reply == Issued(u, NextToken(s, u))
  {
  }

  lemma {:induction false} OtherReply(cfg: Config, s: State, ev: Event)
    requires !ev.action.Login? && !ev.action.SocialLogin? && !ev.action.RefreshTokens?
    ensures !Handle(cfg, s, ev).reply.Issued?
  {
  }

  /** A request answers with tokens if and only if it signs an account in, and then
      with the next refresh token of that account. */
  lemma {:induction false} IssuedIff(cfg: Config, s: State, ev: Event, u: UserId, token: Token)
    ensures Handle(cfg, s, ev).reply == Issued(u, token) <==> SignsIn(s, ev, u) && token == NextToken(s, u)
  {
    hide Handle, SignsIn;
    if ev.action.Login? {
      LoginReply(cfg, s, ev);
    } else if ev.action.SocialLogin? {
      SocialReply(cfg, s, ev);
    } else if ev.action.RefreshTokens? {
      RefreshReply(cfg, s, ev);
    } else {
      OtherReply(cfg, s, ev);
      OthersSignNobodyIn(s, ev, u);
    }
  }

  lemma OthersSignNobodyIn(s: State, ev: Event, u: UserId)
    requires !ev.action.Login? && !ev.action.SocialLogin? && !ev.action.RefreshTokens?
    ensures !SignsIn(s, ev, u)
  {
  }

  /** Email and password sign an account in if and only if neither is blank, the live
      account with that email has that password, is not locked or blocked, signs in
      locally, and is an admin or verified, approved and completed. */
  lemma {:induction false} LoginIssuesIff(cfg: Config, s: State, now: int, email: string, password: string, otp: string, u: UserId)
    requires IdsUsed(s) && EmailsDistinct(s)
    ensures Handle(cfg, s, Event(now, Login(email, password, otp))).reply == Issued(u, Jwt(Refresh, u, s.nextJti))
            <==> && email != "" && password != "" && HasEmail(s, u, email)
                 && var a := s.users[u];
                    && a.password == password
                    && (a.lockUntil.None? || a.lockUntil.value <= now)
                    && a.status != Blocked && a.strategy == Local
                    && (a.role == SuperAdmin || (a.isEmailVerified && a.step == Approved && a.isOnboardingCompleted))
    ensures var r := Handle(cfg, s, Event(now, Login(email, password, otp))).reply;
            r.Issued? ==> r.refreshToken == Jwt(Refresh, r.user, s.nextJti)
  {
    var ev := Event(now, Login(email, password, otp));
    IssuedIff(cfg, s, ev, u, NextToken(s, u));
    FoundByEmail(s, email, u);
    LoginReply(cfg, s, ev);
    hide Handle, ByEmail;
  }

  /** Why a login is refused, for the account with the email. A locked account says so
      whatever the password; what the account is comes out only for the right one. */
  lemma {:induction false} LoginRefusals(cfg: Config, s: State, ev: Event, u: UserId)
    requires IdsUsed(s) && EmailsDistinct(s) && ev.action.Login? && ev.action.email != "" && ev.action.password != ""
    requires HasEmail(s, u, ev.action.email)
    ensures var a := s.users[u];
            var r := Handle(cfg, s, ev).reply;
            var open := a.lockUntil.None? || a.lockUntil.value <= ev.now;
            var right := open && a.password == ev.action.password;
            var welcome := right && a.status != Blocked && a.strategy == Local;
            && (r == Refused(TooManyAttempts) <==> a.password != "" && !open)
            && (r == Refused(InvalidCredentials) <==> a.password == "" || (open && !right))
            && (r == Refused(AccountBlocked) <==> right && a.status == Blocked)
            && (r == Refused(ProviderMismatch) <==> right && a.status != Blocked && a.strategy != Local)
            && (r == Refused(EmailNotVerified) <==> welcome && NewCode(s, ev, u, VerifyEmail))
            && (r == Refused(AccountUnderReview) <==> welcome && !NeedsVerification(a) && !Onboarded(a))
  {
    FoundByEmail(s, ev.action.email, u);
    hide ByEmail, FindLive, Lower;
  }

  /** Without such an account, or with a blank. */
  lemma {:induction false} LoginOfNobody(cfg: Config, s: State, ev: Event)
    requires IdsUsed(s) && ev.action.Login?
    ensures var r := Handle(cfg, s, ev).reply;
            && (r == Refused(InvalidLogin) <==> ev.action.email == "" || ev.action.password == "")
            && (r == Refused(AccountNotFound)
                <==> ev.action.email != "" && ev.action.password != "" && forall u :: !HasEmail(s, u, ev.action.email))
  {
    var found := ByEmail(s, ev.action.email);
    assert found.Some? ==> HasEmail(s, found.value, ev.action.email);
  }

  /** A provider's word signs an account in if and only if the live account with that
      email belongs to the provider, is not blocked, and is an admin or verified (now
      or before), approved and completed. */
  lemma {:induction false} SocialIssuesIff(cfg: Config, s: State, ev: Event, u: UserId)
    requires IdsUsed(s) && EmailsDistinct(s) && ev.action.SocialLogin?
    ensures Handle(cfg, s, ev).reply == Issued(u, Jwt(Refresh, u, s.nextJti))
            <==> && HasEmail(s, u, ev.action.email)
                 && var a := s.users[u];
                    && a.status != Blocked && a.strategy == ev.action.provider
                    && (a.role == SuperAdmin
                        || ((a.isEmailVerified || ev.action.emailVerified == Some(true))
                            && a.step == Approved && a.isOnboardingCompleted))
    ensures var r := Handle(cfg, s, ev).reply;
            r.Issued? ==> r.refreshToken == Jwt(Refresh, r.user, s.nextJti)
  {
    IssuedIff(cfg, s, ev, u, NextToken(s, u));
    FoundByEmail(s, ev.action.email, u);
    SocialReply(cfg, s, ev);
    hide Handle, ByEmail;
  }

  /** A refresh answers with tokens if and only if the token is a genuine refresh
      token whose row is stored, not revoked and not expired, and its account is live
      and not blocked: tokens of that account, good for the whole lifetime. The old
      row is revoked and no other row changes. */
  lemma {:induction false} RefreshIssuesIff(cfg: Config, s: State, now: int, token: Token, genuine: bool, u: UserId)
    requires TokensOk(s)
    ensures Handle(cfg, s, Event(now, RefreshTokens(token, genuine))).reply == Issued(u, Jwt(Refresh, u, s.nextJti))
            <==> && genuine && token.Jwt? && token.jwtType == Refresh && token.sub == u
                 && (exists row :: RowOf(s, KeyOf(token)) == Some(row) && !row.blacklisted && now < row.expiresAt)
                 && u in s.users && !s.users[u].isDeleted && s.users[u].status != Blocked
    ensures var r := Handle(cfg, s, Event(now, RefreshTokens(token, genuine))).reply;
            r.Issued? ==> r.user == token.sub && r.refreshToken == Jwt(Refresh, token.sub, s.nextJti)
  {
    var ev := Event(now, RefreshTokens(token, genuine));
    IssuedIff(cfg, s, ev, u, NextToken(s, u));
    RefreshReply(cfg, s, ev);
    hide Handle, ByEmail;
    if token.Jwt? && KeyOf(token) in s.tokens {
      assert RowOf(s, KeyOf(token)) == Some(s.tokens[KeyOf(token)]);
    }
  }

  /** A refresh that is refused says `blocked` for a good token of a blocked account and
      `invalid` otherwise, and leaves everything as it was. */
  lemma {:induction false} RefreshRefusals(cfg: Config, s: State, ev: Event)
    requires ev.action.RefreshTokens? && !Refreshes(s, ev)
    ensures var a := ev.action;
            var good := a.genuine && a.token.Jwt? && a.token.jwtType == Refresh
                        && KeyOf(a.token) in s.tokens && !s.tokens[KeyOf(a.token)].blacklisted
                        && s.tokens[KeyOf(a.token)].expiresAt > ev.now && Live(s, a.token.sub);
            Handle(cfg, s, ev) == Outcome(s, Refused(if good then AccountBlocked else InvalidToken))
  {
  }

  /** The state after a refresh that goes through. */
  lemma {:induction false} RefreshRotates(cfg: Config, s: State, ev: Event, key: Key)
    requires TokensOk(s) && Refreshes(s, ev)
    ensures var t, token := Next(cfg, s, ev), ev.action.token;
            && t.users == s.users
            && RowOf(t, key)
               == if key == KeyOf(Jwt(Refresh, token.sub, s.nextJti)) then Some(Row(ev.now + cfg.refreshTtl, false))
                  else if key == KeyOf(token) then Some(Row(s.tokens[key].expiresAt, true))
                  else RowOf(s, key)
  {
    NextRow(cfg, s, ev, key);
    NextJtiIsFresh(s);
    var token := ev.action.token;
    var jti :| 0 <= jti < s.nextJti && KeyOf(token) == RefreshKey(token.sub, jti);
  }

  // ----- What goes through -------------------------------------------------------------------------

  predicate NewCode(s: State, ev: Event, u: UserId, tokenType: TokenType) {
    SendsCode(s, ev, u, tokenType) && OtpKey(u, tokenType, CodeOf(ev)) !in s.tokens
  }

  /** The request, which signs nobody in, goes through. */
  ghost predicate Succeeds(s: State, ev: Event) {
    match ev.action
    case Register(_, _, _, _) => exists u :: NewCode(s, ev, u, VerifyEmail)
    case ForgotPassword(_, _) => exists u :: NewCode(s, ev, u, ResetPassword)
    case ResendOtp(_, _) => exists u :: NewCode(s, ev, u, VerifyEmail)
    case VerifyResetCode(u, _, _) => ResetCodeFits(s, ev, u)
    case ConfirmEmail(_, _) => exists u :: Verifies(s, ev, u)
    case ChangePassword(u, _, _, _) => u in s.users && PasswordWritten(s, ev, u).Some?
    case SetPassword(u, _) => Live(s, u)
    case CompleteProfile(u) => WritesStep(s, ev, u)
    case Approve(u) => WritesStep(s, ev, u)
    case Decline(u, _) => WritesStep(s, ev, u)
    case Delete(u) => Live(s, u)
    case Logout(_, _) => true
    case Sweep(_) => true
    case _ => false
  }

  lemma {:induction false} SendingDone(cfg: Config, s: State, ev: Event)
    requires ev.action.ForgotPassword? || ev.action.ResendOtp?
    ensures Handle(cfg, s, ev).reply == Done <==> Succeeds(s, ev)
  {
    match ByEmail(s, ev.action.email)
    case None =>
    case Some(u) =>
      var tokenType := if ev.action.ForgotPassword? then ResetPassword else VerifyEmail;
      assert Handle(cfg, s, ev).reply == Done <==> NewCode(s, ev, u, tokenType);
  }

  lemma {:induction false} RegisterDone(cfg: Config, s: State, ev: Event)
    requires ev.action.Register?
    ensures Handle(cfg, s, ev).reply == Done <==> Succeeds(s, ev)
  {
    var found := FindAny(s.users, Lower(ev.action.email), s.nextUser);
    var u := if found.Some? && s.users[found.value].isDeleted then found.value else s.nextUser;
    assert Handle(cfg, s, ev).reply == Done <==> NewCode(s, ev, u, VerifyEmail);
  }

  /** Every request but a login is answered `Done` if and only if it goes through. */
  lemma {:induction false} DoneIff(cfg: Config, s: State, ev: Event)
    ensures Handle(cfg, s, ev).reply == Done <==> Succeeds(s, ev)
  {
    hide FindLive, FindAny;
    if ev.action.ForgotPassword? || ev.action.ResendOtp? {
      SendingDone(cfg, s, ev);
    } else if ev.action.Register? {
      RegisterDone(cfg, s, ev);
    } else if ev.action.ConfirmEmail? {
      ConfirmReply(cfg, s, ev);
    }
  }

  // ----- What is refused, and why ----------------------------------------------------------------

  /** A provider's word is refused, for the account with the email, when that is blocked,
      belongs to another provider, or is not through onboarding. */
  lemma {:induction false} SocialRefusals(cfg: Config, s: State, ev: Event, u: UserId)
    requires IdsUsed(s) && EmailsDistinct(s) && ev.action.SocialLogin? && HasEmail(s, u, ev.action.email)
    ensures var a, r := s.users[u], Handle(cfg, s, ev).reply;
            var welcome := a.status != Blocked && a.strategy == ev.action.provider;
            && (r == Refused(AccountBlocked) <==> a.status == Blocked)
            && (r == Refused(ProviderMismatch) <==> a.status != Blocked && a.strategy != ev.action.provider)
            && (r == Refused(EmailNotVerified) <==> welcome && NewCode(s, ev, u, VerifyEmail))
            && (r == Refused(AccountUnderReview) <==> welcome && !NeedsVerification(Vouched(s, ev, u)) && !Onboarded(Vouched(s, ev, u)))
  {
    FoundByEmail(s, ev.action.email, u);
    hide ByEmail, FindLive, Lower;
  }

  /** A registration or a forgotten password is refused. */
  lemma {:induction false} EmailRefusals(cfg: Config, s: State, ev: Event)
    requires IdsUsed(s) && EmailsDistinct(s) && (ev.action.ForgotPassword? || ev.action.ResendOtp? || ev.action.ConfirmEmail?)
    ensures var r := Handle(cfg, s, ev).reply;
            && (r == Refused(if ev.action.ForgotPassword? then UserNotFound else AccountNotFound)
                <==> forall u :: !HasEmail(s, u, ev.action.email))
            && forall u :: HasEmail(s, u, ev.action.email) ==>
                 var checks := !ev.action.ForgotPassword?;
                 var shut := s.users[u].lockUntil.Some? && s.users[u].lockUntil.value > ev.now;
                 && (r == Refused(AlreadyVerified) <==> checks && s.users[u].isEmailVerified)
                 && (r == Refused(TooManyAttempts) <==> shut && !(checks && s.users[u].isEmailVerified))
                 && (r == Refused(InvalidToken)
                     <==> ev.action.ConfirmEmail? && !shut && !s.users[u].isEmailVerified && !Verifies(s, ev, u))
  {
    var found := ByEmail(s, ev.action.email);
    assert found.Some? ==> HasEmail(s, found.value, ev.action.email);
    forall u: UserId | HasEmail(s, u, ev.action.email) ensures found == Some(u) {
      FoundByEmail(s, ev.action.email, u);
    }
    hide ByEmail, FindLive, Lower;
  }

  /** A request about an account by id is refused. */
  lemma {:induction false} ReviewRefusals(cfg: Config, s: State, ev: Event, u: UserId)
    requires || ev.action == CompleteProfile(u) || ev.action == Approve(u) || ev.action == Delete(u)
             || (ev.action.Decline? && ev.action.user == u) || (ev.action.SetPassword? && ev.action.user == u)
    ensures var r := Handle(cfg, s, ev).reply;
            var review := ev.action.Approve? || ev.action.Decline?;
            && (r == Refused(UserNotFound) <==> !Live(s, u))
            && (r == Refused(OnboardingAlreadyComplete)
                <==> ev.action.CompleteProfile? && Live(s, u) && s.users[u].isOnboardingCompleted)
            && (r == Refused(AdminNotReviewed) <==> review && Live(s, u) && s.users[u].role == SuperAdmin)
            && (r == Refused(AlreadyApproved)
                <==> && ev.action.Approve? && Live(s, u) && s.users[u].role == Member
                     && s.users[u].step == Approved && s.users[u].isOnboardingCompleted)
  {
  }

  lemma {:induction false} PasswordRefusals(cfg: Config, s: State, ev: Event)
    requires ev.action.ChangePassword?
    ensures var u, r := ev.action.user, Handle(cfg, s, ev).reply;
            && (r == Refused(UserNotFound) <==> !Live(s, u))
            && (r == Refused(CurrentPasswordRequired)
                <==> Live(s, u) && PasswordWritten(s, ev, u).None? && ev.action.current == "")
            && (r == Refused(OldPasswordWrong)
                <==> Live(s, u) && PasswordWritten(s, ev, u).None? && ev.action.current != "")
  {
  }

  /** A registration is refused when a live account has the email; otherwise the only
      obstacle is a stored row for the very same code. */
  lemma {:induction false} RegisterRefusals(cfg: Config, s: State, ev: Event)
    requires IdsUsed(s) && EmailsDistinct(s) && ev.action.Register?
    ensures var r := Handle(cfg, s, ev).reply;
            && (r == Refused(EmailExists) || r == Refused(DuplicateKey) || r == Done)
            && (r == Refused(EmailExists) ==> exists u :: HasEmail(s, u, ev.action.email))
            && ((exists u :: HasEmail(s, u, ev.action.email)) ==> r != Done)
  {
    DoneIff(cfg, s, ev);
    var found := ByEmail(s, ev.action.email);
    assert found.Some? ==> HasEmail(s, found.value, ev.action.email);
    forall u: UserId | HasEmail(s, u, ev.action.email) ensures found == Some(u) {
      FoundByEmail(s, ev.action.email, u);
    }
    hide ByEmail, FindLive, FindAny, Lower;
  }

  // ----- Runs: who knows the password ----------------------------------------------------------------

  /** Whoever logs in gave the last password written for the account. */
  lemma {:induction false} LoginNeedsLastPassword(cfg: Config, s: State, evs: seq<Event>, now: int, email: string, password: string,
                                                  otp: string, u: UserId, token: Token)
    requires IdsUsed(s) && u !in s.users
    requires Handle(cfg, Run(cfg, s, evs), Event(now, Login(email, password, otp))).reply == Issued(u, token)
    ensures LastPassword(cfg, s, evs, u) == Some(password) && password != ""
  {
    hide Run, LastPassword;
    IssuedIff(cfg, Run(cfg, s, evs), Event(now, Login(email, password, otp)), u, token);
    hide Handle, ByEmail;
    PasswordIsLastWritten(cfg, s, evs, u);
  }

  // ----- Runs: how long a row is good --------------------------------------------------------------------

  /** Some step from i up to j blacklists the row. */
  ghost predicate RevokedBetween(cfg: Config, s: State, evs: seq<Event>, key: Key, i: nat, j: nat)
    requires j <= |evs|
  {
    exists k :: i <= k < j && Revokes(Run(cfg, s, evs[..k]), evs[k], key)
  }

  /** No step from i up to j comes later than `now`. */
  predicate NoLater(evs: seq<Event>, i: nat, j: nat, now: int)
    requires j <= |evs|
  {
    forall k :: i <= k < j ==> evs[k].now <= now
  }

  lemma {:induction false} RowStep(cfg: Config, s: State, ev: Event, key: Key)
    requires TokensOk(s) && key in s.tokens && ev.now < s.tokens[key].expiresAt
    ensures RowOf(Next(cfg, s, ev), key) == Some(Row(s.tokens[key].expiresAt, s.tokens[key].blacklisted || Revokes(s, ev, key)))
  {
    hide Revokes, SignsIn, SendsCode, Handle;
    NextRow(cfg, s, ev, key);
    NextJtiIsFresh(s);
  }

  /** A row stays as it is until it expires, except that it is blacklisted if and only
      if some step revokes it. */
  lemma {:induction false} RowLasts(cfg: Config, s: State, evs: seq<Event>, key: Key, i: nat, j: nat, row: Row)
    requires TokensOk(s) && i <= j <= |evs| && RowOf(Run(cfg, s, evs[..i]), key) == Some(row)
    requires NoLater(evs, i, j, row.expiresAt - 1)
    ensures RowOf(Run(cfg, s, evs[..j]), key) == Some(Row(row.expiresAt, row.blacklisted || RevokedBetween(cfg, s, evs, key, i, j)))
    decreases j
  {
    hide Handle, Revokes, TokensOk;
    if i < j {
      RowLasts(cfg, s, evs, key, i, j - 1, row);
      RunKeepsTokensOk(cfg, s, evs[..j - 1]);
      RunStep(cfg, s, evs, j - 1);
      RowStep(cfg, Run(cfg, s, evs[..j - 1]), evs[j - 1], key);
    }
  }

  lemma {:induction false} IssuedRow(cfg: Config, s: State, ev: Event, u: UserId, token: Token)
    requires Handle(cfg, s, ev).reply == Issued(u, token)
    ensures token == NextToken(s, u) && RowOf(Next(cfg, s, ev), KeyOf(token)) == Some(Row(ev.now + cfg.refreshTtl, false))
  {
    hide Handle, SignsIn, SendsCode, Revokes;
    IssuedIff(cfg, s, ev, u, token);
    NextRow(cfg, s, ev, KeyOf(token));
  }

  lemma {:induction false} AcceptsIff(cfg: Config, s: State, ev: Event, token: Token, row: Row)
    requires TokensOk(s) && token.Jwt? && token.jwtType == Refresh && ev.action == RefreshTokens(token, true)
    requires RowOf(s, KeyOf(token)) == Some(row) && ev.now < row.expiresAt
    ensures Accepts(cfg, s, ev, token)
            <==> !row.blacklisted && token.sub in s.users && !s.users[token.sub].isDeleted && s.users[token.sub].status != Blocked
  {
    RefreshReply(cfg, s, ev);
    hide Handle, ByEmail;
    assert SignsIn(s, ev, token.sub) <==> Refreshes(s, ev);
  }

  /** A refresh token that some step answered with is accepted at a later one, when it
      comes there genuine and in time, if and only if no step between revoked its row
      and the account is live and not blocked. */
  lemma {:induction false} IssuedTokenAcceptedIff(cfg: Config, s: State, evs: seq<Event>, i: nat, j: nat, u: UserId, token: Token)
    requires TokensOk(s) && i < j < |evs|
    requires Handle(cfg, Run(cfg, s, evs[..i]), evs[i]).reply == Issued(u, token)
    requires evs[j].action == RefreshTokens(token, true)
    requires evs[j].now < evs[i].now + cfg.refreshTtl && NoLater(evs, i, j, evs[j].now)
    ensures Accepts(cfg, Run(cfg, s, evs[..j]), evs[j], token)
            <==> && !RevokedBetween(cfg, s, evs, KeyOf(token), i + 1, j)
                 && var users := Run(cfg, s, evs[..j]).users; u in users && !users[u].isDeleted && users[u].status != Blocked
  {
    hide Handle, TokensOk, Revokes, RevokedBetween, RowOf, Accepts;
    var before, at := Run(cfg, s, evs[..i]), Run(cfg, s, evs[..j]);
    IssuedRow(cfg, before, evs[i], u, token);
    RunStep(cfg, s, evs, i);
    RunKeepsTokensOk(cfg, s, evs[..j]);
    hide Run;
    var row := Row(evs[i].now + cfg.refreshTtl, false);
    RowLasts(cfg, s, evs, KeyOf(token), i + 1, j, row);
    AcceptsIff(cfg, at, evs[j], token, row.(blacklisted := RevokedBetween(cfg, s, evs, KeyOf(token), i + 1, j)));
  }

  // ----- Runs: how long a code is good ---------------------------------------------------------------------

  lemma {:induction false} ResetCodeReply(cfg: Config, s: State, ev: Event)
    requires ev.action.VerifyResetCode?
    ensures Handle(cfg, s, ev).reply == Done <==> ResetCodeFits(s, ev, ev.action.sub)
  {
  }

  lemma {:induction false} ConfirmReply(cfg: Config, s: State, ev: Event)
    requires ev.action.ConfirmEmail?
    ensures Handle(cfg, s, ev).reply == Done <==> exists u :: Verifies(s, ev, u)
  {
    match ByEmail(s, ev.action.email)
    case None =>
    case Some(u) => assert Handle(cfg, s, ev).reply == Done <==> Verifies(s, ev, u);
  }

  lemma {:induction false} ForgotReply(cfg: Config, s: State, ev: Event)
    requires ev.action.ForgotPassword? && Handle(cfg, s, ev).reply == Done
    ensures ByEmail(s, ev.action.email).Some?
    ensures var u := ByEmail(s, ev.action.email).value;
            RowOf(Next(cfg, s, ev), OtpKey(u, ResetPassword, ev.action.otp)) == Some(Row(ev.now + cfg.otpTtl, false))
  {
  }

  lemma {:induction false} CodeWorksIff(cfg: Config, s: State, ev: Event, u: UserId, otp: string, row: Row)
    requires ev.action == VerifyResetCode(u, true, otp)
    requires RowOf(s, OtpKey(u, ResetPassword, otp)) == Some(row) && ev.now < row.expiresAt
    ensures Handle(cfg, s, ev).reply == Done
            <==> && !row.blacklisted && u in s.users && !s.users[u].isDeleted
                 && (s.users[u].lockUntil.None? || s.users[u].lockUntil.value <= ev.now)
  {
    ResetCodeReply(cfg, s, ev);
    hide Handle;
  }

  /** A reset code that was sent is right at a later step, when it comes there with a
      genuine token and in time, if and only if no step between revoked it (another
      code, or one that was right) and the account is live and not locked. */
  lemma {:induction false} SentCodeWorksIff(cfg: Config, s: State, evs: seq<Event>, i: nat, j: nat, u: UserId, otp: string)
    requires TokensOk(s) && i < j < |evs|
    requires evs[i].action.ForgotPassword? && evs[i].action.otp == otp && Handle(cfg, Run(cfg, s, evs[..i]), evs[i]).reply == Done
    requires ByEmail(Run(cfg, s, evs[..i]), evs[i].action.email) == Some(u)
    requires evs[j].action == VerifyResetCode(u, true, otp)
    requires evs[j].now < evs[i].now + cfg.otpTtl && NoLater(evs, i, j, evs[j].now)
    ensures Handle(cfg, Run(cfg, s, evs[..j]), evs[j]).reply == Done
            <==> && !RevokedBetween(cfg, s, evs, OtpKey(u, ResetPassword, otp), i + 1, j)
                 && var users := Run(cfg, s, evs[..j]).users;
                    u in users && !users[u].isDeleted && (users[u].lockUntil.None? || users[u].lockUntil.value <= evs[j].now)
  {
    hide Handle, TokensOk, Revokes, RevokedBetween, RowOf, ByEmail;
    var before, at := Run(cfg, s, evs[..i]), Run(cfg, s, evs[..j]);
    ForgotReply(cfg, before, evs[i]);
    RunStep(cfg, s, evs, i);
    hide Run;
    var key, row := OtpKey(u, ResetPassword, otp), Row(evs[i].now + cfg.otpTtl, false);
    RowLasts(cfg, s, evs, key, i + 1, j, row);
    CodeWorksIff(cfg, at, evs[j], u, otp, row.(blacklisted := RevokedBetween(cfg, s, evs, key, i + 1, j)));
  }
}
