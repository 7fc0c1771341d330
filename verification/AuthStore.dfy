/** The token, user and authentication services as they change the database. */
module AuthStore {
  import opened Common
  import opened Slugs
  import opened Accounts
  import opened Rotation

  class AuthService {
    const cfg: Config
    var users: map<UserId, Account>
    var tokens: map<Key, Row>
    var nextUser: UserId
    var nextJti: nat

    constructor (cfg: Config, s: State)
      ensures Contents() == s && this.cfg == cfg
    {
      this.cfg := cfg;
      users, tokens, nextUser, nextJti := s.users, s.tokens, s.nextUser, s.nextJti;
    }

    function Contents(): State
      reads this
    {
      State(users, tokens, nextUser, nextJti)
    }

    // ----- Tokens ----------------------------------------------------------------

    /** Refused when the unique index already holds the key. */
    method CreateToken(user: UserId, token: Token, tokenType: TokenType, expiresAt: int) returns (ok: bool)
      modifies this`tokens
      ensures var key := Key(user, tokenType, Sha256(token));
              && ok == (key !in old(tokens))
              && Contents() == if ok then Put(old(Contents()), key, expiresAt) else old(Contents())
    {
      var key := Key(user, tokenType, Sha256(token));
      if key in tokens {
        return false;
      }
      tokens := tokens[key := Row(expiresAt, false)];
      return true;
    }

    method ValidateToken(user: UserId, token: Token, tokenType: TokenType, now: int) returns (active: bool)
      ensures active == IsActive(Contents(), Key(user, tokenType, Sha256(token)), now)
    {
      var key := Key(user, tokenType, Sha256(token));
      if key !in tokens {
        return false;
      }
      return !tokens[key].blacklisted && tokens[key].expiresAt > now;
    }

    method RevokeToken(user: UserId, token: Token, tokenType: TokenType)
      modifies this`tokens
      ensures Contents() == Revoked(old(Contents()), Key(user, tokenType, Sha256(token)))
    {
      var key := Key(user, tokenType, Sha256(token));
      if key in tokens {
        tokens := tokens[key := tokens[key].(blacklisted := true)];
      }
    }

    /** One update of every matching row, in any order. */
    method RevokeAllByUser(user: UserId, tokenType: TokenType)
      modifies this`tokens
      ensures Contents() == RevokedAll(old(Contents()), user, tokenType)
    {
      var pending := tokens.Keys;
      while pending != {}
        invariant pending <= old(tokens).Keys && tokens.Keys == old(tokens).Keys
        invariant forall k :: k in tokens ==>
                    tokens[k] == if k !in pending then RevokedAll(old(Contents()), user, tokenType).tokens[k] else old(tokens)[k]
        decreases |pending|
      {
        var key :| key in pending;
        if key.user == user && key.tokenType == tokenType && !tokens[key].blacklisted {
          tokens := tokens[key := tokens[key].(blacklisted := true)];
        }
        pending := pending - {key};
      }
      assert tokens == RevokedAll(old(Contents()), user, tokenType).tokens;
    }

    method IssueTokenPair(user: UserId, now: int) returns (reply: Reply)
      requires RefreshKey(user, nextJti) !in tokens
      modifies this`tokens, this`nextJti
      ensures Outcome(Contents(), reply) == IssuePair(cfg, old(Contents()), user, now)
    {
      var refreshToken := Jwt(Refresh, user, nextJti);
      nextJti := nextJti + 1;
      var stored := CreateToken(user, refreshToken, RefreshToken, now + cfg.refreshTtl);
      return Issued(user, refreshToken);
    }

    // ----- Accounts --------------------------------------------------------------

    /** Writes a live account; None means there is no such one. */
    method UpdateById(user: UserId, a: Account) returns (updated: Option<Account>)
      modifies this`users
      ensures updated == if Live(old(Contents()), user) then Some(a) else None
      ensures Contents() == if updated.Some? then SetUser(old(Contents()), user, a) else old(Contents())
    {
      if user !in users || users[user].isDeleted {
        return None;
      }
      users := users[user := a];
      return Some(a);
    }

    /** Writes an account whether it is deleted or not. */
    method UpdateAnyUser(user: UserId, a: Account) returns (updated: Option<Account>)
      modifies this`users
      ensures updated == if user in old(users) then Some(a) else None
      ensures Contents() == if updated.Some? then SetUser(old(Contents()), user, a) else old(Contents())
    {
      if user !in users {
        return None;
      }
      users := users[user := a];
      return Some(a);
    }

    method IncrementFailedAttempts(user: UserId, now: int)
      requires Live(Contents(), user)
      modifies this`users
      ensures Contents() == SetUser(old(Contents()), user, Failed(cfg, old(users)[user], now))
    {
      var a := users[user];
      var attempts := a.failedAttempts + 1;
      var lockUntil := a.lockUntil;
      if attempts >= cfg.maxFailedAttempts && !Locked(a, now) {
        lockUntil := Some(now + cfg.lockDuration);
      }
      var updated := UpdateById(user, a.(failedAttempts := attempts, lockUntil := lockUntil));
    }

    method ResetFailedAttempts(user: UserId)
      requires Live(Contents(), user)
      modifies this`users
      ensures Contents() == SetUser(old(Contents()), user, Cleared(old(users)[user]))
    {
      var updated := UpdateById(user, users[user].(failedAttempts := 0, lockUntil := None));
    }

    method SendCode(user: UserId, otp: string, tokenType: TokenType, now: int, sent: Reply) returns (reply: Reply)
      modifies this`tokens
      ensures Outcome(Contents(), reply) == WithOtp(old(Contents()), OtpKey(user, tokenType, otp), now + cfg.otpTtl, sent)
    {
      var ok := CreateToken(user, Otp(otp), tokenType, now + cfg.otpTtl);
      return if ok then sent else Refused(DuplicateKey);
    }

    /** None when the login may go on. */
    method AssertUserIsApproved(user: UserId, now: int, otp: string) returns (stop: Option<Reply>)
      requires user in users
      modifies this`tokens
      ensures match Gate(cfg, old(Contents()), user, now, otp)
              case None => stop.None? && Contents() == old(Contents())
              case Some(o) => stop == Some(o.reply) && Contents() == o.state
    {
      var a := users[user];
      if a.role == SuperAdmin {
        return None;
      }
      if !a.isEmailVerified || a.step == Registered {
        var reply := SendCode(user, otp, VerifyEmail, now, Refused(EmailNotVerified));
        return Some(reply);
      }
      if a.step == Approved && a.isOnboardingCompleted {
        return None;
      }
      return Some(Refused(AccountUnderReview));
    }

    method CreateUser(a: Account) returns (user: UserId)
      modifies this`users, this`nextUser
      ensures user == old(nextUser) && Contents() == AddUser(old(Contents()), a)
    {
      user := nextUser;
      users := users[user := a];
      nextUser := nextUser + 1;
    }

    // ----- Registration and login ---------------------------------------------------

    method Register(now: int, email: string, password: string, document: string, otp: string) returns (reply: Reply)
      modifies this
      ensures Outcome(Contents(), reply) == Registering(cfg, old(Contents()), now, email, password, document, otp)
    {
      var existing := FindAny(users, Lower(email), nextUser);
      var live := FindLive(users, Lower(email), nextUser);
      if existing.Some? && users[existing.value].isDeleted {
        var user := existing.value;
        if live.Some? {
          return Refused(DuplicateKey);
        }
        var revived := UpdateAnyUser(user, Revived(users[user], password, document));
        RevokeAllByUser(user, RefreshToken);
        RevokeAllByUser(user, VerifyEmail);
        reply := SendCode(user, otp, VerifyEmail, now, Done);
      } else {
        if live.Some? {
          return Refused(EmailExists);
        }
        var user := CreateUser(NewAccount(email, password, Local, false, document, Registered));
        reply := SendCode(user, otp, VerifyEmail, now, Done);
      }
    }

    method Login(now: int, email: string, password: string, otp: string) returns (reply: Reply)
      requires TokensOk(Contents())
      modifies this
      ensures Outcome(Contents(), reply) == LoggingIn(cfg, old(Contents()), now, email, password, otp)
    {
      NextJtiIsFresh(Contents());
      if email == "" || password == "" {
        return Refused(InvalidLogin);
      }
      var found := FindLive(users, Lower(email), nextUser);
      if found.None? {
        return Refused(AccountNotFound);
      }
      var user := found.value;
      var a := users[user];
      if a.password == "" {
        return Refused(InvalidCredentials);
      }
      if Locked(a, now) {
        return Refused(TooManyAttempts);
      }
      if a.password != password {
        IncrementFailedAttempts(user, now);
        return Refused(InvalidCredentials);
      }
      if a.status == Blocked {
        return Refused(AccountBlocked);
      }
      if a.strategy != Local {
        return Refused(ProviderMismatch);
      }
      var stop := AssertUserIsApproved(user, now, otp);
      if stop.Some? {
        return stop.value;
      }
      ResetFailedAttempts(user);
      reply := IssueTokenPair(user, now);
    }

    /** Signs the user in after the provider's token was verified. */
    method LoginWithMobileSocial(now: int, provider: Strategy, email: string, emailVerified: Option<bool>,
                                 generated: string, otp: string) returns (reply: Reply)
      requires TokensOk(Contents())
      modifies this
      ensures Outcome(Contents(), reply) == SocialLoggingIn(cfg, old(Contents()), now, provider, email, emailVerified, generated, otp)
    {
      NextJtiIsFresh(Contents());
      hide Gate, IssuePair, NewAccount, TokensOk, FindLive, Lower;
      var found := FindLive(users, Lower(email), nextUser);
      var user: UserId;
      match found {
        case None =>
          var verified := if emailVerified.Some? then emailVerified.value else true;
          user := CreateUser(NewAccount(email, generated, provider, verified, "", Verified));
        case Some(u) =>
          user := u;
          var a := users[user];
          if a.status == Blocked {
            return Refused(AccountBlocked);
          }
          if a.strategy != provider {
            return Refused(ProviderMismatch);
          }
          if emailVerified == Some(true) && !a.isEmailVerified {
            a := a.(isEmailVerified := true);
          }
          var updated := UpdateById(user, a);
      }
      var stop := AssertUserIsApproved(user, now, otp);
      if stop.Some? {
        return stop.value;
      }
      reply := IssueTokenPair(user, now);
    }

    method RefreshTokens(now: int, token: Token, genuine: bool) returns (reply: Reply)
      requires TokensOk(Contents())
      modifies this
      ensures Outcome(Contents(), reply) == Refreshing(cfg, old(Contents()), now, token, genuine)
    {
      NextJtiIsFresh(Contents());
      if !genuine || !token.Jwt? || token.jwtType != Refresh {
        return Refused(InvalidToken);
      }
      var user := token.sub;
      var stored := ValidateToken(user, token, RefreshToken, now);
      if !stored {
        return Refused(InvalidToken);
      }
      if user !in users || users[user].isDeleted {
        return Refused(InvalidToken);
      }
      if users[user].status == Blocked {
        return Refused(AccountBlocked);
      }
      RevokeToken(user, token, RefreshToken);
      reply := IssueTokenPair(user, now);
    }

    method Logout(token: Token, genuine: bool)
      modifies this`tokens
      ensures Contents() == LoggingOut(old(Contents()), token, genuine).state
    {
      if genuine && token.Jwt? && token.jwtType != Refresh {
        RevokeToken(token.sub, token, RefreshToken);
      }
    }

    // ----- Codes and passwords --------------------------------------------------------

    method ForgotPassword(now: int, email: string, otp: string) returns (reply: Reply)
      modifies this
      ensures Outcome(Contents(), reply) == ForgettingPassword(cfg, old(Contents()), now, email, otp)
    {
      var found := FindLive(users, Lower(email), nextUser);
      if found.None? {
        return Refused(UserNotFound);
      }
      var user := found.value;
      if Locked(users[user], now) {
        return Refused(TooManyAttempts);
      }
      ResetFailedAttempts(user);
      RevokeAllByUser(user, ResetPassword);
      reply := SendCode(user, otp, ResetPassword, now, Done);
    }

    method VerifyResetCode(now: int, user: UserId, genuine: bool, otp: string) returns (reply: Reply)
      modifies this
      ensures Outcome(Contents(), reply) == VerifyingResetCode(cfg, old(Contents()), now, user, genuine, otp)
    {
      if !genuine {
        return Refused(InvalidToken);
      }
      if user !in users || users[user].isDeleted {
        return Refused(UserNotFound);
      }
      if Locked(users[user], now) {
        return Refused(TooManyAttempts);
      }
      var valid := ValidateToken(user, Otp(otp), ResetPassword, now);
      if !valid {
        IncrementFailedAttempts(user, now);
        return Refused(InvalidToken);
      }
      RevokeAllByUser(user, ResetPassword);
      return Done;
    }

    method ChangePassword(user: UserId, current: string, isReset: bool, newPassword: string) returns (reply: Reply)
      modifies this`users
      ensures Outcome(Contents(), reply) == ChangingPassword(old(Contents()), user, current, isReset, newPassword)
    {
      if user !in users || users[user].isDeleted {
        return Refused(UserNotFound);
      }
      var a := users[user];
      if a.password != "" && !isReset {
        if current == "" {
          return Refused(CurrentPasswordRequired);
        }
        if current != a.password {
          return Refused(OldPasswordWrong);
        }
      }
      var updated := UpdateById(user, a.(password := newPassword));
      return Done;
    }

    method SetPassword(user: UserId, newPassword: string) returns (reply: Reply)
      modifies this
      ensures Outcome(Contents(), reply) == SettingPassword(old(Contents()), user, newPassword)
    {
      if user !in users || users[user].isDeleted {
        return Refused(UserNotFound);
      }
      var updated := UpdateById(user, users[user].(password := newPassword));
      RevokeAllByUser(user, RefreshToken);
      return Done;
    }

    method ResendOtp(now: int, email: string, otp: string) returns (reply: Reply)
      modifies this
      ensures Outcome(Contents(), reply) == ResendingOtp(cfg, old(Contents()), now, email, otp)
    {
      var found := FindLive(users, Lower(email), nextUser);
      if found.None? {
        return Refused(AccountNotFound);
      }
      var user := found.value;
      if users[user].isEmailVerified {
        return Refused(AlreadyVerified);
      }
      if Locked(users[user], now) {
        return Refused(TooManyAttempts);
      }
      IncrementFailedAttempts(user, now);
      reply := SendCode(user, otp, VerifyEmail, now, Done);
    }

    method VerifyEmailAddress(now: int, email: string, otp: string) returns (reply: Reply)
      modifies this
      ensures Outcome(Contents(), reply) == ConfirmingEmail(cfg, old(Contents()), now, email, otp)
    {
      var found := FindLive(users, Lower(email), nextUser);
      if found.None? {
        return Refused(AccountNotFound);
      }
      var user := found.value;
      var a := users[user];
      if a.isEmailVerified {
        return Refused(AlreadyVerified);
      }
      if Locked(a, now) {
        return Refused(TooManyAttempts);
      }
      var valid := ValidateToken(user, Otp(otp), VerifyEmail, now);
      if !valid {
        IncrementFailedAttempts(user, now);
        return Refused(InvalidToken);
      }
      var step := if a.identityDocument != "" then UnderReview else Verified;
      var updated := UpdateById(user, a.(isEmailVerified := true, step := step));
      RevokeAllByUser(user, VerifyEmail);
      return Done;
    }

    // ----- Review ------------------------------------------------------------------------

    method CompleteProfile(user: UserId) returns (reply: Reply)
      modifies this`users
      ensures Outcome(Contents(), reply) == CompletingProfile(old(Contents()), user)
    {
      if user !in users || users[user].isDeleted {
        return Refused(UserNotFound);
      }
      if users[user].isOnboardingCompleted {
        return Refused(OnboardingAlreadyComplete);
      }
      var updated := UpdateById(user, users[user].(step := UnderReview));
      return Done;
    }

    method ApproveUser(user: UserId) returns (reply: Reply)
      modifies this`users
      ensures Outcome(Contents(), reply) == Approving(old(Contents()), user)
    {
      if user !in users || users[user].isDeleted {
        return Refused(UserNotFound);
      }
      var a := users[user];
      if a.role == SuperAdmin {
        return Refused(AdminNotReviewed);
      }
      if a.step == Approved && a.isOnboardingCompleted {
        return Refused(AlreadyApproved);
      }
      var updated := UpdateById(user, a.(step := Approved, isOnboardingCompleted := true, rejectionReason := None));
      return Done;
    }

    method DeclineUser(user: UserId, reason: string) returns (reply: Reply)
      modifies this`users
      ensures Outcome(Contents(), reply) == Declining(old(Contents()), user, reason)
    {
      if user !in users || users[user].isDeleted {
        return Refused(UserNotFound);
      }
      if users[user].role == SuperAdmin {
        return Refused(AdminNotReviewed);
      }
      var updated := UpdateById(user, users[user].(step := UnderReview, isOnboardingCompleted := false,
                                                      rejectionReason := if reason != "" then Some(reason) else None));
      return Done;
    }

    method DeleteById(user: UserId) returns (reply: Reply)
      modifies this`users
      ensures Outcome(Contents(), reply) == Deleting(old(Contents()), user)
    {
      if user !in users || users[user].isDeleted {
        return Refused(UserNotFound);
      }
      var updated := UpdateById(user, users[user].(isDeleted := true, status := Inactive));
      return Done;
    }
  }
}
