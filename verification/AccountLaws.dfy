/** What every request writes on every account, and the password as the last one
    written. */
module AccountLaws {
  import opened Common
  import opened Slugs
  import opened Accounts
  import opened Lockout
  import opened Onboarding

  /** The registration of the deleted account `u` goes through. */
  predicate Revives(s: State, ev: Event, u: UserId) {
    && ev.action.Register? && ByEmail(s, ev.action.email).None?
    && FindAny(s.users, Lower(ev.action.email), s.nextUser) == Some(u) && s.users[u].isDeleted
  }

  /** The email verification of `u` goes through. */
  predicate Verifies(s: State, ev: Event, u: UserId) {
    && ev.action.ConfirmEmail? && ByEmail(s, ev.action.email) == Some(u)
    && !s.users[u].isEmailVerified && !Locked(s.users[u], ev.now)
    && var key := Key(u, VerifyEmail, Sha256(Otp(ev.action.otp)));
       key in s.tokens && !s.tokens[key].blacklisted && s.tokens[key].expiresAt > ev.now
  }

  /** A social login vouches for the email of `u`. */
  predicate Vouches(s: State, ev: Event, u: UserId) {
    && ev.action.SocialLogin? && ByEmail(s, ev.action.email) == Some(u) && ev.action.emailVerified == Some(true)
    && s.users[u].status != Blocked && s.users[u].strategy == ev.action.provider
  }

  /** The password a request writes on `u`: a registration of the deleted account, a
      change that gives the current one or is a reset, or a reset by token. */
  function PasswordWritten(s: State, ev: Event, u: UserId): Option<string>
    requires u in s.users
  {
    match ev.action
    case Register(_, password, _, _) => if Revives(s, ev, u) then Some(password) else None
    case ChangePassword(v, current, isReset, newPassword) =>
      if v == u && !s.users[u].isDeleted
         && (isReset || s.users[u].password == "" || (current != "" && current == s.users[u].password))
      then Some(newPassword) else None
    case SetPassword(v, newPassword) => if v == u && !s.users[u].isDeleted then Some(newPassword) else None
    case _ => None
  }

  /** The step a request writes on `u`, when it writes one. */
  function StepWritten(s: State, ev: Event, u: UserId): OnboardingStep
    requires u in s.users
  {
    match ev.action
    case ConfirmEmail(_, _) => if s.users[u].identityDocument != "" then UnderReview else Verified
    case Approve(_) => Approved
    case Register(_, _, _, _) => Registered
    case _ => UnderReview
  }

  predicate Approves(s: State, ev: Event, u: UserId) {
    ev.action == Approve(u) && WritesStep(s, ev, u)
  }

  predicate Declines(s: State, ev: Event, u: UserId) {
    ev.action.Decline? && ev.action.user == u && WritesStep(s, ev, u)
  }

  predicate Deletes(s: State, ev: Event, u: UserId) {
    ev.action == Delete(u) && Live(s, u)
  }

  /** Account `u` after a request, in every field that neither the lockout counter
      nor the review decides. */
  ghost predicate AccountMoves(s: State, ev: Event, u: UserId, t: State)
    requires u in s.users
  {
    && u in t.users
    && var before, after := s.users[u], t.users[u];
       && after.email == before.email && after.role == before.role
       && after.password == (if PasswordWritten(s, ev, u).Some? then PasswordWritten(s, ev, u).value else before.password)
       && after.step == (if WritesStep(s, ev, u) then StepWritten(s, ev, u) else before.step)
       && after.isDeleted == (if Revives(s, ev, u) then false else before.isDeleted || Deletes(s, ev, u))
       && after.status == (if Deletes(s, ev, u) then Inactive else before.status)
       && after.strategy == (if Revives(s, ev, u) then Local else before.strategy)
       && after.isEmailVerified
          == (if Revives(s, ev, u) then false else before.isEmailVerified || Verifies(s, ev, u) || Vouches(s, ev, u))
       && after.identityDocument == (if Revives(s, ev, u) then ev.action.identityDocument else before.identityDocument)
       && after.rejectionReason
          == (if Approves(s, ev, u) then None
              else if Declines(s, ev, u) then (if ev.action.reason != "" then Some(ev.action.reason) else None)
              else before.rejectionReason)
  }

  lemma {:induction false} RegisterAccount(cfg: Config, s: State, ev: Event, u: UserId)
    requires IdsUsed(s) && u in s.users && ev.action.Register?
    ensures AccountMoves(s, ev, u, Next(cfg, s, ev))
  {
    hide ByEmail, FindAny, Lower, OtpKey, RevokedAll;
    var a := ev.action;
    var found := FindAny(s.users, Lower(a.email), s.nextUser);
    if found.Some? {
      var s1 := SetUser(s, found.value, Revived(s.users[found.value], a.password, a.identityDocument));
      RevokingKeepsUsers(s1, found.value, RefreshToken);
      RevokingKeepsUsers(RevokedAll(s1, found.value, RefreshToken), found.value, VerifyEmail);
    }
  }

  lemma RevokingKeepsUsers(s: State, u: UserId, tokenType: TokenType)
    ensures RevokedAll(s, u, tokenType).users == s.users
  {
  }

  lemma {:induction false} LoginAccount(cfg: Config, s: State, ev: Event, u: UserId)
    requires IdsUsed(s) && u in s.users && ev.action.Login?
    ensures AccountMoves(s, ev, u, Next(cfg, s, ev))
  {
  }

  lemma {:induction false} SocialAccount(cfg: Config, s: State, ev: Event, u: UserId)
    requires IdsUsed(s) && u in s.users && ev.action.SocialLogin?
    ensures AccountMoves(s, ev, u, Next(cfg, s, ev))
  {
    hide Gate, GateAndIssue, IssuePair;
    var a := ev.action;
    match ByEmail(s, a.email)
    case None =>
      var account := NewAccount(a.email, a.generated, a.provider, a.emailVerified.None? || a.emailVerified.value, "", Verified);
      GateKeepsUsers(cfg, AddUser(s, account), s.nextUser, ev.now, a.otp);
    case Some(v) =>
      var account := s.users[v].(isEmailVerified := s.users[v].isEmailVerified || a.emailVerified == Some(true));
      GateKeepsUsers(cfg, SetUser(s, v, account), v, ev.now, a.otp);
  }

  lemma ForgotAccount(cfg: Config, s: State, ev: Event, u: UserId)
    requires u in s.users && ev.action.ForgotPassword?
    ensures AccountMoves(s, ev, u, Next(cfg, s, ev))
  {
  }

  lemma ResendAccount(cfg: Config, s: State, ev: Event, u: UserId)
    requires u in s.users && ev.action.ResendOtp?
    ensures AccountMoves(s, ev, u, Next(cfg, s, ev))
  {
  }

  lemma ConfirmAccount(cfg: Config, s: State, ev: Event, u: UserId)
    requires u in s.users && ev.action.ConfirmEmail?
    ensures AccountMoves(s, ev, u, Next(cfg, s, ev))
  {
  }

  lemma ResetCodeAccount(cfg: Config, s: State, ev: Event, u: UserId)
    requires u in s.users && ev.action.VerifyResetCode?
    ensures AccountMoves(s, ev, u, Next(cfg, s, ev))
  {
  }

  lemma ReviewAccount(cfg: Config, s: State, ev: Event, u: UserId)
    requires u in s.users && (ev.action.CompleteProfile? || ev.action.Approve? || ev.action.Decline?)
    ensures AccountMoves(s, ev, u, Next(cfg, s, ev))
  {
  }

  lemma {:induction false} OtherAccount(cfg: Config, s: State, ev: Event, u: UserId)
    requires u in s.users
    requires || ev.action.RefreshTokens? || ev.action.Logout? || ev.action.ChangePassword? || ev.action.SetPassword?
             || ev.action.Delete? || ev.action.Sweep?
    ensures AccountMoves(s, ev, u, Next(cfg, s, ev))
  {
  }

  /** Every request changes every account exactly so. */
  lemma {:induction false} NextAccount(cfg: Config, s: State, ev: Event, u: UserId)
    requires IdsUsed(s) && u in s.users
    ensures AccountMoves(s, ev, u, Next(cfg, s, ev))
  {
    hide Handle, AccountMoves;
    if ev.action.Register? {
      RegisterAccount(cfg, s, ev, u);
    } else if ev.action.Login? {
      LoginAccount(cfg, s, ev, u);
    } else if ev.action.SocialLogin? {
      SocialAccount(cfg, s, ev, u);
    } else if ev.action.ForgotPassword? {
      ForgotAccount(cfg, s, ev, u);
    } else if ev.action.ResendOtp? {
      ResendAccount(cfg, s, ev, u);
    } else if ev.action.ConfirmEmail? {
      ConfirmAccount(cfg, s, ev, u);
    } else if ev.action.VerifyResetCode? {
      ResetCodeAccount(cfg, s, ev, u);
    } else if ev.action.CompleteProfile? || ev.action.Approve? || ev.action.Decline? {
      ReviewAccount(cfg, s, ev, u);
    } else {
      OtherAccount(cfg, s, ev, u);
    }
  }

  // ----- New accounts ---------------------------------------------------------------------------

  /** The account a request makes: always a member, active and not approved. */
  ghost predicate Fresh(s: State, ev: Event, a: Account) {
    && a.email == Lower(EmailOf(ev)) && a.password == PasswordOf(ev)
    && a.role == Member && a.status == Active && !a.isDeleted
    && a.failedAttempts == 0 && a.lockUntil.None? && !a.isOnboardingCompleted && a.rejectionReason.None?
    && (ev.action.Register? ==>
          && a.strategy == Local && !a.isEmailVerified && a.step == Registered
          && a.identityDocument == ev.action.identityDocument)
    && (ev.action.SocialLogin? ==>
          && a.strategy == ev.action.provider && a.isEmailVerified == (ev.action.emailVerified != Some(false))
          && a.step == Verified && a.identityDocument == "")
  }

  function EmailOf(ev: Event): string {
    match ev.action
    case Register(email, _, _, _) => email
    case SocialLogin(_, email, _, _, _) => email
    case _ => ""
  }

  function PasswordOf(ev: Event): string {
    match ev.action
    case Register(_, password, _, _) => password
    case SocialLogin(_, _, _, generated, _) => generated
    case _ => ""
  }

  /** A request makes an account only as `Creates` says, and makes it so. */
  lemma {:induction false} NextFresh(cfg: Config, s: State, ev: Event, u: UserId)
    requires IdsUsed(s) && u !in s.users
    ensures u in Next(cfg, s, ev).users <==> Creates(s, ev, u)
    ensures u in Next(cfg, s, ev).users ==> Fresh(s, ev, Next(cfg, s, ev).users[u])
  {
    NextReview(cfg, s, ev, u);
    if Creates(s, ev, u) {
      if ev.action.SocialLogin? {
        SocialFresh(cfg, s, ev);
      } else {
        RegisterFresh(cfg, s, ev);
      }
    }
  }

  lemma {:induction false} SocialFresh(cfg: Config, s: State, ev: Event)
    requires Creates(s, ev, s.nextUser) && ev.action.SocialLogin?
    ensures s.nextUser in Next(cfg, s, ev).users && Fresh(s, ev, Next(cfg, s, ev).users[s.nextUser])
  {
    hide Gate, GateAndIssue, IssuePair;
    var a := ev.action;
    var account := NewAccount(a.email, a.generated, a.provider, a.emailVerified.None? || a.emailVerified.value, "", Verified);
    GateKeepsUsers(cfg, AddUser(s, account), s.nextUser, ev.now, a.otp);
  }

  lemma RegisterFresh(cfg: Config, s: State, ev: Event)
    requires Creates(s, ev, s.nextUser) && ev.action.Register?
    ensures s.nextUser in Next(cfg, s, ev).users && Fresh(s, ev, Next(cfg, s, ev).users[s.nextUser])
  {
  }

  // ----- The password over runs --------------------------------------------------------------------

  /** The last password that a run wrote for `u`. */
  function LastPassword(cfg: Config, s: State, evs: seq<Event>, u: UserId): Option<string>
    decreases |evs|
  {
    if evs == [] then None
    else
      var n := |evs| - 1;
      var before := Run(cfg, s, evs[..n]);
      if u !in before.users then (if Creates(before, evs[n], u) then Some(PasswordOf(evs[n])) else None)
      else
        var written := PasswordWritten(before, evs[n], u);
        if written.Some? then written else LastPassword(cfg, s, evs[..n], u)
  }

  /** In every reachable state an account made in the run has the last password written. */
  lemma {:induction false} PasswordIsLastWritten(cfg: Config, s: State, evs: seq<Event>, u: UserId)
    requires IdsUsed(s) && u !in s.users && u in Run(cfg, s, evs).users
    ensures LastPassword(cfg, s, evs, u) == Some(Run(cfg, s, evs).users[u].password)
    decreases |evs|
  {
    hide Handle, PasswordWritten, Creates;
    var n := |evs| - 1;
    var before := Run(cfg, s, evs[..n]);
    RunKeepsIds(cfg, s, evs[..n]);
    if u in before.users {
      PasswordIsLastWritten(cfg, s, evs[..n], u);
      NextAccount(cfg, before, evs[n], u);
    } else {
      NextFresh(cfg, before, evs[n], u);
    }
  }
}
