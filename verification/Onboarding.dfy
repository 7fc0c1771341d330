/** Onboarding review over whole runs: who is approved, and who gets tokens. */
module Onboarding {
  import opened Common
  import opened Slugs
  import opened Accounts
  import opened Lockout

  // ----- Step-writing operations -----------------------------------------------------------

  predicate Creates(s: State, ev: Event, u: UserId) {
    && u == s.nextUser
    && match ev.action
       case Register(email, _, _, _) =>
         var found := FindAny(s.users, Lower(email), s.nextUser);
         ByEmail(s, email).None? && (found.Some? ==> !s.users[found.value].isDeleted)
       case SocialLogin(_, email, _, _, _) => ByEmail(s, email).None?
       case _ => false
  }

  /** An operation on `u` that goes through and writes its onboarding step. */
  predicate WritesStep(s: State, ev: Event, u: UserId) {
    || Creates(s, ev, u)
    || match ev.action
       case Register(email, _, _, _) =>
         FindAny(s.users, Lower(email), s.nextUser) == Some(u) && s.users[u].isDeleted && ByEmail(s, email).None?
       case ConfirmEmail(email, otp) =>
         ByEmail(s, email) == Some(u) && !s.users[u].isEmailVerified && !Locked(s.users[u], ev.now)
         && IsActive(s, OtpKey(u, VerifyEmail, otp), ev.now)
       case CompleteProfile(v) => v == u && Live(s, u) && !s.users[u].isOnboardingCompleted
       case Approve(v) =>
         v == u && Live(s, u) && s.users[u].role == Member
         && !(s.users[u].step == Approved && s.users[u].isOnboardingCompleted)
       case Decline(v, _) => v == u && Live(s, u) && s.users[u].role == Member
       case _ => false
  }

  /** What review knows of an account. */
  datatype Review = Review(role: Role, step: OnboardingStep, isOnboardingCompleted: bool)

  function ReviewOf(s: State, u: UserId): Review
    requires u in s.users
  {
    Review(s.users[u].role, s.users[u].step, s.users[u].isOnboardingCompleted)
  }

  ghost predicate ReviewMoves(s: State, ev: Event, t: State, u: UserId) {
    && (u in t.users <==> u in s.users || Creates(s, ev, u))
    && (u in t.users && Creates(s, ev, u) ==> ReviewOf(t, u).role == Member && !ReviewOf(t, u).isOnboardingCompleted)
    && (u in s.users && u in t.users ==> ReviewOf(t, u).role == ReviewOf(s, u).role)
    && (u in s.users && u in t.users && !WritesStep(s, ev, u) ==> ReviewOf(t, u) == ReviewOf(s, u))
    && (u in t.users && WritesStep(s, ev, u) ==>
          (ReviewOf(t, u).step == Approved <==> ev.action.Approve?)
          && (ReviewOf(t, u).isOnboardingCompleted
              <==> ev.action.Approve? || (ev.action.ConfirmEmail? && u in s.users && ReviewOf(s, u).isOnboardingCompleted)))
  }

  lemma RegisterReview(cfg: Config, s: State, ev: Event, u: UserId)
    requires IdsUsed(s) && ev.action.Register?
    ensures ReviewMoves(s, ev, Next(cfg, s, ev), u)
  {
  }

  lemma {:induction false} SocialReview(cfg: Config, s: State, ev: Event, u: UserId)
    requires IdsUsed(s) && ev.action.SocialLogin?
    ensures ReviewMoves(s, ev, Next(cfg, s, ev), u)
  {
    hide Gate, GateAndIssue, IssuePair;
    var a := ev.action;
    match ByEmail(s, a.email)
    case None =>
      var account := NewAccount(a.email, a.generated, a.provider, a.emailVerified.None? || a.emailVerified.value, "", Verified);
      GateKeepsUsers(cfg, AddUser(s, account), s.nextUser, ev.now, a.otp);
    case Some(v) =>
      var account := s.users[v].(isEmailVerified := s.users[v].isEmailVerified || a.emailVerified == Some(true));
      GateKeepsUsers(cfg, SetUser(s, v, account), v, ev.now, a.otp);
  }

  lemma LoginReview(cfg: Config, s: State, ev: Event, u: UserId)
    requires IdsUsed(s) && (ev.action.Login? || ev.action.RefreshTokens?)
    ensures ReviewMoves(s, ev, Next(cfg, s, ev), u)
  {
  }

  lemma CodeReview(cfg: Config, s: State, ev: Event, u: UserId)
    requires IdsUsed(s) && (ev.action.ForgotPassword? || ev.action.ResendOtp?)
    ensures ReviewMoves(s, ev, Next(cfg, s, ev), u)
  {
  }

  lemma ConfirmReview(cfg: Config, s: State, ev: Event, u: UserId)
    requires IdsUsed(s) && (ev.action.ConfirmEmail? || ev.action.VerifyResetCode?)
    ensures ReviewMoves(s, ev, Next(cfg, s, ev), u)
  {
  }

  lemma {:induction false} NextReview(cfg: Config, s: State, ev: Event, u: UserId)
    requires IdsUsed(s)
    ensures ReviewMoves(s, ev, Next(cfg, s, ev), u)
  {
    if ev.action.Register? {
      RegisterReview(cfg, s, ev, u);
    } else if ev.action.SocialLogin? {
      SocialReview(cfg, s, ev, u);
    } else if ev.action.Login? || ev.action.RefreshTokens? {
      LoginReview(cfg, s, ev, u);
    } else if ev.action.ForgotPassword? || ev.action.ResendOtp? {
      CodeReview(cfg, s, ev, u);
    } else if ev.action.ConfirmEmail? || ev.action.VerifyResetCode? {
      ConfirmReview(cfg, s, ev, u);
    }
  }

  // ----- Approval over runs ------------------------------------------------------------------

  /** Approved accounts have completed onboarding. */
  ghost predicate ApprovedAreComplete(s: State) {
    forall u :: u in s.users && s.users[u].step == Approved ==> s.users[u].isOnboardingCompleted
  }

  lemma {:induction false} NextKeepsComplete(cfg: Config, s: State, ev: Event)
    requires IdsUsed(s) && ApprovedAreComplete(s)
    ensures ApprovedAreComplete(Next(cfg, s, ev))
  {
    hide Handle;
    var t := Next(cfg, s, ev);
    forall u | u in t.users && t.users[u].step == Approved ensures t.users[u].isOnboardingCompleted {
      NextReview(cfg, s, ev, u);
    }
  }

  lemma {:induction false} RunKeepsComplete(cfg: Config, s: State, evs: seq<Event>)
    requires IdsUsed(s) && ApprovedAreComplete(s)
    ensures ApprovedAreComplete(Run(cfg, s, evs))
    decreases |evs|
  {
    hide Handle;
    if evs != [] {
      RunKeepsComplete(cfg, s, evs[..|evs| - 1]);
      RunKeepsIds(cfg, s, evs[..|evs| - 1]);
      NextKeepsComplete(cfg, Run(cfg, s, evs[..|evs| - 1]), evs[|evs| - 1]);
    }
  }

  /** Completed does not imply approved: an approved account stays completed but
      loses its approval if and only if an email verification goes through. */
  lemma {:induction false} VerifyingUndoesApprovalIff(cfg: Config, s: State, ev: Event, u: UserId)
    requires IdsUsed(s) && u in s.users && s.users[u].step == Approved && s.users[u].isOnboardingCompleted
    ensures u in Next(cfg, s, ev).users
    ensures (Next(cfg, s, ev).users[u].isOnboardingCompleted && Next(cfg, s, ev).users[u].step != Approved)
            <==> ev.action.ConfirmEmail? && WritesStep(s, ev, u)
  {
    NextKeepsIds(cfg, s, ev);
    if ev.action.Register? && WritesStep(s, ev, u) {
      RegisterUndoes(cfg, s, ev, u);
    } else if ev.action.Decline? || ev.action.ConfirmEmail? {
      DeclineUndoes(cfg, s, ev, u);
    } else {
      hide Handle;
      NextReview(cfg, s, ev, u);
    }
  }

  lemma RegisterUndoes(cfg: Config, s: State, ev: Event, u: UserId)
    requires IdsUsed(s) && u in s.users && ev.action.Register? && WritesStep(s, ev, u)
    ensures u in Next(cfg, s, ev).users && !Next(cfg, s, ev).users[u].isOnboardingCompleted
  {
  }

  lemma DeclineUndoes(cfg: Config, s: State, ev: Event, u: UserId)
    requires IdsUsed(s) && u in s.users && (ev.action.Decline? || ev.action.ConfirmEmail?)
    ensures u in Next(cfg, s, ev).users
    ensures !WritesStep(s, ev, u) ==> ReviewOf(Next(cfg, s, ev), u) == ReviewOf(s, u)
    ensures WritesStep(s, ev, u) ==>
              && Next(cfg, s, ev).users[u].step != Approved
              && Next(cfg, s, ev).users[u].isOnboardingCompleted == (ev.action.ConfirmEmail? && s.users[u].isOnboardingCompleted)
  {
  }

  /** The position of the last step-writing operation on `u`. */
  function LastStepWrite(cfg: Config, s: State, evs: seq<Event>, u: UserId): (r: Option<nat>)
    ensures r.Some? ==> r.value < |evs|
    decreases |evs|
  {
    if evs == [] then None
    else
      var n := |evs| - 1;
      if WritesStep(Run(cfg, s, evs[..n]), evs[n], u) then Some(n) else LastStepWrite(cfg, s, evs[..n], u)
  }

  lemma {:induction false} NothingWritesAfter(cfg: Config, s: State, evs: seq<Event>, u: UserId, m: nat)
    requires LastStepWrite(cfg, s, evs, u).Some? && LastStepWrite(cfg, s, evs, u).value < m < |evs|
    ensures !WritesStep(Run(cfg, s, evs[..m]), evs[m], u)
    decreases |evs|
  {
    hide Handle;
    var n := |evs| - 1;
    if m < n {
      NothingWritesAfter(cfg, s, evs[..n], u, m);
      assert evs[..n][..m] == evs[..m];
    }
  }

  /** In every reachable state an account made in the run is a member, and its step
      is APPROVED if and only if the last operation that wrote its step was an approval. */
  lemma {:induction false} ApprovedIffLastWriteApproved(cfg: Config, s: State, evs: seq<Event>, u: UserId)
    requires IdsUsed(s) && u !in s.users && u in Run(cfg, s, evs).users
    ensures Run(cfg, s, evs).users[u].role == Member
    ensures LastStepWrite(cfg, s, evs, u).Some?
    ensures Run(cfg, s, evs).users[u].step == Approved <==> evs[LastStepWrite(cfg, s, evs, u).value].action.Approve?
    decreases |evs|
  {
    hide Handle;
    var n := |evs| - 1;
    var before := Run(cfg, s, evs[..n]);
    RunKeepsIds(cfg, s, evs[..n]);
    NextReview(cfg, before, evs[n], u);
    if u in before.users {
      ApprovedIffLastWriteApproved(cfg, s, evs[..n], u);
    }
  }

  lemma {:induction false} ApprovalIsOfUser(cfg: Config, s: State, evs: seq<Event>, u: UserId)
    requires LastStepWrite(cfg, s, evs, u).Some?
    ensures var k := LastStepWrite(cfg, s, evs, u).value;
            WritesStep(Run(cfg, s, evs[..k]), evs[k], u) && (evs[k].action.Approve? ==> evs[k].action == Approve(u))
    decreases |evs|
  {
    hide Handle;
    var n := |evs| - 1;
    if !WritesStep(Run(cfg, s, evs[..n]), evs[n], u) {
      ApprovalIsOfUser(cfg, s, evs[..n], u);
      var k := LastStepWrite(cfg, s, evs, u).value;
      assert evs[..n][..k] == evs[..k];
    }
  }

  // ----- Completed and not approved ------------------------------------------------------------

  /** The k-th operation writes the step of `u`. */
  predicate WritesAt(cfg: Config, s: State, evs: seq<Event>, u: UserId, k: nat) {
    k < |evs| && WritesStep(Run(cfg, s, evs[..k]), evs[k], u)
  }

  /** The position of the last step-writing operation on `u` that is no email verification. */
  function LastOtherWrite(cfg: Config, s: State, evs: seq<Event>, u: UserId): (r: Option<nat>)
    ensures r.Some? ==> r.value < |evs|
    decreases |evs|
  {
    if evs == [] then None
    else
      var n := |evs| - 1;
      if WritesStep(Run(cfg, s, evs[..n]), evs[n], u) && !evs[n].action.ConfirmEmail? then Some(n)
      else LastOtherWrite(cfg, s, evs[..n], u)
  }

  lemma {:induction false} CompletedIffLastOtherApproved(cfg: Config, s: State, evs: seq<Event>, u: UserId)
    requires IdsUsed(s) && u !in s.users && u in Run(cfg, s, evs).users
    ensures LastOtherWrite(cfg, s, evs, u).Some?
    ensures Run(cfg, s, evs).users[u].isOnboardingCompleted <==> evs[LastOtherWrite(cfg, s, evs, u).value].action.Approve?
    decreases |evs|
  {
    hide Handle;
    var n := |evs| - 1;
    var before := Run(cfg, s, evs[..n]);
    RunKeepsIds(cfg, s, evs[..n]);
    NextReview(cfg, before, evs[n], u);
    if u in before.users {
      CompletedIffLastOtherApproved(cfg, s, evs[..n], u);
    }
  }

  lemma {:induction false} WritesInPrefix(cfg: Config, s: State, evs: seq<Event>, u: UserId, n: nat, k: nat)
    requires k < n <= |evs|
    ensures WritesAt(cfg, s, evs[..n], u, k) <==> WritesAt(cfg, s, evs, u, k)
  {
    hide Handle, WritesStep;
    assert evs[..n][..k] == evs[..k];
  }

  /** A write that is no email verification lies at or before the last such one, and
      what comes after the last one are email verifications. */
  lemma {:induction false} LastOtherIsLast(cfg: Config, s: State, evs: seq<Event>, u: UserId, k: nat)
    requires WritesAt(cfg, s, evs, u, k) && !evs[k].action.ConfirmEmail?
    ensures LastOtherWrite(cfg, s, evs, u).Some? && k <= LastOtherWrite(cfg, s, evs, u).value
    decreases |evs|
  {
    hide Handle, WritesStep;
    var n := |evs| - 1;
    if k < n {
      WritesInPrefix(cfg, s, evs, u, n, k);
      LastOtherIsLast(cfg, s, evs[..n], u, k);
    }
  }

  lemma {:induction false} LastOtherWrites(cfg: Config, s: State, evs: seq<Event>, u: UserId)
    requires LastOtherWrite(cfg, s, evs, u).Some?
    ensures var k := LastOtherWrite(cfg, s, evs, u).value; WritesAt(cfg, s, evs, u, k) && !evs[k].action.ConfirmEmail?
    decreases |evs|
  {
    hide Handle, WritesStep;
    var n := |evs| - 1;
    if !(WritesAt(cfg, s, evs, u, n) && !evs[n].action.ConfirmEmail?) {
      LastOtherWrites(cfg, s, evs[..n], u);
      WritesInPrefix(cfg, s, evs, u, n, LastOtherWrite(cfg, s, evs, u).value);
    }
  }

  lemma {:induction false} LastStepIsLast(cfg: Config, s: State, evs: seq<Event>, u: UserId, k: nat)
    requires WritesAt(cfg, s, evs, u, k)
    ensures LastStepWrite(cfg, s, evs, u).Some? && k <= LastStepWrite(cfg, s, evs, u).value
    ensures WritesAt(cfg, s, evs, u, LastStepWrite(cfg, s, evs, u).value)
    decreases |evs|
  {
    hide Handle, WritesStep;
    var n := |evs| - 1;
    if !WritesAt(cfg, s, evs, u, n) {
      WritesInPrefix(cfg, s, evs, u, n, k);
      LastStepIsLast(cfg, s, evs[..n], u, k);
      WritesInPrefix(cfg, s, evs, u, n, LastStepWrite(cfg, s, evs[..n], u).value);
    }
  }

  /** An approval of `u` at k, a step write after it, and only email verifications after it. */
  ghost predicate VerifiedAfterApproval(cfg: Config, s: State, evs: seq<Event>, u: UserId, k: nat) {
    && WritesAt(cfg, s, evs, u, k) && evs[k].action == Approve(u)
    && (exists m: nat :: k < m && WritesAt(cfg, s, evs, u, m))
    && (forall m: nat :: k < m && WritesAt(cfg, s, evs, u, m) ==> evs[m].action.ConfirmEmail?)
  }

  lemma ApprovalNamesUser(s: State, ev: Event, u: UserId)
    requires WritesStep(s, ev, u) && ev.action.Approve?
    ensures ev.action == Approve(u)
  {
  }

  /** In every reachable state an account made in the run is completed but not approved
      if and only if it was approved, and its step was written since, by email
      verifications only. */
  lemma {:induction false} CompletedNotApprovedIff(cfg: Config, s: State, evs: seq<Event>, u: UserId)
    requires IdsUsed(s) && u !in s.users && u in Run(cfg, s, evs).users
    ensures Run(cfg, s, evs).users[u].isOnboardingCompleted && Run(cfg, s, evs).users[u].step != Approved
            <==> exists k: nat :: VerifiedAfterApproval(cfg, s, evs, u, k)
  {
    hide Handle, Run, WritesStep, WritesAt;
    CompletedIffLastOtherApproved(cfg, s, evs, u);
    ApprovedIffLastWriteApproved(cfg, s, evs, u);
    LastOtherWrites(cfg, s, evs, u);
    var k := LastOtherWrite(cfg, s, evs, u).value;
    LastStepIsLast(cfg, s, evs, u, k);
    var last := LastStepWrite(cfg, s, evs, u).value;
    forall m: nat | WritesAt(cfg, s, evs, u, m) ensures m < |evs| {
      InRun(cfg, s, evs, u, m);
    }
    forall m: nat | k < m < |evs| && WritesAt(cfg, s, evs, u, m) ensures evs[m].action.ConfirmEmail? {
      if !evs[m].action.ConfirmEmail? {
        LastOtherIsLast(cfg, s, evs, u, m);
      }
    }
    if evs[k].action.Approve? && last != k {
      NamesUserAt(cfg, s, evs, u, k);
      assert VerifiedAfterApproval(cfg, s, evs, u, k);
    }
    if j: nat :| VerifiedAfterApproval(cfg, s, evs, u, j) {
      InRun(cfg, s, evs, u, j);
      LastOtherIsLast(cfg, s, evs, u, j);
      var m: nat :| j < m && WritesAt(cfg, s, evs, u, m);
      InRun(cfg, s, evs, u, m);
      LastStepIsLast(cfg, s, evs, u, m);
    }
  }

  lemma {:induction false} InRun(cfg: Config, s: State, evs: seq<Event>, u: UserId, k: nat)
    requires WritesAt(cfg, s, evs, u, k)
    ensures k < |evs|
  {
    hide Handle, WritesStep;
  }

  lemma {:induction false} NamesUserAt(cfg: Config, s: State, evs: seq<Event>, u: UserId, k: nat)
    requires WritesAt(cfg, s, evs, u, k) && k < |evs| && evs[k].action.Approve?
    ensures evs[k].action == Approve(u)
  {
    hide Handle;
    ApprovalNamesUser(Run(cfg, s, evs[..k]), evs[k], u);
  }

  /** A login gives tokens to a member only when verified and approved. */
  lemma TokensNeedApproval(cfg: Config, s: State, ev: Event, u: UserId)
    requires ev.action.Login? || ev.action.SocialLogin?
    requires Handle(cfg, s, ev).reply.Issued? && Handle(cfg, s, ev).reply.user == u
    ensures u in s.users && u in Next(cfg, s, ev).users
    ensures s.users[u].role == SuperAdmin
            || (s.users[u].step == Approved && s.users[u].isOnboardingCompleted && Next(cfg, s, ev).users[u].isEmailVerified)
    ensures !s.users[u].isDeleted && s.users[u].status != Blocked
            && s.users[u].strategy == if ev.action.Login? then Local else ev.action.provider
  {
  }

  /** Every login that gives tokens to an account made in the run follows an approval
      of that account with no later decline, re-registration, profile submission or
      email verification. */
  lemma {:induction false} TokensFollowApproval(cfg: Config, s: State, evs: seq<Event>, ev: Event, u: UserId)
    requires IdsUsed(s) && u !in s.users && (ev.action.Login? || ev.action.SocialLogin?)
    requires Handle(cfg, Run(cfg, s, evs), ev).reply.Issued? && Handle(cfg, Run(cfg, s, evs), ev).reply.user == u
    ensures exists k :: 0 <= k < |evs| && evs[k].action == Approve(u) && WritesStep(Run(cfg, s, evs[..k]), evs[k], u)
                        && forall m :: k < m < |evs| ==> !WritesStep(Run(cfg, s, evs[..m]), evs[m], u)
  {
    hide Handle;
    var at := Run(cfg, s, evs);
    TokensNeedApproval(cfg, at, ev, u);
    ApprovedIffLastWriteApproved(cfg, s, evs, u);
    ApprovalIsOfUser(cfg, s, evs, u);
    var k := LastStepWrite(cfg, s, evs, u).value;
    forall m | k < m < |evs| ensures !WritesStep(Run(cfg, s, evs[..m]), evs[m], u) {
      NothingWritesAfter(cfg, s, evs, u, m);
    }
  }

  // ----- One live account per email ------------------------------------------------------------

  ghost predicate EmailsDistinct(s: State) {
    forall u, v :: u in s.users && v in s.users && u != v && !s.users[u].isDeleted && !s.users[v].isDeleted ==>
                     s.users[u].email != s.users[v].email
  }

  /** Emails and deletion marks stay, except that accounts may be deleted. */
  ghost predicate EmailsStay(s: State, t: State) {
    && t.users.Keys == s.users.Keys
    && forall u :: u in s.users ==> t.users[u].email == s.users[u].email && (s.users[u].isDeleted ==> t.users[u].isDeleted)
  }

  lemma StayingKeepsEmails(s: State, t: State)
    requires EmailsDistinct(s) && EmailsStay(s, t)
    ensures EmailsDistinct(t)
  {
  }

  lemma GateKeepsUsers(cfg: Config, s: State, u: UserId, now: int, otp: string)
    requires u in s.users
    ensures Gate(cfg, s, u, now, otp).Some? ==> Gate(cfg, s, u, now, otp).value.state.users == s.users
    ensures IssuePair(cfg, s, u, now).state.users == s.users && GateAndIssue(cfg, s, u, now, otp).state.users == s.users
  {
  }

  lemma {:induction false} PasswordLoginStays(cfg: Config, s: State, now: int, email: string, password: string, otp: string)
    ensures EmailsStay(s, LoggingIn(cfg, s, now, email, password, otp).state)
  {
    hide Gate, IssuePair, Locked, ByEmail;
    match ByEmail(s, email)
    case None =>
    case Some(u) =>
      GateKeepsUsers(cfg, s, u, now, otp);
      GateKeepsUsers(cfg, SetUser(s, u, Cleared(s.users[u])), u, now, otp);
  }

  lemma RefreshStays(cfg: Config, s: State, now: int, token: Token, genuine: bool)
    ensures EmailsStay(s, Refreshing(cfg, s, now, token, genuine).state)
  {
  }

  lemma ForgettingStays(cfg: Config, s: State, now: int, email: string, otp: string)
    ensures EmailsStay(s, ForgettingPassword(cfg, s, now, email, otp).state)
  {
  }

  lemma ResendingStays(cfg: Config, s: State, now: int, email: string, otp: string)
    ensures EmailsStay(s, ResendingOtp(cfg, s, now, email, otp).state)
  {
  }

  lemma ResetCheckStays(cfg: Config, s: State, now: int, u: UserId, genuine: bool, otp: string)
    ensures EmailsStay(s, VerifyingResetCode(cfg, s, now, u, genuine, otp).state)
  {
  }

  lemma EmailCheckStays(cfg: Config, s: State, now: int, email: string, otp: string)
    ensures EmailsStay(s, ConfirmingEmail(cfg, s, now, email, otp).state)
  {
  }

  lemma ChangeStays(s: State, u: UserId, current: string, isReset: bool, newPassword: string)
    ensures EmailsStay(s, ChangingPassword(s, u, current, isReset, newPassword).state)
  {
  }

  lemma SettingStays(s: State, u: UserId, newPassword: string)
    ensures EmailsStay(s, SettingPassword(s, u, newPassword).state)
  {
  }

  lemma ReviewStays(s: State, u: UserId)
    ensures EmailsStay(s, CompletingProfile(s, u).state) && EmailsStay(s, Approving(s, u).state)
  {
  }

  lemma DeclineStays(s: State, u: UserId, reason: string)
    ensures EmailsStay(s, Declining(s, u, reason).state)
  {
  }

  lemma DeleteStays(s: State, u: UserId)
    ensures EmailsStay(s, Deleting(s, u).state)
  {
  }

  lemma TokensStay(s: State, token: Token, genuine: bool, keys: set<Key>, now: int)
    ensures EmailsStay(s, LoggingOut(s, token, genuine).state) && EmailsStay(s, Swept(s, keys, now))
  {
  }

  lemma {:induction false} OthersStay(cfg: Config, s: State, ev: Event)
    requires !ev.action.Register? && !ev.action.SocialLogin?
    ensures EmailsStay(s, Next(cfg, s, ev))
  {
    hide EmailsStay, LoggingIn, Refreshing, LoggingOut, ForgettingPassword, VerifyingResetCode, ChangingPassword,
         SettingPassword, ResendingOtp, ConfirmingEmail, CompletingProfile, Approving, Declining, Deleting, Swept;
    match ev.action
    case Login(email, password, otp) => PasswordLoginStays(cfg, s, ev.now, email, password, otp);
    case RefreshTokens(token, genuine) => RefreshStays(cfg, s, ev.now, token, genuine);
    case Logout(token, genuine) => TokensStay(s, token, genuine, {}, 0);
    case ForgotPassword(email, otp) => ForgettingStays(cfg, s, ev.now, email, otp);
    case VerifyResetCode(u, genuine, otp) => ResetCheckStays(cfg, s, ev.now, u, genuine, otp);
    case ChangePassword(u, current, isReset, newPassword) => ChangeStays(s, u, current, isReset, newPassword);
    case SetPassword(u, newPassword) => SettingStays(s, u, newPassword);
    case ResendOtp(email, otp) => ResendingStays(cfg, s, ev.now, email, otp);
    case ConfirmEmail(email, otp) => EmailCheckStays(cfg, s, ev.now, email, otp);
    case CompleteProfile(u) => ReviewStays(s, u);
    case Approve(u) => ReviewStays(s, u);
    case Decline(u, reason) => DeclineStays(s, u, reason);
    case Delete(u) => DeleteStays(s, u);
    case Sweep(keys) => TokensStay(s, Otp(""), false, keys, ev.now);
  }

  /** `t` has one more live account, whose email no live account of `s` has. */
  lemma OneMoreEmail(s: State, t: State, u: UserId)
    requires EmailsDistinct(s) && u in t.users && t.users.Keys == s.users.Keys + {u}
    requires forall v :: v in s.users && v != u ==> t.users[v] == s.users[v]
    requires forall v :: v in s.users && v != u && !s.users[v].isDeleted ==> s.users[v].email != t.users[u].email
    ensures EmailsDistinct(t)
  {
  }

  lemma {:induction false} RegisterKeepsEmails(cfg: Config, s: State, ev: Event)
    requires IdsUsed(s) && EmailsDistinct(s) && ev.action.Register?
    ensures EmailsDistinct(Next(cfg, s, ev))
  {
    var t := Next(cfg, s, ev);
    var email := ev.action.email;
    var found := FindAny(s.users, Lower(email), s.nextUser);
    if ByEmail(s, email).None? {
      OneMoreEmail(s, t, if found.Some? && s.users[found.value].isDeleted then found.value else s.nextUser);
    }
  }

  lemma {:induction false} SocialKeepsEmails(cfg: Config, s: State, now: int, provider: Strategy, email: string,
                                             verified: Option<bool>, generated: string, otp: string)
    requires IdsUsed(s) && EmailsDistinct(s)
    ensures EmailsDistinct(SocialLoggingIn(cfg, s, now, provider, email, verified, generated, otp).state)
  {
    hide Gate, GateAndIssue, IssuePair;
    match ByEmail(s, email)
    case None =>
      var t := AddUser(s, NewAccount(email, generated, provider, verified.None? || verified.value, "", Verified));
      GateKeepsUsers(cfg, t, s.nextUser, now, otp);
      OneMoreEmail(s, t, s.nextUser);
    case Some(u) =>
      var a := s.users[u];
      var t := SetUser(s, u, a.(isEmailVerified := a.isEmailVerified || verified == Some(true)));
      GateKeepsUsers(cfg, t, u, now, otp);
      StayingKeepsEmails(s, t);
  }

  lemma SocialStep(cfg: Config, s: State, ev: Event)
    requires ev.action.SocialLogin?
    ensures var a := ev.action;
            Next(cfg, s, ev) == SocialLoggingIn(cfg, s, ev.now, a.provider, a.email, a.emailVerified, a.generated, a.otp).state
  {
  }

  /** In every reachable state no two live accounts share an email. */
  lemma {:induction false} RunKeepsEmails(cfg: Config, s: State, evs: seq<Event>)
    requires IdsUsed(s) && EmailsDistinct(s)
    ensures EmailsDistinct(Run(cfg, s, evs))
    decreases |evs|
  {
    hide Handle;
    if evs != [] {
      var n := |evs| - 1;
      var before := Run(cfg, s, evs[..n]);
      RunKeepsEmails(cfg, s, evs[..n]);
      RunKeepsIds(cfg, s, evs[..n]);
      if evs[n].action.Register? {
        RegisterKeepsEmails(cfg, before, evs[n]);
      } else if evs[n].action.SocialLogin? {
        var a := evs[n].action;
        SocialKeepsEmails(cfg, before, evs[n].now, a.provider, a.email, a.emailVerified, a.generated, a.otp);
        SocialStep(cfg, before, evs[n]);
      } else {
        OthersStay(cfg, before, evs[n]);
        StayingKeepsEmails(before, Next(cfg, before, evs[n]));
      }
    }
  }
}
