/** One session from registration to password reset, step by step: the laws about
    runs speak of runs that exist. */
module Sessions {
  import opened Common
  import opened Slugs
  import opened Accounts
  import opened Rotation

  const EMPTY := State(map[], map[], 0, 0)

  function Session(email: string, password: string, otp: string): seq<Event> {
    [Event(0, Register(email, password, "id.pdf", otp)), Event(1, ConfirmEmail(email, otp)), Event(2, Approve(0)),
     Event(3, Login(email, password, otp)), Event(4, SetPassword(0, password)),
     Event(5, RefreshTokens(Jwt(Refresh, 0, 0), true))]
  }

  function Applicant(email: string, password: string): Account {
    NewAccount(email, password, Local, false, "id.pdf", Registered)
  }

  function AfterRegister(cfg: Config, email: string, password: string, otp: string): State {
    State(map[0 := Applicant(email, password)], map[OtpKey(0, VerifyEmail, otp) := Row(cfg.otpTtl, false)], 1, 0)
  }

  function AfterConfirm(cfg: Config, email: string, password: string, otp: string): State {
    State(map[0 := Applicant(email, password).(isEmailVerified := true, step := UnderReview)],
          map[OtpKey(0, VerifyEmail, otp) := Row(cfg.otpTtl, true)], 1, 0)
  }

  function AfterApproval(cfg: Config, email: string, password: string, otp: string): State {
    State(map[0 := Applicant(email, password).(isEmailVerified := true, step := Approved, isOnboardingCompleted := true)],
          map[OtpKey(0, VerifyEmail, otp) := Row(cfg.otpTtl, true)], 1, 0)
  }

  lemma Registers(cfg: Config, email: string, password: string, otp: string)
    ensures Registering(cfg, EMPTY, 0, email, password, "id.pdf", otp)
            == Outcome(AfterRegister(cfg, email, password, otp), Done)
  {
  }

  lemma {:induction false} Confirms(cfg: Config, email: string, password: string, otp: string)
    requires cfg.otpTtl > 1
    ensures ConfirmingEmail(cfg, AfterRegister(cfg, email, password, otp), 1, email, otp)
            == Outcome(AfterConfirm(cfg, email, password, otp), Done)
  {
    var s := AfterRegister(cfg, email, password, otp);
    assert FindLive(s.users, Lower(email), 1) == Some(0);
  }

  lemma IsApproved(cfg: Config, email: string, password: string, otp: string)
    ensures Approving(AfterConfirm(cfg, email, password, otp), 0)
            == Outcome(AfterApproval(cfg, email, password, otp), Done)
  {
  }

  lemma {:induction false} LogsIn(cfg: Config, email: string, password: string, otp: string)
    requires email != "" && password != ""
    ensures LoggingIn(cfg, AfterApproval(cfg, email, password, otp), 3, email, password, otp).reply
            == Issued(0, Jwt(Refresh, 0, 0))
    ensures Live(LoggingIn(cfg, AfterApproval(cfg, email, password, otp), 3, email, password, otp).state, 0)
  {
    var s := AfterApproval(cfg, email, password, otp);
    assert FindLive(s.users, Lower(email), 1) == Some(0);
  }

  lemma {:induction false} FirstThree(cfg: Config, email: string, password: string, otp: string)
    requires cfg.otpTtl > 1
    ensures Run(cfg, EMPTY, Session(email, password, otp)[..3]) == AfterApproval(cfg, email, password, otp)
  {
    var evs := Session(email, password, otp);
    hide Registering, ConfirmingEmail, Approving;
    RunStep(cfg, EMPTY, evs, 0);
    RunStep(cfg, EMPTY, evs, 1);
    RunStep(cfg, EMPTY, evs, 2);
    Registers(cfg, email, password, otp);
    Confirms(cfg, email, password, otp);
    IsApproved(cfg, email, password, otp);
    assert evs[..0] == [];
  }

  lemma {:induction false} LoginStep(cfg: Config, email: string, password: string, otp: string)
    requires cfg.otpTtl > 1 && email != "" && password != ""
    ensures var evs := Session(email, password, otp);
            Handle(cfg, Run(cfg, EMPTY, evs[..3]), evs[3]).reply == Issued(0, Jwt(Refresh, 0, 0))
            && Live(Run(cfg, EMPTY, evs[..4]), 0)
  {
    hide LoggingIn;
    FirstThree(cfg, email, password, otp);
    LogsIn(cfg, email, password, otp);
    RunStep(cfg, EMPTY, Session(email, password, otp), 3);
  }

  lemma RefreshAnswers(cfg: Config, s: State, now: int, token: Token, genuine: bool)
    ensures !Refreshing(cfg, s, now, token, genuine).reply.Done?
  {
  }

  /** A member registers, verifies, is approved and logs in; once the password is
      reset, the token of that login is refused. */
  lemma {:induction false} SessionEndsWithReset(cfg: Config, email: string, password: string, otp: string)
    requires cfg.otpTtl > 1 && email != "" && password != ""
    ensures var evs := Session(email, password, otp);
            && Handle(cfg, Run(cfg, EMPTY, evs[..3]), evs[3]).reply == Issued(0, Jwt(Refresh, 0, 0))
            && Handle(cfg, Run(cfg, EMPTY, evs[..4]), evs[4]).reply == Done
            && Handle(cfg, Run(cfg, EMPTY, evs[..5]), evs[5]).reply.Refused?
  {
    hide Run, Refreshing;
    var evs := Session(email, password, otp);
    LoginStep(cfg, email, password, otp);
    NoEarlierTokenAfterReset(cfg, EMPTY, evs, 3, 4, 5, 0, Jwt(Refresh, 0, 0));
    RefreshAnswers(cfg, Run(cfg, EMPTY, evs[..5]), 5, Jwt(Refresh, 0, 0), true);
  }

  // ----- Verified after approval -----------------------------------------------------------------

  function EarlyApproval(email: string, password: string, otp: string): seq<Event> {
    [Event(0, Register(email, password, "id.pdf", otp)), Event(1, Approve(0)), Event(2, ConfirmEmail(email, otp))]
  }

  function AfterEarlyApproval(cfg: Config, email: string, password: string, otp: string): State {
    State(map[0 := Applicant(email, password).(step := Approved, isOnboardingCompleted := true)],
          map[OtpKey(0, VerifyEmail, otp) := Row(cfg.otpTtl, false)], 1, 0)
  }

  lemma ApprovedEarly(cfg: Config, email: string, password: string, otp: string)
    ensures Approving(AfterRegister(cfg, email, password, otp), 0)
            == Outcome(AfterEarlyApproval(cfg, email, password, otp), Done)
  {
  }

  lemma {:induction false} ConfirmsLate(cfg: Config, email: string, password: string, otp: string)
    requires cfg.otpTtl > 2
    ensures var t := ConfirmingEmail(cfg, AfterEarlyApproval(cfg, email, password, otp), 2, email, otp).state;
            0 in t.users && t.users[0].isOnboardingCompleted && t.users[0].step == UnderReview
  {
    var s := AfterEarlyApproval(cfg, email, password, otp);
    assert FindLive(s.users, Lower(email), 1) == Some(0);
  }

  /** A member approved before verifying the email ends under review and completed. */
  lemma {:induction false} VerifyingUndoesApproval(cfg: Config, email: string, password: string, otp: string)
    requires cfg.otpTtl > 2
    ensures var t := Run(cfg, EMPTY, EarlyApproval(email, password, otp));
            0 in t.users && t.users[0].isOnboardingCompleted && t.users[0].step == UnderReview
  {
    hide Registering, Approving, ConfirmingEmail;
    var evs := EarlyApproval(email, password, otp);
    Registers(cfg, email, password, otp);
    ApprovedEarly(cfg, email, password, otp);
    ConfirmsLate(cfg, email, password, otp);
    RunStep(cfg, EMPTY, evs, 0);
    RunStep(cfg, EMPTY, evs, 1);
    RunStep(cfg, EMPTY, evs, 2);
    assert evs[..0] == [] && evs[..3] == evs;
  }
}
