/** The failed-attempt counter: what counts, what resets it, and how many failures
    can be counted in any span of time. */
module Lockout {
  import opened Common
  import opened Slugs
  import opened Accounts

  /** A failure counted against `u`: a wrong password, a wrong code, or a resend. */
  predicate Counted(s: State, ev: Event, u: UserId) {
    && u in s.users && !Locked(s.users[u], ev.now)
    && match ev.action
       case Login(email, password, _) =>
         email != "" && password != "" && ByEmail(s, email) == Some(u)
         && s.users[u].password != "" && s.users[u].password != password
       case VerifyResetCode(sub, genuine, otp) =>
         sub == u && genuine && !s.users[u].isDeleted && !IsActive(s, OtpKey(u, ResetPassword, otp), ev.now)
       case ConfirmEmail(email, otp) =>
         ByEmail(s, email) == Some(u) && !s.users[u].isEmailVerified && !IsActive(s, OtpKey(u, VerifyEmail, otp), ev.now)
       case ResendOtp(email, _) => ByEmail(s, email) == Some(u) && !s.users[u].isEmailVerified
       case _ => false
  }

  /** A step that sets the counter of `u` back: a login that gets through, a
      forgotten password, or registration of the deleted account. */
  predicate ResetsCounter(cfg: Config, s: State, ev: Event, u: UserId) {
    match ev.action
    case Login(email, _, _) => ByEmail(s, email) == Some(u) && Handle(cfg, s, ev).reply.Issued?
    case ForgotPassword(email, _) => ByEmail(s, email) == Some(u) && !Locked(s.users[u], ev.now)
    case Register(email, _, _, _) =>
      FindAny(s.users, Lower(email), s.nextUser) == Some(u) && s.users[u].isDeleted && ByEmail(s, email).None?
    case _ => false
  }

  /** The counter and the lock of one account. */
  datatype Guard = Guard(attempts: nat, lockUntil: Option<int>)

  function GuardOf(s: State, u: UserId): Guard
    requires u in s.users
  {
    Guard(s.users[u].failedAttempts, s.users[u].lockUntil)
  }

  ghost predicate IdsUsed(s: State) {
    forall u :: u in s.users ==> u < s.nextUser
  }

  ghost predicate GuardMoves(cfg: Config, s: State, ev: Event, t: State, u: UserId)
    requires u in s.users
  {
    && u in t.users
    && GuardOf(t, u) ==
       if ResetsCounter(cfg, s, ev, u) then Guard(0, None)
       else if Counted(s, ev, u) then
         Guard(s.users[u].failedAttempts + 1,
               if s.users[u].failedAttempts + 1 >= cfg.maxFailedAttempts then Some(ev.now + cfg.lockDuration)
               else s.users[u].lockUntil)
       else GuardOf(s, u)
  }

  lemma LoginMoves(cfg: Config, s: State, ev: Event, u: UserId)
    requires IdsUsed(s) && u in s.users && ev.action.Login?
    ensures GuardMoves(cfg, s, ev, Next(cfg, s, ev), u)
  {
  }

  lemma SocialMoves(cfg: Config, s: State, ev: Event, u: UserId)
    requires IdsUsed(s) && u in s.users && ev.action.SocialLogin?
    ensures GuardMoves(cfg, s, ev, Next(cfg, s, ev), u)
  {
  }

  lemma CodesMove(cfg: Config, s: State, ev: Event, u: UserId)
    requires IdsUsed(s) && u in s.users
    requires ev.action.VerifyResetCode? || ev.action.ConfirmEmail? || ev.action.ResendOtp? || ev.action.ForgotPassword?
    ensures GuardMoves(cfg, s, ev, Next(cfg, s, ev), u)
  {
  }

  lemma RegisterMoves(cfg: Config, s: State, ev: Event, u: UserId)
    requires IdsUsed(s) && u in s.users && ev.action.Register?
    ensures GuardMoves(cfg, s, ev, Next(cfg, s, ev), u)
  {
  }

  /** The counter and lock of every account change exactly as the two predicates say. */
  lemma {:induction false} NextMovesGuard(cfg: Config, s: State, ev: Event, u: UserId)
    requires IdsUsed(s) && u in s.users
    ensures GuardMoves(cfg, s, ev, Next(cfg, s, ev), u)
  {
    if ev.action.Login? {
      LoginMoves(cfg, s, ev, u);
    } else if ev.action.SocialLogin? {
      SocialMoves(cfg, s, ev, u);
    } else if ev.action.VerifyResetCode? || ev.action.ConfirmEmail? || ev.action.ResendOtp? || ev.action.ForgotPassword? {
      CodesMove(cfg, s, ev, u);
    } else if ev.action.Register? {
      RegisterMoves(cfg, s, ev, u);
    }
  }

  lemma RegisterKeepsIds(cfg: Config, s: State, ev: Event)
    requires IdsUsed(s) && (ev.action.Register? || ev.action.SocialLogin?)
    ensures IdsUsed(Next(cfg, s, ev)) && s.users.Keys <= Next(cfg, s, ev).users.Keys
  {
  }

  lemma LoginKeepsIds(cfg: Config, s: State, ev: Event)
    requires ev.action.Login? || ev.action.RefreshTokens? || ev.action.ResendOtp? || ev.action.ForgotPassword?
    ensures Next(cfg, s, ev).users.Keys == s.users.Keys && Next(cfg, s, ev).nextUser == s.nextUser
  {
  }

  lemma {:induction false} NextKeepsIds(cfg: Config, s: State, ev: Event)
    requires IdsUsed(s)
    ensures IdsUsed(Next(cfg, s, ev)) && s.users.Keys <= Next(cfg, s, ev).users.Keys
  {
    if ev.action.Register? || ev.action.SocialLogin? {
      RegisterKeepsIds(cfg, s, ev);
    } else if ev.action.Login? || ev.action.RefreshTokens? || ev.action.ResendOtp? || ev.action.ForgotPassword? {
      LoginKeepsIds(cfg, s, ev);
    } else {
      assert Next(cfg, s, ev).users.Keys == s.users.Keys && Next(cfg, s, ev).nextUser == s.nextUser;
    }
  }

  lemma {:induction false} RunKeepsIds(cfg: Config, s: State, evs: seq<Event>)
    requires IdsUsed(s)
    ensures IdsUsed(Run(cfg, s, evs)) && s.users.Keys <= Run(cfg, s, evs).users.Keys
    decreases |evs|
  {
    if evs != [] {
      RunKeepsIds(cfg, s, evs[..|evs| - 1]);
      NextKeepsIds(cfg, Run(cfg, s, evs[..|evs| - 1]), evs[|evs| - 1]);
    }
  }

  /** While an account is locked, nothing can be tried against it. */
  lemma LockedMeansInert(cfg: Config, s: State, ev: Event, u: UserId)
    requires Live(s, u) && Locked(s.users[u], ev.now)
    requires match ev.action
             case Login(email, _, _) => ByEmail(s, email) == Some(u)
             case ForgotPassword(email, _) => ByEmail(s, email) == Some(u)
             case ConfirmEmail(email, _) => ByEmail(s, email) == Some(u)
             case ResendOtp(email, _) => ByEmail(s, email) == Some(u)
             case VerifyResetCode(sub, _, _) => sub == u
             case _ => false
    ensures Next(cfg, s, ev) == s && Handle(cfg, s, ev).reply.Refused?
  {
  }

  // ----- The bound ---------------------------------------------------------------------------

  ghost predicate NoReset(cfg: Config, s: State, evs: seq<Event>, u: UserId)
    decreases |evs|
  {
    evs != [] ==>
      && NoReset(cfg, s, evs[..|evs| - 1], u)
      && !ResetsCounter(cfg, Run(cfg, s, evs[..|evs| - 1]), evs[|evs| - 1], u)
  }

  /** How many failures the run counts against `u`. */
  function Failures(cfg: Config, s: State, evs: seq<Event>, u: UserId): nat
    decreases |evs|
  {
    if evs == [] then 0
    else
      var n := |evs| - 1;
      Failures(cfg, s, evs[..n], u) + if Counted(Run(cfg, s, evs[..n]), evs[n], u) then 1 else 0
  }

  ghost predicate InOrder(evs: seq<Event>) {
    forall i, j :: 0 <= i < j < |evs| ==> evs[i].now <= evs[j].now
  }

  /** k lock durations. */
  function Durations(lock: Positive, k: nat): nat {
    if k == 0 then 0 else lock + Durations(lock, k - 1)
  }

  /** The counter counts; once the threshold is passed each failure pushes the
      lock a whole duration further. */
  ghost predicate LockGrows(cfg: Config, before: Guard, after: Guard, failures: nat, start: int) {
    && after.attempts == before.attempts + failures
    && (failures >= 1 && after.attempts >= cfg.maxFailedAttempts ==>
          && after.lockUntil.Some?
          && after.lockUntil.value >= start + Durations(cfg.lockDuration, Over(cfg, failures)))
  }

  /** How many of the failures locked the account, at least. */
  function Over(cfg: Config, failures: nat): nat {
    if failures < cfg.maxFailedAttempts then 1 else failures - cfg.maxFailedAttempts + 1
  }

  function Bumped(cfg: Config, g: Guard, now: int): Guard {
    Guard(g.attempts + 1, if g.attempts + 1 >= cfg.maxFailedAttempts then Some(now + cfg.lockDuration) else g.lockUntil)
  }

  lemma {:induction false} OneDuration(lock: Positive)
    ensures Durations(lock, 1) == lock
  {
    assert Durations(lock, 0) == 0;
  }

  lemma {:induction false} LockGrowsOnce(cfg: Config, before: Guard, mid: Guard, failures: nat, start: int, now: int)
    requires LockGrows(cfg, before, mid, failures, start) && now >= start
    requires mid.lockUntil.Some? ==> mid.lockUntil.value <= now
    ensures LockGrows(cfg, before, Bumped(cfg, mid, now), failures + 1, start)
    ensures failures >= cfg.maxFailedAttempts ==> now >= start + Durations(cfg.lockDuration, failures + 1 - cfg.maxFailedAttempts)
  {
    OneDuration(cfg.lockDuration);
  }

  ghost predicate LateEnough(cfg: Config, failures: nat, start: int, last: int) {
    failures > cfg.maxFailedAttempts ==> last >= start + Durations(cfg.lockDuration, failures - cfg.maxFailedAttempts)
  }

  function One(b: bool): nat {
    if b then 1 else 0
  }

  /** What is known after a window that began at `start` and has reached `last`. */
  ghost predicate Window(cfg: Config, first: Guard, now: Guard, failures: nat, start: int, last: int) {
    start <= last && LockGrows(cfg, first, now, failures, start) && LateEnough(cfg, failures, start, last)
  }

  lemma {:induction false} WindowStep(cfg: Config, first: Guard, s: State, ev: Event, u: UserId, failures: nat, start: int, last: int)
    requires IdsUsed(s) && u in s.users && !ResetsCounter(cfg, s, ev, u) && last <= ev.now
    requires Window(cfg, first, GuardOf(s, u), failures, start, last)
    ensures u in Next(cfg, s, ev).users
    ensures Window(cfg, first, GuardOf(Next(cfg, s, ev), u), failures + One(Counted(s, ev, u)), start, ev.now)
  {
    NextMovesGuard(cfg, s, ev, u);
    if Counted(s, ev, u) {
      LockGrowsOnce(cfg, first, GuardOf(s, u), failures, start, ev.now);
    }
  }

  function LastTime(start: int, evs: seq<Event>): int {
    if evs == [] then start else evs[|evs| - 1].now
  }

  lemma {:induction false} WindowOverRun(cfg: Config, s: State, evs: seq<Event>, u: UserId, start: int)
    requires IdsUsed(s) && u in s.users && NoReset(cfg, s, evs, u) && InOrder(evs) && (evs != [] ==> start <= evs[0].now)
    ensures u in Run(cfg, s, evs).users
    ensures Window(cfg, GuardOf(s, u), GuardOf(Run(cfg, s, evs), u), Failures(cfg, s, evs, u), start, LastTime(start, evs))
    decreases |evs|
  {
    if evs != [] {
      var n := |evs| - 1;
      WindowOverRun(cfg, s, evs[..n], u, start);
      assert LastTime(start, evs[..n]) <= evs[n].now;
      RunKeepsIds(cfg, s, evs[..n]);
      WindowStep(cfg, GuardOf(s, u), Run(cfg, s, evs[..n]), evs[n], u, Failures(cfg, s, evs[..n], u), start, LastTime(start, evs[..n]));
    }
  }

  lemma {:induction false} DurationsMultiply(lock: Positive, k: nat)
    ensures Durations(lock, k) == k * lock
  {
    if k > 0 {
      DurationsMultiply(lock, k - 1);
    }
  }

  lemma {:induction false} Quotient(k: nat, lock: Positive, span: int)
    requires k * lock <= span
    ensures k <= span / lock
  {
    var q, rest := span / lock, span % lock;
    assert span == q * lock + rest;
    OneMore(q, lock);
    if k > q {
      Multiples(q + 1, k, lock);
      assert false;
    }
  }

  lemma OneMore(q: int, lock: Positive)
    ensures (q + 1) * lock == q * lock + lock
  {
  }

  lemma Multiples(a: int, b: int, lock: Positive)
    requires a <= b
    ensures a * lock <= b * lock
  {
  }

  lemma {:induction false} ManyDurations(lock: Positive, k: nat, span: int)
    requires Durations(lock, k) <= span
    ensures k <= span / lock
  {
    DurationsMultiply(lock, k);
    Quotient(k, lock, span);
  }

  /** The number of failures that a span of time allows. */
  function Allowed(cfg: Config, span: nat): int {
    cfg.maxFailedAttempts + span / cfg.lockDuration
  }

  lemma {:induction false} WindowIsBounded(cfg: Config, failures: nat, start: int, last: int)
    requires start <= last && LateEnough(cfg, failures, start, last)
    ensures failures <= Allowed(cfg, last - start)
  {
    if failures > cfg.maxFailedAttempts {
      ManyDurations(cfg.lockDuration, failures - cfg.maxFailedAttempts, last - start);
    } else {
      Quotient(0, cfg.lockDuration, last - start);
    }
  }

  /** Between two resets, in any span of time T, at most
      maxFailedAttempts + T / lockDuration failures are counted. */
  lemma {:induction false} FailuresAreBounded(cfg: Config, s: State, evs: seq<Event>, u: UserId, start: int, last: int)
    requires IdsUsed(s) && u in s.users && NoReset(cfg, s, evs, u) && InOrder(evs)
    requires start <= last && (evs != [] ==> start <= evs[0].now && evs[|evs| - 1].now <= last)
    ensures Failures(cfg, s, evs, u) <= Allowed(cfg, last - start)
  {
    WindowOverRun(cfg, s, evs, u, start);
    var failures := Failures(cfg, s, evs, u);
    LaterWindow(cfg, failures, start, LastTime(start, evs), last);
  }

  lemma {:induction false} LaterWindow(cfg: Config, failures: nat, start: int, mid: int, last: int)
    requires start <= mid <= last && LateEnough(cfg, failures, start, mid)
    ensures failures <= Allowed(cfg, last - start)
  {
    WindowIsBounded(cfg, failures, start, last);
  }
}
