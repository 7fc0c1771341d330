/** Stored tokens over whole runs: refresh rotation, revocation and reset codes. */
module Rotation {
  import opened Common
  import opened Slugs
  import opened Accounts

  /** A row of the refresh type stores a refresh token of its own user, signed before now. */
  ghost predicate TokensOk(s: State) {
    forall key :: key in s.tokens && key.tokenType == RefreshToken ==>
      exists jti :: 0 <= jti < s.nextJti && key == RefreshKey(key.user, jti)
  }

  function KeyOf(token: Token): Key
    requires token.Jwt?
  {
    Key(token.sub, RefreshToken, Sha256(token))
  }

  /** No refresh row is added or made active again. */
  ghost predicate Shrinks(s: State, t: State) {
    && t.nextJti == s.nextJti
    && forall key :: key in t.tokens && key.tokenType == RefreshToken ==>
         key in s.tokens && (Unrevoked(t, key) ==> Unrevoked(s, key))
  }

  /** One refresh row is added, with the next `jti`; otherwise as `Shrinks`. */
  ghost predicate Adds(s: State, t: State, u: UserId) {
    && t.nextJti == s.nextJti + 1
    && forall key :: key in t.tokens && key.tokenType == RefreshToken && key != RefreshKey(u, s.nextJti) ==>
         key in s.tokens && (Unrevoked(t, key) ==> Unrevoked(s, key))
  }

  /** Every step shrinks the refresh rows, or adds the one it answers with. */
  ghost predicate Moves(s: State, o: Outcome) {
    match o.reply
    case Issued(u, token) => token == Jwt(Refresh, u, s.nextJti) && Adds(s, o.state, u) && Unrevoked(o.state, KeyOf(token))
    case _ => Shrinks(s, o.state)
  }

  lemma OtpShrinks(s: State, t: State, key: Key, expiresAt: int, reply: Reply)
    requires Shrinks(s, t) && key.tokenType != RefreshToken && !reply.Issued?
    ensures Moves(s, WithOtp(t, key, expiresAt, reply))
  {
  }

  lemma IssueAdds(cfg: Config, s: State, t: State, u: UserId, now: int)
    requires Shrinks(s, t)
    ensures Moves(s, IssuePair(cfg, t, u, now))
  {
  }

  lemma {:induction false} GateMoves(cfg: Config, s: State, t: State, u: UserId, now: int, otp: string)
    requires Shrinks(s, t) && u in t.users
    ensures Gate(cfg, t, u, now, otp).Some? ==> Moves(s, Gate(cfg, t, u, now, otp).value)
    ensures Moves(s, GateAndIssue(cfg, t, u, now, otp))
  {
    OtpShrinks(s, t, OtpKey(u, VerifyEmail, otp), now + cfg.otpTtl, Refused(EmailNotVerified));
    IssueAdds(cfg, s, t, u, now);
  }

  lemma {:induction false} LoginMoves(cfg: Config, s: State, now: int, email: string, password: string, otp: string)
    ensures Moves(s, LoggingIn(cfg, s, now, email, password, otp))
  {
    hide Gate, IssuePair, Locked, ByEmail;
    match ByEmail(s, email)
    case None =>
    case Some(u) =>
      GateMoves(cfg, s, s, u, now, otp);
      IssueAdds(cfg, s, SetUser(s, u, Cleared(s.users[u])), u, now);
  }

  lemma {:induction false} SocialMoves(cfg: Config, s: State, now: int, provider: Strategy, email: string,
                                       emailVerified: Option<bool>, generated: string, otp: string)
    ensures Moves(s, SocialLoggingIn(cfg, s, now, provider, email, emailVerified, generated, otp))
  {
    match ByEmail(s, email)
    case None =>
      var verified := emailVerified.None? || emailVerified.value;
      GateMoves(cfg, s, AddUser(s, NewAccount(email, generated, provider, verified, "", Verified)), s.nextUser, now, otp);
    case Some(u) =>
      var a := s.users[u];
      GateMoves(cfg, s, SetUser(s, u, a.(isEmailVerified := a.isEmailVerified || emailVerified == Some(true))), u, now, otp);
  }

  lemma {:induction false} RegisterMoves(cfg: Config, s: State, now: int, email: string, password: string, document: string, otp: string)
    ensures Moves(s, Registering(cfg, s, now, email, password, document, otp))
  {
    var found := FindAny(s.users, Lower(email), s.nextUser);
    if found.Some? && s.users[found.value].isDeleted {
      var u := found.value;
      var s1 := SetUser(s, u, Revived(s.users[u], password, document));
      OtpShrinks(s, RevokedAll(RevokedAll(s1, u, RefreshToken), u, VerifyEmail), OtpKey(u, VerifyEmail, otp), now + cfg.otpTtl, Done);
    } else {
      var s1 := AddUser(s, NewAccount(email, password, Local, false, document, Registered));
      OtpShrinks(s, s1, OtpKey(s.nextUser, VerifyEmail, otp), now + cfg.otpTtl, Done);
    }
  }

  lemma {:induction false} RefreshMoves(cfg: Config, s: State, now: int, token: Token, genuine: bool)
    ensures Moves(s, Refreshing(cfg, s, now, token, genuine))
  {
    if token.Jwt? {
      IssueAdds(cfg, s, Revoked(s, KeyOf(token)), token.sub, now);
    }
  }

  lemma {:induction false} CodesMove(cfg: Config, s: State, ev: Event)
    requires ev.action.ForgotPassword? || ev.action.ResendOtp?
    ensures Moves(s, Handle(cfg, s, ev))
  {
    match ByEmail(s, ev.action.email)
    case None =>
    case Some(u) =>
      var a := s.users[u];
      OtpShrinks(s, RevokedAll(SetUser(s, u, Cleared(a)), u, ResetPassword), OtpKey(u, ResetPassword, ev.action.otp),
                 ev.now + cfg.otpTtl, Done);
      OtpShrinks(s, SetUser(s, u, Failed(cfg, a, ev.now)), OtpKey(u, VerifyEmail, ev.action.otp), ev.now + cfg.otpTtl, Done);
  }

  lemma {:induction false} NextMoves(cfg: Config, s: State, ev: Event)
    ensures Moves(s, Handle(cfg, s, ev))
  {
    hide Registering, LoggingIn, SocialLoggingIn, Refreshing, ForgettingPassword, ResendingOtp;
    match ev.action
    case Register(email, password, document, otp) => RegisterMoves(cfg, s, ev.now, email, password, document, otp);
    case Login(email, password, otp) => LoginMoves(cfg, s, ev.now, email, password, otp);
    case SocialLogin(provider, email, verified, generated, otp) =>
      SocialMoves(cfg, s, ev.now, provider, email, verified, generated, otp);
    case RefreshTokens(token, genuine) => RefreshMoves(cfg, s, ev.now, token, genuine);
    case ForgotPassword(_, _) => CodesMove(cfg, s, ev);
    case ResendOtp(_, _) => CodesMove(cfg, s, ev);
    case _ =>
  }

  lemma {:induction false} NextKeepsTokensOk(cfg: Config, s: State, ev: Event)
    requires TokensOk(s)
    ensures TokensOk(Next(cfg, s, ev)) && s.nextJti <= Next(cfg, s, ev).nextJti
  {
    NextMoves(cfg, s, ev);
    var t := Next(cfg, s, ev);
    forall key | key in t.tokens && key.tokenType == RefreshToken
      ensures exists jti :: 0 <= jti < t.nextJti && key == RefreshKey(key.user, jti)
    {
      if key in s.tokens {
        var jti :| 0 <= jti < s.nextJti && key == RefreshKey(key.user, jti);
        assert jti < t.nextJti;
      } else {
        assert key == RefreshKey(key.user, s.nextJti);
      }
    }
  }

  lemma {:induction false} RunKeepsTokensOk(cfg: Config, s: State, evs: seq<Event>)
    requires TokensOk(s)
    ensures TokensOk(Run(cfg, s, evs)) && s.nextJti <= Run(cfg, s, evs).nextJti
    decreases |evs|
  {
    if evs != [] {
      RunKeepsTokensOk(cfg, s, evs[..|evs| - 1]);
      NextKeepsTokensOk(cfg, Run(cfg, s, evs[..|evs| - 1]), evs[|evs| - 1]);
    }
  }

  // ----- Spent tokens stay spent ---------------------------------------------------------------

  /** A refresh token signed already, whose row is blacklisted or gone. */
  ghost predicate Dead(s: State, token: Token) {
    token.Jwt? && token.jwtType == Refresh && token.jti < s.nextJti && !Unrevoked(s, KeyOf(token))
  }

  ghost predicate Accepts(cfg: Config, s: State, ev: Event, token: Token) {
    ev.action.RefreshTokens? && ev.action.token == token && Handle(cfg, s, ev).reply.Issued?
  }

  lemma {:induction false} NextKeepsDead(cfg: Config, s: State, ev: Event, token: Token)
    requires Dead(s, token)
    ensures Dead(Next(cfg, s, ev), token)
  {
    NextMoves(cfg, s, ev);
  }

  lemma {:induction false} RunStep(cfg: Config, s: State, evs: seq<Event>, i: nat)
    requires i < |evs|
    ensures Run(cfg, s, evs[..i + 1]) == Next(cfg, Run(cfg, s, evs[..i]), evs[i])
  {
    assert evs[..i + 1][..i] == evs[..i];
  }

  lemma {:induction false} RunSplit(cfg: Config, s: State, evs: seq<Event>, i: nat, j: nat)
    requires i <= j <= |evs|
    ensures Run(cfg, s, evs[..j]) == Run(cfg, Run(cfg, s, evs[..i]), evs[i..j])
    decreases j
  {
    hide Handle;
    if i < j {
      RunSplit(cfg, s, evs, i, j - 1);
      assert evs[..j][..j - 1] == evs[..j - 1] && evs[i..j][..j - 1 - i] == evs[i..j - 1];
    }
  }

  lemma {:induction false} RunKeepsDead(cfg: Config, s: State, evs: seq<Event>, token: Token)
    requires Dead(s, token)
    ensures Dead(Run(cfg, s, evs), token)
    decreases |evs|
  {
    if evs != [] {
      RunKeepsDead(cfg, s, evs[..|evs| - 1], token);
      NextKeepsDead(cfg, Run(cfg, s, evs[..|evs| - 1]), evs[|evs| - 1], token);
    }
  }

  /** A refresh token once blacklisted never becomes active again. */
  lemma {:induction false} DeadStaysDead(cfg: Config, s: State, evs: seq<Event>, i: nat, j: nat, token: Token)
    requires i <= j <= |evs| && Dead(Run(cfg, s, evs[..i]), token)
    ensures Dead(Run(cfg, s, evs[..j]), token)
  {
    RunSplit(cfg, s, evs, i, j);
    RunKeepsDead(cfg, Run(cfg, s, evs[..i]), evs[i..j], token);
  }

  lemma DeadIsRefused(cfg: Config, s: State, ev: Event, token: Token)
    requires Dead(s, token)
    ensures !Accepts(cfg, s, ev, token)
  {
  }

  lemma {:induction false} AcceptingSpends(cfg: Config, s: State, ev: Event, token: Token)
    requires TokensOk(s) && Accepts(cfg, s, ev, token)
    ensures Dead(Next(cfg, s, ev), token) && Unrevoked(s, KeyOf(token)) && token.jti < s.nextJti
  {
    var key := KeyOf(token);
    var jti :| 0 <= jti < s.nextJti && key == RefreshKey(key.user, jti);
    RefreshMoves(cfg, s, ev.now, token, ev.action.genuine);
  }

  /** In any run each refresh token is accepted at most once. */
  lemma {:induction false} AcceptedAtMostOnce(cfg: Config, s: State, evs: seq<Event>, i: nat, j: nat, token: Token)
    requires TokensOk(s) && i < j < |evs|
    requires Accepts(cfg, Run(cfg, s, evs[..i]), evs[i], token)
    ensures !Accepts(cfg, Run(cfg, s, evs[..j]), evs[j], token)
  {
    RunKeepsTokensOk(cfg, s, evs[..i]);
    AcceptingSpends(cfg, Run(cfg, s, evs[..i]), evs[i], token);
    KilledIsNeverAccepted(cfg, s, evs, i, j, token);
  }

  // ----- Setting the password cuts off earlier sessions ------------------------------------------

  /** The step leaves no refresh token of `u` alive: the password was reset, or
      the deleted account was registered again. */
  predicate CutsOff(cfg: Config, s: State, ev: Event, u: UserId) {
    match ev.action
    case SetPassword(v, _) => v == u && Live(s, u)
    case Register(email, _, _, _) =>
      FindAny(s.users, Lower(email), s.nextUser) == Some(u) && s.users[u].isDeleted && ByEmail(s, email).None?
    case _ => false
  }

  lemma CutOffKills(cfg: Config, s: State, ev: Event, u: UserId, jti: nat)
    requires CutsOff(cfg, s, ev, u) && jti < s.nextJti
    ensures Dead(Next(cfg, s, ev), Jwt(Refresh, u, jti))
  {
  }

  lemma {:induction false} KilledIsNeverAccepted(cfg: Config, s: State, evs: seq<Event>, k: nat, j: nat, token: Token)
    requires k < j < |evs| && Dead(Next(cfg, Run(cfg, s, evs[..k]), evs[k]), token)
    ensures !Accepts(cfg, Run(cfg, s, evs[..j]), evs[j], token)
  {
    RunStep(cfg, s, evs, k);
    DeadStaysDead(cfg, s, evs, k + 1, j, token);
    DeadIsRefused(cfg, Run(cfg, s, evs[..j]), evs[j], token);
  }

  lemma {:induction false} IssuedIsNew(cfg: Config, s: State, ev: Event, token: Token)
    requires Handle(cfg, s, ev).reply.Issued? && Handle(cfg, s, ev).reply.refreshToken == token
    ensures token == Jwt(Refresh, Handle(cfg, s, ev).reply.user, s.nextJti) && s.nextJti < Next(cfg, s, ev).nextJti
  {
    NextMoves(cfg, s, ev);
  }

  lemma {:induction false} RunGrowsJti(cfg: Config, s: State, evs: seq<Event>)
    ensures s.nextJti <= Run(cfg, s, evs).nextJti
    decreases |evs|
  {
    if evs != [] {
      RunGrowsJti(cfg, s, evs[..|evs| - 1]);
      NextMoves(cfg, Run(cfg, s, evs[..|evs| - 1]), evs[|evs| - 1]);
    }
  }

  lemma {:induction false} JtiGrows(cfg: Config, s: State, evs: seq<Event>, i: nat, j: nat)
    requires i <= j <= |evs|
    ensures Run(cfg, s, evs[..i]).nextJti <= Run(cfg, s, evs[..j]).nextJti
  {
    RunSplit(cfg, s, evs, i, j);
    RunGrowsJti(cfg, Run(cfg, s, evs[..i]), evs[i..j]);
  }

  /** After `resetPassword` no refresh token issued earlier is accepted. */
  lemma {:induction false} NoEarlierTokenAfterReset(cfg: Config, s: State, evs: seq<Event>, i: nat, k: nat, j: nat, u: UserId, token: Token)
    requires i < k < j < |evs|
    requires Handle(cfg, Run(cfg, s, evs[..i]), evs[i]).reply == Issued(u, token)
    requires CutsOff(cfg, Run(cfg, s, evs[..k]), evs[k], u)
    ensures !Accepts(cfg, Run(cfg, s, evs[..j]), evs[j], token)
  {
    IssuedIsNew(cfg, Run(cfg, s, evs[..i]), evs[i], token);
    RunStep(cfg, s, evs, i);
    JtiGrows(cfg, s, evs, i + 1, k);
    CutOffKills(cfg, Run(cfg, s, evs[..k]), evs[k], u, token.jti);
    KilledIsNeverAccepted(cfg, s, evs, k, j, token);
  }

  // ----- Chains ---------------------------------------------------------------------------------

  /** The login each refresh token descends from, by `jti`. */
  type Chains = map<nat, nat>

  function NextChains(cfg: Config, s: State, ev: Event, chains: Chains): Chains {
    match Handle(cfg, s, ev).reply
    case Issued(_, token) =>
      if token.Jwt? then
        if ev.action.RefreshTokens? && ev.action.token.Jwt? && ev.action.token.jti in chains
        then chains[token.jti := chains[ev.action.token.jti]]
        else chains[token.jti := token.jti]
      else chains
    case _ => chains
  }

  function RunChains(cfg: Config, s: State, evs: seq<Event>, chains: Chains): Chains
    decreases |evs|
  {
    if evs == [] then chains
    else
      var n := |evs| - 1;
      NextChains(cfg, Run(cfg, s, evs[..n]), evs[n], RunChains(cfg, s, evs[..n], chains))
  }

  ghost predicate ChainsCover(s: State, chains: Chains) {
    && (forall j :: j in chains ==> j < s.nextJti && chains[j] < s.nextJti)
    && (forall u: UserId, j: nat :: RefreshKey(u, j) in s.tokens ==> j in chains)
  }

  /** No two live tokens of one chain. */
  ghost predicate OneLivePerChain(s: State, chains: Chains) {
    forall u: UserId, v: UserId, j: nat, k: nat ::
      (j in chains && k in chains && chains[j] == chains[k]
       && Unrevoked(s, RefreshKey(u, j)) && Unrevoked(s, RefreshKey(v, k))) ==> u == v && j == k
  }

  ghost predicate ChainsOk(s: State, chains: Chains) {
    ChainsCover(s, chains) && OneLivePerChain(s, chains)
  }

  lemma {:induction false} ShrinkingKeepsChains(s: State, t: State, chains: Chains)
    requires ChainsOk(s, chains) && Shrinks(s, t)
    ensures ChainsOk(t, chains)
  {
    forall u: UserId, v: UserId, j: nat, k: nat |
      j in chains && k in chains && chains[j] == chains[k]
      && Unrevoked(t, RefreshKey(u, j)) && Unrevoked(t, RefreshKey(v, k))
      ensures u == v && j == k
    {
      assert Unrevoked(s, RefreshKey(u, j)) && Unrevoked(s, RefreshKey(v, k));
    }
  }

  /** A new token may join chain `root` when no live token is on it. */
  lemma {:induction false} AddingKeepsChains(s: State, t: State, u: UserId, chains: Chains, root: nat)
    requires ChainsOk(s, chains) && Adds(s, t, u) && root <= s.nextJti
    requires forall v: UserId, j: nat :: j in chains && chains[j] == root ==> !Unrevoked(t, RefreshKey(v, j))
    ensures ChainsOk(t, chains[s.nextJti := root])
  {
    var after := chains[s.nextJti := root];
    forall v: UserId, w: UserId, j: nat, k: nat |
      j in after && k in after && after[j] == after[k]
      && Unrevoked(t, RefreshKey(v, j)) && Unrevoked(t, RefreshKey(w, k))
      ensures v == w && j == k
    {
      NewOrOld(s, t, u, chains, v, j);
      NewOrOld(s, t, u, chains, w, k);
    }
    forall v: UserId, j: nat | RefreshKey(v, j) in t.tokens ensures j in after {
      if RefreshKey(v, j) != RefreshKey(u, s.nextJti) {
        assert RefreshKey(v, j) in s.tokens;
      }
    }
  }

  lemma {:induction false} NewOrOld(s: State, t: State, u: UserId, chains: Chains, v: UserId, j: nat)
    requires ChainsCover(s, chains) && Adds(s, t, u) && Unrevoked(t, RefreshKey(v, j))
    ensures (v == u && j == s.nextJti) || (j in chains && j < s.nextJti && Unrevoked(s, RefreshKey(v, j)))
  {
    if RefreshKey(v, j) != RefreshKey(u, s.nextJti) {
      assert RefreshKey(v, j) in s.tokens;
    }
  }

  /** The rest of a live token's chain stays revoked. */
  lemma {:induction false} RestOfChainIsDead(s: State, t: State, chains: Chains, u: UserId, jti: nat, v: UserId, j: nat)
    requires ChainsOk(s, chains) && Adds(s, t, u) && Unrevoked(s, RefreshKey(u, jti)) && !Unrevoked(t, RefreshKey(u, jti))
    requires jti in chains && j in chains && chains[j] == chains[jti]
    ensures !Unrevoked(t, RefreshKey(v, j))
  {
    if v != u || j != jti {
      assert !Unrevoked(s, RefreshKey(v, j));
      assert j != s.nextJti;
    }
  }

  lemma {:induction false} RefreshKeepsChains(cfg: Config, s: State, ev: Event, chains: Chains)
    requires TokensOk(s) && ChainsOk(s, chains) && ev.action.RefreshTokens? && Handle(cfg, s, ev).reply.Issued?
    ensures ChainsOk(Next(cfg, s, ev), NextChains(cfg, s, ev, chains))
  {
    var token := ev.action.token;
    var t := Next(cfg, s, ev);
    NextMoves(cfg, s, ev);
    AcceptingSpends(cfg, s, ev, token);
    var u, jti := token.sub, token.jti;
    assert KeyOf(token) == RefreshKey(u, jti);
    forall v: UserId, j: nat | j in chains && chains[j] == chains[jti] ensures !Unrevoked(t, RefreshKey(v, j)) {
      RestOfChainIsDead(s, t, chains, u, jti, v, j);
    }
    AddingKeepsChains(s, t, u, chains, chains[jti]);
  }

  lemma {:induction false} LoginKeepsChains(cfg: Config, s: State, ev: Event, chains: Chains)
    requires ChainsOk(s, chains) && !ev.action.RefreshTokens? && Handle(cfg, s, ev).reply.Issued?
    ensures ChainsOk(Next(cfg, s, ev), NextChains(cfg, s, ev, chains))
  {
    NextMoves(cfg, s, ev);
    AddingKeepsChains(s, Next(cfg, s, ev), Handle(cfg, s, ev).reply.user, chains, s.nextJti);
  }

  lemma {:induction false} NextKeepsChains(cfg: Config, s: State, ev: Event, chains: Chains)
    requires TokensOk(s) && ChainsOk(s, chains)
    ensures ChainsOk(Next(cfg, s, ev), NextChains(cfg, s, ev, chains))
  {
    if Handle(cfg, s, ev).reply.Issued? {
      if ev.action.RefreshTokens? {
        RefreshKeepsChains(cfg, s, ev, chains);
      } else {
        LoginKeepsChains(cfg, s, ev, chains);
      }
    } else {
      NextMoves(cfg, s, ev);
      ShrinkingKeepsChains(s, Next(cfg, s, ev), chains);
    }
  }

  /** In every reachable state each login's chain of rotated tokens has at most one
      that is not revoked. */
  lemma {:induction false} RunKeepsChains(cfg: Config, s: State, evs: seq<Event>, chains: Chains)
    requires TokensOk(s) && ChainsOk(s, chains)
    ensures ChainsOk(Run(cfg, s, evs), RunChains(cfg, s, evs, chains))
    decreases |evs|
  {
    if evs != [] {
      var n := |evs| - 1;
      RunKeepsChains(cfg, s, evs[..n], chains);
      RunKeepsTokensOk(cfg, s, evs[..n]);
      NextKeepsChains(cfg, Run(cfg, s, evs[..n]), evs[n], RunChains(cfg, s, evs[..n], chains));
    }
  }

  /** From a store without refresh rows: of the tokens that descend from one login,
      at most one is not revoked. */
  lemma {:induction false} OneLiveTokenPerLogin(cfg: Config, s: State, evs: seq<Event>, u: UserId, v: UserId, j: nat, k: nat)
    requires forall key :: key in s.tokens ==> key.tokenType != RefreshToken
    requires var chains := RunChains(cfg, s, evs, map[]); j in chains && k in chains && chains[j] == chains[k]
    requires Unrevoked(Run(cfg, s, evs), RefreshKey(u, j)) && Unrevoked(Run(cfg, s, evs), RefreshKey(v, k))
    ensures u == v && j == k
  {
    hide Handle;
    assert ChainsOk(s, map[]);
    RunKeepsChains(cfg, s, evs, map[]);
  }

  /** The next token's row is never there yet. */
  lemma {:induction false} NextJtiIsFresh(s: State)
    requires TokensOk(s)
    ensures forall u :: RefreshKey(u, s.nextJti) !in s.tokens
  {
    forall u ensures RefreshKey(u, s.nextJti) !in s.tokens {
      if RefreshKey(u, s.nextJti) in s.tokens {
        assert false;
      }
    }
  }

  // ----- Reset codes ------------------------------------------------------------------------------

  /** At most one reset code of a user is not revoked. */
  ghost predicate OneResetCode(s: State) {
    forall a: Key, b: Key :: (a.tokenType == ResetPassword && b.tokenType == ResetPassword && a.user == b.user
                    && Unrevoked(s, a) && Unrevoked(s, b)) ==> a == b
  }

  /** No reset row is added or made active again. */
  ghost predicate CodesShrink(s: State, t: State) {
    forall key :: key in t.tokens && key.tokenType == ResetPassword ==>
      key in s.tokens && (Unrevoked(t, key) ==> Unrevoked(s, key))
  }

  lemma ShrinkingKeepsOneCode(s: State, t: State)
    requires OneResetCode(s) && CodesShrink(s, t)
    ensures OneResetCode(t)
  {
  }

  lemma RegisteringShrinksCodes(cfg: Config, s: State, ev: Event)
    requires ev.action.Register? || ev.action.ResendOtp?
    ensures CodesShrink(s, Next(cfg, s, ev))
  {
  }

  lemma GateShrinksCodes(cfg: Config, s: State, t: State, u: UserId, now: int, otp: string)
    requires CodesShrink(s, t) && u in t.users
    ensures Gate(cfg, t, u, now, otp).Some? ==> CodesShrink(s, Gate(cfg, t, u, now, otp).value.state)
    ensures CodesShrink(s, IssuePair(cfg, t, u, now).state) && CodesShrink(s, GateAndIssue(cfg, t, u, now, otp).state)
  {
  }

  lemma {:induction false} LoginShrinksCodes(cfg: Config, s: State, ev: Event)
    requires ev.action.Login?
    ensures CodesShrink(s, Next(cfg, s, ev))
  {
    match ByEmail(s, ev.action.email)
    case None =>
    case Some(u) =>
      GateShrinksCodes(cfg, s, s, u, ev.now, ev.action.otp);
      GateShrinksCodes(cfg, s, SetUser(s, u, Cleared(s.users[u])), u, ev.now, ev.action.otp);
  }

  lemma SocialShrinksCodes(cfg: Config, s: State, ev: Event)
    requires ev.action.SocialLogin? || ev.action.RefreshTokens?
    ensures CodesShrink(s, Next(cfg, s, ev))
  {
  }

  lemma {:induction false} OthersShrinkCodes(cfg: Config, s: State, ev: Event)
    requires !ev.action.ForgotPassword?
    ensures CodesShrink(s, Next(cfg, s, ev))
  {
    if ev.action.Register? || ev.action.ResendOtp? {
      RegisteringShrinksCodes(cfg, s, ev);
    } else if ev.action.Login? {
      LoginShrinksCodes(cfg, s, ev);
    } else if ev.action.SocialLogin? || ev.action.RefreshTokens? {
      SocialShrinksCodes(cfg, s, ev);
    }
  }

  lemma ForgettingKeepsOneCode(cfg: Config, s: State, ev: Event)
    requires OneResetCode(s) && ev.action.ForgotPassword?
    ensures OneResetCode(Next(cfg, s, ev))
  {
  }

  /** In every reachable state no user has two reset codes that would be accepted. */
  lemma {:induction false} RunKeepsOneResetCode(cfg: Config, s: State, evs: seq<Event>)
    requires OneResetCode(s)
    ensures OneResetCode(Run(cfg, s, evs))
    decreases |evs|
  {
    if evs != [] {
      var n := |evs| - 1;
      var before := Run(cfg, s, evs[..n]);
      RunKeepsOneResetCode(cfg, s, evs[..n]);
      if evs[n].action.ForgotPassword? {
        ForgettingKeepsOneCode(cfg, before, evs[n]);
      } else {
        OthersShrinkCodes(cfg, before, evs[n]);
        ShrinkingKeepsOneCode(before, Next(cfg, before, evs[n]));
      }
    }
  }

  // ----- What does not revoke ---------------------------------------------------------------------

  /** Logging out looks an access token up among the refresh rows, so in a
      reachable state it revokes nothing. */
  lemma {:induction false} LogoutRevokesNothing(cfg: Config, s: State, evs: seq<Event>, now: int, token: Token, genuine: bool)
    requires TokensOk(s)
    ensures var at := Run(cfg, s, evs); Next(cfg, at, Event(now, Logout(token, genuine))) == at
  {
    RunKeepsTokensOk(cfg, s, evs);
    var at := Run(cfg, s, evs);
    if token.Jwt? && token.jwtType != Refresh {
      assert KeyOf(token) !in at.tokens;
    }
  }

  /** Changing the password, and asking for another verification code, leave every
      stored token as usable as it was. */
  lemma NothingElseRevokes(cfg: Config, s: State, ev: Event, key: Key)
    requires ev.action.ChangePassword? || ev.action.ResendOtp?
    requires key in s.tokens
    ensures key in Next(cfg, s, ev).tokens && Next(cfg, s, ev).tokens[key] == s.tokens[key]
  {
  }
}
