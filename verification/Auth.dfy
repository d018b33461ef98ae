/** The enrolment chain of the auth service: a mailed token, an exchange code, an enrol
    token, a challenge, a session. A handler yields at every await, so its database and
    cache operations are steps of their own and interleave with those of other requests.
    Random identifiers are numbers that have not been used. */
module Auth {
  import opened Wrappers

  type Id = nat
  type PlayerId = nat

  datatype Player = Player(verified: bool, enrolled: bool)

  /** What can be redeemed once. Each comes from one source of random identifiers. */
  datatype Secret = VerifyToken(id: Id) | ExchangeCode(id: Id) | Registration(id: Id) | Authentication(id: Id)

  /** What redeeming a secret can give. */
  datatype Grant = CodeGrant(id: Id) | EnrollGrant(id: Id) | SessionGrant(id: Id)

  datatype Scope = EnrollScope | SessionScope

  datatype Jwt = Jwt(sub: PlayerId, scope: Scope)

  /** How far a handler has come with the secret it redeemed. */
  datatype Stage =
    | Found | Marked                                                          // GET /verify-token
    | Exchanging                                                              // POST /exchange
    | Registering(scope: Scope) | Saved(scope: Scope) | Enrolled(scope: Scope)  // POST /passkey/register/complete
    | LoggingIn | Matched(credential: Id)                                     // POST /passkey/login/complete
    | Issuing                                                                 // both, with the session stored

  datatype Handler = Handler(stage: Stage, player: PlayerId, secret: Secret)

  /** `live` holds the secrets that can still be redeemed, `minted` every secret there
      ever was, and `origin` which secret each grant ever made came from. */
  datatype State = State(
    players: map<PlayerId, Player>, credentials: map<Id, PlayerId>, live: map<Secret, Option<PlayerId>>,
    jwts: map<Id, Jwt>, sessions: map<Id, PlayerId>, handlers: map<Id, Handler>,
    minted: set<Secret>, origin: map<Grant, Secret>)

  const START := State(map[], map[], map[], map[], map[], map[], {}, map[])

  /** A step whose request is refused, or whose identifier is not fresh, changes nothing
      but what the comment at its transition says. `r` numbers the request. */
  datatype Step =
    | Register(p: PlayerId)
    | MailToken(p: PlayerId, token: Id)
    | TakeToken(r: Id, token: Id)
    | MarkVerified(r: Id)
    | StoreCode(r: Id, code: Id)
    | TakeCode(r: Id, code: Id)
    | IssueEnroll(r: Id, jwt: Id)
    | BeginRegistration(jwt: Id, challenge: Id)
    | TakeRegistration(r: Id, jwt: Id, challenge: Id)
    | SaveCredential(r: Id, credential: Id)
    | MarkEnrolled(r: Id)
    | BeginLogin(account: Option<PlayerId>, challenge: Id)
    | TakeLogin(r: Id, challenge: Id)
    | MatchCredential(r: Id, credential: Id)
    | CreateSession(r: Id, session: Id)
    | IssueSession(r: Id, jwt: Id)
    | Fail(r: Id)
    | ExpireSecret(secret: Secret)
    | ExpireSession(session: Id)

  predicate At(s: State, r: Id, stage: Stage) {
    r in s.handlers && s.handlers[r].stage == stage
  }

  function Mint(s: State, secret: Secret, p: Option<PlayerId>): State {
    s.(live := s.live[secret := p], minted := s.minted + {secret})
  }

  /** Redeems a secret; the request goes on when it belongs to a player. */
  function Take(s: State, r: Id, secret: Secret, stage: Stage): State {
    if r in s.handlers || secret !in s.live then s
    else
      var owner := s.live[secret];
      var taken := s.(live := s.live - {secret});
      if owner.None? then taken else taken.(handlers := s.handlers[r := Handler(stage, owner.value, secret)])
  }

  function Advance(s: State, r: Id, stage: Stage): State
    requires r in s.handlers
  {
    s.(handlers := s.handlers[r := s.handlers[r].(stage := stage)])
  }

  function Done(s: State, r: Id): State {
    s.(handlers := s.handlers - {r})
  }

  function Granted(s: State, r: Id, g: Grant): State
    requires r in s.handlers
  {
    s.(origin := s.origin[g := s.handlers[r].secret])
  }

  function Next(s: State, step: Step): State {
    match step
    case Register(p) => if p in s.players then s else s.(players := s.players[p := Player(false, false)])
    case MailToken(p, t) =>
      if p !in s.players || VerifyToken(t) in s.minted then s else Mint(s, VerifyToken(t), Some(p))
    case TakeToken(r, t) => Take(s, r, VerifyToken(t), Found)
    case MarkVerified(r) =>
      if !At(s, r, Found) || s.handlers[r].player !in s.players then s
      else
        var p := s.handlers[r].player;
        Advance(s.(players := s.players[p := s.players[p].(verified := true)]), r, Marked)
    case StoreCode(r, c) =>
      if !At(s, r, Marked) || ExchangeCode(c) in s.minted || CodeGrant(c) in s.origin then s
      else Done(Mint(Granted(s, r, CodeGrant(c)), ExchangeCode(c), Some(s.handlers[r].player)), r)
    case TakeCode(r, c) => Take(s, r, ExchangeCode(c), Exchanging)
    case IssueEnroll(r, j) =>
      if !At(s, r, Exchanging) || j in s.jwts || EnrollGrant(j) in s.origin then s
      else
        var jwt := Jwt(s.handlers[r].player, EnrollScope);
        Done(Granted(s, r, EnrollGrant(j)).(jwts := s.jwts[j := jwt]), r)
    case BeginRegistration(j, ch) =>
      if j !in s.jwts || Registration(ch) in s.minted then s else Mint(s, Registration(ch), Some(s.jwts[j].sub))
    case TakeRegistration(r, j, ch) =>
      if j !in s.jwts then s
      // a challenge of another player is consumed all the same
      else if Registration(ch) in s.live && s.live[Registration(ch)] != Some(s.jwts[j].sub)
      then s.(live := s.live - {Registration(ch)})
      else Take(s, r, Registration(ch), Registering(s.jwts[j].scope))
    case SaveCredential(r, c) =>
      if r !in s.handlers || !s.handlers[r].stage.Registering? then s
      else
        var h := s.handlers[r];
        // a row that exists keeps its owner
        var rows := if c in s.credentials then s.credentials else s.credentials[c := h.player];
        Advance(s.(credentials := rows), r, Saved(h.stage.scope))
    case MarkEnrolled(r) =>
      if r !in s.handlers || !s.handlers[r].stage.Saved? || s.handlers[r].player !in s.players then s
      else
        var h := s.handlers[r];
        var marked := s.(players := s.players[h.player := s.players[h.player].(enrolled := true)]);
        if h.stage.scope == EnrollScope then Advance(marked, r, Enrolled(EnrollScope)) else Done(marked, r)
    case BeginLogin(p, ch) =>
      if Authentication(ch) in s.minted then s else Mint(s, Authentication(ch), p)
    case TakeLogin(r, ch) => Take(s, r, Authentication(ch), LoggingIn)
    case MatchCredential(r, c) =>
      if !At(s, r, LoggingIn) then s
      else if c in s.credentials && s.credentials[c] == s.handlers[r].player then Advance(s, r, Matched(c))
      else Done(s, r)
    case CreateSession(r, sid) =>
      if r !in s.handlers || !(s.handlers[r].stage.Enrolled? || s.handlers[r].stage.Matched?)
         || SessionGrant(sid) in s.origin then s
      else
        Advance(Granted(s, r, SessionGrant(sid)).(sessions := s.sessions[sid := s.handlers[r].player]), r, Issuing)
    case IssueSession(r, j) =>
      if !At(s, r, Issuing) || j in s.jwts then s
      else Done(s.(jwts := s.jwts[j := Jwt(s.handlers[r].player, SessionScope)]), r)
    case Fail(r) => Done(s, r)
    case ExpireSecret(secret) => s.(live := s.live - {secret})
    case ExpireSession(sid) => s.(sessions := s.sessions - {sid})
  }

  function Run(s: State, steps: seq<Step>): State {
    if steps == [] then s else Next(Run(s, steps[..|steps| - 1]), steps[|steps| - 1])
  }

  // ---- Every secret is redeemed at most once ----

  /** The handler may still make a grant of its secret. */
  predicate Holds(h: Handler) {
    h.stage != Issuing
  }

  ghost predicate Spendable(s: State, secret: Secret) {
    secret in s.minted && forall g :: g in s.origin ==> s.origin[g] != secret
  }

  predicate GrantsOnce(s: State) {
    && (forall g, h :: g in s.origin && h in s.origin && s.origin[g] == s.origin[h] ==> g == h)
    && (forall g :: g in s.origin ==> s.origin[g] in s.minted)
  }

  /** A secret is live, or held by one handler, or has made its one grant, or is lost. */
  ghost predicate OneUse(s: State) {
    && (forall k :: k in s.live ==> Spendable(s, k))
    && (forall r :: r in s.handlers ==> s.handlers[r].secret in s.minted && s.handlers[r].secret !in s.live)
    && (forall r :: r in s.handlers && Holds(s.handlers[r]) ==> Spendable(s, s.handlers[r].secret))
    && (forall q, r :: q in s.handlers && r in s.handlers && s.handlers[q].secret == s.handlers[r].secret ==> q == r)
    && GrantsOnce(s)
  }

  /** OneUse speaks of these fields only. */
  predicate SameSecrets(s: State, t: State) {
    s.live == t.live && s.handlers == t.handlers && s.minted == t.minted && s.origin == t.origin
  }

  lemma MintOneUse(s: State, secret: Secret, p: Option<PlayerId>)
    requires OneUse(s) && secret !in s.minted
    ensures OneUse(Mint(s, secret, p))
  {
  }

  lemma LoseOneUse(s: State, secret: Secret, r: Id)
    requires OneUse(s)
    ensures OneUse(s.(live := s.live - {secret})) && OneUse(Done(s, r))
  {
    var t := s.(live := s.live - {secret});
    assert forall k :: Spendable(t, k) <==> Spendable(s, k);
    DoneOneUse(s, r);
    hide Spendable;
  }

  lemma DoneOneUse(s: State, r: Id)
    requires OneUse(s)
    ensures OneUse(Done(s, r))
  {
    assert forall k :: Spendable(Done(s, r), k) <==> Spendable(s, k);
    hide Spendable;
  }

  lemma HoldOneUse(s: State, r: Id, h: Handler)
    requires OneUse(s) && r !in s.handlers && Spendable(s, h.secret) && h.secret !in s.live
    requires forall q :: q in s.handlers ==> s.handlers[q].secret != h.secret
    ensures OneUse(s.(handlers := s.handlers[r := h]))
  {
    var t := s.(handlers := s.handlers[r := h]);
    assert forall k :: Spendable(t, k) <==> Spendable(s, k);
    hide Spendable;
  }

  lemma TakeOneUse(s: State, r: Id, secret: Secret, stage: Stage)
    requires OneUse(s)
    ensures OneUse(Take(s, r, secret, stage))
  {
    if r !in s.handlers && secret in s.live && s.live[secret].Some? {
      assert Spendable(s, secret);
      LoseOneUse(s, secret, r);
      HoldOneUse(s.(live := s.live - {secret}), r, Handler(stage, s.live[secret].value, secret));
    } else {
      LoseOneUse(s, secret, r);
    }
  }

  lemma AdvanceOneUse(s: State, r: Id, stage: Stage)
    requires OneUse(s) && r in s.handlers && Holds(s.handlers[r])
    ensures OneUse(Advance(s, r, stage))
  {
  }

  lemma GrantOneUse(s: State, r: Id, g: Grant)
    requires OneUse(s) && r in s.handlers && Holds(s.handlers[r]) && g !in s.origin
    ensures OneUse(Advance(Granted(s, r, g), r, Issuing)) && OneUse(Done(Granted(s, r, g), r))
  {
    assert Spendable(s, s.handlers[r].secret);
    hide OneUse, Spendable;
    var granted := Granted(s, r, g);
    GrantSpends(s, r, g);
    GrantAdvances(s, r, g);
    LoseOneUse(Advance(granted, r, Issuing), s.handlers[r].secret, r);
    DoneAnyway(granted, r, Issuing);
  }

  lemma DoneAnyway(s: State, r: Id, stage: Stage)
    requires r in s.handlers
    ensures Done(Advance(s, r, stage), r) == Done(s, r)
  {
    assert s.handlers[r := s.handlers[r].(stage := stage)] - {r} == s.handlers - {r};
  }

  /** A grant spends the secret it comes from and no other. */
  lemma GrantSpends(s: State, r: Id, g: Grant)
    requires r in s.handlers && g !in s.origin && Spendable(s, s.handlers[r].secret)
    ensures forall k :: Spendable(Advance(Granted(s, r, g), r, Issuing), k) <==>
                        Spendable(s, k) && k != s.handlers[r].secret
  {
    var t := Advance(Granted(s, r, g), r, Issuing);
    assert t.origin[g] == s.handlers[r].secret && t.minted == s.minted;
    forall k ensures Spendable(t, k) <==> Spendable(s, k) && k != s.handlers[r].secret {
      if Spendable(t, k) {
        assert forall h :: h in s.origin ==> t.origin[h] == s.origin[h];
      }
    }
  }

  lemma GrantAdvances(s: State, r: Id, g: Grant)
    requires OneUse(s) && r in s.handlers && Holds(s.handlers[r]) && g !in s.origin
    requires forall k :: Spendable(Advance(Granted(s, r, g), r, Issuing), k) <==>
                         Spendable(s, k) && k != s.handlers[r].secret
    ensures OneUse(Advance(Granted(s, r, g), r, Issuing))
  {
    GrantsStayOnce(s, r, g);
    hide Spendable, GrantsOnce;
  }

  lemma GrantsStayOnce(s: State, r: Id, g: Grant)
    requires GrantsOnce(s) && r in s.handlers && g !in s.origin && Spendable(s, s.handlers[r].secret)
    ensures GrantsOnce(Advance(Granted(s, r, g), r, Issuing))
  {
    var secret := s.handlers[r].secret;
    assert forall h :: h in s.origin ==> s.origin[h] != secret;
    assert Advance(Granted(s, r, g), r, Issuing).origin == s.origin[g := secret];
  }

  lemma SameOneUse(s: State, t: State)
    requires OneUse(s) && SameSecrets(s, t)
    ensures OneUse(t)
  {
    forall k ensures Spendable(t, k) <==> Spendable(s, k) {
    }
  }

  /** The steps of registration by mail, up to the enrol token. */
  predicate MailStep(step: Step) {
    step.Register? || step.MailToken? || step.TakeToken? || step.MarkVerified? || step.StoreCode? || step.TakeCode?
    || step.IssueEnroll?
  }

  predicate RegistrationStep(step: Step) {
    step.BeginRegistration? || step.TakeRegistration? || step.SaveCredential? || step.MarkEnrolled?
  }

  lemma MailOneUse(s: State, step: Step)
    requires OneUse(s) && MailStep(step) && Next(s, step) != s
    ensures OneUse(Next(s, step))
  {
    hide OneUse;
    var t := Next(s, step);
    match step {
      case Register(_) => SameOneUse(s, t);
      case MailToken(p, k) => MintOneUse(s, VerifyToken(k), Some(p));
      case TakeToken(r, k) => TakeOneUse(s, r, VerifyToken(k), Found);
      case MarkVerified(r) =>
        AdvanceOneUse(s, r, Marked);
        SameOneUse(Advance(s, r, Marked), t);
      case StoreCode(r, c) =>
        GrantOneUse(s, r, CodeGrant(c));
        var granted := Done(Granted(s, r, CodeGrant(c)), r);
        MintOneUse(granted, ExchangeCode(c), Some(s.handlers[r].player));
        assert Mint(granted, ExchangeCode(c), Some(s.handlers[r].player)) == t;
      case TakeCode(r, c) => TakeOneUse(s, r, ExchangeCode(c), Exchanging);
      case IssueEnroll(r, j) =>
        GrantOneUse(s, r, EnrollGrant(j));
        SameOneUse(Done(Granted(s, r, EnrollGrant(j)), r), t);
    }
  }

  lemma ChallengeOneUse(s: State, jwt: Id, challenge: Id)
    requires OneUse(s) && Next(s, BeginRegistration(jwt, challenge)) != s
    ensures OneUse(Next(s, BeginRegistration(jwt, challenge)))
  {
    hide OneUse;
    MintOneUse(s, Registration(challenge), Some(s.jwts[jwt].sub));
  }

  lemma RedeemOneUse(s: State, r: Id, jwt: Id, challenge: Id)
    requires OneUse(s) && Next(s, TakeRegistration(r, jwt, challenge)) != s
    ensures OneUse(Next(s, TakeRegistration(r, jwt, challenge)))
  {
    hide OneUse;
    if Registration(challenge) in s.live && s.live[Registration(challenge)] != Some(s.jwts[jwt].sub) {
      LoseOneUse(s, Registration(challenge), r);
    } else {
      TakeOneUse(s, r, Registration(challenge), Registering(s.jwts[jwt].scope));
    }
  }

  lemma SaveOneUse(s: State, r: Id, credential: Id)
    requires OneUse(s) && Next(s, SaveCredential(r, credential)) != s
    ensures OneUse(Next(s, SaveCredential(r, credential)))
  {
    hide OneUse;
    var t := Next(s, SaveCredential(r, credential));
    var saved := Saved(s.handlers[r].stage.scope);
    AdvanceOneUse(s, r, saved);
    SameOneUse(Advance(s, r, saved), t);
  }

  lemma MarkOneUse(s: State, r: Id)
    requires OneUse(s) && Next(s, MarkEnrolled(r)) != s
    ensures OneUse(Next(s, MarkEnrolled(r)))
  {
    hide OneUse;
    var h := s.handlers[r];
    var marked := s.(players := s.players[h.player := s.players[h.player].(enrolled := true)]);
    SameOneUse(s, marked);
    if h.stage.scope == EnrollScope {
      AdvanceOneUse(marked, r, Enrolled(EnrollScope));
    } else {
      LoseOneUse(marked, h.secret, r);
    }
  }

  lemma RegistrationOneUse(s: State, step: Step)
    requires OneUse(s) && RegistrationStep(step) && Next(s, step) != s
    ensures OneUse(Next(s, step))
  {
    hide OneUse, Next;
    match step {
      case BeginRegistration(jwt, challenge) => ChallengeOneUse(s, jwt, challenge);
      case TakeRegistration(r, jwt, challenge) => RedeemOneUse(s, r, jwt, challenge);
      case SaveCredential(r, credential) => SaveOneUse(s, r, credential);
      case MarkEnrolled(r) => MarkOneUse(s, r);
    }
  }

  lemma OtherOneUse(s: State, step: Step)
    requires OneUse(s) && !MailStep(step) && !RegistrationStep(step) && Next(s, step) != s
    ensures OneUse(Next(s, step))
  {
    hide OneUse;
    var t := Next(s, step);
    match step {
      case BeginLogin(p, ch) => MintOneUse(s, Authentication(ch), p);
      case TakeLogin(r, ch) => TakeOneUse(s, r, Authentication(ch), LoggingIn);
      case MatchCredential(r, c) =>
        AdvanceOneUse(s, r, Matched(c));
        LoseOneUse(s, s.handlers[r].secret, r);
      case CreateSession(r, sid) =>
        GrantOneUse(s, r, SessionGrant(sid));
        SameOneUse(Advance(Granted(s, r, SessionGrant(sid)), r, Issuing), t);
      case IssueSession(r, _) =>
        LoseOneUse(s, s.handlers[r].secret, r);
        SameOneUse(Done(s, r), t);
      case Fail(r) => LoseOneUse(s, VerifyToken(0), r);
      case ExpireSecret(secret) => LoseOneUse(s, secret, 0);
      case ExpireSession(_) => SameOneUse(s, t);
    }
  }

  lemma StepOneUse(s: State, step: Step)
    requires OneUse(s)
    ensures OneUse(Next(s, step))
  {
    hide OneUse, Next;
    if Next(s, step) != s {
      if MailStep(step) {
        MailOneUse(s, step);
      } else if RegistrationStep(step) {
        RegistrationOneUse(s, step);
      } else {
        OtherOneUse(s, step);
      }
    }
  }

  // ---- Where grants come from ----

  predicate Fits(stage: Stage, secret: Secret) {
    match stage
    case Found => secret.VerifyToken?
    case Marked => secret.VerifyToken?
    case Exchanging => secret.ExchangeCode?
    case Registering(_) => secret.Registration?
    case Saved(_) => secret.Registration?
    case Enrolled(_) => secret.Registration?
    case LoggingIn => secret.Authentication?
    case Matched(_) => secret.Authentication?
    case Issuing => secret.Registration? || secret.Authentication?
  }

  /** Codes come from mailed tokens, enrol tokens from codes, sessions from challenges. */
  predicate ComesFrom(g: Grant, secret: Secret) {
    match g
    case CodeGrant(_) => secret.VerifyToken?
    case EnrollGrant(_) => secret.ExchangeCode?
    case SessionGrant(_) => secret.Registration? || secret.Authentication?
  }

  ghost predicate Traced(s: State) {
    && (forall r :: r in s.handlers ==> Fits(s.handlers[r].stage, s.handlers[r].secret))
    && (forall g :: g in s.origin ==> ComesFrom(g, s.origin[g]))
    && (forall c: Id :: ExchangeCode(c) in s.live ==> CodeGrant(c) in s.origin)
    && (forall j :: j in s.jwts && s.jwts[j].scope == EnrollScope ==> EnrollGrant(j) in s.origin)
    && (forall sid :: sid in s.sessions ==> SessionGrant(sid) in s.origin)
  }

  // ---- Sessions are earned ----

  predicate Verified(s: State, p: PlayerId) {
    p in s.players && s.players[p].verified
  }

  ghost predicate Owns(s: State, p: PlayerId) {
    exists c :: c in s.credentials && s.credentials[c] == p
  }

  /** Past the mailed token nothing speaks for a player who is not verified. */
  ghost predicate Earned(s: State) {
    && (forall c: Id :: ExchangeCode(c) in s.live ==>
          s.live[ExchangeCode(c)].Some? && Verified(s, s.live[ExchangeCode(c)].value))
    && (forall r :: r in s.handlers && s.handlers[r].stage != Found && s.handlers[r].stage != LoggingIn ==>
          Verified(s, s.handlers[r].player))
    && (forall j :: j in s.jwts ==> Verified(s, s.jwts[j].sub))
    && (forall c :: c in s.credentials ==> Verified(s, s.credentials[c]))
    && (forall sid :: sid in s.sessions ==> Verified(s, s.sessions[sid]))
  }

  ghost predicate Chained(s: State) {
    Traced(s) && Earned(s)
  }

  /** Stages a handler reaches for a verified player only. */
  predicate PastMail(stage: Stage) {
    stage != Found && stage != LoggingIn
  }

  lemma MintChained(s: State, secret: Secret, p: Option<PlayerId>)
    requires Chained(s)
    requires secret.ExchangeCode? ==> CodeGrant(secret.id) in s.origin && p.Some? && Verified(s, p.value)
    ensures Chained(Mint(s, secret, p))
  {
  }

  lemma AdvanceChained(s: State, r: Id, stage: Stage)
    requires Chained(s) && r in s.handlers && Fits(stage, s.handlers[r].secret)
    requires PastMail(stage) ==> Verified(s, s.handlers[r].player)
    ensures Chained(Advance(s, r, stage))
  {
  }

  lemma LoseChained(s: State, secret: Secret, r: Id)
    requires Chained(s)
    ensures Chained(s.(live := s.live - {secret})) && Chained(Done(s, r))
  {
    DropChained(s, r);
    hide Done;
  }

  lemma DropChained(s: State, r: Id)
    requires Chained(s)
    ensures Chained(Done(s, r))
  {
  }

  lemma HoldChained(s: State, r: Id, h: Handler)
    requires Chained(s) && Fits(h.stage, h.secret) && (PastMail(h.stage) ==> Verified(s, h.player))
    ensures Chained(s.(handlers := s.handlers[r := h]))
  {
  }

  lemma TakeChained(s: State, r: Id, secret: Secret, stage: Stage)
    requires Chained(s) && Fits(stage, secret)
    requires PastMail(stage) && secret in s.live && s.live[secret].Some? ==> Verified(s, s.live[secret].value)
    ensures Chained(Take(s, r, secret, stage))
  {
    hide Chained;
    LoseChained(s, secret, r);
    if r !in s.handlers && secret in s.live && s.live[secret].Some? {
      HoldChained(s.(live := s.live - {secret}), r, Handler(stage, s.live[secret].value, secret));
    }
  }

  lemma GrantChained(s: State, r: Id, g: Grant)
    requires Chained(s) && r in s.handlers && g !in s.origin && ComesFrom(g, s.handlers[r].secret)
    ensures Chained(Granted(s, r, g))
  {
  }

  lemma PlayersChained(s: State, p: PlayerId, player: Player)
    requires Chained(s) && (Verified(s, p) ==> player.verified)
    ensures Chained(s.(players := s.players[p := player]))
  {
  }

  lemma JwtChained(s: State, j: Id, jwt: Jwt)
    requires Chained(s) && Verified(s, jwt.sub) && (jwt.scope == EnrollScope ==> EnrollGrant(j) in s.origin)
    ensures Chained(s.(jwts := s.jwts[j := jwt]))
  {
  }

  lemma RowChained(s: State, c: Id, p: PlayerId)
    requires Chained(s) && Verified(s, p)
    ensures Chained(s.(credentials := s.credentials[c := p]))
  {
  }

  lemma SessionChained(s: State, sid: Id, p: PlayerId)
    requires Chained(s) && Verified(s, p) && SessionGrant(sid) in s.origin
    ensures Chained(s.(sessions := s.sessions[sid := p]))
  {
  }

  lemma ExpiryChained(s: State, id: Id)
    requires Chained(s)
    ensures Chained(s.(sessions := s.sessions - {id}))
  {
  }

  lemma HandlerChained(s: State, r: Id)
    requires Chained(s) && r in s.handlers
    ensures Fits(s.handlers[r].stage, s.handlers[r].secret)
    ensures PastMail(s.handlers[r].stage) ==> Verified(s, s.handlers[r].player)
  {
  }

  lemma MailChained(s: State, step: Step)
    requires Chained(s) && MailStep(step) && Next(s, step) != s
    ensures Chained(Next(s, step))
  {
    hide Chained;
    var t := Next(s, step);
    match step {
      case Register(p) => PlayersChained(s, p, Player(false, false));
      case MailToken(p, k) => MintChained(s, VerifyToken(k), Some(p));
      case TakeToken(r, k) => TakeChained(s, r, VerifyToken(k), Found);
      case MarkVerified(r) =>
        var p := s.handlers[r].player;
        HandlerChained(s, r);
        PlayersChained(s, p, s.players[p].(verified := true));
        AdvanceChained(s.(players := s.players[p := s.players[p].(verified := true)]), r, Marked);
      case StoreCode(r, c) =>
        var p := s.handlers[r].player;
        HandlerChained(s, r);
        GrantChained(s, r, CodeGrant(c));
        MintChained(Granted(s, r, CodeGrant(c)), ExchangeCode(c), Some(p));
        LoseChained(Mint(Granted(s, r, CodeGrant(c)), ExchangeCode(c), Some(p)), VerifyToken(0), r);
      case TakeCode(r, c) =>
        LiveCode(s, c);
        TakeChained(s, r, ExchangeCode(c), Exchanging);
      case IssueEnroll(r, j) =>
        HandlerChained(s, r);
        GrantChained(s, r, EnrollGrant(j));
        JwtChained(Granted(s, r, EnrollGrant(j)), j, Jwt(s.handlers[r].player, EnrollScope));
        LoseChained(Granted(s, r, EnrollGrant(j)).(jwts := s.jwts[j := Jwt(s.handlers[r].player, EnrollScope)]),
                    VerifyToken(0), r);
    }
  }

  lemma ChallengeChained(s: State, jwt: Id, challenge: Id)
    requires Chained(s) && Next(s, BeginRegistration(jwt, challenge)) != s
    ensures Chained(Next(s, BeginRegistration(jwt, challenge)))
  {
    hide Chained;
    MintChained(s, Registration(challenge), Some(s.jwts[jwt].sub));
  }

  lemma RedeemChained(s: State, r: Id, jwt: Id, challenge: Id)
    requires Chained(s) && Next(s, TakeRegistration(r, jwt, challenge)) != s
    ensures Chained(Next(s, TakeRegistration(r, jwt, challenge)))
  {
    hide Chained;
    LoseChained(s, Registration(challenge), r);
    LiveJwt(s, jwt);
    if Registration(challenge) in s.live && s.live[Registration(challenge)] == Some(s.jwts[jwt].sub) {
      TakeChained(s, r, Registration(challenge), Registering(s.jwts[jwt].scope));
    }
  }

  lemma SaveChained(s: State, r: Id, credential: Id)
    requires Chained(s) && Next(s, SaveCredential(r, credential)) != s
    ensures Chained(Next(s, SaveCredential(r, credential)))
  {
    hide Chained;
    var h := s.handlers[r];
    HandlerChained(s, r);
    RowChained(s, credential, h.player);
    var saved := if credential in s.credentials then s else s.(credentials := s.credentials[credential := h.player]);
    AdvanceChained(saved, r, Saved(h.stage.scope));
  }

  lemma MarkChained(s: State, r: Id)
    requires Chained(s) && Next(s, MarkEnrolled(r)) != s
    ensures Chained(Next(s, MarkEnrolled(r)))
  {
    hide Chained;
    var h := s.handlers[r];
    HandlerChained(s, r);
    PlayersChained(s, h.player, s.players[h.player].(enrolled := true));
    var marked := s.(players := s.players[h.player := s.players[h.player].(enrolled := true)]);
    AdvanceChained(marked, r, Enrolled(EnrollScope));
    LoseChained(marked, VerifyToken(0), r);
  }

  lemma RegistrationChained(s: State, step: Step)
    requires Chained(s) && RegistrationStep(step) && Next(s, step) != s
    ensures Chained(Next(s, step))
  {
    hide Chained, Next;
    match step {
      case BeginRegistration(jwt, challenge) => ChallengeChained(s, jwt, challenge);
      case TakeRegistration(r, jwt, challenge) => RedeemChained(s, r, jwt, challenge);
      case SaveCredential(r, credential) => SaveChained(s, r, credential);
      case MarkEnrolled(r) => MarkChained(s, r);
    }
  }

  lemma OtherChained(s: State, step: Step)
    requires Chained(s) && !MailStep(step) && !RegistrationStep(step) && Next(s, step) != s
    ensures Chained(Next(s, step))
  {
    hide Chained;
    var t := Next(s, step);
    match step {
      case BeginLogin(p, ch) => MintChained(s, Authentication(ch), p);
      case TakeLogin(r, ch) => TakeChained(s, r, Authentication(ch), LoggingIn);
      case MatchCredential(r, c) =>
        HandlerChained(s, r);
        LoseChained(s, VerifyToken(0), r);
        if c in s.credentials && s.credentials[c] == s.handlers[r].player {
          LiveRow(s, c);
          AdvanceChained(s, r, Matched(c));
        }
      case CreateSession(r, sid) =>
        HandlerChained(s, r);
        GrantChained(s, r, SessionGrant(sid));
        SessionChained(Granted(s, r, SessionGrant(sid)), sid, s.handlers[r].player);
        var granted := Granted(s, r, SessionGrant(sid));
        AdvanceChained(granted.(sessions := s.sessions[sid := s.handlers[r].player]), r, Issuing);
      case IssueSession(r, j) =>
        HandlerChained(s, r);
        JwtChained(s, j, Jwt(s.handlers[r].player, SessionScope));
        LoseChained(s.(jwts := s.jwts[j := Jwt(s.handlers[r].player, SessionScope)]),
                    VerifyToken(0), r);
      case Fail(r) => LoseChained(s, VerifyToken(0), r);
      case ExpireSecret(secret) => LoseChained(s, secret, 0);
      case ExpireSession(sid) => ExpiryChained(s, sid);
    }
  }

  lemma StepChained(s: State, step: Step)
    requires Chained(s)
    ensures Chained(Next(s, step))
  {
    hide Chained, Next;
    if Next(s, step) != s {
      if MailStep(step) {
        MailChained(s, step);
      } else if RegistrationStep(step) {
        RegistrationChained(s, step);
      } else {
        OtherChained(s, step);
      }
    }
  }

  lemma LiveCode(s: State, c: Id)
    requires Chained(s) && ExchangeCode(c) in s.live
    ensures s.live[ExchangeCode(c)].Some? && Verified(s, s.live[ExchangeCode(c)].value)
  {
  }

  lemma LiveJwt(s: State, j: Id)
    requires Chained(s) && j in s.jwts
    ensures Verified(s, s.jwts[j].sub)
  {
  }

  lemma LiveRow(s: State, c: Id)
    requires Chained(s) && c in s.credentials
    ensures Verified(s, s.credentials[c])
  {
  }

  /** Whoever has a session, or is about to, owns a credential row. */
  ghost predicate Owned(s: State) {
    && (forall r :: r in s.handlers && PastRow(s.handlers[r].stage) ==> Owns(s, s.handlers[r].player))
    && (forall sid :: sid in s.sessions ==> Owns(s, s.sessions[sid]))
  }

  /** The saved credential is new, or its player owns one already. */
  ghost predicate Untaken(s: State, step: Step) {
    step.SaveCredential? && step.r in s.handlers && s.handlers[step.r].stage.Registering? ==>
      step.credential !in s.credentials || Owns(s, s.handlers[step.r].player)
  }

  /** Stages a handler should reach for an owner only. */
  predicate PastRow(stage: Stage) {
    stage.Saved? || stage.Enrolled? || stage.Matched?
  }

  predicate SameRows(s: State, t: State) {
    s.credentials == t.credentials && s.handlers == t.handlers && s.sessions == t.sessions
  }

  lemma SameOwned(s: State, t: State)
    requires Owned(s) && SameRows(s, t)
    ensures Owned(t)
  {
    assert forall p :: Owns(s, p) ==> Owns(t, p);
    hide Owns;
  }

  lemma HoldOwned(s: State, r: Id, h: Handler)
    requires Owned(s)
    ensures Owned(s.(handlers := s.handlers[r := h])) <==> (PastRow(h.stage) ==> Owns(s, h.player))
  {
    var t := s.(handlers := s.handlers[r := h]);
    assert forall p :: Owns(s, p) <==> Owns(t, p);
    hide Owns;
    assert t.handlers[r] == h;
  }

  lemma DoneOwned(s: State, r: Id, sid: Id)
    requires Owned(s)
    ensures Owned(Done(s, r)) && Owned(s.(sessions := s.sessions - {sid}))
  {
    var t, u := Done(s, r), s.(sessions := s.sessions - {sid});
    assert forall p :: Owns(s, p) ==> Owns(t, p) && Owns(u, p);
    hide Owns;
  }

  lemma RowOwned(s: State, c: Id, p: PlayerId)
    requires Owned(s) && c !in s.credentials
    ensures var t := s.(credentials := s.credentials[c := p]); Owned(t) && Owns(t, p)
  {
    var t := s.(credentials := s.credentials[c := p]);
    forall q | Owns(s, q) ensures Owns(t, q) {
      var d :| d in s.credentials && s.credentials[d] == q;
      assert t.credentials[d] == q;
    }
    assert t.credentials[c] == p;
    hide Owns;
  }

  lemma SessionOwned(s: State, sid: Id, p: PlayerId)
    requires Owned(s) && Owns(s, p)
    ensures Owned(s.(sessions := s.sessions[sid := p]))
  {
    var t := s.(sessions := s.sessions[sid := p]);
    assert forall q :: Owns(s, q) ==> Owns(t, q);
    hide Owns;
  }

  lemma HandlerOwned(s: State, r: Id)
    requires Owned(s) && r in s.handlers
    ensures PastRow(s.handlers[r].stage) ==> Owns(s, s.handlers[r].player)
  {
    hide Owns;
  }

  lemma MailOwned(s: State, step: Step)
    requires Owned(s) && MailStep(step) && Next(s, step) != s
    ensures Owned(Next(s, step))
  {
    hide Owned, Owns;
    var t := Next(s, step);
    match step {
      case Register(_) => SameOwned(s, t);
      case MailToken(_, _) => SameOwned(s, t);
      case TakeToken(r, k) => TakeOwned(s, r, VerifyToken(k), Found);
      case MarkVerified(r) =>
        HoldOwned(s, r, s.handlers[r].(stage := Marked));
        SameOwned(Advance(s, r, Marked), t);
      case StoreCode(r, c) =>
        DoneOwned(s, r, 0);
        SameOwned(Done(s, r), t);
      case TakeCode(r, c) => TakeOwned(s, r, ExchangeCode(c), Exchanging);
      case IssueEnroll(r, j) =>
        DoneOwned(s, r, 0);
        SameOwned(Done(s, r), t);
    }
  }

  lemma MarkOwned(s: State, r: Id)
    requires Owned(s) && Next(s, MarkEnrolled(r)) != s
    ensures Owned(Next(s, MarkEnrolled(r)))
  {
    hide Owned, Owns;
    var h := s.handlers[r];
    HandlerOwned(s, r);
    var marked := s.(players := s.players[h.player := s.players[h.player].(enrolled := true)]);
    SameOwned(s, marked);
    SameOwns(s, marked, h.player);
    HoldOwned(marked, r, h.(stage := Enrolled(EnrollScope)));
    DoneOwned(marked, r, 0);
  }

  lemma OtherOwned(s: State, step: Step)
    requires Owned(s) && !MailStep(step) && !step.SaveCredential? && !step.MarkEnrolled? && Next(s, step) != s
    ensures Owned(Next(s, step))
  {
    hide Owned, Owns;
    var t := Next(s, step);
    match step {
      case TakeRegistration(r, j, ch) =>
        SameOwned(s, s.(live := s.live - {Registration(ch)}));
        TakeOwned(s, r, Registration(ch), Registering(s.jwts[j].scope));
      case TakeLogin(r, ch) => TakeOwned(s, r, Authentication(ch), LoggingIn);
      case MatchCredential(r, c) =>
        DoneOwned(s, r, 0);
        if c in s.credentials && s.credentials[c] == s.handlers[r].player {
          RowMeansOwner(s, c);
          HoldOwned(s, r, s.handlers[r].(stage := Matched(c)));
        }
      case CreateSession(r, sid) =>
        HandlerOwned(s, r);
        SessionOwned(s, sid, s.handlers[r].player);
        var held := s.(sessions := s.sessions[sid := s.handlers[r].player]);
        HoldOwned(held, r, s.handlers[r].(stage := Issuing));
        SameOwned(held.(handlers := t.handlers), t);
      case IssueSession(r, _) =>
        DoneOwned(s, r, 0);
        SameOwned(Done(s, r), t);
      case Fail(r) => DoneOwned(s, r, 0);
      case ExpireSession(sid) => DoneOwned(s, 0, sid);
      case _ => SameOwned(s, t);
    }
  }

  /** One step keeps this exactly unless it saves a credential whose row another player
      has, for a player who owns none: the row stays with its owner. */
  lemma StepOwned(s: State, step: Step)
    requires Owned(s)
    ensures Owned(Next(s, step)) <==> Untaken(s, step)
  {
    if step.SaveCredential? {
      if step.r in s.handlers && s.handlers[step.r].stage.Registering? {
        SaveOwned(s, step.r, step.credential);
      }
      hide Owned, Owns;
    } else if Next(s, step) != s {
      hide Next, Owned;
      if MailStep(step) {
        MailOwned(s, step);
      } else if step.MarkEnrolled? {
        MarkOwned(s, step.r);
      } else {
        OtherOwned(s, step);
      }
    }
  }

  lemma TakeOwned(s: State, r: Id, secret: Secret, stage: Stage)
    requires Owned(s) && !PastRow(stage)
    ensures Owned(Take(s, r, secret, stage))
  {
    hide Owned;
    if r !in s.handlers && secret in s.live && s.live[secret].Some? {
      HoldOwned(s, r, Handler(stage, s.live[secret].value, secret));
      var held := s.(handlers := s.handlers[r := Handler(stage, s.live[secret].value, secret)]);
      SameOwned(held, Take(s, r, secret, stage));
    } else {
      SameOwned(s, Take(s, r, secret, stage));
    }
  }

  lemma SaveOwned(s: State, r: Id, c: Id)
    requires Owned(s) && r in s.handlers && s.handlers[r].stage.Registering?
    ensures Owned(Next(s, SaveCredential(r, c))) <==> c !in s.credentials || Owns(s, s.handlers[r].player)
  {
    hide Owned, Owns;
    var h := s.handlers[r];
    if c !in s.credentials {
      RowOwned(s, c, h.player);
      HoldOwned(s.(credentials := s.credentials[c := h.player]), r, h.(stage := Saved(h.stage.scope)));
    } else {
      HoldOwned(s, r, h.(stage := Saved(h.stage.scope)));
    }
  }

  lemma SameOwns(s: State, t: State, p: PlayerId)
    requires s.credentials == t.credentials
    ensures Owns(s, p) <==> Owns(t, p)
  {
  }

  lemma RowMeansOwner(s: State, c: Id)
    requires c in s.credentials
    ensures Owns(s, s.credentials[c])
  {
  }

  // ---- Whole runs ----

  lemma StartIsGood()
    ensures OneUse(START) && Chained(START) && Owned(START)
  {
  }

  /** In every interleaving each grant comes from a secret of its kind, no two grants come
      from one secret, and only verified players have enrol tokens or sessions. */
  lemma {:induction false} AlwaysChained(steps: seq<Step>)
    ensures OneUse(Run(START, steps)) && Chained(Run(START, steps))
  {
    hide OneUse, Chained, Next;
    StartIsGood();
    if steps != [] {
      AlwaysChained(steps[..|steps| - 1]);
      StepOneUse(Run(START, steps[..|steps| - 1]), steps[|steps| - 1]);
      StepChained(Run(START, steps[..|steps| - 1]), steps[|steps| - 1]);
    }
  }

  /** Verification mails go to registered players only. */
  predicate Addressed(s: State) {
    forall k :: k in s.live && k.VerifyToken? ==> s.live[k].Some? && s.live[k].value in s.players
  }

  lemma MailAddressed(s: State, step: Step)
    requires Addressed(s) && MailStep(step)
    ensures Addressed(Next(s, step))
  {
  }

  lemma RegistrationAddressed(s: State, step: Step)
    requires Addressed(s) && RegistrationStep(step)
    ensures Addressed(Next(s, step))
  {
    hide Next;
    if step.BeginRegistration? || step.TakeRegistration? {
      ChallengeAddressed(s, step);
    } else {
      CeremonyAddressed(s, step);
    }
  }

  lemma ChallengeAddressed(s: State, step: Step)
    requires Addressed(s) && (step.BeginRegistration? || step.TakeRegistration?)
    ensures Addressed(Next(s, step))
  {
  }

  lemma CeremonyAddressed(s: State, step: Step)
    requires Addressed(s) && (step.SaveCredential? || step.MarkEnrolled?)
    ensures Addressed(Next(s, step))
  {
    hide Addressed;
    SameTokens(s, Next(s, step));
  }

  lemma SameTokens(s: State, t: State)
    requires Addressed(s) && t.live == s.live && s.players.Keys <= t.players.Keys
    ensures Addressed(t)
  {
  }

  lemma OtherAddressed(s: State, step: Step)
    requires Addressed(s) && !MailStep(step) && !RegistrationStep(step)
    ensures Addressed(Next(s, step))
  {
  }

  lemma StepAddressed(s: State, step: Step)
    requires Addressed(s)
    ensures Addressed(Next(s, step))
  {
    hide Next, Addressed;
    if MailStep(step) {
      MailAddressed(s, step);
    } else if RegistrationStep(step) {
      RegistrationAddressed(s, step);
    } else {
      OtherAddressed(s, step);
    }
  }

  lemma {:induction false} AlwaysAddressed(steps: seq<Step>)
    ensures Addressed(Run(START, steps))
  {
    if steps != [] {
      hide Next;
      AlwaysAddressed(steps[..|steps| - 1]);
      StepAddressed(Run(START, steps[..|steps| - 1]), steps[|steps| - 1]);
    }
  }

  /** A mailed token gives one code at most, a code one enrol token, a challenge one session. */
  lemma OneGrantEach(steps: seq<Step>, g: Grant, h: Grant)
    requires g in Run(START, steps).origin && h in Run(START, steps).origin
    requires Run(START, steps).origin[g] == Run(START, steps).origin[h]
    ensures g == h
    ensures ComesFrom(g, Run(START, steps).origin[g])
  {
    AlwaysChained(steps);
    hide Run;
  }

  /** Every session belongs to a verified player and goes back to a challenge. */
  lemma SessionsAreVerified(steps: seq<Step>, sid: Id)
    requires sid in Run(START, steps).sessions
    ensures var s := Run(START, steps);
            && Verified(s, s.sessions[sid])
            && SessionGrant(sid) in s.origin
            && (s.origin[SessionGrant(sid)].Registration? || s.origin[SessionGrant(sid)].Authentication?)
  {
    AlwaysChained(steps);
    var s := Run(START, steps);
    hide Run;
    assert ComesFrom(SessionGrant(sid), s.origin[SessionGrant(sid)]);
  }

  ghost predicate UntakenThroughout(steps: seq<Step>) {
    steps == [] ||
    (UntakenThroughout(steps[..|steps| - 1]) && Untaken(Run(START, steps[..|steps| - 1]), steps[|steps| - 1]))
  }

  lemma {:induction false} OwnedThroughout(steps: seq<Step>)
    requires UntakenThroughout(steps)
    ensures Owned(Run(START, steps))
  {
    hide Owned, Next, Untaken;
    StartIsGood();
    if steps != [] {
      OwnedThroughout(steps[..|steps| - 1]);
      StepOwned(Run(START, steps[..|steps| - 1]), steps[|steps| - 1]);
    }
  }

  /** Where no one saves another's credential for a first enrolment, every session's
      player owns a credential row. */
  lemma SessionsOwnCredentials(steps: seq<Step>, sid: Id)
    requires UntakenThroughout(steps) && sid in Run(START, steps).sessions
    ensures var s := Run(START, steps); Verified(s, s.sessions[sid]) && Owns(s, s.sessions[sid])
  {
    OwnedThroughout(steps);
    SessionsAreVerified(steps, sid);
  }
}
