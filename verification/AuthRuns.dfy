/** The auth service's chains left alone, from their first request to their last: a first
    enrolment, a login, another passkey. */
module AuthRuns {
  import opened Wrappers
  import opened Auth

  // ---- A first enrolment from end to end ----

  // One player's requests, one after the other; the number `n` stands for each of their
  // identifiers.

  function MailSteps(p: PlayerId, n: Id): seq<Step> { [Register(p), MailToken(p, n)] }

  function VerifySteps(n: Id): seq<Step> { [TakeToken(n, n), MarkVerified(n), StoreCode(n, n)] }

  function ExchangeSteps(n: Id): seq<Step> { [TakeCode(n, n), IssueEnroll(n, n)] }

  function ChallengeSteps(n: Id): seq<Step> { [BeginRegistration(n, n), TakeRegistration(n, n, n)] }

  function PasskeySteps(n: Id, credential: Id): seq<Step> {
    [SaveCredential(n, credential), MarkEnrolled(n), CreateSession(n, n)]
  }

  function Enrolment(p: PlayerId, n: Id, credential: Id): seq<Step> {
    MailSteps(p, n) + VerifySteps(n) + ExchangeSteps(n) + ChallengeSteps(n) + PasskeySteps(n, credential)
  }

  predicate Unseen(s: State, p: PlayerId, n: Id) {
    && p !in s.players && n !in s.handlers && n !in s.jwts
    && VerifyToken(n) !in s.minted && ExchangeCode(n) !in s.minted && Registration(n) !in s.minted
    && VerifyToken(n) !in s.live && ExchangeCode(n) !in s.live && Registration(n) !in s.live
    && CodeGrant(n) !in s.origin && EnrollGrant(n) !in s.origin && SessionGrant(n) !in s.origin
  }

  function Mailed(s: State, p: PlayerId, n: Id): State {
    s.(players := s.players[p := Player(false, false)], live := s.live[VerifyToken(n) := Some(p)],
       minted := s.minted + {VerifyToken(n)})
  }

  function WithCode(s: State, p: PlayerId, n: Id): State {
    s.(players := s.players[p := Player(true, false)], live := s.live[ExchangeCode(n) := Some(p)],
       minted := s.minted + {VerifyToken(n)} + {ExchangeCode(n)}, origin := s.origin[CodeGrant(n) := VerifyToken(n)])
  }

  function WithJwt(s: State, p: PlayerId, n: Id): State {
    s.(players := s.players[p := Player(true, false)],
       minted := s.minted + {VerifyToken(n)} + {ExchangeCode(n)},
       origin := s.origin[CodeGrant(n) := VerifyToken(n)][EnrollGrant(n) := ExchangeCode(n)],
       jwts := s.jwts[n := Jwt(p, EnrollScope)])
  }

  function Challenged(s: State, p: PlayerId, n: Id): State {
    s.(minted := s.minted + {Registration(n)},
       handlers := s.handlers[n := Handler(Registering(EnrollScope), p, Registration(n))])
  }

  function WithSession(s: State, p: PlayerId, n: Id, credential: Id): State {
    s.(players := s.players[p := Player(true, true)],
       credentials := if credential in s.credentials then s.credentials else s.credentials[credential := p],
       origin := s.origin[SessionGrant(n) := Registration(n)], sessions := s.sessions[n := p],
       handlers := s.handlers[n := Handler(Issuing, p, Registration(n))])
  }

  lemma {:induction false} RunConcat(s: State, a: seq<Step>, b: seq<Step>)
    ensures Run(s, a + b) == Run(Run(s, a), b)
  {
    hide Next;
    if b == [] {
      assert a + b == a;
    } else {
      RunConcat(s, a, b[..|b| - 1]);
      assert (a + b)[..|a + b| - 1] == a + b[..|b| - 1];
    }
  }

  lemma RunTwo(s: State, a: Step, b: Step)
    ensures Run(s, [a, b]) == Next(Next(s, a), b)
  {
    hide Next;
    assert [a][..0] == [] && Run(s, [a]) == Next(s, a);
    assert [a, b][..1] == [a];
  }

  lemma RunThree(s: State, a: Step, b: Step, c: Step)
    ensures Run(s, [a, b, c]) == Next(Next(Next(s, a), b), c)
  {
    hide Next;
    RunTwo(s, a, b);
    assert [a, b, c][..2] == [a, b];
  }

  lemma MailRuns(s: State, p: PlayerId, n: Id)
    requires Unseen(s, p, n)
    ensures Run(s, MailSteps(p, n)) == Mailed(s, p, n)
  {
    hide Run;
    RunTwo(s, Register(p), MailToken(p, n));
  }

  lemma VerifyRuns(s: State, p: PlayerId, n: Id)
    requires Unseen(s, p, n)
    ensures Run(Mailed(s, p, n), VerifySteps(n)) == WithCode(s, p, n)
  {
    hide Run, Next, Mailed, WithCode, Unseen;
    RunThree(Mailed(s, p, n), TakeToken(n, n), MarkVerified(n), StoreCode(n, n));
    VerifyStates(s, p, n);
  }

  lemma VerifyStates(s: State, p: PlayerId, n: Id)
    requires Unseen(s, p, n)
    ensures Next(Next(Next(Mailed(s, p, n), TakeToken(n, n)), MarkVerified(n)), StoreCode(n, n)) == WithCode(s, p, n)
  {
    hide Next;
    var m := Mailed(s, p, n);
    TokenTaken(s, p, n);
    var found := Next(m, TakeToken(n, n));
    PlayerMarked(found, p, n);
    CodeStored(Next(found, MarkVerified(n)), p, n);
    assert s.handlers[n := Handler(Marked, p, VerifyToken(n))] - {n} == s.handlers;
  }

  lemma TokenTaken(s: State, p: PlayerId, n: Id)
    requires Unseen(s, p, n)
    ensures var m := Mailed(s, p, n);
            Next(m, TakeToken(n, n))
            == m.(live := s.live, handlers := s.handlers[n := Handler(Found, p, VerifyToken(n))])
  {
    assert s.live[VerifyToken(n) := Some(p)] - {VerifyToken(n)} == s.live;
  }

  lemma PlayerMarked(s: State, p: PlayerId, n: Id)
    requires n in s.handlers && s.handlers[n] == Handler(Found, p, VerifyToken(n))
    requires p in s.players && s.players[p] == Player(false, false)
    ensures Next(s, MarkVerified(n))
         == s.(players := s.players[p := Player(true, false)],
               handlers := s.handlers[n := Handler(Marked, p, VerifyToken(n))])
  {
  }

  lemma CodeStored(s: State, p: PlayerId, n: Id)
    requires n in s.handlers && s.handlers[n] == Handler(Marked, p, VerifyToken(n))
    requires ExchangeCode(n) !in s.minted && CodeGrant(n) !in s.origin
    ensures Next(s, StoreCode(n, n))
         == s.(live := s.live[ExchangeCode(n) := Some(p)], minted := s.minted + {ExchangeCode(n)},
               origin := s.origin[CodeGrant(n) := VerifyToken(n)], handlers := s.handlers - {n})
  {
  }

  lemma ExchangeRuns(s: State, p: PlayerId, n: Id)
    requires Unseen(s, p, n)
    ensures Run(WithCode(s, p, n), ExchangeSteps(n)) == WithJwt(s, p, n)
  {
    hide Run;
    var c := WithCode(s, p, n);
    RunTwo(c, TakeCode(n, n), IssueEnroll(n, n));
    var taken := Next(c, TakeCode(n, n));
    assert taken == c.(live := s.live, handlers := s.handlers[n := Handler(Exchanging, p, ExchangeCode(n))]);
    hide Next;
    EnrollIssued(taken, p, n);
    assert s.handlers[n := Handler(Exchanging, p, ExchangeCode(n))] - {n} == s.handlers;
  }

  lemma EnrollIssued(s: State, p: PlayerId, n: Id)
    requires n in s.handlers && s.handlers[n] == Handler(Exchanging, p, ExchangeCode(n))
    requires n !in s.jwts && EnrollGrant(n) !in s.origin
    ensures Next(s, IssueEnroll(n, n))
         == s.(origin := s.origin[EnrollGrant(n) := ExchangeCode(n)], jwts := s.jwts[n := Jwt(p, EnrollScope)],
               handlers := s.handlers - {n})
  {
  }

  lemma ChallengeRuns(s: State, p: PlayerId, n: Id)
    requires n in s.jwts && s.jwts[n] == Jwt(p, EnrollScope) && n !in s.handlers
    requires Registration(n) !in s.minted && Registration(n) !in s.live
    ensures Run(s, ChallengeSteps(n)) == Challenged(s, p, n)
  {
    hide Run;
    RunTwo(s, BeginRegistration(n, n), TakeRegistration(n, n, n));
    assert s.live[Registration(n) := Some(p)] - {Registration(n)} == s.live;
  }

  lemma PasskeyRuns(s: State, p: PlayerId, n: Id, credential: Id)
    requires p in s.players && s.players[p] == Player(true, false) && SessionGrant(n) !in s.origin
    requires n in s.handlers && s.handlers[n] == Handler(Registering(EnrollScope), p, Registration(n))
    ensures Run(s, PasskeySteps(n, credential)) == WithSession(s, p, n, credential)
  {
    hide Run;
    RunThree(s, SaveCredential(n, credential), MarkEnrolled(n), CreateSession(n, n));
    hide Next;
    RowSaved(s, p, n, credential);
    EnrolledMarked(Next(s, SaveCredential(n, credential)), p, n);
    SessionStored(Next(Next(s, SaveCredential(n, credential)), MarkEnrolled(n)), p, n);
  }

  lemma RowSaved(s: State, p: PlayerId, n: Id, credential: Id)
    requires n in s.handlers && s.handlers[n] == Handler(Registering(EnrollScope), p, Registration(n))
    ensures Next(s, SaveCredential(n, credential))
         == s.(credentials := if credential in s.credentials then s.credentials else s.credentials[credential := p],
               handlers := s.handlers[n := Handler(Saved(EnrollScope), p, Registration(n))])
  {
  }

  lemma EnrolledMarked(s: State, p: PlayerId, n: Id)
    requires n in s.handlers && s.handlers[n] == Handler(Saved(EnrollScope), p, Registration(n))
    requires p in s.players && s.players[p] == Player(true, false)
    ensures Next(s, MarkEnrolled(n))
         == s.(players := s.players[p := Player(true, true)],
               handlers := s.handlers[n := Handler(Enrolled(EnrollScope), p, Registration(n))])
  {
  }

  lemma SessionStored(s: State, p: PlayerId, n: Id)
    requires n in s.handlers && s.handlers[n] == Handler(Enrolled(EnrollScope), p, Registration(n))
    requires SessionGrant(n) !in s.origin
    ensures Next(s, CreateSession(n, n))
         == s.(origin := s.origin[SessionGrant(n) := Registration(n)], sessions := s.sessions[n := p],
               handlers := s.handlers[n := Handler(Issuing, p, Registration(n))])
  {
  }

  lemma StillUnseen(s: State, p: PlayerId, n: Id, credential: Id)
    ensures var t := WithSession(Challenged(WithJwt(s, p, n), p, n), p, n, credential);
            forall q, m :: q != p && m != n && Unseen(s, q, m) ==> Unseen(t, q, m)
  {
  }

  lemma EnrolmentParts(s: State, p: PlayerId, n: Id, credential: Id)
    ensures Run(s, Enrolment(p, n, credential))
         == Run(Run(Run(Run(Run(s, MailSteps(p, n)), VerifySteps(n)), ExchangeSteps(n)), ChallengeSteps(n)),
                PasskeySteps(n, credential))
  {
    hide Run, Next;
    var a, b, c := MailSteps(p, n), VerifySteps(n), ExchangeSteps(n);
    var d, e := ChallengeSteps(n), PasskeySteps(n, credential);
    hide MailSteps, VerifySteps, ExchangeSteps, ChallengeSteps, PasskeySteps;
    RunConcat(s, a, b);
    RunConcat(s, a + b, c);
    RunConcat(s, a + b + c, d);
    RunConcat(s, a + b + c + d, e);
  }

  lemma JwtIssued(s: State, p: PlayerId, n: Id)
    requires Unseen(s, p, n)
    ensures var t := WithJwt(s, p, n);
            && n in t.jwts && t.jwts[n] == Jwt(p, EnrollScope) && n !in t.handlers
            && Registration(n) !in t.minted && Registration(n) !in t.live && SessionGrant(n) !in t.origin
            && p in t.players && t.players[p] == Player(true, false) && t.credentials == s.credentials
            && t.jwts == s.jwts[n := Jwt(p, EnrollScope)] && t.handlers == s.handlers
  {
  }

  /** Left alone, the chain completes from any state: the new player ends verified, with a
      session, and with the credential unless another player has its row. */
  lemma EnrolmentCompletes(s: State, p: PlayerId, n: Id, credential: Id)
    requires Unseen(s, p, n)
    ensures var t := Run(s, Enrolment(p, n, credential));
            && Verified(t, p) && n in t.sessions && t.sessions[n] == p
            && t.jwts == s.jwts[n := Jwt(p, EnrollScope)]
            && t.handlers == s.handlers[n := Handler(Issuing, p, Registration(n))]
            && t.credentials == (if credential in s.credentials then s.credentials else s.credentials[credential := p])
            && (forall q, m :: q != p && m != n && Unseen(s, q, m) ==> Unseen(t, q, m))
  {
    hide Run, Next, Unseen, Enrolment;
    EnrolmentEnds(s, p, n, credential);
    StillUnseen(s, p, n, credential);
  }

  lemma EnrolmentEnds(s: State, p: PlayerId, n: Id, credential: Id)
    requires Unseen(s, p, n)
    ensures Run(s, Enrolment(p, n, credential))
         == WithSession(Challenged(WithJwt(s, p, n), p, n), p, n, credential)
  {
    hide Run, Next, Unseen, Enrolment;
    EnrolmentParts(s, p, n, credential);
    hide MailSteps, VerifySteps, ExchangeSteps, ChallengeSteps, PasskeySteps;
    JwtIssued(s, p, n);
    hide WithJwt, Mailed, WithCode;
    MailRuns(s, p, n);
    VerifyRuns(s, p, n);
    ExchangeRuns(s, p, n);
    ChallengeRuns(WithJwt(s, p, n), p, n);
    PasskeyRuns(Challenged(WithJwt(s, p, n), p, n), p, n, credential);
  }

  lemma RunOneMore(s: State, steps: seq<Step>, step: Step)
    ensures Run(s, steps + [step]) == Next(Run(s, steps), step)
  {
    hide Next;
    assert (steps + [step])[..|steps|] == steps;
  }

  /** And with the session comes its token. */
  lemma EnrolmentSignsIn(s: State, p: PlayerId, n: Id, credential: Id, jwt: Id)
    requires Unseen(s, p, n) && jwt != n && jwt !in s.jwts
    ensures var t := Run(s, Enrolment(p, n, credential) + [IssueSession(n, jwt)]);
            && n in t.sessions && t.sessions[n] == p && n !in t.handlers
            && jwt in t.jwts && t.jwts[jwt] == Jwt(p, SessionScope)
  {
    hide Run, Unseen, Enrolment;
    EnrolmentCompletes(s, p, n, credential);
    RunOneMore(s, Enrolment(p, n, credential), IssueSession(n, jwt));
  }

  // ---- Logging in ----

  function LoginSteps(challenge: Id, r: Id, credential: Id, session: Id): seq<Step> {
    [TakeLogin(r, challenge), MatchCredential(r, credential), CreateSession(r, session)]
  }

  /** The credential is the one of the account the challenge was asked for. */
  predicate Matches(s: State, account: Option<PlayerId>, credential: Id) {
    credential in s.credentials && account == Some(s.credentials[credential])
  }

  /** Answering a live challenge gives its player a session exactly when the credential
      presented is the player's own; the challenge is used up either way. */
  lemma LoginDecides(s: State, challenge: Id, r: Id, credential: Id, session: Id)
    requires r !in s.handlers && SessionGrant(session) !in s.origin && Authentication(challenge) in s.live
    ensures var secret := Authentication(challenge);
            var account := s.live[secret];
            Run(s, LoginSteps(challenge, r, credential, session)) ==
            if Matches(s, account, credential) then
              s.(live := s.live - {secret}, origin := s.origin[SessionGrant(session) := secret],
                 sessions := s.sessions[session := account.value],
                 handlers := s.handlers[r := Handler(Issuing, account.value, secret)])
            else s.(live := s.live - {secret})
  {
    hide Run, Next, Matches;
    RunThree(s, TakeLogin(r, challenge), MatchCredential(r, credential), CreateSession(r, session));
    if Matches(s, s.live[Authentication(challenge)], credential) {
      LoginWorks(s, challenge, r, credential, session);
    } else {
      LoginRefused(s, challenge, r, credential, session);
    }
  }

  lemma LoginWorks(s: State, challenge: Id, r: Id, credential: Id, session: Id)
    requires r !in s.handlers && SessionGrant(session) !in s.origin && Authentication(challenge) in s.live
    requires Matches(s, s.live[Authentication(challenge)], credential)
    ensures var secret := Authentication(challenge);
            var p := s.live[secret].value;
            Next(Next(Next(s, TakeLogin(r, challenge)), MatchCredential(r, credential)), CreateSession(r, session)) ==
            s.(live := s.live - {secret}, origin := s.origin[SessionGrant(session) := secret],
               sessions := s.sessions[session := p], handlers := s.handlers[r := Handler(Issuing, p, secret)])
  {
    hide Next;
    var secret := Authentication(challenge);
    var p := s.live[secret].value;
    LoginTaken(s, challenge, r);
    var taken := Next(s, TakeLogin(r, challenge));
    CredentialMatched(taken, r, credential, p, secret);
    SessionOpened(Next(taken, MatchCredential(r, credential)), r, credential, session, p, secret);
  }

  lemma LoginRefused(s: State, challenge: Id, r: Id, credential: Id, session: Id)
    requires r !in s.handlers && Authentication(challenge) in s.live
    requires !Matches(s, s.live[Authentication(challenge)], credential)
    ensures Next(Next(Next(s, TakeLogin(r, challenge)), MatchCredential(r, credential)), CreateSession(r, session))
         == s.(live := s.live - {Authentication(challenge)})
  {
    hide Next;
    var secret := Authentication(challenge);
    LoginTaken(s, challenge, r);
    var taken := Next(s, TakeLogin(r, challenge));
    NobodyThere(s.(live := s.live - {secret}), r, credential, session, 0);
    if s.live[secret].Some? {
      var p := s.live[secret].value;
      CredentialMatched(taken, r, credential, p, secret);
      assert s.handlers[r := Handler(LoggingIn, p, secret)] - {r} == s.handlers;
    }
  }

  lemma LoginTaken(s: State, challenge: Id, r: Id)
    requires r !in s.handlers && Authentication(challenge) in s.live
    ensures var secret := Authentication(challenge);
            var taken := s.(live := s.live - {secret});
            Next(s, TakeLogin(r, challenge)) ==
            if s.live[secret].Some? then
              taken.(handlers := s.handlers[r := Handler(LoggingIn, s.live[secret].value, secret)])
            else taken
  {
  }

  lemma CredentialMatched(s: State, r: Id, credential: Id, p: PlayerId, secret: Secret)
    requires r in s.handlers && s.handlers[r] == Handler(LoggingIn, p, secret)
    ensures Next(s, MatchCredential(r, credential)) ==
            if Matches(s, Some(p), credential) then
              s.(handlers := s.handlers[r := Handler(Matched(credential), p, secret)])
            else s.(handlers := s.handlers - {r})
  {
  }

  lemma SessionOpened(s: State, r: Id, credential: Id, session: Id, p: PlayerId, secret: Secret)
    requires r in s.handlers && s.handlers[r] == Handler(Matched(credential), p, secret)
    requires SessionGrant(session) !in s.origin
    ensures Next(s, CreateSession(r, session)) ==
            s.(origin := s.origin[SessionGrant(session) := secret], sessions := s.sessions[session := p],
               handlers := s.handlers[r := Handler(Issuing, p, secret)])
  {
  }

  lemma NobodyThere(s: State, r: Id, credential: Id, session: Id, jwt: Id)
    requires r !in s.handlers
    ensures Next(s, MatchCredential(r, credential)) == s && Next(s, CreateSession(r, session)) == s
    ensures Next(s, IssueSession(r, jwt)) == s
  {
  }

  /** A login from its first request to its token, on behalf of an account or of none: it
      leaves a session and a session token behind exactly when the credential is the
      account's own, and nothing at all otherwise. */
  lemma LoginCompletes(s: State, account: Option<PlayerId>, challenge: Id, r: Id, credential: Id, session: Id, jwt: Id)
    requires Authentication(challenge) !in s.minted && Authentication(challenge) !in s.live
    requires r !in s.handlers && SessionGrant(session) !in s.origin && jwt !in s.jwts
    ensures var steps := [BeginLogin(account, challenge)] + LoginSteps(challenge, r, credential, session)
                         + [IssueSession(r, jwt)];
            var asked := s.(minted := s.minted + {Authentication(challenge)});
            Run(s, steps) ==
            if Matches(s, account, credential) then
              asked.(origin := s.origin[SessionGrant(session) := Authentication(challenge)],
                     sessions := s.sessions[session := account.value],
                     jwts := s.jwts[jwt := Jwt(account.value, SessionScope)])
            else asked
  {
    hide Run, Next, LoginSteps, Matches, Mint;
    var secret := Authentication(challenge);
    var begun := Mint(s, secret, account);
    LoginRun(s, account, challenge, r, credential, session, jwt);
    Minted(s, secret, account);
    LoginDecides(begun, challenge, r, credential, session);
    MatchesIn(s, begun, account, credential);
    assert s.live[secret := account] - {secret} == s.live;
    if Matches(s, account, credential) {
      LoginEnds(s, begun, secret, r, session, jwt, account.value);
    } else {
      LoginEndsEmpty(s, begun, secret, r, jwt);
    }
  }

  lemma LoginRun(s: State, account: Option<PlayerId>, challenge: Id, r: Id, credential: Id, session: Id, jwt: Id)
    requires Authentication(challenge) !in s.minted
    ensures Run(s, [BeginLogin(account, challenge)] + LoginSteps(challenge, r, credential, session)
                   + [IssueSession(r, jwt)])
         == Next(Run(Mint(s, Authentication(challenge), account), LoginSteps(challenge, r, credential, session)),
                 IssueSession(r, jwt))
  {
    hide Run, Next, LoginSteps;
    var begin, login := [BeginLogin(account, challenge)], LoginSteps(challenge, r, credential, session);
    RunConcat(s, begin, login);
    RunOneMore(s, begin + login, IssueSession(r, jwt));
    OneStep(s, BeginLogin(account, challenge));
    LoginBegun(s, account, challenge);
  }

  lemma Minted(s: State, secret: Secret, account: Option<PlayerId>)
    ensures Mint(s, secret, account) == s.(live := s.live[secret := account], minted := s.minted + {secret})
  {
  }

  lemma MatchesIn(s: State, t: State, account: Option<PlayerId>, credential: Id)
    requires s.credentials == t.credentials
    ensures Matches(s, account, credential) <==> Matches(t, account, credential)
    ensures Matches(s, account, credential) ==> account.Some?
  {
  }

  lemma LoginEnds(s: State, begun: State, secret: Secret, r: Id, session: Id, jwt: Id, p: PlayerId)
    requires r !in s.handlers && jwt !in s.jwts && secret !in s.live
    requires begun == s.(live := s.live[secret := Some(p)], minted := s.minted + {secret})
    ensures Next(begun.(live := begun.live - {secret}, origin := begun.origin[SessionGrant(session) := secret],
                        sessions := begun.sessions[session := p],
                        handlers := begun.handlers[r := Handler(Issuing, p, secret)]),
                 IssueSession(r, jwt))
         == s.(minted := s.minted + {secret}, origin := s.origin[SessionGrant(session) := secret],
               sessions := s.sessions[session := p], jwts := s.jwts[jwt := Jwt(p, SessionScope)])
  {
    assert begun.live - {secret} == s.live;
    assert s.handlers[r := Handler(Issuing, p, secret)] - {r} == s.handlers;
  }

  lemma LoginEndsEmpty(s: State, begun: State, secret: Secret, r: Id, jwt: Id)
    requires r !in s.handlers && secret !in s.live
    requires begun.live - {secret} == s.live && begun == s.(live := begun.live, minted := s.minted + {secret})
    ensures Next(begun.(live := begun.live - {secret}), IssueSession(r, jwt)) == s.(minted := s.minted + {secret})
  {
  }

  lemma LoginBegun(s: State, account: Option<PlayerId>, challenge: Id)
    requires Authentication(challenge) !in s.minted
    ensures Next(s, BeginLogin(account, challenge)) == Mint(s, Authentication(challenge), account)
  {
  }

  lemma OneStep(s: State, step: Step)
    ensures Run(s, [step]) == Next(s, step)
  {
    hide Next;
    assert [step][..0] == [];
  }

  // ---- Another passkey ----

  function PasskeyAdded(jwt: Id, challenge: Id, r: Id, credential: Id): seq<Step> {
    [BeginRegistration(jwt, challenge), TakeRegistration(r, jwt, challenge), SaveCredential(r, credential)]
    + [MarkEnrolled(r)]
  }

  /** With a session token the ceremony adds a row, unless another has it, and opens no
      session. */
  lemma AnotherPasskey(s: State, jwt: Id, challenge: Id, r: Id, credential: Id)
    requires jwt in s.jwts && s.jwts[jwt].scope == SessionScope && s.jwts[jwt].sub in s.players
    requires Registration(challenge) !in s.minted && Registration(challenge) !in s.live && r !in s.handlers
    ensures var p := s.jwts[jwt].sub;
            Run(s, PasskeyAdded(jwt, challenge, r, credential))
            == s.(minted := s.minted + {Registration(challenge)},
                  credentials := if credential in s.credentials then s.credentials else s.credentials[credential := p],
                  players := s.players[p := s.players[p].(enrolled := true)])
  {
    hide Run, Next;
    var p, secret := s.jwts[jwt].sub, Registration(challenge);
    var a, b := BeginRegistration(jwt, challenge), TakeRegistration(r, jwt, challenge);
    var c := SaveCredential(r, credential);
    RunThree(s, a, b, c);
    RunOneMore(s, [a, b, c], MarkEnrolled(r));
    ChallengeAnswered(s, jwt, challenge, r);
    var taken := Next(Next(s, a), b);
    RowAdded(taken, p, r, credential, secret);
    PlayerEnrolled(Next(taken, c), p, r, secret);
    assert s.handlers[r := Handler(Saved(SessionScope), p, secret)] - {r} == s.handlers;
  }

  lemma ChallengeAnswered(s: State, jwt: Id, challenge: Id, r: Id)
    requires jwt in s.jwts && s.jwts[jwt].scope == SessionScope
    requires Registration(challenge) !in s.minted && Registration(challenge) !in s.live && r !in s.handlers
    ensures var secret := Registration(challenge);
            Next(Next(s, BeginRegistration(jwt, challenge)), TakeRegistration(r, jwt, challenge)) ==
            s.(minted := s.minted + {secret},
               handlers := s.handlers[r := Handler(Registering(SessionScope), s.jwts[jwt].sub, secret)])
  {
    var secret := Registration(challenge);
    assert Next(s, BeginRegistration(jwt, challenge)) == Mint(s, secret, Some(s.jwts[jwt].sub));
    assert s.live[secret := Some(s.jwts[jwt].sub)] - {secret} == s.live;
  }

  lemma RowAdded(s: State, p: PlayerId, r: Id, credential: Id, secret: Secret)
    requires r in s.handlers && s.handlers[r] == Handler(Registering(SessionScope), p, secret)
    ensures Next(s, SaveCredential(r, credential)) ==
            s.(credentials := if credential in s.credentials then s.credentials else s.credentials[credential := p],
               handlers := s.handlers[r := Handler(Saved(SessionScope), p, secret)])
  {
  }

  lemma PlayerEnrolled(s: State, p: PlayerId, r: Id, secret: Secret)
    requires r in s.handlers && s.handlers[r] == Handler(Saved(SessionScope), p, secret) && p in s.players
    ensures Next(s, MarkEnrolled(r)) ==
            s.(players := s.players[p := s.players[p].(enrolled := true)], handlers := s.handlers - {r})
  {
  }

  /** A registration challenge presented with another player's token is lost, to its own
      player too. */
  lemma ChallengeLost(s: State, r: Id, jwt: Id, challenge: Id, q: Id, own: Id)
    requires jwt in s.jwts && own in s.jwts && Registration(challenge) in s.live
    requires s.live[Registration(challenge)] == Some(s.jwts[own].sub) && s.jwts[jwt].sub != s.jwts[own].sub
    ensures var lost := s.(live := s.live - {Registration(challenge)});
            && Next(s, TakeRegistration(r, jwt, challenge)) == lost
            && Next(lost, TakeRegistration(q, own, challenge)) == lost
  {
  }

  /** Once it has expired a secret is redeemed by nobody. */
  lemma ExpiredIsLost(s: State, secret: Secret, r: Id, id: Id, jwt: Id)
    ensures var lost := Next(s, ExpireSecret(secret));
            && (secret == VerifyToken(id) ==> Next(lost, TakeToken(r, id)) == lost)
            && (secret == ExchangeCode(id) ==> Next(lost, TakeCode(r, id)) == lost)
            && (secret == Registration(id) ==> Next(lost, TakeRegistration(r, jwt, id)) == lost)
            && (secret == Authentication(id) ==> Next(lost, TakeLogin(r, id)) == lost)
  {
    var lost := s.(live := s.live - {secret});
    assert Next(s, ExpireSecret(secret)) == lost && secret !in lost.live;
    match secret
    case VerifyToken(_) =>
    case ExchangeCode(_) =>
    case Registration(_) =>
    case Authentication(_) =>
  }

  /** An expired session is gone, and so is a request that failed. */
  lemma GoneAfter(s: State, r: Id, session: Id)
    ensures session !in Next(s, ExpireSession(session)).sessions
    ensures r !in Next(s, Fail(r)).handlers && Next(s, Fail(r)).live == s.live
  {
  }

  /** Two players who enrol with one credential id, one after the other: the second has a
      session and no credential row. */
  lemma TakenCredential()
    ensures var s := Run(START, Enrolment(0, 0, 7) + Enrolment(1, 1, 7));
            1 in s.sessions && s.sessions[1] == 1 && Verified(s, 1) && !Owns(s, 1)
  {
    hide Run, Next, Enrolment;
    RunConcat(START, Enrolment(0, 0, 7), Enrolment(1, 1, 7));
    EnrolmentCompletes(START, 0, 0, 7);
    assert Unseen(START, 0, 0) && Unseen(START, 1, 1);
    EnrolmentCompletes(Run(START, Enrolment(0, 0, 7)), 1, 1, 7);
  }
}
