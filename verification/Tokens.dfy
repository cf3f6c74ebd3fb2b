/** Refresh-token families: registration, login, rotation, reuse detection and logout, each one
    atomic transaction.  Only the hash of a token is stored; a family is one login's rotation chain. */
module Tokens {
  import opened Wrappers

  type Hash = string
  type Family = nat
  type UserId = nat

  datatype Token = Token(user: UserId, family: Family, expiresAt: int, revokedAt: Option<int>)

  datatype User = User(id: UserId, passwordHash: string, suspended: bool)

  datatype AuthError = EmailAlreadyExists | InvalidCredentials | UserSuspended | InvalidToken | TokenExpired
                     | RefreshTokenReused | DuplicateHash

  /** The opaque functions, and the lifetime of a token. */
  datatype Config = Config(tokenHash: string -> Hash, passwordHash: string -> string,
                           verify: (string, string) -> bool, ttl: int)

  datatype State = State(now: int, users: map<string, User>, tokens: map<Hash, Token>, nextUser: UserId,
                         nextFamily: Family)

  /** The raw token a call issues is a parameter: it stands for the generator's randomness. */
  datatype Action =
    | Tick(to: int)
    | SetStatus(email: string, suspended: bool)
    | Register(email: string, password: string, issued: string)
    | Login(email: string, password: string, issued: string)
    | Refresh(presented: string, issued: string)
    | Logout(user: UserId, presented: string)

  datatype Reply = Reply(state: State, result: Result<Option<string>, AuthError>)

  predicate InFamily(tokens: map<Hash, Token>, h: Hash, family: Family) {
    h in tokens && tokens[h].family == family
  }

  predicate Live(tokens: map<Hash, Token>, h: Hash, family: Family) {
    InFamily(tokens, h, family) && tokens[h].revokedAt.None?
  }

  /** UPDATE ... SET revoked_at WHERE family_id = ... AND revoked_at IS NULL. */
  function RevokeFamily(tokens: map<Hash, Token>, family: Family, at: int): map<Hash, Token> {
    map h | h in tokens ::
      if tokens[h].family == family && tokens[h].revokedAt.None? then tokens[h].(revokedAt := Some(at)) else tokens[h]
  }

  /** `_issue_tokens`; the UNIQUE token_hash refuses a duplicate. */
  function Issue(c: Config, s: State, user: UserId, family: Family, raw: string): Option<State> {
    var h := c.tokenHash(raw);
    if h in s.tokens then None else Some(s.(tokens := s.tokens[h := Token(user, family, s.now + c.ttl, None)]))
  }

  /** A call that raises leaves the state alone. */
  function Issued(s: State, issued: Option<State>, raw: string): Reply {
    match issued
    case Some(s') => Reply(s', Ok(Some(raw)))
    case None => Reply(s, Err(DuplicateHash))
  }

  function CallRegister(c: Config, s: State, email: string, password: string, raw: string): Reply {
    if email in s.users then Reply(s, Err(EmailAlreadyExists))
    else
      var joined := s.(users := s.users[email := User(s.nextUser, c.passwordHash(password), false)],
                       nextUser := s.nextUser + 1, nextFamily := s.nextFamily + 1);
      Issued(s, Issue(c, joined, s.nextUser, s.nextFamily, raw), raw)
  }

  function CallLogin(c: Config, s: State, email: string, password: string, raw: string): Reply {
    if email !in s.users || !c.verify(password, s.users[email].passwordHash) then Reply(s, Err(InvalidCredentials))
    else if s.users[email].suspended then Reply(s, Err(UserSuspended))
    else Issued(s, Issue(c, s.(nextFamily := s.nextFamily + 1), s.users[email].id, s.nextFamily, raw), raw)
  }

  /** Reuse is the one error whose effect is committed. */
  function CallRefresh(c: Config, s: State, presented: string, raw: string): Reply {
    var h := c.tokenHash(presented);
    if h !in s.tokens then Reply(s, Err(InvalidToken))
    else
      var stored := s.tokens[h];
      if stored.revokedAt.Some? then
        Reply(s.(tokens := RevokeFamily(s.tokens, stored.family, s.now)), Err(RefreshTokenReused))
      else if stored.expiresAt < s.now then Reply(s, Err(TokenExpired))
      else
        var rotated := s.(tokens := s.tokens[h := stored.(revokedAt := Some(s.now))]);
        Issued(s, Issue(c, rotated, stored.user, stored.family, raw), raw)
  }

  function CallLogout(c: Config, s: State, user: UserId, presented: string): Reply {
    var h := c.tokenHash(presented);
    if h !in s.tokens || s.tokens[h].user != user then Reply(s, Ok(None))
    else Reply(s.(tokens := RevokeFamily(s.tokens, s.tokens[h].family, s.now)), Ok(None))
  }

  function Call(c: Config, s: State, a: Action): Reply {
    match a
    case Tick(to) => Reply(s.(now := if to > s.now then to else s.now), Ok(None))
    case SetStatus(email, suspended) =>
      Reply(if email in s.users then s.(users := s.users[email := s.users[email].(suspended := suspended)]) else s,
            Ok(None))
    case Register(email, password, raw) => CallRegister(c, s, email, password, raw)
    case Login(email, password, raw) => CallLogin(c, s, email, password, raw)
    case Refresh(presented, raw) => CallRefresh(c, s, presented, raw)
    case Logout(user, presented) => CallLogout(c, s, user, presented)
  }

  function Run(c: Config, s: State, actions: seq<Action>): State
    decreases |actions|
  {
    if actions == [] then s else Call(c, Run(c, s, actions[..|actions| - 1]), actions[|actions| - 1]).state
  }

  predicate Init(s: State) {
    s.users == map[] && s.tokens == map[]
  }

  // ------------------------------------------------------------ the invariant

  ghost predicate OneLive(tokens: map<Hash, Token>) {
    forall family, h, k :: Live(tokens, h, family) && Live(tokens, k, family) ==> h == k
  }

  ghost predicate OneOwner(tokens: map<Hash, Token>) {
    forall family, h, k ::
      InFamily(tokens, h, family) && InFamily(tokens, k, family) ==> tokens[h].user == tokens[k].user
  }

  ghost predicate Inv(s: State) {
    && OneLive(s.tokens) && OneOwner(s.tokens)
    && forall h :: h in s.tokens ==> s.tokens[h].family < s.nextFamily
  }

  /** Every token of the family is revoked. */
  ghost predicate Dead(tokens: map<Hash, Token>, family: Family) {
    forall h :: !Live(tokens, h, family)
  }

  /** What a call may do: tokens are never deleted, prolonged or handed to another user or family, a
      revocation is never undone or re-dated, and a family with no live token gains none. */
  ghost predicate Evolves(s: State, s': State) {
    && s.nextFamily <= s'.nextFamily
    && (forall h :: h in s.tokens ==>
          && h in s'.tokens && s'.tokens[h].family == s.tokens[h].family && s'.tokens[h].user == s.tokens[h].user
          && s'.tokens[h].expiresAt == s.tokens[h].expiresAt
          && (s.tokens[h].revokedAt.Some? ==> s'.tokens[h].revokedAt == s.tokens[h].revokedAt))
    && forall family: nat :: family < s.nextFamily && Dead(s.tokens, family) ==> Dead(s'.tokens, family)
  }

  lemma RevokeKeeps(s: State, family: Family)
    requires Inv(s)
    ensures var s' := s.(tokens := RevokeFamily(s.tokens, family, s.now));
            Inv(s') && Evolves(s, s') && Dead(s'.tokens, family)
  {
    var after := RevokeFamily(s.tokens, family, s.now);
    forall f, h | Live(after, h, f) ensures Live(s.tokens, h, f) {
    }
    forall f, h | InFamily(after, h, f) ensures InFamily(s.tokens, h, f) {
    }
  }

  lemma NewFamilyKeeps(c: Config, s: State, s': State, user: UserId, raw: string)
    requires Inv(s) && c.tokenHash(raw) !in s.tokens && s'.nextFamily == s.nextFamily + 1
    requires s'.tokens == s.tokens[c.tokenHash(raw) := Token(user, s.nextFamily, s.now + c.ttl, None)]
    ensures Inv(s') && Evolves(s, s')
  {
    var added := c.tokenHash(raw);
    forall f, h | Live(s'.tokens, h, f) && h != added ensures Live(s.tokens, h, f) {
    }
    forall f, h | InFamily(s'.tokens, h, f) && h != added ensures InFamily(s.tokens, h, f) {
    }
  }

  lemma RotateKeeps(s: State, h: Hash, newHash: Hash, next: Token)
    requires Inv(s) && h in s.tokens && s.tokens[h].revokedAt.None? && newHash !in s.tokens
    requires next.user == s.tokens[h].user && next.family == s.tokens[h].family && next.revokedAt.None?
    ensures var s' := s.(tokens := s.tokens[h := s.tokens[h].(revokedAt := Some(s.now))][newHash := next]);
            Inv(s') && Evolves(s, s')
  {
    var after := s.tokens[h := s.tokens[h].(revokedAt := Some(s.now))][newHash := next];
    assert Live(s.tokens, h, next.family);
    forall f, k | Live(after, k, f) && k != newHash ensures Live(s.tokens, k, f) && f != next.family {
      assert k != h && Live(s.tokens, k, f);
    }
    forall f, k | InFamily(after, k, f) && k != newHash ensures InFamily(s.tokens, k, f) {
    }
  }

  lemma CallKeeps(c: Config, s: State, a: Action)
    requires Inv(s)
    ensures Inv(Call(c, s, a).state) && Evolves(s, Call(c, s, a).state)
  {
    hide Dead, OneLive, OneOwner;
    match a
    case Register(email, password, raw) =>
      if email !in s.users && c.tokenHash(raw) !in s.tokens {
        NewFamilyKeeps(c, s, Call(c, s, a).state, s.nextUser, raw);
      }
    case Login(email, password, raw) =>
      if Call(c, s, a).result.Ok? {
        NewFamilyKeeps(c, s, Call(c, s, a).state, s.users[email].id, raw);
      }
    case Refresh(presented, raw) =>
      var h := c.tokenHash(presented);
      if h in s.tokens {
        if s.tokens[h].revokedAt.Some? {
          RevokeKeeps(s, s.tokens[h].family);
        } else if Call(c, s, a).result.Ok? {
          RotateKeeps(s, h, c.tokenHash(raw), Token(s.tokens[h].user, s.tokens[h].family, s.now + c.ttl, None));
        }
      }
    case Logout(user, presented) =>
      if c.tokenHash(presented) in s.tokens {
        RevokeKeeps(s, s.tokens[c.tokenHash(presented)].family);
      }
    case _ =>
  }

  lemma {:induction false} RunKeeps(c: Config, s: State, actions: seq<Action>)
    requires Inv(s)
    ensures Inv(Run(c, s, actions)) && Evolves(s, Run(c, s, actions))
  {
    hide Inv, Call, Evolves;
    if actions == [] {
      Unchanged(s);
    } else {
      var before := Run(c, s, actions[..|actions| - 1]);
      RunKeeps(c, s, actions[..|actions| - 1]);
      CallKeeps(c, before, actions[|actions| - 1]);
      EvolvesFurther(s, before, Run(c, s, actions));
    }
  }

  lemma Unchanged(s: State)
    ensures Evolves(s, s)
  {
  }

  lemma EvolvesFurther(a: State, b: State, c: State)
    requires Evolves(a, b) && Evolves(b, c)
    ensures Evolves(a, c)
  {
    hide Dead;
  }

  // ------------------------------------------------------------ what every run guarantees

  /** A family never has two tokens that still work. */
  lemma AtMostOneLive(c: Config, s: State, actions: seq<Action>, family: Family, h: Hash, k: Hash)
    requires Init(s)
    requires Live(Run(c, s, actions).tokens, h, family) && Live(Run(c, s, actions).tokens, k, family)
    ensures h == k
  {
    RunKeeps(c, s, actions);
  }

  /** Exactly when a refresh succeeds, and what it does: the presented token stops working, the token
      that is handed out starts to, for the same user and family, and no other family changes. */
  lemma RefreshRotates(c: Config, s: State, actions: seq<Action>, presented: string, raw: string)
    requires Init(s)
    ensures var t := Run(c, s, actions);
            var h, k, r := c.tokenHash(presented), c.tokenHash(raw), Call(c, t, Refresh(presented, raw));
            && (r.result.Ok? <==>
                  h in t.tokens && t.tokens[h].revokedAt.None? && t.now <= t.tokens[h].expiresAt && k !in t.tokens)
            && r.state.users == t.users
            && (r.result.Ok? ==>
                  var family := t.tokens[h].family;
                  && r.result == Ok(Some(raw)) && r.state.tokens[h] == t.tokens[h].(revokedAt := Some(t.now))
                  && (forall x :: Live(r.state.tokens, x, family) <==> x == k)
                  && r.state.tokens[k].user == t.tokens[h].user && r.state.tokens[k].expiresAt == t.now + c.ttl
                  && forall f, x :: f != family ==> (Live(r.state.tokens, x, f) <==> Live(t.tokens, x, f)))
  {
    RunKeeps(c, s, actions);
    var t := Run(c, s, actions);
    var h := c.tokenHash(presented);
    var r := Call(c, t, Refresh(presented, raw));
    if r.result.Ok? {
      var family := t.tokens[h].family;
      assert Live(t.tokens, h, family);
      forall x ensures Live(r.state.tokens, x, family) <==> x == c.tokenHash(raw) {
        assert x != c.tokenHash(raw) && Live(r.state.tokens, x, family) ==> Live(t.tokens, x, family);
      }
    }
  }

  /** Which error a refresh raises, and when; all but the reuse leave everything as it was. */
  lemma {:induction false} RefreshErrors(c: Config, t: State, presented: string, raw: string)
    ensures var h, r := c.tokenHash(presented), Call(c, t, Refresh(presented, raw));
            && (r.result == Err(InvalidToken) <==> h !in t.tokens)
            && (r.result == Err(RefreshTokenReused) <==> h in t.tokens && t.tokens[h].revokedAt.Some?)
            && (r.result == Err(TokenExpired) <==>
                  h in t.tokens && t.tokens[h].revokedAt.None? && t.tokens[h].expiresAt < t.now)
            && (r.result == Err(DuplicateHash) <==>
                  && h in t.tokens && t.tokens[h].revokedAt.None? && t.now <= t.tokens[h].expiresAt
                  && c.tokenHash(raw) in t.tokens)
            && (r.result.Err? && r.result != Err(RefreshTokenReused) ==> r.state == t)
  {
    hide RevokeFamily;
  }

  /** The live tokens of one family are revoked as of now, and nothing else changes. */
  ghost predicate EndsFamily(s: State, s': State, family: Family) {
    && s' == s.(tokens := s'.tokens) && s'.tokens.Keys == s.tokens.Keys
    && forall x :: x in s.tokens ==>
         s'.tokens[x] == if Live(s.tokens, x, family) then s.tokens[x].(revokedAt := Some(s.now)) else s.tokens[x]
  }

  /** Presenting a token that was revoked, by rotation or otherwise, ends its family although the
      call raises, and touches no other family. */
  lemma {:induction false} ReuseEndsFamily(c: Config, s: State, actions: seq<Action>, presented: string, raw: string)
    requires Init(s)
    requires var t := Run(c, s, actions);
             c.tokenHash(presented) in t.tokens && t.tokens[c.tokenHash(presented)].revokedAt.Some?
    ensures var t := Run(c, s, actions);
            var family, r := t.tokens[c.tokenHash(presented)].family, Call(c, t, Refresh(presented, raw));
            && r.result == Err(RefreshTokenReused)
            && Dead(r.state.tokens, family) && EndsFamily(t, r.state, family)
  {
    RunKeeps(c, s, actions);
    var t := Run(c, s, actions);
    RevokeKeeps(t, t.tokens[c.tokenHash(presented)].family);
  }

  /** No refresh succeeds in a dead family, ever again. */
  lemma DeadForever(c: Config, s: State, before: seq<Action>, after: seq<Action>, h: Hash, presented: string,
                    raw: string)
    requires Init(s) && h in Run(c, s, before).tokens
    requires Dead(Run(c, s, before).tokens, Run(c, s, before).tokens[h].family)
    ensures var family := Run(c, s, before).tokens[h].family;
            var t := Run(c, Run(c, s, before), after);
            && Dead(t.tokens, family)
            && (InFamily(t.tokens, c.tokenHash(presented), family) ==>
                  Call(c, t, Refresh(presented, raw)).result == Err(RefreshTokenReused))
  {
    RunKeeps(c, s, before);
    var m := Run(c, s, before);
    var family := m.tokens[h].family;
    RunKeeps(c, m, after);
    var t := Run(c, m, after);
    var k := c.tokenHash(presented);
    if InFamily(t.tokens, k, family) {
      assert !Live(t.tokens, k, family);
    }
  }

  /** Theft is noticed: a token that was exchanged once can never be exchanged again, and the second
      attempt, whoever makes it and whatever happened in between, leaves nobody in the family
      with a working token, the successor issued by the first exchange included. */
  lemma SecondUseEndsFamily(c: Config, s: State, before: seq<Action>, between: seq<Action>,
                            presented: string, first: string, second: string)
    requires Init(s) && Call(c, Run(c, s, before), Refresh(presented, first)).result.Ok?
    ensures var m := Call(c, Run(c, s, before), Refresh(presented, first)).state;
            var family := Run(c, s, before).tokens[c.tokenHash(presented)].family;
            var r := Call(c, Run(c, m, between), Refresh(presented, second));
            && r.result == Err(RefreshTokenReused)
            && Dead(r.state.tokens, family) && InFamily(r.state.tokens, c.tokenHash(first), family)
  {
    RunKeeps(c, s, before);
    var t := Run(c, s, before);
    CallKeeps(c, t, Refresh(presented, first));
    var m := Call(c, t, Refresh(presented, first)).state;
    RunKeeps(c, m, between);
    var n := Run(c, m, between);
    var h := c.tokenHash(presented);
    assert m.tokens[h].revokedAt.Some? && n.tokens[h].revokedAt.Some?;
    RevokeKeeps(n, n.tokens[h].family);
  }

  /** Logging out ends the session the token belongs to, even an expired or rotated one, when the
      caller owns it, and changes nothing otherwise. */
  lemma LogoutEndsOwnSession(c: Config, s: State, actions: seq<Action>, user: UserId, presented: string)
    requires Init(s)
    ensures var t := Run(c, s, actions);
            var h, r := c.tokenHash(presented), Call(c, t, Logout(user, presented));
            && r.result == Ok(None)
            && (if h in t.tokens && t.tokens[h].user == user
                then && Dead(r.state.tokens, t.tokens[h].family) && EndsFamily(t, r.state, t.tokens[h].family)
                     && forall x :: x in t.tokens && t.tokens[x].user != user ==> r.state.tokens[x] == t.tokens[x]
                else r.state == t)
  {
    RunKeeps(c, s, actions);
    var t := Run(c, s, actions);
    var h := c.tokenHash(presented);
    if h in t.tokens && t.tokens[h].user == user {
      RevokeKeeps(t, t.tokens[h].family);
      forall x | x in t.tokens && t.tokens[x].user != user ensures t.tokens[x].family != t.tokens[h].family {
        if t.tokens[x].family == t.tokens[h].family {
          assert InFamily(t.tokens, x, t.tokens[h].family) && InFamily(t.tokens, h, t.tokens[h].family);
        }
      }
    }
  }

  /** One live token in a family nobody had, and nothing else changed among the tokens. */
  ghost predicate OpensFamily(before: map<Hash, Token>, after: map<Hash, Token>, h: Hash, user: UserId,
                              expiresAt: int) {
    && h !in before && h in after && after == before[h := after[h]]
    && after[h].user == user && after[h].expiresAt == expiresAt && after[h].revokedAt.None?
    && (forall x :: x in before ==> before[x].family != after[h].family)
    && forall x :: Live(after, x, after[h].family) <==> x == h
  }

  /** User ids are never shared. */
  ghost predicate DistinctUsers(s: State) {
    && (forall e :: e in s.users ==> s.users[e].id < s.nextUser)
    && forall e, f :: e in s.users && f in s.users && s.users[e].id == s.users[f].id ==> e == f
  }

  lemma InitInv(s: State)
    requires Init(s)
    ensures Inv(s)
  {
  }

  lemma CallUsers(c: Config, s: State, a: Action)
    ensures var s' := Call(c, s, a).state;
            || s'.users == s.users
            || (a.SetStatus? && a.email in s.users
                && s'.users == s.users[a.email := s.users[a.email].(suspended := a.suspended)])
            || (a.Register? && a.email !in s.users && s'.nextUser == s.nextUser + 1
                && s'.users == s.users[a.email := User(s.nextUser, c.passwordHash(a.password), false)])
    ensures Call(c, s, a).state.nextUser >= s.nextUser
  {
    hide RevokeFamily;
  }

  lemma CallKeepsUsers(c: Config, s: State, a: Action)
    requires DistinctUsers(s)
    ensures DistinctUsers(Call(c, s, a).state)
  {
    hide Call;
    CallUsers(c, s, a);
  }

  lemma {:induction false} UsersStayDistinct(c: Config, s: State, actions: seq<Action>)
    requires Init(s)
    ensures DistinctUsers(Run(c, s, actions))
  {
    hide Call;
    if actions != [] {
      UsersStayDistinct(c, s, actions[..|actions| - 1]);
      CallKeepsUsers(c, Run(c, s, actions[..|actions| - 1]), actions[|actions| - 1]);
    }
  }

  /** Exactly when a registration succeeds: the email is free, and then there is one more user, under
      an id of its own, with one live token in a family of its own. */
  lemma {:induction false} RegistrationOpensFamily(c: Config, s: State, actions: seq<Action>,
                                                   email: string, password: string, raw: string)
    requires Init(s)
    ensures var t := Run(c, s, actions);
            var h, r := c.tokenHash(raw), Call(c, t, Register(email, password, raw));
            && (r.result == Err(EmailAlreadyExists) <==> email in t.users)
            && (r.result == Err(DuplicateHash) <==> email !in t.users && h in t.tokens)
            && (r.result.Ok? <==> email !in t.users && h !in t.tokens)
            && (r.result.Err? ==> r.state == t)
            && (r.result.Ok? ==>
                  && r.result == Ok(Some(raw))
                  && email in r.state.users && r.state.users == t.users[email := r.state.users[email]]
                  && r.state.users[email].passwordHash == c.passwordHash(password) && !r.state.users[email].suspended
                  && (forall e :: e in t.users ==> t.users[e].id != r.state.users[email].id)
                  && OpensFamily(t.tokens, r.state.tokens, h, r.state.users[email].id, t.now + c.ttl))
  {
    hide Run, OneLive, OneOwner;
    InitInv(s);
    RunKeeps(c, s, actions);
    UsersStayDistinct(c, s, actions);
  }

  /** Exactly when a login succeeds, one error for an unknown email and a wrong password, and the new
      family it opens beside the user's other sessions. */
  lemma {:induction false} LoginOpensFamily(c: Config, s: State, actions: seq<Action>,
                                            email: string, password: string, raw: string)
    requires Init(s)
    ensures var t := Run(c, s, actions);
            var h, r := c.tokenHash(raw), Call(c, t, Login(email, password, raw));
            var known := email in t.users && c.verify(password, t.users[email].passwordHash);
            && (r.result == Err(InvalidCredentials) <==> !known)
            && (r.result == Err(UserSuspended) <==> known && t.users[email].suspended)
            && (r.result == Err(DuplicateHash) <==> known && !t.users[email].suspended && h in t.tokens)
            && (r.result.Ok? <==> known && !t.users[email].suspended && h !in t.tokens)
            && (r.result.Err? ==> r.state == t)
            && (r.result.Ok? ==>
                  && r.result == Ok(Some(raw)) && r.state.users == t.users
                  && OpensFamily(t.tokens, r.state.tokens, h, t.users[email].id, t.now + c.ttl))
  {
    hide Run, OneLive, OneOwner;
    InitInv(s);
    RunKeeps(c, s, actions);
  }

  // ------------------------------------------------------------ the token that is handed out

  /** Calls that hand out a token. */
  predicate Issues(a: Action) {
    a.Register? || a.Login? || a.Refresh?
  }

  /** Until it expires or is revoked, whatever happens meanwhile, the token a call hands out is good for
      a refresh, which hands out the next token of the same session: what the client is given is the
      token whose hash is stored. */
  lemma {:induction false} HandedOutWorks(c: Config, s: State, actions: seq<Action>, a: Action, tok: string,
                                          after: seq<Action>, next: string)
    requires Init(s) && Issues(a) && Call(c, Run(c, s, actions), a).result == Ok(Some(tok))
    ensures var t := Run(c, s, actions);
            var u := Call(c, t, a).state;
            var h, v := c.tokenHash(tok), Run(c, u, after);
            var r := Call(c, v, Refresh(tok, next));
            && h !in t.tokens && h in u.tokens && Live(u.tokens, h, u.tokens[h].family)
            && u.tokens[h].expiresAt == t.now + c.ttl
            && h in v.tokens && v.tokens[h].family == u.tokens[h].family && v.tokens[h].user == u.tokens[h].user
            && (v.tokens[h].revokedAt.None? && v.now <= t.now + c.ttl && c.tokenHash(next) !in v.tokens ==>
                  && r.result == Ok(Some(next))
                  && InFamily(r.state.tokens, c.tokenHash(next), u.tokens[h].family)
                  && r.state.tokens[c.tokenHash(next)].user == u.tokens[h].user)
  {
    hide Run, Inv, Evolves, Init;
    InitInv(s);
    RunKeeps(c, s, actions);
    CallKeeps(c, Run(c, s, actions), a);
    var u := Call(c, Run(c, s, actions), a).state;
    RunKeeps(c, u, after);
    Persists(u, Run(c, u, after), c.tokenHash(tok));
    hide RevokeFamily;
  }

  lemma Persists(s: State, t: State, h: Hash)
    requires Evolves(s, t) && h in s.tokens
    ensures h in t.tokens && t.tokens[h].family == s.tokens[h].family && t.tokens[h].user == s.tokens[h].user
    ensures t.tokens[h].expiresAt == s.tokens[h].expiresAt
  {
  }

  /** A suspended user cannot log in, whatever the password, and can again once that is lifted. */
  lemma {:induction false} SuspensionStopsLogin(c: Config, t: State, email: string, password: string, raw: string,
                                                suspended: bool)
    requires email in t.users && c.verify(password, t.users[email].passwordHash)
    ensures var u := Call(c, t, SetStatus(email, suspended)).state;
            && u.tokens == t.tokens && u.users.Keys == t.users.Keys
            && (Call(c, u, Login(email, password, raw)).result == Err(UserSuspended) <==> suspended)
            && forall e :: e in t.users && e != email ==> u.users[e] == t.users[e]
  {
  }

  // ------------------------------------------------------------ the service

  /** The users and refresh_tokens tables. */
  class Sessions {
    const c: Config
    var now: int
    var users: map<string, User>
    var tokens: map<Hash, Token>
    var nextUser: UserId
    var nextFamily: Family

    function View(): State
      reads this
    {
      State(now, users, tokens, nextUser, nextFamily)
    }

    ghost predicate Valid()
      reads this
    {
      Inv(View())
    }

    constructor (config: Config)
      ensures Valid() && Init(View()) && c == config
    {
      c := config;
      now, users, tokens, nextUser, nextFamily := 0, map[], map[], 0, 0;
    }

    /** `create`, with the UNIQUE constraint on the hash. */
    method CreateToken(user: UserId, family: Family, raw: string) returns (done: bool)
      modifies `tokens
      ensures match Issue(c, old(View()), user, family, raw)
              case Some(s') => done && View() == s'
              case None => !done && View() == old(View())
    {
      var h := c.tokenHash(raw);
      done := h !in tokens;
      if done {
        tokens := tokens[h := Token(user, family, now + c.ttl, None)];
      }
    }

    method RegisterUser(email: string, password: string, raw: string) returns (r: Result<Option<string>, AuthError>)
      requires Valid()
      modifies this
      ensures Valid() && Reply(View(), r) == Call(c, old(View()), Register(email, password, raw))
    {
      hide Inv;
      CallKeeps(c, View(), Register(email, password, raw));
      if email in users {
        return Err(EmailAlreadyExists);
      }
      var before := View();
      var user, family := nextUser, nextFamily;
      users := users[email := User(user, c.passwordHash(password), false)];
      nextUser, nextFamily := nextUser + 1, nextFamily + 1;
      var done := CreateToken(user, family, raw);
      if !done {
        users, nextUser, nextFamily := before.users, before.nextUser, before.nextFamily;
        return Err(DuplicateHash);
      }
      r := Ok(Some(raw));
    }

    method LoginUser(email: string, password: string, raw: string) returns (r: Result<Option<string>, AuthError>)
      requires Valid()
      modifies this
      ensures Valid() && Reply(View(), r) == Call(c, old(View()), Login(email, password, raw))
    {
      hide Inv;
      CallKeeps(c, View(), Login(email, password, raw));
      if email !in users || !c.verify(password, users[email].passwordHash) {
        return Err(InvalidCredentials);
      }
      if users[email].suspended {
        return Err(UserSuspended);
      }
      var family := nextFamily;
      nextFamily := nextFamily + 1;
      var done := CreateToken(users[email].id, family, raw);
      if !done {
        nextFamily := family;
        return Err(DuplicateHash);
      }
      r := Ok(Some(raw));
    }

    /** `refresh_access_token`: the revocation of a reused token's family is committed before the
        exception, and nothing else survives one. */
    method RefreshToken(presented: string, raw: string) returns (r: Result<Option<string>, AuthError>)
      requires Valid()
      modifies this
      ensures Valid() && Reply(View(), r) == Call(c, old(View()), Refresh(presented, raw))
    {
      hide Inv;
      CallKeeps(c, View(), Refresh(presented, raw));
      var h := c.tokenHash(presented);
      if h !in tokens {
        return Err(InvalidToken);
      }
      var stored := tokens[h];
      if stored.revokedAt.Some? {
        tokens := RevokeFamily(tokens, stored.family, now);
        return Err(RefreshTokenReused);
      }
      if stored.expiresAt < now {
        return Err(TokenExpired);
      }
      var before := tokens;
      tokens := tokens[h := stored.(revokedAt := Some(now))];
      var done := CreateToken(stored.user, stored.family, raw);
      if !done {
        tokens := before;
        return Err(DuplicateHash);
      }
      r := Ok(Some(raw));
    }

    method LogoutUser(user: UserId, presented: string)
      requires Valid()
      modifies this
      ensures Valid() && View() == Call(c, old(View()), Logout(user, presented)).state
    {
      hide Inv;
      CallKeeps(c, View(), Logout(user, presented));
      var h := c.tokenHash(presented);
      if h !in tokens || tokens[h].user != user {
        return;
      }
      tokens := RevokeFamily(tokens, tokens[h].family, now);
    }
  }
}
