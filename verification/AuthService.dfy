/**
 * The services as objects: app/services/auth.go, the account part of
 * app/services/user.go and the bearer check of app/middleware/auth.go. Every
 * method is the sequence of store and session calls the source makes, and does
 * exactly what its step of the protocol says.
 */
module AuthService {
  import opened Clock
  import opened Wrappers
  import opened Text
  import opened Jwt
  import opened SessionStore
  import Protocol = AuthProtocol
  import AuthTheorems

  type Account = Protocol.Account
  type Reply = Protocol.Reply

  /** The accounts, and the record of everything that was done; a signature verifies iff the record holds the token. */
  class Store {
    var users: map<Uuid, Account>
    var history: Protocol.History

    constructor ()
      ensures users == map[] && history == Protocol.Nothing
    {
      users, history := map[], Protocol.Nothing;
    }
  }

  lemma Served(c: Config, s: Protocol.State, e: Protocol.Event)
    requires AuthTheorems.Reachable(c, s) && Protocol.Enabled(s, e)
    ensures AuthTheorems.Reachable(c, Protocol.Do(c, s.(now := e.at), e.op).0)
  {
    AuthTheorems.ReachableNext(c, s, e);
  }

  class Services {
    const c: Config
    const store: Store
    const sessions: RedisSessionStore
    /** When the last call was served. */
    ghost var clock: Time

    ghost predicate Wired()
      reads this
    {
      sessions.c == c
    }

    /** The objects are in a state that some run of the protocol reaches. */
    ghost predicate Valid()
      reads this, store, sessions
    {
      Wired() && AuthTheorems.Reachable(c, State(clock))
    }

    ghost function State(now: Time): Protocol.State
      reads this, store, sessions
    {
      Protocol.State(now, store.users, sessions.State(), store.history)
    }

    /** What the surroundings guarantee of a call: see the protocol's Enabled. */
    ghost predicate Fits(now: Time, op: Protocol.Op)
      reads this, store, sessions
    {
      Protocol.Enabled(State(clock), Protocol.Event(now, op))
    }

    constructor (c: Config, now: Time)
      ensures this.c == c && clock == now && State(now) == Protocol.Start(now) && Valid()
      ensures fresh(store) && fresh(sessions)
    {
      this.c := c;
      store := new Store();
      sessions := new RedisSessionStore(c);
      clock := now;
      new;
      assert State(now) == Protocol.Run(c, Protocol.Start(now), []);
    }

    method Note(f: Protocol.Fact)
      modifies store`history
      ensures store.history == Protocol.Then(old(store.history), f)
    {
      store.history := Protocol.Then(store.history, f);
    }

    method Authenticate(now: Time, bearer: Claims) returns (ok: bool)
      requires Valid() && clock <= now
      ensures ok == Protocol.Authenticate(State(now), bearer, now)
      ensures Protocol.Issued(store.history, bearer) && bearer.typ == Access ==>
        (ok <==>
          && now < bearer.exp * SECOND
          && !Protocol.LoggedOut(store.history, bearer.jti)
          && !Protocol.RevokedAfter(store.history, bearer.subject, bearer.iat))
    {
      if Protocol.Issued(store.history, bearer) && bearer.typ == Access {
        AuthTheorems.AcceptedIffHistoryAllows(c, State(clock), bearer, now);
      }
      var parsed := Parse(bearer, Protocol.Issued(store.history, bearer), Access, now);
      if parsed.Err? {
        return false;
      }
      ok := sessions.IsAccessTokenValid(now, bearer.subject, bearer.jti, bearer.iat * SECOND);
    }

    method IssueSession(
        now: Time, id: Uuid, role: Role, access: Uuid, refresh: Uuid, family: Uuid) returns (reply: Reply)
      requires Wired()
      modifies store`history, sessions
      ensures (State(now), reply) == Protocol.IssueSession(c, old(State(now)), id, role, access, refresh, family)
    {
      var pair := GenerateTokenPair(c, now, id, role, access, refresh);
      sessions.StoreRefreshToken(now, id, pair.refresh.jti, pair.refreshExpiresAt);
      Note(Protocol.Minted(pair.access, pair.refresh, family));
      return Protocol.Tokens(pair);
    }

    method RevokeAll(now: Time, id: Uuid)
      requires Wired()
      modifies store`history, sessions
      ensures State(now) == Protocol.RevokeAll(c, old(State(now)), id)
    {
      sessions.RevokeAllSessions(now, id);
      Note(Protocol.AllRevoked(id, now));
    }

    /** The account row, without the e-mail address that identifies it. */
    method Register(now: Time, id: Uuid, password: string, fullName: string, role: Role) returns (reply: Reply)
      requires Valid() && Fits(now, Protocol.Register(id, password, fullName, role))
      modifies this`clock, store, sessions
      ensures (State(now), reply) == Protocol.Do(c, old(State(now)), Protocol.Register(id, password, fullName, role))
      ensures Valid() && clock == now
    {
      Served(c, State(clock), Protocol.Event(now, Protocol.Register(id, password, fullName, role)));
      clock := now;
      store.users := store.users[id := Protocol.Account(Some(password), TrimSpace(fullName), role, true, false)];
      Note(Protocol.AccountMade(id));
      return Protocol.Success;
    }

    /** What follows once the link has been consumed. */
    method VerifyEmail(now: Time, id: Uuid) returns (reply: Reply)
      requires Valid() && Fits(now, Protocol.VerifyEmail(id))
      modifies this`clock, store, sessions
      ensures (State(now), reply) == Protocol.Do(c, old(State(now)), Protocol.VerifyEmail(id))
      ensures Valid() && clock == now
    {
      Served(c, State(clock), Protocol.Event(now, Protocol.VerifyEmail(id)));
      clock := now;
      if id !in store.users {
        return Protocol.BadRequest;
      }
      var user := store.users[id];
      store.users := store.users[id := user.(verified := true)];
      Note(Protocol.EmailVerified(id));
      return Protocol.Success;
    }

    /** What follows once the link has been consumed. */
    method ResetPassword(now: Time, id: Uuid, next: string) returns (reply: Reply)
      requires Valid() && Fits(now, Protocol.ResetPassword(id, next))
      modifies this`clock, store, sessions
      ensures (State(now), reply) == Protocol.Do(c, old(State(now)), Protocol.ResetPassword(id, next))
      ensures Valid() && clock == now
    {
      Served(c, State(clock), Protocol.Event(now, Protocol.ResetPassword(id, next)));
      clock := now;
      if id !in store.users {
        return Protocol.BadRequest;
      }
      var user := store.users[id];
      store.users := store.users[id := user.(password := Some(next))];
      RevokeAll(now, id);
      return Protocol.Success;
    }

    method Login(now: Time, id: Uuid, password: string, access: Uuid, refresh: Uuid) returns (reply: Reply)
      requires Valid() && Fits(now, Protocol.Login(id, password, access, refresh))
      modifies this`clock, store, sessions
      ensures (State(now), reply) == Protocol.Do(c, old(State(now)), Protocol.Login(id, password, access, refresh))
      ensures Valid() && clock == now
    {
      Served(c, State(clock), Protocol.Event(now, Protocol.Login(id, password, access, refresh)));
      clock := now;
      if id !in store.users {
        return Protocol.Unauthorized;
      }
      var user := store.users[id];
      if user.password != Some(password) {
        return Protocol.Unauthorized;
      }
      if !user.active {
        return Protocol.Forbidden;
      }
      if !user.verified {
        return Protocol.Forbidden;
      }
      reply := IssueSession(now, id, user.role, access, refresh, refresh);
    }

    method Refresh(now: Time, token: Claims, access: Uuid, refresh: Uuid) returns (reply: Reply)
      requires Valid() && Fits(now, Protocol.RefreshSession(token, access, refresh))
      modifies this`clock, store, sessions
      ensures (State(now), reply) == Protocol.Do(c, old(State(now)), Protocol.RefreshSession(token, access, refresh))
      ensures Valid() && clock == now
    {
      Served(c, State(clock), Protocol.Event(now, Protocol.RefreshSession(token, access, refresh)));
      clock := now;
      var parsed := Parse(token, Protocol.Issued(store.history, token), TokenType.Refresh, now);
      if parsed.Err? {
        return Protocol.Unauthorized;
      }
      var id := token.subject;
      var active := sessions.IsRefreshTokenActive(now, id, token.jti);
      if !active {
        RevokeAll(now, id);
        return Protocol.Unauthorized;
      }
      if id !in store.users {
        return Protocol.NotFound;
      }
      var user := store.users[id];
      if !user.active {
        RevokeAll(now, id);
        return Protocol.Forbidden;
      }
      var family := Protocol.FamilyOf(store.history, token.jti);
      sessions.RevokeRefreshToken(now, id, token.jti);
      Note(Protocol.RefreshRevoked(id, token.jti));
      reply := IssueSession(now, id, user.role, access, refresh, if family.Some? then family.value else refresh);
    }

    method Logout(now: Time, bearer: Claims, refreshToken: Option<Claims>) returns (reply: Reply)
      requires Valid() && Fits(now, Protocol.Logout(bearer, refreshToken))
      modifies this`clock, store, sessions
      ensures (State(now), reply) == Protocol.Do(c, old(State(now)), Protocol.Logout(bearer, refreshToken))
      ensures Valid() && clock == now
    {
      Served(c, State(clock), Protocol.Event(now, Protocol.Logout(bearer, refreshToken)));
      var ok := Authenticate(now, bearer);
      clock := now;
      if !ok {
        return Protocol.Unauthorized;
      }
      if refreshToken.Some? {
        var token := refreshToken.value;
        var parsed := Parse(token, Protocol.Issued(store.history, token), TokenType.Refresh, now);
        if parsed.Ok? && token.subject == bearer.subject {
          sessions.RevokeRefreshToken(now, bearer.subject, token.jti);
          Note(Protocol.RefreshRevoked(bearer.subject, token.jti));
        }
      }
      var ttl := bearer.exp * SECOND - now;
      sessions.BlacklistAccessToken(now, bearer.jti, ttl);
      Note(Protocol.AccessRevoked(bearer.jti));
      return Protocol.Success;
    }

    method LogoutAll(now: Time, bearer: Claims) returns (reply: Reply)
      requires Valid() && Fits(now, Protocol.LogoutAll(bearer))
      modifies this`clock, store, sessions
      ensures (State(now), reply) == Protocol.Do(c, old(State(now)), Protocol.LogoutAll(bearer))
      ensures Valid() && clock == now
    {
      Served(c, State(clock), Protocol.Event(now, Protocol.LogoutAll(bearer)));
      var ok := Authenticate(now, bearer);
      clock := now;
      if !ok {
        return Protocol.Unauthorized;
      }
      RevokeAll(now, bearer.subject);
      return Protocol.Success;
    }

    method ChangePassword(
        now: Time, bearer: Claims, current: string, next: string, access: Uuid, refresh: Uuid) returns (reply: Reply)
      requires Valid() && Fits(now, Protocol.ChangePassword(bearer, current, next, access, refresh))
      modifies this`clock, store, sessions
      ensures (State(now), reply) ==
        Protocol.Do(c, old(State(now)), Protocol.ChangePassword(bearer, current, next, access, refresh))
      ensures Valid() && clock == now
    {
      Served(c, State(clock), Protocol.Event(now, Protocol.ChangePassword(bearer, current, next, access, refresh)));
      var ok := Authenticate(now, bearer);
      clock := now;
      if !ok {
        return Protocol.Unauthorized;
      }
      var id := bearer.subject;
      if id !in store.users {
        return Protocol.NotFound;
      }
      var user := store.users[id];
      if user.password != Some(current) {
        return Protocol.Unauthorized;
      }
      if current == next {
        return Protocol.BadRequest;
      }
      store.users := store.users[id := user.(password := Some(next))];
      RevokeAll(now, id);
      reply := IssueSession(now, id, user.role, access, refresh, refresh);
    }

    method UpdateUser(now: Time, bearer: Claims, id: Uuid, change: Protocol.Change) returns (reply: Reply)
      requires Valid() && Fits(now, Protocol.UpdateUser(bearer, id, change))
      modifies this`clock, store, sessions
      ensures (State(now), reply) == Protocol.Do(c, old(State(now)), Protocol.UpdateUser(bearer, id, change))
      ensures Valid() && clock == now
    {
      Served(c, State(clock), Protocol.Event(now, Protocol.UpdateUser(bearer, id, change)));
      var ok := Authenticate(now, bearer);
      clock := now;
      if !ok {
        return Protocol.Unauthorized;
      }
      var isAdmin := bearer.role == RoleAdmin;
      if !(isAdmin || bearer.subject == id) || (!isAdmin && (change.role.Some? || change.active.Some?)) {
        return Protocol.Forbidden;
      }
      if change.role.Some? && change.role.value.OtherRole? {
        return Protocol.BadRequest;
      }
      if bearer.subject == id && change.active == Some(false) {
        return Protocol.BadRequest;
      }
      if id !in store.users {
        return Protocol.NotFound;
      }
      var was := store.users[id];
      var user := was;
      if change.fullName.Some? {
        user := user.(fullName := TrimSpace(change.fullName.value));
      }
      if change.role.Some? {
        user := user.(role := change.role.value.role);
      }
      if change.active.Some? {
        user := user.(active := change.active.value);
      }
      store.users := store.users[id := user];
      if user.role != was.role {
        Note(Protocol.RoleChanged(id, now));
      }
      if change.active == Some(false) || change.role.Some? {
        RevokeAll(now, id);
      }
      return Protocol.Success;
    }

    method DeleteUser(now: Time, bearer: Claims, id: Uuid) returns (reply: Reply)
      requires Valid() && Fits(now, Protocol.DeleteUser(bearer, id))
      modifies this`clock, store, sessions
      ensures (State(now), reply) == Protocol.Do(c, old(State(now)), Protocol.DeleteUser(bearer, id))
      ensures Valid() && clock == now
    {
      Served(c, State(clock), Protocol.Event(now, Protocol.DeleteUser(bearer, id)));
      var ok := Authenticate(now, bearer);
      clock := now;
      if !ok {
        return Protocol.Unauthorized;
      }
      if bearer.role != RoleAdmin && bearer.subject != id {
        return Protocol.Forbidden;
      }
      if bearer.role == RoleAdmin && bearer.subject == id {
        return Protocol.BadRequest;
      }
      if id !in store.users {
        return Protocol.NotFound;
      }
      store.users := store.users - {id};
      RevokeAll(now, id);
      return Protocol.Success;
    }
  }
}
