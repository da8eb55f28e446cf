/** What each operation of app/lib/auth/session.go makes of the Redis keys at one instant. */
module SessionKeys {
  import opened Clock
  import opened Redis
  import opened Jwt

  datatype Keys = Keys(
    sessions: map<Uuid, Entry<map<Uuid, int>>>,
    revoked: map<Uuid, Entry<int>>,
    blacklist: map<Uuid, Entry<string>>)

  const NO_KEYS := Keys(map[], map[], map[])

  /** The refresh tokens that HGET and HLEN can see. */
  function Fields(k: Keys, user: Uuid, now: Time): map<Uuid, int> {
    if Live(k.sessions, user, now) then k.sessions[user].value else map[]
  }

  function StoreRefreshToken(c: Config, k: Keys, now: Time, user: Uuid, jti: Uuid, expiresAt: Time): Keys {
    var fields := Fields(k, user, now)[jti := Unix(expiresAt)];
    k.(sessions := k.sessions[user := Entry(fields, now + c.refresh + HOUR)])
  }

  /** HDEL keeps the key's deadline and drops the key with its last field. */
  function RevokeRefreshToken(k: Keys, now: Time, user: Uuid, jti: Uuid): Keys {
    var rest := Fields(k, user, now) - {jti};
    if !Live(k.sessions, user, now) then k
    else if rest == map[] then k.(sessions := k.sessions - {user})
    else k.(sessions := k.sessions[user := Entry(rest, k.sessions[user].deadline)])
  }

  predicate IsRefreshTokenActive(k: Keys, now: Time, user: Uuid, jti: Uuid) {
    jti in Fields(k, user, now) && Unix(now) < Fields(k, user, now)[jti]
  }

  /** The keys after a look-up, which cleans up a field that it finds expired. */
  function AfterActiveCheck(k: Keys, now: Time, user: Uuid, jti: Uuid): Keys {
    if jti in Fields(k, user, now) && Unix(now) >= Fields(k, user, now)[jti]
    then RevokeRefreshToken(k, now, user, jti) else k
  }

  function RevokeAllSessions(c: Config, k: Keys, now: Time, user: Uuid): Keys {
    k.(sessions := k.sessions - {user},
       revoked := k.revoked[user := Entry(Unix(now - SECOND), now + c.refresh + HOUR)])
  }

  function BlacklistAccessToken(k: Keys, now: Time, jti: Uuid, ttl: int): Keys {
    if ttl <= 0 then k else k.(blacklist := k.blacklist[jti := Entry("1", now + ttl)])
  }

  predicate IsAccessTokenValid(k: Keys, now: Time, user: Uuid, jti: Uuid, issuedAt: Time) {
    && !Live(k.blacklist, jti, now)
    && (Live(k.revoked, user, now) ==> Unix(issuedAt) > k.revoked[user].value)
  }

  /** Redis keeps no empty hash. */
  ghost predicate NoneEmpty(k: Keys) {
    forall u :: u in k.sessions ==> k.sessions[u].value != map[]
  }

  lemma HashesAreNeverEmpty(c: Config, k: Keys, now: Time, user: Uuid, jti: Uuid, expiresAt: Time)
    requires NoneEmpty(k)
    ensures NoneEmpty(StoreRefreshToken(c, k, now, user, jti, expiresAt))
    ensures NoneEmpty(RevokeRefreshToken(k, now, user, jti))
    ensures NoneEmpty(AfterActiveCheck(k, now, user, jti)) && NoneEmpty(RevokeAllSessions(c, k, now, user))
  {
    assert jti in StoreRefreshToken(c, k, now, user, jti, expiresAt).sessions[user].value;
  }

  /** A look-up leaves active fields alone and clears the field it finds expired, and no other. */
  lemma LookUpCleansUp(k: Keys, now: Time, user: Uuid, jti: Uuid)
    ensures IsRefreshTokenActive(k, now, user, jti) ==> AfterActiveCheck(k, now, user, jti) == k
    ensures !IsRefreshTokenActive(k, now, user, jti) ==> jti !in Fields(AfterActiveCheck(k, now, user, jti), user, now)
    ensures forall j :: j != jti ==>
      (j in Fields(AfterActiveCheck(k, now, user, jti), user, now) <==> j in Fields(k, user, now))
  {
  }

  /** Every key is there until its time to live has passed, and no longer. */
  lemma KeysExpireOnTime(c: Config, k: Keys, now: Time, user: Uuid, jti: Uuid, expiresAt: Time, ttl: int, t: Time)
    ensures Live(StoreRefreshToken(c, k, now, user, jti, expiresAt).sessions, user, t) <==> t < now + c.refresh + HOUR
    ensures Live(RevokeAllSessions(c, k, now, user).revoked, user, t) <==> t < now + c.refresh + HOUR
    ensures ttl > 0 ==> (Live(BlacklistAccessToken(k, now, jti, ttl).blacklist, jti, t) <==> t < now + ttl)
    ensures ttl <= 0 ==> BlacklistAccessToken(k, now, jti, ttl) == k
  {
  }
}

/** app/lib/auth/session.go: the object itself. */
module SessionStore {
  import opened Clock
  import opened Redis
  import opened Jwt
  import Spec = SessionKeys

  /** Every operation below is one atomic pipeline at the instant `now`. */
  class RedisSessionStore {
    const c: Config
    var sessions: map<Uuid, Entry<map<Uuid, int>>>
    var revoked: map<Uuid, Entry<int>>
    var blacklist: map<Uuid, Entry<string>>

    ghost function State(): Spec.Keys
      reads this
    {
      Spec.Keys(sessions, revoked, blacklist)
    }

    constructor (c: Config)
      ensures this.c == c && State() == Spec.NO_KEYS
    {
      this.c := c;
      sessions, revoked, blacklist := map[], map[], map[];
    }

    method StoreRefreshToken(now: Time, user: Uuid, jti: Uuid, expiresAt: Time)
      modifies this
      ensures State() == Spec.StoreRefreshToken(c, old(State()), now, user, jti, expiresAt)
    {
      // HSET creates a missing or lapsed hash, or keeps the deadline of a live one ...
      var live := Live(sessions, user, now);
      var fields := if live then sessions[user].value else map[];
      var deadline := if live then sessions[user].deadline else now;
      sessions := sessions[user := Entry(fields[jti := Unix(expiresAt)], deadline)];
      // ... and EXPIRE re-arms the whole hash.
      sessions := sessions[user := Entry(sessions[user].value, now + c.refresh + HOUR)];
    }

    method IsRefreshTokenActive(now: Time, user: Uuid, jti: Uuid) returns (active: bool)
      modifies this
      ensures active == Spec.IsRefreshTokenActive(old(State()), now, user, jti)
      ensures State() == Spec.AfterActiveCheck(old(State()), now, user, jti)
    {
      if !Live(sessions, user, now) || jti !in sessions[user].value {
        return false;
      }
      var expiresAt := sessions[user].value[jti];
      if Unix(now) >= expiresAt {
        RevokeRefreshToken(now, user, jti);
        return false;
      }
      return true;
    }

    method RevokeRefreshToken(now: Time, user: Uuid, jti: Uuid)
      modifies this
      ensures State() == Spec.RevokeRefreshToken(old(State()), now, user, jti)
    {
      if Live(sessions, user, now) {
        var rest := sessions[user].value - {jti};
        if rest == map[] {
          sessions := sessions - {user};
        } else {
          sessions := sessions[user := Entry(rest, sessions[user].deadline)];
        }
      }
    }

    method RevokeAllSessions(now: Time, user: Uuid)
      modifies this
      ensures State() == Spec.RevokeAllSessions(c, old(State()), now, user)
    {
      sessions := sessions - {user};
      revoked := revoked[user := Entry(Unix(now - SECOND), now + c.refresh + HOUR)];
    }

    method BlacklistAccessToken(now: Time, jti: Uuid, ttl: int)
      modifies this
      ensures State() == Spec.BlacklistAccessToken(old(State()), now, jti, ttl)
    {
      if ttl <= 0 {
        return;
      }
      blacklist := blacklist[jti := Entry("1", now + ttl)];
    }

    method IsAccessTokenValid(now: Time, user: Uuid, jti: Uuid, issuedAt: Time) returns (valid: bool)
      ensures valid == Spec.IsAccessTokenValid(State(), now, user, jti, issuedAt)
    {
      if Live(blacklist, jti, now) {
        return false;
      }
      if !Live(revoked, user, now) {
        return true;
      }
      return Unix(issuedAt) > revoked[user].value;
    }
  }
}
