/**
 The authentication classes as the source writes them, one command after the other, over a client whose store
 others change at every await. Each request method is proved to hold exactly the conversation of its request
 in the protocol, whatever it is answered, and to do what the request does alone when nobody interferes.
 */
module AuthCode {
  import opened Common
  import opened Redis
  import opened Keys
  import opened Sessions
  import opened Requests
  import opened AccessControl
  import opened Tokens

  /** `t` is what was said since; if nobody interfered, it was answered truthfully and made the present store. */
  twostate predicate Converses(redis: RedisClient<Key>, user: int, new t: seq<Exchange<Key>>)
    reads redis, redis.server
  {
    && redis.talk == old(redis.talk) + t
    && (redis.quiet ==>
          && Truthful(old(redis.State()), old(redis.ready), user, t)
          && redis.State() == Final(old(redis.State()), old(redis.ready), t)
          && redis.ready == old(redis.ready))
  }

  datatype Rotation = Rotated(jti: string) | ReuseDetected | Unknown | Unavailable

  /** What a refresh answers when its rotation was refused or failed. */
  function RefusalOf(rotation: Rotation, rt: RefreshToken): Res {
    match rotation
    case ReuseDetected => Reused(rt)
    case Unknown => Invalid(rt)
    case _ => Failed
  }

  class RefreshTokenStore {
    const redis: RedisClient<Key>
    const cfg: Config

    constructor (redis: RedisClient<Key>, cfg: Config)
      ensures this.redis == redis && this.cfg == cfg
    {
      this.redis, this.cfg := redis, cfg;
    }

    method Issue(userId: int, family: string, jti: string) returns (r: Reply)
      modifies redis`ready, redis`talk, redis.server
      ensures redis.Says(Cmd.Set(Rt(userId, family), Text(jti), cfg.refreshTtl), r)
    {
      r := redis.Set(Rt(userId, family), Text(jti), cfg.refreshTtl);
    }

    /**
     An accepted rotation is one compare-and-set and nothing else; a refused one is the rest of the protocol's
     refresh.
     */
    method Rotate(userId: int, family: string, presented: string, newJti: string, ghost ch: Choice)
      returns (res: Rotation, ghost t: seq<Exchange<Key>>)
      requires ch.a == newJti
      modifies redis`ready, redis`talk, redis.server
      ensures Converses(redis, userId, t)
      ensures res.Rotated? ==>
                && res.jti == newJti
                && redis.Says(Cmd.CompareAndSet(Rt(userId, family), Text(presented), Text(newJti), cfg.refreshTtl), Int(1))
      ensures !res.Rotated? ==>
                var rt := RefreshToken(userId, family, presented);
                Speaks(cfg, RefreshSwap(rt), ch, t, redis.State().now, RefusalOf(res, rt))
    {
      var key := Rt(userId, family);
      ghost var rt := RefreshToken(userId, family, presented);
      var swapped := redis.CompareAndSet(key, Text(presented), Text(newJti), cfg.refreshTtl);
      ghost var mid := redis.State();
      t := [Sent(Cmd.CompareAndSet(key, Text(presented), Text(newJti), cfg.refreshTtl), swapped)];
      if swapped == Int(1) { return Rotated(newJti), t; }
      ghost var rest := [];
      if Threw(swapped) {
        res := Unavailable;
      } else {
        res, rest := Probe(userId, family, rt, ch);
      }
      t := t + rest;
      Say(cfg, RefreshSwap(rt), ch, swapped, rest, t, redis.State().now, RefusalOf(res, rt),
          redis.quiet, old(redis.State()), mid, old(redis.ready), userId);
    }

    /** A family that is still there after the refused swap is dropped. */
    method Probe(userId: int, family: string, ghost rt: RefreshToken, ghost ch: Choice)
      returns (res: Rotation, ghost t: seq<Exchange<Key>>)
      requires FamilyKey(rt) == Rt(userId, family)
      modifies redis`ready, redis`talk, redis.server
      ensures Converses(redis, userId, t) && !res.Rotated?
      ensures Speaks(cfg, RefreshProbe(rt), ch, t, redis.State().now, RefusalOf(res, rt))
    {
      var key := Rt(userId, family);
      var stored := redis.Get(key);
      ghost var mid, rest := redis.State(), [];
      if Threw(stored) {
        res := Unavailable;
      } else if Truthy(stored) {
        res, rest := Drop(userId, family, rt, ch);
      } else {
        res := Unknown;
      }
      t := [Sent(Cmd.Get(key), stored)] + rest;
      Say(cfg, RefreshProbe(rt), ch, stored, rest, t, redis.State().now, RefusalOf(res, rt),
          redis.quiet, old(redis.State()), mid, old(redis.ready), userId);
    }

    method Drop(userId: int, family: string, ghost rt: RefreshToken, ghost ch: Choice)
      returns (res: Rotation, ghost t: seq<Exchange<Key>>)
      requires FamilyKey(rt) == Rt(userId, family)
      modifies redis`ready, redis`talk, redis.server
      ensures Converses(redis, userId, t) && !res.Rotated?
      ensures Speaks(cfg, RefreshDrop(rt), ch, t, redis.State().now, RefusalOf(res, rt))
    {
      var gone := Revoke(userId, family);
      res := if Threw(gone) then Unavailable else ReuseDetected;
      t := [Sent(Cmd.Del({FamilyKey(rt)}), gone)];
      Say(cfg, RefreshDrop(rt), ch, gone, [], t, redis.State().now, RefusalOf(res, rt),
          redis.quiet, old(redis.State()), redis.State(), old(redis.ready), userId);
    }

    method Revoke(userId: int, family: string) returns (r: Reply)
      modifies redis`ready, redis`talk, redis.server
      ensures redis.Says(Cmd.Del({Rt(userId, family)}), r)
    {
      assert (set k | k in [Rt(userId, family)]) == {Rt(userId, family)};
      r := redis.Del([Rt(userId, family)]);
    }

    /**
     Deletes what the scan of `rt:{userId}:*` returns, and sends nothing when that is nothing. The batches are
     the server's choice among the keys that match; undisturbed, they contain all of them.
     */
    method RevokeAllFamilies(userId: int, batches: seq<seq<Key>>, ghost ch: Choice) returns (ghost t: seq<Exchange<Key>>)
      requires forall k :: k in Concat(batches) ==> k.Rt? && k.user == userId
      requires redis.quiet && redis.ready ==>
                 (set k | k in Concat(batches)) == Families(userId, redis.State().kv.Keys)
      modifies redis`ready, redis`talk, redis.server
      ensures Converses(redis, userId, t)
      ensures Speaks(cfg, RevokeScan(userId), ch, t, redis.State().now, Revoked(userId))
      ensures redis.quiet && old(redis.ready) ==>
                redis.State().kv == Without(old(redis.State()).kv, Families(userId, old(redis.State()).kv.Keys))
    {
      var keys := redis.SafeKeys(batches);
      ghost var found, rest := (set k | k in keys), [];
      assert redis.quiet && old(redis.ready) ==> found == Families(userId, old(redis.State()).kv.Keys);
      if |keys| > 0 {
        assert keys[0] in found;
        rest := DropFound(userId, keys, ch);
      } else {
        assert found == {} && Without(redis.State().kv, found) == redis.State().kv;
      }
      t := [Scanned(keys)] + rest;
      assert t[0] == Scanned(keys) && t[1..] == rest;
    }

    method DropFound(userId: int, keys: seq<Key>, ghost ch: Choice) returns (ghost t: seq<Exchange<Key>>)
      requires |keys| > 0
      modifies redis`ready, redis`talk, redis.server
      ensures Converses(redis, userId, t)
      ensures Speaks(cfg, RevokeDrop(userId, set k | k in keys), ch, t, redis.State().now, Revoked(userId))
      ensures redis.quiet && old(redis.ready) ==>
                redis.State().kv == Without(old(redis.State()).kv, set k | k in keys)
    {
      ghost var found := set k | k in keys;
      ghost var gone := redis.SafeDel(keys);
      t := [Sent(Cmd.Del(found), gone)];
      Say(cfg, RevokeDrop(userId, found), ch, gone, [], t, redis.State().now, Revoked(userId),
          redis.quiet, old(redis.State()), redis.State(), old(redis.ready), userId);
    }
  }

  class SessionEpochStore {
    const redis: RedisClient<Key>

    constructor (redis: RedisClient<Key>)
      ensures this.redis == redis
    {
      this.redis := redis;
    }

    /** The stored epoch, 0 when unset, unreadable or not a number. */
    method Current(userId: int) returns (epoch: int, ghost raw: Reply)
      modifies redis`ready, redis`talk, redis.server
      ensures redis.Says(Cmd.Get(Epoch(userId)), raw) && epoch == NumberOf(raw)
    {
      var value;
      value, raw := redis.SafeGet(Epoch(userId));
      epoch := if Truthy(value) then NumberOf(value) else 0;
    }

    /** Raises the epoch by one, whatever it is by then; -1 when the answer is no number. */
    method RevokeAll(userId: int) returns (epoch: int, ghost raw: Reply)
      modifies redis`ready, redis`talk, redis.server
      ensures redis.Says(Cmd.Incr(Epoch(userId)), raw) && epoch == if raw.Int? then raw.n else -1
    {
      epoch, raw := redis.SafeIncr(Epoch(userId));
    }
  }

  class AuthService {
    const cfg: Config
    const redis: RedisClient<Key>
    const refreshStore: RefreshTokenStore
    const sessionEpoch: SessionEpochStore

    constructor (cfg: Config, redis: RedisClient<Key>)
      ensures this.cfg == cfg && this.redis == redis && Wired()
    {
      this.cfg, this.redis := cfg, redis;
      refreshStore := new RefreshTokenStore(redis, cfg);
      sessionEpoch := new SessionEpochStore(redis);
    }

    ghost predicate Wired() {
      refreshStore.redis == redis && refreshStore.cfg == cfg && sessionEpoch.redis == redis
    }

    /** An unanswered check lets the login pass. */
    method AssertNotLocked(email: string) returns (locked: bool, ghost raw: Reply)
      modifies redis`ready, redis`talk, redis.server
      ensures redis.Says(Cmd.Get(LoginFail(email)), raw)
      ensures locked <==> NumberOf(raw) >= cfg.maxAttempts
    {
      var attempts;
      attempts, raw := redis.SafeGet(LoginFail(email));
      locked := NumberOf(attempts) >= cfg.maxAttempts;
    }

    /** The first failure, and only it, sets the lock window. */
    method RecordFailedAttempt(email: string, ghost ch: Choice) returns (attempts: int, ghost t: seq<Exchange<Key>>)
      modifies redis`ready, redis`talk, redis.server
      ensures Converses(redis, 0, t)
      ensures Speaks(cfg, LoginMiss(email), ch, t, redis.State().now, BadCredentials(email))
      ensures t != [] && t[0].Sent? && attempts == if t[0].reply.Int? then t[0].reply.n else -1
    {
      ghost var raw;
      attempts, raw := redis.SafeIncr(LoginFail(email));
      ghost var mid, rest := redis.State(), [];
      if attempts == 1 {
        ghost var armed := redis.SafeExpire(LoginFail(email), cfg.lockSeconds);
        rest := [Sent(Cmd.Expire(LoginFail(email), cfg.lockSeconds), armed)];
        Say(cfg, LoginArm(email), ch, armed, [], rest, redis.State().now, BadCredentials(email),
            redis.quiet, mid, redis.State(), old(redis.ready), 0);
      }
      t := [Sent(Cmd.Incr(LoginFail(email)), raw)] + rest;
      Say(cfg, LoginMiss(email), ch, raw, rest, t, redis.State().now, BadCredentials(email),
          redis.quiet, old(redis.State()), mid, old(redis.ready), 0);
    }

    method IssueTokens(user: int, family: string, jti: string, accessJti: string, ghost identity: Option<int>)
      returns (res: Res, ghost t: seq<Exchange<Key>>)
      requires Wired()
      modifies redis`ready, redis`talk, redis.server
      ensures Converses(redis, 0, t)
      ensures Speaks(cfg, LoginStore(user), Choice(identity, family, jti, accessJti), t, redis.State().now, res)
    {
      ghost var ch := Choice(identity, family, jti, accessJti);
      var rt := RefreshToken(user, family, jti);
      var stored := refreshStore.Issue(user, family, jti);
      ghost var mid, rest := redis.State(), [];
      if Threw(stored) {
        res := Failed;
      } else {
        var epoch, raw := sessionEpoch.Current(user);
        res := LoggedIn(AccessToken(user, accessJti, epoch, redis.server.now / 1000), rt);
        rest := [Sent(Cmd.Get(Epoch(user)), raw)];
        Say(cfg, LoginEpoch(rt), ch, raw, [], rest, redis.State().now, res,
            redis.quiet, mid, redis.State(), old(redis.ready), 0);
      }
      t := [Sent(Cmd.Set(Rt(user, family), Text(jti), cfg.refreshTtl), stored)] + rest;
      Say(cfg, LoginStore(user), ch, stored, rest, t, redis.State().now, res,
          redis.quiet, old(redis.State()), mid, old(redis.ready), 0);
    }

    /** `identity` is the id of the user whose password the caller proved to know, if any. */
    method Login(email: string, identity: Option<int>, family: string, jti: string, accessJti: string)
      returns (res: Res, ghost t: seq<Exchange<Key>>)
      requires Wired()
      modifies redis`ready, redis`talk, redis.server
      ensures Converses(redis, 0, t)
      ensures Speaks(cfg, LoginCheck(email), Choice(identity, family, jti, accessJti), t, redis.State().now, res)
      ensures redis.quiet ==>
                (redis.State(), res) ==
                Solo(cfg, old(redis.State()), LoginCheck(email), Choice(identity, family, jti, accessJti), old(redis.ready))
    {
      ghost var ch := Choice(identity, family, jti, accessJti);
      var locked, raw := AssertNotLocked(email);
      ghost var mid, rest := redis.State(), [];
      if locked {
        res := Locked(email);
      } else {
        res, rest := Verified(email, identity, family, jti, accessJti);
      }
      t := [Sent(Cmd.Get(LoginFail(email)), raw)] + rest;
      Say(cfg, LoginCheck(email), ch, raw, rest, t, redis.State().now, res,
          redis.quiet, old(redis.State()), mid, old(redis.ready), 0);
      Conclude(LoginCheck(email), ch, t, old(redis.State()), old(redis.ready), 0, res);
    }

    /** The login once the password has been looked at. */
    method Verified(email: string, identity: Option<int>, family: string, jti: string, accessJti: string)
      returns (res: Res, ghost t: seq<Exchange<Key>>)
      requires Wired()
      modifies redis`ready, redis`talk, redis.server
      ensures Converses(redis, 0, t)
      ensures Speaks(cfg, LoginVerify(email), Choice(identity, family, jti, accessJti), t, redis.State().now, res)
    {
      ghost var ch := Choice(identity, family, jti, accessJti);
      match identity
      case None =>
        var _, failure := RecordFailedAttempt(email, ch);
        return BadCredentials(email), failure;
      case Some(user) =>
        assert (set k | k in [LoginFail(email)]) == {LoginFail(email)};
        ghost var cleared := redis.SafeDel([LoginFail(email)]);
        ghost var mid, rest := redis.State(), [];
        res, rest := IssueTokens(user, family, jti, accessJti, identity);
        t := [Sent(Cmd.Del({LoginFail(email)}), cleared)] + rest;
        Say(cfg, LoginClear(email, user), ch, cleared, rest, t, redis.State().now, res,
            redis.quiet, old(redis.State()), mid, old(redis.ready), 0);
    }

    /** A conversation held undisturbed is the request run alone. */
    lemma Conclude(pc: Pc, ch: Choice, t: seq<Exchange<Key>>, db: Db<Key>, ready: bool, user: int, res: Res)
      requires redis.quiet ==>
                 && Truthful(db, ready, user, t) && redis.State() == Final(db, ready, t)
                 && (pc.RevokeBump? || pc.RevokeScan? ==> pc.user == user)
      requires Speaks(cfg, pc, ch, t, redis.State().now, res)
      ensures redis.quiet ==> (redis.State(), res) == Solo(cfg, db, pc, ch, ready)
    {
      if redis.quiet {
        FinalKeepsTime(db, ready, t);
        UndisturbedTalkIsSolo(cfg, pc, ch, t, db, ready, user, res);
      }
    }

    /** After an accepted rotation: new tokens, or no family at all when the subject is gone. */
    method FinishRefresh(rt: RefreshToken, next: RefreshToken, accessJti: string, identity: Option<int>, ghost newJti: string)
      returns (res: Res, ghost t: seq<Exchange<Key>>)
      requires Wired()
      modifies redis`ready, redis`talk, redis.server
      ensures Converses(redis, rt.sub, t)
      ensures Speaks(cfg, RefreshLoad(rt, next), Choice(identity, newJti, "", accessJti), t, redis.State().now, res)
    {
      ghost var ch := Choice(identity, newJti, "", accessJti);
      if identity.None? {
        var r := refreshStore.Revoke(rt.sub, rt.family);
        res := if Threw(r) then Failed else Invalid(rt);
        t := [Sent(Cmd.Del({FamilyKey(rt)}), r)];
        Say(cfg, RefreshOrphan(rt), ch, r, [], t, redis.State().now, res,
            redis.quiet, old(redis.State()), redis.State(), old(redis.ready), rt.sub);
        return;
      }
      var epoch, raw := sessionEpoch.Current(rt.sub);
      t := [Sent(Cmd.Get(Epoch(rt.sub)), raw)];
      res := Refreshed(rt, AccessToken(rt.sub, accessJti, epoch, redis.server.now / 1000), next);
      Say(cfg, RefreshEpoch(rt, next), ch, raw, [], t, redis.State().now, res,
          redis.quiet, old(redis.State()), redis.State(), old(redis.ready), rt.sub);
    }

    /**
     `presented` is `None` when the token is missing or does not verify; `identity` is the subject, if it
     is still an active user.
     */
    method Refresh(presented: Option<RefreshToken>, identity: Option<int>, newJti: string, accessJti: string)
      returns (res: Res, ghost t: seq<Exchange<Key>>)
      requires Wired()
      modifies redis`ready, redis`talk, redis.server
      ensures presented.None? ==> res == Unverified && unchanged(redis, redis.server)
      ensures presented.Some? ==>
                var ch := Choice(identity, newJti, "", accessJti);
                && Converses(redis, presented.value.sub, t)
                && Speaks(cfg, RefreshSwap(presented.value), ch, t, redis.State().now, res)
                && (redis.quiet ==>
                      (redis.State(), res) ==
                      Solo(cfg, old(redis.State()), RefreshSwap(presented.value), ch, old(redis.ready)))
    {
      if presented.None? { return Unverified, []; }
      var rt := presented.value;
      ghost var ch := Choice(identity, newJti, "", accessJti);
      var rotation;
      rotation, t := refreshStore.Rotate(rt.sub, rt.family, rt.jti, newJti, ch);
      ghost var mid := redis.State();
      match rotation {
        case ReuseDetected => res := Reused(rt);
        case Unknown => res := Invalid(rt);
        case Unavailable => res := Failed;
        case Rotated(jti) =>
          var next := RefreshToken(rt.sub, rt.family, jti);
          ghost var rest;
          res, rest := FinishRefresh(rt, next, accessJti, identity, newJti);
          t := [Sent(CmdOf(cfg, RefreshSwap(rt), ch), Int(1))] + rest;
          Say(cfg, RefreshSwap(rt), ch, Int(1), rest, t, redis.State().now, res,
              redis.quiet, old(redis.State()), mid, old(redis.ready), rt.sub);
      }
      Conclude(RefreshSwap(rt), ch, t, old(redis.State()), old(redis.ready), rt.sub, res);
    }

    /** Tokens that do not verify are passed as `None` and skipped; whatever is thrown is swallowed. */
    method Logout(at: Option<AccessToken>, rt: Option<RefreshToken>) returns (ghost t: seq<Exchange<Key>>)
      requires Wired()
      modifies redis`ready, redis`talk, redis.server
      ensures at.None? && rt.None? ==> unchanged(redis, redis.server)
      ensures at.Some? || rt.Some? ==>
                var pc, ch := if at.Some? then LogoutBlock(at.value, rt) else LogoutDrop(rt.value), Choice(None, "", "", "");
                && Converses(redis, 0, t)
                && Speaks(cfg, pc, ch, t, redis.State().now, LoggedOut)
                && (redis.quiet ==> redis.State() == Solo(cfg, old(redis.State()), pc, ch, old(redis.ready)).0)
      ensures redis.quiet && old(redis.ready) && at.Some? ==> Blocked(at.value.jti) in redis.server.store
      ensures redis.quiet && old(redis.ready) && rt.Some? ==> FamilyKey(rt.value) !in redis.server.store
    {
      t := [];
      if at.Some? {
        t := BlockToken(at.value, rt);
        Conclude(LogoutBlock(at.value, rt), Choice(None, "", "", ""), t, old(redis.State()), old(redis.ready), 0, LoggedOut);
      } else if rt.Some? {
        t := DropFamily(rt.value);
        Conclude(LogoutDrop(rt.value), Choice(None, "", "", ""), t, old(redis.State()), old(redis.ready), 0, LoggedOut);
      }
    }

    method BlockToken(at: AccessToken, rt: Option<RefreshToken>) returns (ghost t: seq<Exchange<Key>>)
      requires Wired()
      modifies redis`ready, redis`talk, redis.server
      ensures Converses(redis, 0, t)
      ensures Speaks(cfg, LogoutBlock(at, rt), Choice(None, "", "", ""), t, redis.State().now, LoggedOut)
      ensures redis.quiet && old(redis.ready) ==>
                && Blocked(at.jti) in redis.server.store
                && (rt.Some? ==> FamilyKey(rt.value) !in redis.server.store)
    {
      var blocked := redis.Set(Blocked(at.jti), Num(1), cfg.blockTtl);
      ghost var mid, rest := redis.State(), [];
      if rt.Some? {
        rest := DropFamily(rt.value);
      }
      t := [Sent(Cmd.Set(Blocked(at.jti), Num(1), cfg.blockTtl), blocked)] + rest;
      Say(cfg, LogoutBlock(at, rt), Choice(None, "", "", ""), blocked, rest, t, redis.State().now, LoggedOut,
          redis.quiet, old(redis.State()), mid, old(redis.ready), 0);
    }

    method DropFamily(rt: RefreshToken) returns (ghost t: seq<Exchange<Key>>)
      requires Wired()
      modifies redis`ready, redis`talk, redis.server
      ensures Converses(redis, 0, t)
      ensures Speaks(cfg, LogoutDrop(rt), Choice(None, "", "", ""), t, redis.State().now, LoggedOut)
      ensures redis.quiet && old(redis.ready) ==> redis.server.store == Without(old(redis.server.store), {FamilyKey(rt)})
    {
      var gone := refreshStore.Revoke(rt.sub, rt.family);
      t := [Sent(Cmd.Del({FamilyKey(rt)}), gone)];
      Say(cfg, LogoutDrop(rt), Choice(None, "", "", ""), gone, [], t, redis.State().now, LoggedOut,
          redis.quiet, old(redis.State()), redis.State(), old(redis.ready), 0);
    }

    /** First the epoch, then the families. */
    method RevokeAllSessions(user: int, batches: seq<seq<Key>>) returns (ghost t: seq<Exchange<Key>>)
      requires Wired()
      requires forall k :: k in Concat(batches) ==> k.Rt? && k.user == user
      requires redis.quiet && redis.ready ==>
                 (set k | k in Concat(batches)) == Families(user, redis.State().kv.Keys)
      modifies redis`ready, redis`talk, redis.server
      ensures Converses(redis, user, t)
      ensures Speaks(cfg, RevokeBump(user), Choice(None, "", "", ""), t, redis.State().now, Revoked(user))
      ensures redis.quiet ==>
                redis.State() == Solo(cfg, old(redis.State()), RevokeBump(user), Choice(None, "", "", ""), old(redis.ready)).0
    {
      ghost var ch := Choice(None, "", "", "");
      var _, raw := sessionEpoch.RevokeAll(user);
      ghost var mid := redis.State();
      assert redis.quiet ==> Families(user, redis.State().kv.Keys) == Families(user, old(redis.State()).kv.Keys);
      ghost var sweep := refreshStore.RevokeAllFamilies(user, batches, ch);
      t := [Sent(Cmd.Incr(Epoch(user)), raw)] + sweep;
      Say(cfg, RevokeBump(user), ch, raw, sweep, t, redis.State().now, Revoked(user),
          redis.quiet, old(redis.State()), mid, old(redis.ready), user);
      Conclude(RevokeBump(user), ch, t, old(redis.State()), old(redis.ready), user, Revoked(user));
    }
  }

  // ----- The guard

  /** What the guard sees of a request; `payload` is `None` when there is no bearer token or it does not verify. */
  class Request {
    const isHttp: bool
    const isPublic: bool
    const payload: Option<Payload>
    var user: Option<Authenticated>

    constructor (isHttp: bool, isPublic: bool, payload: Option<Payload>)
      ensures this.isHttp == isHttp && this.isPublic == isPublic && this.payload == payload && user == None
    {
      this.isHttp, this.isPublic, this.payload, user := isHttp, isPublic, payload, None;
    }
  }

  /** The payload says that it is an access token and has a jti. */
  predicate CarriesAccessToken(request: Request) {
    request.payload.Some? && request.payload.value.typ == Some("access")
    && request.payload.value.jti !in {None, Some("")}
  }

  class AuthGuard {
    const failClosed: bool
    const redis: RedisClient<Key>

    constructor (failClosed: bool, redis: RedisClient<Key>)
      ensures this.failClosed == failClosed && this.redis == redis
    {
      this.failClosed, this.redis := failClosed, redis;
    }

    /**
     Public routes and other transports pass untouched and unasked. Any other request passes exactly when it
     carries a verified, well-typed access token that the protocol's guard accepts in the conversation held
     for it, and then its user is set. A guard that fails closed does not ask a client that is not ready.
     */
    method CanActivate(request: Request, ghost cfg: Config) returns (ok: bool, ghost t: seq<Exchange<Key>>)
      requires cfg.failClosed == failClosed
      modifies request, redis`ready, redis`talk, redis.server
      ensures !request.isHttp || request.isPublic ==> ok && unchanged(request, redis, redis.server)
      ensures request.isHttp && !request.isPublic && !CarriesAccessToken(request) ==>
                !ok && unchanged(redis, redis.server)
      ensures request.isHttp && !request.isPublic && CarriesAccessToken(request) ==>
                var p, ch := request.payload.value, Choice(None, "", "", "");
                var at := AccessToken(p.sub, p.jti.value, match p.epoch case None => 0 case Some(epoch) => epoch, p.iat);
                if failClosed && !old(redis.ready) then !ok && unchanged(redis, redis.server)
                else
                  && Converses(redis, 0, t)
                  && Speaks(cfg, GuardBlock(at), ch, t, redis.State().now, if ok then Accepted(at) else Rejected(at))
                  && (redis.quiet ==> (ok <==> Solo(cfg, old(redis.State()), GuardBlock(at), ch, old(redis.ready)).1 == Accepted(at)))
      ensures request.isHttp && !request.isPublic && ok ==>
                && CarriesAccessToken(request) && request.user.Some?
                && var p, u := request.payload.value, request.user.value;
                && u.subject.id == p.sub
                && p.jti == Some(u.jti)
                && (p.globalRoles == Some(u.subject.globalRoles) || (p.globalRoles.None? && u.subject.globalRoles == {}))
                && (p.teams == Some(u.subject.teams) || (p.teams.None? && u.subject.teams == []))
                && u.subject.roleName == p.roleName
      ensures !ok ==> request.user == old(request.user)
    {
      if !request.isHttp { return true, []; }
      if request.isPublic { return true, []; }
      if request.payload.None? { return false, []; }
      var payload := request.payload.value;
      if payload.typ != Some("access") { return false, []; }
      if payload.jti.None? || payload.jti.value == "" { return false, []; }
      if failClosed && !redis.ready { return false, []; }
      ok, t := Examine(payload, cfg);
      if ok {
        request.user := Some(SubjectOf(payload));
      }
      ghost var at := AsToken(payload);
      if redis.quiet {
        FinalKeepsTime(old(redis.State()), old(redis.ready), t);
        UndisturbedTalkIsSolo(cfg, GuardBlock(at), Choice(None, "", "", ""), t, old(redis.State()), old(redis.ready), 0,
                              if ok then Accepted(at) else Rejected(at));
      }
    }

    /** First the blocklist, then the epoch. */
    method Examine(payload: Payload, ghost cfg: Config) returns (ok: bool, ghost t: seq<Exchange<Key>>)
      requires WellTyped(payload) && cfg.failClosed == failClosed && (failClosed ==> redis.ready)
      modifies redis`ready, redis`talk, redis.server
      ensures Converses(redis, 0, t)
      ensures var at := AsToken(payload);
              Speaks(cfg, GuardBlock(at), Choice(None, "", "", ""), t, redis.State().now, if ok then Accepted(at) else Rejected(at))
    {
      ghost var at, ch := AsToken(payload), Choice(None, "", "", "");
      var blocked, raw := redis.SafeGet(Blocked(payload.jti.value));
      ghost var mid, rest := redis.State(), [];
      if Truthy(blocked) {
        ok := false;
      } else {
        ok, rest := CompareEpochs(payload, cfg);
      }
      t := [Sent(Cmd.Get(Blocked(at.jti)), raw)] + rest;
      Say(cfg, GuardBlock(at), ch, raw, rest, t, redis.State().now, if ok then Accepted(at) else Rejected(at),
          redis.quiet, old(redis.State()), mid, old(redis.ready), 0);
    }

    method CompareEpochs(payload: Payload, ghost cfg: Config) returns (ok: bool, ghost t: seq<Exchange<Key>>)
      requires WellTyped(payload)
      modifies redis`ready, redis`talk, redis.server
      ensures Converses(redis, 0, t)
      ensures var at := AsToken(payload);
              Speaks(cfg, GuardEpoch(at), Choice(None, "", "", ""), t, redis.State().now, if ok then Accepted(at) else Rejected(at))
    {
      ghost var at := AsToken(payload);
      var storedEpoch, raw := redis.SafeGet(Epoch(payload.sub));
      ok := NumberOf(storedEpoch) <= (if payload.epoch.Some? then payload.epoch.value else 0);
      t := [Sent(Cmd.Get(Epoch(at.sub)), raw)];
      Say(cfg, GuardEpoch(at), Choice(None, "", "", ""), raw, [], t, redis.State().now,
          if ok then Accepted(at) else Rejected(at), redis.quiet, old(redis.State()), redis.State(), old(redis.ready), 0);
    }
  }
}
