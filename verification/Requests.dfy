/**
 A request from its own point of view: run to its end while nobody interferes (`Solo`), and as a conversation
 with Redis whatever others do (`Speaks`). Both string together the very commands and continuations that the
 interleaving machine takes one at a time.
 */
module Requests {
  import opened Common
  import opened Redis
  import opened Keys
  import opened Sessions

  /** How many steps a request still takes at most; a scan counts as one. */
  function Rank(pc: Pc): nat {
    match pc
    case LoginCheck(_) => 7
    case LoginVerify(_) => 6
    case LoginMiss(_) => 2
    case LoginArm(_) => 1
    case LoginClear(_, _) => 4
    case LoginStore(_) => 3
    case LoginEpoch(_) => 2
    case LoginSign(_, _) => 1
    case RefreshSwap(_) => 4
    case RefreshProbe(_) => 2
    case RefreshDrop(_) => 1
    case RefreshLoad(_, _) => 3
    case RefreshOrphan(_) => 1
    case RefreshEpoch(_, _) => 2
    case RefreshSign(_, _, _) => 1
    case LogoutBlock(_, _) => 2
    case LogoutDrop(_) => 1
    case RevokeBump(_) => 4
    case RevokeScan(_) => 3
    case Scanning(_, _) => 2
    case RevokeDrop(_, _) => 1
    case GuardBlock(_) => 2
    case GuardEpoch(_) => 1
    case Done(_) => 0
  }

  lemma EveryStepAdvances(cfg: Config, pc: Pc, r: Reply, ch: Choice, now: nat)
    requires !pc.Done? && !pc.RevokeScan? && !pc.Scanning?
    ensures Rank(Resume(cfg, pc, r, ch, now)) < Rank(pc)
  {
  }

  /** One step of a request that runs alone; an undisturbed scan finds all the families. */
  function SoloStep(cfg: Config, db: Db<Key>, pc: Pc, ch: Choice, ready: bool): (r: (Db<Key>, Pc))
    requires !pc.Done?
    ensures Rank(r.1) < Rank(pc)
  {
    match pc
    case RevokeScan(user) => (db, if ready then Scanning(user, Families(user, db.kv.Keys)) else Done(Revoked(user)))
    case Scanning(user, found) => (db, if found == {} then Done(Revoked(user)) else RevokeDrop(user, found))
    case _ =>
      var (db', reply) := Send(db, ready, CmdOf(cfg, pc, ch));
      EveryStepAdvances(cfg, pc, reply, ch, db.now);
      (db', Resume(cfg, pc, reply, ch, db.now))
  }

  /** The request run to its end. */
  function Solo(cfg: Config, db: Db<Key>, pc: Pc, ch: Choice, ready: bool): (Db<Key>, Res)
    decreases Rank(pc)
  {
    if pc.Done? then (db, pc.res)
    else
      var (db', pc') := SoloStep(cfg, db, pc, ch, ready);
      Solo(cfg, db', pc', ch, ready)
  }

  lemma Unfold(cfg: Config, db: Db<Key>, pc: Pc, ch: Choice, ready: bool)
    requires !pc.Done?
    ensures var (db', pc') := SoloStep(cfg, db, pc, ch, ready);
            Solo(cfg, db, pc, ch, ready) == if pc'.Done? then (db', pc'.res) else Solo(cfg, db', pc', ch, ready)
  {
  }

  // ----- A request as a conversation with Redis

  /**
   `talk` is what the request says from `pc` on and what it is answered, until it ends with `res` at time
   `now`. The replies are free: they may be those of a store that others change all the time, or those of an
   outage. The commands are fixed, in number and order, by what was answered before.
   */
  predicate Speaks(cfg: Config, pc: Pc, ch: Choice, talk: seq<Exchange<Key>>, now: nat, res: Res)
    decreases Rank(pc)
  {
    if pc.Done? then talk == [] && pc.res == res
    else if pc.Scanning? then false
    else if pc.RevokeScan? then
      && talk != [] && talk[0].Scanned?
      && (forall k :: k in talk[0].found ==> k.Rt? && k.user == pc.user)
      && Speaks(cfg, AfterScan(pc.user, talk[0].found), ch, talk[1..], now, res)
    else if CmdOf(cfg, pc, ch) == Nop then
      EveryStepAdvances(cfg, pc, OK, ch, now);
      Speaks(cfg, Resume(cfg, pc, OK, ch, now), ch, talk, now, res)
    else
      && talk != [] && talk[0].Sent? && talk[0].cmd == CmdOf(cfg, pc, ch)
      && (EveryStepAdvances(cfg, pc, talk[0].reply, ch, now);
          Speaks(cfg, Resume(cfg, pc, talk[0].reply, ch, now), ch, talk[1..], now, res))
  }

  /** Where the machine goes from a scan that returned `found`. */
  function AfterScan(user: int, found: seq<Key>): (pc: Pc)
    ensures Rank(pc) < Rank(RevokeScan(user))
  {
    var keys := set k | k in found;
    if keys == {} then Done(Revoked(user)) else RevokeDrop(user, keys)
  }

  /** The replies are those of a store on which nothing else happens; a scan for `user` returns all its families. */
  predicate Truthful(db: Db<Key>, ready: bool, user: int, talk: seq<Exchange<Key>>)
    decreases |talk|
  {
    talk == [] ||
    match talk[0]
    case Sent(cmd, reply) => reply == Send(db, ready, cmd).1 && Truthful(Send(db, ready, cmd).0, ready, user, talk[1..])
    case Scanned(found) =>
      && (set k | k in found) == (if ready then Families(user, db.kv.Keys) else {})
      && Truthful(db, ready, user, talk[1..])
  }

  /** What the commands make of the store. */
  function Final(db: Db<Key>, ready: bool, talk: seq<Exchange<Key>>): Db<Key>
    decreases |talk|
  {
    if talk == [] then db
    else match talk[0]
      case Sent(cmd, _) => Final(Send(db, ready, cmd).0, ready, talk[1..])
      case Scanned(_) => Final(db, ready, talk[1..])
  }

  /**
   A request that sends its command, hears `r` and goes on with `rest` has held `talk`; if it was not disturbed
   (`alone`), the command took the store from `db` to `db1`.
   */
  lemma Say(
    cfg: Config, pc: Pc, ch: Choice, r: Reply, rest: seq<Exchange<Key>>, talk: seq<Exchange<Key>>, now: nat, res: Res,
    alone: bool, db: Db<Key>, db1: Db<Key>, ready: bool, user: int)
    requires !pc.Done? && !pc.RevokeScan? && !pc.Scanning? && CmdOf(cfg, pc, ch) != Nop
    requires talk == [Sent(CmdOf(cfg, pc, ch), r)] + rest
    requires Speaks(cfg, Resume(cfg, pc, r, ch, now), ch, rest, now, res)
    requires alone ==> (db1, r) == Send(db, ready, CmdOf(cfg, pc, ch)) && Truthful(db1, ready, user, rest)
    ensures Speaks(cfg, pc, ch, talk, now, res)
    ensures alone ==> Truthful(db, ready, user, talk) && Final(db, ready, talk) == Final(db1, ready, rest)
  {
    assert talk[0] == Sent(CmdOf(cfg, pc, ch), r) && talk[1..] == rest;
  }

  lemma {:induction false} FinalKeepsTime(db: Db<Key>, ready: bool, talk: seq<Exchange<Key>>)
    ensures Final(db, ready, talk).now == db.now
    decreases |talk|
  {
    if talk != [] {
      FinalKeepsTime(if talk[0].Sent? then Send(db, ready, talk[0].cmd).0 else db, ready, talk[1..]);
    }
  }

  /** A conversation that nobody disturbed is the request run alone. */
  lemma {:induction false} UndisturbedTalkIsSolo(
    cfg: Config, pc: Pc, ch: Choice, talk: seq<Exchange<Key>>, db: Db<Key>, ready: bool, user: int, res: Res)
    requires Speaks(cfg, pc, ch, talk, db.now, res) && Truthful(db, ready, user, talk)
    requires pc.RevokeBump? || pc.RevokeScan? ==> pc.user == user
    ensures Solo(cfg, db, pc, ch, ready) == (Final(db, ready, talk), res)
    decreases Rank(pc)
  {
    if pc.RevokeScan? {
      UndisturbedTalkIsSolo(cfg, AfterScan(pc.user, talk[0].found), ch, talk[1..], db, ready, user, res);
      ScanAlone(cfg, pc.user, talk[0].found, ch, db, ready);
    } else if !pc.Done? && CmdOf(cfg, pc, ch) == Nop {
      SilentStep(cfg, pc, ch, ready, db.now);
      EveryStepAdvances(cfg, pc, OK, ch, db.now);
      UndisturbedTalkIsSolo(cfg, Resume(cfg, pc, OK, ch, db.now), ch, talk, db, ready, user, res);
      OneStepAlone(cfg, pc, ch, db, ready);
    } else if !pc.Done? {
      var (db1, r) := Send(db, ready, CmdOf(cfg, pc, ch));
      SendKeepsTime(db, ready, CmdOf(cfg, pc, ch));
      EveryStepAdvances(cfg, pc, r, ch, db.now);
      UndisturbedTalkIsSolo(cfg, Resume(cfg, pc, r, ch, db.now), ch, talk[1..], db1, ready, user, res);
      OneStepAlone(cfg, pc, ch, db, ready);
    }
  }

  lemma OneStepAlone(cfg: Config, pc: Pc, ch: Choice, db: Db<Key>, ready: bool)
    requires !pc.Done? && !pc.RevokeScan? && !pc.Scanning?
    ensures var (db1, r) := Send(db, ready, CmdOf(cfg, pc, ch));
            Solo(cfg, db, pc, ch, ready) == Solo(cfg, db1, Resume(cfg, pc, r, ch, db.now), ch, ready)
  {
  }

  /** A step without a command does not depend on the connection. */
  lemma SilentStep(cfg: Config, pc: Pc, ch: Choice, ready: bool, now: nat)
    requires !pc.Done? && !pc.RevokeScan? && !pc.Scanning? && CmdOf(cfg, pc, ch) == Nop
    ensures Resume(cfg, pc, Down, ch, now) == Resume(cfg, pc, OK, ch, now)
  {
  }

  lemma ScanAlone(cfg: Config, user: int, found: seq<Key>, ch: Choice, db: Db<Key>, ready: bool)
    requires (set k | k in found) == (if ready then Families(user, db.kv.Keys) else {})
    ensures Solo(cfg, db, RevokeScan(user), ch, ready) == Solo(cfg, db, AfterScan(user, found), ch, ready)
  {
    Unfold(cfg, db, RevokeScan(user), ch, ready);
    if ready { Unfold(cfg, db, Scanning(user, Families(user, db.kv.Keys)), ch, ready); }
  }

  // ----- Requests that nobody disturbs

  lemma SoloSweep(cfg: Config, db: Db<Key>, user: int, ch: Choice, ready: bool)
    ensures Solo(cfg, db, RevokeScan(user), ch, ready).0
            == Send(db, ready, Cmd.Del(Families(user, db.kv.Keys))).0
  {
    var found := Families(user, db.kv.Keys);
    Unfold(cfg, db, RevokeScan(user), ch, ready);
    if ready {
      Unfold(cfg, db, Scanning(user, found), ch, ready);
      if found == {} {
        assert Without(db.kv, {}) == db.kv;
      } else {
        Unfold(cfg, db, RevokeDrop(user, found), ch, ready);
      }
    }
  }

  /** Alone, a revocation raises the epoch and deletes the families of the user. */
  lemma SoloRevocation(cfg: Config, db: Db<Key>, user: int, ch: Choice, ready: bool)
    ensures var db1 := Send(db, ready, Cmd.Incr(Epoch(user))).0;
            && Families(user, db1.kv.Keys) == Families(user, db.kv.Keys)
            && Solo(cfg, db, RevokeBump(user), ch, ready).0
               == Send(db1, ready, Cmd.Del(Families(user, db.kv.Keys))).0
  {
    var db1 := Send(db, ready, Cmd.Incr(Epoch(user))).0;
    assert Families(user, db1.kv.Keys) == Families(user, db.kv.Keys);
    Unfold(cfg, db, RevokeBump(user), ch, ready);
    SoloSweep(cfg, db1, user, ch, ready);
  }

  lemma SoloSwap(cfg: Config, db: Db<Key>, rt: RefreshToken, ch: Choice, ready: bool)
    ensures var (db1, r) := Send(db, ready, Cmd.CompareAndSet(FamilyKey(rt), Text(rt.jti), Text(ch.a), cfg.refreshTtl));
            Solo(cfg, db, RefreshSwap(rt), ch, ready) ==
            if Threw(r) then (db1, Failed)
            else if r == Int(1) then Solo(cfg, db1, RefreshLoad(rt, RefreshToken(rt.sub, rt.family, ch.a)), ch, ready)
            else Solo(cfg, db1, RefreshProbe(rt), ch, ready)
  {
    Unfold(cfg, db, RefreshSwap(rt), ch, ready);
  }

  lemma SoloProbe(cfg: Config, db: Db<Key>, rt: RefreshToken, ch: Choice)
    ensures var k := FamilyKey(rt);
            Solo(cfg, db, RefreshProbe(rt), ch, true) ==
            if k in db.kv && db.kv[k].value != Text("") then (db.(kv := Without(db.kv, {k})), Reused(rt))
            else (db, Invalid(rt))
  {
    Unfold(cfg, db, RefreshProbe(rt), ch, true);
    if FamilyKey(rt) in db.kv && db.kv[FamilyKey(rt)].value != Text("") {
      Unfold(cfg, db, RefreshDrop(rt), ch, true);
    }
  }

  /** Alone, a presented token that is not the stored one ends its family, if there is one. */
  lemma SoloRefusal(cfg: Config, db: Db<Key>, rt: RefreshToken, ch: Choice)
    requires FamilyKey(rt) in db.kv ==> db.kv[FamilyKey(rt)].value != Text(rt.jti)
    ensures var k := FamilyKey(rt);
            Solo(cfg, db, RefreshSwap(rt), ch, true) ==
            if k in db.kv && db.kv[k].value != Text("") then (db.(kv := Without(db.kv, {k})), Reused(rt))
            else (db, Invalid(rt))
  {
    SoloSwap(cfg, db, rt, ch, true);
    SoloProbe(cfg, db, rt, ch);
  }

  lemma SoloDrop(cfg: Config, db: Db<Key>, rt: RefreshToken, ch: Choice, ready: bool)
    ensures Solo(cfg, db, LogoutDrop(rt), ch, ready).0 == Send(db, ready, Cmd.Del({FamilyKey(rt)})).0
  {
    Unfold(cfg, db, LogoutDrop(rt), ch, ready);
  }

  /** Alone, a logout enters its access token in the blocklist and deletes its family. */
  lemma SoloLogout(cfg: Config, db: Db<Key>, at: AccessToken, rt: Option<RefreshToken>, ch: Choice, ready: bool)
    ensures var db1 := Send(db, ready, Cmd.Set(Blocked(at.jti), Num(1), cfg.blockTtl)).0;
            Solo(cfg, db, LogoutBlock(at, rt), ch, ready).0 ==
            if rt.Some? then Send(db1, ready, Cmd.Del({FamilyKey(rt.value)})).0 else db1
  {
    Unfold(cfg, db, LogoutBlock(at, rt), ch, ready);
    if rt.Some? {
      SoloDrop(cfg, Send(db, ready, Cmd.Set(Blocked(at.jti), Num(1), cfg.blockTtl)).0, rt.value, ch, ready);
    }
  }

  // ----- What the requests achieve when nobody interferes

  function Stored(db: Db<Key>, k: Key): int {
    if k in db.kv && db.kv[k].value.Num? then db.kv[k].value.n else 0
  }

  lemma SoloCheck(cfg: Config, db: Db<Key>, email: string, ch: Choice, ready: bool)
    ensures Solo(cfg, db, LoginCheck(email), ch, ready) ==
            if NumberOf(Send(db, ready, Cmd.Get(LoginFail(email))).1) >= cfg.maxAttempts then (db, Locked(email))
            else Solo(cfg, db, LoginVerify(email), ch, ready)
  {
    Unfold(cfg, db, LoginCheck(email), ch, ready);
  }

  lemma SoloVerify(cfg: Config, db: Db<Key>, email: string, ch: Choice, ready: bool)
    ensures Solo(cfg, db, LoginVerify(email), ch, ready) ==
            if ch.user.None? then Solo(cfg, db, LoginMiss(email), ch, ready)
            else Solo(cfg, Send(db, ready, Cmd.Del({LoginFail(email)})).0, LoginStore(ch.user.value), ch, ready)
  {
    Unfold(cfg, db, LoginVerify(email), ch, ready);
    if ch.user.Some? {
      Unfold(cfg, db, LoginClear(email, ch.user.value), ch, ready);
    }
  }

  /** An account with as many failures as allowed is refused, whatever the password, and nothing changes. */
  lemma LockedLogin(cfg: Config, db: Db<Key>, email: string, ch: Choice)
    requires Stored(db, LoginFail(email)) >= cfg.maxAttempts
    ensures Solo(cfg, db, LoginCheck(email), ch, true) == (db, Locked(email))
  {
    SoloCheck(cfg, db, email, ch, true);
  }

  /** What a failure leaves of the counter: with a lock duration of 0 its EXPIRE deletes a new one at once. */
  function FailureCounted(cfg: Config, db: Db<Key>, email: string): Db<Key> {
    var k := LoginFail(email);
    if k in db.kv then db.(kv := db.kv[k := Entry(Num(Stored(db, k) + 1), db.kv[k].expiresAt)])
    else if cfg.lockSeconds > 0 then db.(kv := db.kv[k := Entry(Num(1), Some(db.now + 1000 * cfg.lockSeconds))])
    else db
  }

  /** The stored counter is a positive number, if there is one. */
  predicate CounterSound(db: Db<Key>, email: string) {
    LoginFail(email) in db.kv ==> db.kv[LoginFail(email)].value.Num? && db.kv[LoginFail(email)].value.n > 0
  }

  lemma CountedFailure(cfg: Config, db: Db<Key>, email: string, ch: Choice)
    requires CounterSound(db, email)
    ensures Solo(cfg, db, LoginMiss(email), ch, true) == (FailureCounted(cfg, db, email), BadCredentials(email))
  {
    Unfold(cfg, db, LoginMiss(email), ch, true);
    if LoginFail(email) !in db.kv {
      var db1 := db.(kv := db.kv[LoginFail(email) := Entry(Num(1), None)]);
      Unfold(cfg, db1, LoginArm(email), ch, true);
      var armed := Entry(Num(1), Some(db.now + 1000 * cfg.lockSeconds));
      assert db1.kv[LoginFail(email) := armed] == db.kv[LoginFail(email) := armed];
      assert Without(db1.kv, {LoginFail(email)}) == db.kv;
    }
  }

  /**
   A wrong password adds one failure and lets the lock window run from the first failure on; with a lock
   duration of 0 the first failure leaves no trace.
   */
  lemma FailedLogin(cfg: Config, db: Db<Key>, email: string, ch: Choice)
    requires Stored(db, LoginFail(email)) < cfg.maxAttempts && ch.user.None? && CounterSound(db, email)
    ensures Solo(cfg, db, LoginCheck(email), ch, true) == (FailureCounted(cfg, db, email), BadCredentials(email))
  {
    SoloCheck(cfg, db, email, ch, true);
    SoloVerify(cfg, db, email, ch, true);
    CountedFailure(cfg, db, email, ch);
  }

  /** The store after `m` logins in a row with a wrong password. */
  function AfterFailures(cfg: Config, db: Db<Key>, email: string, ch: Choice, m: nat): Db<Key> {
    if m == 0 then db
    else Solo(cfg, AfterFailures(cfg, db, email, ch, m - 1), LoginCheck(email), ch, true).0
  }

  lemma {:induction false} FailuresInARow(cfg: Config, db: Db<Key>, email: string, ch: Choice, m: nat)
    requires LoginFail(email) !in db.kv && ch.user.None?
    ensures CounterSound(AfterFailures(cfg, db, email, ch, m), email)
    ensures Stored(AfterFailures(cfg, db, email, ch, m), LoginFail(email)) ==
            if cfg.lockSeconds == 0 then 0 else if m <= cfg.maxAttempts then m else cfg.maxAttempts
  {
    if m > 0 {
      FailuresInARow(cfg, db, email, ch, m - 1);
      var before := AfterFailures(cfg, db, email, ch, m - 1);
      if Stored(before, LoginFail(email)) >= cfg.maxAttempts {
        LockedLogin(cfg, before, email, ch);
      } else {
        FailedLogin(cfg, before, email, ch);
      }
    }
  }

  /** Failures in a row are counted up to the maximum, and lock the account, if and only if the duration is positive. */
  lemma FailuresLockExactly(cfg: Config, db: Db<Key>, email: string, ch: Choice)
    requires LoginFail(email) !in db.kv && ch.user.None? && cfg.maxAttempts > 0
    ensures (forall m :: 0 <= m <= cfg.maxAttempts ==> Stored(AfterFailures(cfg, db, email, ch, m), LoginFail(email)) == m)
            <==> cfg.lockSeconds > 0
    ensures Solo(cfg, AfterFailures(cfg, db, email, ch, cfg.maxAttempts), LoginCheck(email), ch, true).1 == Locked(email)
            <==> cfg.lockSeconds > 0
  {
    forall m: nat
      ensures Stored(AfterFailures(cfg, db, email, ch, m), LoginFail(email)) ==
              if cfg.lockSeconds == 0 then 0 else if m <= cfg.maxAttempts then m else cfg.maxAttempts
    {
      FailuresInARow(cfg, db, email, ch, m);
    }
    var after := AfterFailures(cfg, db, email, ch, cfg.maxAttempts);
    FailuresInARow(cfg, db, email, ch, cfg.maxAttempts);
    SoloCheck(cfg, after, email, ch, true);
    if cfg.lockSeconds == 0 {
      assert Stored(AfterFailures(cfg, db, email, ch, 1), LoginFail(email)) == 0;
      FailedLogin(cfg, after, email, ch);
    }
  }

  lemma IssuedTokens(cfg: Config, db: Db<Key>, user: int, ch: Choice)
    ensures Solo(cfg, db, LoginStore(user), ch, true) ==
            (db.(kv := db.kv[Rt(user, ch.a) := Entry(Text(ch.b), Deadline(db.now, cfg.refreshTtl))]),
             LoggedIn(AccessToken(user, ch.c, Stored(db, Epoch(user)), db.now / 1000), RefreshToken(user, ch.a, ch.b)))
  {
    var rt := RefreshToken(user, ch.a, ch.b);
    var db1 := db.(kv := db.kv[Rt(user, ch.a) := Entry(Text(ch.b), Deadline(db.now, cfg.refreshTtl))]);
    Unfold(cfg, db, LoginStore(user), ch, true);
    Unfold(cfg, db1, LoginEpoch(rt), ch, true);
    Unfold(cfg, db1, LoginSign(rt, Stored(db, Epoch(user))), ch, true);
  }

  /** The right password clears the failures, opens one family and yields tokens that carry the present epoch. */
  lemma GrantedLogin(cfg: Config, db: Db<Key>, email: string, ch: Choice)
    requires Stored(db, LoginFail(email)) < cfg.maxAttempts && ch.user.Some?
    ensures var user := ch.user.value;
            Solo(cfg, db, LoginCheck(email), ch, true) ==
            (db.(kv := Without(db.kv, {LoginFail(email)})
                       [Rt(user, ch.a) := Entry(Text(ch.b), Deadline(db.now, cfg.refreshTtl))]),
             LoggedIn(AccessToken(user, ch.c, Stored(db, Epoch(user)), db.now / 1000), RefreshToken(user, ch.a, ch.b)))
  {
    SoloCheck(cfg, db, email, ch, true);
    SoloVerify(cfg, db, email, ch, true);
    IssuedTokens(cfg, db.(kv := Without(db.kv, {LoginFail(email)})), ch.user.value, ch);
  }

  lemma LoadedIdentity(cfg: Config, db: Db<Key>, rt: RefreshToken, next: RefreshToken, ch: Choice)
    ensures Solo(cfg, db, RefreshLoad(rt, next), ch, true) ==
            if ch.user.Some?
            then (db, Refreshed(rt, AccessToken(rt.sub, ch.c, Stored(db, Epoch(rt.sub)), db.now / 1000), next))
            else (db.(kv := Without(db.kv, {FamilyKey(rt)})), Invalid(rt))
  {
    Unfold(cfg, db, RefreshLoad(rt, next), ch, true);
    if ch.user.None? {
      OrphanDropped(cfg, db, rt, ch);
    } else {
      SignedTokens(cfg, db, rt, next, ch);
    }
  }

  lemma OrphanDropped(cfg: Config, db: Db<Key>, rt: RefreshToken, ch: Choice)
    ensures Solo(cfg, db, RefreshOrphan(rt), ch, true) == (db.(kv := Without(db.kv, {FamilyKey(rt)})), Invalid(rt))
  {
    Unfold(cfg, db, RefreshOrphan(rt), ch, true);
  }

  lemma SignedTokens(cfg: Config, db: Db<Key>, rt: RefreshToken, next: RefreshToken, ch: Choice)
    ensures Solo(cfg, db, RefreshEpoch(rt, next), ch, true) ==
            (db, Refreshed(rt, AccessToken(rt.sub, ch.c, Stored(db, Epoch(rt.sub)), db.now / 1000), next))
  {
    Unfold(cfg, db, RefreshEpoch(rt, next), ch, true);
    Unfold(cfg, db, RefreshSign(rt, next, Stored(db, Epoch(rt.sub))), ch, true);
  }

  /**
   The stored jti is replaced and its time restarted, and the tokens returned carry the new jti and the
   present epoch; a subject that no longer exists loses its family instead.
   */
  lemma AcceptedRefresh(cfg: Config, db: Db<Key>, rt: RefreshToken, ch: Choice)
    requires FamilyKey(rt) in db.kv && db.kv[FamilyKey(rt)].value == Text(rt.jti) && cfg.refreshTtl > 0
    ensures var k, next := FamilyKey(rt), RefreshToken(rt.sub, rt.family, ch.a);
            Solo(cfg, db, RefreshSwap(rt), ch, true) ==
            if ch.user.Some?
            then (db.(kv := db.kv[k := Entry(Text(ch.a), Some(db.now + 1000 * cfg.refreshTtl))]),
                  Refreshed(rt, AccessToken(rt.sub, ch.c, Stored(db, Epoch(rt.sub)), db.now / 1000), next))
            else (db.(kv := Without(db.kv, {k})), Invalid(rt))
  {
    var k := FamilyKey(rt);
    var db1 := db.(kv := db.kv[k := Entry(Text(ch.a), Some(db.now + 1000 * cfg.refreshTtl))]);
    SoloSwap(cfg, db, rt, ch, true);
    LoadedIdentity(cfg, db1, rt, RefreshToken(rt.sub, rt.family, ch.a), ch);
    assert Without(db1.kv, {k}) == Without(db.kv, {k});
  }

  /**
   The guard accepts exactly unblocked tokens whose epoch is not behind; without Redis it accepts every
   token, or none if it is configured to fail closed.
   */
  lemma GuardDecides(cfg: Config, db: Db<Key>, at: AccessToken, ch: Choice, ready: bool)
    requires Blocked(at.jti) in db.kv ==> db.kv[Blocked(at.jti)].value == Num(1)
    requires at.epoch >= 0
    ensures Solo(cfg, db, GuardBlock(at), ch, ready) ==
            (db, if (if ready then Blocked(at.jti) !in db.kv && Stored(db, Epoch(at.sub)) <= at.epoch else !cfg.failClosed)
                 then Accepted(at) else Rejected(at))
  {
    Unfold(cfg, db, GuardBlock(at), ch, ready);
    Unfold(cfg, db, GuardEpoch(at), ch, ready);
  }
}
