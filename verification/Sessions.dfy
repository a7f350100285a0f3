/**
 The session protocol as a state machine. A request is a program counter that steps through the Redis
 commands its code awaits, one atomic command per step, and any request may take the next step; time
 passes and keys expire between any two steps. Requests may crash, and each command is answered, not
 sent, or applied with its answer lost.
 */
module Sessions {
  import opened Common
  import opened Redis
  import opened Keys

  type Pid = nat

  /** Times to live are in seconds; `blockTtl` and `accessLifetime` are both derived from JWT_EXPIRES_IN. */
  datatype Config = Config(
    maxAttempts: nat,
    lockSeconds: nat,
    refreshTtl: nat,
    blockTtl: nat,
    accessLifetime: nat,
    failClosed: bool)

  /** Verified token payloads; only the service can produce them. `iat` is in seconds. */
  datatype AccessToken = AccessToken(sub: int, jti: string, epoch: int, iat: nat)

  datatype RefreshToken = RefreshToken(sub: int, family: string, jti: string)

  function FamilyKey(rt: RefreshToken): Key {
    Rt(rt.sub, rt.family)
  }

  predicate Expired(cfg: Config, at: AccessToken, now: nat) {
    at.iat + cfg.accessLifetime <= now / 1000
  }

  /** The next thing a request does; `Done` carries what it answered. */
  datatype Pc =
    // login
    | LoginCheck(email: string)
    | LoginVerify(email: string)
    | LoginMiss(email: string)
    | LoginArm(email: string)
    | LoginClear(email: string, user: int)
    | LoginStore(user: int)
    | LoginEpoch(rt: RefreshToken)
    | LoginSign(rt: RefreshToken, epoch: int)
    // refresh: `rt` is the presented token, `next` its replacement
    | RefreshSwap(rt: RefreshToken)
    | RefreshProbe(rt: RefreshToken)
    | RefreshDrop(rt: RefreshToken)
    | RefreshLoad(rt: RefreshToken, next: RefreshToken)
    | RefreshOrphan(rt: RefreshToken)
    | RefreshEpoch(rt: RefreshToken, next: RefreshToken)
    | RefreshSign(rt: RefreshToken, next: RefreshToken, epoch: int)
    // logout
    | LogoutBlock(at: AccessToken, family: Option<RefreshToken>)
    | LogoutDrop(rt: RefreshToken)
    // revokeAllSessions
    | RevokeBump(user: int)
    | RevokeScan(user: int)
    | Scanning(user: int, found: set<Key>)
    | RevokeDrop(user: int, found: set<Key>)
    // the authentication guard, after the token's signature, type and expiry were checked
    | GuardBlock(at: AccessToken)
    | GuardEpoch(at: AccessToken)
    | Done(res: Res)

  datatype Res =
    | Locked(email: string)
    | BadCredentials(email: string)
    | LoggedIn(at: AccessToken, rt: RefreshToken)
    | Refreshed(presented: RefreshToken, at: AccessToken, rt: RefreshToken)
    | Reused(presented: RefreshToken)
    | Invalid(presented: RefreshToken)
    | LoggedOut
    | Revoked(user: int)
    | Accepted(at: AccessToken)
    | Rejected(at: AccessToken)
    | Unverified
    | Failed

  /** What the environment contributes to a step: the credential lookup's result and new UUIDs. */
  datatype Choice = Choice(user: Option<int>, a: string, b: string, c: string)

  /** The command a request sends next. `Nop` stands for a step that awaits something else than Redis. */
  function CmdOf(cfg: Config, pc: Pc, ch: Choice): Cmd<Key> {
    match pc
    case LoginCheck(email) => Get(LoginFail(email))
    case LoginMiss(email) => Incr(LoginFail(email))
    case LoginArm(email) => Expire(LoginFail(email), cfg.lockSeconds)
    case LoginClear(email, _) => Del({LoginFail(email)})
    case LoginStore(user) => Set(Rt(user, ch.a), Text(ch.b), cfg.refreshTtl)
    case LoginEpoch(rt) => Get(Epoch(rt.sub))
    case RefreshSwap(rt) => CompareAndSet(FamilyKey(rt), Text(rt.jti), Text(ch.a), cfg.refreshTtl)
    case RefreshProbe(rt) => Get(FamilyKey(rt))
    case RefreshDrop(rt) => Del({FamilyKey(rt)})
    case RefreshOrphan(rt) => Del({FamilyKey(rt)})
    case RefreshEpoch(rt, _) => Get(Epoch(rt.sub))
    case LogoutBlock(at, _) => Set(Blocked(at.jti), Num(1), cfg.blockTtl)
    case LogoutDrop(rt) => Del({FamilyKey(rt)})
    case RevokeBump(user) => Incr(Epoch(user))
    case RevokeDrop(_, found) => Del(found)
    case GuardBlock(at) => Get(Blocked(at.jti))
    case GuardEpoch(at) => Get(Epoch(at.sub))
    case _ => Nop
  }

  /**
   Where a request goes once its command has answered `r`. A failed command of the plain kind throws and
   ends the request; one of the `safe` kind is read as its default.
   */
  function Resume(cfg: Config, pc: Pc, r: Reply, ch: Choice, now: nat): Pc {
    match pc
    case LoginCheck(email) => if NumberOf(r) >= cfg.maxAttempts then Done(Locked(email)) else LoginVerify(email)
    case LoginVerify(email) => if ch.user.Some? then LoginClear(email, ch.user.value) else LoginMiss(email)
    case LoginMiss(email) => if r == Int(1) then LoginArm(email) else Done(BadCredentials(email))
    case LoginArm(email) => Done(BadCredentials(email))
    case LoginClear(_, user) => LoginStore(user)
    case LoginStore(user) => if Threw(r) then Done(Failed) else LoginEpoch(RefreshToken(user, ch.a, ch.b))
    case LoginEpoch(rt) => LoginSign(rt, NumberOf(r))
    case LoginSign(rt, epoch) => Done(LoggedIn(AccessToken(rt.sub, ch.c, epoch, now / 1000), rt))
    case RefreshSwap(rt) =>
      if Threw(r) then Done(Failed)
      else if r == Int(1) then RefreshLoad(rt, RefreshToken(rt.sub, rt.family, ch.a))
      else RefreshProbe(rt)
    case RefreshProbe(rt) =>
      if Threw(r) then Done(Failed) else if Truthy(r) then RefreshDrop(rt) else Done(Invalid(rt))
    case RefreshDrop(rt) => if Threw(r) then Done(Failed) else Done(Reused(rt))
    case RefreshLoad(rt, next) => if ch.user.Some? then RefreshEpoch(rt, next) else RefreshOrphan(rt)
    case RefreshOrphan(rt) => if Threw(r) then Done(Failed) else Done(Invalid(rt))
    case RefreshEpoch(rt, next) => RefreshSign(rt, next, NumberOf(r))
    case RefreshSign(rt, next, epoch) => Done(Refreshed(rt, AccessToken(rt.sub, ch.c, epoch, now / 1000), next))
    case LogoutBlock(_, family) => if family.Some? then LogoutDrop(family.value) else Done(LoggedOut)
    case LogoutDrop(_) => Done(LoggedOut)
    case RevokeBump(user) => RevokeScan(user)
    case RevokeDrop(user, _) => Done(Revoked(user))
    case GuardBlock(at) =>
      if (cfg.failClosed && r.Down?) || Truthy(r) then Done(Rejected(at)) else GuardEpoch(at)
    case GuardEpoch(at) => if NumberOf(r) > at.epoch then Done(Rejected(at)) else Done(Accepted(at))
    case _ => pc
  }

  /** How one command fares on its way to Redis and back. */
  datatype Outcome = Answered | Skipped | Lost

  /** One command in the history; `reply` is what Redis computed, which `Lost` keeps from the request. */
  datatype Event = Event(pid: Pid, time: nat, cmd: Cmd<Key>, out: Outcome, reply: Reply)

  function Seen(out: Outcome, reply: Reply): Reply {
    match out
    case Answered => reply
    case Skipped => Down
    case Lost => Err
  }

  /** `scans` holds, for each scan under way, the matching keys present ever since it began. */
  datatype State = State(
    db: Db<Key>,
    procs: map<Pid, Pc>,
    scans: map<Pid, set<Key>>,
    used: set<string>,
    access: set<AccessToken>,
    refresh: set<RefreshToken>,
    faulty: set<Pid>,
    log: seq<Event>)

  function Narrow(scans: map<Pid, set<Key>>, present: set<Key>): map<Pid, set<Key>> {
    map p | p in scans :: scans[p] * present
  }

  function Families(user: int, present: set<Key>): set<Key> {
    set k | k in present && k.Rt? && k.user == user
  }

  datatype Action =
    | Spawn(pid: Pid, pc: Pc)
    | Exec(pid: Pid, out: Outcome, ch: Choice)
    | ScanBegin(pid: Pid)
    | ScanBatch(pid: Pid, batch: set<Key>)
    | ScanEnd(pid: Pid)
    | ScanFail(pid: Pid)
    | Crash(pid: Pid)
    | Elapse(ms: nat)

  predicate Fresh(s: State, ch: Choice) {
    && ch.a !in s.used && ch.b !in s.used && ch.c !in s.used
    && ch.a != ch.b && ch.b != ch.c && ch.a != ch.c
    && "" !in {ch.a, ch.b, ch.c}
  }

  /** Requests start with tokens the service has signed; access tokens must still be unexpired. */
  predicate CanStart(cfg: Config, s: State, pc: Pc) {
    match pc
    case LoginCheck(_) => true
    case RefreshSwap(rt) => rt in s.refresh
    case LogoutBlock(at, family) =>
      at in s.access && !Expired(cfg, at, s.db.now) && (family.Some? ==> family.value in s.refresh)
    case LogoutDrop(rt) => rt in s.refresh
    case RevokeBump(_) => true
    case GuardBlock(at) => at in s.access && !Expired(cfg, at, s.db.now)
    case _ => false
  }

  predicate Enabled(cfg: Config, s: State, a: Action) {
    match a
    case Spawn(p, pc) => p !in s.procs && CanStart(cfg, s, pc)
    case Exec(p, _, ch) =>
      p in s.procs && !s.procs[p].Done? && !s.procs[p].RevokeScan? && !s.procs[p].Scanning? && Fresh(s, ch)
    case ScanBegin(p) => p in s.procs && s.procs[p].RevokeScan?
    case ScanBatch(p, batch) =>
      p in s.procs && s.procs[p].Scanning? && batch <= Families(s.procs[p].user, s.db.kv.Keys)
    case ScanEnd(p) => p in s.procs && s.procs[p].Scanning? && p in s.scans && s.scans[p] <= s.procs[p].found
    case ScanFail(p) => p in s.procs && (s.procs[p].RevokeScan? || s.procs[p].Scanning?)
    case Crash(p) => p in s.procs && !s.procs[p].Done?
    case Elapse(_) => true
  }

  function AccessOf(pc: Pc): set<AccessToken> {
    if pc.Done? && (pc.res.LoggedIn? || pc.res.Refreshed?) then {pc.res.at} else {}
  }

  function RefreshOf(pc: Pc): set<RefreshToken> {
    if pc.Done? && (pc.res.LoggedIn? || pc.res.Refreshed?) then {pc.res.rt} else {}
  }

  /** One command of request `p`: it takes effect unless it was not sent, and it is entered in the log. */
  function ExecStep(cfg: Config, s: State, p: Pid, out: Outcome, ch: Choice): State
    requires p in s.procs
  {
    var cmd := CmdOf(cfg, s.procs[p], ch);
    var (db, reply) := Send(s.db, !out.Skipped?, cmd);
    var pc := Resume(cfg, s.procs[p], Seen(out, reply), ch, s.db.now);
    State(
      db,
      s.procs[p := pc],
      Narrow(s.scans, db.kv.Keys),
      s.used + {ch.a, ch.b, ch.c},
      s.access + AccessOf(pc),
      s.refresh + RefreshOf(pc),
      if out.Answered? then s.faulty else s.faulty + {p},
      s.log + [Event(p, s.db.now, cmd, out, reply)])
  }

  function Step(cfg: Config, s: State, a: Action): State
    requires Enabled(cfg, s, a)
  {
    match a
    case Spawn(p, pc) => s.(procs := s.procs[p := pc])
    case Exec(p, out, ch) => ExecStep(cfg, s, p, out, ch)
    case ScanBegin(p) =>
      var user := s.procs[p].user;
      s.(procs := s.procs[p := Scanning(user, {})], scans := s.scans[p := Families(user, s.db.kv.Keys)])
    case ScanBatch(p, batch) =>
      var pc := s.procs[p];
      s.(procs := s.procs[p := Scanning(pc.user, pc.found + batch)])
    case ScanEnd(p) =>
      var pc := s.procs[p];
      s.(procs := s.procs[p := if pc.found == {} then Done(Revoked(pc.user)) else RevokeDrop(pc.user, pc.found)])
    case ScanFail(p) =>
      s.(procs := s.procs[p := Done(Revoked(s.procs[p].user))], faulty := s.faulty + {p})
    case Crash(p) =>
      s.(procs := s.procs[p := Done(Failed)], faulty := s.faulty + {p})
    case Elapse(ms) =>
      var db := Tick(s.db, ms);
      s.(db := db, scans := Narrow(s.scans, db.kv.Keys))
  }

  ghost predicate Next(cfg: Config, s: State, t: State) {
    exists a :: Enabled(cfg, s, a) && t == Step(cfg, s, a)
  }

  function Init(now: nat): State {
    State(Db(now, map[]), map[], map[], {}, {}, {}, {}, [])
  }

  predicate StepAt(r: seq<State>, i: int) {
    0 <= i < |r| - 1
  }

  /** A run: the states of one interleaving, from the empty store on. */
  ghost predicate IsRun(cfg: Config, r: seq<State>) {
    && |r| > 0
    && r[0] == Init(r[0].db.now)
    && forall i {:trigger StepAt(r, i)} :: StepAt(r, i) ==> Next(cfg, r[i], r[i + 1])
  }

  lemma RunStep(cfg: Config, r: seq<State>, j: nat)
    requires IsRun(cfg, r) && 0 < j < |r|
    ensures Next(cfg, r[j - 1], r[j])
  {
    assert StepAt(r, j - 1);
  }

  // ----- Facts about every step

  predicate Effective(e: Event) {
    !e.out.Skipped?
  }

  /** Histories only grow, sets of tokens only grow, finished requests stay finished, time never goes back. */
  ghost predicate Grows(s: State, t: State) {
    && s.log <= t.log
    && s.access <= t.access
    && s.refresh <= t.refresh
    && s.used <= t.used
    && s.faulty <= t.faulty
    && s.db.now <= t.db.now
    && forall p :: p in s.procs ==> p in t.procs && (s.procs[p].Done? ==> t.procs[p] == s.procs[p])
  }

  lemma StepGrows(cfg: Config, s: State, t: State)
    requires Next(cfg, s, t)
    ensures Grows(s, t)
  {
    var a :| Enabled(cfg, s, a) && t == Step(cfg, s, a);
    if a.Exec? {
      SendKeepsTime(s.db, !a.out.Skipped?, CmdOf(cfg, s.procs[a.pid], a.ch));
    }
  }

  lemma SendKeepsTime(db: Db<Key>, ready: bool, cmd: Cmd<Key>)
    ensures Send(db, ready, cmd).0.now == db.now
  {
  }

  lemma {:induction false} RunGrows(cfg: Config, r: seq<State>, i: nat, j: nat)
    requires IsRun(cfg, r) && i <= j < |r|
    ensures Grows(r[i], r[j])
    decreases j
  {
    if i < j {
      RunGrows(cfg, r, i, j - 1);
      RunStep(cfg, r, j);
      StepGrows(cfg, r[j - 1], r[j]);
    }
  }

  /** Every step other than a command leaves the history alone; at most it lets keys expire. */
  ghost predicate Quiet(s: State, t: State) {
    && t.log == s.log
    && t.used == s.used
    && t.access == s.access
    && t.refresh == s.refresh
    && s.db.now <= t.db.now
    && forall k :: k in t.db.kv ==> k in s.db.kv && t.db.kv[k] == s.db.kv[k]
  }

  lemma OtherStepsAreQuiet(cfg: Config, s: State, a: Action)
    requires Enabled(cfg, s, a) && !a.Exec?
    ensures Quiet(s, Step(cfg, s, a))
    ensures a.Elapse? ==> Step(cfg, s, a).procs == s.procs
    ensures !a.Elapse? ==> Step(cfg, s, a).db == s.db
    ensures !a.Elapse? ==> forall q :: q in s.procs && q != a.pid ==>
              q in Step(cfg, s, a).procs && Step(cfg, s, a).procs[q] == s.procs[q]
    ensures !a.Elapse? ==> Step(cfg, s, a).procs.Keys == s.procs.Keys + {a.pid}
  {
  }
}
