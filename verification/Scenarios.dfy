/**
 Runs that show where the guarantees of the session protocol end: a refresh that overlaps
 revokeAllSessions still yields one live access token, and the lockout bound is reached.
 */
module Scenarios {
  import opened Common
  import opened Redis
  import opened Keys
  import opened Sessions
  import opened Lockout
  import RotationHistory

  // ----- Building runs

  function End(r: seq<State>): State {
    if r == [] then Init(0) else r[|r| - 1]
  }

  /** The n-th UUID of a scenario; they are told apart by their lengths. */
  function Uuid(n: nat): string {
    seq(n + 1, i => 'u')
  }

  function NewIds(n: nat, user: Option<int>): Choice {
    Choice(user, Uuid(n), Uuid(n + 1), Uuid(n + 2))
  }

  ghost predicate IdsUsed(s: State, n: nat) {
    forall x :: x in s.used ==> |x| <= n
  }

  lemma Extend(cfg: Config, r: seq<State>, s: State)
    requires IsRun(cfg, r) && Next(cfg, End(r), s)
    ensures IsRun(cfg, r + [s])
  {
    var t := r + [s];
    forall i {:trigger StepAt(t, i)} | StepAt(t, i) ensures Next(cfg, t[i], t[i + 1]) {
      if i < |r| - 1 { assert StepAt(r, i); }
    }
  }

  /** The keys and the requests of a state in which nothing has gone wrong and no time has passed. */
  ghost predicate Scene(s: State, kv: map<Key, Entry>, procs: map<Pid, Pc>) {
    s.db == Db(0, kv) && s.procs == procs && s.faulty == {}
  }

  lemma Start(cfg: Config, r: seq<State>, p: Pid, pc: Pc) returns (t: seq<State>)
    requires IsRun(cfg, r) && p !in End(r).procs && CanStart(cfg, End(r), pc)
    ensures IsRun(cfg, t) && r <= t && |t| == |r| + 1
    ensures End(t) == End(r).(procs := End(r).procs[p := pc])
  {
    var s := Step(cfg, End(r), Spawn(p, pc));
    Extend(cfg, r, s);
    t := r + [s];
  }

  /** Request `p` sends its next command, is answered, and goes on to `next`, leaving the keys `kv`. */
  lemma Advance(
    cfg: Config, r: seq<State>, n: nat, p: Pid, user: Option<int>, kv: map<Key, Entry>, next: Pc)
    returns (t: seq<State>)
    requires IsRun(cfg, r) && IdsUsed(End(r), n) && p in End(r).procs
    requires Awaits(End(r).procs[p])
    requires Advances(cfg, End(r), p, NewIds(n, user), kv, next)
    ensures IsRun(cfg, t) && r <= t && |t| == |r| + 1 && IdsUsed(End(t), n + 3) && Moved(End(r), End(t), p, kv, next)
    ensures AllAnswered(End(r).log) ==> AllAnswered(End(t).log)
  {
    var s := AdvanceState(cfg, End(r), n, p, user, kv, next);
    Extend(cfg, r, s);
    t := r + [s];
  }

  ghost predicate AllAnswered(log: seq<Event>) {
    forall i :: 0 <= i < |log| ==> log[i].out.Answered?
  }

  predicate Awaits(pc: Pc) {
    !pc.Done? && !pc.RevokeScan? && !pc.Scanning?
  }

  predicate Moved(s: State, t: State, p: Pid, kv: map<Key, Entry>, next: Pc) {
    && t.db == s.db.(kv := kv) && t.procs == s.procs[p := next]
    && t.faulty == s.faulty
    && t.refresh == s.refresh + RefreshOf(next) && t.access == s.access + AccessOf(next)
  }

  lemma AdvanceState(
    cfg: Config, s: State, n: nat, p: Pid, user: Option<int>, kv: map<Key, Entry>, next: Pc)
    returns (t: State)
    requires IdsUsed(s, n) && p in s.procs && Awaits(s.procs[p])
    requires Advances(cfg, s, p, NewIds(n, user), kv, next)
    ensures Next(cfg, s, t) && IdsUsed(t, n + 3) && Moved(s, t, p, kv, next)
    ensures AllAnswered(s.log) ==> AllAnswered(t.log)
  {
    var ch := NewIds(n, user);
    assert |ch.a| == n + 1 && |ch.b| == n + 2 && |ch.c| == n + 3;
    assert Fresh(s, ch);
    var a := Exec(p, Answered, ch);
    assert Enabled(cfg, s, a);
    t := Step(cfg, s, a);
    SendKeepsTime(s.db, true, CmdOf(cfg, s.procs[p], ch));
  }

  predicate Advances(cfg: Config, s: State, p: Pid, ch: Choice, kv: map<Key, Entry>, next: Pc)
    requires p in s.procs
  {
    var (db, reply) := Do(s.db, CmdOf(cfg, s.procs[p], ch));
    db.kv == kv && next == Resume(cfg, s.procs[p], reply, ch, s.db.now)
  }

  // ----- A refresh overlapping revokeAllSessions

  function Session(cfg: Config, rt: RefreshToken): map<Key, Entry> {
    map[FamilyKey(rt) := Entry(Text(rt.jti), Deadline(0, cfg.refreshTtl))]
  }

  lemma FirstLoginStarts(cfg: Config, email: string) returns (r: seq<State>)
    ensures IsRun(cfg, r) && IdsUsed(End(r), 0) && Scene(End(r), map[], map[0 := LoginCheck(email)])
  {
    r := [Init(0)];
    r := Start(cfg, r, 0, LoginCheck(email));
  }

  lemma PasswordGiven(cfg: Config) returns (r: seq<State>)
    requires cfg.maxAttempts >= 1
    ensures IsRun(cfg, r) && IdsUsed(End(r), 3) && Scene(End(r), map[], map[0 := LoginVerify("a")])
  {
    r := FirstLoginStarts(cfg, "a");
    r := Advance(cfg, r, 0, 0, None, map[], LoginVerify("a"));
  }

  lemma PasswordAccepted(cfg: Config, user: int) returns (r: seq<State>)
    requires cfg.maxAttempts >= 1
    ensures IsRun(cfg, r) && IdsUsed(End(r), 9) && Scene(End(r), map[], map[0 := LoginStore(user)])
  {
    r := PasswordGiven(cfg);
    r := Advance(cfg, r, 3, 0, Some(user), map[], LoginClear("a", user));
    assert Scene(End(r), map[], map[0 := LoginClear("a", user)]);
    r := Advance(cfg, r, 6, 0, None, map[], LoginStore(user));
  }

  lemma FamilyWritten(cfg: Config, user: int) returns (r: seq<State>, rt: RefreshToken)
    requires cfg.maxAttempts >= 1
    ensures IsRun(cfg, r) && IdsUsed(End(r), 12)
    ensures rt.sub == user && Scene(End(r), Session(cfg, rt), map[0 := LoginEpoch(rt)])
  {
    r := PasswordAccepted(cfg, user);
    rt := RefreshToken(user, Uuid(9), Uuid(10));
    r := Advance(cfg, r, 9, 0, None, Session(cfg, rt), LoginEpoch(rt));
  }

  /** A login on the empty store. */
  lemma LoginRun(cfg: Config, user: int) returns (r: seq<State>, rt: RefreshToken, res: Res)
    requires cfg.maxAttempts >= 1
    ensures IsRun(cfg, r) && IdsUsed(End(r), 18)
    ensures rt.sub == user && Scene(End(r), Session(cfg, rt), map[0 := Done(res)]) && rt in End(r).refresh
  {
    r, rt := FamilyWritten(cfg, user);
    r := Advance(cfg, r, 12, 0, None, Session(cfg, rt), LoginSign(rt, 0));
    assert Scene(End(r), Session(cfg, rt), map[0 := LoginSign(rt, 0)]);
    res := LoggedIn(AccessToken(user, Uuid(17), 0, 0), rt);
    r := Advance(cfg, r, 15, 0, None, Session(cfg, rt), Done(res));
  }

  function Rotated(cfg: Config, next: RefreshToken): map<Key, Entry> {
    map[FamilyKey(next) := Entry(Text(next.jti), Some(1000 * cfg.refreshTtl)),
        Epoch(next.sub) := Entry(Num(1), None)]
  }

  /** A refresh and a revocation of the same user set out together. */
  lemma BothStart(cfg: Config, r: seq<State>, rt: RefreshToken, res: Res) returns (t: seq<State>)
    requires IsRun(cfg, r) && IdsUsed(End(r), 18) && rt in End(r).refresh
    requires Scene(End(r), Session(cfg, rt), map[0 := Done(res)])
    ensures IsRun(cfg, t) && IdsUsed(End(t), 18) && rt in End(t).refresh
    ensures Scene(End(t), Session(cfg, rt), map[0 := Done(res), 1 := RevokeBump(rt.sub), 2 := RefreshSwap(rt)])
  {
    t := Start(cfg, r, 1, RevokeBump(rt.sub));
    t := Start(cfg, t, 2, RefreshSwap(rt));
  }

  function Bumped(cfg: Config, rt: RefreshToken): map<Key, Entry> {
    Session(cfg, rt)[Epoch(rt.sub) := Entry(Num(1), None)]
  }

  /** The epoch is raised, then the refresh rotates, both before the scan. */
  lemma RaiseEpoch(cfg: Config, r: seq<State>, rt: RefreshToken, res: Res) returns (t: seq<State>)
    requires IsRun(cfg, r) && IdsUsed(End(r), 18)
    requires Scene(End(r), Session(cfg, rt), map[0 := Done(res), 1 := RevokeBump(rt.sub), 2 := RefreshSwap(rt)])
    ensures IsRun(cfg, t) && IdsUsed(End(t), 21) && r <= t
    ensures Scene(End(t), Bumped(cfg, rt), map[0 := Done(res), 1 := RevokeScan(rt.sub), 2 := RefreshSwap(rt)])
  {
    t := Advance(cfg, r, 18, 1, None, Bumped(cfg, rt), RevokeScan(rt.sub));
  }

  lemma Rotate(cfg: Config, r: seq<State>, rt: RefreshToken, res: Res) returns (t: seq<State>, next: RefreshToken)
    requires IsRun(cfg, r) && IdsUsed(End(r), 21) && cfg.refreshTtl > 0
    requires Scene(End(r), Bumped(cfg, rt), map[0 := Done(res), 1 := RevokeScan(rt.sub), 2 := RefreshSwap(rt)])
    ensures IsRun(cfg, t) && IdsUsed(End(t), 24) && next.sub == rt.sub && r <= t
    ensures Scene(End(t), Rotated(cfg, next),
                  map[0 := Done(res), 1 := RevokeScan(rt.sub), 2 := RefreshLoad(rt, next)])
  {
    next := RefreshToken(rt.sub, rt.family, Uuid(21));
    assert Bumped(cfg, rt)[FamilyKey(rt) := Rotated(cfg, next)[FamilyKey(rt)]] == Rotated(cfg, next);
    t := Advance(cfg, r, 21, 2, None, Rotated(cfg, next), RefreshLoad(rt, next));
  }

  /** A scan that returns the one family there is. */
  lemma Scan(cfg: Config, r: seq<State>, w: Pid, user: int, k: Key) returns (t: seq<State>)
    requires IsRun(cfg, r) && w in End(r).procs && End(r).procs[w] == RevokeScan(user)
    requires Families(user, End(r).db.kv.Keys) == {k}
    ensures IsRun(cfg, t) && r <= t
    ensures End(t).(scans := End(r).scans) == End(r).(procs := End(r).procs[w := RevokeDrop(user, {k})])
  {
    var s := End(r);
    var a := Step(cfg, s, ScanBegin(w));
    Extend(cfg, r, a);
    var b := Step(cfg, a, ScanBatch(w, {k}));
    Extend(cfg, r + [a], b);
    var c := Step(cfg, b, ScanEnd(w));
    t := r + [a] + [b] + [c];
    Extend(cfg, r + [a] + [b], c);
    var none: set<Key> := {};
    assert none + {k} == {k};
    assert c.procs == s.procs[w := RevokeDrop(user, {k})];
  }

  function OnlyEpoch(user: int): map<Key, Entry> {
    map[Epoch(user) := Entry(Num(1), None)]
  }

  /** The revocation scans, deletes the family and is done; the refresh has yet to read the epoch. */
  lemma SweepFamily(cfg: Config, r: seq<State>, rt: RefreshToken, next: RefreshToken, res: Res)
    returns (t: seq<State>)
    requires IsRun(cfg, r) && IdsUsed(End(r), 24) && next.sub == rt.sub
    requires Scene(End(r), Rotated(cfg, next),
                   map[0 := Done(res), 1 := RevokeScan(rt.sub), 2 := RefreshLoad(rt, next)])
    ensures IsRun(cfg, t) && IdsUsed(End(t), 27) && r <= t
    ensures Scene(End(t), OnlyEpoch(rt.sub),
                  map[0 := Done(res), 1 := Done(Revoked(rt.sub)), 2 := RefreshLoad(rt, next)])
  {
    var k := FamilyKey(next);
    assert Families(rt.sub, Rotated(cfg, next).Keys) == {k};
    t := Scan(cfg, r, 1, rt.sub, k);
    assert Without(Rotated(cfg, next), {k}) == OnlyEpoch(rt.sub);
    t := Advance(cfg, t, 24, 1, None, OnlyEpoch(rt.sub), Done(Revoked(rt.sub)));
  }

  lemma LoadIdentity(cfg: Config, r: seq<State>, procs: map<Pid, Pc>, rt: RefreshToken, next: RefreshToken)
    returns (t: seq<State>)
    requires IsRun(cfg, r) && IdsUsed(End(r), 27) && Scene(End(r), OnlyEpoch(rt.sub), procs)
    requires 2 in procs && procs[2] == RefreshLoad(rt, next)
    ensures IsRun(cfg, t) && IdsUsed(End(t), 30) && r <= t
    ensures Scene(End(t), OnlyEpoch(rt.sub), procs[2 := RefreshEpoch(rt, next)])
  {
    t := Advance(cfg, r, 27, 2, Some(rt.sub), OnlyEpoch(rt.sub), RefreshEpoch(rt, next));
  }

  /** The refresh reads the raised epoch. */
  lemma ReadEpoch(cfg: Config, r: seq<State>, procs: map<Pid, Pc>, rt: RefreshToken, next: RefreshToken)
    returns (t: seq<State>)
    requires IsRun(cfg, r) && IdsUsed(End(r), 30) && Scene(End(r), OnlyEpoch(rt.sub), procs)
    requires 2 in procs && procs[2] == RefreshEpoch(rt, next)
    ensures IsRun(cfg, t) && IdsUsed(End(t), 33) && r <= t
    ensures Scene(End(t), OnlyEpoch(rt.sub), procs[2 := RefreshSign(rt, next, 1)])
  {
    t := Advance(cfg, r, 30, 2, None, OnlyEpoch(rt.sub), RefreshSign(rt, next, 1));
  }

  lemma SignToken(cfg: Config, r: seq<State>, procs: map<Pid, Pc>, rt: RefreshToken, next: RefreshToken)
    returns (t: seq<State>, at: AccessToken)
    requires IsRun(cfg, r) && IdsUsed(End(r), 33) && Scene(End(r), OnlyEpoch(rt.sub), procs)
    requires 2 in procs && procs[2] == RefreshSign(rt, next, 1)
    ensures IsRun(cfg, t) && IdsUsed(End(t), 36) && r <= t && at in End(t).access
    ensures at.sub == rt.sub && at.epoch == 1 && at.iat == 0
    ensures Scene(End(t), OnlyEpoch(rt.sub), procs[2 := Done(Refreshed(rt, at, next))])
  {
    at := AccessToken(rt.sub, Uuid(35), 1, 0);
    t := Advance(cfg, r, 33, 2, None, OnlyEpoch(rt.sub), Done(Refreshed(rt, at, next)));
  }

  lemma GuardStarts(cfg: Config, r: seq<State>, kv: map<Key, Entry>, procs: map<Pid, Pc>, at: AccessToken)
    returns (t: seq<State>)
    requires IsRun(cfg, r) && IdsUsed(End(r), 36) && at in End(r).access && at.iat == 0 && cfg.accessLifetime > 0
    requires 3 !in procs && Scene(End(r), kv, procs)
    ensures IsRun(cfg, t) && IdsUsed(End(t), 36) && r <= t
    ensures Scene(End(t), kv, procs[3 := GuardBlock(at)])
  {
    t := Start(cfg, r, 3, GuardBlock(at));
  }

  lemma NotBlocked(cfg: Config, r: seq<State>, kv: map<Key, Entry>, procs: map<Pid, Pc>, at: AccessToken)
    returns (t: seq<State>)
    requires IsRun(cfg, r) && IdsUsed(End(r), 36) && Blocked(at.jti) !in kv
    requires 3 in procs && procs[3] == GuardBlock(at) && Scene(End(r), kv, procs)
    ensures IsRun(cfg, t) && IdsUsed(End(t), 39) && r <= t
    ensures Scene(End(t), kv, procs[3 := GuardEpoch(at)])
  {
    t := Advance(cfg, r, 36, 3, None, kv, GuardEpoch(at));
  }

  lemma GuardAccepts(cfg: Config, r: seq<State>, kv: map<Key, Entry>, procs: map<Pid, Pc>, at: AccessToken)
    returns (t: seq<State>)
    requires IsRun(cfg, r) && IdsUsed(End(r), 39) && at.epoch == 1
    requires Epoch(at.sub) in kv && kv[Epoch(at.sub)].value == Num(1)
    requires 3 in procs && procs[3] == GuardEpoch(at) && Scene(End(r), kv, procs)
    ensures IsRun(cfg, t) && r <= t
    ensures Scene(End(t), kv, procs[3 := Done(Accepted(at))])
  {
    t := Advance(cfg, r, 39, 3, None, kv, Done(Accepted(at)));
  }

  /** A guard that begins now lets a token with the present epoch pass. */
  lemma Guard(cfg: Config, r: seq<State>, kv: map<Key, Entry>, procs: map<Pid, Pc>, at: AccessToken)
    returns (t: seq<State>)
    requires IsRun(cfg, r) && IdsUsed(End(r), 36) && at in End(r).access && cfg.accessLifetime > 0
    requires 3 !in procs && Scene(End(r), kv, procs) && at.epoch == 1 && at.iat == 0
    requires Blocked(at.jti) !in kv && Epoch(at.sub) in kv && kv[Epoch(at.sub)].value == Num(1)
    ensures IsRun(cfg, t) && r <= t
    ensures Scene(End(t), kv, procs[3 := Done(Accepted(at))])
  {
    t := GuardStarts(cfg, r, kv, procs, at);
    t := NotBlocked(cfg, t, kv, procs[3 := GuardBlock(at)], at);
    t := GuardAccepts(cfg, t, kv, procs[3 := GuardEpoch(at)], at);
  }

  /** Up to the end of the revocation; `r[i]` is the state in which both set out. */
  lemma RevocationRun(cfg: Config, user: int)
    returns (r: seq<State>, i: nat, rt: RefreshToken, next: RefreshToken, a: Res)
    requires cfg.maxAttempts >= 1 && cfg.refreshTtl > 0
    ensures IsRun(cfg, r) && IdsUsed(End(r), 27) && i < |r| && rt.sub == user && next.sub == user
    ensures r[i].procs == map[0 := Done(a), 1 := RevokeBump(user), 2 := RefreshSwap(rt)]
    ensures Scene(End(r), OnlyEpoch(user), map[0 := Done(a), 1 := Done(Revoked(user)), 2 := RefreshLoad(rt, next)])
  {
    var login;
    login, rt, a := LoginRun(cfg, user);
    var both := BothStart(cfg, login, rt, a);
    i := |both| - 1;
    var raised := RaiseEpoch(cfg, both, rt, a);
    var rotated;
    rotated, next := Rotate(cfg, raised, rt, a);
    r := SweepFamily(cfg, rotated, rt, next, a);
  }

  lemma Finish(cfg: Config, r: seq<State>, procs: map<Pid, Pc>, rt: RefreshToken, next: RefreshToken)
    returns (t: seq<State>, at: AccessToken)
    requires IsRun(cfg, r) && IdsUsed(End(r), 27) && Scene(End(r), OnlyEpoch(rt.sub), procs)
    requires 2 in procs && procs[2] == RefreshLoad(rt, next)
    ensures IsRun(cfg, t) && r <= t && IdsUsed(End(t), 36)
    ensures at in End(t).access && at.sub == rt.sub && at.epoch == 1 && at.iat == 0
    ensures Scene(End(t), OnlyEpoch(rt.sub), procs[2 := Done(Refreshed(rt, at, next))])
  {
    t := LoadIdentity(cfg, r, procs, rt, next);
    t := ReadEpoch(cfg, t, procs[2 := RefreshEpoch(rt, next)], rt, next);
    t, at := SignToken(cfg, t, procs[2 := RefreshSign(rt, next, 1)], rt, next);
  }

  /**
   A refresh that began before revokeAllSessions of its user and overlaps it can return an access token
   that a guard accepts after the revocation has finished undisturbed, whatever the positive settings: it
   read the epoch after the increment. Its refresh token is dead all the same.
   */
  lemma OverlappingRefreshOutlivesRevocation(cfg: Config, user: int)
    returns (r: seq<State>, i: nat, j: nat, rt: RefreshToken, next: RefreshToken, at: AccessToken)
    requires cfg.maxAttempts >= 1 && cfg.refreshTtl > 0 && cfg.accessLifetime > 0
    ensures IsRun(cfg, r) && i <= j < |r| && rt.sub == user && at.sub == user
    ensures r[i].procs.Keys == {0, 1, 2} && r[i].procs[1] == RevokeBump(user) && r[i].procs[2] == RefreshSwap(rt)
    ensures 1 in r[j].procs && r[j].procs[1] == Done(Revoked(user)) && 3 !in r[j].procs
    ensures End(r).faulty == {} && FamilyKey(next) !in End(r).db.kv
    ensures {2, 3} <= End(r).procs.Keys
    ensures End(r).procs[2] == Done(Refreshed(rt, at, next)) && End(r).procs[3] == Done(Accepted(at))
  {
    var a, swept;
    swept, i, rt, next, a := RevocationRun(cfg, user);
    j := |swept| - 1;
    var procs := End(swept).procs;
    var signed;
    signed, at := Finish(cfg, swept, procs, rt, next);
    r := Guard(cfg, signed, OnlyEpoch(user), procs[2 := Done(Refreshed(rt, at, next))], at);
  }

  // ----- A login overlapping revokeAllSessions

  function Opened(cfg: Config, rt: RefreshToken): map<Key, Entry> {
    OnlyEpoch(rt.sub)[FamilyKey(rt) := Entry(Text(rt.jti), Deadline(0, cfg.refreshTtl))]
  }

  /** The password has been accepted, then the revocation begins and raises the epoch. */
  lemma RaiseAfterPassword(cfg: Config, user: int) returns (r: seq<State>, i: nat)
    requires cfg.maxAttempts >= 1
    ensures IsRun(cfg, r) && IdsUsed(End(r), 12) && i < |r|
    ensures r[i].procs == map[0 := LoginStore(user), 1 := RevokeBump(user)]
    ensures Scene(End(r), OnlyEpoch(user), map[0 := LoginStore(user), 1 := RevokeScan(user)])
  {
    var accepted := PasswordAccepted(cfg, user);
    r := Start(cfg, accepted, 1, RevokeBump(user));
    i := |r| - 1;
    assert Scene(r[i], map[], map[0 := LoginStore(user), 1 := RevokeBump(user)]);
    r := Advance(cfg, r, 9, 1, None, OnlyEpoch(user), RevokeScan(user));
  }

  /** The scan begins on a store without families. */
  lemma EmptyScan(cfg: Config, r: seq<State>, user: int) returns (s: State)
    requires IsRun(cfg, r) && IdsUsed(End(r), 12)
    requires Scene(End(r), OnlyEpoch(user), map[0 := LoginStore(user), 1 := RevokeScan(user)])
    ensures IsRun(cfg, r + [s]) && IdsUsed(s, 12) && s.log == End(r).log
    ensures Scene(s, OnlyEpoch(user), map[0 := LoginStore(user), 1 := Scanning(user, {})])
    ensures 1 in s.scans && s.scans[1] == {}
  {
    s := Step(cfg, End(r), ScanBegin(1));
    assert Families(user, OnlyEpoch(user).Keys) == {};
    Extend(cfg, r, s);
  }

  /** While the scan is under way, the login stores its family. */
  lemma StoreDuringScan(cfg: Config, s: State, user: int) returns (t: State, rt: RefreshToken)
    requires IdsUsed(s, 12) && 1 in s.scans && s.scans[1] == {}
    requires Scene(s, OnlyEpoch(user), map[0 := LoginStore(user), 1 := Scanning(user, {})])
    ensures Next(cfg, s, t) && IdsUsed(t, 15) && rt.sub == user
    ensures Scene(t, Opened(cfg, rt), map[0 := LoginEpoch(rt), 1 := Scanning(user, {})])
    ensures 1 in t.scans && t.scans[1] == {}
    ensures |t.log| == |s.log| + 1 && RotationHistory.Stores(t.log[|s.log|], FamilyKey(rt))
  {
    var ch := NewIds(12, None);
    assert |ch.a| == 13 && |ch.b| == 14 && |ch.c| == 15;
    rt := RefreshToken(user, ch.a, ch.b);
    assert Fresh(s, ch) && Enabled(cfg, s, Exec(0, Answered, ch));
    t := Step(cfg, s, Exec(0, Answered, ch));
    StoredDuringScan(cfg, s, user, ch, rt);
  }

  lemma StoredDuringScan(cfg: Config, s: State, user: int, ch: Choice, rt: RefreshToken)
    requires 1 in s.scans && s.scans[1] == {} && rt == RefreshToken(user, ch.a, ch.b)
    requires Scene(s, OnlyEpoch(user), map[0 := LoginStore(user), 1 := Scanning(user, {})])
    ensures var t := ExecStep(cfg, s, 0, Answered, ch);
            && Scene(t, Opened(cfg, rt), map[0 := LoginEpoch(rt), 1 := Scanning(user, {})])
            && 1 in t.scans && t.scans[1] == {}
            && |t.log| == |s.log| + 1 && RotationHistory.Stores(t.log[|s.log|], FamilyKey(rt))
  {
    assert CmdOf(cfg, s.procs[0], ch) == Set(FamilyKey(rt), Text(rt.jti), cfg.refreshTtl);
  }

  /** The scan ends without having found anything; the revocation is done. */
  lemma EndEmptyScan(cfg: Config, s: State, rt: RefreshToken) returns (t: State)
    requires Scene(s, Opened(cfg, rt), map[0 := LoginEpoch(rt), 1 := Scanning(rt.sub, {})])
    requires 1 in s.scans && s.scans[1] == {}
    ensures Next(cfg, s, t) && t.used == s.used && t.log == s.log
    ensures Scene(t, Opened(cfg, rt), map[0 := LoginEpoch(rt), 1 := Done(Revoked(rt.sub))])
  {
    assert Enabled(cfg, s, ScanEnd(1));
    t := Step(cfg, s, ScanEnd(1));
  }

  lemma ReadRaisedEpoch(cfg: Config, r: seq<State>, rt: RefreshToken, b: Res) returns (t: seq<State>)
    requires IsRun(cfg, r) && IdsUsed(End(r), 15)
    requires Scene(End(r), Opened(cfg, rt), map[0 := LoginEpoch(rt), 1 := Done(b)])
    ensures IsRun(cfg, t) && r <= t && IdsUsed(End(t), 18)
    ensures Scene(End(t), Opened(cfg, rt), map[0 := LoginSign(rt, 1), 1 := Done(b)])
  {
    t := Advance(cfg, r, 15, 0, None, Opened(cfg, rt), LoginSign(rt, 1));
  }

  /** The login reads the raised epoch and signs its tokens. */
  lemma FinishLogin(cfg: Config, r: seq<State>, rt: RefreshToken, b: Res) returns (t: seq<State>, at: AccessToken)
    requires IsRun(cfg, r) && IdsUsed(End(r), 15)
    requires Scene(End(r), Opened(cfg, rt), map[0 := LoginEpoch(rt), 1 := Done(b)])
    ensures IsRun(cfg, t) && r <= t && IdsUsed(End(t), 21)
    ensures Scene(End(t), Opened(cfg, rt), map[0 := Done(LoggedIn(at, rt)), 1 := Done(b)])
    ensures at in End(t).access && at.sub == rt.sub && at.epoch == 1 && at.iat == 0
  {
    t := ReadRaisedEpoch(cfg, r, rt, b);
    at := AccessToken(rt.sub, Uuid(20), 1, 0);
    t := Advance(cfg, t, 18, 0, None, Opened(cfg, rt), Done(LoggedIn(at, rt)));
  }

  /**
   A login whose password was accepted before revokeAllSessions of its user began, and which stores its
   family as the first command after the scan has begun, keeps a live family and an access token that guards
   accept, although the revocation has finished undisturbed. `r[h]` is the last state before the scan.
   */
  lemma OverlappingLoginSurvivesRevocation(cfg: Config, user: int)
    returns (r: seq<State>, i: nat, h: nat, j: nat, rt: RefreshToken, at: AccessToken)
    requires cfg.maxAttempts >= 1 && cfg.accessLifetime > 0
    ensures IsRun(cfg, r) && i <= h < j < |r| && rt.sub == user && at.sub == user
    ensures r[i].procs == map[0 := LoginStore(user), 1 := RevokeBump(user)]
    ensures 1 in r[h].procs && r[h].procs[1] == RevokeScan(user) && r[h + 1].procs == r[h].procs[1 := Scanning(user, {})]
    ensures |r[h].log| < |End(r).log| && RotationHistory.Stores(End(r).log[|r[h].log|], FamilyKey(rt))
    ensures 1 in r[j].procs && r[j].procs[1] == Done(Revoked(user)) && 3 !in r[j].procs && End(r).faulty == {}
    ensures FamilyKey(rt) in End(r).db.kv && End(r).db.kv[FamilyKey(rt)].value == Text(rt.jti)
    ensures {0, 3} <= End(r).procs.Keys
    ensures End(r).procs[0] == Done(LoggedIn(at, rt)) && End(r).procs[3] == Done(Accepted(at))
  {
    var raised, done;
    raised, i := RaiseAfterPassword(cfg, user);
    h := |raised| - 1;
    done, rt := ScanMissesLogin(cfg, raised, user);
    j := |done| - 1;
    var signed;
    signed, at := FinishLogin(cfg, done, rt, Revoked(user));
    r := Guard(cfg, signed, Opened(cfg, rt), map[0 := Done(LoggedIn(at, rt)), 1 := Done(Revoked(user))], at);
    RunGrows(cfg, r, h + 2, |r| - 1);
  }

  lemma ScanMissesLogin(cfg: Config, r: seq<State>, user: int) returns (t: seq<State>, rt: RefreshToken)
    requires IsRun(cfg, r) && IdsUsed(End(r), 12)
    requires Scene(End(r), OnlyEpoch(user), map[0 := LoginStore(user), 1 := RevokeScan(user)])
    ensures IsRun(cfg, t) && IdsUsed(End(t), 15) && rt.sub == user && r <= t && |t| == |r| + 3
    ensures t[|r|].procs == map[0 := LoginStore(user), 1 := Scanning(user, {})]
    ensures |t[|r| + 1].log| == |End(r).log| + 1
    ensures RotationHistory.Stores(t[|r| + 1].log[|End(r).log|], FamilyKey(rt))
    ensures Scene(End(t), Opened(cfg, rt), map[0 := LoginEpoch(rt), 1 := Done(Revoked(user))])
  {
    var scanning := EmptyScan(cfg, r, user);
    var stored;
    stored, rt := StoreDuringScan(cfg, scanning, user);
    var ended := EndEmptyScan(cfg, stored, rt);
    Extend(cfg, r + [scanning], stored);
    Extend(cfg, r + [scanning] + [stored], ended);
    t := r + [scanning] + [stored] + [ended];
  }

  // ----- A failure counter without a time limit

  /** How the creating login can be disturbed after its check: at its increment, at its EXPIRE, or in between. */
  datatype Disturbance = CountLost | LimitSkipped | CrashBetween

  lemma WrongPassword(cfg: Config, email: string) returns (r: seq<State>)
    requires cfg.maxAttempts >= 1
    ensures IsRun(cfg, r) && IdsUsed(End(r), 6) && Scene(End(r), map[], map[0 := LoginMiss(email)])
  {
    r := FirstLoginStarts(cfg, email);
    r := Advance(cfg, r, 0, 0, None, map[], LoginVerify(email));
    r := Advance(cfg, r, 3, 0, None, map[], LoginMiss(email));
  }

  function Unlimited(email: string): map<Key, Entry> {
    map[LoginFail(email) := Entry(Num(1), None)]
  }

  /** One command of request 0, with any outcome. */
  lemma Disturbed(cfg: Config, r: seq<State>, n: nat, out: Outcome) returns (t: seq<State>)
    requires IsRun(cfg, r) && IdsUsed(End(r), n) && 0 in End(r).procs && Awaits(End(r).procs[0])
    ensures IsRun(cfg, t) && End(t) == ExecStep(cfg, End(r), 0, out, NewIds(n, None))
  {
    var ch := NewIds(n, None);
    assert |ch.a| == n + 1 && |ch.b| == n + 2 && |ch.c| == n + 3;
    assert Fresh(End(r), ch) && Enabled(cfg, End(r), Exec(0, out, ch));
    t := r + [ExecStep(cfg, End(r), 0, out, ch)];
    assert End(t) == Step(cfg, End(r), Exec(0, out, ch));
    Extend(cfg, r, End(t));
  }

  lemma CountLostRun(cfg: Config, email: string) returns (r: seq<State>)
    requires cfg.maxAttempts >= 1
    ensures IsRun(cfg, r) && End(r).db == Db(0, Unlimited(email))
    ensures 0 in End(r).procs && End(r).procs[0] == Done(BadCredentials(email))
  {
    r := WrongPassword(cfg, email);
    r := Disturbed(cfg, r, 6, Lost);
  }

  lemma CountedRun(cfg: Config, email: string) returns (r: seq<State>)
    requires cfg.maxAttempts >= 1
    ensures IsRun(cfg, r) && IdsUsed(End(r), 9) && Scene(End(r), Unlimited(email), map[0 := LoginArm(email)])
  {
    r := WrongPassword(cfg, email);
    r := Advance(cfg, r, 6, 0, None, Unlimited(email), LoginArm(email));
  }

  lemma NotLimitedRun(cfg: Config, email: string, crash: bool) returns (r: seq<State>)
    requires cfg.maxAttempts >= 1
    ensures IsRun(cfg, r) && End(r).db == Db(0, Unlimited(email))
    ensures 0 in End(r).procs && End(r).procs[0] == Done(if crash then Failed else BadCredentials(email))
  {
    r := CountedRun(cfg, email);
    if crash {
      var s := Step(cfg, End(r), Crash(0));
      Extend(cfg, r, s);
      r := r + [s];
    } else {
      r := Disturbed(cfg, r, 9, Skipped);
    }
  }

  /** Each of the three disturbances leaves a counter that no amount of time removes. */
  lemma DisturbedCounterIsImmortal(cfg: Config, email: string, d: Disturbance, ms: nat) returns (r: seq<State>)
    requires cfg.maxAttempts >= 1
    ensures IsRun(cfg, r) && End(r).db == Db(ms, Unlimited(email))
    ensures 0 in End(r).procs && End(r).procs[0] == Done(if d.CrashBetween? then Failed else BadCredentials(email))
  {
    if d.CountLost? {
      r := CountLostRun(cfg, email);
    } else {
      r := NotLimitedRun(cfg, email, d.CrashBetween?);
    }
    var s := Step(cfg, End(r), Elapse(ms));
    assert s.db.kv == Unlimited(email);
    Extend(cfg, r, s);
    r := r + [s];
  }

  // ----- The lockout bound is reached

  /** `waiting` logins for the email are about to count a failure; `k` failures are stored. */
  ghost predicate Crowd(s: State, email: string, k: nat, p: Pid, waiting: set<Pid>, n: nat) {
    && IdsUsed(s, n) && AllAnswered(s.log)
    && (LoginFail(email) in s.db.kv ==> s.db.kv[LoginFail(email)].value.Num?) && Count(s.db, email) == k
    && (forall q :: q in s.procs ==> q < p)
    && InFlight(s, email) == waiting
    && forall q :: q in waiting ==> s.procs[q] == LoginMiss(email)
  }

  ghost predicate Capped(r: seq<State>, email: string, c: nat) {
    forall m :: 0 <= m < |r| ==> |InFlight(r[m], email)| <= c
  }

  lemma CappedGrows(r: seq<State>, t: seq<State>, email: string, c: nat)
    requires Capped(r, email, c) && r <= t && |t| == |r| + 1 && |InFlight(End(t), email)| <= c
    ensures Capped(t, email, c)
  {
  }

  lemma Knock(cfg: Config, r: seq<State>, email: string, k: nat, p: Pid, waiting: set<Pid>, n: nat, c: nat)
    returns (t: seq<State>)
    requires IsRun(cfg, r) && Capped(r, email, c) && Crowd(End(r), email, k, p, waiting, n) && |waiting| < c
    ensures IsRun(cfg, t) && Capped(t, email, c) && InFlight(End(t), email) == waiting
    ensures End(t) == End(r).(procs := End(r).procs[p := LoginCheck(email)])
  {
    t := Start(cfg, r, p, LoginCheck(email));
    FlightSet(End(r), End(t), p, email);
    CappedGrows(r, t, email, c);
  }

  lemma PassesCheck(cfg: Config, s: State, email: string, k: nat, p: Pid, n: nat)
    requires p in s.procs && s.procs[p] == LoginCheck(email) && k < cfg.maxAttempts
    requires (LoginFail(email) in s.db.kv ==> s.db.kv[LoginFail(email)].value.Num?) && Count(s.db, email) == k
    ensures Advances(cfg, s, p, NewIds(n, None), s.db.kv, LoginVerify(email))
  {
  }

  /** Login `p` passes the lock check. */
  lemma Arrive(cfg: Config, r: seq<State>, email: string, k: nat, p: Pid, waiting: set<Pid>, n: nat, c: nat)
    returns (t: seq<State>)
    requires IsRun(cfg, r) && Capped(r, email, c) && Crowd(End(r), email, k, p, waiting, n)
    requires k < cfg.maxAttempts && |waiting| < c
    ensures IsRun(cfg, t) && Capped(t, email, c) && IdsUsed(End(t), n + 3) && AllAnswered(End(t).log)
    ensures End(t).db == End(r).db && End(t).procs == End(r).procs[p := LoginVerify(email)]
  {
    var s := Knock(cfg, r, email, k, p, waiting, n, c);
    PassesCheck(cfg, End(s), email, k, p, n);
    t := Advance(cfg, s, n, p, None, End(s).db.kv, LoginVerify(email));
    FlightMoves(End(s), End(t), p, email);
    CappedGrows(s, t, email, c);
  }

  /** Its password is wrong; it is about to count the failure. */
  lemma Join(cfg: Config, r: seq<State>, email: string, k: nat, p: Pid, waiting: set<Pid>, n: nat, c: nat)
    returns (t: seq<State>)
    requires IsRun(cfg, r) && Capped(r, email, c) && Crowd(End(r), email, k, p, waiting, n)
    requires k < cfg.maxAttempts && |waiting| < c
    ensures IsRun(cfg, t) && Capped(t, email, c) && Crowd(End(t), email, k, p + 1, waiting + {p}, n + 6)
  {
    var s := Arrive(cfg, r, email, k, p, waiting, n, c);
    t := Advance(cfg, s, n + 3, p, None, End(s).db.kv, LoginMiss(email));
    FlightSet(End(r), End(s), p, email);
    FlightSet(End(s), End(t), p, email);
    CappedGrows(s, t, email, c);
  }

  /** A waiting login counts its failure. */
  lemma Land(cfg: Config, r: seq<State>, email: string, k: nat, p: Pid, waiting: set<Pid>, q: Pid, n: nat, c: nat)
    returns (t: seq<State>)
    requires IsRun(cfg, r) && Capped(r, email, c) && Crowd(End(r), email, k, p, waiting, n) && q in waiting
    ensures IsRun(cfg, t) && Capped(t, email, c) && Crowd(End(t), email, k + 1, p, waiting - {q}, n + 3)
  {
    var s := End(r);
    assert q in InFlight(s, email);
    var db, next := CountOne(s.db, email, k);
    t := Advance(cfg, r, n, q, None, db.kv, next);
    FlightSet(s, End(t), q, email);
    FlightMoves(s, End(t), q, email);
    CappedGrows(r, t, email, c);
  }

  lemma CountOne(db: Db<Key>, email: string, k: nat) returns (after: Db<Key>, next: Pc)
    requires (LoginFail(email) in db.kv ==> db.kv[LoginFail(email)].value.Num?) && Count(db, email) == k
    ensures after == Do(db, Incr(LoginFail(email))).0 && !Flying(next, email)
    ensures next == if Do(db, Incr(LoginFail(email))).1 == Int(1) then LoginArm(email) else Done(BadCredentials(email))
    ensures LoginFail(email) in after.kv && after.kv[LoginFail(email)].value == Num(k + 1)
  {
    after := Do(db, Incr(LoginFail(email))).0;
    next := if Do(db, Incr(LoginFail(email))).1 == Int(1) then LoginArm(email) else Done(BadCredentials(email));
  }

  /** `m` failed logins one after another. */
  lemma {:induction false} FailInTurn(cfg: Config, email: string, m: nat, c: nat)
    returns (r: seq<State>, p: Pid, n: nat)
    requires m <= cfg.maxAttempts && c >= 1
    ensures IsRun(cfg, r) && Capped(r, email, c) && Crowd(End(r), email, m, p, {}, n)
  {
    if m == 0 {
      r, p, n := [Init(0)], 0, 0;
      assert InFlight(r[0], email) == {};
    } else {
      r, p, n := FailInTurn(cfg, email, m - 1, c);
      r := Join(cfg, r, email, m - 1, p, {}, n, c);
      r := Land(cfg, r, email, m - 1, p + 1, {p}, p, n + 6, c);
      p, n := p + 1, n + 9;
      assert {p - 1} - {p - 1} == {};
    }
  }

  /** Then `m` logins that all pass the check before any of them counts. */
  lemma {:induction false} GatherCrowd(cfg: Config, email: string, m: nat, c: nat)
    returns (r: seq<State>, p: Pid, waiting: set<Pid>, n: nat)
    requires cfg.maxAttempts >= 1 && m <= c && c >= 1
    ensures IsRun(cfg, r) && Capped(r, email, c) && |waiting| == m
    ensures Crowd(End(r), email, cfg.maxAttempts - 1, p, waiting, n)
  {
    if m == 0 {
      r, p, n := FailInTurn(cfg, email, cfg.maxAttempts - 1, c);
      waiting := {};
    } else {
      r, p, waiting, n := GatherCrowd(cfg, email, m - 1, c);
      assert p !in InFlight(End(r), email);
      r := Join(cfg, r, email, cfg.maxAttempts - 1, p, waiting, n, c);
      p, waiting, n := p + 1, waiting + {p}, n + 6;
    }
  }

  lemma {:induction false} LandAll(
    cfg: Config, r: seq<State>, email: string, k: nat, p: Pid, waiting: set<Pid>, n: nat, c: nat)
    returns (t: seq<State>)
    requires IsRun(cfg, r) && Capped(r, email, c) && Crowd(End(r), email, k, p, waiting, n)
    ensures IsRun(cfg, t) && Capped(t, email, c) && AllAnswered(End(t).log)
    ensures Count(End(t).db, email) == k + |waiting|
    decreases waiting
  {
    if q :| q in waiting {
      t := Land(cfg, r, email, k, p, waiting, q, n, c);
      t := LandAll(cfg, t, email, k + 1, p, waiting - {q}, n + 3, c);
    } else {
      assert waiting == {};
      t := r;
    }
  }

  /**
   The lockout bound is exact: for every configuration and every c there is an undisturbed run with at most
   c logins between their check and their count in which the stored failures reach max - 1 + c.
   */
  lemma LockoutBoundIsReached(cfg: Config, email: string, c: nat) returns (r: seq<State>)
    requires cfg.maxAttempts >= 1 && c >= 1
    ensures IsRun(cfg, r) && Capped(r, email, c) && ChecksAnswered(End(r).log, email)
    ensures Count(End(r).db, email) == cfg.maxAttempts - 1 + c
  {
    var crowd, p, waiting, n := GatherCrowd(cfg, email, c, c);
    r := LandAll(cfg, crowd, email, cfg.maxAttempts - 1, p, waiting, n, c);
  }
}
