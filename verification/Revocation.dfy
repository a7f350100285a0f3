/** revokeAllSessions against concurrent logins, refreshes and guards; epochs decide exactly. */
module Revocation {
  import opened Redis
  import opened Keys
  import opened Sessions
  import opened Epochs
  import Rotation
  import RotationHistory

  // ----- The epoch decides

  /** The request was a login or refresh that returned the access token `at`. */
  predicate Minted(pc: Pc, at: AccessToken) {
    pc.Done? && (pc.res.LoggedIn? || pc.res.Refreshed?) && pc.res.at == at
  }

  predicate Verdict(pc: Pc, at: AccessToken) {
    pc == Done(Accepted(at)) || pc == Done(Rejected(at))
  }

  /** Event `i` is the epoch read of request `p`, answered or not. */
  predicate EpochTakenBy(log: seq<Event>, i: nat, p: Pid) {
    i < |log| && log[i].pid == p && ReadsEpoch(log[i])
  }

  /** Event `i` is the answered epoch read of request `p`. */
  predicate EpochReadOf(log: seq<Event>, i: nat, p: Pid) {
    EpochTakenBy(log, i, p) && log[i].out.Answered?
  }

  /**
   Epoch exactness. A guard that got as far as the epoch accepts a token exactly when the user's sessions
   were not revoked between the epoch read of the request that minted the token and the guard's own read.
   */
  lemma GuardAcceptsExactlyWithoutRevocation(
    cfg: Config, r: seq<State>, n: nat, p: Pid, q: Pid, at: AccessToken, i: nat, g: nat)
    requires IsRun(cfg, r) && n < |r| && p in r[n].procs && q in r[n].procs
    requires Minted(r[n].procs[p], at) && EpochReadOf(r[n].log, i, p)
    requires Verdict(r[n].procs[q], at) && EpochReadOf(r[n].log, g, q)
    ensures r[n].procs[q] == Done(Accepted(at)) <==> !exists b :: i <= b < g && IsBump(r[n].log[b], at.sub)
  {
    RunInv(cfg, r, n);
    var log := r[n].log;
    assert Accounts(log[i], r[n].procs[p]) && Accounts(log[g], r[n].procs[q]);
    if i <= g {
      BumpsBetween(log, i, g, at.sub);
    } else {
      BumpsBetween(log, g, i, at.sub);
    }
  }

  /** No token carries an epoch beyond the stored one, and the stored one never goes back. */
  lemma EpochsOnlyGrow(cfg: Config, r: seq<State>, i: nat, j: nat, at: AccessToken)
    requires IsRun(cfg, r) && i <= j < |r| && at in r[i].access
    ensures at.epoch <= Bumps(r[i].log, at.sub) <= Bumps(r[j].log, at.sub)
    ensures Bumps(r[j].log, at.sub) ==
            if Epoch(at.sub) in r[j].db.kv && r[j].db.kv[Epoch(at.sub)].value.Num? then r[j].db.kv[Epoch(at.sub)].value.n
            else 0
  {
    RunInv(cfg, r, i);
    RunInv(cfg, r, j);
    RunGrows(cfg, r, i, j);
    assert r[j].log[..|r[i].log|] == r[i].log && r[j].log[..|r[j].log|] == r[j].log;
    BumpsBetween(r[j].log, |r[i].log|, |r[j].log|, at.sub);
    assert StoredFor(r[j], at.sub);
  }

  // ----- The sweep over the refresh families

  /** The revocation `w` of `user` has incremented the epoch after position `from`, unless it was disturbed. */
  ghost predicate Bumped(s: State, from: nat, w: Pid, user: int) {
    w in s.procs && match s.procs[w]
      case RevokeBump(u) => u == user && from <= |s.log|
      case RevokeScan(u) => u == user && (w in s.faulty || BumpIn(s.log, from, w, user))
      case Scanning(u, _) => u == user && (w in s.faulty || BumpIn(s.log, from, w, user))
      case RevokeDrop(u, _) => u == user && (w in s.faulty || BumpIn(s.log, from, w, user))
      case Done(_) => w in s.faulty || BumpIn(s.log, from, w, user)
      case _ => false
  }

  ghost predicate BumpIn(log: seq<Event>, from: nat, w: Pid, user: int) {
    exists b :: from <= b < |log| && log[b].pid == w && IsBump(log[b], user)
  }

  /** How far the revocation `w` has come with the family `k`, which existed before its scan. */
  predicate Swept(s: State, w: Pid, k: Key)
    requires k.Rt?
  {
    w in s.procs && Rotation.Chain(s.log, k) != [] && match s.procs[w]
      case RevokeBump(u) => u == k.user
      case RevokeScan(u) => u == k.user
      case Scanning(u, _) => u == k.user && w in s.scans && (k in s.db.kv ==> k in s.scans[w])
      case RevokeDrop(u, found) => u == k.user && (k in s.db.kv ==> k in found)
      case Done(_) => w in s.faulty || k !in s.db.kv
      case _ => false
  }

  lemma BumpInKept(log: seq<Event>, e: Event, from: nat, w: Pid, user: int)
    requires BumpIn(log, from, w, user)
    ensures BumpIn(log + [e], from, w, user)
  {
    var b :| from <= b < |log| && log[b].pid == w && IsBump(log[b], user);
    assert (log + [e])[b] == log[b];
  }

  lemma StepKeepsBumped(cfg: Config, s: State, t: State, from: nat, w: Pid, user: int)
    requires Next(cfg, s, t) && Bumped(s, from, w, user)
    ensures Bumped(t, from, w, user)
  {
    var a :| Enabled(cfg, s, a) && t == Step(cfg, s, a);
    if a.Exec? {
      ExecKeepsBumped(cfg, s, a.pid, a.out, a.ch, from, w, user);
    } else {
      OtherStepsAreQuiet(cfg, s, a);
    }
  }

  lemma ExecKeepsBumped(cfg: Config, s: State, p: Pid, out: Outcome, ch: Choice, from: nat, w: Pid, user: int)
    requires Enabled(cfg, s, Exec(p, out, ch)) && Bumped(s, from, w, user)
    ensures Bumped(ExecStep(cfg, s, p, out, ch), from, w, user)
  {
    var t := ExecStep(cfg, s, p, out, ch);
    var e := t.log[|s.log|];
    assert t.log == s.log + [e];
    if BumpIn(s.log, from, w, user) {
      BumpInKept(s.log, e, from, w, user);
    } else if p == w && s.procs[w].RevokeBump? && out.Answered? {
      assert IsBump(t.log[|s.log|], user);
    }
  }

  lemma ExecKeepsSwept(cfg: Config, s: State, p: Pid, out: Outcome, ch: Choice, w: Pid, k: Key)
    requires Rotation.Inv(s) && Enabled(cfg, s, Exec(p, out, ch)) && k.Rt? && Swept(s, w, k)
    ensures Swept(ExecStep(cfg, s, p, out, ch), w, k)
  {
    var t := ExecStep(cfg, s, p, out, ch);
    var cmd, e := CmdOf(cfg, s.procs[p], ch), t.log[|s.log|];
    Rotation.CommandsDisciplined(cfg, s, p, ch);
    Rotation.ChainsAfter(s, t, cmd, e, ch, k);
    if k !in s.db.kv {
      Rotation.DeadStaysDead(s, t, cmd, e, ch, k);
    }
  }

  lemma StepKeepsSwept(cfg: Config, s: State, t: State, w: Pid, k: Key)
    requires Rotation.Inv(s) && Next(cfg, s, t) && k.Rt? && Swept(s, w, k)
    ensures Swept(t, w, k)
  {
    var a :| Enabled(cfg, s, a) && t == Step(cfg, s, a);
    if a.Exec? {
      ExecKeepsSwept(cfg, s, a.pid, a.out, a.ch, w, k);
    } else if a.Elapse? || a.pid != w {
      OtherStepsAreQuiet(cfg, s, a);
    } else {
      OwnStepKeepsSwept(cfg, s, a, w, k);
    }
  }

  lemma OwnStepKeepsSwept(cfg: Config, s: State, a: Action, w: Pid, k: Key)
    requires Enabled(cfg, s, a) && !a.Exec? && !a.Elapse? && a.pid == w && k.Rt? && Swept(s, w, k)
    ensures Swept(Step(cfg, s, a), w, k)
  {
  }

  lemma {:induction false} RunKeepsSwept(cfg: Config, r: seq<State>, i: nat, j: nat, w: Pid, k: Key)
    requires IsRun(cfg, r) && i <= j < |r| && k.Rt? && Swept(r[i], w, k)
    ensures Swept(r[j], w, k)
    decreases j
  {
    if i < j {
      RunKeepsSwept(cfg, r, i, j - 1, w, k);
      Rotation.RunInv(cfg, r, j - 1);
      RunStep(cfg, r, j);
      StepKeepsSwept(cfg, r[j - 1], r[j], w, k);
    }
  }

  lemma {:induction false} RunKeepsBumped(cfg: Config, r: seq<State>, i: nat, j: nat, from: nat, w: Pid, user: int)
    requires IsRun(cfg, r) && i <= j < |r| && Bumped(r[i], from, w, user)
    ensures Bumped(r[j], from, w, user)
    decreases j
  {
    if i < j {
      RunKeepsBumped(cfg, r, i, j - 1, from, w, user);
      RunStep(cfg, r, j);
      StepKeepsBumped(cfg, r[j - 1], r[j], from, w, user);
    }
  }

  // ----- Main results

  /** Request `w` revokes the user's sessions: not yet begun in `r[i]`, finished undisturbed in `r[j]`. */
  ghost predicate RevokesAll(r: seq<State>, i: nat, j: nat, w: Pid, user: int) {
    && i <= j < |r|
    && w in r[i].procs && r[i].procs[w] == RevokeBump(user)
    && w in r[j].procs && r[j].procs[w].Done? && w !in r[j].faulty
  }

  /**
   Every family written before the scan began is dead once the revocation has finished, and stays so:
   it is not stored in any later state and no later rotation of it is accepted. `r[h]` is any state in
   which the scan has not begun; rotations during the scan make no difference.
   */
  lemma RevokedFamiliesStayRevoked(cfg: Config, r: seq<State>, h: nat, j: nat, m: nat, w: Pid, user: int, k: Key)
    requires IsRun(cfg, r) && h <= j <= m < |r|
    requires w in r[h].procs && (r[h].procs[w] == RevokeBump(user) || r[h].procs[w] == RevokeScan(user))
    requires w in r[j].procs && r[j].procs[w].Done? && w !in r[j].faulty
    requires k.Rt? && k.user == user && Rotation.Chain(r[h].log, k) != []
    ensures k !in r[m].db.kv
    ensures RotationHistory.NeverAccepted(r[m].log, |r[j].log|, k)
  {
    RunKeepsSwept(cfg, r, h, j, w, k);
    assert Rotation.Dead(r[j], k);
    RotationHistory.DeadForever(cfg, r, j, m, k);
  }

  /**
   A family of the user that is alive after the revocation has finished was stored, once, by a login whose
   command came after the scan had begun; `r[h]` is any state before that.
   */
  lemma SurvivorsWereStoredAfterTheScanBegan(
    cfg: Config, r: seq<State>, h: nat, j: nat, m: nat, w: Pid, user: int, k: Key) returns (i: nat)
    requires IsRun(cfg, r) && h <= j <= m < |r|
    requires w in r[h].procs && (r[h].procs[w] == RevokeBump(user) || r[h].procs[w] == RevokeScan(user))
    requires w in r[j].procs && r[j].procs[w].Done? && w !in r[j].faulty
    requires k.Rt? && k.user == user && k in r[m].db.kv
    ensures |r[h].log| <= i < |r[m].log| && RotationHistory.Stores(r[m].log[i], k)
    ensures forall l :: 0 <= l < |r[m].log| && RotationHistory.Stores(r[m].log[l], k) ==> l == i
  {
    var log := r[m].log;
    if Rotation.Chain(r[h].log, k) != [] {
      RevokedFamiliesStayRevoked(cfg, r, h, j, m, w, user, k);
      assert false;
    }
    Rotation.RunInv(cfg, r, m);
    RotationHistory.RunHistory(cfg, r, m);
    assert log[..|log|] == log;
    i := RotationHistory.TheStore(log, k);
    if i < |r[h].log| {
      RunGrows(cfg, r, h, m);
      assert r[h].log[i] == log[i];
      RotationHistory.RunHistory(cfg, r, h);
      RotationHistory.StoredIsInChain(r[h].log, i, k);
      assert false;
    }
  }

  /**
   Every access token whose epoch was read before the revocation began, even by a read that failed open,
   is rejected by each guard whose epoch read is answered after the revocation has finished.
   */
  lemma RevokedAccessTokensAreRejected(
    cfg: Config, r: seq<State>, i: nat, j: nat, m: nat, w: Pid, p: Pid, q: Pid, at: AccessToken, x: nat, g: nat)
    requires IsRun(cfg, r) && RevokesAll(r, i, j, w, at.sub) && j <= m < |r|
    requires p in r[m].procs && Minted(r[m].procs[p], at)
    requires x < |r[i].log| && EpochTakenBy(r[m].log, x, p)
    requires q in r[m].procs && Verdict(r[m].procs[q], at) && EpochReadOf(r[m].log, g, q) && |r[j].log| <= g
    ensures r[m].procs[q] == Done(Rejected(at))
  {
    RunKeepsBumped(cfg, r, i, j, |r[i].log|, w, at.sub);
    var b :| |r[i].log| <= b < |r[j].log| && IsBump(r[j].log[b], at.sub);
    RunGrows(cfg, r, j, m);
    assert IsBump(r[m].log[b], at.sub);
    RunInv(cfg, r, m);
    LaterGuardRejects(r[m], p, q, at, x, b, g);
  }

  lemma LaterGuardRejects(s: State, p: Pid, q: Pid, at: AccessToken, x: nat, b: nat, g: nat)
    requires Inv(s) && p in s.procs && q in s.procs
    requires Minted(s.procs[p], at) && EpochTakenBy(s.log, x, p)
    requires Verdict(s.procs[q], at) && EpochReadOf(s.log, g, q)
    requires x <= b < g && IsBump(s.log[b], at.sub)
    ensures s.procs[q] == Done(Rejected(at))
  {
    assert Accounts(s.log[x], s.procs[p]) && Accounts(s.log[g], s.procs[q]);
    BumpsBetween(s.log, x, g, at.sub);
  }

  // ----- Nobody else's sessions

  /** The request is about to delete the family `k`: it presented or carried its token, or revokes its user. */
  predicate Drops(pc: Pc, k: Key)
    requires k.Rt?
  {
    match pc
    case RefreshDrop(rt) => FamilyKey(rt) == k
    case RefreshOrphan(rt) => FamilyKey(rt) == k
    case LogoutDrop(rt) => FamilyKey(rt) == k
    case RevokeDrop(user, _) => user == k.user
    case _ => false
  }

  /** Between the two states the family ran out, or a request that `Drops` it deleted it. */
  ghost predicate Ends(s: State, t: State, k: Key)
    requires k.Rt? && k in s.db.kv
  {
    || (t.log == s.log && s.db.kv[k].expiresAt.Some? && s.db.kv[k].expiresAt.value <= t.db.now)
    || (&& |t.log| == |s.log| + 1
        && var e := t.log[|s.log|];
           e.pid in s.procs && Drops(s.procs[e.pid], k) && Effective(e) && e.cmd.Del? && k in e.cmd.keys)
  }

  lemma StepEnds(cfg: Config, s: State, t: State, k: Key)
    requires Rotation.Inv(s) && Next(cfg, s, t) && k.Rt? && k in s.db.kv && k !in t.db.kv
    ensures Ends(s, t, k)
  {
    var a :| Enabled(cfg, s, a) && t == Step(cfg, s, a);
    if a.Exec? {
      CommandEnds(cfg, s, a.pid, a.out, a.ch, k);
    } else {
      OtherStepsAreQuiet(cfg, s, a);
    }
  }

  lemma CommandEnds(cfg: Config, s: State, p: Pid, out: Outcome, ch: Choice, k: Key)
    requires Rotation.Inv(s) && Enabled(cfg, s, Exec(p, out, ch)) && k.Rt? && k in s.db.kv
    requires k !in ExecStep(cfg, s, p, out, ch).db.kv
    ensures Ends(s, ExecStep(cfg, s, p, out, ch), k)
  {
    var cmd := CmdOf(cfg, s.procs[p], ch);
    Rotation.CommandsDisciplined(cfg, s, p, ch);
    assert Rotation.Carries(s, s.procs[p]);
    assert !out.Skipped?;
    OnlyDelRemoves(s.db, cmd, k);
  }

  lemma OnlyDelRemoves(db: Db<Key>, cmd: Cmd<Key>, k: Key)
    requires k in db.kv && k !in Do(db, cmd).0.kv
    ensures (cmd.Del? && k in cmd.keys) || (cmd.Expire? && cmd.key == k) || (cmd.ReleaseLock? && cmd.key == k)
  {
  }

  /**
   A live family disappears at its deadline, or by a refresh or logout that came with a token of that very
   family, or by a revocation of its own user; nothing that concerns other users or families ends it.
   */
  lemma {:induction false} OnlyItsOwnRequestsEndAFamily(cfg: Config, r: seq<State>, i: nat, j: nat, k: Key) returns (n: nat)
    requires IsRun(cfg, r) && i <= j < |r| && k.Rt? && k in r[i].db.kv && k !in r[j].db.kv
    ensures i <= n < j && k in r[n].db.kv && k !in r[n + 1].db.kv && Ends(r[n], r[n + 1], k)
    decreases j
  {
    assert i < j;
    if k in r[j - 1].db.kv {
      n := j - 1;
      Rotation.RunInv(cfg, r, n);
      RunStep(cfg, r, j);
      StepEnds(cfg, r[n], r[j], k);
    } else {
      n := OnlyItsOwnRequestsEndAFamily(cfg, r, i, j - 1, k);
    }
  }
}
