/** The access token blocklist under every interleaving, with time. */
module Logout {
  import opened Redis
  import opened Keys
  import opened Sessions
  import Rotation

  /** A logout wrote the blocklist entry of `jti`. */
  predicate Blocks(e: Event, jti: string) {
    Effective(e) && e.cmd.Set? && e.cmd.key == Blocked(jti)
  }

  predicate ReadsBlock(e: Event) {
    e.cmd.Get? && e.cmd.key.Blocked?
  }

  /** An entry written at `t` has run out by `now`; with a time to live of 0 it never does. */
  predicate RunOut(cfg: Config, t: nat, now: nat) {
    cfg.blockTtl > 0 && t + 1000 * cfg.blockTtl <= now
  }

  // ----- The invariant

  ghost predicate TokensDated(s: State) {
    && (forall at :: at in s.access ==> at.iat * 1000 <= s.db.now && at.jti in s.used)
    && (forall a, b :: a in s.access && b in s.access && a.jti == b.jti ==> a == b)
  }

  /** Requests only handle access tokens that were signed. */
  predicate Handles(s: State, pc: Pc) {
    match pc
    case LogoutBlock(at, _) => at in s.access
    case GuardBlock(at) => at in s.access
    case GuardEpoch(at) => at in s.access
    case Done(Accepted(at)) => at in s.access
    case Done(Rejected(at)) => at in s.access
    case _ => true
  }

  ghost predicate RequestsHandle(s: State) {
    forall p :: p in s.procs ==> Handles(s, s.procs[p])
  }

  /** Each blocklist write concerns a signed token and came after its signing. */
  ghost predicate WritesDated(s: State) {
    forall i, jti :: 0 <= i < |s.log| && Blocks(s.log[i], jti) ==>
      s.log[i].time <= s.db.now && exists at :: at in s.access && at.jti == jti && at.iat * 1000 <= s.log[i].time
  }

  /** The entry for `jti` is present and outlasts one written at `t`. */
  predicate Entered(cfg: Config, s: State, jti: string, t: nat) {
    && Blocked(jti) in s.db.kv
    && s.db.kv[Blocked(jti)].value == Num(1)
    && (s.db.kv[Blocked(jti)].expiresAt.Some? ==>
          cfg.blockTtl > 0 && t + 1000 * cfg.blockTtl <= s.db.kv[Blocked(jti)].expiresAt.value)
  }

  ghost predicate WritesHold(cfg: Config, s: State) {
    forall i, jti :: 0 <= i < |s.log| && Blocks(s.log[i], jti) ==>
      RunOut(cfg, s.log[i].time, s.db.now) || Entered(cfg, s, jti, s.log[i].time)
  }

  ghost predicate WrittenBefore(log: seq<Event>, n: int, jti: string) {
    exists i :: 0 <= i < n <= |log| && Blocks(log[i], jti)
  }

  ghost predicate EntriesWritten(s: State) {
    forall jti :: Blocked(jti) in s.db.kv ==> WrittenBefore(s.log, |s.log|, jti)
  }

  /** What answered reads of the blocklist saw. */
  ghost predicate ReadsTruthful(cfg: Config, log: seq<Event>) {
    forall g :: 0 <= g < |log| && ReadsBlock(log[g]) && log[g].out.Answered? ==>
      && (Truthy(log[g].reply) ==> WrittenBefore(log, g, log[g].cmd.key.jti))
      && (forall i :: 0 <= i < g && Blocks(log[i], log[g].cmd.key.jti) && !Truthy(log[g].reply) ==>
            RunOut(cfg, log[i].time, log[g].time))
  }

  /** The blocklist reads in the history are those the guards account for. */
  predicate Accounts(cfg: Config, e: Event, pc: Pc)
    requires ReadsBlock(e)
  {
    match pc
    case GuardEpoch(at) => e.cmd.key.jti == at.jti && !Truthy(Seen(e.out, e.reply))
    case Done(Accepted(at)) => e.cmd.key.jti == at.jti && !Truthy(Seen(e.out, e.reply))
    case Done(Rejected(at)) => e.cmd.key.jti == at.jti
    case Done(Failed) => true
    case _ => false
  }

  ghost predicate ReadsAccounted(cfg: Config, s: State) {
    forall i :: 0 <= i < |s.log| ==>
      s.log[i].pid in s.procs && (ReadsBlock(s.log[i]) ==> Accounts(cfg, s.log[i], s.procs[s.log[i].pid]))
  }

  ghost predicate Inv(cfg: Config, s: State) {
    && TokensDated(s) && RequestsHandle(s)
    && WritesDated(s) && WritesHold(cfg, s) && EntriesWritten(s)
    && ReadsTruthful(cfg, s.log) && ReadsAccounted(cfg, s)
  }

  // ----- Steps

  ghost predicate Signed(s: State, jti: string) {
    exists at :: at in s.access && at.jti == jti
  }

  /** Blocklist keys are only written with the configured time to live, and read. */
  ghost predicate LeavesBlocks(cfg: Config, s: State, cmd: Cmd<Key>) {
    && (cmd.Set? && cmd.key.Blocked? ==> cmd.value == Num(1) && cmd.ttl == cfg.blockTtl && Signed(s, cmd.key.jti))
    && (cmd.Incr? || cmd.Expire? || cmd.CompareAndSet? ==> !cmd.key.Blocked?)
    && (cmd.Del? ==> forall k :: k in cmd.keys ==> !k.Blocked?)
    && !cmd.AcquireLock? && !cmd.ReleaseLock?
  }

  lemma BlockDiscipline(cfg: Config, s: State, p: Pid, ch: Choice)
    requires Rotation.Inv(s) && RequestsHandle(s) && p in s.procs
    ensures LeavesBlocks(cfg, s, CmdOf(cfg, s.procs[p], ch))
  {
    assert Rotation.Carries(s, s.procs[p]) && Handles(s, s.procs[p]);
  }

  ghost predicate Ran(s: State, t: State, e: Event) {
    && (t.db, e.reply) == Send(s.db, Effective(e), e.cmd)
    && t.log == s.log + [e] && e.time == s.db.now
    && s.access <= t.access
  }

  lemma TokensDatedKept(cfg: Config, s: State, p: Pid, out: Outcome, ch: Choice)
    requires TokensDated(s) && Enabled(cfg, s, Exec(p, out, ch))
    ensures TokensDated(ExecStep(cfg, s, p, out, ch))
  {
    SendKeepsTime(s.db, !out.Skipped?, CmdOf(cfg, s.procs[p], ch));
  }

  lemma RequestsHandleKept(cfg: Config, s: State, p: Pid, out: Outcome, ch: Choice)
    requires RequestsHandle(s) && Enabled(cfg, s, Exec(p, out, ch))
    ensures RequestsHandle(ExecStep(cfg, s, p, out, ch))
  {
    var t := ExecStep(cfg, s, p, out, ch);
    forall q | q in t.procs ensures Handles(t, t.procs[q]) {
      assert Handles(s, s.procs[q]);
    }
  }

  lemma WritesKept(cfg: Config, s: State, t: State, e: Event)
    requires TokensDated(s) && WritesDated(s) && WritesHold(cfg, s) && LeavesBlocks(cfg, s, e.cmd) && Ran(s, t, e)
    ensures WritesDated(t) && WritesHold(cfg, t)
  {
    SendKeepsTime(s.db, Effective(e), e.cmd);
    forall i, jti | 0 <= i < |t.log| && Blocks(t.log[i], jti)
      ensures t.log[i].time <= t.db.now
      ensures exists at :: at in t.access && at.jti == jti && at.iat * 1000 <= t.log[i].time
      ensures RunOut(cfg, t.log[i].time, t.db.now) || Entered(cfg, t, jti, t.log[i].time)
    {
      if i < |s.log| {
        assert t.log[i] == s.log[i];
        var at :| at in s.access && at.jti == jti && at.iat * 1000 <= s.log[i].time;
        assert at in t.access;
      } else {
        var at :| at in s.access && at.jti == jti;
        assert at in t.access && at.iat * 1000 <= s.db.now;
      }
    }
  }

  lemma EntriesKept(cfg: Config, s: State, t: State, e: Event)
    requires EntriesWritten(s) && LeavesBlocks(cfg, s, e.cmd) && Ran(s, t, e)
    ensures EntriesWritten(t)
  {
    forall jti | Blocked(jti) in t.db.kv ensures WrittenBefore(t.log, |t.log|, jti) {
      if Blocked(jti) in s.db.kv {
        var i :| 0 <= i < |s.log| && Blocks(s.log[i], jti);
        assert t.log[i] == s.log[i];
      } else {
        assert t.log[|s.log|] == e && Blocks(e, jti);
      }
    }
  }

  lemma ReadsKept(cfg: Config, s: State, t: State, e: Event)
    requires EntriesWritten(s) && WritesHold(cfg, s) && ReadsTruthful(cfg, s.log) && Ran(s, t, e)
    ensures ReadsTruthful(cfg, t.log)
  {
    forall g | 0 <= g < |t.log| && ReadsBlock(t.log[g]) && t.log[g].out.Answered?
      ensures Truthy(t.log[g].reply) ==> WrittenBefore(t.log, g, t.log[g].cmd.key.jti)
      ensures forall i :: 0 <= i < g && Blocks(t.log[i], t.log[g].cmd.key.jti) && !Truthy(t.log[g].reply) ==>
                RunOut(cfg, t.log[i].time, t.log[g].time)
    {
      var jti := t.log[g].cmd.key.jti;
      forall i | 0 <= i < g && Blocks(t.log[i], jti) && !Truthy(t.log[g].reply)
        ensures RunOut(cfg, t.log[i].time, t.log[g].time)
      {
        assert t.log[i] == s.log[i];
        if g < |s.log| { assert t.log[g] == s.log[g]; }
      }
      if Truthy(t.log[g].reply) {
        assert WrittenBefore(s.log, g, jti) by {
          if g < |s.log| { assert t.log[g] == s.log[g]; }
        }
        var i :| 0 <= i < g && Blocks(s.log[i], jti);
        assert t.log[i] == s.log[i];
      }
    }
  }

  lemma AccountsKept(cfg: Config, s: State, p: Pid, out: Outcome, ch: Choice)
    requires ReadsAccounted(cfg, s) && Enabled(cfg, s, Exec(p, out, ch))
    ensures ReadsAccounted(cfg, ExecStep(cfg, s, p, out, ch))
  {
    var t := ExecStep(cfg, s, p, out, ch);
    var e := t.log[|s.log|];
    assert t.log == s.log + [e];
    forall i | 0 <= i < |t.log|
      ensures t.log[i].pid in t.procs && (ReadsBlock(t.log[i]) ==> Accounts(cfg, t.log[i], t.procs[t.log[i].pid]))
    {
      if i < |s.log| { assert t.log[i] == s.log[i]; }
    }
  }

  lemma ExecKeepsInv(cfg: Config, s: State, p: Pid, out: Outcome, ch: Choice)
    requires Rotation.Inv(s) && Inv(cfg, s) && Enabled(cfg, s, Exec(p, out, ch))
    ensures Inv(cfg, ExecStep(cfg, s, p, out, ch))
  {
    var t := ExecStep(cfg, s, p, out, ch);
    var e := t.log[|s.log|];
    assert Ran(s, t, e);
    BlockDiscipline(cfg, s, p, ch);
    TokensDatedKept(cfg, s, p, out, ch);
    RequestsHandleKept(cfg, s, p, out, ch);
    WritesKept(cfg, s, t, e);
    EntriesKept(cfg, s, t, e);
    ReadsKept(cfg, s, t, e);
    AccountsKept(cfg, s, p, out, ch);
  }

  lemma QuietWrites(cfg: Config, s: State, a: Action)
    requires Inv(cfg, s) && Enabled(cfg, s, a) && !a.Exec?
    ensures var t := Step(cfg, s, a); WritesDated(t) && WritesHold(cfg, t) && EntriesWritten(t)
  {
    OtherStepsAreQuiet(cfg, s, a);
    var t := Step(cfg, s, a);
    forall i, jti | 0 <= i < |t.log| && Blocks(t.log[i], jti)
      ensures RunOut(cfg, t.log[i].time, t.db.now) || Entered(cfg, t, jti, t.log[i].time)
    {
      assert Blocks(s.log[i], jti);
    }
  }

  lemma QuietHandles(cfg: Config, s: State, a: Action)
    requires RequestsHandle(s) && Enabled(cfg, s, a) && !a.Exec?
    ensures RequestsHandle(Step(cfg, s, a))
  {
    var t := Step(cfg, s, a);
    forall q | q in t.procs ensures Handles(t, t.procs[q]) {
      if q in s.procs { assert Handles(s, s.procs[q]); }
    }
  }

  lemma QuietAccounts(cfg: Config, s: State, a: Action)
    requires ReadsAccounted(cfg, s) && Enabled(cfg, s, a) && !a.Exec?
    ensures ReadsAccounted(cfg, Step(cfg, s, a))
  {
    OtherStepsAreQuiet(cfg, s, a);
  }

  lemma StepKeepsInv(cfg: Config, s: State, t: State)
    requires Rotation.Inv(s) && Inv(cfg, s) && Next(cfg, s, t)
    ensures Inv(cfg, t)
  {
    var a :| Enabled(cfg, s, a) && t == Step(cfg, s, a);
    if a.Exec? {
      ExecKeepsInv(cfg, s, a.pid, a.out, a.ch);
    } else {
      OtherStepsAreQuiet(cfg, s, a);
      QuietWrites(cfg, s, a);
      QuietHandles(cfg, s, a);
      QuietAccounts(cfg, s, a);
    }
  }

  lemma {:induction false} RunInv(cfg: Config, r: seq<State>, n: nat)
    requires IsRun(cfg, r) && n < |r|
    ensures Inv(cfg, r[n])
    decreases n
  {
    if n > 0 {
      RunInv(cfg, r, n - 1);
      Rotation.RunInv(cfg, r, n - 1);
      RunStep(cfg, r, n);
      StepKeepsInv(cfg, r[n - 1], r[n]);
    }
  }

  // ----- Main results

  /** Event `g` is the answered blocklist read of guard `q`. */
  predicate BlockReadOf(log: seq<Event>, g: nat, q: Pid) {
    g < |log| && log[g].pid == q && ReadsBlock(log[g]) && log[g].out.Answered?
  }

  /**
   Logout is durable. A guard that reads the blocklist after a logout of the token has written it lets the
   token pass only if the token has expired by then, provided the entry lives at least as long as a token.
   */
  lemma LoggedOutTokenIsRejectedUntilItExpires(
    cfg: Config, r: seq<State>, n: nat, q: Pid, at: AccessToken, i: nat, g: nat)
    requires IsRun(cfg, r) && n < |r| && (cfg.blockTtl == 0 || cfg.accessLifetime <= cfg.blockTtl)
    requires i < g && BlockReadOf(r[n].log, g, q) && Blocks(r[n].log[i], at.jti)
    requires q in r[n].procs && r[n].procs[q] == Done(Accepted(at))
    ensures Expired(cfg, at, r[n].log[g].time)
  {
    RunInv(cfg, r, n);
    var s := r[n];
    assert Accounts(cfg, s.log[g], s.procs[q]);
    assert RunOut(cfg, s.log[i].time, s.log[g].time);
    var b :| b in s.access && b.jti == at.jti && b.iat * 1000 <= s.log[i].time;
    assert Handles(s, s.procs[q]);
    SecondsPass(at.iat, s.log[i].time, cfg.blockTtl, s.log[g].time);
  }

  lemma SecondsPass(iat: nat, t: nat, ttl: nat, now: nat)
    requires iat * 1000 <= t && t + 1000 * ttl <= now
    ensures iat + ttl <= now / 1000
  {
  }

  /** The blocklist stops a token only when that very token was logged out before. */
  lemma OnlyTheLoggedOutTokenIsBlocked(cfg: Config, r: seq<State>, n: nat, q: Pid, at: AccessToken, g: nat)
    returns (i: nat)
    requires IsRun(cfg, r) && n < |r| && q in r[n].procs && r[n].procs[q] == Done(Rejected(at))
    requires BlockReadOf(r[n].log, g, q) && Truthy(r[n].log[g].reply)
    ensures i < g && Blocks(r[n].log[i], at.jti)
    ensures forall b :: b in r[n].access && Blocks(r[n].log[i], b.jti) ==> b == at
  {
    RunInv(cfg, r, n);
    var s := r[n];
    assert Accounts(cfg, s.log[g], s.procs[q]) && Handles(s, s.procs[q]);
    i :| 0 <= i < g && Blocks(s.log[i], at.jti);
  }

  /** Whether an entry written at `t` is still there at `now`. */
  predicate EntryAlive(cfg: Config, t: nat, now: nat) {
    !RunOut(cfg, t, now)
  }

  /**
   The condition above is exact: entries cover their tokens for the rest of the tokens' lives, whenever
   the token was signed and logged out, if and only if the time to live is 0 or reaches the lifetime.
   */
  lemma EntriesCoverTokensExactly(cfg: Config)
    ensures (forall at: AccessToken, t: nat, now: nat ::
               at.iat * 1000 <= t <= now && !Expired(cfg, at, now) ==> EntryAlive(cfg, t, now))
            <==> cfg.blockTtl == 0 || cfg.accessLifetime <= cfg.blockTtl
  {
    if 0 < cfg.blockTtl < cfg.accessLifetime {
      var at, now := AccessToken(0, "", 0, 0), 1000 * cfg.blockTtl;
      assert !Expired(cfg, at, now) && !EntryAlive(cfg, 0, now);
    } else {
      forall at: AccessToken, t: nat, now: nat |
        at.iat * 1000 <= t <= now && !Expired(cfg, at, now) ensures EntryAlive(cfg, t, now)
      {
        if RunOut(cfg, t, now) {
          SecondsPass(at.iat, t, cfg.blockTtl, now);
        }
      }
    }
  }
}
