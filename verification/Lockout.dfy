/** The login failure counter under every interleaving: how far it can go, and when it loses its time limit. */
module Lockout {
  import opened Common
  import opened Redis
  import opened Keys
  import opened Sessions
  import Rotation

  /** The login has passed the lock check and not yet counted or cleared its attempt. */
  predicate Flying(pc: Pc, email: string) {
    (pc.LoginVerify? || pc.LoginMiss? || pc.LoginClear?) && pc.email == email
  }

  function InFlight(s: State, email: string): set<Pid> {
    set p | p in s.procs && Flying(s.procs[p], email)
  }

  function Count(db: Db<Key>, email: string): int {
    if LoginFail(email) in db.kv && db.kv[LoginFail(email)].value.Num? then db.kv[LoginFail(email)].value.n else 0
  }

  // ----- The bound

  ghost predicate CounterIsNumber(s: State) {
    forall email :: LoginFail(email) in s.db.kv ==>
      s.db.kv[LoginFail(email)].value.Num? && s.db.kv[LoginFail(email)].value.n >= 0
  }

  /** The lock checks for `email` were all answered; an unanswered one lets the login pass. */
  ghost predicate ChecksAnswered(log: seq<Event>, email: string) {
    forall i :: 0 <= i < |log| && log[i].cmd == Get(LoginFail(email)) ==> log[i].out.Answered?
  }

  predicate WithinBound(cfg: Config, s: State, email: string, c: nat) {
    Count(s.db, email) + |InFlight(s, email)| <= cfg.maxAttempts - 1 + c
  }

  /** Failure counters are only read, incremented, expired and deleted. */
  predicate LeavesCounters(cmd: Cmd<Key>) {
    && (cmd.Set? || cmd.CompareAndSet? ==> !cmd.key.LoginFail?)
    && !cmd.AcquireLock? && !cmd.ReleaseLock?
  }

  lemma CounterDiscipline(cfg: Config, s: State, p: Pid, ch: Choice)
    requires Rotation.Inv(s) && p in s.procs
    ensures LeavesCounters(CmdOf(cfg, s.procs[p], ch))
    ensures var cmd := CmdOf(cfg, s.procs[p], ch);
            cmd.Del? && !s.procs[p].LoginClear? ==> forall k :: k in cmd.keys ==> !k.LoginFail?
  {
    assert Rotation.Carries(s, s.procs[p]);
  }

  lemma CounterEffect(s: State, t: State, ready: bool, cmd: Cmd<Key>, email: string)
    requires CounterIsNumber(s) && LeavesCounters(cmd) && t.db == Send(s.db, ready, cmd).0
    ensures CounterIsNumber(t)
    ensures 0 <= Count(t.db, email) <= Count(s.db, email) + if cmd == Incr(LoginFail(email)) then 1 else 0
  {
  }

  lemma FlightSet(s: State, t: State, p: Pid, email: string)
    requires p in t.procs && t.procs == s.procs[p := t.procs[p]]
    ensures InFlight(t, email) ==
            if Flying(t.procs[p], email) then InFlight(s, email) + {p} else InFlight(s, email) - {p}
    ensures p in InFlight(s, email) <==> p in s.procs && Flying(s.procs[p], email)
  {
  }

  /** The flight set changes by at most the request that moved. */
  lemma FlightMoves(s: State, t: State, p: Pid, email: string)
    requires p in t.procs && t.procs == s.procs[p := t.procs[p]]
    ensures var was := p in s.procs && Flying(s.procs[p], email);
            |InFlight(t, email)| ==
            |InFlight(s, email)| + (if Flying(t.procs[p], email) then 1 else 0) - if was then 1 else 0
  {
    FlightSet(s, t, p, email);
  }

  lemma ExecKeepsBound(cfg: Config, s: State, p: Pid, out: Outcome, ch: Choice, email: string, c: nat)
    requires Rotation.Inv(s) && CounterIsNumber(s) && Enabled(cfg, s, Exec(p, out, ch))
    requires WithinBound(cfg, s, email, c) && cfg.maxAttempts >= 1
    requires var t := ExecStep(cfg, s, p, out, ch); |InFlight(t, email)| <= c && ChecksAnswered(t.log, email)
    ensures WithinBound(cfg, ExecStep(cfg, s, p, out, ch), email, c)
  {
    var t := ExecStep(cfg, s, p, out, ch);
    var pc, cmd := s.procs[p], CmdOf(cfg, s.procs[p], ch);
    CounterDiscipline(cfg, s, p, ch);
    CounterEffect(s, t, !out.Skipped?, cmd, email);
    FlightMoves(s, t, p, email);
    if pc == LoginCheck(email) {
      assert t.log[|s.log|].cmd == Get(LoginFail(email));
      assert out.Answered?;
    }
  }

  ghost predicate BoundInv(cfg: Config, s: State, email: string, c: nat) {
    CounterIsNumber(s) && WithinBound(cfg, s, email, c)
  }

  lemma StepKeepsBound(cfg: Config, s: State, t: State, email: string, c: nat)
    requires Rotation.Inv(s) && BoundInv(cfg, s, email, c) && Next(cfg, s, t) && cfg.maxAttempts >= 1
    requires |InFlight(t, email)| <= c && ChecksAnswered(t.log, email)
    ensures BoundInv(cfg, t, email, c)
  {
    var a :| Enabled(cfg, s, a) && t == Step(cfg, s, a);
    if a.Exec? {
      CounterDiscipline(cfg, s, a.pid, a.ch);
      CounterEffect(s, t, !a.out.Skipped?, CmdOf(cfg, s.procs[a.pid], a.ch), email);
      ExecKeepsBound(cfg, s, a.pid, a.out, a.ch, email, c);
    } else {
      OtherStepsAreQuiet(cfg, s, a);
      if a.Elapse? {
        assert InFlight(t, email) == InFlight(s, email);
      } else {
        FlightMoves(s, t, a.pid, email);
      }
    }
  }

  lemma ChecksOfPrefix(a: seq<Event>, b: seq<Event>, email: string)
    requires a <= b && ChecksAnswered(b, email)
    ensures ChecksAnswered(a, email)
  {
    forall i | 0 <= i < |a| && a[i].cmd == Get(LoginFail(email)) ensures a[i].out.Answered? {
      assert b[i] == a[i];
    }
  }

  /**
   Lockout bound. If never more than `c` logins for an email are between their lock check and their
   count, the stored failure count never exceeds the maximum by more than c - 1.
   */
  lemma {:induction false} FailuresStayBounded(cfg: Config, r: seq<State>, n: nat, email: string, c: nat)
    requires IsRun(cfg, r) && n < |r| && cfg.maxAttempts >= 1
    requires forall m :: 0 <= m <= n ==> |InFlight(r[m], email)| <= c
    requires ChecksAnswered(r[n].log, email)
    ensures BoundInv(cfg, r[n], email, c)
    ensures Count(r[n].db, email) <= cfg.maxAttempts - 1 + c
    decreases n
  {
    if n > 0 {
      RunGrows(cfg, r, n - 1, n);
      ChecksOfPrefix(r[n - 1].log, r[n].log, email);
      FailuresStayBounded(cfg, r, n - 1, email, c);
      Rotation.RunInv(cfg, r, n - 1);
      RunStep(cfg, r, n);
      StepKeepsBound(cfg, r[n - 1], r[n], email, c);
    }
  }

  // ----- The time limit

  predicate Creates(e: Event, email: string) {
    Effective(e) && e.cmd == Incr(LoginFail(email)) && e.reply == Int(1)
  }

  /** The increment that created the counter's present incarnation. */
  function Creation(log: seq<Event>, email: string): (i: Option<nat>)
    ensures i.Some? ==> i.value < |log| && Creates(log[i.value], email)
  {
    if log == [] then None
    else if Creates(log[|log| - 1], email) then Some(|log| - 1)
    else Creation(log[..|log| - 1], email)
  }

  /** After position `i`, the EXPIRE of request `p` was not sent. */
  ghost predicate LimitNotSent(log: seq<Event>, i: nat, p: Pid, email: string) {
    exists j :: i < j < |log| && log[j].pid == p && log[j].cmd.Expire? && log[j].cmd.key == LoginFail(email)
                && log[j].out.Skipped?
  }

  /**
   Why the counter may be without a time limit: the login that created it is about to set the limit, or it
   crashed just then, or its EXPIRE was not sent, or it never learned that its increment was the first.
   */
  ghost predicate LimitPending(s: State, email: string) {
    LoginFail(email) in s.db.kv && s.db.kv[LoginFail(email)].expiresAt.None? ==>
      var c := Creation(s.log, email);
      c.Some? && Excused(s, c.value, email)
  }

  ghost predicate Excused(s: State, i: nat, email: string)
    requires i < |s.log|
  {
    var p := s.log[i].pid;
    p in s.procs
    && (s.procs[p] == LoginArm(email)
        || s.procs[p] == Done(Failed)
        || LimitNotSent(s.log, i, p, email)
        || s.log[i].out.Lost?)
  }

  lemma LimitEffect(cfg: Config, s: State, p: Pid, out: Outcome, ch: Choice, email: string)
    requires Rotation.Inv(s) && CounterIsNumber(s) && Enabled(cfg, s, Exec(p, out, ch)) && LimitPending(s, email)
    ensures LimitPending(ExecStep(cfg, s, p, out, ch), email)
  {
    var t := ExecStep(cfg, s, p, out, ch);
    var cmd := CmdOf(cfg, s.procs[p], ch);
    CounterDiscipline(cfg, s, p, ch);
    if LoginFail(email) in t.db.kv && t.db.kv[LoginFail(email)].expiresAt.None? {
      if cmd == Incr(LoginFail(email)) && !out.Skipped? {
        LimitOfCount(cfg, s, p, out, ch, email);
      } else {
        LimitUntouched(s, t, !out.Skipped?, cmd, email);
        ExcuseKept(cfg, s, p, out, ch, email);
      }
    }
  }

  /** The count that creates the counter goes on to limit it; a later one finds it limited or excused. */
  lemma LimitOfCount(cfg: Config, s: State, p: Pid, out: Outcome, ch: Choice, email: string)
    requires CounterIsNumber(s) && Enabled(cfg, s, Exec(p, out, ch)) && LimitPending(s, email)
    requires CmdOf(cfg, s.procs[p], ch) == Incr(LoginFail(email)) && !out.Skipped?
    ensures LimitPending(ExecStep(cfg, s, p, out, ch), email)
  {
    var t := ExecStep(cfg, s, p, out, ch);
    assert t.log[..|s.log|] == s.log;
    assert s.procs[p] == LoginMiss(email);
    if t.log[|s.log|].reply != Int(1) && LoginFail(email) in s.db.kv && s.db.kv[LoginFail(email)].expiresAt.None? {
      ExcuseKept(cfg, s, p, out, ch, email);
    }
  }

  /** A step that does not limit the counter leaves its creator's excuse standing, or gives it one. */
  lemma ExcuseKept(cfg: Config, s: State, p: Pid, out: Outcome, ch: Choice, email: string)
    requires Enabled(cfg, s, Exec(p, out, ch))
    requires var cmd := CmdOf(cfg, s.procs[p], ch); cmd.Expire? && cmd.key == LoginFail(email) ==> out.Skipped?
    requires var c := Creation(s.log, email); c.Some? && Excused(s, c.value, email)
    requires var t := ExecStep(cfg, s, p, out, ch); !Creates(t.log[|s.log|], email)
    ensures var t := ExecStep(cfg, s, p, out, ch);
            Creation(t.log, email) == Creation(s.log, email) && Excused(t, Creation(t.log, email).value, email)
  {
    var t := ExecStep(cfg, s, p, out, ch);
    var i := Creation(s.log, email).value;
    assert t.log[..|s.log|] == s.log;
    if LimitNotSent(s.log, i, s.log[i].pid, email) {
      var j :| i < j < |s.log| && s.log[j].pid == s.log[i].pid && s.log[j].cmd.Expire?
               && s.log[j].cmd.key == LoginFail(email) && s.log[j].out.Skipped?;
      assert t.log[j] == s.log[j];
    } else if p == s.log[i].pid && s.procs[p] == LoginArm(email) {
      var e := t.log[|s.log|];
      assert e.pid == p && e.cmd.Expire? && e.cmd.key == LoginFail(email) && e.out.Skipped?;
    }
  }

  lemma LimitUntouched(s: State, t: State, ready: bool, cmd: Cmd<Key>, email: string)
    requires LeavesCounters(cmd) && t.db == Send(s.db, ready, cmd).0
    requires cmd != Incr(LoginFail(email)) || !ready
    requires LoginFail(email) in t.db.kv && t.db.kv[LoginFail(email)].expiresAt.None?
    ensures LoginFail(email) in s.db.kv && s.db.kv[LoginFail(email)].expiresAt.None?
    ensures ready && cmd.Expire? ==> cmd.key != LoginFail(email)
  {
  }

  lemma StepKeepsLimit(cfg: Config, s: State, t: State, email: string)
    requires Rotation.Inv(s) && CounterIsNumber(s) && LimitPending(s, email) && Next(cfg, s, t)
    ensures LimitPending(t, email) && CounterIsNumber(t)
  {
    var a :| Enabled(cfg, s, a) && t == Step(cfg, s, a);
    if a.Exec? {
      CounterDiscipline(cfg, s, a.pid, a.ch);
      CounterEffect(s, t, !a.out.Skipped?, CmdOf(cfg, s.procs[a.pid], a.ch), email);
      LimitEffect(cfg, s, a.pid, a.out, a.ch, email);
    } else {
      QuietLimit(cfg, s, a, email);
    }
  }

  lemma QuietLimit(cfg: Config, s: State, a: Action, email: string)
    requires CounterIsNumber(s) && LimitPending(s, email) && Enabled(cfg, s, a) && !a.Exec?
    ensures LimitPending(Step(cfg, s, a), email) && CounterIsNumber(Step(cfg, s, a))
  {
    OtherStepsAreQuiet(cfg, s, a);
  }

  /**
   The failure counter is never left without a time limit, except for exactly the reasons of `Excused`, which
   concern the creating login's last two commands.
   */
  lemma {:induction false} CounterIsNeverImmortal(cfg: Config, r: seq<State>, n: nat, email: string)
    requires IsRun(cfg, r) && n < |r|
    ensures LimitPending(r[n], email) && CounterIsNumber(r[n])
    decreases n
  {
    if n > 0 {
      CounterIsNeverImmortal(cfg, r, n - 1, email);
      Rotation.RunInv(cfg, r, n - 1);
      RunStep(cfg, r, n);
      StepKeepsLimit(cfg, r[n - 1], r[n], email);
    }
  }

  // ----- Exactly when the counter has no time limit

  /** After position `i`, an EXPIRE of the counter took effect, whoever sent it. */
  ghost predicate LimitTook(log: seq<Event>, i: nat, email: string) {
    exists j :: i < j < |log| && Effective(log[j]) && log[j].cmd.Expire? && log[j].cmd.key == LoginFail(email)
  }

  ghost predicate LimitExact(s: State, email: string) {
    LoginFail(email) in s.db.kv ==>
      && s.db.kv[LoginFail(email)].value.Num? && s.db.kv[LoginFail(email)].value.n > 0
      && var c := Creation(s.log, email);
         c.Some? && (s.db.kv[LoginFail(email)].expiresAt.None? <==> !LimitTook(s.log, c.value, email))
  }

  lemma LimitTookGrows(log: seq<Event>, e: Event, i: nat, email: string)
    requires i < |log|
    ensures LimitTook(log + [e], i, email)
            <==> LimitTook(log, i, email) || (Effective(e) && e.cmd.Expire? && e.cmd.key == LoginFail(email))
  {
    var longer := log + [e];
    assert longer[|log|] == e;
    if j :| i < j < |log| && Effective(log[j]) && log[j].cmd.Expire? && log[j].cmd.key == LoginFail(email) {
      assert longer[j] == log[j];
    }
  }

  /** What a command that leaves a counter behind has done with it. */
  lemma CounterAfter(db: Db<Key>, ready: bool, cmd: Cmd<Key>, email: string)
    requires LeavesCounters(cmd)
    requires LoginFail(email) in db.kv ==> db.kv[LoginFail(email)].value.Num? && db.kv[LoginFail(email)].value.n > 0
    ensures var k, (after, r) := LoginFail(email), Send(db, ready, cmd);
            k in after.kv ==>
              && after.kv[k].value.Num? && after.kv[k].value.n > 0
              && (k !in db.kv ==> ready && cmd == Incr(k) && r == Int(1) && after.kv[k].expiresAt.None?)
              && (k in db.kv ==> !(ready && cmd == Incr(k) && r == Int(1)))
              && (k in db.kv && !(ready && cmd.Expire? && cmd.key == k) ==> after.kv[k].expiresAt == db.kv[k].expiresAt)
              && (ready && cmd.Expire? && cmd.key == k ==> k in db.kv && after.kv[k].expiresAt.Some?)
  {
  }

  lemma ExecKeepsExact(cfg: Config, s: State, p: Pid, out: Outcome, ch: Choice, email: string)
    requires Rotation.Inv(s) && LimitExact(s, email) && Enabled(cfg, s, Exec(p, out, ch))
    ensures LimitExact(ExecStep(cfg, s, p, out, ch), email)
  {
    var t := ExecStep(cfg, s, p, out, ch);
    var e := t.log[|s.log|];
    CounterDiscipline(cfg, s, p, ch);
    CounterAfter(s.db, !out.Skipped?, CmdOf(cfg, s.procs[p], ch), email);
    assert t.log == s.log + [e] && t.log[..|s.log|] == s.log;
    if LoginFail(email) in t.db.kv && LoginFail(email) in s.db.kv {
      LimitTookGrows(s.log, e, Creation(s.log, email).value, email);
    }
  }

  lemma QuietExact(cfg: Config, s: State, a: Action, email: string)
    requires LimitExact(s, email) && Enabled(cfg, s, a) && !a.Exec?
    ensures LimitExact(Step(cfg, s, a), email)
  {
    OtherStepsAreQuiet(cfg, s, a);
  }

  lemma StepKeepsExact(cfg: Config, s: State, t: State, email: string)
    requires Rotation.Inv(s) && LimitExact(s, email) && Next(cfg, s, t)
    ensures LimitExact(t, email)
  {
    var a :| Enabled(cfg, s, a) && t == Step(cfg, s, a);
    if a.Exec? {
      ExecKeepsExact(cfg, s, a.pid, a.out, a.ch, email);
    } else {
      QuietExact(cfg, s, a, email);
    }
  }

  /**
   In every reachable state, a present failure counter has no time limit if and only if no EXPIRE took effect
   on it since the increment that created it.
   */
  lemma {:induction false} LimitlessExactly(cfg: Config, r: seq<State>, n: nat, email: string)
    requires IsRun(cfg, r) && n < |r|
    ensures LimitExact(r[n], email)
    decreases n
  {
    if n > 0 {
      LimitlessExactly(cfg, r, n - 1, email);
      Rotation.RunInv(cfg, r, n - 1);
      RunStep(cfg, r, n);
      StepKeepsExact(cfg, r[n - 1], r[n], email);
    }
  }
}
