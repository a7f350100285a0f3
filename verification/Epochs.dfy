/**
 The session epoch under every interleaving: what is stored, what tokens carry and what the guard
 decides, all told by the number of increments in the history.
 */
module Epochs {
  import opened Common
  import opened Redis
  import opened Keys
  import opened Sessions
  import Rotation

  predicate IsBump(e: Event, user: int) {
    Effective(e) && e.cmd == Incr(Epoch(user))
  }

  /** How often the user's sessions have been revoked. */
  function Bumps(log: seq<Event>, user: int): nat {
    if log == [] then 0
    else Bumps(log[..|log| - 1], user) + if IsBump(log[|log| - 1], user) then 1 else 0
  }

  lemma BumpsSnoc(log: seq<Event>, e: Event, user: int)
    ensures Bumps(log + [e], user) == Bumps(log, user) + if IsBump(e, user) then 1 else 0
  {
    assert (log + [e])[..|log|] == log;
  }

  /** Between two positions the count grows by the increments in between: none, exactly when it stays. */
  lemma {:induction false} BumpsBetween(log: seq<Event>, i: nat, j: nat, user: int)
    requires i <= j <= |log|
    ensures Bumps(log[..i], user) <= Bumps(log[..j], user)
    ensures Bumps(log[..i], user) < Bumps(log[..j], user) <==> exists b :: i <= b < j && IsBump(log[b], user)
    decreases j
  {
    if i < j {
      BumpsBetween(log, i, j - 1, user);
      assert log[..j] == log[..j - 1] + [log[j - 1]];
      BumpsSnoc(log[..j - 1], log[j - 1], user);
    }
  }

  predicate ReadsEpoch(e: Event) {
    e.cmd.Get? && e.cmd.key.Epoch?
  }

  /** The epoch a request took from its own read. */
  function EpochSeen(e: Event): int {
    NumberOf(Seen(e.out, e.reply))
  }

  // ----- The invariant

  predicate StoredFor(s: State, user: int) {
    if Bumps(s.log, user) == 0 then Epoch(user) !in s.db.kv
    else Epoch(user) in s.db.kv && s.db.kv[Epoch(user)] == Entry(Num(Bumps(s.log, user)), None)
  }

  ghost predicate EpochStored(s: State) {
    forall user :: StoredFor(s, user)
  }

  /** An answered read saw the number of increments before it. */
  ghost predicate ReadsExact(log: seq<Event>) {
    forall i :: 0 <= i < |log| && ReadsEpoch(log[i]) && log[i].out.Answered? ==>
      EpochSeen(log[i]) == Bumps(log[..i], log[i].cmd.key.user)
  }

  /** Every read, answered or not, is one of no more than the increments before it. */
  ghost predicate ReadsBelow(log: seq<Event>) {
    forall i :: 0 <= i < |log| && ReadsEpoch(log[i]) ==>
      EpochSeen(log[i]) <= Bumps(log[..i], log[i].cmd.key.user)
  }

  /** The epoch reads of request `p` in the history are those its program counter accounts for. */
  predicate Accounts(e: Event, pc: Pc)
    requires ReadsEpoch(e)
  {
    match pc
    case LoginSign(rt, epoch) => e.cmd.key.user == rt.sub && EpochSeen(e) == epoch
    case RefreshSign(rt, next, epoch) => rt.sub == next.sub == e.cmd.key.user && EpochSeen(e) == epoch
    case Done(LoggedIn(at, rt)) => e.cmd.key.user == at.sub && EpochSeen(e) == at.epoch
    case Done(Refreshed(_, at, rt)) => e.cmd.key.user == at.sub && EpochSeen(e) == at.epoch
    case Done(Accepted(at)) => e.cmd.key.user == at.sub && EpochSeen(e) <= at.epoch
    case Done(Rejected(at)) => e.cmd.key.user == at.sub && EpochSeen(e) > at.epoch
    case Done(_) => true
    case _ => false
  }

  ghost predicate ReadsAccounted(s: State) {
    forall i :: 0 <= i < |s.log| ==>
      s.log[i].pid in s.procs && (ReadsEpoch(s.log[i]) ==> Accounts(s.log[i], s.procs[s.log[i].pid]))
  }

  /** Refresh keeps the subject of the token it replaces. */
  ghost predicate SameSubject(s: State) {
    forall p :: p in s.procs ==>
      match s.procs[p]
      case RefreshLoad(rt, next) => next.sub == rt.sub
      case RefreshEpoch(rt, next) => next.sub == rt.sub
      case RefreshSign(rt, next, _) => next.sub == rt.sub
      case _ => true
  }

  ghost predicate TokensBounded(s: State) {
    forall at :: at in s.access ==> at.epoch <= Bumps(s.log, at.sub)
  }

  /** An epoch on its way into a token is one the store has reached. */
  predicate Bounded(log: seq<Event>, pc: Pc) {
    match pc
    case LoginSign(rt, epoch) => epoch <= Bumps(log, rt.sub)
    case RefreshSign(rt, _, epoch) => epoch <= Bumps(log, rt.sub)
    case _ => true
  }

  ghost predicate RequestsBounded(s: State) {
    forall p :: p in s.procs ==> Bounded(s.log, s.procs[p])
  }

  ghost predicate Inv(s: State) {
    && EpochStored(s)
    && ReadsExact(s.log) && ReadsBelow(s.log)
    && ReadsAccounted(s) && SameSubject(s)
    && TokensBounded(s) && RequestsBounded(s)
  }

  // ----- Steps

  /** Epoch keys are only read and incremented. */
  predicate LeavesEpoch(cmd: Cmd<Key>, user: int) {
    && (cmd.Set? || cmd.Expire? || cmd.CompareAndSet? ==> cmd.key != Epoch(user))
    && (cmd.Del? ==> Epoch(user) !in cmd.keys)
    && !cmd.AcquireLock? && !cmd.ReleaseLock?
  }

  lemma EpochDiscipline(cfg: Config, s: State, p: Pid, ch: Choice, user: int)
    requires Rotation.Inv(s) && p in s.procs
    ensures LeavesEpoch(CmdOf(cfg, s.procs[p], ch), user)
  {
    assert Rotation.Carries(s, s.procs[p]);
  }

  lemma EpochEffect(s: State, t: State, e: Event, user: int)
    requires StoredFor(s, user) && LeavesEpoch(e.cmd, user)
    requires (t.db, e.reply) == Send(s.db, Effective(e), e.cmd) && t.log == s.log + [e]
    ensures StoredFor(t, user)
  {
    BumpsSnoc(s.log, e, user);
  }

  lemma StoredForKept(cfg: Config, s: State, p: Pid, out: Outcome, ch: Choice, user: int)
    requires Rotation.Inv(s) && StoredFor(s, user) && Enabled(cfg, s, Exec(p, out, ch))
    ensures StoredFor(ExecStep(cfg, s, p, out, ch), user)
  {
    var t := ExecStep(cfg, s, p, out, ch);
    EpochDiscipline(cfg, s, p, ch, user);
    EpochEffect(s, t, t.log[|s.log|], user);
  }

  lemma ReadsKept(cfg: Config, s: State, p: Pid, out: Outcome, ch: Choice)
    requires EpochStored(s) && ReadsExact(s.log) && ReadsBelow(s.log) && Enabled(cfg, s, Exec(p, out, ch))
    ensures ReadsExact(ExecStep(cfg, s, p, out, ch).log) && ReadsBelow(ExecStep(cfg, s, p, out, ch).log)
  {
    var t := ExecStep(cfg, s, p, out, ch);
    var e := t.log[|s.log|];
    assert t.log == s.log + [e];
    forall i | 0 <= i < |t.log| && ReadsEpoch(t.log[i])
      ensures EpochSeen(t.log[i]) <= Bumps(t.log[..i], t.log[i].cmd.key.user)
      ensures t.log[i].out.Answered? ==> EpochSeen(t.log[i]) == Bumps(t.log[..i], t.log[i].cmd.key.user)
    {
      if i < |s.log| {
        assert t.log[..i] == s.log[..i] && t.log[i] == s.log[i];
      } else {
        assert t.log[..i] == s.log;
        assert StoredFor(s, e.cmd.key.user);
      }
    }
  }

  lemma AccountsKept(cfg: Config, s: State, p: Pid, out: Outcome, ch: Choice)
    requires ReadsAccounted(s) && SameSubject(s) && Enabled(cfg, s, Exec(p, out, ch))
    ensures ReadsAccounted(ExecStep(cfg, s, p, out, ch)) && SameSubject(ExecStep(cfg, s, p, out, ch))
  {
    var t := ExecStep(cfg, s, p, out, ch);
    var e := t.log[|s.log|];
    assert t.log == s.log + [e];
    forall i | 0 <= i < |t.log|
      ensures t.log[i].pid in t.procs && (ReadsEpoch(t.log[i]) ==> Accounts(t.log[i], t.procs[t.log[i].pid]))
    {
      if i < |s.log| {
        assert t.log[i] == s.log[i];
      }
    }
  }

  lemma BumpsGrow(cfg: Config, s: State, p: Pid, out: Outcome, ch: Choice, user: int)
    requires Enabled(cfg, s, Exec(p, out, ch))
    ensures Bumps(s.log, user) <= Bumps(ExecStep(cfg, s, p, out, ch).log, user)
  {
    BumpsSnoc(s.log, ExecStep(cfg, s, p, out, ch).log[|s.log|], user);
  }

  lemma RunnerBounded(cfg: Config, s: State, p: Pid, out: Outcome, ch: Choice)
    requires RequestsBounded(s) && EpochStored(s) && SameSubject(s) && Enabled(cfg, s, Exec(p, out, ch))
    ensures var t := ExecStep(cfg, s, p, out, ch); Bounded(t.log, t.procs[p])
  {
    var pc := s.procs[p];
    if pc.LoginEpoch? || pc.RefreshEpoch? {
      ReadBounded(cfg, s, p, out, ch);
    }
  }

  lemma ReadBounded(cfg: Config, s: State, p: Pid, out: Outcome, ch: Choice)
    requires EpochStored(s) && Enabled(cfg, s, Exec(p, out, ch)) && SameSubject(s)
    requires s.procs[p].LoginEpoch? || s.procs[p].RefreshEpoch?
    ensures var t := ExecStep(cfg, s, p, out, ch); Bounded(t.log, t.procs[p])
  {
    assert StoredFor(s, s.procs[p].rt.sub);
    BumpsGrow(cfg, s, p, out, ch, s.procs[p].rt.sub);
  }

  lemma NewTokenBounded(cfg: Config, s: State, p: Pid, out: Outcome, ch: Choice, at: AccessToken)
    requires RequestsBounded(s) && Enabled(cfg, s, Exec(p, out, ch))
    requires at in AccessOf(ExecStep(cfg, s, p, out, ch).procs[p])
    ensures at.epoch <= Bumps(s.log, at.sub)
  {
    assert Bounded(s.log, s.procs[p]);
  }

  lemma BoundsKept(cfg: Config, s: State, p: Pid, out: Outcome, ch: Choice)
    requires TokensBounded(s) && RequestsBounded(s) && EpochStored(s) && SameSubject(s)
    requires Enabled(cfg, s, Exec(p, out, ch))
    ensures TokensBounded(ExecStep(cfg, s, p, out, ch)) && RequestsBounded(ExecStep(cfg, s, p, out, ch))
  {
    var t := ExecStep(cfg, s, p, out, ch);
    forall at | at in t.access ensures at.epoch <= Bumps(t.log, at.sub) {
      if at !in s.access { NewTokenBounded(cfg, s, p, out, ch, at); }
      BumpsGrow(cfg, s, p, out, ch, at.sub);
    }
    forall q | q in t.procs ensures Bounded(t.log, t.procs[q]) {
      if q == p {
        RunnerBounded(cfg, s, p, out, ch);
      } else {
        assert Bounded(s.log, s.procs[q]);
        if s.procs[q].LoginSign? || s.procs[q].RefreshSign? { BumpsGrow(cfg, s, p, out, ch, s.procs[q].rt.sub); }
      }
    }
  }

  lemma StepKeepsInv(cfg: Config, s: State, t: State)
    requires Rotation.Inv(s) && Inv(s) && Next(cfg, s, t)
    ensures Inv(t)
  {
    var a :| Enabled(cfg, s, a) && t == Step(cfg, s, a);
    if a.Exec? {
      forall user ensures StoredFor(t, user) {
        StoredForKept(cfg, s, a.pid, a.out, a.ch, user);
      }
      ReadsKept(cfg, s, a.pid, a.out, a.ch);
      AccountsKept(cfg, s, a.pid, a.out, a.ch);
      BoundsKept(cfg, s, a.pid, a.out, a.ch);
    } else {
      QuietKeepsInv(cfg, s, a);
    }
  }

  lemma QuietKeepsInv(cfg: Config, s: State, a: Action)
    requires Inv(s) && Enabled(cfg, s, a) && !a.Exec?
    ensures Inv(Step(cfg, s, a))
  {
    OtherStepsAreQuiet(cfg, s, a);
    QuietStored(cfg, s, a);
    QuietAccounts(cfg, s, a);
    QuietBounds(cfg, s, a);
  }

  lemma QuietStored(cfg: Config, s: State, a: Action)
    requires EpochStored(s) && Enabled(cfg, s, a) && !a.Exec?
    ensures EpochStored(Step(cfg, s, a))
  {
    OtherStepsAreQuiet(cfg, s, a);
    forall user ensures StoredFor(Step(cfg, s, a), user) {
      assert StoredFor(s, user);
    }
  }

  lemma QuietAccounts(cfg: Config, s: State, a: Action)
    requires ReadsAccounted(s) && SameSubject(s) && Enabled(cfg, s, a) && !a.Exec?
    ensures ReadsAccounted(Step(cfg, s, a)) && SameSubject(Step(cfg, s, a))
  {
    OtherStepsAreQuiet(cfg, s, a);
  }

  lemma QuietBounds(cfg: Config, s: State, a: Action)
    requires TokensBounded(s) && RequestsBounded(s) && Enabled(cfg, s, a) && !a.Exec?
    ensures TokensBounded(Step(cfg, s, a)) && RequestsBounded(Step(cfg, s, a))
  {
    OtherStepsAreQuiet(cfg, s, a);
    var t := Step(cfg, s, a);
    forall q | q in t.procs ensures Bounded(t.log, t.procs[q]) {
      if q in s.procs { assert Bounded(s.log, s.procs[q]); }
    }
  }

  lemma {:induction false} RunInv(cfg: Config, r: seq<State>, n: nat)
    requires IsRun(cfg, r) && n < |r|
    ensures Inv(r[n])
    decreases n
  {
    if n > 0 {
      RunInv(cfg, r, n - 1);
      Rotation.RunInv(cfg, r, n - 1);
      RunStep(cfg, r, n);
      StepKeepsInv(cfg, r[n - 1], r[n]);
    }
  }
}
