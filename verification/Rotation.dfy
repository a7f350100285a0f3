/**
 Refresh token rotation under every interleaving. The history of a family is a chain of jtis: the login
 jti, then the jti installed by each accepted rotation.
 */
module Rotation {
  import opened Redis
  import opened Keys
  import opened Sessions

  function Last(c: seq<string>): string
    requires c != []
  {
    c[|c| - 1]
  }

  /** A rotation took effect: the compare-and-set found the presented jti and installed the next one. */
  predicate Won(e: Event) {
    e.cmd.CompareAndSet? && Effective(e) && e.reply == Int(1)
  }

  function Presented(e: Event): string
    requires e.cmd.CompareAndSet?
  {
    if e.cmd.expected.Text? then e.cmd.expected.s else ""
  }

  function Installed(e: Event): string
    requires e.cmd.CompareAndSet?
  {
    if e.cmd.next.Text? then e.cmd.next.s else ""
  }

  function Extend(c: seq<string>, e: Event, k: Key): seq<string> {
    if e.cmd.Set? && Effective(e) && e.cmd.key == k then [if e.cmd.value.Text? then e.cmd.value.s else ""]
    else if Won(e) && e.cmd.key == k then c + [Installed(e)]
    else c
  }

  /** The jtis a family has had, oldest first; empty until its login has stored it. */
  function Chain(log: seq<Event>, k: Key): seq<string>
  {
    if log == [] then [] else Extend(Chain(log[..|log| - 1], k), log[|log| - 1], k)
  }

  lemma ChainSnoc(log: seq<Event>, e: Event, k: Key)
    ensures Chain(log + [e], k) == Extend(Chain(log, k), e, k)
  {
    assert (log + [e])[..|log|] == log;
  }

  // ----- The invariant

  /** A stored family key holds the newest jti of its chain. */
  ghost predicate StoresNewest(s: State) {
    forall k :: k in s.db.kv && k.Rt? ==>
      Chain(s.log, k) != [] && s.db.kv[k].value == Text(Last(Chain(s.log, k)))
  }

  /** Chains are made of UUIDs handed out before. */
  ghost predicate ChainsUsed(s: State) {
    forall k: Key, i: int :: k.Rt? && 0 <= i < |Chain(s.log, k)| ==>
      Chain(s.log, k)[i] in s.used && k.family in s.used && Chain(s.log, k)[i] != ""
  }

  /** A jti occurs once in all the chains together. */
  ghost predicate JtisDistinct(log: seq<Event>) {
    forall k: Key, l: Key, i: int, j: int ::
      k.Rt? && l.Rt? && 0 <= i < |Chain(log, k)| && 0 <= j < |Chain(log, l)| && Chain(log, k)[i] == Chain(log, l)[j]
      ==> k == l && i == j
  }

  predicate Known(log: seq<Event>, rt: RefreshToken) {
    rt.jti in Chain(log, FamilyKey(rt))
  }

  /** The family was stored once and is gone. */
  predicate Dead(s: State, k: Key) {
    Chain(s.log, k) != [] && k !in s.db.kv
  }

  /** Tokens a request carries belong to their family's chain; a request that ended in refusal left it dead. */
  predicate Carries(s: State, pc: Pc) {
    match pc
    case LoginEpoch(rt) => Known(s.log, rt)
    case LoginSign(rt, _) => Known(s.log, rt)
    case RefreshSwap(rt) => Known(s.log, rt)
    case RefreshProbe(rt) => Known(s.log, rt)
    case RefreshDrop(rt) => Known(s.log, rt)
    case RefreshLoad(rt, next) => Known(s.log, rt) && Known(s.log, next)
    case RefreshOrphan(rt) => Known(s.log, rt)
    case RefreshEpoch(rt, next) => Known(s.log, rt) && Known(s.log, next)
    case RefreshSign(rt, next, _) => Known(s.log, rt) && Known(s.log, next)
    case LogoutBlock(_, family) => family.Some? ==> Known(s.log, family.value)
    case LogoutDrop(rt) => Known(s.log, rt)
    case Scanning(user, found) => forall k :: k in found ==> k.Rt? && k.user == user
    case RevokeDrop(user, found) => forall k :: k in found ==> k.Rt? && k.user == user
    case Done(Reused(rt)) => Dead(s, FamilyKey(rt))
    case Done(Invalid(rt)) => Dead(s, FamilyKey(rt))
    case Done(LoggedIn(_, rt)) => Known(s.log, rt)
    case Done(Refreshed(_, _, rt)) => Known(s.log, rt)
    case _ => true
  }

  ghost predicate RequestsCarry(s: State) {
    forall p :: p in s.procs ==> Carries(s, s.procs[p])
  }

  ghost predicate TokensKnown(s: State) {
    forall rt :: rt in s.refresh ==> Known(s.log, rt)
  }

  ghost predicate Inv(s: State) {
    && StoresNewest(s)
    && ChainsUsed(s)
    && JtisDistinct(s.log)
    && TokensKnown(s)
    && RequestsCarry(s)
  }

  lemma ChainFamilyUsed(s: State, k: Key)
    requires ChainsUsed(s) && k.Rt? && Chain(s.log, k) != []
    ensures k.family in s.used
  {
    assert Chain(s.log, k)[0] in s.used;
  }

  // ----- One command

  /** Which commands may touch family keys, and how. */
  predicate Disciplined(s: State, cmd: Cmd<Key>, ch: Choice) {
    match cmd
    case Set(k, v, _) => k.Rt? ==> k.family == ch.a && v == Text(ch.b)
    case CompareAndSet(k, expected, next, _) => k.Rt? && expected.Text? && next == Text(ch.a) && Chain(s.log, k) != []
    case Incr(k) => !k.Rt?
    case Expire(k, _) => !k.Rt?
    case AcquireLock(_, _, _) => false
    case ReleaseLock(_, _) => false
    case _ => true
  }

  lemma CommandsDisciplined(cfg: Config, s: State, p: Pid, ch: Choice)
    requires Inv(s) && p in s.procs
    ensures Disciplined(s, CmdOf(cfg, s.procs[p], ch), ch)
  {
    assert Carries(s, s.procs[p]);
  }

  ghost predicate Ran(s: State, t: State, cmd: Cmd<Key>, e: Event, ch: Choice) {
    && e.cmd == cmd
    && (t.db, e.reply) == Send(s.db, Effective(e), cmd)
    && t.log == s.log + [e]
    && t.used == s.used + {ch.a, ch.b, ch.c}
    && Fresh(s, ch)
  }

  /** How a command extends each chain. */
  lemma ChainsAfter(s: State, t: State, cmd: Cmd<Key>, e: Event, ch: Choice, k: Key)
    requires Inv(s) && Disciplined(s, cmd, ch) && Ran(s, t, cmd, e, ch) && k.Rt?
    ensures Chain(t.log, k) == Chain(s.log, k)
            || (Chain(t.log, k) == [ch.b] && Chain(s.log, k) == [] && k.family == ch.a)
            || (Chain(s.log, k) != [] && Chain(t.log, k) == Chain(s.log, k) + [ch.a] && Won(e) && e.cmd.key == k)
    ensures Chain(s.log, k) <= Chain(t.log, k)
  {
    ChainSnoc(s.log, e, k);
    if Chain(s.log, k) != [] {
      assert Chain(s.log, k)[0] in s.used && k.family in s.used;
    }
  }

  lemma StoresNewestKept(s: State, t: State, cmd: Cmd<Key>, e: Event, ch: Choice)
    requires Inv(s) && Disciplined(s, cmd, ch) && Ran(s, t, cmd, e, ch)
    ensures StoresNewest(t)
  {
    forall k | k in t.db.kv && k.Rt?
      ensures Chain(t.log, k) != [] && t.db.kv[k].value == Text(Last(Chain(t.log, k)))
    {
      ChainSnoc(s.log, e, k);
    }
  }

  lemma ChainsUsedKept(s: State, t: State, cmd: Cmd<Key>, e: Event, ch: Choice)
    requires Inv(s) && Disciplined(s, cmd, ch) && Ran(s, t, cmd, e, ch)
    ensures ChainsUsed(t)
  {
    forall k: Key, i: int | k.Rt? && 0 <= i < |Chain(t.log, k)|
      ensures Chain(t.log, k)[i] in t.used && k.family in t.used && Chain(t.log, k)[i] != ""
    {
      ChainsAfter(s, t, cmd, e, ch, k);
      if i < |Chain(s.log, k)| {
        assert Chain(t.log, k)[i] == Chain(s.log, k)[i];
      } else if Chain(s.log, k) != [] {
        assert Chain(s.log, k)[0] in s.used;
      }
    }
  }

  lemma JtisDistinctKept(s: State, t: State, cmd: Cmd<Key>, e: Event, ch: Choice)
    requires Inv(s) && Disciplined(s, cmd, ch) && Ran(s, t, cmd, e, ch)
    ensures JtisDistinct(t.log)
  {
    forall k: Key, l: Key, i: int, j: int |
      k.Rt? && l.Rt? && 0 <= i < |Chain(t.log, k)| && 0 <= j < |Chain(t.log, l)| && Chain(t.log, k)[i] == Chain(t.log, l)[j]
      ensures k == l && i == j
    {
      ChainsAfter(s, t, cmd, e, ch, k);
      ChainsAfter(s, t, cmd, e, ch, l);
      if i < |Chain(s.log, k)| { assert Chain(t.log, k)[i] == Chain(s.log, k)[i]; }
      if j < |Chain(s.log, l)| { assert Chain(t.log, l)[j] == Chain(s.log, l)[j]; }
    }
  }

  /** A family that is gone stays gone: only a login creates one, and always under a new UUID. */
  lemma DeadStaysDead(s: State, t: State, cmd: Cmd<Key>, e: Event, ch: Choice, k: Key)
    requires Inv(s) && Disciplined(s, cmd, ch) && Ran(s, t, cmd, e, ch)
    requires k.Rt? && Dead(s, k)
    ensures Dead(t, k)
  {
    ChainsAfter(s, t, cmd, e, ch, k);
    assert Chain(s.log, k)[0] in s.used && k.family in s.used;
  }

  lemma KnownStaysKnown(s: State, t: State, cmd: Cmd<Key>, e: Event, ch: Choice, rt: RefreshToken)
    requires Inv(s) && Disciplined(s, cmd, ch) && Ran(s, t, cmd, e, ch)
    requires Known(s.log, rt)
    ensures Known(t.log, rt)
  {
    ChainsAfter(s, t, cmd, e, ch, FamilyKey(rt));
  }

  lemma CarriesKept(s: State, t: State, cmd: Cmd<Key>, e: Event, ch: Choice, pc: Pc)
    requires Inv(s) && Disciplined(s, cmd, ch) && Ran(s, t, cmd, e, ch)
    requires Carries(s, pc)
    ensures Carries(t, pc)
  {
    match pc
    case LoginEpoch(rt) => KnownStaysKnown(s, t, cmd, e, ch, rt);
    case LoginSign(rt, _) => KnownStaysKnown(s, t, cmd, e, ch, rt);
    case RefreshSwap(rt) => KnownStaysKnown(s, t, cmd, e, ch, rt);
    case RefreshProbe(rt) => KnownStaysKnown(s, t, cmd, e, ch, rt);
    case RefreshDrop(rt) => KnownStaysKnown(s, t, cmd, e, ch, rt);
    case RefreshLoad(rt, next) =>
      KnownStaysKnown(s, t, cmd, e, ch, rt);
      KnownStaysKnown(s, t, cmd, e, ch, next);
    case RefreshOrphan(rt) => KnownStaysKnown(s, t, cmd, e, ch, rt);
    case RefreshEpoch(rt, next) =>
      KnownStaysKnown(s, t, cmd, e, ch, rt);
      KnownStaysKnown(s, t, cmd, e, ch, next);
    case RefreshSign(rt, next, _) =>
      KnownStaysKnown(s, t, cmd, e, ch, rt);
      KnownStaysKnown(s, t, cmd, e, ch, next);
    case LogoutBlock(_, family) =>
      if family.Some? { KnownStaysKnown(s, t, cmd, e, ch, family.value); }
    case LogoutDrop(rt) => KnownStaysKnown(s, t, cmd, e, ch, rt);
    case Done(Reused(rt)) => DeadStaysDead(s, t, cmd, e, ch, FamilyKey(rt));
    case Done(Invalid(rt)) => DeadStaysDead(s, t, cmd, e, ch, FamilyKey(rt));
    case Done(LoggedIn(_, rt)) => KnownStaysKnown(s, t, cmd, e, ch, rt);
    case Done(Refreshed(_, _, rt)) => KnownStaysKnown(s, t, cmd, e, ch, rt);
    case _ =>
  }

  lemma StoreCarries(cfg: Config, s: State, p: Pid, out: Outcome, ch: Choice)
    requires Inv(s) && Enabled(cfg, s, Exec(p, out, ch))
    requires s.procs[p].LoginStore?
    ensures var t := ExecStep(cfg, s, p, out, ch); Carries(t, t.procs[p])
  {
    ChainSnoc(s.log, ExecStep(cfg, s, p, out, ch).log[|s.log|], Rt(s.procs[p].user, ch.a));
  }

  lemma SwapCarries(cfg: Config, s: State, p: Pid, out: Outcome, ch: Choice)
    requires Inv(s) && Enabled(cfg, s, Exec(p, out, ch))
    requires s.procs[p].RefreshSwap?
    ensures var t := ExecStep(cfg, s, p, out, ch); Carries(t, t.procs[p])
  {
    assert Carries(s, s.procs[p]);
    ChainSnoc(s.log, ExecStep(cfg, s, p, out, ch).log[|s.log|], FamilyKey(s.procs[p].rt));
  }

  /** The request that ran the command: what it goes on to carry is again in the chain. */
  lemma RunnerCarries(cfg: Config, s: State, p: Pid, out: Outcome, ch: Choice)
    requires Inv(s) && Enabled(cfg, s, Exec(p, out, ch))
    ensures var t := ExecStep(cfg, s, p, out, ch); Carries(t, t.procs[p])
  {
    var pc := s.procs[p];
    if pc.LoginStore? {
      StoreCarries(cfg, s, p, out, ch);
    } else if pc.RefreshSwap? {
      SwapCarries(cfg, s, p, out, ch);
    } else if pc.RefreshProbe? {
      ProbeCarries(cfg, s, p, out, ch);
    } else if pc.RefreshDrop? || pc.RefreshOrphan? {
      assert Carries(s, pc);
      DropCarries(cfg, s, p, out, ch);
    } else {
      var t := ExecStep(cfg, s, p, out, ch);
      CommandsDisciplined(cfg, s, p, ch);
      assert Carries(s, pc);
      CarriesKept(s, t, CmdOf(cfg, pc, ch), t.log[|s.log|], ch, pc);
      PassesOn(cfg, t, pc, Seen(out, t.log[|s.log|].reply), ch, s.db.now);
    }
  }

  /** The other steps carry on at most the tokens they came with. */
  lemma PassesOn(cfg: Config, t: State, pc: Pc, r: Reply, ch: Choice, now: nat)
    requires Carries(t, pc)
    requires !pc.LoginStore? && !pc.RefreshSwap? && !pc.RefreshProbe? && !pc.RefreshDrop? && !pc.RefreshOrphan?
    ensures Carries(t, Resume(cfg, pc, r, ch, now))
  {
  }

  lemma ProbeCarries(cfg: Config, s: State, p: Pid, out: Outcome, ch: Choice)
    requires Inv(s) && Enabled(cfg, s, Exec(p, out, ch)) && s.procs[p].RefreshProbe?
    ensures var t := ExecStep(cfg, s, p, out, ch); Carries(t, t.procs[p])
  {
    var t := ExecStep(cfg, s, p, out, ch);
    var k := FamilyKey(s.procs[p].rt);
    assert Carries(s, s.procs[p]);
    ChainSnoc(s.log, t.log[|s.log|], k);
    if k in s.db.kv {
      var c := Chain(s.log, k);
      assert c[|c| - 1] != "";
    }
  }

  lemma DropCarries(cfg: Config, s: State, p: Pid, out: Outcome, ch: Choice)
    requires Enabled(cfg, s, Exec(p, out, ch)) && Carries(s, s.procs[p])
    requires s.procs[p].RefreshDrop? || s.procs[p].RefreshOrphan?
    ensures var t := ExecStep(cfg, s, p, out, ch); Carries(t, t.procs[p])
  {
    var t, k := ExecStep(cfg, s, p, out, ch), FamilyKey(s.procs[p].rt);
    var e := t.log[|s.log|];
    assert t.log == s.log + [e];
    ChainSnoc(s.log, e, k);
    DropLeavesDead(cfg, s, p, out, ch);
  }

  lemma DropLeavesDead(cfg: Config, s: State, p: Pid, out: Outcome, ch: Choice)
    requires Enabled(cfg, s, Exec(p, out, ch)) && (s.procs[p].RefreshDrop? || s.procs[p].RefreshOrphan?)
    ensures var t, k := ExecStep(cfg, s, p, out, ch), FamilyKey(s.procs[p].rt);
            && !t.log[|s.log|].cmd.Set? && !Won(t.log[|s.log|])
            && (t.procs[p] == Done(Failed)
                || (t.procs[p] in {Done(Reused(s.procs[p].rt)), Done(Invalid(s.procs[p].rt))} && k !in t.db.kv))
  {
  }

  lemma ExecKeepsInv(cfg: Config, s: State, p: Pid, out: Outcome, ch: Choice)
    requires Inv(s) && Enabled(cfg, s, Exec(p, out, ch))
    ensures Inv(ExecStep(cfg, s, p, out, ch))
  {
    var t := ExecStep(cfg, s, p, out, ch);
    var cmd := CmdOf(cfg, s.procs[p], ch);
    var e := t.log[|s.log|];
    assert Ran(s, t, cmd, e, ch);
    CommandsDisciplined(cfg, s, p, ch);
    StoresNewestKept(s, t, cmd, e, ch);
    ChainsUsedKept(s, t, cmd, e, ch);
    JtisDistinctKept(s, t, cmd, e, ch);
    RunnerCarries(cfg, s, p, out, ch);
    forall q | q in t.procs ensures Carries(t, t.procs[q]) {
      if q != p {
        assert t.procs[q] == s.procs[q];
        CarriesKept(s, t, cmd, e, ch, s.procs[q]);
      }
    }
    forall rt | rt in t.refresh ensures Known(t.log, rt) {
      if rt in s.refresh {
        KnownStaysKnown(s, t, cmd, e, ch, rt);
      }
    }
  }

  lemma QuietCarries(s: State, t: State, pc: Pc)
    requires Quiet(s, t) && Carries(s, pc)
    ensures Carries(t, pc)
  {
  }

  /** What the request of a step other than a command carries afterwards. */
  lemma ActorCarries(cfg: Config, s: State, a: Action)
    requires Inv(s) && Enabled(cfg, s, a) && !a.Exec? && !a.Elapse?
    ensures Carries(s, Step(cfg, s, a).procs[a.pid])
  {
    if a.pid in s.procs {
      assert Carries(s, s.procs[a.pid]);
    }
  }

  lemma QuietKeepsInv(cfg: Config, s: State, a: Action)
    requires Inv(s) && Enabled(cfg, s, a) && !a.Exec?
    ensures Inv(Step(cfg, s, a))
  {
    var t := Step(cfg, s, a);
    OtherStepsAreQuiet(cfg, s, a);
    forall p | p in t.procs ensures Carries(t, t.procs[p]) {
      if !a.Elapse? && p == a.pid {
        ActorCarries(cfg, s, a);
      }
      QuietCarries(s, t, t.procs[p]);
    }
  }

  lemma StepKeepsInv(cfg: Config, s: State, t: State)
    requires Inv(s) && Next(cfg, s, t)
    ensures Inv(t)
  {
    var a :| Enabled(cfg, s, a) && t == Step(cfg, s, a);
    if a.Exec? {
      ExecKeepsInv(cfg, s, a.pid, a.out, a.ch);
    } else {
      QuietKeepsInv(cfg, s, a);
    }
  }

  lemma {:induction false} RunInv(cfg: Config, r: seq<State>, n: nat)
    requires IsRun(cfg, r) && n < |r|
    ensures Inv(r[n])
    decreases n
  {
    if n > 0 {
      RunInv(cfg, r, n - 1);
      RunStep(cfg, r, n);
      StepKeepsInv(cfg, r[n - 1], r[n]);
    }
  }
}
