/** What the rotation invariant means for whole runs: the main results about refresh tokens. */
module RotationHistory {
  import opened Redis
  import opened Keys
  import opened Sessions
  import opened Rotation

  // ----- Facts about the history itself

  predicate Stores(e: Event, k: Key) {
    e.cmd.Set? && Effective(e) && e.cmd.key == k
  }

  predicate WonOn(e: Event, k: Key) {
    Won(e) && e.cmd.key == k
  }

  /** Each accepted rotation presented the jti that was newest in its family at that moment. */
  ghost predicate WinsPresentNewest(log: seq<Event>) {
    forall i :: 0 <= i < |log| && Won(log[i]) ==>
      log[i].cmd.key.Rt? && Chain(log[..i], log[i].cmd.key) != []
      && Presented(log[i]) == Last(Chain(log[..i], log[i].cmd.key))
  }

  /** A family key is written by SET only when its chain is still empty. */
  ghost predicate StoredOnce(log: seq<Event>) {
    forall i, k: Key :: 0 <= i < |log| && k.Rt? && Stores(log[i], k) ==> Chain(log[..i], k) == []
  }

  /** The request `p` has won the rotation that turned `rt` into `next`. */
  ghost predicate HasWon(log: seq<Event>, p: Pid, rt: RefreshToken, next: string) {
    exists i :: 0 <= i < |log| && log[i].pid == p && WonOn(log[i], FamilyKey(rt))
                && Presented(log[i]) == rt.jti && Installed(log[i]) == next
  }

  ghost predicate WinnerLogged(log: seq<Event>, p: Pid, pc: Pc) {
    match pc
    case RefreshLoad(rt, next) => HasWon(log, p, rt, next.jti) && FamilyKey(next) == FamilyKey(rt)
    case RefreshEpoch(rt, next) => HasWon(log, p, rt, next.jti) && FamilyKey(next) == FamilyKey(rt)
    case RefreshSign(rt, next, _) => HasWon(log, p, rt, next.jti) && FamilyKey(next) == FamilyKey(rt)
    case Done(Refreshed(rt, _, next)) => HasWon(log, p, rt, next.jti) && FamilyKey(next) == FamilyKey(rt)
    case _ => true
  }

  ghost predicate WinnersLogged(s: State) {
    forall p :: p in s.procs ==> WinnerLogged(s.log, p, s.procs[p])
  }

  ghost predicate HistoryInv(s: State) {
    WinsPresentNewest(s.log) && StoredOnce(s.log) && WinnersLogged(s)
  }

  lemma HasWonKept(log: seq<Event>, e: Event, p: Pid, rt: RefreshToken, next: string)
    requires HasWon(log, p, rt, next)
    ensures HasWon(log + [e], p, rt, next)
  {
    var i :| 0 <= i < |log| && log[i].pid == p && WonOn(log[i], FamilyKey(rt))
             && Presented(log[i]) == rt.jti && Installed(log[i]) == next;
    assert (log + [e])[i] == log[i];
  }

  lemma WinnerKept(log: seq<Event>, e: Event, p: Pid, pc: Pc)
    requires WinnerLogged(log, p, pc)
    ensures WinnerLogged(log + [e], p, pc)
  {
    match pc
    case RefreshLoad(rt, next) => HasWonKept(log, e, p, rt, next.jti);
    case RefreshEpoch(rt, next) => HasWonKept(log, e, p, rt, next.jti);
    case RefreshSign(rt, next, _) => HasWonKept(log, e, p, rt, next.jti);
    case Done(Refreshed(rt, _, next)) => HasWonKept(log, e, p, rt, next.jti);
    case _ =>
  }

  lemma RunnerLogged(cfg: Config, s: State, p: Pid, out: Outcome, ch: Choice)
    requires WinnersLogged(s) && Enabled(cfg, s, Exec(p, out, ch))
    ensures var t := ExecStep(cfg, s, p, out, ch); WinnerLogged(t.log, p, t.procs[p])
  {
    var t := ExecStep(cfg, s, p, out, ch);
    var pc := s.procs[p];
    var e := t.log[|s.log|];
    assert t.log == s.log + [e];
    assert WinnerLogged(s.log, p, pc);
    if pc.RefreshSwap? {
      assert t.procs[p].RefreshLoad? ==> WonOn(e, FamilyKey(pc.rt));
    } else {
      WinnerKept(s.log, e, p, pc);
    }
  }

  lemma LogRulesKept(cfg: Config, s: State, p: Pid, out: Outcome, ch: Choice)
    requires Inv(s) && WinsPresentNewest(s.log) && StoredOnce(s.log) && Enabled(cfg, s, Exec(p, out, ch))
    ensures var t := ExecStep(cfg, s, p, out, ch); WinsPresentNewest(t.log) && StoredOnce(t.log)
  {
    var t := ExecStep(cfg, s, p, out, ch);
    var e := t.log[|s.log|];
    assert t.log == s.log + [e];
    CommandsDisciplined(cfg, s, p, ch);
    assert t.log[..|s.log|] == s.log;
    forall i | 0 <= i < |t.log| && Won(t.log[i])
      ensures t.log[i].cmd.key.Rt? && Chain(t.log[..i], t.log[i].cmd.key) != []
              && Presented(t.log[i]) == Last(Chain(t.log[..i], t.log[i].cmd.key))
    {
      if i < |s.log| { assert t.log[..i] == s.log[..i] && t.log[i] == s.log[i]; }
    }
    forall i, k: Key | 0 <= i < |t.log| && k.Rt? && Stores(t.log[i], k) ensures Chain(t.log[..i], k) == [] {
      if i < |s.log| {
        assert t.log[..i] == s.log[..i] && t.log[i] == s.log[i];
      } else if Chain(s.log, k) != [] {
        ChainFamilyUsed(s, k);
      }
    }
  }

  lemma StepKeepsHistory(cfg: Config, s: State, t: State)
    requires Inv(s) && HistoryInv(s) && Next(cfg, s, t)
    ensures HistoryInv(t)
  {
    var a :| Enabled(cfg, s, a) && t == Step(cfg, s, a);
    if a.Exec? {
      LogRulesKept(cfg, s, a.pid, a.out, a.ch);
      RunnerLogged(cfg, s, a.pid, a.out, a.ch);
      forall q | q in t.procs ensures WinnerLogged(t.log, q, t.procs[q]) {
        if q != a.pid {
          assert t.procs[q] == s.procs[q];
          WinnerKept(s.log, t.log[|s.log|], q, s.procs[q]);
        }
      }
    } else {
      OtherStepsAreQuiet(cfg, s, a);
      forall q | q in t.procs ensures WinnerLogged(t.log, q, t.procs[q]) {
        if q in s.procs { assert WinnerLogged(s.log, q, s.procs[q]); }
      }
    }
  }

  lemma {:induction false} RunHistory(cfg: Config, r: seq<State>, n: nat)
    requires IsRun(cfg, r) && n < |r|
    ensures HistoryInv(r[n])
    decreases n
  {
    if n > 0 {
      RunHistory(cfg, r, n - 1);
      RunInv(cfg, r, n - 1);
      RunStep(cfg, r, n);
      StepKeepsHistory(cfg, r[n - 1], r[n]);
    }
  }

  /** A chain only grows at its end. */
  lemma {:induction false} ChainGrows(log: seq<Event>, i: nat, j: nat, k: Key)
    requires StoredOnce(log) && k.Rt? && i <= j <= |log|
    ensures Chain(log[..i], k) <= Chain(log[..j], k)
    decreases j
  {
    if i < j {
      ChainGrows(log, i, j - 1, k);
      assert log[..j] == log[..j - 1] + [log[j - 1]];
      ChainSnoc(log[..j - 1], log[j - 1], k);
    }
  }

  lemma ChainAfterWin(log: seq<Event>, i: nat)
    requires WinsPresentNewest(log) && i < |log| && Won(log[i])
    ensures var k := log[i].cmd.key; Chain(log[..i + 1], k) == Chain(log[..i], k) + [Installed(log[i])]
  {
    assert log[..i + 1] == log[..i] + [log[i]];
    ChainSnoc(log[..i], log[i], log[i].cmd.key);
  }

  /** Without a win in between, a stored chain does not change. */
  lemma {:induction false} ChainStill(log: seq<Event>, i: nat, j: nat, k: Key)
    requires StoredOnce(log) && k.Rt? && i <= j <= |log| && Chain(log[..i], k) != []
    requires forall m :: i <= m < j ==> !WonOn(log[m], k)
    ensures Chain(log[..j], k) == Chain(log[..i], k)
    decreases j
  {
    if i < j {
      ChainStill(log, i, j - 1, k);
      assert log[..j] == log[..j - 1] + [log[j - 1]];
      ChainSnoc(log[..j - 1], log[j - 1], k);
    }
  }

  /** The first jti of a chain is the one its login stored. */
  lemma {:induction false} ChainHead(log: seq<Event>, n: nat, k: Key) returns (l: nat)
    requires StoredOnce(log) && WinsPresentNewest(log) && k.Rt? && n <= |log| && Chain(log[..n], k) != []
    requires forall m :: 0 <= m < n ==> !WonOn(log[m], k)
    ensures l < n && Stores(log[l], k) && Chain(log[..n], k) == Chain([log[l]], k)
    decreases n
  {
    var before := log[..n];
    assert before != [];
    assert log[..n] == log[..n - 1] + [log[n - 1]];
    ChainSnoc(log[..n - 1], log[n - 1], k);
    if Stores(log[n - 1], k) {
      l := n - 1;
      assert [log[l]] == [] + [log[l]];
      ChainSnoc([], log[l], k);
    } else {
      l := ChainHead(log, n - 1, k);
    }
  }

  lemma StoredIsInChain(log: seq<Event>, i: nat, k: Key)
    requires StoredOnce(log) && k.Rt? && i < |log| && Stores(log[i], k)
    ensures forall n :: i < n <= |log| ==> Chain(log[..n], k) != []
    ensures Chain(log, k) != []
  {
    assert log[..i + 1] == log[..i] + [log[i]] && log[..|log|] == log;
    ChainSnoc(log[..i], log[i], k);
    forall n: nat | i < n <= |log| ensures Chain(log[..n], k) != [] {
      ChainGrows(log, i + 1, n, k);
    }
  }

  lemma {:induction false} SomeStore(log: seq<Event>, n: nat, k: Key) returns (i: nat)
    requires WinsPresentNewest(log) && k.Rt? && n <= |log| && Chain(log[..n], k) != []
    ensures i < n && Stores(log[i], k)
    decreases n
  {
    assert log[..n] != [] && log[..n] == log[..n - 1] + [log[n - 1]];
    ChainSnoc(log[..n - 1], log[n - 1], k);
    if Stores(log[n - 1], k) { i := n - 1; } else { i := SomeStore(log, n - 1, k); }
  }

  /** A family with a chain was stored exactly once. */
  lemma TheStore(log: seq<Event>, k: Key) returns (i: nat)
    requires StoredOnce(log) && WinsPresentNewest(log) && k.Rt? && Chain(log, k) != []
    ensures i < |log| && Stores(log[i], k)
    ensures forall l :: 0 <= l < |log| && Stores(log[l], k) ==> l == i
  {
    assert log[..|log|] == log;
    i := SomeStore(log, |log|, k);
    StoredIsInChain(log, i, k);
    forall l: nat | l < |log| && Stores(log[l], k) ensures l == i {
      StoredIsInChain(log, l, k);
    }
  }

  // ----- Main results

  /** A refresh jti is accepted by at most one rotation, whatever the families and requests involved. */
  lemma EachJtiAcceptedAtMostOnce(cfg: Config, r: seq<State>, n: nat, i: nat, j: nat)
    requires IsRun(cfg, r) && n < |r| && i < j < |r[n].log|
    requires Won(r[n].log[i]) && Won(r[n].log[j])
    ensures Presented(r[n].log[i]) != Presented(r[n].log[j])
  {
    RunHistory(cfg, r, n);
    RunInv(cfg, r, n);
    var log := r[n].log;
    var k, l := log[i].cmd.key, log[j].cmd.key;
    assert log[..|log|] == log;
    ChainGrows(log, i, |log|, k);
    ChainGrows(log, j, |log|, l);
    var a, b := |Chain(log[..i], k)| - 1, |Chain(log[..j], l)| - 1;
    assert Chain(log, k)[a] == Presented(log[i]) && Chain(log, l)[b] == Presented(log[j]);
    if k == l {
      ChainAfterWin(log, i);
      ChainGrows(log, i + 1, j, k);
      assert a < b;
    }
  }

  /**
   The accepted rotations of a family form one chain: each presents what the previous one installed, and
   the first presents the jti that the login stored.
   */
  lemma AcceptedRotationsFormAChain(cfg: Config, r: seq<State>, n: nat, j: nat, k: Key) returns (i: nat)
    requires IsRun(cfg, r) && n < |r| && j < |r[n].log| && WonOn(r[n].log[j], k)
    ensures i < j
    ensures forall m :: i < m < j ==> !WonOn(r[n].log[m], k)
    ensures WonOn(r[n].log[i], k) ==> Presented(r[n].log[j]) == Installed(r[n].log[i])
    ensures !WonOn(r[n].log[i], k) ==>
              Stores(r[n].log[i], k) && r[n].log[i].cmd.value == Text(Presented(r[n].log[j]))
              && forall m :: 0 <= m < j ==> !WonOn(r[n].log[m], k)
  {
    RunHistory(cfg, r, n);
    var log := r[n].log;
    if w :| 0 <= w < j && WonOn(log[w], k) {
      i := LastWin(log, j, k, w);
      ChainAfterWin(log, i);
      ChainStill(log, i + 1, j, k);
    } else {
      i := ChainHead(log, j, k);
      assert [log[i]] == [] + [log[i]];
      ChainSnoc([], log[i], k);
      StoredValueIsText(cfg, r, n, i);
    }
  }

  lemma {:induction false} LastWin(log: seq<Event>, j: nat, k: Key, w: nat) returns (i: nat)
    requires w < j <= |log| && WonOn(log[w], k)
    ensures i < j && WonOn(log[i], k) && forall m :: i < m < j ==> !WonOn(log[m], k)
    decreases j
  {
    if WonOn(log[j - 1], k) { i := j - 1; } else { i := LastWin(log, j - 1, k, w); }
  }

  /** Families are only ever set to a jti. */
  lemma {:induction false} StoredValueIsText(cfg: Config, r: seq<State>, n: nat, i: nat)
    requires IsRun(cfg, r) && n < |r| && i < |r[n].log|
    requires r[n].log[i].cmd.Set? && r[n].log[i].cmd.key.Rt?
    ensures r[n].log[i].cmd.value.Text?
    decreases n
  {
    assert n > 0;
    var s, t := r[n - 1], r[n];
    RunStep(cfg, r, n);
    if i < |s.log| {
      StepGrows(cfg, s, t);
      assert s.log[i] == t.log[i];
      StoredValueIsText(cfg, r, n - 1, i);
    } else {
      var a :| Enabled(cfg, s, a) && t == Step(cfg, s, a);
    }
  }

  /** From `from` on, no rotation of family `k` is accepted. */
  ghost predicate NeverAccepted(log: seq<Event>, from: nat, k: Key) {
    forall m :: from <= m < |log| ==> !WonOn(log[m], k)
  }

  lemma StepKeepsDead(cfg: Config, s: State, t: State, from: nat, k: Key)
    requires Inv(s) && Next(cfg, s, t) && k.Rt? && Dead(s, k) && NeverAccepted(s.log, from, k)
    ensures Dead(t, k) && NeverAccepted(t.log, from, k)
  {
    var a :| Enabled(cfg, s, a) && t == Step(cfg, s, a);
    if a.Exec? {
      var cmd, e := CmdOf(cfg, s.procs[a.pid], a.ch), t.log[|s.log|];
      assert Ran(s, t, cmd, e, a.ch);
      CommandsDisciplined(cfg, s, a.pid, a.ch);
      DeadStaysDead(s, t, cmd, e, a.ch, k);
    } else {
      OtherStepsAreQuiet(cfg, s, a);
    }
  }

  /** A family whose key is gone never comes back, and no later rotation of it is accepted. */
  lemma {:induction false} DeadForever(cfg: Config, r: seq<State>, i: nat, j: nat, k: Key)
    requires IsRun(cfg, r) && i <= j < |r| && k.Rt? && Dead(r[i], k)
    ensures Dead(r[j], k) && NeverAccepted(r[j].log, |r[i].log|, k)
    decreases j
  {
    if i < j {
      DeadForever(cfg, r, i, j - 1, k);
      RunInv(cfg, r, j - 1);
      RunStep(cfg, r, j);
      StepKeepsDead(cfg, r[j - 1], r[j], |r[i].log|, k);
    }
  }

  /** Refusing a rotation, as reuse or as invalid, leaves the family revoked for good. */
  lemma RefusedFamilyStaysRevoked(cfg: Config, r: seq<State>, i: nat, j: nat, p: Pid, rt: RefreshToken)
    requires IsRun(cfg, r) && i <= j < |r| && p in r[i].procs
    requires r[i].procs[p] == Done(Reused(rt)) || r[i].procs[p] == Done(Invalid(rt))
    ensures FamilyKey(rt) !in r[j].db.kv
    ensures NeverAccepted(r[j].log, |r[i].log|, FamilyKey(rt))
  {
    RunInv(cfg, r, i);
    assert Carries(r[i], r[i].procs[p]);
    DeadForever(cfg, r, i, j, FamilyKey(rt));
  }

  lemma TheWin(log: seq<Event>, p: Pid, rt: RefreshToken, next: string) returns (a: nat)
    requires HasWon(log, p, rt, next)
    ensures a < |log| && log[a].pid == p && Won(log[a]) && Presented(log[a]) == rt.jti
  {
    a :| 0 <= a < |log| && log[a].pid == p && WonOn(log[a], FamilyKey(rt)) && Presented(log[a]) == rt.jti;
  }

  lemma NotBothAccepted(cfg: Config, r: seq<State>, i: nat, p: Pid, q: Pid, rt: RefreshToken)
    requires IsRun(cfg, r) && i < |r| && p != q && p in r[i].procs && q in r[i].procs
    requires Answers(r[i].procs[p], rt) && Answers(r[i].procs[q], rt)
    ensures !(r[i].procs[p].res.Refreshed? && r[i].procs[q].res.Refreshed?)
  {
    RunHistory(cfg, r, i);
    var log := r[i].log;
    assert WinnerLogged(log, p, r[i].procs[p]) && WinnerLogged(log, q, r[i].procs[q]);
    if r[i].procs[p].res.Refreshed? && r[i].procs[q].res.Refreshed? {
      var a := TheWin(log, p, rt, r[i].procs[p].res.rt.jti);
      var b := TheWin(log, q, rt, r[i].procs[q].res.rt.jti);
      EachJtiAcceptedAtMostOnce(cfg, r, i, if a < b then a else b, if a < b then b else a);
    }
  }

  /**
   The same refresh token presented by two requests, in any overlap: they are not both given tokens, and
   once both have been answered without an outage the token that either of them was given is dead too.
   */
  lemma DoublePresentationRevokesTheFamily(cfg: Config, r: seq<State>, i: nat, j: nat, p: Pid, q: Pid, rt: RefreshToken)
    requires IsRun(cfg, r) && i <= j < |r| && p != q && p in r[i].procs && q in r[i].procs
    requires Answers(r[i].procs[p], rt) && Answers(r[i].procs[q], rt)
    ensures !(r[i].procs[p].res.Refreshed? && r[i].procs[q].res.Refreshed?)
    ensures FamilyKey(rt) !in r[j].db.kv && NeverAccepted(r[j].log, |r[i].log|, FamilyKey(rt))
    ensures r[i].procs[p].res.Refreshed? ==> FamilyKey(r[i].procs[p].res.rt) == FamilyKey(rt)
  {
    NotBothAccepted(cfg, r, i, p, q, rt);
    RunHistory(cfg, r, i);
    assert WinnerLogged(r[i].log, p, r[i].procs[p]);
    RefusedFamilyStaysRevoked(cfg, r, i, j, if r[i].procs[p].res.Refreshed? then q else p, rt);
  }

  /** A refresh that presented `rt` and was answered: accepted, or refused as reused or invalid. */
  predicate Answers(pc: Pc, rt: RefreshToken) {
    pc.Done? && (pc.res.Refreshed? || pc.res.Reused? || pc.res.Invalid?) && pc.res.presented == rt
  }
}
