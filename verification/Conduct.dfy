/**
 What requests do in view of what they were answered, over whole runs: when a request fails, what a refresh may
 delete, and what a logout leaves behind when its commands do not get through.
 */
module Conduct {
  import opened Common
  import opened Redis
  import opened Keys
  import opened Sessions
  import opened Rotation
  import opened RotationHistory

  // ----- What the history says of one request

  ghost predicate Swapped(log: seq<Event>, p: Pid, k: Key) {
    exists i :: 0 <= i < |log| && log[i].pid == p && log[i].cmd.CompareAndSet? && log[i].cmd.key == k
  }

  /** The request was answered that the family is there. */
  ghost predicate Found(log: seq<Event>, p: Pid, k: Key) {
    exists i :: 0 <= i < |log| && log[i].pid == p && log[i].cmd == Get(k) && log[i].out.Answered? && Truthy(log[i].reply)
  }

  /** The request was answered that its rotation is accepted. */
  ghost predicate Rotated(log: seq<Event>, p: Pid, k: Key) {
    exists i :: 0 <= i < |log| && log[i].pid == p && WonOn(log[i], k) && log[i].out.Answered?
  }

  lemma StillSo(log: seq<Event>, e: Event, p: Pid, k: Key)
    ensures Swapped(log, p, k) ==> Swapped(log + [e], p, k)
    ensures Found(log, p, k) ==> Found(log + [e], p, k)
    ensures Rotated(log, p, k) ==> Rotated(log + [e], p, k)
  {
    assert forall i :: 0 <= i < |log| ==> (log + [e])[i] == log[i];
  }

  /** How a refresh came to where it is. */
  ghost predicate Reason(log: seq<Event>, p: Pid, pc: Pc) {
    match pc
    case RefreshProbe(rt) => Swapped(log, p, FamilyKey(rt))
    case RefreshDrop(rt) => Swapped(log, p, FamilyKey(rt)) && Found(log, p, FamilyKey(rt))
    case RefreshLoad(rt, _) => Swapped(log, p, FamilyKey(rt)) && Rotated(log, p, FamilyKey(rt))
    case RefreshOrphan(rt) => Swapped(log, p, FamilyKey(rt)) && Rotated(log, p, FamilyKey(rt))
    case _ => true
  }

  /** Where a request may be that has sent a compare-and-set for `k`. */
  predicate AfterSwap(pc: Pc, k: Key) {
    match pc
    case RefreshProbe(rt) => FamilyKey(rt) == k
    case RefreshDrop(rt) => FamilyKey(rt) == k
    case RefreshLoad(rt, _) => FamilyKey(rt) == k
    case RefreshOrphan(rt) => FamilyKey(rt) == k
    case RefreshEpoch(rt, _) => FamilyKey(rt) == k
    case RefreshSign(rt, _, _) => FamilyKey(rt) == k
    case Done(_) => true
    case _ => false
  }

  ghost predicate SwapsAccounted(s: State) {
    forall i :: 0 <= i < |s.log| ==>
      && s.log[i].pid in s.procs
      && (s.log[i].cmd.CompareAndSet? ==> AfterSwap(s.procs[s.log[i].pid], s.log[i].cmd.key))
  }

  /** A refresh deletes its own family alone, and only after it found it there or won its rotation. */
  ghost predicate DropsReasoned(log: seq<Event>) {
    forall i, j :: 0 <= j < i < |log| && log[i].cmd.Del? && log[j].cmd.CompareAndSet? && log[j].pid == log[i].pid ==>
      && log[i].cmd.keys == {log[j].cmd.key}
      && (Found(log[..i], log[i].pid, log[j].cmd.key) || Rotated(log[..i], log[i].pid, log[j].cmd.key))
  }

  ghost predicate Inv(s: State) {
    && SwapsAccounted(s)
    && DropsReasoned(s.log)
    && forall p :: p in s.procs ==> Reason(s.log, p, s.procs[p])
  }

  // ----- Steps

  lemma RunnerReasons(cfg: Config, s: State, p: Pid, out: Outcome, ch: Choice)
    requires Inv(s) && Enabled(cfg, s, Exec(p, out, ch))
    ensures var t := ExecStep(cfg, s, p, out, ch); Reason(t.log, p, t.procs[p])
  {
    var t := ExecStep(cfg, s, p, out, ch);
    var pc, e := s.procs[p], t.log[|s.log|];
    assert t.log == s.log + [e] && Reason(s.log, p, pc);
    if pc.RefreshSwap? || pc.RefreshProbe? || pc.RefreshLoad? {
      StillSo(s.log, e, p, FamilyKey(pc.rt));
      assert t.log[|s.log|] == e;
    }
  }

  lemma SwapsAccountedKept(cfg: Config, s: State, p: Pid, out: Outcome, ch: Choice)
    requires Inv(s) && Enabled(cfg, s, Exec(p, out, ch))
    ensures SwapsAccounted(ExecStep(cfg, s, p, out, ch))
  {
    var t := ExecStep(cfg, s, p, out, ch);
    forall i | 0 <= i < |t.log|
      ensures t.log[i].pid in t.procs && (t.log[i].cmd.CompareAndSet? ==> AfterSwap(t.procs[t.log[i].pid], t.log[i].cmd.key))
    {
      if i < |s.log| { assert t.log[i] == s.log[i]; }
    }
  }

  lemma RunnerDrops(cfg: Config, s: State, p: Pid, ch: Choice, k: Key)
    requires p in s.procs && Reason(s.log, p, s.procs[p]) && AfterSwap(s.procs[p], k) && CmdOf(cfg, s.procs[p], ch).Del?
    ensures CmdOf(cfg, s.procs[p], ch) == Del({k}) && (Found(s.log, p, k) || Rotated(s.log, p, k))
  {
  }

  lemma DropsReasonedKept(cfg: Config, s: State, p: Pid, out: Outcome, ch: Choice)
    requires Inv(s) && Enabled(cfg, s, Exec(p, out, ch))
    ensures DropsReasoned(ExecStep(cfg, s, p, out, ch).log)
  {
    var log := ExecStep(cfg, s, p, out, ch).log;
    assert log == s.log + [log[|s.log|]] && Reason(s.log, p, s.procs[p]);
    forall i, j | 0 <= j < i < |log| && log[i].cmd.Del? && log[j].cmd.CompareAndSet? && log[j].pid == log[i].pid
      ensures log[i].cmd.keys == {log[j].cmd.key}
      ensures Found(log[..i], log[i].pid, log[j].cmd.key) || Rotated(log[..i], log[i].pid, log[j].cmd.key)
    {
      assert log[j] == s.log[j] && log[..i] == s.log[..i];
      if i < |s.log| {
        assert log[i] == s.log[i];
      } else {
        assert s.log[..i] == s.log;
        RunnerDrops(cfg, s, p, ch, s.log[j].cmd.key);
      }
    }
  }

  lemma OthersReason(s: State, e: Event, p: Pid)
    requires Inv(s) && p in s.procs
    ensures Reason(s.log + [e], p, s.procs[p])
  {
    var pc := s.procs[p];
    assert Reason(s.log, p, pc);
    if pc.RefreshProbe? || pc.RefreshDrop? || pc.RefreshLoad? || pc.RefreshOrphan? {
      StillSo(s.log, e, p, FamilyKey(pc.rt));
    }
  }

  lemma ExecKeepsInv(cfg: Config, s: State, p: Pid, out: Outcome, ch: Choice)
    requires Inv(s) && Enabled(cfg, s, Exec(p, out, ch))
    ensures Inv(ExecStep(cfg, s, p, out, ch))
  {
    var t := ExecStep(cfg, s, p, out, ch);
    RunnerReasons(cfg, s, p, out, ch);
    SwapsAccountedKept(cfg, s, p, out, ch);
    DropsReasonedKept(cfg, s, p, out, ch);
    forall q | q in t.procs ensures Reason(t.log, q, t.procs[q]) {
      if q != p {
        OthersReason(s, t.log[|s.log|], q);
        assert t.procs[q] == s.procs[q];
      }
    }
  }

  lemma QuietKeepsSwaps(cfg: Config, s: State, a: Action)
    requires Inv(s) && Enabled(cfg, s, a) && !a.Exec?
    ensures SwapsAccounted(Step(cfg, s, a))
  {
    var t := Step(cfg, s, a);
    OtherStepsAreQuiet(cfg, s, a);
    forall i | 0 <= i < |t.log|
      ensures t.log[i].pid in t.procs && (t.log[i].cmd.CompareAndSet? ==> AfterSwap(t.procs[t.log[i].pid], t.log[i].cmd.key))
    {
      assert t.log[i] == s.log[i];
    }
  }

  lemma QuietKeepsInv(cfg: Config, s: State, a: Action)
    requires Inv(s) && Enabled(cfg, s, a) && !a.Exec?
    ensures Inv(Step(cfg, s, a))
  {
    var t := Step(cfg, s, a);
    QuietKeepsSwaps(cfg, s, a);
    OtherStepsAreQuiet(cfg, s, a);
    forall q | q in t.procs ensures Reason(t.log, q, t.procs[q]) {
      if q in s.procs { assert Reason(s.log, q, s.procs[q]); }
    }
  }

  lemma StepKeepsInv(cfg: Config, s: State, t: State)
    requires Inv(s) && Next(cfg, s, t)
    ensures Inv(t)
  {
    var a :| Enabled(cfg, s, a) && t == Step(cfg, s, a);
    if a.Exec? {
      ExecKeepsInv(cfg, s, a.pid, a.out, a.ch);
    } else {
      QuietKeepsInv(cfg, s, a);
    }
  }

  lemma {:induction false} RunInv(cfg: Config, r: seq<State>, n: nat)
    requires IsRun(cfg, r) && n < |r|
    ensures Inv(r[n])
    decreases n
  {
    if n > 0 {
      RunInv(cfg, r, n - 1);
      RunStep(cfg, r, n);
      StepKeepsInv(cfg, r[n - 1], r[n]);
    }
  }

  // ----- A refresh deletes with reason

  /**
   Over every run: when a request that has tried to rotate deletes anything, it is just the family it tried, and it
   was answered before that the family is there under another jti, or that its own rotation was accepted. A GET
   that throws, or finds nothing, is followed by no deletion.
   */
  lemma RefreshDeletesWithReason(cfg: Config, r: seq<State>, n: nat, i: nat, j: nat)
    requires IsRun(cfg, r) && n < |r| && j < i < |r[n].log|
    requires r[n].log[j].cmd.CompareAndSet? && r[n].log[i].cmd.Del? && r[n].log[j].pid == r[n].log[i].pid
    ensures r[n].log[i].cmd.keys == {r[n].log[j].cmd.key}
    ensures exists g :: 0 <= g < i && r[n].log[g].pid == r[n].log[i].pid && r[n].log[g].out.Answered?
                        && ((r[n].log[g].cmd == Get(r[n].log[j].cmd.key) && Truthy(r[n].log[g].reply))
                            || WonOn(r[n].log[g], r[n].log[j].cmd.key))
  {
    RunInv(cfg, r, n);
    var log, k := r[n].log, r[n].log[j].cmd.key;
    var before := log[..i];
    if Found(before, log[i].pid, k) {
      var g :| 0 <= g < |before| && before[g].pid == log[i].pid && before[g].cmd == Get(k)
               && before[g].out.Answered? && Truthy(before[g].reply);
      assert log[g] == before[g];
    } else {
      var g :| 0 <= g < |before| && before[g].pid == log[i].pid && WonOn(before[g], k) && before[g].out.Answered?;
      assert log[g] == before[g];
    }
  }

  // ----- When a request fails

  /** The commands that are awaited without a net: those on refresh families, but not a logout's or a revocation's. */
  ghost predicate Throwing(log: seq<Event>, i: int)
    requires 0 <= i < |log|
  {
    match log[i].cmd
    case Set(k, _, _) => k.Rt?
    case Get(k) => k.Rt?
    case CompareAndSet(_, _, _, _) => true
    case Del(_) => exists j :: 0 <= j < i && log[j].pid == log[i].pid && log[j].cmd.CompareAndSet?
    case _ => false
  }

  /** Such a command of the request threw: it was not sent, its answer was lost, or Redis rejected it. */
  ghost predicate Thrown(log: seq<Event>, p: Pid) {
    exists i :: 0 <= i < |log| && log[i].pid == p && Throwing(log, i) && Threw(Seen(log[i].out, log[i].reply))
  }

  ghost predicate Crashes(cfg: Config, s: State, t: State, p: Pid) {
    Enabled(cfg, s, Crash(p)) && t == Step(cfg, s, Crash(p))
  }

  /** The request crashed before state `n`. */
  ghost predicate Crashed(cfg: Config, r: seq<State>, n: int, p: Pid) {
    exists m {:trigger StepAt(r, m)} :: StepAt(r, m) && m < n && Crashes(cfg, r[m], r[m + 1], p)
  }

  lemma ThrownLater(log: seq<Event>, e: Event, p: Pid)
    ensures Thrown(log + [e], p) <==>
            Thrown(log, p) || (e.pid == p && Throwing(log + [e], |log|) && Threw(Seen(e.out, e.reply)))
  {
    var after := log + [e];
    assert forall i :: 0 <= i < |log| ==> after[i] == log[i];
    assert after[|log|] == e;
    forall i | 0 <= i < |log| ensures Throwing(after, i) <==> Throwing(log, i) {}
  }

  lemma RunnerFails(cfg: Config, s: State, p: Pid, out: Outcome, ch: Choice)
    requires Inv(s) && Enabled(cfg, s, Exec(p, out, ch))
    ensures var t := ExecStep(cfg, s, p, out, ch); var e := t.log[|s.log|];
            t.procs[p] == Done(Failed) <==> Throwing(t.log, |s.log|) && Threw(Seen(e.out, e.reply))
  {
    var t := ExecStep(cfg, s, p, out, ch);
    var pc, e := s.procs[p], t.log[|s.log|];
    assert t.log == s.log + [e] && Reason(s.log, p, pc);
    assert forall i :: 0 <= i < |s.log| ==> t.log[i] == s.log[i];
    if e.cmd.Del? {
      if pc.RefreshDrop? || pc.RefreshOrphan? {
        assert Swapped(s.log, p, FamilyKey(pc.rt));
      } else {
        forall j | 0 <= j < |s.log| && t.log[j].pid == p ensures !t.log[j].cmd.CompareAndSet? {
          assert s.log[j].cmd.CompareAndSet? ==> AfterSwap(pc, s.log[j].cmd.key);
        }
      }
    }
  }

  /**
   A request fails if and only if it crashed or one of those commands threw; whatever happens to its other
   commands, it goes on and gives its answer.
   */
  lemma {:induction false} FailsExactly(cfg: Config, r: seq<State>, n: nat, p: Pid)
    requires IsRun(cfg, r) && n < |r| && p in r[n].procs
    ensures r[n].procs[p] == Done(Failed) <==> Crashed(cfg, r, n, p) || Thrown(r[n].log, p)
    decreases n
  {
    assert n > 0;
    if p in r[n - 1].procs {
      FailsExactly(cfg, r, n - 1, p);
    } else {
      NotYet(cfg, r, n - 1, p);
    }
    RunInv(cfg, r, n - 1);
    RunStep(cfg, r, n);
    StepFails(cfg, r[n - 1], r[n], p);
    CrashedBefore(cfg, r, n, p);
  }

  lemma CrashedBefore(cfg: Config, r: seq<State>, n: nat, p: Pid)
    requires 0 < n < |r|
    ensures Crashed(cfg, r, n, p) <==> Crashed(cfg, r, n - 1, p) || Crashes(cfg, r[n - 1], r[n], p)
  {
    assert StepAt(r, n - 1);
  }

  ghost predicate HasFailed(s: State, p: Pid) {
    p in s.procs && s.procs[p] == Done(Failed)
  }

  /** The step is such a command of the request, and it throws. */
  ghost predicate Throws(s: State, t: State, p: Pid) {
    |t.log| == |s.log| + 1 &&
    var e := t.log[|s.log|];
    e.pid == p && Throwing(t.log, |s.log|) && Threw(Seen(e.out, e.reply))
  }

  lemma ExecThrows(cfg: Config, s: State, q: Pid, out: Outcome, ch: Choice, p: Pid)
    requires Enabled(cfg, s, Exec(q, out, ch))
    ensures var t := ExecStep(cfg, s, q, out, ch); Thrown(t.log, p) <==> Thrown(s.log, p) || Throws(s, t, p)
  {
    var t := ExecStep(cfg, s, q, out, ch);
    assert t.log == s.log + [t.log[|s.log|]];
    ThrownLater(s.log, t.log[|s.log|], p);
  }

  lemma ExecFails(cfg: Config, s: State, q: Pid, out: Outcome, ch: Choice, p: Pid)
    requires Inv(s) && Enabled(cfg, s, Exec(q, out, ch))
    ensures var t := ExecStep(cfg, s, q, out, ch);
            && (HasFailed(t, p) <==> HasFailed(s, p) || Throws(s, t, p))
            && !Crashes(cfg, s, t, p)
  {
    if p == q {
      RunnerFails(cfg, s, p, out, ch);
    } else {
      assert !Throws(s, ExecStep(cfg, s, q, out, ch), p);
    }
  }

  lemma QuietFails(cfg: Config, s: State, a: Action, p: Pid)
    requires Enabled(cfg, s, a) && !a.Exec?
    ensures var t := Step(cfg, s, a); t.log == s.log && (HasFailed(t, p) <==> HasFailed(s, p) || Crashes(cfg, s, t, p))
  {
  }

  /** A request fails in a step that crashes it, or in which such a command throws. */
  lemma StepFails(cfg: Config, s: State, t: State, p: Pid)
    requires Inv(s) && Next(cfg, s, t)
    ensures Thrown(t.log, p) <==> Thrown(s.log, p) || Throws(s, t, p)
    ensures HasFailed(t, p) <==> HasFailed(s, p) || Crashes(cfg, s, t, p) || Throws(s, t, p)
  {
    var a :| Enabled(cfg, s, a) && t == Step(cfg, s, a);
    if a.Exec? {
      ExecThrows(cfg, s, a.pid, a.out, a.ch, p);
      ExecFails(cfg, s, a.pid, a.out, a.ch, p);
    } else {
      QuietFails(cfg, s, a, p);
    }
  }

  /** Before it starts, a request has neither crashed nor sent anything. */
  lemma NotYet(cfg: Config, r: seq<State>, n: nat, p: Pid)
    requires IsRun(cfg, r) && n < |r| && p !in r[n].procs
    ensures !Crashed(cfg, r, n, p) && !Thrown(r[n].log, p)
  {
    RunInv(cfg, r, n);
    forall m | StepAt(r, m) && m < n ensures !Enabled(cfg, r[m], Crash(p)) {
      RunGrows(cfg, r, m, n);
    }
  }

  // ----- A logout always drops its family

  /** The logout `p` of `rt` has still to delete the family, or has sent the command for it. */
  ghost predicate Leaving(s: State, from: nat, p: Pid, rt: RefreshToken) {
    p in s.procs && match s.procs[p]
      case LogoutBlock(_, family) => family == Some(rt) && from <= |s.log|
      case LogoutDrop(x) => x == rt && from <= |s.log|
      case Done(LoggedOut) => Left(s, from, p, FamilyKey(rt))
      case _ => false
  }

  ghost predicate Left(s: State, from: nat, p: Pid, k: Key) {
    exists i :: from <= i < |s.log| && s.log[i].pid == p && s.log[i].cmd == Del({k}) && (Effective(s.log[i]) ==> Dead(s, k))
  }

  lemma LeftStays(cfg: Config, s: State, p: Pid, out: Outcome, ch: Choice, from: nat, q: Pid, k: Key)
    requires Rotation.Inv(s) && Enabled(cfg, s, Exec(p, out, ch)) && k.Rt? && Left(s, from, q, k)
    ensures Left(ExecStep(cfg, s, p, out, ch), from, q, k)
  {
    var t := ExecStep(cfg, s, p, out, ch);
    var i :| from <= i < |s.log| && s.log[i].pid == q && s.log[i].cmd == Del({k}) && (Effective(s.log[i]) ==> Dead(s, k));
    assert t.log[i] == s.log[i];
    if Dead(s, k) {
      CommandsDisciplined(cfg, s, p, ch);
      DeadStaysDead(s, t, CmdOf(cfg, s.procs[p], ch), t.log[|s.log|], ch, k);
    }
  }

  /** The deletion is sent whatever came before it, and if it reaches Redis the family is gone. */
  lemma DropLeaves(cfg: Config, s: State, p: Pid, out: Outcome, ch: Choice, from: nat, rt: RefreshToken)
    requires Rotation.Inv(s) && Enabled(cfg, s, Exec(p, out, ch))
    requires s.procs[p] == LogoutDrop(rt) && from <= |s.log|
    ensures var t := ExecStep(cfg, s, p, out, ch); t.procs[p] == Done(LoggedOut) && Left(t, from, p, FamilyKey(rt))
  {
    var t, k := ExecStep(cfg, s, p, out, ch), FamilyKey(rt);
    var e := t.log[|s.log|];
    assert t.log == s.log + [e] && e.cmd == Del({k});
    assert Carries(s, s.procs[p]);
    ChainSnoc(s.log, e, k);
    assert Effective(e) ==> Dead(t, k);
  }

  lemma LogoutExecLeaves(cfg: Config, s: State, p: Pid, out: Outcome, ch: Choice, from: nat, rt: RefreshToken)
    requires Rotation.Inv(s) && Enabled(cfg, s, Exec(p, out, ch)) && Leaving(s, from, p, rt)
    ensures Leaving(ExecStep(cfg, s, p, out, ch), from, p, rt)
  {
    if s.procs[p].LogoutDrop? {
      DropLeaves(cfg, s, p, out, ch, from, rt);
    }
  }

  lemma StepLeaves(cfg: Config, s: State, t: State, from: nat, p: Pid, rt: RefreshToken)
    requires Rotation.Inv(s) && Next(cfg, s, t) && Leaving(s, from, p, rt)
    requires !Crashes(cfg, s, t, p)
    ensures Leaving(t, from, p, rt)
  {
    var a :| Enabled(cfg, s, a) && t == Step(cfg, s, a);
    if a.Exec? && a.pid == p {
      LogoutExecLeaves(cfg, s, p, a.out, a.ch, from, rt);
    } else if a.Exec? {
      if s.procs[p].Done? { LeftStays(cfg, s, a.pid, a.out, a.ch, from, p, FamilyKey(rt)); }
    } else {
      OtherStepsAreQuiet(cfg, s, a);
    }
  }

  lemma {:induction false} RunLeaves(cfg: Config, r: seq<State>, h: nat, j: nat, p: Pid, rt: RefreshToken)
    requires IsRun(cfg, r) && h <= j < |r| && Leaving(r[h], |r[h].log|, p, rt) && !Crashed(cfg, r, j, p)
    ensures Leaving(r[j], |r[h].log|, p, rt)
    decreases j
  {
    if h < j {
      assert StepAt(r, j - 1);
      assert !Crashed(cfg, r, j - 1, p);
      RunLeaves(cfg, r, h, j - 1, p, rt);
      Rotation.RunInv(cfg, r, j - 1);
      RunStep(cfg, r, j);
      StepLeaves(cfg, r[j - 1], r[j], |r[h].log|, p, rt);
    }
  }

  /**
   A logout that comes with a refresh token and does not crash is answered as logged out and has sent the deletion
   of the family, whatever happened to its blocklist entry; unless that deletion never reached Redis, the family is
   gone for good and none of its tokens is accepted any more.
   */
  lemma LogoutDropsItsFamily(
    cfg: Config, r: seq<State>, h: nat, j: nat, m: nat, p: Pid, at: AccessToken, rt: RefreshToken) returns (i: nat)
    requires IsRun(cfg, r) && h <= j <= m < |r| && p in r[h].procs
    requires r[h].procs[p] == LogoutBlock(at, Some(rt)) || r[h].procs[p] == LogoutDrop(rt)
    requires p in r[j].procs && r[j].procs[p].Done? && !Crashed(cfg, r, j, p)
    ensures r[j].procs[p] == Done(LoggedOut)
    ensures |r[h].log| <= i < |r[j].log| && r[j].log[i].pid == p && r[j].log[i].cmd == Del({FamilyKey(rt)})
    ensures Effective(r[j].log[i]) ==>
              FamilyKey(rt) !in r[m].db.kv && NeverAccepted(r[m].log, |r[j].log|, FamilyKey(rt))
  {
    RunLeaves(cfg, r, h, j, p, rt);
    var k := FamilyKey(rt);
    i :| |r[h].log| <= i < |r[j].log| && r[j].log[i].pid == p && r[j].log[i].cmd == Del({k})
         && (Effective(r[j].log[i]) ==> Dead(r[j], k));
    if Dead(r[j], k) { DeadForever(cfg, r, j, m, k); }
  }
}
