/**
 The review evaluation: a pool of workers that share one queue and write one result slot per case. A worker's
 code between two awaits runs without interruption; which worker goes on next is anybody's choice.
 */
module EvalPool {
  import opened Common
  import opened EvalScore

  // ----- The pool

  datatype Pool = Pool(
    queue: seq<nat>,
    busy: map<nat, nat>,
    stopped: set<nat>,
    broken: set<nat>,
    results: map<nat, Answer>,
    taken: seq<nat>)

  function Upto(n: nat): seq<nat> {
    seq(n, i => i)
  }

  function Start(n: nat): Pool {
    Pool(Upto(n), map[], {}, {}, map[], [])
  }

  predicate Idle(p: Pool, w: nat) {
    w !in p.busy && w !in p.stopped && w !in p.broken
  }

  /**
   A worker shifts the next case off the queue and reads its fixture, or stops when there is none. Reading
   is outside the code that catches errors: a fixture that cannot be read ends the worker with a rejection.
   */
  function Take(p: Pool, w: nat, readable: nat -> bool): Pool {
    if p.queue == [] then p.(stopped := p.stopped + {w})
    else if readable(p.queue[0]) then
      p.(queue := p.queue[1..], busy := p.busy[w := p.queue[0]], taken := p.taken + [p.queue[0]])
    else p.(queue := p.queue[1..], broken := p.broken + {w}, taken := p.taken + [p.queue[0]])
  }

  /** The review of the worker's case has come back and goes into that case's slot. */
  function Finish(p: Pool, w: nat, a: Answer): Pool
    requires w in p.busy
  {
    p.(busy := map v | v in p.busy && v != w :: p.busy[v], results := p.results[p.busy[w] := a])
  }

  /** What the evaluation meets: the fixtures it can read, and what reviewing each case yields. */
  datatype World = World(readable: nat -> bool, review: nat -> Answer)

  /** One scheduling decision among `workers` workers. */
  ghost predicate Step(workers: nat, world: World, p: Pool, q: Pool) {
    || (exists w :: 0 <= w < workers && Idle(p, w) && q == Take(p, w, world.readable))
    || (exists w :: 0 <= w < workers && w in p.busy && q == Finish(p, w, world.review(p.busy[w])))
  }

  predicate StepAt(r: seq<Pool>, i: int) {
    0 <= i < |r| - 1
  }

  ghost predicate IsRun(workers: nat, n: nat, world: World, r: seq<Pool>) {
    && |r| > 0 && r[0] == Start(n)
    && forall i {:trigger StepAt(r, i)} :: StepAt(r, i) ==> Step(workers, world, r[i], r[i + 1])
  }

  /** Case `i` is with some worker. */
  ghost predicate InHand(p: Pool, i: nat) {
    exists w :: w in p.busy && p.busy[w] == i
  }

  /** Each readable case is in the queue, with one worker, or in its slot; an unreadable one breaks a worker. */
  ghost predicate Inv(workers: nat, n: nat, world: World, p: Pool) {
    && |p.taken| <= n
    && p.taken == Upto(|p.taken|)
    && p.queue == Upto(n)[|p.taken|..]
    && (forall i: nat :: i < |p.taken| && world.readable(i) <==> i in p.results || InHand(p, i))
    && (forall w :: w in p.busy ==> p.busy[w] !in p.results && w !in p.stopped && w !in p.broken)
    && (forall v, w :: v in p.busy && w in p.busy && p.busy[v] == p.busy[w] ==> v == w)
    && (forall i :: i in p.results ==> p.results[i] == world.review(i))
    && (p.stopped != {} ==> p.queue == [])
    && p.stopped !! p.broken
    && (forall w :: w in p.busy || w in p.broken ==> w < workers)
    && ((exists i: nat :: i < |p.taken| && !world.readable(i)) <==> p.broken != {})
  }

  lemma TakeMovesHead(n: nat, p: Pool, w: nat, readable: nat -> bool)
    requires |p.taken| <= n && p.taken == Upto(|p.taken|) && p.queue == Upto(n)[|p.taken|..] && p.queue != []
    ensures var q, k := Take(p, w, readable), |p.taken|;
            && k < n && p.queue[0] == k
            && |q.taken| == k + 1 && q.taken == Upto(k + 1) && q.queue == Upto(n)[k + 1..]
  {
  }

  lemma TakeHandsOver(p: Pool, q: Pool, w: nat, k: nat, i: nat)
    requires w !in p.busy && q.busy == p.busy[w := k]
    ensures InHand(q, i) <==> i == k || InHand(p, i)
  {
    if i == k {
      assert w in q.busy && q.busy[w] == i;
    } else if v :| v in p.busy && p.busy[v] == i {
      assert v in q.busy && q.busy[v] == i;
    }
  }

  lemma TakeKeepsInv(workers: nat, n: nat, world: World, p: Pool, w: nat)
    requires Inv(workers, n, world, p) && Idle(p, w) && w < workers && p.queue != [] && world.readable(p.queue[0])
    ensures Inv(workers, n, world, Take(p, w, world.readable))
  {
    var q, k := Take(p, w, world.readable), |p.taken|;
    TakeMovesHead(n, p, w, world.readable);
    assert k !in p.results && !InHand(p, k);
    forall v | v in p.busy ensures p.busy[v] != k {
      assert InHand(p, p.busy[v]);
    }
    forall i: nat ensures i < |q.taken| && world.readable(i) <==> i in q.results || InHand(q, i) {
      TakeHandsOver(p, q, w, k, i);
    }
    if i: nat :| i < |q.taken| && !world.readable(i) {
      assert i < |p.taken|;
    }
  }

  lemma BreakKeepsInv(workers: nat, n: nat, world: World, p: Pool, w: nat)
    requires Inv(workers, n, world, p) && Idle(p, w) && w < workers && p.queue != [] && !world.readable(p.queue[0])
    ensures Inv(workers, n, world, Take(p, w, world.readable))
  {
    var q, k := Take(p, w, world.readable), |p.taken|;
    TakeMovesHead(n, p, w, world.readable);
    forall i: nat ensures i < |q.taken| && world.readable(i) <==> i in q.results || InHand(q, i) {
      assert InHand(q, i) <==> InHand(p, i);
    }
    assert w in q.broken && k < |q.taken| && !world.readable(k);
  }

  lemma FinishKeepsInv(workers: nat, n: nat, world: World, p: Pool, w: nat)
    requires Inv(workers, n, world, p) && w in p.busy
    ensures Inv(workers, n, world, Finish(p, w, world.review(p.busy[w])))
  {
    var q := Finish(p, w, world.review(p.busy[w]));
    forall i: nat ensures i < |q.taken| && world.readable(i) <==> i in q.results || InHand(q, i) {
      assert InHand(p, p.busy[w]);
      if v :| v in p.busy && p.busy[v] == i && v != w {
        assert v in q.busy && q.busy[v] == i;
      }
    }
  }

  lemma {:induction false} RunInv(workers: nat, n: nat, world: World, r: seq<Pool>, m: nat)
    requires IsRun(workers, n, world, r) && m < |r|
    ensures Inv(workers, n, world, r[m])
    decreases m
  {
    if m > 0 {
      RunInv(workers, n, world, r, m - 1);
      assert StepAt(r, m - 1);
      var p, q := r[m - 1], r[m];
      if w: nat :| w < workers && Idle(p, w) && q == Take(p, w, world.readable) {
        if p.queue != [] && world.readable(p.queue[0]) {
          TakeKeepsInv(workers, n, world, p, w);
        } else if p.queue != [] {
          BreakKeepsInv(workers, n, world, p, w);
        } else {
          forall i: nat ensures InHand(q, i) <==> InHand(p, i) {}
        }
      } else {
        var w: nat :| w < workers && w in p.busy && q == Finish(p, w, world.review(p.busy[w]));
        FinishKeepsInv(workers, n, world, p, w);
      }
    }
  }

  /** The pool as a whole has resolved. */
  ghost predicate AllStopped(workers: nat, p: Pool) {
    forall w :: 0 <= w < workers ==> w in p.stopped
  }

  /**
   With any positive number of workers and any schedule, the cases are taken once each, in order. When all
   workers have stopped, every fixture was readable and every slot holds the answer to its own case: the
   outcome is the same for all schedules. A worker is rejected exactly when it has taken an unreadable case;
   if there is one, the pool never resolves.
   */
  lemma EveryScheduleFillsTheSameSlots(workers: nat, n: nat, world: World, r: seq<Pool>, m: nat)
    requires IsRun(workers, n, world, r) && m < |r| && workers > 0
    ensures r[m].taken <= Upto(n)
    ensures AllStopped(workers, r[m]) ==>
              && r[m].taken == Upto(n)
              && (forall i: nat :: i < n ==> world.readable(i))
              && r[m].results == map i: nat | i < n :: world.review(i)
    ensures r[m].broken != {} <==> exists i :: i in r[m].taken && !world.readable(i)
  {
    RunInv(workers, n, world, r, m);
    var p := r[m];
    assert forall i :: 0 <= i < |p.taken| ==> p.taken[i] == Upto(n)[i] == i;
    forall i: nat ensures i in p.taken <==> i < |p.taken| {
      if i < |p.taken| { assert p.taken[i] == i; }
    }
    if AllStopped(workers, p) {
      assert 0 in p.stopped;
      assert |p.taken| == n;
      assert p.broken == {};
      assert forall i: nat :: !InHand(p, i);
      assert forall i :: i in p.results <==> 0 <= i < n;
    }
  }

  /** The shared variables, and a worker's code up to its next await as methods on them. */
  class Evaluation {
    var queue: seq<nat>
    var results: map<nat, Answer>
    ghost var pool: Pool

    ghost predicate Valid()
      reads this
    {
      queue == pool.queue && results == pool.results
    }

    constructor (n: nat)
      ensures Valid() && pool == Start(n)
    {
      queue := seq(n, i => i);
      results := map[];
      pool := Start(n);
    }

    /** The next case with its fixture read; `threw` when it cannot be, nothing when the queue is empty. */
    method Shift(ghost w: nat, readable: nat -> bool) returns (item: Option<nat>, threw: bool)
      requires Valid() && Idle(pool, w)
      modifies this
      ensures Valid() && pool == Take(old(pool), w, readable)
      ensures item.Some? <==> w in pool.busy
      ensures item.Some? ==> item.value == pool.busy[w]
      ensures threw <==> w in pool.broken
    {
      pool := Take(pool, w, readable);
      if queue == [] { return None, false; }
      var next := queue[0];
      queue := queue[1..];
      if !readable(next) { return None, true; }
      return Some(next), false;
    }

    method Store(ghost w: nat, item: nat, answer: Answer)
      requires Valid() && w in pool.busy && pool.busy[w] == item
      modifies this
      ensures Valid() && pool == Finish(old(pool), w, answer)
    {
      results := results[item := answer];
      pool := Finish(pool, w, answer);
    }
  }
}
