/**
 Safety of the distributed lock (SET NX EX to acquire, compare-and-delete to release) over every
 history of commands and passing time.
 */
module Locks {
  import opened Common
  import opened Redis

  datatype Op<!K(==)> = Run(cmd: Cmd<K>) | Elapse(ms: nat)

  function Apply<K(==)>(db: Db<K>, op: Op<K>): Db<K> {
    match op
    case Run(cmd) => Do(db, cmd).0
    case Elapse(ms) => Tick(db, ms)
  }

  function Play<K(==)>(db: Db<K>, ops: seq<Op<K>>): Db<K> {
    if ops == [] then db else Apply(Play(db, ops[..|ops| - 1]), ops[|ops| - 1])
  }

  /** The store just before the operation at position `j`. */
  function Before<K(==)>(db: Db<K>, ops: seq<Op<K>>, j: nat): Db<K>
    requires j <= |ops|
  {
    Play(db, ops[..j])
  }

  lemma BeforeStep<K>(db: Db<K>, ops: seq<Op<K>>, j: nat)
    requires j < |ops|
    ensures Before(db, ops, j + 1) == Apply(Before(db, ops, j), ops[j])
  {
    assert ops[..j + 1][..j] == ops[..j];
  }

  /** `k` is used as a lock: only acquire and release commands name it. */
  ghost predicate LockKey<K>(ops: seq<Op<K>>, k: K) {
    forall m :: 0 <= m < |ops| && ops[m].Run? ==> OnlyLocks(ops[m].cmd, k)
  }

  predicate OnlyLocks<K(==)>(cmd: Cmd<K>, k: K) {
    match cmd
    case Nop | Get(_) | AcquireLock(_, _, _) | ReleaseLock(_, _) => true
    case Del(ks) => k !in ks
    case Set(key, _, _) => key != k
    case Incr(key) => key != k
    case Expire(key, _) => key != k
    case CompareAndSet(key, _, _, _) => key != k
  }

  /** The operation at `i` acquires the lock `k`, and succeeds. */
  ghost predicate Acquired<K>(db: Db<K>, ops: seq<Op<K>>, i: nat, k: K) {
    && i < |ops|
    && ops[i].Run? && ops[i].cmd.AcquireLock? && ops[i].cmd.key == k
    && Do(Before(db, ops, i), ops[i].cmd).1 == OK
  }

  /** When the lock taken at `i` runs out on its own. */
  ghost function Expiry<K>(db: Db<K>, ops: seq<Op<K>>, i: nat, k: K): nat
    requires Acquired(db, ops, i, k)
  {
    Before(db, ops, i).now + 1000 * ops[i].cmd.ttl
  }

  /** The lock taken at `i` has been neither released by its holder nor outlived before `j`. */
  ghost predicate Held<K>(db: Db<K>, ops: seq<Op<K>>, i: nat, j: nat, k: K) {
    && i < j <= |ops|
    && Acquired(db, ops, i, k)
    && (forall m :: i < m < j ==> ops[m] != Run(ReleaseLock(k, ops[i].cmd.token)))
    && Before(db, ops, j).now < Expiry(db, ops, i, k)
  }

  lemma {:induction false} TimeOnlyGrows<K>(db: Db<K>, ops: seq<Op<K>>, i: nat, j: nat)
    requires i <= j <= |ops|
    ensures Before(db, ops, i).now <= Before(db, ops, j).now
    decreases j
  {
    if i < j {
      TimeOnlyGrows(db, ops, i, j - 1);
      BeforeStep(db, ops, j - 1);
    }
  }

  /** While the lock is held the store carries exactly its holder's token and deadline. */
  lemma {:induction false} HeldLockIsStored<K>(db: Db<K>, ops: seq<Op<K>>, i: nat, j: nat, k: K)
    requires LockKey(ops, k) && Held(db, ops, i, j, k)
    ensures k in Before(db, ops, j).kv
    ensures Before(db, ops, j).kv[k] == Entry(ops[i].cmd.token, Some(Expiry(db, ops, i, k)))
    decreases j
  {
    BeforeStep(db, ops, j - 1);
    if i < j - 1 {
      TimeOnlyGrows(db, ops, j - 1, j);
      HeldLockIsStored(db, ops, i, j - 1, k);
    }
  }

  /** A key that is in the store is there because some acquisition still holds it. */
  lemma {:induction false} StoredLockIsHeld<K>(db: Db<K>, ops: seq<Op<K>>, j: nat, k: K) returns (i: nat)
    requires k !in db.kv && LockKey(ops, k)
    requires j <= |ops| && k in Before(db, ops, j).kv
    ensures Held(db, ops, i, j, k)
    decreases j
  {
    assert j > 0 by { assert ops[..0] == []; }
    BeforeStep(db, ops, j - 1);
    if k in Before(db, ops, j - 1).kv {
      i := StoredLockIsHeld(db, ops, j - 1, k);
      HeldLockIsStored(db, ops, i, j - 1, k);
    } else {
      i := j - 1;
    }
  }

  /**
   Mutual exclusion, exactly: an acquisition with a positive time succeeds if and only if no earlier
   acquisition still holds the lock.
   */
  lemma AcquireSucceedsExactlyWhenFree<K>(db: Db<K>, ops: seq<Op<K>>, j: nat, k: K, token: Value, ttl: nat)
    requires k !in db.kv && LockKey(ops, k) && j <= |ops| && ttl > 0
    ensures Do(Before(db, ops, j), AcquireLock(k, token, ttl)).1 == OK
            <==> !exists i :: Held(db, ops, i, j, k)
  {
    if k in Before(db, ops, j).kv {
      var i := StoredLockIsHeld(db, ops, j, k);
    } else if i :| Held(db, ops, i, j, k) {
      HeldLockIsStored(db, ops, i, j, k);
    }
  }

  /** No two acquisitions hold the lock at the same time. */
  lemma AtMostOneHolder<K>(db: Db<K>, ops: seq<Op<K>>, i: nat, i': nat, j: nat, k: K)
    requires LockKey(ops, k) && Held(db, ops, i, j, k) && Held(db, ops, i', j, k)
    ensures i == i'
  {
    var a, b := if i <= i' then i else i', if i <= i' then i' else i;
    if a < b {
      TimeOnlyGrows(db, ops, b, j);
      assert Held(db, ops, a, b, k);
      HeldLockIsStored(db, ops, a, b, k);
      assert false;
    }
  }

  /**
   A release with any other token than the holder's (a holder whose own lock has run out, say) answers
   0 and changes nothing; the holder's own release frees the lock at once.
   */
  lemma ReleaseIsTheHoldersOnly<K>(db: Db<K>, ops: seq<Op<K>>, i: nat, j: nat, k: K, token: Value)
    requires LockKey(ops, k) && Held(db, ops, i, j, k)
    ensures token != ops[i].cmd.token ==> Do(Before(db, ops, j), ReleaseLock(k, token)) == (Before(db, ops, j), Int(0))
    ensures token == ops[i].cmd.token ==>
              var (db', r) := Do(Before(db, ops, j), ReleaseLock(k, token)); r == Int(1) && k !in db'.kv
  {
    HeldLockIsStored(db, ops, i, j, k);
  }
}
