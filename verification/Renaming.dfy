/** A store whose keys are renamed by an injective function behaves exactly like the original store. */
module Renaming {
  import opened Common
  import opened Redis

  ghost predicate Injective<K(!new), S>(f: K -> S) {
    forall k, l :: f(k) == f(l) ==> k == l
  }

  ghost function RenameMap<K(!new), S>(m: map<K, Entry>, f: K -> S): map<S, Entry>
    requires Injective(f)
  {
    map k | k in m :: f(k) := m[k]
  }

  ghost function RenameDb<K(!new), S>(db: Db<K>, f: K -> S): Db<S>
    requires Injective(f)
  {
    Db(db.now, RenameMap(db.kv, f))
  }

  ghost function RenameSet<K(!new), S>(ks: set<K>, f: K -> S): set<S> {
    set k | k in ks :: f(k)
  }

  ghost function RenameCmd<K(!new), S>(cmd: Cmd<K>, f: K -> S): Cmd<S> {
    match cmd
    case Nop => Nop
    case Get(k) => Get(f(k))
    case Set(k, v, ttl) => Set(f(k), v, ttl)
    case Del(ks) => Del(RenameSet(ks, f))
    case Incr(k) => Incr(f(k))
    case Expire(k, seconds) => Expire(f(k), seconds)
    case CompareAndSet(k, expected, next, ttl) => CompareAndSet(f(k), expected, next, ttl)
    case AcquireLock(k, token, ttl) => AcquireLock(f(k), token, ttl)
    case ReleaseLock(k, token) => ReleaseLock(f(k), token)
  }

  lemma RenameLookup<K(!new), S>(m: map<K, Entry>, k: K, f: K -> S)
    requires Injective(f)
    ensures f(k) in RenameMap(m, f) <==> k in m
    ensures k in m ==> RenameMap(m, f)[f(k)] == m[k]
  {
  }

  lemma RenameUpdate<K(!new), S>(m: map<K, Entry>, k: K, e: Entry, f: K -> S)
    requires Injective(f)
    ensures RenameMap(m[k := e], f) == RenameMap(m, f)[f(k) := e]
  {
    var a, b := RenameMap(m[k := e], f), RenameMap(m, f)[f(k) := e];
    forall s ensures s in a <==> s in b {
      if s in b && s != f(k) {
        var l :| l in m && f(l) == s;
        assert l in m[k := e];
      }
    }
    forall s | s in a && s in b ensures a[s] == b[s] {
      var l :| l in m[k := e] && f(l) == s;
      RenameLookup(m[k := e], l, f);
      if l != k { RenameLookup(m, l, f); }
    }
    assert a.Keys == b.Keys;
  }

  lemma RenameWithout<K(!new), S>(m: map<K, Entry>, ks: set<K>, f: K -> S)
    requires Injective(f)
    ensures RenameMap(Without(m, ks), f) == Without(RenameMap(m, f), RenameSet(ks, f))
  {
    var a, b := RenameMap(Without(m, ks), f), Without(RenameMap(m, f), RenameSet(ks, f));
    forall s ensures s in a <==> s in b {
      if s in b {
        var l :| l in m && f(l) == s;
        assert l !in ks;
        assert l in Without(m, ks);
      }
    }
    forall s | s in a && s in b ensures a[s] == b[s] {
      var l :| l in Without(m, ks) && f(l) == s;
      RenameLookup(m, l, f);
    }
    assert a.Keys == b.Keys;
  }

  lemma {:induction false} RenameCount<K(!new), S>(ks: set<K>, f: K -> S)
    requires Injective(f)
    ensures |RenameSet(ks, f)| == |ks|
  {
    if ks != {} {
      var k :| k in ks;
      RenameCount(ks - {k}, f);
      assert RenameSet(ks, f) == RenameSet(ks - {k}, f) + {f(k)};
      assert f(k) !in RenameSet(ks - {k}, f);
    }
  }

  lemma RenameMeet<K(!new), S>(ks: set<K>, m: map<K, Entry>, f: K -> S)
    requires Injective(f)
    ensures RenameSet(ks * m.Keys, f) == RenameSet(ks, f) * RenameMap(m, f).Keys
  {
    forall s | s in RenameSet(ks, f) * RenameMap(m, f).Keys ensures s in RenameSet(ks * m.Keys, f) {
      var k :| k in ks && f(k) == s;
      var l :| l in m && f(l) == s;
      assert k == l;
    }
  }

  lemma WritesCommute<K(!new), S>(db: Db<K>, cmd: Cmd<K>, f: K -> S)
    requires Injective(f)
    requires cmd.Set? || cmd.Del?
    ensures Do(RenameDb(db, f), RenameCmd(cmd, f)) == (RenameDb(Do(db, cmd).0, f), Do(db, cmd).1)
  {
    var m := db.kv;
    match cmd
    case Set(k, v, ttl) =>
      RenameUpdate(m, k, Entry(v, Deadline(db.now, ttl)), f);
    case Del(ks) =>
      RenameWithout(m, ks, f);
      RenameMeet(ks, m, f);
      RenameCount(ks * m.Keys, f);
  }

  lemma IncrCommutes<K(!new), S>(db: Db<K>, k: K, f: K -> S)
    requires Injective(f)
    ensures var cmd := Cmd.Incr(k);
            Do(RenameDb(db, f), RenameCmd(cmd, f)) == (RenameDb(Do(db, cmd).0, f), Do(db, cmd).1)
  {
    var m := db.kv;
    RenameLookup(m, k, f);
    if k !in m {
      RenameUpdate(m, k, Entry(Num(1), None), f);
    } else if m[k].value.Num? {
      RenameUpdate(m, k, Entry(Num(m[k].value.n + 1), m[k].expiresAt), f);
    }
  }

  lemma ExpireCommutes<K(!new), S>(db: Db<K>, k: K, seconds: nat, f: K -> S)
    requires Injective(f)
    ensures var cmd := Cmd.Expire(k, seconds);
            Do(RenameDb(db, f), RenameCmd(cmd, f)) == (RenameDb(Do(db, cmd).0, f), Do(db, cmd).1)
  {
    var m := db.kv;
    RenameLookup(m, k, f);
    if k in m {
      RenameWithout(m, {k}, f);
      assert RenameSet({k}, f) == {f(k)};
      RenameUpdate(m, k, Entry(m[k].value, Some(db.now + 1000 * seconds)), f);
    }
  }

  lemma GuardedWritesCommute<K(!new), S>(db: Db<K>, cmd: Cmd<K>, f: K -> S)
    requires Injective(f)
    requires cmd.CompareAndSet? || cmd.AcquireLock? || cmd.ReleaseLock?
    ensures Do(RenameDb(db, f), RenameCmd(cmd, f)) == (RenameDb(Do(db, cmd).0, f), Do(db, cmd).1)
  {
    var m := db.kv;
    match cmd
    case CompareAndSet(k, expected, next, ttl) =>
      RenameLookup(m, k, f);
      RenameUpdate(m, k, Entry(next, Some(db.now + 1000 * ttl)), f);
    case AcquireLock(k, token, ttl) =>
      RenameLookup(m, k, f);
      RenameUpdate(m, k, Entry(token, Some(db.now + 1000 * ttl)), f);
    case ReleaseLock(k, token) =>
      RenameLookup(m, k, f);
      RenameWithout(m, {k}, f);
      assert RenameSet({k}, f) == {f(k)};
  }

  lemma CommandsCommute<K(!new), S>(db: Db<K>, cmd: Cmd<K>, f: K -> S)
    requires Injective(f)
    ensures Do(RenameDb(db, f), RenameCmd(cmd, f)) == (RenameDb(Do(db, cmd).0, f), Do(db, cmd).1)
  {
    match cmd
    case Nop =>
    case Get(k) => RenameLookup(db.kv, k, f);
    case Set(_, _, _) | Del(_) => WritesCommute(db, cmd, f);
    case Incr(k) => IncrCommutes(db, k, f);
    case Expire(k, seconds) => ExpireCommutes(db, k, seconds, f);
    case _ => GuardedWritesCommute(db, cmd, f);
  }
}
