/**
 The key-value part of the Redis wrapper: what one atomic command does to the shared store, the server that
 runs commands, and the client class whose methods send them.

 Time is counted in milliseconds. `Tick` is the only way time passes, and it drops every key whose
 deadline has come, so a key that is in the map is a key that Redis would still return.
 */
module Redis {
  import opened Common

  /** Redis stores strings; `Num` is a string that `INCR` accepts. */
  datatype Value = Text(s: string) | Num(n: int)

  datatype Entry = Entry(value: Value, expiresAt: Option<nat>)

  datatype Db<!K(==)> = Db(now: nat, kv: map<K, Entry>)

  datatype Cmd<!K(==)> =
    | Nop
    | Get(key: K)
    | Set(key: K, value: Value, ttl: nat)
    | Del(keys: set<K>)
    | Incr(key: K)
    | Expire(key: K, seconds: nat)
    | CompareAndSet(key: K, expected: Value, next: Value, ttl: nat)
    | AcquireLock(key: K, token: Value, ttl: nat)
    | ReleaseLock(key: K, token: Value)

  /** `Err` is a rejected promise, `Down` a command that was not sent because the client is not ready. */
  datatype Reply = Nil | OK | Val(v: Value) | Int(n: int) | Err | Down

  predicate Threw(r: Reply) {
    r.Err? || r.Down?
  }

  /** JavaScript truthiness of a reply to GET: a missing key and the empty string are falsy. */
  predicate Truthy(r: Reply) {
    r.Val? && r.v != Text("")
  }

  /** The number a caller makes of a GET reply with `Number(reply ?? 0)`; not-a-number counts as 0. */
  function NumberOf(r: Reply): int {
    if r.Val? && r.v.Num? then r.v.n else 0
  }

  /** A time of 0 makes the wrapper send SET without any expiry. */
  function Deadline(now: nat, ttl: nat): Option<nat> {
    if ttl == 0 then None else Some(now + 1000 * ttl)
  }

  function Without<K(==)>(m: map<K, Entry>, ks: set<K>): map<K, Entry> {
    map k | k in m && k !in ks :: m[k]
  }

  /** The effect and the answer of one command. A command that errors changes nothing. */
  function Do<K(==)>(db: Db<K>, cmd: Cmd<K>): (Db<K>, Reply) {
    match cmd
    case Nop => (db, OK)
    case Get(k) =>
      (db, if k in db.kv then Val(db.kv[k].value) else Nil)
    case Set(k, v, ttl) =>
      (db.(kv := db.kv[k := Entry(v, Deadline(db.now, ttl))]), OK)
    case Del(ks) =>
      (db.(kv := Without(db.kv, ks)), Int(|ks * db.kv.Keys|))
    case Incr(k) =>
      if k !in db.kv then (db.(kv := db.kv[k := Entry(Num(1), None)]), Int(1))
      else if db.kv[k].value.Text? then (db, Err)
      else
        var n := db.kv[k].value.n + 1;
        (db.(kv := db.kv[k := Entry(Num(n), db.kv[k].expiresAt)]), Int(n))
    case Expire(k, seconds) =>
      if k !in db.kv then (db, Int(0))
      else if seconds == 0 then (db.(kv := Without(db.kv, {k})), Int(1))
      else (db.(kv := db.kv[k := Entry(db.kv[k].value, Some(db.now + 1000 * seconds))]), Int(1))
    case CompareAndSet(k, expected, next, ttl) =>
      if k !in db.kv || db.kv[k].value != expected then (db, Int(0))
      else if ttl == 0 then (db, Err)
      else (db.(kv := db.kv[k := Entry(next, Some(db.now + 1000 * ttl))]), Int(1))
    case AcquireLock(k, token, ttl) =>
      if ttl == 0 then (db, Err)
      else if k in db.kv then (db, Nil)
      else (db.(kv := db.kv[k := Entry(token, Some(db.now + 1000 * ttl))]), OK)
    case ReleaseLock(k, token) =>
      if k in db.kv && db.kv[k].value == token then (db.(kv := Without(db.kv, {k})), Int(1))
      else (db, Int(0))
  }

  predicate Live(e: Entry, now: nat) {
    e.expiresAt.Some? ==> now < e.expiresAt.value
  }

  /** Time passes: keys whose deadline has come are gone. */
  function Tick<K(==)>(db: Db<K>, ms: nat): Db<K> {
    Db(db.now + ms, map k | k in db.kv && Live(db.kv[k], db.now + ms) :: db.kv[k])
  }

  /** What the caller of the client gets: a command that is not sent has no effect and answers `Down`. */
  function Send<K(==)>(db: Db<K>, ready: bool, cmd: Cmd<K>): (Db<K>, Reply) {
    if ready then Do(db, cmd) else (db, Down)
  }

  /** The batches of a scan one after the other, with the keys they repeat. */
  function Concat<K>(batches: seq<seq<K>>): seq<K> {
    if batches == [] then [] else Concat(batches[..|batches| - 1]) + batches[|batches| - 1]
  }

  /** One exchange with Redis as the caller saw it: a command with its reply, or a whole scan with what it returned. */
  datatype Exchange<!K(==)> = Sent(cmd: Cmd<K>, reply: Reply) | Scanned(found: seq<K>)

  /** The server. A method is one command or one script, which Redis runs without interruption. */
  class RedisServer<K(==)> {
    var now: nat
    var store: map<K, Entry>

    constructor ()
      ensures now == 0 && store == map[]
    {
      now, store := 0, map[];
    }

    function State(): Db<K>
      reads this
    {
      Db(now, store)
    }

    method Set(key: K, value: Value, ttl: nat) returns (r: Reply)
      modifies this`store
      ensures (State(), r) == Do(old(State()), Cmd.Set(key, value, ttl))
      ensures store == old(store)[key := Entry(value, if ttl == 0 then None else Some(now + 1000 * ttl))]
    {
      if ttl != 0 {
        store := store[key := Entry(value, Some(now + 1000 * ttl))];
      } else {
        store := store[key := Entry(value, None)];
      }
      r := OK;
    }

    method Get(key: K) returns (r: Reply)
      ensures r == Do(State(), Cmd.Get(key)).1
      ensures r == if key in store then Val(store[key].value) else Nil
    {
      r := if key in store then Val(store[key].value) else Nil;
    }

    method Del(keys: set<K>) returns (r: Reply)
      modifies this`store
      ensures (State(), r) == Do(old(State()), Cmd.Del(keys))
      ensures forall k :: k in store <==> k in old(store) && k !in keys
      ensures forall k :: k in store ==> store[k] == old(store)[k]
      ensures r == Int(|keys * old(store).Keys|)
    {
      var removed := keys * store.Keys;
      store := map k | k in store && k !in keys :: store[k];
      r := Int(|removed|);
    }

    method Incr(key: K) returns (r: Reply)
      modifies this`store
      ensures (State(), r) == Do(old(State()), Cmd.Incr(key))
      ensures key !in old(store) ==> r == Int(1) && store == old(store)[key := Entry(Num(1), None)]
      ensures key in old(store) && old(store)[key].value.Text? ==> r == Err && store == old(store)
      ensures key in old(store) && old(store)[key].value.Num? ==>
                r == Int(old(store)[key].value.n + 1)
                && store == old(store)[key := Entry(Num(old(store)[key].value.n + 1), old(store)[key].expiresAt)]
    {
      if key !in store {
        store := store[key := Entry(Num(1), None)];
        return Int(1);
      }
      match store[key].value
      case Text(_) => return Err;
      case Num(n) =>
        store := store[key := store[key].(value := Num(n + 1))];
        return Int(n + 1);
    }

    method Expire(key: K, seconds: nat) returns (r: Reply)
      modifies this`store
      ensures (State(), r) == Do(old(State()), Cmd.Expire(key, seconds))
      ensures r == if key in old(store) then Int(1) else Int(0)
      ensures key !in old(store) ==> store == old(store)
      ensures key in old(store) && seconds == 0 ==>
                key !in store && forall k :: k in old(store) && k != key ==> k in store && store[k] == old(store)[k]
      ensures key in old(store) && seconds > 0 ==>
                store == old(store)[key := Entry(old(store)[key].value, Some(now + 1000 * seconds))]
    {
      if key !in store { return Int(0); }
      if seconds == 0 {
        store := map k | k in store && k != key :: store[k];
        assert store == Without(old(store), {key});
      } else {
        store := store[key := store[key].(expiresAt := Some(now + 1000 * seconds))];
      }
      r := Int(1);
    }

    /** The script of the client's compare-and-set. */
    method CompareAndSet(key: K, expected: Value, next: Value, ttl: nat) returns (r: Reply)
      modifies this`store
      ensures (State(), r) == Do(old(State()), Cmd.CompareAndSet(key, expected, next, ttl))
      ensures r == Int(1) <==> ttl > 0 && key in old(store) && old(store)[key].value == expected
      ensures r == Int(1) ==> store == old(store)[key := Entry(next, Some(now + 1000 * ttl))]
      ensures r != Int(1) ==> store == old(store)
    {
      if key in store && store[key].value == expected {
        if ttl == 0 { return Err; }
        store := store[key := Entry(next, Some(now + 1000 * ttl))];
        return Int(1);
      }
      r := Int(0);
    }

    /** SET with NX and EX. */
    method SetIfAbsent(key: K, token: Value, ttl: nat) returns (r: Reply)
      modifies this`store
      ensures (State(), r) == Do(old(State()), Cmd.AcquireLock(key, token, ttl))
      ensures r == OK <==> ttl > 0 && key !in old(store)
      ensures r == OK ==> store == old(store)[key := Entry(token, Some(now + 1000 * ttl))]
      ensures r != OK ==> store == old(store)
    {
      if ttl == 0 { return Err; }
      if key in store { return Nil; }
      store := store[key := Entry(token, Some(now + 1000 * ttl))];
      r := OK;
    }

    /** The script of the client's lock release. */
    method CompareAndDelete(key: K, token: Value) returns (r: Reply)
      modifies this`store
      ensures (State(), r) == Do(old(State()), Cmd.ReleaseLock(key, token))
      ensures r == Int(1) <==> key in old(store) && old(store)[key].value == token
      ensures forall k :: k in store <==> k in old(store) && !(k == key && r == Int(1))
      ensures forall k :: k in store ==> store[k] == old(store)[k]
    {
      if key in store && store[key].value == token {
        store := map k | k in store && k != key :: store[k];
        assert store == Without(old(store), {key});
        return Int(1);
      }
      r := Int(0);
    }

    method Execute(cmd: Cmd<K>) returns (r: Reply)
      modifies this`store
      ensures (State(), r) == Do(old(State()), cmd)
    {
      match cmd
      case Nop => r := OK;
      case Get(k) => r := Get(k);
      case Set(k, v, ttl) => r := Set(k, v, ttl);
      case Del(ks) => r := Del(ks);
      case Incr(k) => r := Incr(k);
      case Expire(k, seconds) => r := Expire(k, seconds);
      case CompareAndSet(k, expected, next, ttl) => r := CompareAndSet(k, expected, next, ttl);
      case AcquireLock(k, token, ttl) => r := SetIfAbsent(k, token, ttl);
      case ReleaseLock(k, token) => r := CompareAndDelete(k, token);
    }
  }

  /**
   The client. Between a caller's call and its continuation anything may happen to the store, the clock and
   the connection (`Await`), and the reply may get lost (`Receive`); only a `quiet` client is alone with the
   server. `talk` is the conversation so far. Exceptions are reported as the replies `Err` and `Down`.
   */
  class RedisClient<K(==)> {
    const server: RedisServer<K>
    var ready: bool
    ghost const quiet: bool
    ghost var talk: seq<Exchange<K>>

    constructor (server: RedisServer<K>, ghost quiet: bool)
      ensures this.server == server && this.quiet == quiet && ready && talk == []
    {
      this.server, this.quiet, ready, talk := server, quiet, true, [];
    }

    function State(): Db<K>
      reads this, server
    {
      server.State()
    }

    /** Other requests go on. Callers know nothing of what they did, unless nobody interferes. */
    method Await()
      modifies this`ready, server
      ensures quiet ==> State() == old(State()) && ready == old(ready)
    {
    }

    /** The reply as it comes in. Callers do not know whether it does, unless nobody interferes. */
    method Receive(r: Reply) returns (seen: Reply)
      ensures seen == r || seen == Err
      ensures quiet ==> seen == r
    {
      seen := r;
    }

    /** The command was the next and only thing said; undisturbed, it had its effect on the present store. */
    twostate predicate Says(cmd: Cmd<K>, r: Reply)
      reads this, server
    {
      && talk == old(talk) + [Sent(cmd, r)]
      && (r.Down? <==> !old(ready))
      && (quiet ==> (State(), r) == Send(old(State()), old(ready), cmd) && ready == old(ready))
    }

    method Call(cmd: Cmd<K>) returns (r: Reply)
      modifies this`ready, this`talk, server
      ensures Says(cmd, r)
    {
      if !ready {
        talk := talk + [Sent(cmd, Down)];
        return Down;
      }
      Await();
      var reply := server.Execute(cmd);
      r := Receive(reply);
      Await();
      talk := talk + [Sent(cmd, r)];
    }

    /** A command that is not sent. */
    ghost method Skip(cmd: Cmd<K>)
      requires !ready
      modifies this`talk
      ensures Says(cmd, Down)
    {
      talk := talk + [Sent(cmd, Down)];
    }

    method Set(key: K, value: Value, ttl: nat) returns (r: Reply)
      modifies this`ready, this`talk, server
      ensures Says(Cmd.Set(key, value, ttl), r)
    {
      r := Call(Cmd.Set(key, value, ttl));
    }

    method Get(key: K) returns (r: Reply)
      modifies this`ready, this`talk, server
      ensures Says(Cmd.Get(key), r)
    {
      r := Call(Cmd.Get(key));
    }

    /** Without keys nothing is said. */
    method Del(keys: seq<K>) returns (r: Reply)
      modifies this`ready, this`talk, server
      ensures |keys| > 0 ==> Says(Cmd.Del(set k | k in keys), r)
      ensures |keys| == 0 ==> r == Int(0) && unchanged(this, server)
    {
      if |keys| == 0 { return Int(0); }
      r := Call(Cmd.Del(set k | k in keys));
    }

    method Incr(key: K) returns (r: Reply)
      modifies this`ready, this`talk, server
      ensures Says(Cmd.Incr(key), r)
    {
      r := Call(Cmd.Incr(key));
    }

    method Expire(key: K, seconds: nat) returns (r: Reply)
      modifies this`ready, this`talk, server
      ensures Says(Cmd.Expire(key, seconds), r)
    {
      r := Call(Cmd.Expire(key, seconds));
    }

    /** One script, not a GET followed by a SET. */
    method CompareAndSet(key: K, expected: Value, next: Value, ttl: nat) returns (r: Reply)
      modifies this`ready, this`talk, server
      ensures Says(Cmd.CompareAndSet(key, expected, next, ttl), r)
    {
      r := Call(Cmd.CompareAndSet(key, expected, next, ttl));
    }

    method AcquireLock(key: K, token: Value, ttl: nat) returns (r: Reply)
      modifies this`ready, this`talk, server
      ensures Says(Cmd.AcquireLock(key, token, ttl), r)
    {
      r := Call(Cmd.AcquireLock(key, token, ttl));
    }

    method ReleaseLock(key: K, token: Value) returns (r: Reply)
      modifies this`ready, this`talk, server
      ensures Says(Cmd.ReleaseLock(key, token), r)
    {
      r := Call(Cmd.ReleaseLock(key, token));
    }

    /** A scan was the next and only thing done, and returned `found`. */
    twostate predicate Scans(new found: seq<K>)
      reads this, server
    {
      && talk == old(talk) + [Scanned(found)]
      && (quiet ==> State() == old(State()) && ready == old(ready))
    }

    /**
     SCAN: the cursor hands over batches, which the method appends one after the other; between them others
     go on. The batches are the server's choice.
     */
    method Keys(batches: seq<seq<K>>) returns (found: seq<K>)
      modifies this`ready, this`talk, server
      ensures found == Concat(batches) && Scans(found)
      ensures forall k :: k in found <==> exists b :: 0 <= b < |batches| && k in batches[b]
    {
      found := [];
      for b := 0 to |batches|
        invariant found == Concat(batches[..b])
        invariant forall k :: k in found <==> exists c :: 0 <= c < b && k in batches[c]
        invariant talk == old(talk)
        invariant quiet ==> State() == old(State()) && ready == old(ready)
      {
        Await();
        assert batches[..b + 1][..b] == batches[..b];
        found := found + batches[b];
      }
      assert batches[..|batches|] == batches;
      talk := talk + [Scanned(found)];
    }

    /** A scan that cannot be sent, or breaks off, counts as one without keys. */
    method SafeKeys(batches: seq<seq<K>>) returns (found: seq<K>)
      modifies this`ready, this`talk, server
      ensures Scans(found) && (found == Concat(batches) || found == [])
      ensures !old(ready) ==> found == []
      ensures quiet && old(ready) ==> found == Concat(batches)
    {
      if !ready {
        talk := talk + [Scanned([])];
        return [];
      }
      var complete := Receive(OK);
      if Threw(complete) {
        Await();
        talk := talk + [Scanned([])];
        return [];
      }
      found := Keys(batches);
    }

    /** Nothing instead of an exception; `raw` is what came back. */
    method SafeGet(key: K) returns (r: Reply, ghost raw: Reply)
      modifies this`ready, this`talk, server
      ensures Says(Cmd.Get(key), raw) && r == if Threw(raw) then Nil else raw
    {
      if !ready {
        Skip(Cmd.Get(key));
        return Nil, Down;
      }
      var reply := Get(key);
      return if Threw(reply) then Nil else reply, reply;
    }

    /** -1 instead of an exception. */
    method SafeIncr(key: K) returns (n: int, ghost raw: Reply)
      modifies this`ready, this`talk, server
      ensures Says(Cmd.Incr(key), raw) && n == if raw.Int? then raw.n else -1
    {
      if !ready {
        Skip(Cmd.Incr(key));
        return -1, Down;
      }
      var reply := Incr(key);
      return if reply.Int? then reply.n else -1, reply;
    }

    method SafeDel(keys: seq<K>) returns (ghost raw: Reply)
      modifies this`ready, this`talk, server
      ensures |keys| > 0 ==> Says(Cmd.Del(set k | k in keys), raw)
      ensures |keys| == 0 ==> unchanged(this, server)
    {
      if |keys| > 0 && !ready {
        Skip(Cmd.Del(set k | k in keys));
        return Down;
      }
      raw := Del(keys);
    }

    method SafeExpire(key: K, seconds: nat) returns (ghost raw: Reply)
      modifies this`ready, this`talk, server
      ensures Says(Cmd.Expire(key, seconds), raw)
    {
      if !ready {
        Skip(Cmd.Expire(key, seconds));
        return Down;
      }
      raw := Expire(key, seconds);
    }
  }
}
