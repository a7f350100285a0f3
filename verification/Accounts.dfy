/**
 Failure counters and accounts. A counter belongs to an email in lower case and without surrounding blanks; an
 account belongs to an email as it was typed. How far passwords can be guessed depends on whether the two agree.
 */
module Accounts {
  import opened Common
  import opened Text
  import opened Redis
  import opened Keys
  import opened Sessions
  import opened Requests
  import Identity
  import IdentityIntegrity
  import AccessControl

  /** White space and line ends, as `trim` knows them. */
  predicate Blank(c: char) {
    var n := c as int;
    9 <= n <= 13 || 0x2000 <= n <= 0x200A
    || n in {0x20, 0xA0, 0x1680, 0x2028, 0x2029, 0x202F, 0x205F, 0x3000, 0xFEFF}
  }

  function Trim(s: string): string {
    if s == "" then ""
    else if Blank(s[0]) then Trim(s[1..])
    else if Blank(s[|s| - 1]) then Trim(s[..|s| - 1])
    else s
  }

  /** The email a counter is kept under. */
  function Normalize(email: string): string {
    LowerCase(Trim(email))
  }

  function CounterOf(email: string): Key {
    LoginFail(Normalize(email))
  }

  /** A login with the email as typed; `ok` if an account has just this email and the password is right. */
  datatype Attempt = Attempt(email: string, ok: bool)

  function ChoiceFor(ok: bool): Choice {
    Choice(if ok then Some(0) else None, "", "", "")
  }

  /** One login, run alone. */
  function Try(cfg: Config, db: Db<Key>, t: Attempt): Db<Key> {
    Solo(cfg, db, LoginCheck(Normalize(t.email)), ChoiceFor(t.ok), true).0
  }

  /** Logins one after the other, within one lock window. */
  function Play(cfg: Config, tries: seq<Attempt>): Db<Key> {
    if tries == [] then Db(0, map[]) else Try(cfg, Play(cfg, tries[..|tries| - 1]), tries[|tries| - 1])
  }

  /** Whether a login gets as far as the password. */
  predicate Passes(cfg: Config, db: Db<Key>, email: string) {
    Stored(db, CounterOf(email)) < cfg.maxAttempts
  }

  /** The wrong passwords that were tried on the account `e` since it last logged in. */
  function Guesses(cfg: Config, tries: seq<Attempt>, e: string): nat {
    if tries == [] then 0
    else
      var init, t := tries[..|tries| - 1], tries[|tries| - 1];
      if t.email != e || !Passes(cfg, Play(cfg, init), e) then Guesses(cfg, init, e)
      else if t.ok then 0
      else Guesses(cfg, init, e) + 1
  }

  /** Only accounts log in. */
  ghost predicate Possible(accounts: set<string>, tries: seq<Attempt>) {
    forall i :: 0 <= i < |tries| && tries[i].ok ==> tries[i].email in accounts
  }

  /** What is left of the two emails between their blanks differs in capitals at most. */
  predicate Alike(e: string, f: string) {
    SameLetters(Trim(e), Trim(f))
  }

  /** No other account has an email like `e`. */
  ghost predicate OwnCounter(accounts: set<string>, e: string) {
    forall f :: f in accounts && Alike(f, e) ==> f == e
  }

  /** Trimming takes blanks off both ends, all of them and nothing else. */
  lemma {:induction false} TrimmedAtBothEnds(s: string) returns (before: string, after: string)
    ensures s == before + Trim(s) + after
    ensures (forall c :: c in before ==> Blank(c)) && (forall c :: c in after ==> Blank(c))
    ensures Trim(s) != "" ==> !Blank(Trim(s)[0]) && !Blank(Trim(s)[|Trim(s)| - 1])
  {
    if s == "" {
      before, after := "", "";
    } else if Blank(s[0]) {
      before, after := TrimmedAtBothEnds(s[1..]);
      before := [s[0]] + before;
    } else if Blank(s[|s| - 1]) {
      before, after := TrimmedAtBothEnds(s[..|s| - 1]);
      after := after + [s[|s| - 1]];
    } else {
      before, after := "", "";
    }
  }

  /** Emails share a counter exactly when they are alike. */
  lemma SharedCounters(e: string, f: string)
    ensures CounterOf(e) == CounterOf(f) <==> Alike(e, f)
  {
    EqualButForCase(Trim(e), Trim(f));
  }

  // ----- One login

  /** What one login does to the counter `x`. */
  lemma TryEffect(cfg: Config, db: Db<Key>, t: Attempt, x: string)
    requires CounterSound(db, Normalize(t.email)) && CounterSound(db, x)
    ensures CounterSound(Try(cfg, db, t), x)
    ensures Stored(Try(cfg, db, t), LoginFail(x)) ==
            if x != Normalize(t.email) || !Passes(cfg, db, t.email) then Stored(db, LoginFail(x))
            else if t.ok then 0
            else if cfg.lockSeconds == 0 && LoginFail(x) !in db.kv then 0
            else Stored(db, LoginFail(x)) + 1
  {
    var n := Normalize(t.email);
    if !Passes(cfg, db, t.email) {
      LockedLogin(cfg, db, n, ChoiceFor(t.ok));
    } else if t.ok {
      GrantedLogin(cfg, db, n, ChoiceFor(true));
    } else {
      FailedLogin(cfg, db, n, ChoiceFor(false));
    }
  }

  lemma {:induction false} CountersSound(cfg: Config, tries: seq<Attempt>, x: string)
    ensures CounterSound(Play(cfg, tries), x)
    ensures cfg.lockSeconds == 0 ==> LoginFail(x) !in Play(cfg, tries).kv
    decreases |tries|
  {
    if tries != [] {
      var init, t := tries[..|tries| - 1], tries[|tries| - 1];
      CountersSound(cfg, init, x);
      CountersSound(cfg, init, Normalize(t.email));
      TryEffect(cfg, Play(cfg, init), t, x);
      if cfg.lockSeconds == 0 { NeverCounted(cfg, Play(cfg, init), t, x); }
    }
  }

  lemma NeverCounted(cfg: Config, db: Db<Key>, t: Attempt, x: string)
    requires cfg.lockSeconds == 0 && LoginFail(Normalize(t.email)) !in db.kv && LoginFail(x) !in db.kv
    ensures LoginFail(x) !in Try(cfg, db, t).kv
  {
    var n := Normalize(t.email);
    if !Passes(cfg, db, t.email) {
      LockedLogin(cfg, db, n, ChoiceFor(t.ok));
    } else if t.ok {
      GrantedLogin(cfg, db, n, ChoiceFor(true));
    } else {
      FailedLogin(cfg, db, n, ChoiceFor(false));
    }
  }

  // ----- The bound, and how it breaks

  /** While the counter is its own, or no login passes it twice, guesses are counted and the counter is bounded. */
  lemma {:induction false} GuessesAreCounted(cfg: Config, accounts: set<string>, tries: seq<Attempt>, e: string)
    requires Possible(accounts, tries) && cfg.lockSeconds > 0
    requires OwnCounter(accounts, e) || cfg.maxAttempts <= 1
    ensures Guesses(cfg, tries, e) <= Stored(Play(cfg, tries), CounterOf(e)) <= cfg.maxAttempts
    decreases |tries|
  {
    if tries != [] {
      var init, t := tries[..|tries| - 1], tries[|tries| - 1];
      assert Possible(accounts, init);
      GuessesAreCounted(cfg, accounts, init, e);
      CountersSound(cfg, init, Normalize(e));
      CountersSound(cfg, init, Normalize(t.email));
      TryEffect(cfg, Play(cfg, init), t, Normalize(e));
      SharedCounters(t.email, e);
      assert t.ok ==> t.email in accounts;
    }
  }

  lemma OneMore(cfg: Config, tries: seq<Attempt>, t: Attempt, e: string)
    ensures Play(cfg, tries + [t]) == Try(cfg, Play(cfg, tries), t)
    ensures Guesses(cfg, tries + [t], e) ==
            if t.email != e || !Passes(cfg, Play(cfg, tries), e) then Guesses(cfg, tries, e)
            else if t.ok then 0
            else Guesses(cfg, tries, e) + 1
  {
    assert (tries + [t])[..|tries|] == tries;
  }

  /** Without a lock duration, failures are never counted. */
  lemma {:induction false} GuessWithoutLock(cfg: Config, e: string, m: nat) returns (tries: seq<Attempt>)
    requires cfg.lockSeconds == 0 && cfg.maxAttempts > 0
    ensures (forall i :: 0 <= i < |tries| ==> !tries[i].ok) && Guesses(cfg, tries, e) == m
  {
    if m == 0 {
      tries := [];
    } else {
      var init := GuessWithoutLock(cfg, e, m - 1);
      CountersSound(cfg, init, Normalize(e));
      OneMore(cfg, init, Attempt(e, false), e);
      tries := init + [Attempt(e, false)];
    }
  }

  /** Logging in to another account with the same counter after each guess clears it every time. */
  lemma {:induction false} GuessBehindTwin(cfg: Config, e: string, f: string, m: nat) returns (tries: seq<Attempt>)
    requires cfg.maxAttempts >= 2 && f != e && Normalize(f) == Normalize(e)
    ensures forall i :: 0 <= i < |tries| && tries[i].ok ==> tries[i].email == f
    ensures Guesses(cfg, tries, e) == m && Stored(Play(cfg, tries), CounterOf(e)) == 0
  {
    if m == 0 {
      tries := [];
    } else {
      var init := GuessBehindTwin(cfg, e, f, m - 1);
      var guess, clear := Attempt(e, false), Attempt(f, true);
      CountersSound(cfg, init, Normalize(e));
      OneMore(cfg, init, guess, e);
      TryEffect(cfg, Play(cfg, init), guess, Normalize(e));
      var once := init + [guess];
      CountersSound(cfg, once, Normalize(e));
      OneMore(cfg, once, clear, e);
      TryEffect(cfg, Play(cfg, once), clear, Normalize(e));
      tries := once + [clear];
    }
  }

  /**
   Whatever logins there are within a lock window, no more than the maximum of wrong passwords is ever tried on
   an account since it last logged in, if and only if failures are counted at all and either one failure locks
   the account or no other account has the same email but for capitals and surrounding blanks.
   */
  lemma GuessesAreBoundedExactly(cfg: Config, accounts: set<string>, e: string)
    requires cfg.maxAttempts > 0
    ensures (forall tries :: Possible(accounts, tries) ==> Guesses(cfg, tries, e) <= cfg.maxAttempts)
            <==> cfg.lockSeconds > 0 && (cfg.maxAttempts == 1 || OwnCounter(accounts, e))
  {
    var many := cfg.maxAttempts + 1;
    if cfg.lockSeconds == 0 {
      var tries := GuessWithoutLock(cfg, e, many);
      assert Possible(accounts, tries);
    } else if cfg.maxAttempts == 1 || OwnCounter(accounts, e) {
      forall tries | Possible(accounts, tries) ensures Guesses(cfg, tries, e) <= cfg.maxAttempts {
        GuessesAreCounted(cfg, accounts, tries, e);
      }
    } else {
      var f :| f in accounts && Alike(f, e) && f != e;
      SharedCounters(f, e);
      var tries := GuessBehindTwin(cfg, e, f, many);
      assert Possible(accounts, tries);
    }
  }

  // ----- Such accounts exist

  /** Emails are compared as they were typed, so a second spelling of an email can be registered. */
  lemma TwoSpellingsTwoAccounts(s: Identity.Store, a: int, actor: AccessControl.Subject, dto: Identity.NewUser, now: int)
    requires IdentityIntegrity.Integrity(s) && Identity.ActiveUser(s, a)
    requires s.users[a].email == "Alice@x.com" && dto.email == "alice@x.com"
    requires AccessControl.AuthorizeCreate(actor, dto.teamId) && Identity.ActiveTeam(s, dto.teamId)
    requires forall id :: Identity.ActiveUser(s, id) ==> s.users[id].email != dto.email
    ensures Identity.CreateUser(s, actor, dto, now).1.Success?
    ensures s.users[a].email != dto.email && CounterOf(s.users[a].email) == CounterOf(dto.email)
  {
    IdentityIntegrity.CreateUserSucceedsExactly(s, actor, dto, now);
    assert Normalize("Alice@x.com") == Normalize("alice@x.com") == "alice@x.com";
  }
}
