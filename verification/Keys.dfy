/**
 The Redis key space of the authentication code. `Render` spells a key the way the template strings of
 the source do; the lemmas show that working on unrendered keys, as the protocol modules do, loses
 nothing.
 */
module Keys {
  import opened Redis
  import opened Renaming

  datatype Key =
    | Rt(user: int, family: string)
    | Epoch(user: int)
    | Blocked(jti: string)
    | LoginFail(email: string)

  // ----- Decimal rendering of integers, as `${n}` does it

  function Digits(n: nat): string {
    if n < 10 then [Digit(n)] else Digits(n / 10) + [Digit(n % 10)]
  }

  function Digit(d: nat): char
    requires d < 10
  {
    "0123456789"[d]
  }

  function DigitValue(c: char): nat {
    if '0' <= c <= '9' then (c as int) - ('0' as int) else 0
  }

  function ValueOf(s: string): nat {
    if s == "" then 0 else 10 * ValueOf(s[..|s| - 1]) + DigitValue(s[|s| - 1])
  }

  function Decimal(n: int): string {
    if n < 0 then "-" + Digits(-n) else Digits(n)
  }

  lemma {:induction false} DigitsRoundTrip(n: nat)
    ensures ValueOf(Digits(n)) == n
    ensures Digits(n) != "" && forall c :: c in Digits(n) ==> '0' <= c <= '9'
  {
    if n < 10 {
      assert Digits(n)[..0] == "";
    } else {
      DigitsRoundTrip(n / 10);
      assert Digits(n)[..|Digits(n)| - 1] == Digits(n / 10);
    }
  }

  lemma DecimalHasNoColon(n: int)
    ensures ':' !in Decimal(n)
  {
    DigitsRoundTrip(if n < 0 then -n else n);
  }

  /** What `Number(...)` reads back from the rendering. */
  function Parse(s: string): int {
    if s != "" && s[0] == '-' then 0 - (ValueOf(s[1..]) as int) else ValueOf(s)
  }

  lemma DecimalRoundTrip(n: int)
    ensures Parse(Decimal(n)) == n
  {
    if n < 0 {
      var x: nat := -n;
      DigitsRoundTrip(x);
      assert Decimal(n)[1..] == Digits(x);
    } else {
      DigitsRoundTrip(n);
      assert Decimal(n)[0] in Digits(n);
    }
  }

  lemma DecimalInjective(m: int, n: int)
    requires Decimal(m) == Decimal(n)
    ensures m == n
  {
    DecimalRoundTrip(m);
    DecimalRoundTrip(n);
  }

  lemma DropPrefix(p: string, x: string, y: string)
    requires p + x == p + y
    ensures x == y
  {
    assert x == (p + x)[|p|..] && y == (p + y)[|p|..];
  }

  // ----- Key strings

  function Prefix(k: Key): string {
    match k
    case Rt(_, _) => "rt:"
    case Epoch(_) => "session:epoch:"
    case Blocked(_) => "blocked:"
    case LoginFail(_) => "login:fail:"
  }

  function Body(k: Key): string {
    match k
    case Rt(user, family) => Decimal(user) + ":" + family
    case Epoch(user) => Decimal(user)
    case Blocked(jti) => jti
    case LoginFail(email) => email
  }

  function Render(k: Key): string {
    Prefix(k) + Body(k)
  }

  /** The spellings, by example. */
  lemma Spellings()
    ensures Render(Rt(120, "f")) == "rt:120:f"
    ensures Render(Epoch(-7)) == "session:epoch:-7"
    ensures Render(Blocked("j")) == "blocked:j"
    ensures Render(LoginFail("a@b.c")) == "login:fail:a@b.c"
    ensures FamilyPattern(120) == "rt:120:*"
  {
    assert Digits(1) == "1" && Digits(12) == "12" && Digits(120) == "120" && Digits(7) == "7";
  }

  /** The pattern `revokeAllFamilies` scans for. */
  function FamilyPattern(user: int): string {
    "rt:" + Decimal(user) + ":" + "*"
  }

  /** Redis MATCH for patterns built from literals, `*` and `?`. */
  predicate Glob(p: string, s: string)
    decreases |p| + |s|
  {
    if p == "" then s == ""
    else if p[0] == '*' then Glob(p[1..], s) || (s != "" && Glob(p, s[1..]))
    else s != "" && (p[0] == '?' || p[0] == s[0]) && Glob(p[1..], s[1..])
  }

  lemma {:induction false} StarMatchesAll(s: string)
    ensures Glob("*", s)
  {
    if s == "" {
      assert Glob("*"[1..], s);
    } else {
      StarMatchesAll(s[1..]);
    }
  }

  lemma {:induction false} GlobPrefix(lit: string, s: string)
    requires '*' !in lit && '?' !in lit
    ensures Glob(lit + "*", s) <==> lit <= s
  {
    if lit == "" {
      assert lit + "*" == "*";
      StarMatchesAll(s);
    } else {
      assert (lit + "*")[1..] == lit[1..] + "*";
      if s != "" {
        GlobPrefix(lit[1..], s[1..]);
        assert lit <= s <==> lit[0] == s[0] && lit[1..] <= s[1..];
      }
    }
  }

  lemma {:induction false} SplitAtColon(a: string, x: string, b: string, y: string)
    requires ':' !in a && ':' !in b
    requires a + ":" + x == b + ":" + y
    ensures a == b && x == y
  {
    var s, t := a + ":" + x, b + ":" + y;
    assert s[0] == t[0];
    if a != "" && b != "" {
      assert s[1..] == a[1..] + ":" + x && t[1..] == b[1..] + ":" + y;
      SplitAtColon(a[1..], x, b[1..], y);
    } else {
      assert a == b == "";
      assert x == s[1..] && y == t[1..];
    }
  }

  lemma SameKind(k: Key, l: Key)
    requires Render(k) == Render(l)
    ensures Prefix(k) == Prefix(l)
  {
    assert Render(k)[0] == Prefix(k)[0] && Render(l)[0] == Prefix(l)[0];
  }

  /** Distinct keys have distinct strings: no two kinds of key ever meet, whatever the email or jti. */
  lemma RenderInjective(k: Key, l: Key)
    requires Render(k) == Render(l)
    ensures k == l
  {
    SameKind(k, l);
    DropPrefix(Prefix(k), Body(k), Body(l));
    BodyInjective(k, l);
  }

  lemma BodyInjective(k: Key, l: Key)
    requires Prefix(k)[0] == Prefix(l)[0] && Body(k) == Body(l)
    ensures k == l
  {
    if k.Rt? {
      DecimalHasNoColon(k.user);
      DecimalHasNoColon(l.user);
      SplitAtColon(Decimal(k.user), k.family, Decimal(l.user), l.family);
    }
    if k.Rt? || k.Epoch? {
      DecimalInjective(k.user, l.user);
    }
  }

  /** The scan pattern of a user selects exactly that user's families: user 1 never hits user 12. */
  lemma PatternSelectsExactlyTheFamilies(user: int, k: Key)
    ensures Glob(FamilyPattern(user), Render(k)) <==> k.Rt? && k.user == user
  {
    var lit := FamilyLiteral(user);
    PlainLiteral(user);
    assert FamilyPattern(user) == lit + "*";
    GlobPrefix(lit, Render(k));
    if k.Rt? {
      FamilyPrefix(user, k);
    } else {
      OtherKinds(user, k);
    }
  }

  function FamilyLiteral(user: int): string {
    "rt:" + (Decimal(user) + ":")
  }

  lemma PlainLiteral(user: int)
    ensures '*' !in FamilyLiteral(user) && '?' !in FamilyLiteral(user)
  {
    DigitsRoundTrip(if user < 0 then -user else user);
  }

  lemma OtherKinds(user: int, k: Key)
    requires !k.Rt?
    ensures !(FamilyLiteral(user) <= Render(k))
  {
    assert Render(k)[0] == Prefix(k)[0] != 'r';
    assert FamilyLiteral(user)[0] == 'r';
  }

  lemma FamilyPrefix(user: int, k: Key)
    requires k.Rt?
    ensures FamilyLiteral(user) <= Render(k) <==> k.user == user
  {
    var lit := FamilyLiteral(user);
    if k.user == user {
      assert Render(k) == lit + k.family;
    } else if lit <= Render(k) {
      var rest := Render(k)[|lit|..];
      assert "rt:" + (Decimal(user) + ":" + rest) == lit + rest == Render(k);
      DropPrefix("rt:", Decimal(user) + ":" + rest, Body(k));
      DecimalHasNoColon(user);
      DecimalHasNoColon(k.user);
      SplitAtColon(Decimal(user), rest, Decimal(k.user), k.family);
      DecimalInjective(user, k.user);
      assert false;
    }
  }

  // ----- The store on rendered keys does what the store on keys does

  /** Each command commutes with rendering: same answer, and the rendering of the same new store. */
  lemma CommandsCommuteWithRendering(db: Db<Key>, cmd: Cmd<Key>)
    ensures Injective(Render)
    ensures Do(RenameDb(db, Render), RenameCmd(cmd, Render)) == (RenameDb(Do(db, cmd).0, Render), Do(db, cmd).1)
  {
    forall k, l | Render(k) == Render(l) ensures k == l {
      RenderInjective(k, l);
    }
    CommandsCommute(db, cmd, Render);
  }
}
