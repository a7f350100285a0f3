/** Duration strings such as JWT_EXPIRES_IN, and why a blocklist entry outlives its token. */
module Durations {
  import opened Keys
  import Logout
  import Sessions

  const WEEK: nat := 7 * 24 * 60 * 60

  predicate AllDigits(s: string) {
    forall c :: c in s ==> '0' <= c <= '9'
  }

  /** Matches one or more digits followed by one unit letter. */
  predicate WellFormed(duration: string) {
    |duration| >= 2 && AllDigits(duration[..|duration| - 1]) && duration[|duration| - 1] in {'s', 'm', 'h', 'd'}
  }

  /** Anything else than digits and a unit counts as a week. */
  function ParseDurationToSeconds(duration: string): nat {
    if !WellFormed(duration) then WEEK
    else
      var value := ValueOf(duration[..|duration| - 1]);
      match duration[|duration| - 1]
      case 's' => value
      case 'm' => value * 60
      case 'h' => value * 60 * 60
      case _ => value * 24 * 60 * 60
  }

  datatype Unit = Second | Minute | Hour | Day

  function Letter(u: Unit): char {
    match u
    case Second => 's'
    case Minute => 'm'
    case Hour => 'h'
    case Day => 'd'
  }

  function SecondsIn(u: Unit): nat {
    match u
    case Second => 1
    case Minute => 60
    case Hour => 3600
    case Day => 86400
  }

  /** `n` units are `n` times the unit's length, however many leading zeros `n` is written with. */
  lemma ParseReadsBack(digits: string, u: Unit)
    requires digits != "" && AllDigits(digits)
    ensures ParseDurationToSeconds(digits + [Letter(u)]) == ValueOf(digits) * SecondsIn(u)
  {
    var s := digits + [Letter(u)];
    assert s[..|s| - 1] == digits;
  }

  /** Every number of units, written as usual, is read as that many seconds. */
  lemma ParseDecimal(n: nat, u: Unit)
    ensures ParseDurationToSeconds(Decimal(n) + [Letter(u)]) == n * SecondsIn(u)
  {
    DigitsRoundTrip(n);
    ParseReadsBack(Decimal(n), u);
  }

  /**
   The configuration the service builds from one duration string: the signer gives tokens `lifetime`
   seconds, the logout gives entries what the parser makes of the same string.
   */
  predicate BuiltFrom(cfg: Sessions.Config, duration: string, lifetime: nat) {
    cfg.blockTtl == ParseDurationToSeconds(duration) && cfg.accessLifetime == lifetime
  }

  /**
   For a duration of digits and a unit, signer and parser agree, so a logged-out token stays blocked for
   as long as it could be used.
   */
  lemma PlainDurationsCoverTokens(cfg: Sessions.Config, digits: string, u: Unit)
    requires digits != "" && AllDigits(digits)
    requires BuiltFrom(cfg, digits + [Letter(u)], ValueOf(digits) * SecondsIn(u))
    ensures forall at: Sessions.AccessToken, t: nat, now: nat ::
              at.iat * 1000 <= t <= now && !Sessions.Expired(cfg, at, now) ==> Logout.EntryAlive(cfg, t, now)
  {
    ParseReadsBack(digits, u);
    Logout.EntriesCoverTokensExactly(cfg);
  }

  predicate IsPlain(duration: string, digits: string, u: Unit) {
    digits != "" && (forall c :: c in digits ==> '0' <= c <= '9') && duration == digits + [Letter(u)]
  }

  /**
   A string that is not digits and a unit is read as a week, so for those the blocklist covers the tokens
   exactly when the signer gives them at most 604800 seconds.
   */
  lemma OtherDurationsCoverAWeek(cfg: Sessions.Config, duration: string, lifetime: nat)
    requires !exists digits, u :: IsPlain(duration, digits, u)
    requires BuiltFrom(cfg, duration, lifetime)
    ensures (forall at: Sessions.AccessToken, t: nat, now: nat ::
               at.iat * 1000 <= t <= now && !Sessions.Expired(cfg, at, now) ==> Logout.EntryAlive(cfg, t, now))
            <==> lifetime <= 604800
    ensures cfg.blockTtl == 604800
  {
    if WellFormed(duration) {
      var digits, c := duration[..|duration| - 1], duration[|duration| - 1];
      var u := if c == 's' then Second else if c == 'm' then Minute else if c == 'h' then Hour else Day;
      assert IsPlain(duration, digits, u);
    }
    Logout.EntriesCoverTokensExactly(cfg);
  }

  /** Two weeks written as "2w", which a signer may well understand: the entry is gone a week too early. */
  lemma TwoWeeksOutliveTheirEntry(cfg: Sessions.Config) returns (at: Sessions.AccessToken, t: nat, now: nat)
    requires BuiltFrom(cfg, "2w", 14 * 86400)
    ensures cfg.blockTtl == 604800 && cfg.accessLifetime == 1209600
    ensures at.iat * 1000 <= t <= now && !Sessions.Expired(cfg, at, now) && !Logout.EntryAlive(cfg, t, now)
  {
    at, t, now := Sessions.AccessToken(0, "", 0, 0), 0, 1000 * 604800;
  }
}
