/** The log sanitizer: masking of sensitive fields and cutting at a depth. */
module Sanitizer {
  import opened Text

  /** JavaScript values as the sanitizer tells them apart. Objects list their own entries in order. */
  datatype Json =
    | Null
    | Undefined
    | Bool(b: bool)
    | Num(n: int)
    | Str(s: string)
    | Arr(items: seq<Json>)
    | Obj(fields: seq<(string, Json)>)

  const SENSITIVE_FIELDS: seq<string> := [
    "password", "token", "accessToken", "refreshToken", "secret", "pin", "ssn", "creditCard", "cardNumber"]

  const MASK := Str("********")
  const CUT := Str("[MAX_DEPTH_REACHED]")

  predicate IsSensitiveField(name: string) {
    exists f :: f in SENSITIVE_FIELDS && Includes(LowerCase(name), f)
  }

  /** `typeof value === 'object'`; null is one. */
  predicate IsObject(v: Json) {
    v.Null? || v.Arr? || v.Obj?
  }

  // ----- The sanitizer; the room left, not the shape of the data, bounds the recursion

  function SanitizeAt(data: Json, maxDepth: int, depth: nat): Json
    decreases maxDepth - depth, 0
  {
    if depth >= maxDepth then CUT
    else match data
      case Arr(items) => Arr(SanitizeItems(items, maxDepth, depth + 1))
      case Obj(fields) => Obj(SanitizeFields(fields, maxDepth, depth + 1))
      case _ => data
  }

  function SanitizeItems(items: seq<Json>, maxDepth: int, depth: nat): (r: seq<Json>)
    ensures |r| == |items| && forall i :: 0 <= i < |r| ==> r[i] == SanitizeAt(items[i], maxDepth, depth)
    decreases maxDepth - depth, 1 + |items|
  {
    if items == [] then [] else [SanitizeAt(items[0], maxDepth, depth)] + SanitizeItems(items[1..], maxDepth, depth)
  }

  function SanitizeField(field: (string, Json), maxDepth: int, depth: nat): (string, Json)
    decreases maxDepth - depth, 1
  {
    if IsSensitiveField(field.0) then (field.0, MASK)
    else if IsObject(field.1) then (field.0, SanitizeAt(field.1, maxDepth, depth))
    else field
  }

  function SanitizeFields(fields: seq<(string, Json)>, maxDepth: int, depth: nat): (r: seq<(string, Json)>)
    ensures |r| == |fields| && forall i :: 0 <= i < |r| ==> r[i] == SanitizeField(fields[i], maxDepth, depth)
    decreases maxDepth - depth, 2 + |fields|
  {
    if fields == [] then []
    else [SanitizeField(fields[0], maxDepth, depth)] + SanitizeFields(fields[1..], maxDepth, depth)
  }

  function Sanitize(data: Json, maxDepth: int): Json {
    SanitizeAt(data, maxDepth, 0)
  }

  /** The recursion as the source runs it, filling the result entry by entry. */
  method SanitizeRecursive(data: Json, maxDepth: int, depth: nat) returns (r: Json)
    ensures r == SanitizeAt(data, maxDepth, depth)
    decreases maxDepth - depth, 0
  {
    if depth >= maxDepth { return CUT; }
    match data
    case Arr(items) =>
      var out := MapItems(items, maxDepth, depth + 1);
      return Arr(out);
    case Obj(fields) =>
      var result := FillResult(fields, maxDepth, depth + 1);
      return Obj(result);
    case _ => return data;
  }

  method MapItems(items: seq<Json>, maxDepth: int, depth: nat) returns (out: seq<Json>)
    ensures out == SanitizeItems(items, maxDepth, depth)
    decreases maxDepth - depth, 1
  {
    out := [];
    for i := 0 to |items|
      invariant |out| == i
      invariant forall j :: 0 <= j < i ==> out[j] == SanitizeAt(items[j], maxDepth, depth)
    {
      var item := SanitizeRecursive(items[i], maxDepth, depth);
      out := out + [item];
    }
  }

  method FillResult(fields: seq<(string, Json)>, maxDepth: int, depth: nat) returns (result: seq<(string, Json)>)
    ensures result == SanitizeFields(fields, maxDepth, depth)
    decreases maxDepth - depth, 1
  {
    result := [];
    for i := 0 to |fields|
      invariant |result| == i
      invariant forall j :: 0 <= j < i ==> result[j] == SanitizeField(fields[j], maxDepth, depth)
    {
      var (key, value) := fields[i];
      if IsSensitiveField(key) {
        result := result + [(key, MASK)];
      } else if IsObject(value) {
        var inner := SanitizeRecursive(value, maxDepth, depth);
        result := result + [(key, inner)];
      } else {
        result := result + [(key, value)];
      }
    }
  }

  // ----- Main results

  /** Arrays and objects nest in `v` at most `n` deep. */
  predicate NestsWithin(v: Json, n: int)
    decreases v
  {
    match v
    case Arr(items) => n >= 1 && forall i :: 0 <= i < |items| ==> NestsWithin(items[i], n - 1)
    case Obj(fields) => n >= 1 && forall i :: 0 <= i < |fields| ==> NestsWithin(fields[i].1, n - 1)
    case _ => true
  }

  /** No sensitive field is left unmasked anywhere in `v`. */
  predicate Masked(v: Json)
    decreases v
  {
    match v
    case Arr(items) => forall i :: 0 <= i < |items| ==> Masked(items[i])
    case Obj(fields) =>
      forall i :: 0 <= i < |fields| ==> if IsSensitiveField(fields[i].0) then fields[i].1 == MASK else Masked(fields[i].1)
    case _ => true
  }

  /** The output nests at most `maxDepth` deep and holds no sensitive value. */
  lemma {:induction false} OutputIsShallowAndMasked(v: Json, maxDepth: int, depth: nat)
    ensures NestsWithin(SanitizeAt(v, maxDepth, depth), if depth < maxDepth then maxDepth - depth else 0)
    ensures Masked(SanitizeAt(v, maxDepth, depth))
    decreases maxDepth - depth
  {
    if depth < maxDepth {
      match v
      case Arr(items) =>
        forall i | 0 <= i < |items| {
          OutputIsShallowAndMasked(items[i], maxDepth, depth + 1);
        }
      case Obj(fields) =>
        forall i | 0 <= i < |fields| {
          OutputIsShallowAndMasked(fields[i].1, maxDepth, depth + 1);
        }
      case _ =>
    }
  }

  /** Sanitizing what was sanitized changes nothing. */
  lemma {:induction false} SanitizeIsIdempotent(v: Json, maxDepth: int, depth: nat)
    ensures SanitizeAt(SanitizeAt(v, maxDepth, depth), maxDepth, depth) == SanitizeAt(v, maxDepth, depth)
    decreases maxDepth - depth
  {
    if depth < maxDepth {
      match v
      case Arr(items) =>
        forall i | 0 <= i < |items| {
          SanitizeIsIdempotent(items[i], maxDepth, depth + 1);
        }
        var once := SanitizeItems(items, maxDepth, depth + 1);
        assert SanitizeItems(once, maxDepth, depth + 1) == once;
      case Obj(fields) =>
        forall i | 0 <= i < |fields| {
          SanitizeIsIdempotent(fields[i].1, maxDepth, depth + 1);
        }
        var once := SanitizeFields(fields, maxDepth, depth + 1);
        assert SanitizeFields(once, maxDepth, depth + 1) == once;
      case _ =>
    }
  }

  /** Equal but for the values of sensitive fields. */
  predicate AgreeOutsideSecrets(v: Json, w: Json)
    decreases v
  {
    match v
    case Arr(items) =>
      w.Arr? && |w.items| == |items| && forall i :: 0 <= i < |items| ==> AgreeOutsideSecrets(items[i], w.items[i])
    case Obj(fields) =>
      w.Obj? && |w.fields| == |fields| && forall i :: 0 <= i < |fields| ==>
        fields[i].0 == w.fields[i].0 && (IsSensitiveField(fields[i].0) || AgreeOutsideSecrets(fields[i].1, w.fields[i].1))
    case _ => v == w
  }

  /** The output says nothing about secrets: data that differ only there have the same output. */
  lemma {:induction false} SecretsDoNotShow(v: Json, w: Json, maxDepth: int, depth: nat)
    requires AgreeOutsideSecrets(v, w)
    ensures SanitizeAt(v, maxDepth, depth) == SanitizeAt(w, maxDepth, depth)
    decreases maxDepth - depth
  {
    if depth < maxDepth {
      match v
      case Arr(items) =>
        forall i | 0 <= i < |items| {
          SecretsDoNotShow(items[i], w.items[i], maxDepth, depth + 1);
        }
        assert SanitizeItems(items, maxDepth, depth + 1) == SanitizeItems(w.items, maxDepth, depth + 1);
      case Obj(fields) =>
        forall i | 0 <= i < |fields| ensures
          SanitizeField(fields[i], maxDepth, depth + 1) == SanitizeField(w.fields[i], maxDepth, depth + 1)
        {
          if !IsSensitiveField(fields[i].0) {
            SecretsDoNotShow(fields[i].1, w.fields[i].1, maxDepth, depth + 1);
          }
        }
        assert SanitizeFields(fields, maxDepth, depth + 1) == SanitizeFields(w.fields, maxDepth, depth + 1);
      case _ =>
    }
  }

  /** Nothing else is touched: masked data that leave one level of room come out as they went in. */
  lemma {:induction false} MaskedDataAreKept(v: Json, maxDepth: int, depth: nat)
    requires Masked(v) && depth < maxDepth && NestsWithin(v, maxDepth - depth - 1)
    ensures SanitizeAt(v, maxDepth, depth) == v
    decreases maxDepth - depth
  {
    match v
    case Arr(items) =>
      forall i | 0 <= i < |items| {
        MaskedDataAreKept(items[i], maxDepth, depth + 1);
      }
      assert SanitizeItems(items, maxDepth, depth + 1) == items;
    case Obj(fields) =>
      forall i | 0 <= i < |fields| ensures SanitizeField(fields[i], maxDepth, depth + 1) == fields[i] {
        if !IsSensitiveField(fields[i].0) {
          MaskedDataAreKept(fields[i].1, maxDepth, depth + 1);
        }
      }
      assert SanitizeFields(fields, maxDepth, depth + 1) == fields;
    case _ =>
  }

  /**
   What becomes of a value with `room` levels left, said of the two values: a cut, a masked field, a field that
   holds a container and is sanitized with one level less, or the same; and nothing is added or lost.
   */
  predicate Becomes(v: Json, r: Json, room: int)
    decreases v, 0
  {
    if room <= 0 then r == Str("[MAX_DEPTH_REACHED]")
    else match v
      case Arr(items) =>
        r.Arr? && |r.items| == |items| && forall i :: 0 <= i < |items| ==> Becomes(items[i], r.items[i], room - 1)
      case Obj(fields) =>
        r.Obj? && |r.fields| == |fields| && forall i :: 0 <= i < |fields| ==> FieldBecomes(fields[i], r.fields[i], room - 1)
      case _ => r == v
  }

  predicate FieldBecomes(f: (string, Json), g: (string, Json), room: int)
    decreases f.1, 1
  {
    && g.0 == f.0
    && if IsSensitiveField(f.0) then g.1 == Str("********")
       else if f.1.Null? || f.1.Arr? || f.1.Obj? then Becomes(f.1, g.1, room)
       else g.1 == f.1
  }

  /** Exactly that becomes of it. */
  lemma {:induction false} SanitizedBecomes(v: Json, r: Json, maxDepth: int, depth: nat)
    ensures Becomes(v, r, maxDepth - depth) <==> r == SanitizeAt(v, maxDepth, depth)
    decreases maxDepth - depth
  {
    if depth < maxDepth {
      match v
      case Arr(items) =>
        if r.Arr? && |r.items| == |items| {
          forall i | 0 <= i < |items|
            ensures Becomes(items[i], r.items[i], maxDepth - depth - 1) <==> r.items[i] == SanitizeAt(items[i], maxDepth, depth + 1)
          {
            SanitizedBecomes(items[i], r.items[i], maxDepth, depth + 1);
          }
          assert r.items == SanitizeItems(items, maxDepth, depth + 1) <==>
                 forall i :: 0 <= i < |items| ==> r.items[i] == SanitizeAt(items[i], maxDepth, depth + 1);
        }
      case Obj(fields) =>
        if r.Obj? && |r.fields| == |fields| {
          FieldsBecome(fields, r.fields, maxDepth, depth);
        }
      case _ =>
    }
  }

  lemma FieldsBecome(fields: seq<(string, Json)>, rs: seq<(string, Json)>, maxDepth: int, depth: nat)
    requires depth < maxDepth && |rs| == |fields|
    ensures Becomes(Obj(fields), Obj(rs), maxDepth - depth) <==> rs == SanitizeFields(fields, maxDepth, depth + 1)
    decreases maxDepth - depth, 0
  {
    var done := SanitizeFields(fields, maxDepth, depth + 1);
    forall i | 0 <= i < |fields| ensures rs[i] == done[i] <==> FieldBecomes(fields[i], rs[i], maxDepth - depth - 1) {
      if !IsSensitiveField(fields[i].0) && IsObject(fields[i].1) {
        SanitizedBecomes(fields[i].1, rs[i].1, maxDepth, depth + 1);
      }
      assert rs[i] == (rs[i].0, rs[i].1);
    }
    assert rs == done <==> forall i :: 0 <= i < |fields| ==> rs[i] == done[i];
  }

  /**
   The exact room: a value comes out as it went in if and only if it is itself the cut, or has room for each of
   its levels. Fields that are no containers need none; items of arrays need one each.
   */
  predicate HasRoom(v: Json, room: int)
    decreases v, 0
  {
    v == Str("[MAX_DEPTH_REACHED]") ||
    (room > 0 && match v
       case Arr(items) => forall i :: 0 <= i < |items| ==> HasRoom(items[i], room - 1)
       case Obj(fields) => forall i :: 0 <= i < |fields| ==> FieldHasRoom(fields[i], room - 1)
       case _ => true)
  }

  predicate FieldHasRoom(f: (string, Json), room: int)
    decreases f.1, 1
  {
    if IsSensitiveField(f.0) then f.1 == Str("********")
    else f.1.Arr? || f.1.Obj? || f.1.Null? ==> HasRoom(f.1, room)
  }

  lemma {:induction false} KeptExactly(v: Json, maxDepth: int, depth: nat)
    ensures SanitizeAt(v, maxDepth, depth) == v <==> HasRoom(v, maxDepth - depth)
    decreases maxDepth - depth, 1
  {
    if depth < maxDepth {
      match v
      case Arr(items) =>
        var done := SanitizeItems(items, maxDepth, depth + 1);
        forall i | 0 <= i < |items| ensures done[i] == items[i] <==> HasRoom(items[i], maxDepth - depth - 1) {
          KeptExactly(items[i], maxDepth, depth + 1);
        }
        assert done == items <==> forall i :: 0 <= i < |items| ==> done[i] == items[i];
      case Obj(fields) =>
        FieldsKept(fields, maxDepth, depth);
      case _ =>
    }
  }

  lemma FieldsKept(fields: seq<(string, Json)>, maxDepth: int, depth: nat)
    requires depth < maxDepth
    ensures SanitizeFields(fields, maxDepth, depth + 1) == fields <==> HasRoom(Obj(fields), maxDepth - depth)
    decreases maxDepth - depth, 0
  {
    var done := SanitizeFields(fields, maxDepth, depth + 1);
    forall i | 0 <= i < |fields| ensures done[i] == fields[i] <==> FieldHasRoom(fields[i], maxDepth - depth - 1) {
      if !IsSensitiveField(fields[i].0) && IsObject(fields[i].1) { KeptExactly(fields[i].1, maxDepth, depth + 1); }
      assert fields[i] == (fields[i].0, fields[i].1);
    }
    assert done == fields <==> forall i :: 0 <= i < |fields| ==> done[i] == fields[i];
  }

  /** All of it for the public entry, at every depth it may be called with, also none or a negative one. */
  lemma SanitizedLogs(v: Json, w: Json, maxDepth: int)
    ensures var r := Sanitize(v, maxDepth);
            && NestsWithin(r, if maxDepth > 0 then maxDepth else 0) && Masked(r)
            && Sanitize(r, maxDepth) == r
            && (AgreeOutsideSecrets(v, w) ==> Sanitize(w, maxDepth) == r)
            && (Masked(v) && maxDepth > 0 && NestsWithin(v, maxDepth - 1) ==> r == v)
  {
    var r := SanitizeAt(v, maxDepth, 0);
    assert NestsWithin(r, if maxDepth > 0 then maxDepth else 0) && Masked(r) by { OutputIsShallowAndMasked(v, maxDepth, 0); }
    assert SanitizeAt(r, maxDepth, 0) == r by { SanitizeIsIdempotent(v, maxDepth, 0); }
    if AgreeOutsideSecrets(v, w) { SecretsDoNotShow(v, w, maxDepth, 0); }
    if Masked(v) && maxDepth > 0 && NestsWithin(v, maxDepth - 1) { MaskedDataAreKept(v, maxDepth, 0); }
  }

  // ----- Which names are sensitive

  lemma {:induction false} EveryLetterIsNeeded(a: string, b: string, c: char)
    requires c in b && c !in a
    ensures !Includes(a, b)
  {
    if b <= a {
      PrefixLetters(a, b, c);
    }
    if a != "" {
      EveryLetterIsNeeded(a[1..], b, c);
    }
  }

  lemma PrefixLetters(a: string, b: string, c: char)
    requires b <= a && c in b
    ensures c in a
  {
    var i :| 0 <= i < |b| && b[i] == c;
    assert a[i] == c;
  }

  /** The entries that are spelled without capitals. */
  const EFFECTIVE_FIELDS: seq<string> := ["password", "token", "secret", "pin", "ssn"]

  lemma ListedNames(f: string)
    ensures f in SENSITIVE_FIELDS <==> f in EFFECTIVE_FIELDS || f in ["accessToken", "refreshToken", "creditCard", "cardNumber"]
  {
    assert forall i :: 0 <= i < 9 ==> SENSITIVE_FIELDS[i] in SENSITIVE_FIELDS;
    assert forall i :: 0 <= i < 5 ==> EFFECTIVE_FIELDS[i] in EFFECTIVE_FIELDS;
    var rest := ["accessToken", "refreshToken", "creditCard", "cardNumber"];
    assert forall i :: 0 <= i < 4 ==> rest[i] in rest;
    assert EFFECTIVE_FIELDS == [SENSITIVE_FIELDS[0], SENSITIVE_FIELDS[1], SENSITIVE_FIELDS[4], SENSITIVE_FIELDS[5], SENSITIVE_FIELDS[6]];
    assert rest == [SENSITIVE_FIELDS[2], SENSITIVE_FIELDS[3], SENSITIVE_FIELDS[7], SENSITIVE_FIELDS[8]];
  }

  lemma CapitalsNeverMatch(name: string, f: string)
    requires f in ["accessToken", "refreshToken", "creditCard", "cardNumber"]
    ensures !Includes(LowerCase(name), f)
  {
    var c := if f in ["accessToken", "refreshToken"] then 'T' else if f == "creditCard" then 'C' else 'N';
    assert "accessToken"[6] == "refreshToken"[7] == 'T' && "creditCard"[6] == 'C' && "cardNumber"[4] == 'N';
    EveryLetterIsNeeded(LowerCase(name), f, c);
  }

  /**
   The name is lowered but the listed names are not, so exactly the listed names without a capital take
   effect: a field is masked if and only if one of these five words is spelled somewhere in its name, letter
   by letter, in small letters or capitals.
   */
  lemma SensitiveNames(name: string)
    ensures IsSensitiveField(name) <==>
            exists f, i :: f in ["password", "token", "secret", "pin", "ssn"] && SpelledAt(name, f, i)
  {
    forall f | f in EFFECTIVE_FIELDS ensures Includes(LowerCase(name), f) <==> exists i :: SpelledAt(name, f, i) {
      LoweredSearch(name, f);
    }
    if f :| f in SENSITIVE_FIELDS && Includes(LowerCase(name), f) {
      ListedNames(f);
      if f !in EFFECTIVE_FIELDS { CapitalsNeverMatch(name, f); }
    }
    if f, i :| f in EFFECTIVE_FIELDS && SpelledAt(name, f, i) {
      ListedNames(f);
    }
  }

  /** The two other listed names with a capital are masked all the same, and so is every name built on a word. */
  lemma TokenFieldsAreMasked(prefix: string, suffix: string)
    ensures IsSensitiveField("accessToken") && IsSensitiveField("refreshToken")
    ensures IsSensitiveField(prefix + "Password" + suffix) && IsSensitiveField(prefix + "TOKEN" + suffix)
  {
    var words := ["password", "token", "secret", "pin", "ssn"];
    assert words[0] in words && words[1] in words;
    assert SpelledAt("accessToken", "token", 6) && SpelledAt("refreshToken", "token", 7);
    assert SpelledAt(prefix + "Password" + suffix, "password", |prefix|);
    assert SpelledAt(prefix + "TOKEN" + suffix, "token", |prefix|);
    SensitiveNames("accessToken");
    SensitiveNames("refreshToken");
    SensitiveNames(prefix + "Password" + suffix);
    SensitiveNames(prefix + "TOKEN" + suffix);
  }

  lemma LoweredCards()
    ensures LowerCase("creditCard") == "creditcard" && LowerCase("cardNumber") == "cardnumber"
  {
  }

  /** Two of the listed names are therefore not masked themselves. */
  lemma CardFieldsAreNotMasked()
    ensures "creditCard" in SENSITIVE_FIELDS && !IsSensitiveField("creditCard")
    ensures "cardNumber" in SENSITIVE_FIELDS && !IsSensitiveField("cardNumber")
  {
    assert SENSITIVE_FIELDS[7] == "creditCard" && SENSITIVE_FIELDS[8] == "cardNumber";
    LoweredCards();
    LacksLetters("creditCard", "creditcard");
    LacksLetters("cardNumber", "cardnumber");
  }

  lemma LacksLetters(name: string, lowered: string)
    requires LowerCase(name) == lowered && 'p' !in lowered && 's' !in lowered && 'k' !in lowered
    ensures !IsSensitiveField(name)
  {
    forall f | f in SENSITIVE_FIELDS ensures !Includes(lowered, f) {
      ListedNames(f);
      if f in EFFECTIVE_FIELDS {
        assert "password"[0] == "pin"[0] == 'p' && "token"[2] == 'k' && "secret"[0] == "ssn"[0] == 's';
        EveryLetterIsNeeded(lowered, f, if f == "token" then 'k' else if f in ["secret", "ssn"] then 's' else 'p');
      } else {
        CapitalsNeverMatch(name, f);
      }
    }
  }
}
