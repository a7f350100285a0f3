/** Letters of ASCII, as far as the code tells them apart. */
module Text {

  function Lower(c: char): char {
    if 'A' <= c <= 'Z' then (c as int - 'A' as int + 'a' as int) as char else c
  }

  function LowerCase(s: string): (r: string)
    ensures |r| == |s| && forall i :: 0 <= i < |s| ==> r[i] == Lower(s[i])
  {
    seq(|s|, i requires 0 <= i < |s| => Lower(s[i]))
  }

  function Upper(c: char): char {
    if 'a' <= c <= 'z' then (c as int - 'a' as int + 'A' as int) as char else c
  }

  function UpperCase(s: string): (r: string)
    ensures |r| == |s| && forall i :: 0 <= i < |s| ==> r[i] == Upper(s[i])
  {
    seq(|s|, i requires 0 <= i < |s| => Upper(s[i]))
  }

  // ----- Equal but for capitals, said of the characters themselves

  /** The same character, or a small letter and its capital, 32 apart in the code. */
  predicate SameLetter(c: char, d: char) {
    || c == d
    || ('A' <= c <= 'Z' && d as int == c as int + 32)
    || ('A' <= d <= 'Z' && c as int == d as int + 32)
  }

  predicate SameLetters(s: string, t: string) {
    |s| == |t| && forall i :: 0 <= i < |s| ==> SameLetter(s[i], t[i])
  }

  lemma CasesAgree(c: char, d: char)
    ensures Lower(c) == Lower(d) <==> SameLetter(c, d)
    ensures Upper(c) == Upper(d) <==> SameLetter(c, d)
  {
  }

  /** Lowering, or raising, two strings makes them equal exactly when they differ in capitals alone. */
  lemma EqualButForCase(s: string, t: string)
    ensures LowerCase(s) == LowerCase(t) <==> SameLetters(s, t)
    ensures UpperCase(s) == UpperCase(t) <==> SameLetters(s, t)
  {
    forall i | 0 <= i < |s| && i < |t| ensures Lower(s[i]) == Lower(t[i]) <==> SameLetter(s[i], t[i]) {
      CasesAgree(s[i], t[i]);
    }
    forall i | 0 <= i < |s| && i < |t| ensures Upper(s[i]) == Upper(t[i]) <==> SameLetter(s[i], t[i]) {
      CasesAgree(s[i], t[i]);
    }
    if LowerCase(s) == LowerCase(t) {
      assert forall i :: 0 <= i < |s| ==> LowerCase(s)[i] == LowerCase(t)[i];
    }
    if UpperCase(s) == UpperCase(t) {
      assert forall i :: 0 <= i < |s| ==> UpperCase(s)[i] == UpperCase(t)[i];
    }
  }

  /** What is lowered, or raised, has no letters of the other kind, and has the letters of the original. */
  lemma CaseIsFixed(s: string)
    ensures SameLetters(LowerCase(s), s) && SameLetters(UpperCase(s), s)
    ensures forall c :: c in LowerCase(s) ==> !('A' <= c <= 'Z')
    ensures forall c :: c in UpperCase(s) ==> !('a' <= c <= 'z')
  {
  }

  // ----- Search

  /** `a.includes(b)` */
  predicate Includes(a: string, b: string) {
    b <= a || (a != "" && Includes(a[1..], b))
  }

  /** `b` stands in `a` from position `i` on, character by character. */
  predicate StandsAt(a: string, b: string, i: int) {
    0 <= i <= |a| - |b| && forall j :: 0 <= j < |b| ==> a[i + j] == b[j]
  }

  /** Exactly when the one stands somewhere in the other. */
  lemma {:induction false} IncludesIsAStretch(a: string, b: string)
    ensures Includes(a, b) <==> exists i :: StandsAt(a, b, i)
  {
    assert b <= a <==> StandsAt(a, b, 0);
    if a != "" {
      var rest := a[1..];
      IncludesIsAStretch(rest, b);
      forall i ensures StandsAt(rest, b, i) ==> StandsAt(a, b, i + 1) {
        if StandsAt(rest, b, i) {
          forall j | 0 <= j < |b| ensures a[i + 1 + j] == b[j] { assert rest[i + j] == b[j]; }
        }
      }
      forall i ensures StandsAt(a, b, i) && i > 0 ==> StandsAt(rest, b, i - 1) {
        if StandsAt(a, b, i) && i > 0 {
          forall j | 0 <= j < |b| ensures rest[i - 1 + j] == b[j] { assert a[i + j] == b[j]; }
        }
      }
    }
  }

  /** `word` is spelled in `name` from position `i` on, in small letters or capitals. */
  predicate SpelledAt(name: string, word: string, i: int) {
    0 <= i <= |name| - |word| && forall j :: 0 <= j < |word| ==> SameLetter(name[i + j], word[j])
  }

  /** Searching the lowered name for a word in small letters finds it exactly where it is spelled. */
  lemma LoweredSearch(name: string, word: string)
    requires forall c :: c in word ==> !('A' <= c <= 'Z')
    ensures Includes(LowerCase(name), word) <==> exists i :: SpelledAt(name, word, i)
  {
    IncludesIsAStretch(LowerCase(name), word);
    forall i ensures StandsAt(LowerCase(name), word, i) <==> SpelledAt(name, word, i) {
      if 0 <= i <= |name| - |word| {
        forall j | 0 <= j < |word| ensures LowerCase(name)[i + j] == word[j] <==> SameLetter(name[i + j], word[j]) {
          assert word[j] in word;
          CasesAgree(name[i + j], word[j]);
        }
      }
    }
  }
}
