/** The scores of the review evaluation, computed from the result slots. */
module EvalScore {
  import opened Common

  type Rule = string

  datatype Finding = Finding(rule: Rule, high: bool)

  /** A review that came back, or the message of the error it threw. */
  datatype Answer = Reviewed(findings: seq<Finding>) | CallFailed(message: string)

  datatype Case = Case(expected: set<Rule>, accept: set<Rule>)

  // ----- Scores

  datatype Agg = Agg(tp: nat, fp: nat, fn: nat)

  function Predicted(findings: seq<Finding>, includeLow: bool): set<Rule> {
    set f | f in findings && (includeLow || f.high) :: f.rule
  }

  datatype Slot = Slot(item: Case, answer: Answer)

  /** An error with an empty message is not noticed as an error, and its missing findings throw. */
  predicate Throws(s: Slot) {
    s.answer.CallFailed? && s.answer.message == ""
  }

  predicate Scorable(slots: seq<Slot>) {
    forall i :: 0 <= i < |slots| ==> !Throws(slots[i])
  }

  /** Hits, predictions that are neither expected nor acceptable, and misses. */
  function Tally(item: Case, predicted: set<Rule>): Agg {
    Agg(|predicted * item.expected|, |predicted - item.expected - item.accept|, |item.expected - predicted|)
  }

  function ScoreOf(s: Slot, includeLow: bool): Agg {
    match s.answer
    case CallFailed(_) => Agg(0, 0, 0)
    case Reviewed(findings) => Tally(s.item, Predicted(findings, includeLow))
  }

  function Plus(a: Agg, b: Agg): Agg {
    Agg(a.tp + b.tp, a.fp + b.fp, a.fn + b.fn)
  }

  /** The counts of the first `n` slots. */
  function Total(slots: seq<Slot>, n: nat, includeLow: bool): Agg
    requires n <= |slots|
  {
    if n == 0 then Agg(0, 0, 0)
    else Plus(Total(slots, n - 1, includeLow), ScoreOf(slots[n - 1], includeLow))
  }

  function Ratio(a: nat, b: nat): real {
    if b == 0 then 1.0 else a as real / b as real
  }

  function Precision(a: Agg): real { Ratio(a.tp, a.tp + a.fp) }

  function Recall(a: Agg): real { Ratio(a.tp, a.tp + a.fn) }

  function F1(a: Agg): real {
    var p, r := Precision(a), Recall(a);
    if p + r == 0.0 then 0.0 else 2.0 * p * r / (p + r)
  }

  lemma NextTotal(slots: seq<Slot>, i: nat, includeLow: bool)
    requires i < |slots|
    ensures Total(slots, i + 1, includeLow) == Plus(Total(slots, i, includeLow), ScoreOf(slots[i], includeLow))
  {
  }

  /** The counts of one slot; `None` when it makes the code throw. */
  method ScoreSlot(s: Slot, includeLow: bool) returns (r: Option<Agg>)
    ensures r.None? <==> Throws(s)
    ensures r.Some? ==> r.value == ScoreOf(s, includeLow)
  {
    match s.answer
    case CallFailed(message) =>
      r := if message == "" then None else Some(Agg(0, 0, 0));
    case Reviewed(findings) =>
      var predicted := Predicted(findings, includeLow);
      var tp, fn := predicted * s.item.expected, s.item.expected - predicted;
      var fp := predicted - s.item.expected - s.item.accept;
      r := Some(Agg(|tp|, |fp|, |fn|));
  }

  /** Accumulates the counts slot by slot. */
  method Score(slots: seq<Slot>, includeLow: bool) returns (r: Option<Agg>)
    ensures r.Some? <==> Scorable(slots)
    ensures r.Some? ==> r.value == Total(slots, |slots|, includeLow)
    ensures r.Some? ==>
              var n := |slots|;
              r.value == Agg(|Hits(slots, n, includeLow)|, |Noise(slots, n, includeLow)|, |Misses(slots, n, includeLow)|)
  {
    var agg := Agg(0, 0, 0);
    for i := 0 to |slots|
      invariant forall j :: 0 <= j < i ==> !Throws(slots[j])
      invariant agg == Total(slots, i, includeLow)
    {
      var counts := ScoreSlot(slots[i], includeLow);
      if counts.None? { return None; }
      NextTotal(slots, i, includeLow);
      agg := Plus(agg, counts.value);
    }
    CountsArePairs(slots, |slots|, includeLow);
    r := Some(agg);
  }

  function Expected(slots: seq<Slot>, n: nat): nat
    requires n <= |slots|
  {
    if n == 0 then 0
    else Expected(slots, n - 1) + if slots[n - 1].answer.Reviewed? then |slots[n - 1].item.expected| else 0
  }

  lemma SplitExpected(expected: set<Rule>, predicted: set<Rule>)
    ensures |predicted * expected| + |expected - predicted| == |expected|
  {
    assert expected == predicted * expected + (expected - predicted);
  }

  /** Every expected rule of every reviewed case is counted once, as found or as missed. */
  lemma {:induction false} FoundPlusMissedIsExpected(slots: seq<Slot>, n: nat, includeLow: bool)
    requires n <= |slots|
    ensures Total(slots, n, includeLow).tp + Total(slots, n, includeLow).fn == Expected(slots, n)
  {
    if n > 0 {
      var s := slots[n - 1];
      FoundPlusMissedIsExpected(slots, n - 1, includeLow);
      if s.answer.Reviewed? {
        SplitExpected(s.item.expected, Predicted(s.answer.findings, includeLow));
      }
    }
  }

  lemma MorePredictions(item: Case, a: set<Rule>, b: set<Rule>)
    requires a <= b
    ensures Tally(item, a).tp <= Tally(item, b).tp && Tally(item, a).fp <= Tally(item, b).fp
  {
    SubsetIsSmaller(a * item.expected, b * item.expected);
    SubsetIsSmaller(a - item.expected - item.accept, b - item.expected - item.accept);
  }

  lemma {:induction false} LowOnlyAddsPredictions(slots: seq<Slot>, n: nat)
    requires n <= |slots|
    ensures Total(slots, n, false).tp <= Total(slots, n, true).tp
    ensures Total(slots, n, false).fp <= Total(slots, n, true).fp
  {
    if n > 0 {
      var s := slots[n - 1];
      LowOnlyAddsPredictions(slots, n - 1);
      if s.answer.Reviewed? {
        MorePredictions(s.item, Predicted(s.answer.findings, false), Predicted(s.answer.findings, true));
      }
    }
  }

  lemma Divide(a: nat, b: nat, c: nat)
    requires a <= b && c > 0
    ensures a as real / c as real <= b as real / c as real
  {
  }

  /** Counting low-confidence findings never lowers recall. */
  lemma LowNeverLowersRecall(slots: seq<Slot>)
    ensures Recall(Total(slots, |slots|, false)) <= Recall(Total(slots, |slots|, true))
  {
    var n := |slots|;
    LowOnlyAddsPredictions(slots, n);
    FoundPlusMissedIsExpected(slots, n, false);
    FoundPlusMissedIsExpected(slots, n, true);
    if Expected(slots, n) > 0 {
      Divide(Total(slots, n, false).tp, Total(slots, n, true).tp, Expected(slots, n));
    }
  }

  /** The harmonic mean in closed form. */
  lemma F1InClosedForm(a: Agg)
    ensures a.tp + a.fp + a.fn > 0 ==> F1(a) == (2 * a.tp) as real / (2 * a.tp + a.fp + a.fn) as real
    ensures a.tp + a.fp + a.fn == 0 ==> F1(a) == 1.0
  {
    if a.tp > 0 {
      HarmonicMean(a.tp as real, (a.tp + a.fp) as real, (a.tp + a.fn) as real, Precision(a), Recall(a));
      assert (a.tp + a.fp) as real + (a.tp + a.fn) as real == (2 * a.tp + a.fp + a.fn) as real;
    } else {
      NothingFound(a);
    }
  }

  lemma NothingFound(a: Agg)
    requires a.tp == 0
    ensures Precision(a) == if a.fp == 0 then 1.0 else 0.0
    ensures Recall(a) == if a.fn == 0 then 1.0 else 0.0
    ensures F1(a) == if a.fp + a.fn == 0 then 1.0 else 0.0
  {
  }

  lemma HarmonicMean(t: real, x: real, y: real, p: real, r: real)
    requires t > 0.0 && x >= t && y >= t && p == t / x && r == t / y
    ensures p + r > 0.0 && 2.0 * p * r / (p + r) == 2.0 * t / (x + y)
  {
    assert p > 0.0 && r > 0.0 && p * x == t && r * y == t;
    CrossProduct(t, x, y, p, r);
    CrossDivide(2.0 * p * r, p + r, 2.0 * t, x + y);
  }

  lemma CrossProduct(t: real, x: real, y: real, p: real, r: real)
    requires p * x == t && r * y == t
    ensures 2.0 * p * r * (x + y) == 2.0 * t * (p + r)
  {
    assert (p * r) * x == (p * x) * r;
    assert (p * r) * y == p * (r * y);
  }

  lemma CrossDivide(a: real, b: real, c: real, d: real)
    requires b > 0.0 && d > 0.0 && a * d == c * b
    ensures a / b == c / d
  {
    var q := a / b;
    assert q * b == a;
    assert (q * d) * b == c * b;
    assert q * d == c;
  }

  // ----- What the counts count: pairs of a slot and a rule

  /** A finding that counts: any, or one of high confidence in strict mode. */
  predicate Counting(f: Finding, includeLow: bool) {
    includeLow || f.high
  }

  /** The review of the slot came back with a finding of this rule that counts. */
  predicate Reported(s: Slot, rule: Rule, includeLow: bool) {
    s.answer.Reviewed? && exists f :: f in s.answer.findings && f.rule == rule && Counting(f, includeLow)
  }

  /** Reviewed slots with a rule they expect that is reported. */
  ghost function Hits(slots: seq<Slot>, n: nat, includeLow: bool): set<(nat, Rule)>
    requires n <= |slots|
  {
    set i: nat, rule | i < n && slots[i].answer.Reviewed? && rule in slots[i].item.expected
                       && Reported(slots[i], rule, includeLow) :: (i, rule)
  }

  /** Reviewed slots with a rule they expect that is not reported. */
  ghost function Misses(slots: seq<Slot>, n: nat, includeLow: bool): set<(nat, Rule)>
    requires n <= |slots|
  {
    set i: nat, rule | i < n && slots[i].answer.Reviewed? && rule in slots[i].item.expected
                       && !Reported(slots[i], rule, includeLow) :: (i, rule)
  }

  /** Reviewed slots with a reported rule that they neither expect nor accept. */
  ghost function Noise(slots: seq<Slot>, n: nat, includeLow: bool): set<(nat, Rule)>
    requires n <= |slots|
  {
    set i: nat, f: Finding | i < n && slots[i].answer.Reviewed? && f in slots[i].answer.findings && Counting(f, includeLow)
                             && f.rule !in slots[i].item.expected && f.rule !in slots[i].item.accept :: (i, f.rule)
  }

  /** The pairs of one slot with the rules of a set. */
  ghost function PairsOf(i: nat, rules: set<Rule>): set<(nat, Rule)> {
    set rule | rule in rules :: (i, rule)
  }

  lemma {:induction false} AsManyPairs(i: nat, rules: set<Rule>)
    ensures |PairsOf(i, rules)| == |rules|
  {
    if |rules| > 0 {
      assert rules != {};
      var rule := SomeRule(rules);
      AsManyPairs(i, rules - {rule});
      assert PairsOf(i, rules) == PairsOf(i, rules - {rule}) + {(i, rule)};
    } else {
      assert PairsOf(i, rules) == {};
    }
  }

  lemma SomeRule(rules: set<Rule>) returns (rule: Rule)
    requires rules != {}
    ensures rule in rules
  {
    rule :| rule in rules;
  }

  lemma PredictedAreReported(findings: seq<Finding>, s: Slot, includeLow: bool)
    requires s.answer == Reviewed(findings)
    ensures forall rule :: rule in Predicted(findings, includeLow) <==> Reported(s, rule, includeLow)
  {
  }

  /** A set of pairs grows, slot by slot, by the pairs of the new slot. */
  lemma GrowsBy(before: set<(nat, Rule)>, after: set<(nat, Rule)>, i: nat, rules: set<Rule>)
    requires forall p :: p in before ==> p.0 < i
    requires forall p :: p in after <==> p in before || (p.0 == i && p.1 in rules)
    ensures |after| == |before| + |rules|
  {
    AsManyPairs(i, rules);
    forall p: (nat, Rule) ensures p in PairsOf(i, rules) <==> p.0 == i && p.1 in rules {
      assert p == (p.0, p.1);
    }
    assert after == before + PairsOf(i, rules) && before !! PairsOf(i, rules);
  }

  /** The counts of the first `n` slots are the numbers of these pairs. */
  lemma {:induction false} CountsArePairs(slots: seq<Slot>, n: nat, includeLow: bool)
    requires n <= |slots|
    ensures Total(slots, n, includeLow) ==
            Agg(|Hits(slots, n, includeLow)|, |Noise(slots, n, includeLow)|, |Misses(slots, n, includeLow)|)
  {
    if n == 0 {
      assert Hits(slots, 0, includeLow) == {} && Noise(slots, 0, includeLow) == {} && Misses(slots, 0, includeLow) == {};
    } else {
      CountsArePairs(slots, n - 1, includeLow);
      SlotPairs(slots, n, includeLow);
    }
  }

  lemma SlotPairs(slots: seq<Slot>, n: nat, includeLow: bool)
    requires 0 < n <= |slots|
    ensures var score := ScoreOf(slots[n - 1], includeLow);
            && |Hits(slots, n, includeLow)| == |Hits(slots, n - 1, includeLow)| + score.tp
            && |Noise(slots, n, includeLow)| == |Noise(slots, n - 1, includeLow)| + score.fp
            && |Misses(slots, n, includeLow)| == |Misses(slots, n - 1, includeLow)| + score.fn
  {
    var s := slots[n - 1];
    match s.answer
    case CallFailed(_) =>
      HitsGrow(slots, n, includeLow, {});
      NoiseGrows(slots, n, includeLow, {});
      MissesGrow(slots, n, includeLow, {});
    case Reviewed(findings) =>
      var predicted := Predicted(findings, includeLow);
      PredictedAreReported(findings, s, includeLow);
      HitsGrow(slots, n, includeLow, predicted * s.item.expected);
      NoiseGrows(slots, n, includeLow, predicted - s.item.expected - s.item.accept);
      MissesGrow(slots, n, includeLow, s.item.expected - predicted);
  }

  lemma HitsGrow(slots: seq<Slot>, n: nat, includeLow: bool, rules: set<Rule>)
    requires 0 < n <= |slots|
    requires forall rule :: rule in rules <==>
               slots[n - 1].answer.Reviewed? && rule in slots[n - 1].item.expected && Reported(slots[n - 1], rule, includeLow)
    ensures |Hits(slots, n, includeLow)| == |Hits(slots, n - 1, includeLow)| + |rules|
  {
    forall p: (nat, Rule) ensures p in Hits(slots, n, includeLow) <==>
                                  p in Hits(slots, n - 1, includeLow) || (p.0 == n - 1 && p.1 in rules) {
      assert p == (p.0, p.1);
    }
    GrowsBy(Hits(slots, n - 1, includeLow), Hits(slots, n, includeLow), n - 1, rules);
  }

  lemma MissesGrow(slots: seq<Slot>, n: nat, includeLow: bool, rules: set<Rule>)
    requires 0 < n <= |slots|
    requires forall rule :: rule in rules <==>
               slots[n - 1].answer.Reviewed? && rule in slots[n - 1].item.expected && !Reported(slots[n - 1], rule, includeLow)
    ensures |Misses(slots, n, includeLow)| == |Misses(slots, n - 1, includeLow)| + |rules|
  {
    forall p: (nat, Rule) ensures p in Misses(slots, n, includeLow) <==>
                                  p in Misses(slots, n - 1, includeLow) || (p.0 == n - 1 && p.1 in rules) {
      assert p == (p.0, p.1);
    }
    GrowsBy(Misses(slots, n - 1, includeLow), Misses(slots, n, includeLow), n - 1, rules);
  }

  /** Whether the pair is one of a reported rule that its slot neither expects nor accepts. */
  predicate IsNoise(slots: seq<Slot>, n: nat, includeLow: bool, p: (nat, Rule)) {
    p.0 < n <= |slots| && Reported(slots[p.0], p.1, includeLow)
    && p.1 !in slots[p.0].item.expected && p.1 !in slots[p.0].item.accept
  }

  lemma NoiseIs(slots: seq<Slot>, n: nat, includeLow: bool)
    requires n <= |slots|
    ensures forall p :: p in Noise(slots, n, includeLow) <==> IsNoise(slots, n, includeLow, p)
  {
    forall p: (nat, Rule) ensures p in Noise(slots, n, includeLow) <==> IsNoise(slots, n, includeLow, p) {
      assert p == (p.0, p.1);
      if IsNoise(slots, n, includeLow, p) {
        var f :| f in slots[p.0].answer.findings && f.rule == p.1 && Counting(f, includeLow);
        assert (p.0, f.rule) in Noise(slots, n, includeLow);
      }
    }
  }

  lemma NoiseGrows(slots: seq<Slot>, n: nat, includeLow: bool, rules: set<Rule>)
    requires 0 < n <= |slots|
    requires forall rule :: rule in rules <==> IsNoise(slots, n, includeLow, (n - 1, rule))
    ensures |Noise(slots, n, includeLow)| == |Noise(slots, n - 1, includeLow)| + |rules|
  {
    NoiseIs(slots, n, includeLow);
    NoiseIs(slots, n - 1, includeLow);
    forall p: (nat, Rule) ensures p in Noise(slots, n, includeLow) <==>
                                  p in Noise(slots, n - 1, includeLow) || (p.0 == n - 1 && p.1 in rules) {
      assert p == (p.0, p.1);
    }
    GrowsBy(Noise(slots, n - 1, includeLow), Noise(slots, n, includeLow), n - 1, rules);
  }

  /** One more finding of a rule that is accepted and not expected changes no count. */
  lemma AcceptedRulesAreNeutral(item: Case, findings: seq<Finding>, f: Finding, includeLow: bool)
    requires f.rule in item.accept && f.rule !in item.expected
    ensures ScoreOf(Slot(item, Reviewed(findings + [f])), includeLow) == ScoreOf(Slot(item, Reviewed(findings)), includeLow)
  {
    var a, b := Predicted(findings, includeLow), Predicted(findings + [f], includeLow);
    assert b == a || b == a + {f.rule};
    assert b * item.expected == a * item.expected && item.expected - b == item.expected - a;
    assert b - item.expected - item.accept == a - item.expected - item.accept;
  }

  /** Precision and recall by their meaning: the share that was found, and 1 when there is nothing to share. */
  lemma Shares(a: Agg)
    ensures a.tp + a.fp > 0 ==> Precision(a) * (a.tp + a.fp) as real == a.tp as real
    ensures a.tp + a.fn > 0 ==> Recall(a) * (a.tp + a.fn) as real == a.tp as real
    ensures a.tp + a.fp == 0 ==> Precision(a) == 1.0
    ensures a.tp + a.fn == 0 ==> Recall(a) == 1.0
  {
  }

  lemma PerfectShares(a: Agg)
    ensures Precision(a) == 1.0 <==> a.fp == 0
    ensures Recall(a) == 1.0 <==> a.fn == 0
  {
    OneExactly(a.tp, a.fp);
    OneExactly(a.tp, a.fn);
  }

  lemma OneExactly(a: nat, b: nat)
    ensures Ratio(a, a + b) == 1.0 <==> b == 0
  {
    if a + b > 0 {
      var r := Ratio(a, a + b);
      assert r * (a + b) as real == a as real;
    }
  }

  /**
   Precision is perfect exactly when every reported rule of every reviewed case is expected or accepted, and
   recall exactly when every expected rule of every reviewed case is reported.
   */
  lemma PerfectExactly(slots: seq<Slot>, includeLow: bool)
    ensures Precision(Total(slots, |slots|, includeLow)) == 1.0 <==>
            forall i, rule :: 0 <= i < |slots| && Reported(slots[i], rule, includeLow) ==>
              rule in slots[i].item.expected || rule in slots[i].item.accept
    ensures Recall(Total(slots, |slots|, includeLow)) == 1.0 <==>
            forall i, rule :: 0 <= i < |slots| && slots[i].answer.Reviewed? && rule in slots[i].item.expected ==>
              Reported(slots[i], rule, includeLow)
  {
    var n := |slots|;
    CountsArePairs(slots, n, includeLow);
    PerfectShares(Total(slots, n, includeLow));
    NoiseIs(slots, n, includeLow);
    if i, rule :| 0 <= i < n && Reported(slots[i], rule, includeLow)
                  && rule !in slots[i].item.expected && rule !in slots[i].item.accept {
      assert IsNoise(slots, n, includeLow, (i, rule));
      assert (i, rule) in Noise(slots, n, includeLow);
    } else {
      assert Noise(slots, n, includeLow) == {};
    }
    if i, rule :| 0 <= i < n && slots[i].answer.Reviewed? && rule in slots[i].item.expected
                  && !Reported(slots[i], rule, includeLow) {
      assert (i, rule) in Misses(slots, n, includeLow);
    } else {
      assert Misses(slots, n, includeLow) == {};
    }
  }
}
