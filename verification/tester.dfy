/** The Prolog-backed tester (popper/tester.py): coverage counting, the
    per-clause coverage gates, and the two caches it keeps.

    Prolog itself is outside this model. What the tester asks of it is a
    parameter: the success set of a collection of rules, and whether a clause
    has a redundant literal. Rules reach Prolog as a `frozenset` of
    `(head, body)` pairs whose literals compare by predicate and arguments
    only, so a collection of rules is identified by the set of its
    `clause_hash` keys, and the success-set oracle is a function of that
    set. */
module Tester {
  import opened Wrappers
  import opened Core
  import opened Outcomes
  import opened Constraints
  import opened Search

  /** An example index, as `pos_index(I, _)` / `neg_index(I, _)` report it. */
  type Example = int

  /** `frozenset(rule for rule in rules)`, up to literal equality. */
  type ProgKey = set<ClauseKey>

  function RulesKey(rules: Program): (k: ProgKey)
    ensures forall r :: r in rules ==> ClauseHash(r) in k
    ensures forall x :: x in k ==> exists r :: r in rules && ClauseHash(r) == x
  {
    set r | r in rules :: ClauseHash(r)
  }

  /** The Prolog queries the tester makes. */
  datatype Prolog = Prolog(
    successSet: ProgKey -> set<Example>,
    redundantLiteral: Clause -> bool)

  /** The tester's examples and caches. `queried` lists, in order, the rule
      sets whose success set was actually asked of Prolog; `litQueried` the
      clause keys whose redundant-literal query was actually made. */
  datatype TesterState = TesterState(
    pos: seq<Example>,
    neg: seq<Example>,
    checked: set<ClauseKey>,
    seenProg: map<ProgKey, set<Example>>,
    queried: seq<ProgKey>,
    litQueried: seq<ClauseKey>)

  /** A freshly built tester: caches empty, nothing asked yet. */
  function Fresh(pos: seq<Example>, neg: seq<Example>): (st: TesterState)
    ensures st.pos == pos && st.neg == neg
    ensures CachesCoherent(st)
  {
    TesterState(pos, neg, {}, map[], [], [])
  }

  predicate NoRepeats<T(==)>(xs: seq<T>) {
    forall i, j :: 0 <= i < j < |xs| ==> xs[i] != xs[j]
  }

  /** Each cache records exactly what was asked, and nothing was asked
      twice. */
  predicate CachesCoherent(st: TesterState) {
    && NoRepeats(st.queried)
    && (forall k :: k in st.seenProg ==> k in st.queried)
    && (forall i :: 0 <= i < |st.queried| ==> st.queried[i] in st.seenProg)
    && NoRepeats(st.litQueried)
    && (forall k :: k in st.checked ==> k in st.litQueried)
    && (forall i :: 0 <= i < |st.litQueried| ==> st.litQueried[i] in st.checked)
  }

  /** Every cached success set is the one Prolog gives. */
  predicate MemoSound(p: Prolog, st: TesterState) {
    forall k :: k in st.seenProg ==> st.seenProg[k] == p.successSet(k)
  }

  /** `st2` is a later state of the same tester: same examples, caches only
      grown, cached entries never changed, queries only appended. */
  predicate Grows(st: TesterState, st2: TesterState) {
    && st2.pos == st.pos && st2.neg == st.neg
    && st.checked <= st2.checked
    && (forall k :: k in st.seenProg ==> k in st2.seenProg && st2.seenProg[k] == st.seenProg[k])
    && st.queried <= st2.queried
    && st.litQueried <= st2.litQueried
  }

  lemma GrowsTransitive(a: TesterState, b: TesterState, c: TesterState)
    requires Grows(a, b) && Grows(b, c)
    ensures Grows(a, c)
  {
  }

  // ---------------------------------------------------------------------------
  // success_set
  // ---------------------------------------------------------------------------

  /** `success_set`: answered from the memo when the rule set was seen
      before, otherwise asked of Prolog once and remembered. */
  function SuccessSet(p: Prolog, st: TesterState, rules: Program): (r: (set<Example>, TesterState))
    ensures RulesKey(rules) in r.1.seenProg && r.0 == r.1.seenProg[RulesKey(rules)]
    ensures RulesKey(rules) in st.seenProg ==> r.1 == st
    ensures RulesKey(rules) !in st.seenProg ==>
              r.0 == p.successSet(RulesKey(rules)) && r.1.queried == st.queried + [RulesKey(rules)]
    ensures Grows(st, r.1)
  {
    var key := RulesKey(rules);
    if key in st.seenProg then (st.seenProg[key], st)
    else
      var s := p.successSet(key);
      (s, st.(seenProg := st.seenProg[key := s], queried := st.queried + [key]))
  }

  /** The memo never changes an answer, and a second call for the same rules
      asks Prolog nothing. */
  lemma SuccessSetMemo(p: Prolog, st: TesterState, rules: Program)
    requires MemoSound(p, st) && CachesCoherent(st)
    ensures SuccessSet(p, st, rules).0 == p.successSet(RulesKey(rules))
    ensures MemoSound(p, SuccessSet(p, st, rules).1) && CachesCoherent(SuccessSet(p, st, rules).1)
    ensures var st2 := SuccessSet(p, st, rules).1;
            SuccessSet(p, st2, rules) == (SuccessSet(p, st, rules).0, st2)
  {
    var key := RulesKey(rules);
    if key !in st.seenProg {
      var st2 := SuccessSet(p, st, rules).1;
      assert key !in st.queried;
      forall i, j | 0 <= i < j < |st2.queried| ensures st2.queried[i] != st2.queried[j] {
        if j == |st.queried| {
          assert st2.queried[i] == st.queried[i];
        }
      }
    }
  }

  // ---------------------------------------------------------------------------
  // test
  // ---------------------------------------------------------------------------

  /** How many entries of `xs` lie in `s` (counted with multiplicity). */
  function CountIn(xs: seq<Example>, s: set<Example>): (n: nat)
    ensures n <= |xs|
    ensures n == 0 <==> forall i :: 0 <= i < |xs| ==> xs[i] !in s
    ensures n == |xs| <==> forall i :: 0 <= i < |xs| ==> xs[i] in s
  {
    if |xs| == 0 then 0
    else
      assert forall i :: 1 <= i < |xs| ==> xs[i] == xs[1..][i - 1];
      CountIn(xs[1..], s) + if xs[0] in s then 1 else 0
  }

  /** The union of the single-rule success sets of `rules`. */
  function UnionCovered(p: Prolog, rules: Program): (s: set<Example>)
    ensures forall x :: x in s <==> exists i :: 0 <= i < |rules| && x in p.successSet({ClauseHash(rules[i])})
  {
    if |rules| == 0 then {}
    else
      var prefix := rules[..|rules| - 1];
      var s := UnionCovered(p, prefix) + p.successSet({ClauseHash(rules[|rules| - 1])});
      assert forall i :: 0 <= i < |prefix| ==> prefix[i] == rules[i];
      s
  }

  /** One more rule adds its own success set to the union. */
  lemma UnionCoveredStep(p: Prolog, rules: Program, i: nat)
    requires i < |rules|
    ensures UnionCovered(p, rules[..i + 1]) == UnionCovered(p, rules[..i]) + p.successSet({ClauseHash(rules[i])})
  {
    assert rules[..i + 1][..i] == rules[..i];
  }

  /** The examples `test` treats as covered: the union of per-rule success
      sets when every rule is separable, else the success set of the whole
      program. A headless rule makes the separability check raise. */
  function Covered(p: Prolog, rules: Program): (r: Result<set<Example>>)
    ensures r.Err? <==> AllSeparable(rules).Err?
    ensures AllSeparable(rules) == Ok(true) ==> r == Ok(UnionCovered(p, rules))
    ensures AllSeparable(rules) == Ok(false) ==> r == Ok(p.successSet(RulesKey(rules)))
  {
    var sep :- AllSeparable(rules);
    if sep then Ok(UnionCovered(p, rules)) else Ok(p.successSet(RulesKey(rules)))
  }

  /** The confusion matrix `test` reports for a set of covered examples. */
  function Matrix(pos: seq<Example>, neg: seq<Example>, covered: set<Example>): (m: ConfMatrix)
    ensures m.tp + m.fn == |pos| && m.tn + m.fp == |neg|
    ensures m.tp == CountIn(pos, covered) && m.fp == CountIn(neg, covered)
  {
    ConfMatrix(CountIn(pos, covered), |pos| - CountIn(pos, covered),
               |neg| - CountIn(neg, covered), CountIn(neg, covered))
  }

  /** `test` as a function of the examples and Prolog's answers. */
  function TestResult(p: Prolog, pos: seq<Example>, neg: seq<Example>, rules: Program): (r: Result<ConfMatrix>)
    ensures r.Err? ==> r.error == AttributeError
    ensures r.Ok? ==> r.value.tp + r.value.fn == |pos| && r.value.tn + r.value.fp == |neg|
  {
    var covered :- Covered(p, rules);
    Ok(Matrix(pos, neg, covered))
  }

  /** A perfect program is one whose covered examples include every positive
      and no negative. */
  lemma PerfectIffCoversExactly(p: Prolog, pos: seq<Example>, neg: seq<Example>, rules: Program)
    requires Covered(p, rules).Ok?
    ensures var covered := Covered(p, rules).value;
            DecideOutcome(TestResult(p, pos, neg, rules).value) == (ALL, NONE) <==>
              (forall i :: 0 <= i < |pos| ==> pos[i] in covered) &&
              (forall i :: 0 <= i < |neg| ==> neg[i] !in covered)
  {
  }

  /** The counting loops of `test`. */
  method Count(xs: seq<Example>, covered: set<Example>) returns (hit: nat, miss: nat)
    ensures hit == CountIn(xs, covered) && hit + miss == |xs|
  {
    hit, miss := 0, 0;
    var i := |xs|;
    while i > 0
      invariant 0 <= i <= |xs|
      invariant hit == CountIn(xs[i..], covered) && hit + miss == |xs| - i
    {
      i := i - 1;
      assert xs[i..][1..] == xs[i + 1..];
      if xs[i] in covered {
        hit := hit + 1;
      } else {
        miss := miss + 1;
      }
    }
    assert xs[0..] == xs;
  }

  /** The per-rule loop `covered.update(self.success_set([rule]))`. */
  method CoverEach(p: Prolog, st: TesterState, rules: Program) returns (covered: set<Example>, st2: TesterState)
    requires MemoSound(p, st) && CachesCoherent(st)
    ensures covered == UnionCovered(p, rules)
    ensures MemoSound(p, st2) && CachesCoherent(st2) && Grows(st, st2)
  {
    covered := {};
    st2 := st;
    var i := 0;
    while i < |rules|
      invariant 0 <= i <= |rules|
      invariant covered == UnionCovered(p, rules[..i])
      invariant MemoSound(p, st2) && CachesCoherent(st2) && Grows(st, st2)
    {
      var got, st3 := CoverOne(p, st2, rules[i]);
      GrowsTransitive(st, st2, st3);
      UnionCoveredStep(p, rules, i);
      covered, st2 := covered + got, st3;
      i := i + 1;
    }
    assert rules[..i] == rules;
  }

  /** `self.success_set([rule])` for one rule of the loop. */
  method CoverOne(p: Prolog, st: TesterState, rule: Clause) returns (covered: set<Example>, st2: TesterState)
    requires MemoSound(p, st) && CachesCoherent(st)
    ensures covered == p.successSet({ClauseHash(rule)})
    ensures MemoSound(p, st2) && CachesCoherent(st2) && Grows(st, st2)
  {
    SuccessSetMemo(p, st, [rule]);
    var r := SuccessSet(p, st, [rule]);
    assert RulesKey([rule]) == {ClauseHash(rule)};
    covered, st2 := r.0, r.1;
  }

  /** The covered examples of `test`, gathered through the memo. */
  method Collect(p: Prolog, st: TesterState, rules: Program, sep: bool) returns (covered: set<Example>, st2: TesterState)
    requires MemoSound(p, st) && CachesCoherent(st)
    requires AllSeparable(rules) == Ok(sep)
    ensures Covered(p, rules) == Ok(covered)
    ensures MemoSound(p, st2) && CachesCoherent(st2) && Grows(st, st2)
  {
    if sep {
      covered, st2 := CoverEach(p, st, rules);
    } else {
      SuccessSetMemo(p, st, rules);
      var s := SuccessSet(p, st, rules);
      covered, st2 := s.0, s.1;
    }
  }

  /** `test`: decide separability, collect the covered examples through the
      memo, then count. */
  method Test(p: Prolog, st: TesterState, rules: Program) returns (r: Result<ConfMatrix>, st2: TesterState)
    requires MemoSound(p, st) && CachesCoherent(st)
    ensures r == TestResult(p, st.pos, st.neg, rules)
    ensures MemoSound(p, st2) && CachesCoherent(st2) && Grows(st, st2)
  {
    var sep := AllSeparable(rules);
    if sep.Err? {
      return Err(sep.error), st;
    }
    var covered;
    covered, st2 := Collect(p, st, rules, sep.value);
    var tp, fn := Count(st.pos, covered);
    var fp, tn := Count(st.neg, covered);
    r := Ok(ConfMatrix(tp, fn, tn, fp));
    assert r == Ok(Matrix(st.pos, st.neg, covered));
  }

  // ---------------------------------------------------------------------------
  // The per-clause gates
  // ---------------------------------------------------------------------------

  /** `is_totally_incomplete`: false for a rule that is not separable;
      otherwise true when no positive example is in the rule's success set.
      With no positive examples the `any` is empty and Prolog is not asked. */
  function IsTotallyIncomplete(p: Prolog, st: TesterState, rule: Clause): (r: (Result<bool>, TesterState))
    ensures r.0.Err? <==> rule.head.None?
    ensures r.0 == Ok(true) && MemoSound(p, st) ==>
              IsSeparable(rule) == Ok(true) && forall i :: 0 <= i < |st.pos| ==> st.pos[i] !in p.successSet({ClauseHash(rule)})
    ensures (IsSeparable(rule) == Ok(true) && MemoSound(p, st) &&
             forall i :: 0 <= i < |st.pos| ==> st.pos[i] !in p.successSet({ClauseHash(rule)})) ==> r.0 == Ok(true)
    ensures IsSeparable(rule) != Ok(true) || |st.pos| == 0 ==> r.1 == st
    ensures Grows(st, r.1)
  {
    match IsSeparable(rule)
    case Err(e) => (Err(e), st)
    case Ok(sep) =>
      if !sep then (Ok(false), st)
      else if |st.pos| == 0 then (Ok(true), st)
      else
        var s := SuccessSet(p, st, [rule]);
        assert RulesKey([rule]) == {ClauseHash(rule)};
        (Ok(forall i :: 0 <= i < |st.pos| ==> st.pos[i] !in s.0), s.1)
  }

  /** `is_inconsistent`: false for a rule that is not separable; otherwise
      true when some negative example is in the rule's success set. */
  function IsInconsistent(p: Prolog, st: TesterState, rule: Clause): (r: (Result<bool>, TesterState))
    ensures r.0.Err? <==> rule.head.None?
    ensures r.0 == Ok(true) && MemoSound(p, st) ==>
              IsSeparable(rule) == Ok(true) && exists i :: 0 <= i < |st.neg| && st.neg[i] in p.successSet({ClauseHash(rule)})
    ensures (IsSeparable(rule) == Ok(true) && MemoSound(p, st) &&
             exists i :: 0 <= i < |st.neg| && st.neg[i] in p.successSet({ClauseHash(rule)})) ==> r.0 == Ok(true)
    ensures IsSeparable(rule) != Ok(true) || |st.neg| == 0 ==> r.1 == st
    ensures Grows(st, r.1)
  {
    match IsSeparable(rule)
    case Err(e) => (Err(e), st)
    case Ok(sep) =>
      if !sep then (Ok(false), st)
      else if |st.neg| == 0 then (Ok(false), st)
      else
        var s := SuccessSet(p, st, [rule]);
        assert RulesKey([rule]) == {ClauseHash(rule)};
        (Ok(exists i :: 0 <= i < |st.neg| && st.neg[i] in s.0), s.1)
  }

  /** Totally incomplete and inconsistent are about disjoint example sets:
      a separable rule that covers nothing is never inconsistent. */
  lemma CoversNothing(p: Prolog, st: TesterState, rule: Clause)
    requires MemoSound(p, st) && IsSeparable(rule) == Ok(true)
    requires p.successSet({ClauseHash(rule)}) == {}
    ensures IsInconsistent(p, st, rule).0 == Ok(false)
    ensures IsTotallyIncomplete(p, st, rule).0 == Ok(true)
  {
  }

  // ---------------------------------------------------------------------------
  // check_redundant_literal
  // ---------------------------------------------------------------------------

  /** `check_redundant_literal`, consumed to the end: each clause whose key
      was not checked before is checked now and queried once; the flagged
      ones are yielded in program order. */
  function RedundantLiterals(p: Prolog, st: TesterState, program: Program): (r: (seq<Clause>, TesterState))
    ensures r.1 == st.(checked := r.1.checked, litQueried := r.1.litQueried)
    ensures r.1.checked == st.checked + set c | c in program :: ClauseHash(c)
    decreases |program|
  {
    if |program| == 0 then ([], st)
    else
      var c := program[0];
      var k := ClauseHash(c);
      assert forall x :: x in program <==> x == c || x in program[1..];
      if k in st.checked then RedundantLiterals(p, st, program[1..])
      else
        var rest := RedundantLiterals(p, st.(checked := st.checked + {k}, litQueried := st.litQueried + [k]), program[1..]);
        (if p.redundantLiteral(c) then [c] + rest.0 else rest.0, rest.1)
  }

  /** Only clauses of the program that Prolog flags, and whose key had not
      been checked before, are yielded. */
  lemma {:induction false} RedundantLiteralsSound(p: Prolog, st: TesterState, program: Program)
    ensures forall c :: c in RedundantLiterals(p, st, program).0 ==>
              c in program && p.redundantLiteral(c) && ClauseHash(c) !in st.checked
    decreases |program|
  {
    if |program| > 0 {
      var k := ClauseHash(program[0]);
      assert forall x :: x in program[1..] ==> x in program;
      if k in st.checked {
        RedundantLiteralsSound(p, st, program[1..]);
      } else {
        RedundantLiteralsSound(p, st.(checked := st.checked + {k}, litQueried := st.litQueried + [k]), program[1..]);
      }
    }
  }

  /** Every flagged clause that is the first of its key and whose key had
      not been checked before is yielded. */
  lemma {:induction false} RedundantLiteralsComplete(p: Prolog, st: TesterState, program: Program, i: nat)
    requires i < |program| && ClauseHash(program[i]) !in st.checked
    requires forall j :: 0 <= j < i ==> ClauseHash(program[j]) != ClauseHash(program[i])
    requires p.redundantLiteral(program[i])
    ensures program[i] in RedundantLiterals(p, st, program).0
    decreases |program|
  {
    var k := ClauseHash(program[0]);
    var st1 := st.(checked := st.checked + {k}, litQueried := st.litQueried + [k]);
    var tail := program[1..];
    if i == 0 {
      assert k !in st.checked;
      var rest := RedundantLiterals(p, st1, tail);
      assert RedundantLiterals(p, st, program).0 == [program[0]] + rest.0;
    } else {
      assert program[i] == tail[i - 1];
      assert forall j :: 0 <= j < i - 1 ==> tail[j] == program[j + 1];
      if k in st.checked {
        RedundantLiteralsComplete(p, st, tail, i - 1);
        assert RedundantLiterals(p, st, program) == RedundantLiterals(p, st, tail);
      } else {
        assert k != ClauseHash(program[i]);
        RedundantLiteralsComplete(p, st1, tail, i - 1);
        var rest := RedundantLiterals(p, st1, tail);
        assert RedundantLiterals(p, st, program).0 ==
               if p.redundantLiteral(program[0]) then [program[0]] + rest.0 else rest.0;
      }
    }
  }

  /** The cache of checked keys and the log of queries grow together. */
  lemma {:induction false} RedundantLiteralsLog(p: Prolog, st: TesterState, program: Program)
    ensures var st2 := RedundantLiterals(p, st, program).1;
            st.litQueried <= st2.litQueried &&
            forall i :: |st.litQueried| <= i < |st2.litQueried| ==> st2.litQueried[i] !in st.checked
    decreases |program|
  {
    if |program| > 0 {
      var k := ClauseHash(program[0]);
      if k in st.checked {
        RedundantLiteralsLog(p, st, program[1..]);
      } else {
        var st1 := st.(checked := st.checked + {k}, litQueried := st.litQueried + [k]);
        RedundantLiteralsLog(p, st1, program[1..]);
      }
    }
  }

  /** Checking keeps the redundant-literal cache coherent: no clause key is
      ever queried twice. */
  lemma {:induction false} RedundantLiteralsCoherent(p: Prolog, st: TesterState, program: Program)
    requires CachesCoherent(st)
    ensures CachesCoherent(RedundantLiterals(p, st, program).1)
    decreases |program|
  {
    if |program| > 0 {
      var k := ClauseHash(program[0]);
      if k in st.checked {
        RedundantLiteralsCoherent(p, st, program[1..]);
      } else {
        var st1 := st.(checked := st.checked + {k}, litQueried := st.litQueried + [k]);
        assert k !in st.litQueried;
        forall i, j | 0 <= i < j < |st1.litQueried| ensures st1.litQueried[i] != st1.litQueried[j] {
          if j == |st.litQueried| {
            assert st1.litQueried[i] == st.litQueried[i];
          }
        }
        RedundantLiteralsCoherent(p, st1, program[1..]);
      }
    }
  }

  /** Once a program has been checked, checking it again yields nothing and
      queries nothing. */
  lemma RedundantLiteralsOnce(p: Prolog, st: TesterState, program: Program)
    ensures var st2 := RedundantLiterals(p, st, program).1;
            RedundantLiterals(p, st2, program) == ([], st2)
  {
    var st2 := RedundantLiterals(p, st, program).1;
    RedundantLiteralsChecked(p, st2, program);
  }

  lemma {:induction false} RedundantLiteralsChecked(p: Prolog, st: TesterState, program: Program)
    requires forall c :: c in program ==> ClauseHash(c) in st.checked
    ensures RedundantLiterals(p, st, program) == ([], st)
    decreases |program|
  {
    if |program| > 0 {
      assert program[0] in program;
      assert forall c :: c in program[1..] ==> c in program;
      RedundantLiteralsChecked(p, st, program[1..]);
    }
  }

  // ---------------------------------------------------------------------------
  // The tester as the loop sees it
  // ---------------------------------------------------------------------------

  /** With its memo sound, the tester answers the loop's questions as
      functions of the program alone. A raise of the gates (a headless rule)
      is read as false: `build_rules` only asks about rules it has just found
      separable, which have a head. The redundant-literal and
      redundant-clause answers are the given ones. */
  function AsOracle(p: Prolog, pos: seq<Example>, neg: seq<Example>,
                    isNonFunctional: Program -> bool, redundantLiterals: Program -> seq<Clause>,
                    redundantClause: Program -> bool): (t: TesterOracle)
    ensures forall rules :: t.test(rules) == TestResult(p, pos, neg, rules)
  {
    TesterOracle(
      rules => TestResult(p, pos, neg, rules),
      isNonFunctional,
      redundantLiterals,
      redundantClause,
      rule => IsInconsistent(p, Fresh(pos, neg), rule).0 == Ok(true),
      rule => IsTotallyIncomplete(p, Fresh(pos, neg), rule).0 == Ok(true))
  }

  /** The search loop's example-counting premise holds for this tester. */
  lemma TesterCountsExamples(p: Prolog, pos: seq<Example>, neg: seq<Example>,
                             isNonFunctional: Program -> bool, redundantLiterals: Program -> seq<Clause>,
                             redundantClause: Program -> bool)
    ensures CountsExamples(AsOracle(p, pos, neg, isNonFunctional, redundantLiterals, redundantClause), |pos|, |neg|)
  {
  }

  /** The memoised method and the oracle agree on every program. */
  lemma TestAgreesWithOracle(p: Prolog, st: TesterState, rules: Program,
                             isNonFunctional: Program -> bool, redundantLiterals: Program -> seq<Clause>,
                             redundantClause: Program -> bool)
    ensures AsOracle(p, st.pos, st.neg, isNonFunctional, redundantLiterals, redundantClause).test(rules)
            == TestResult(p, st.pos, st.neg, rules)
  {
  }
}
