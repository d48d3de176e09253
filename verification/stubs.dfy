/** The two server-side testers (popper/structural_tester.py,
    popper/dummy_tester.py): constant implementations of the tester
    interface that never look at examples. */
module Stubs {
  import opened Wrappers
  import opened Core
  import opened Outcomes
  import opened Constraints
  import opened Search

  /** `StructuralTester`: every query answers no (the redundancy checks
      return the empty list), and `test` raises `RuntimeError`. */
  function StructuralTester(): (t: TesterOracle)
    ensures forall p :: t.test(p) == Err(RuntimeError)
    ensures forall p :: t.redundantLiterals(p) == [] && !t.redundantClause(p) && !t.isNonFunctional(p)
    ensures forall r :: !t.isInconsistent(r) && !t.isTotallyIncomplete(r)
  {
    TesterOracle(
      p => Err(RuntimeError),
      p => false,
      p => [],
      p => false,
      r => false,
      r => false)
  }

  /** `DummyTester`: the same answers, `check_redundant_clause` returns
      False rather than an empty list (equally falsy), and there is no `test`
      method at all, so calling it raises `AttributeError`. */
  function DummyTester(): (t: TesterOracle)
    ensures forall p :: t.test(p) == Err(AttributeError)
    ensures forall p :: t.redundantLiterals(p) == [] && !t.redundantClause(p) && !t.isNonFunctional(p)
    ensures forall r :: !t.isInconsistent(r) && !t.isTotallyIncomplete(r)
  {
    TesterOracle(
      p => Err(AttributeError),
      p => false,
      p => [],
      p => false,
      r => false,
      r => false)
  }

  /** Both stubs expose empty `pos` and `neg`. */
  function StubExamples(): (r: (seq<int>, seq<int>))
    ensures |r.0| == 0 && |r.1| == 0
  {
    ([], [])
  }

  /** An oracle that answers no to every query about a program's rules. */
  ghost predicate Silent(t: TesterOracle) {
    && (forall p :: t.redundantLiterals(p) == [] && !t.redundantClause(p) && !t.isNonFunctional(p))
    && (forall r :: !t.isInconsistent(r) && !t.isTotallyIncomplete(r))
  }

  lemma StubsSilent()
    ensures Silent(StructuralTester()) && Silent(DummyTester())
  {
  }

  /** With a silent tester the per-clause passes contribute nothing. */
  lemma SilentPerClause(rules: Program, c: Constrainer, t: TesterOracle, b: Before, m: MinClause)
    requires Silent(t)
    ensures PerClauseSpec(rules, c, t, b, m) == {}
  {
    assert forall k :: ClauseRules(k, c, t, b, m) == {};
  }

  /** On the server, `build_rules` produces exactly the outcome table's
      families: the tester-driven extras are all empty. */
  lemma SilentBuildRules(s: Settings, c: Constrainer, t: TesterOracle, program: Program,
                         b: Before, m: MinClause, outcome: (Outcome, Outcome))
    requires Silent(t)
    ensures var fs := OutcomeToConstraints(Remap(outcome)).value;
            BuildRules(s, c, t, program, b, m, outcome) ==
              if GENERALISATION in fs && |program| == 0 then Err(UnboundLocal)
              else if SomeUnseparable(program) then Err(AttributeError)
              else Ok(TableSpec(fs, c, program, b, m))
  {
    BuildRulesMeaning(s, c, t, program, b, m, outcome);
    SilentPerClause(program, c, t, b, m);
    assert t.redundantLiterals(program) == [];
    assert RedundantLiteralRules([], c, b, m) == {};
  }

  lemma FirstTestedScored(t: TesterOracle, tested: seq<Tested>, maxLiterals: nat)
    requires TestedInOrder(t, tested, maxLiterals) && |tested| > 0
    ensures t.test(tested[0].program).Ok?
  {
  }

  lemma HeadIn(xs: seq<Tested>)
    requires |xs| > 0
    ensures xs[0] in xs
  {
  }

  /** The search loop cannot run on a stub: no program is ever scored, so a
      finished search has tested nothing and learned nothing. */
  lemma StubSearchTestsNothing(t: TesterOracle, numPos: nat, numNeg: nat, maxLiterals: nat,
                               r: Result<Option<Program>>, stats: Stats, tested: seq<Tested>)
    requires t == StructuralTester() || t == DummyTester()
    requires SearchResult(t, numPos, numNeg, maxLiterals, r, stats, tested)
    ensures tested == [] && stats.bestPrograms == [] && stats.solution.None?
    ensures r.Ok? ==> r.value.None?
  {
    if |tested| > 0 {
      FirstTestedScored(t, tested, maxLiterals);
      assert false;
    }
    if |stats.bestPrograms| > 0 {
      HeadIn(stats.bestPrograms);
      assert false;
    }
  }
}
