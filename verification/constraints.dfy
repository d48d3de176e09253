/** Constraint selection and grounding (popper/loop.py: `build_rules`,
    `ground_rules`).

    The constraint constructors of `Constrain`, the tester's queries and the
    grounder's `find_bindings` are outside this model; they are parameters,
    each an arbitrary function of its arguments. */
module Constraints {
  import opened Wrappers
  import opened Core
  import opened Outcomes

  type Before = map<int, set<int>>
  type MinClause = map<int, int>

  /** The constraint constructors `build_rules` calls. */
  datatype Constrainer = Constrainer(
    generalisation: (Program, Before, MinClause) -> set<Clause>,
    specialisation: (Program, Before, MinClause) -> set<Clause>,
    redundancy: (Program, Before, MinClause) -> set<Clause>,
    banish: (Program, Before, MinClause) -> set<Clause>,
    redundantLiteral: (Clause, Before, MinClause) -> set<Clause>)

  /** The tester interface the loop uses: `test`, and the queries
      `build_rules` makes. `redundantClause` is the truthiness of what
      `check_redundant_clause` returns. */
  datatype TesterOracle = TesterOracle(
    test: Program -> Result<ConfMatrix>,
    isNonFunctional: Program -> bool,
    redundantLiterals: Program -> seq<Clause>,
    redundantClause: Program -> bool,
    isInconsistent: Clause -> bool,
    isTotallyIncomplete: Clause -> bool)

  datatype Settings = Settings(functionalTest: bool, maxLiterals: nat)

  // ---------------------------------------------------------------------------
  // The table-driven families
  // ---------------------------------------------------------------------------

  /** The constraints one family contributes. The generalisation branch
      passes `[rule]`, where `rule` is the variable left over from the debug
      loop over the program: its last clause, and unbound when the program is
      empty. */
  function FamilyRules(f: Con, c: Constrainer, program: Program, b: Before, m: MinClause): (r: Result<set<Clause>>)
    ensures r.Err? <==> f == GENERALISATION && |program| == 0
    ensures r.Err? ==> r.error == UnboundLocal
  {
    match f
    case GENERALISATION =>
      if |program| == 0 then Err(UnboundLocal)
      else Ok(c.generalisation([program[|program| - 1]], b, m))
    case SPECIALISATION => Ok(c.specialisation(program, b, m))
    case REDUNDANCY => Ok(c.redundancy(program, b, m))
    case BANISH => Ok(c.banish(program, b, m))
  }

  /** The `for constraint_type in ...` loop: the union of the families, in
      order, stopping at the first raise. */
  function TableRules(fs: seq<Con>, c: Constrainer, program: Program, b: Before, m: MinClause): (r: Result<set<Clause>>)
    ensures r.Err? ==> r.error == UnboundLocal
    decreases |fs|
  {
    if |fs| == 0 then Ok({})
    else
      var here :- FamilyRules(fs[0], c, program, b, m);
      var rest :- TableRules(fs[1..], c, program, b, m);
      Ok(here + rest)
  }

  /** The union of the redundant-literal constraints, one call per flagged
      clause. */
  function RedundantLiteralRules(flagged: seq<Clause>, c: Constrainer, b: Before, m: MinClause): (r: set<Clause>)
    ensures forall x :: x in r <==> exists k :: k in flagged && x in c.redundantLiteral(k, b, m)
    decreases |flagged|
  {
    if |flagged| == 0 then {}
    else
      assert forall k :: k in flagged <==> k == flagged[0] || k in flagged[1..];
      c.redundantLiteral(flagged[0], b, m) + RedundantLiteralRules(flagged[1..], c, b, m)
  }

  // ---------------------------------------------------------------------------
  // The per-clause passes
  // ---------------------------------------------------------------------------

  /** What one separable clause contributes: generalisations when it is
      inconsistent, redundancy constraints when it is totally incomplete. */
  function ClauseRules(rule: Clause, c: Constrainer, t: TesterOracle, b: Before, m: MinClause): set<Clause> {
    (if t.isInconsistent(rule) then c.generalisation([rule], b, m) else {})
    + (if t.isTotallyIncomplete(rule) then c.redundancy([rule], b, m) else {})
  }

  /** The first `for rule in program` pass, gated on `is_separable`, which
      raises for a headless clause that is not recursive. */
  function FirstPass(rules: Program, c: Constrainer, t: TesterOracle, b: Before, m: MinClause): (r: Result<set<Clause>>)
    ensures r.Err? ==> r.error == AttributeError
    decreases |rules|
  {
    if |rules| == 0 then Ok({})
    else
      var sep :- IsSeparable(rules[0]);
      var rest :- FirstPass(rules[1..], c, t, b, m);
      Ok((if sep then ClauseRules(rules[0], c, t, b, m) else {}) + rest)
  }

  /** The second pass's inconsistency loop. */
  function InconsistentPass(rules: Program, c: Constrainer, t: TesterOracle, b: Before, m: MinClause): (r: Result<set<Clause>>)
    ensures r.Err? ==> r.error == AttributeError
    decreases |rules|
  {
    if |rules| == 0 then Ok({})
    else
      var sep :- IsSeparable(rules[0]);
      var rest :- InconsistentPass(rules[1..], c, t, b, m);
      Ok((if sep && t.isInconsistent(rules[0]) then c.generalisation([rules[0]], b, m) else {}) + rest)
  }

  /** `all(Clause.is_separable(rule) for rule in program)`: stops at the first
      clause that is not separable, and raises if a clause before it does. */
  function AllSeparable(rules: Program): (r: Result<bool>)
    ensures r == Ok(true) <==> forall k :: k in rules ==> IsSeparable(k) == Ok(true)
    ensures r.Err? ==> r.error == AttributeError && SomeUnseparable(rules)
    decreases |rules|
  {
    if |rules| == 0 then Ok(true)
    else
      var sep :- IsSeparable(rules[0]);
      assert forall k :: k in rules <==> k == rules[0] || k in rules[1..];
      if !sep then Ok(false) else AllSeparable(rules[1..])
  }

  /** The second pass's incompleteness loop (its separability gate is the
      `all(...)` above). */
  function IncompletePass(rules: Program, c: Constrainer, t: TesterOracle, b: Before, m: MinClause): set<Clause>
    decreases |rules|
  {
    if |rules| == 0 then {}
    else
      (if t.isTotallyIncomplete(rules[0]) then c.redundancy([rules[0]], b, m) else {})
      + IncompletePass(rules[1..], c, t, b, m)
  }

  /** The `if len(program) > 1` block. */
  function SecondPass(program: Program, c: Constrainer, t: TesterOracle, b: Before, m: MinClause): (r: Result<set<Clause>>)
    ensures r.Err? ==> r.error == AttributeError
  {
    if |program| <= 1 then Ok({})
    else
      var inconsistent :- InconsistentPass(program, c, t, b, m);
      var allSep :- AllSeparable(program);
      Ok(inconsistent + if allSep then IncompletePass(program, c, t, b, m) else {})
  }

  // ---------------------------------------------------------------------------
  // build_rules
  // ---------------------------------------------------------------------------

  /** `build_rules`. */
  function BuildRules(s: Settings, c: Constrainer, t: TesterOracle, program: Program,
                      b: Before, m: MinClause, outcome: (Outcome, Outcome)): (r: Result<set<Clause>>)
    ensures r.Err? ==> r.error == UnboundLocal || r.error == AttributeError
  {
    // After the remapping the lookup cannot miss (see TableTotal).
    var fs := OutcomeToConstraints(Remap(outcome)).value;
    var table :- TableRules(fs, c, program, b, m);
    var functional := if s.functionalTest && t.isNonFunctional(program)
                      then c.generalisation(program, b, m) else {};
    var redundantLits := RedundantLiteralRules(t.redundantLiterals(program), c, b, m);
    var redundantClause := if t.redundantClause(program) then c.generalisation(program, b, m) else {};
    var first :- FirstPass(program, c, t, b, m);
    var second :- SecondPass(program, c, t, b, m);
    Ok(table + functional + redundantLits + redundantClause + first + second)
  }

  // ---------------------------------------------------------------------------
  // What build_rules computes
  // ---------------------------------------------------------------------------

  /** The constraints of the table families, read as a union. */
  function TableSpec(fs: seq<Con>, c: Constrainer, program: Program, b: Before, m: MinClause): set<Clause> {
    set f, x | f in fs && FamilyRules(f, c, program, b, m).Ok? && x in FamilyRules(f, c, program, b, m).value :: x
  }

  /** The constraints every separable clause of `rules` contributes. */
  function PerClauseSpec(rules: Program, c: Constrainer, t: TesterOracle, b: Before, m: MinClause): set<Clause> {
    set k, x | k in rules && IsSeparable(k) == Ok(true) && x in ClauseRules(k, c, t, b, m) :: x
  }

  /** Some clause of `rules` makes `is_separable` raise. */
  predicate SomeUnseparable(rules: Program) {
    exists k :: k in rules && IsSeparable(k).Err?
  }

  lemma {:induction false} TableRulesMeaning(fs: seq<Con>, c: Constrainer, program: Program, b: Before, m: MinClause)
    ensures TableRules(fs, c, program, b, m) ==
              if GENERALISATION in fs && |program| == 0 then Err(UnboundLocal)
              else Ok(TableSpec(fs, c, program, b, m))
    decreases |fs|
  {
    if |fs| > 0 {
      TableRulesMeaning(fs[1..], c, program, b, m);
      assert forall f :: f in fs <==> f == fs[0] || f in fs[1..];
      if !(GENERALISATION in fs && |program| == 0) {
        var here := FamilyRules(fs[0], c, program, b, m).value;
        var whole := TableSpec(fs, c, program, b, m);
        var tail := TableSpec(fs[1..], c, program, b, m);
        forall x | x in whole ensures x in here + tail {
          var f :| f in fs && FamilyRules(f, c, program, b, m).Ok? && x in FamilyRules(f, c, program, b, m).value;
          if f != fs[0] {
            assert f in fs[1..];
          }
        }
        forall x | x in here + tail ensures x in whole {
          if x !in here {
            var f :| f in fs[1..] && FamilyRules(f, c, program, b, m).Ok? && x in FamilyRules(f, c, program, b, m).value;
            assert f in fs;
          }
        }
        assert whole == here + tail;
      } else if fs[0] != GENERALISATION {
        assert GENERALISATION in fs[1..];
      }
    } else {
      assert TableSpec(fs, c, program, b, m) == {};
    }
  }

  lemma {:induction false} FirstPassMeaning(rules: Program, c: Constrainer, t: TesterOracle, b: Before, m: MinClause)
    ensures FirstPass(rules, c, t, b, m) ==
              if SomeUnseparable(rules) then Err(AttributeError)
              else Ok(PerClauseSpec(rules, c, t, b, m))
    decreases |rules|
  {
    if |rules| > 0 {
      FirstPassMeaning(rules[1..], c, t, b, m);
      assert forall k :: k in rules <==> k == rules[0] || k in rules[1..];
      if SomeUnseparable(rules) {
        var k :| k in rules && IsSeparable(k).Err?;
        if k != rules[0] {
          assert SomeUnseparable(rules[1..]);
        }
      } else {
        var here := if IsSeparable(rules[0]) == Ok(true) then ClauseRules(rules[0], c, t, b, m) else {};
        var whole := PerClauseSpec(rules, c, t, b, m);
        var tail := PerClauseSpec(rules[1..], c, t, b, m);
        forall x | x in whole ensures x in here + tail {
          var k :| k in rules && IsSeparable(k) == Ok(true) && x in ClauseRules(k, c, t, b, m);
          if k != rules[0] {
            assert k in rules[1..];
          }
        }
        forall x | x in here + tail ensures x in whole {
          if x !in here {
            var k :| k in rules[1..] && IsSeparable(k) == Ok(true) && x in ClauseRules(k, c, t, b, m);
            assert k in rules;
          }
        }
        assert whole == here + tail;
      }
    } else {
      assert PerClauseSpec(rules, c, t, b, m) == {};
    }
  }

  lemma {:induction false} InconsistentPassWithin(rules: Program, c: Constrainer, t: TesterOracle, b: Before, m: MinClause)
    requires !SomeUnseparable(rules)
    ensures InconsistentPass(rules, c, t, b, m).Ok?
    ensures InconsistentPass(rules, c, t, b, m).value <= PerClauseSpec(rules, c, t, b, m)
    decreases |rules|
  {
    if |rules| > 0 {
      var r0 := rules[0];
      assert r0 in rules;
      assert forall k :: k in rules[1..] ==> k in rules;
      InconsistentPassWithin(rules[1..], c, t, b, m);
      var whole := PerClauseSpec(rules, c, t, b, m);
      forall x | x in InconsistentPass(rules, c, t, b, m).value ensures x in whole {
        if x !in InconsistentPass(rules[1..], c, t, b, m).value {
          assert x in ClauseRules(r0, c, t, b, m);
        } else {
          var k :| k in rules[1..] && IsSeparable(k) == Ok(true) && x in ClauseRules(k, c, t, b, m);
          assert k in rules;
        }
      }
    }
  }

  lemma {:induction false} IncompletePassWithin(rules: Program, c: Constrainer, t: TesterOracle, b: Before, m: MinClause)
    requires forall k :: k in rules ==> IsSeparable(k) == Ok(true)
    ensures IncompletePass(rules, c, t, b, m) <= PerClauseSpec(rules, c, t, b, m)
    decreases |rules|
  {
    if |rules| > 0 {
      var r0 := rules[0];
      assert r0 in rules;
      assert forall k :: k in rules[1..] ==> k in rules;
      IncompletePassWithin(rules[1..], c, t, b, m);
      var whole := PerClauseSpec(rules, c, t, b, m);
      forall x | x in IncompletePass(rules, c, t, b, m) ensures x in whole {
        if x !in IncompletePass(rules[1..], c, t, b, m) {
          assert x in ClauseRules(r0, c, t, b, m);
        } else {
          var k :| k in rules[1..] && IsSeparable(k) == Ok(true) && x in ClauseRules(k, c, t, b, m);
          assert k in rules;
        }
      }
    }
  }

  /** The second per-clause pass only repeats what the first one added. */
  lemma SecondPassRedundant(program: Program, c: Constrainer, t: TesterOracle, b: Before, m: MinClause)
    requires !SomeUnseparable(program)
    ensures SecondPass(program, c, t, b, m).Ok?
    ensures SecondPass(program, c, t, b, m).value <= PerClauseSpec(program, c, t, b, m)
  {
    if |program| > 1 {
      InconsistentPassWithin(program, c, t, b, m);
      if AllSeparable(program) == Ok(true) {
        IncompletePassWithin(program, c, t, b, m);
      }
    }
  }

  /** `build_rules` returns the union of the table families (the
      generalisation family built from the program's last clause), the
      functional and redundancy extras, and the per-clause constraints of
      every separable clause. It raises when the generalisation family is
      asked for an empty program, or when some clause is headless and not
      recursive. */
  lemma BuildRulesMeaning(s: Settings, c: Constrainer, t: TesterOracle, program: Program,
                          b: Before, m: MinClause, outcome: (Outcome, Outcome))
    ensures var fs := OutcomeToConstraints(Remap(outcome)).value;
            BuildRules(s, c, t, program, b, m, outcome) ==
              if GENERALISATION in fs && |program| == 0 then Err(UnboundLocal)
              else if SomeUnseparable(program) then Err(AttributeError)
              else Ok(TableSpec(fs, c, program, b, m)
                      + (if s.functionalTest && t.isNonFunctional(program) then c.generalisation(program, b, m) else {})
                      + RedundantLiteralRules(t.redundantLiterals(program), c, b, m)
                      + (if t.redundantClause(program) then c.generalisation(program, b, m) else {})
                      + PerClauseSpec(program, c, t, b, m))
  {
    var fs := OutcomeToConstraints(Remap(outcome)).value;
    TableRulesMeaning(fs, c, program, b, m);
    FirstPassMeaning(program, c, t, b, m);
    if !(GENERALISATION in fs && |program| == 0) && !SomeUnseparable(program) {
      SecondPassRedundant(program, c, t, b, m);
      var first := PerClauseSpec(program, c, t, b, m);
      var second := SecondPass(program, c, t, b, m).value;
      var table := TableSpec(fs, c, program, b, m);
      var functional := if s.functionalTest && t.isNonFunctional(program) then c.generalisation(program, b, m) else {};
      var redundantLits := RedundantLiteralRules(t.redundantLiterals(program), c, b, m);
      var redundantClause := if t.redundantClause(program) then c.generalisation(program, b, m) else {};
      var rest := table + functional + redundantLits + redundantClause + first;
      assert rest + second == rest;
    }
  }

  /** With generalisation in the table entry and a non-empty program, the
      generalisation constraints of the last clause alone are included. */
  lemma GeneralisationUsesLastClause(s: Settings, c: Constrainer, t: TesterOracle, program: Program,
                                     b: Before, m: MinClause, outcome: (Outcome, Outcome))
    requires |program| > 0 && Remap(outcome).1 == SOME
    requires BuildRules(s, c, t, program, b, m, outcome).Ok?
    ensures c.generalisation([program[|program| - 1]], b, m) <= BuildRules(s, c, t, program, b, m, outcome).value
  {
    BuildRulesMeaning(s, c, t, program, b, m, outcome);
    var fs := OutcomeToConstraints(Remap(outcome)).value;
    assert GENERALISATION in fs;
    forall x | x in c.generalisation([program[|program| - 1]], b, m)
      ensures x in TableSpec(fs, c, program, b, m)
    {
      assert x in FamilyRules(GENERALISATION, c, program, b, m).value;
    }
  }

  // ---------------------------------------------------------------------------
  // ground_rules
  // ---------------------------------------------------------------------------

  /** The body literals that are not meta literals, in order. */
  function NonMeta(body: seq<Literal>): (r: seq<Literal>)
    ensures forall l :: l in r <==> l in body && !l.meta
    ensures |r| <= |body|
    decreases |body|
  {
    if |body| == 0 then []
    else
      assert forall l :: l in body <==> l == body[0] || l in body[1..];
      (if body[0].meta then [] else [body[0]]) + NonMeta(body[1..])
  }

  /** The clause `ground_rules` grounds: the head kept, meta literals
      dropped. */
  function StripMeta(c: Clause): (r: Clause)
    ensures r.head == c.head
    ensures forall l :: l in r.body <==> l in c.body && !l.meta
  {
    Clause(c.head, NonMeta(c.body))
  }

  /** One constraint, meta literals dropped, grounded by one assignment. */
  function GroundConstraint(c: Clause, a: Assignment): GroundClause {
    GroundClauseOf(StripMeta(c), a)
  }

  /** Every ground clause of every constraint: one per assignment, each the
      constraint without its meta literals, grounded. */
  function GroundedBy(bindings: Clause -> seq<Assignment>, clauses: set<Clause>): set<GroundClause> {
    set c, a | c in clauses && a in bindings(c) :: GroundConstraint(c, a)
  }

  function GroundedOne(c: Clause, assignments: seq<Assignment>): set<GroundClause> {
    set a | a in assignments :: GroundConstraint(c, a)
  }

  lemma GroundedByAdd(bindings: Clause -> seq<Assignment>, cs: set<Clause>, c: Clause)
    ensures GroundedBy(bindings, cs + {c}) == GroundedBy(bindings, cs) + GroundedOne(c, bindings(c))
  {
    var lhs := GroundedBy(bindings, cs + {c});
    forall g | g in lhs ensures g in GroundedBy(bindings, cs) + GroundedOne(c, bindings(c)) {
      var c', a :| c' in cs + {c} && a in bindings(c') && g == GroundConstraint(c', a);
      if c' != c {
        assert c' in cs;
      }
    }
  }

  lemma GroundedOneAppend(c: Clause, assignments: seq<Assignment>, a: Assignment)
    ensures GroundedOne(c, assignments + [a]) == GroundedOne(c, assignments) + {GroundConstraint(c, a)}
  {
  }

  /** The inner loop of `ground_rules`: one ground clause per assignment. */
  method GroundEach(c: Clause, assignments: seq<Assignment>) returns (out: set<GroundClause>)
    ensures out == GroundedOne(c, assignments)
  {
    out := {};
    var j := 0;
    while j < |assignments|
      invariant 0 <= j <= |assignments|
      invariant out == GroundedOne(c, assignments[..j])
    {
      GroundedOneAppend(c, assignments[..j], assignments[j]);
      assert assignments[..j + 1] == assignments[..j] + [assignments[j]];
      out := out + {GroundConstraint(c, assignments[j])};
      j := j + 1;
    }
    assert assignments[..j] == assignments;
  }

  /** `ground_rules`: for each constraint, every assignment `find_bindings`
      (here `bindings`, computed from the whole constraint) returns grounds
      the constraint without its meta literals; the results are collected in
      a set. */
  method GroundRules(bindings: Clause -> seq<Assignment>, clauses: set<Clause>)
    returns (out: set<GroundClause>)
    ensures out == GroundedBy(bindings, clauses)
  {
    out := {};
    var remaining := clauses;
    while remaining != {}
      invariant remaining <= clauses
      invariant out == GroundedBy(bindings, clauses - remaining)
      decreases |remaining|
    {
      var c :| c in remaining;
      var grounded := GroundEach(c, bindings(c));
      GroundedByAdd(bindings, clauses - remaining, c);
      assert (clauses - remaining) + {c} == clauses - (remaining - {c});
      out := out + grounded;
      remaining := remaining - {c};
    }
  }

  /** No meta literal reaches a ground constraint: every ground body literal
      grounds a non-meta body literal of some input constraint, and every
      ground head grounds that constraint's head. */
  lemma GroundRulesDropMeta(bindings: Clause -> seq<Assignment>, clauses: set<Clause>, g: GroundClause)
    requires g in GroundedBy(bindings, clauses)
    ensures exists c, a :: c in clauses && a in bindings(c)
              && (g.head.Some? <==> c.head.Some?)
              && (c.head.Some? ==> g.head == Some(GroundLiteral(c.head.value, a)))
              && forall gl :: gl in g.body ==> exists l :: l in c.body && !l.meta && gl == GroundLiteral(l, a)
  {
    var c, a :| c in clauses && a in bindings(c) && g == GroundConstraint(c, a);
    assert forall gl :: gl in g.body ==> exists l :: l in StripMeta(c).body && gl == GroundLiteral(l, a);
  }
}
