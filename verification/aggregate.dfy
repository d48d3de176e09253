/** Centralised learning over several datasets with a shared outcome
    (centralizedlearning/aggregate.py): each dataset's solver proposes a
    program, each dataset's tester scores it, the outcomes are combined by
    `AGGREGATION_TABLE`, and every dataset learns constraints from that one
    combined outcome, until no dataset's program changes or ten rounds have
    run.

    The solvers are replaced by the models they return in each round, for
    the first proposal and for the improved one; how a solver reacts to the
    constraints it is given is what those models stand for. */
module TableAggregation {
  import opened Wrappers
  import opened Core
  import opened Outcomes
  import opened Constraints
  import opened Generate
  import opened Ordering

  // ---------------------------------------------------------------------------
  // The table
  // ---------------------------------------------------------------------------

  /** The order the table follows: NONE < SOME < ALL. */
  function Rank(o: Outcome): nat {
    match o
    case NONE => 0
    case SOME => 1
    case ALL => 2
  }

  function Max(a: nat, b: nat): nat {
    if a < b then b else a
  }

  /** `AGGREGATION_TABLE`, entry by entry. Its result is one of its two
      arguments, the higher one in the order NONE < SOME < ALL. */
  function Combine(a: Outcome, b: Outcome): (r: Outcome)
    ensures Rank(r) == Max(Rank(a), Rank(b))
    ensures r == a || r == b
  {
    match (a, b)
    case (ALL, ALL) => ALL
    case (ALL, SOME) => ALL
    case (ALL, NONE) => ALL
    case (SOME, ALL) => ALL
    case (SOME, SOME) => SOME
    case (SOME, NONE) => SOME
    case (NONE, ALL) => ALL
    case (NONE, SOME) => SOME
    case (NONE, NONE) => NONE
  }

  /** The table is commutative, idempotent and associative; ALL absorbs and
      NONE is neutral. */
  lemma CombineLaws(a: Outcome, b: Outcome, c: Outcome)
    ensures Combine(a, b) == Combine(b, a)
    ensures Combine(a, a) == a
    ensures Combine(Combine(a, b), c) == Combine(a, Combine(b, c))
    ensures Combine(ALL, a) == ALL && Combine(NONE, a) == a
  {
  }

  // ---------------------------------------------------------------------------
  // aggregate_outcomes
  // ---------------------------------------------------------------------------

  type Pair = (Outcome, Outcome)

  function CombinePairs(acc: Pair, p: Pair): Pair {
    (Combine(acc.0, p.0), Combine(acc.1, p.1))
  }

  /** The `for` loop over `outcomes[1:]`, from the accumulated pair. */
  function FoldFrom(acc: Pair, rest: seq<Pair>): Pair
    decreases |rest|
  {
    if |rest| == 0 then acc else FoldFrom(CombinePairs(acc, rest[0]), rest[1..])
  }

  /** `aggregate_outcomes`: start from the first pair and combine the others
      in; the empty list fails at `outcomes[0]`. */
  function AggregateOutcomes(os: seq<Pair>): (r: Result<Pair>)
    ensures r.Err? <==> |os| == 0
    ensures r.Err? ==> r.error == IndexError
    ensures |os| == 1 ==> r == Ok(os[0])
  {
    if |os| == 0 then Err(IndexError) else Ok(FoldFrom(os[0], os[1..]))
  }

  /** The highest-ranked first component among `os`, and likewise second. */
  ghost predicate IsMaxPair(r: Pair, os: seq<Pair>) {
    && (exists i :: 0 <= i < |os| && os[i].0 == r.0)
    && (exists i :: 0 <= i < |os| && os[i].1 == r.1)
    && (forall i :: 0 <= i < |os| ==> Rank(os[i].0) <= Rank(r.0) && Rank(os[i].1) <= Rank(r.1))
  }

  lemma {:induction false} FoldFromIsMax(acc: Pair, rest: seq<Pair>)
    ensures IsMaxPair(FoldFrom(acc, rest), [acc] + rest)
    decreases |rest|
  {
    if |rest| > 0 {
      var acc' := CombinePairs(acc, rest[0]);
      FoldFromIsMax(acc', rest[1..]);
      var r := FoldFrom(acc, rest);
      var whole := [acc] + rest;
      var sub := [acc'] + rest[1..];
      assert forall i :: 1 <= i < |sub| ==> sub[i] == whole[i + 1];
      var i :| 0 <= i < |sub| && sub[i].0 == r.0;
      if i == 0 {
        if r.0 == acc.0 {
          assert whole[0].0 == r.0;
        } else {
          assert whole[1].0 == r.0;
        }
      } else {
        assert whole[i + 1].0 == r.0;
      }
      var j :| 0 <= j < |sub| && sub[j].1 == r.1;
      if j == 0 {
        if r.1 == acc.1 {
          assert whole[0].1 == r.1;
        } else {
          assert whole[1].1 == r.1;
        }
      } else {
        assert whole[j + 1].1 == r.1;
      }
      forall k | 0 <= k < |whole| ensures Rank(whole[k].0) <= Rank(r.0) && Rank(whole[k].1) <= Rank(r.1) {
        if k >= 2 {
          assert whole[k] == sub[k - 1];
        } else {
          assert Rank(sub[0].0) <= Rank(r.0) && Rank(sub[0].1) <= Rank(r.1);
        }
      }
    } else {
      assert ([acc] + rest)[0] == acc;
    }
  }

  /** The aggregate is the component-wise maximum in the order
      NONE < SOME < ALL. */
  lemma AggregateIsMax(os: seq<Pair>)
    requires |os| > 0
    ensures IsMaxPair(AggregateOutcomes(os).value, os)
  {
    FoldFromIsMax(os[0], os[1..]);
    assert [os[0]] + os[1..] == os;
  }

  /** So one dataset reporting ALL makes the aggregate ALL, and NONE comes
      out only when every dataset reports NONE. */
  lemma AggregateAllDominates(os: seq<Pair>)
    requires |os| > 0
    ensures AggregateOutcomes(os).value.0 == ALL <==> exists i :: 0 <= i < |os| && os[i].0 == ALL
    ensures AggregateOutcomes(os).value.0 == NONE <==> forall i :: 0 <= i < |os| ==> os[i].0 == NONE
  {
    AggregateIsMax(os);
  }

  /** The order of the datasets does not matter: lists with the same
      outcomes aggregate alike. */
  lemma AggregateOrderFree(os: seq<Pair>, os': seq<Pair>)
    requires |os| > 0
    requires forall p :: p in os <==> p in os'
    ensures AggregateOutcomes(os) == AggregateOutcomes(os')
  {
    assert os[0] in os';
    AggregateIsMax(os);
    AggregateIsMax(os');
    var r, r' := AggregateOutcomes(os).value, AggregateOutcomes(os').value;
    var i :| 0 <= i < |os| && os[i].0 == r.0;
    assert os[i] in os';
    var i' :| 0 <= i' < |os'| && os'[i'].0 == r'.0;
    assert os'[i'] in os;
    var j :| 0 <= j < |os| && os[j].1 == r.1;
    assert os[j] in os';
    var j' :| 0 <= j' < |os'| && os'[j'].1 == r'.1;
    assert os'[j'] in os;
    RankInjective(r.0, r'.0);
    RankInjective(r.1, r'.1);
  }

  lemma RankInjective(a: Outcome, b: Outcome)
    ensures Rank(a) == Rank(b) ==> a == b
  {
  }

  // ---------------------------------------------------------------------------
  // One round
  // ---------------------------------------------------------------------------

  /** `max_iterations` of the script. */
  const MaxIterations: nat := 10

  /** One dataset's solver-independent components. */
  datatype Site = Site(
    settings: Settings,
    tester: TesterOracle,
    constrainer: Constrainer,
    bindings: Clause -> seq<Assignment>)

  /** What the solvers return in one round: one model per dataset for the
      first proposal, and one for the improved proposal; `None` where a
      solver found no model. */
  datatype RoundModels = RoundModels(initial: seq<Option<seq<Atom>>>, improved: seq<Option<seq<Atom>>>)

  datatype RoundResult = RoundResult(
    programs: seq<GenOutput>,
    outcome: Pair,
    constraints: seq<set<Clause>>,
    grounded: seq<set<GroundClause>>,
    improved: seq<Program>,
    converged: bool)

  /** `Literal(lit.predicate, lit.arguments)`: the constructor's defaults
      for everything else. */
  function Plain(l: Literal): (r: Literal)
    ensures Key(r) == Key(l) && r.directions == [] && r.positive && !r.meta
  {
    PlainLiteral(l.pred, l.arguments)
  }

  function PlainAll(body: seq<Literal>): (r: seq<Literal>)
    ensures |r| == |body|
    ensures forall i :: 0 <= i < |body| ==> r[i] == Plain(body[i])
  {
    if |body| == 0 then [] else [Plain(body[0])] + PlainAll(body[1..])
  }

  /** The "convert constraints to proper format" loop: head and body
      literals rebuilt from predicate and arguments only, the body made a
      frozenset. */
  function Reconstruct(c: Clause): (r: Clause)
    ensures r.head.Some? <==> c.head.Some?
    ensures forall l :: l in r.body ==> l.directions == [] && l.positive && !l.meta
    ensures Distinct(r.body)
  {
    Clause(
      match c.head case None => None case Some(h) => Some(Plain(h)),
      Dedup(PlainAll(c.body)))
  }

  lemma {:induction false} PlainAllKeys(body: seq<Literal>)
    ensures KeySet(PlainAll(body)) == KeySet(body)
    decreases |body|
  {
    if |body| > 0 {
      PlainAllKeys(body[1..]);
      assert PlainAll(body) == [Plain(body[0])] + PlainAll(body[1..]);
      assert body == [body[0]] + body[1..];
      KeySetAppend([Plain(body[0])], PlainAll(body[1..]));
      KeySetAppend([body[0]], body[1..]);
    }
  }

  lemma KeySetAppend(a: seq<Literal>, b: seq<Literal>)
    ensures KeySet(a + b) == KeySet(a) + KeySet(b)
  {
    assert forall l :: l in a + b <==> l in a || l in b;
  }

  /** The rebuilt constraint is equal to the original (literal equality
      ignores what was dropped). */
  lemma ReconstructKeepsKey(c: Clause)
    ensures ClauseHash(Reconstruct(c)) == ClauseHash(c)
  {
    PlainAllKeys(c.body);
    assert ClauseHash(Reconstruct(c)).body == KeySet(Reconstruct(c).body);
    assert ClauseHash(c).body == KeySet(c.body);
  }

  /** Generate one program per model, stopping at the first raise. */
  function GenerateAll(models: seq<Option<seq<Atom>>>): (r: Result<seq<GenOutput>>)
    ensures r.Ok? ==> |r.value| == |models|
    ensures (exists i :: 0 <= i < |models| && models[i].None?) ==> r.Err?
  {
    if |models| == 0 then Ok([])
    else
      var first :- GenerateFrom(models[0]);
      var rest :- GenerateAll(models[1..]);
      Ok([first] + rest)
  }

  /** Each program comes from its own model, and a raise comes from some
      model. */
  lemma {:induction false} GenerateAllSound(models: seq<Option<seq<Atom>>>)
    ensures GenerateAll(models).Ok? ==>
              forall i :: 0 <= i < |models| ==> GenerateFrom(models[i]) == Ok(GenerateAll(models).value[i])
    ensures GenerateAll(models).Err? ==> exists i :: 0 <= i < |models| && GenerateFrom(models[i]).Err?
    decreases |models|
  {
    if |models| > 0 {
      GenerateAllSound(models[1..]);
      assert forall i :: 1 <= i < |models| ==> models[i] == models[1..][i - 1];
      if GenerateFrom(models[0]).Ok? && GenerateAll(models[1..]).Err? {
        var i :| 0 <= i < |models[1..]| && GenerateFrom(models[1..][i]).Err?;
        assert GenerateFrom(models[i + 1]).Err?;
      }
    }
  }

  /** Test each dataset's program with that dataset's tester and classify. */
  function TestAll(sites: seq<Site>, programs: seq<Program>): (r: Result<seq<Pair>>)
    requires |programs| == |sites|
    ensures r.Ok? ==> |r.value| == |sites|
  {
    if |sites| == 0 then Ok([])
    else
      var m :- sites[0].tester.test(programs[0]);
      var rest :- TestAll(sites[1..], programs[1..]);
      Ok([DecideOutcome(m)] + rest)
  }

  /** Each dataset's outcome classifies its own tester's matrix for its own
      program. */
  lemma {:induction false} TestAllSound(sites: seq<Site>, programs: seq<Program>)
    requires |programs| == |sites| && TestAll(sites, programs).Ok?
    ensures forall i :: 0 <= i < |sites| ==>
              sites[i].tester.test(programs[i]).Ok? &&
              TestAll(sites, programs).value[i] == DecideOutcome(sites[i].tester.test(programs[i]).value)
    decreases |sites|
  {
    if |sites| > 0 {
      TestAllSound(sites[1..], programs[1..]);
      assert forall i :: 1 <= i < |sites| ==> sites[i] == sites[1..][i - 1] && programs[i] == programs[1..][i - 1];
    }
  }

  /** `build_rules` for each dataset, every one with the same aggregated
      outcome. */
  function ConstrainAll(sites: seq<Site>, programs: seq<GenOutput>, outcome: Pair): (r: Result<seq<set<Clause>>>)
    requires |programs| == |sites|
    ensures r.Ok? ==> |r.value| == |sites|
  {
    if |sites| == 0 then Ok([])
    else
      var s := sites[0];
      var cs :- BuildRules(s.settings, s.constrainer, s.tester, programs[0].clauses,
                           programs[0].before, programs[0].minClause, outcome);
      var rest :- ConstrainAll(sites[1..], programs[1..], outcome);
      Ok([cs] + rest)
  }

  /** Every dataset's constraints are `build_rules` of its own program under
      the one shared outcome. */
  lemma {:induction false} ConstrainAllSound(sites: seq<Site>, programs: seq<GenOutput>, outcome: Pair)
    requires |programs| == |sites| && ConstrainAll(sites, programs, outcome).Ok?
    ensures forall i :: 0 <= i < |sites| ==>
              BuildRules(sites[i].settings, sites[i].constrainer, sites[i].tester, programs[i].clauses,
                         programs[i].before, programs[i].minClause, outcome) == Ok(ConstrainAll(sites, programs, outcome).value[i])
    decreases |sites|
  {
    if |sites| > 0 {
      ConstrainAllSound(sites[1..], programs[1..], outcome);
      assert forall i :: 1 <= i < |sites| ==> sites[i] == sites[1..][i - 1] && programs[i] == programs[1..][i - 1];
    }
  }

  /** Reconstruct and ground each dataset's constraints with its grounder. */
  function GroundAll(sites: seq<Site>, constraints: seq<set<Clause>>): (r: seq<set<GroundClause>>)
    requires |constraints| == |sites|
    ensures |r| == |sites|
    ensures forall i :: 0 <= i < |sites| ==>
              r[i] == GroundedBy(sites[i].bindings, set c | c in constraints[i] :: Reconstruct(c))
  {
    if |sites| == 0 then []
    else
      [GroundedBy(sites[0].bindings, set c | c in constraints[0] :: Reconstruct(c))]
      + GroundAll(sites[1..], constraints[1..])
  }

  /** Python's `==` on two programs: clause by clause, heads and body sets
      compared by literal equality. */
  predicate SameProgram(p: Program, q: Program) {
    |p| == |q| && forall i :: 0 <= i < |p| ==> ClauseHash(p[i]) == ClauseHash(q[i])
  }

  function Clauses(gs: seq<GenOutput>): (r: seq<Program>)
    ensures |r| == |gs| && forall i :: 0 <= i < |gs| ==> r[i] == gs[i].clauses
  {
    if |gs| == 0 then [] else [gs[0].clauses] + Clauses(gs[1..])
  }

  /** The convergence test: every dataset's improved program equals the
      program it started the round with. */
  predicate AllConverged(start: seq<Program>, after: seq<Program>)
    requires |start| == |after|
  {
    forall i :: 0 <= i < |start| ==> SameProgram(after[i], start[i])
  }

  /** The outcome of dataset `i` in a round whose programs all tested. */
  function SiteOutcome(s: Site, g: GenOutput): Option<Pair> {
    match s.tester.test(g.clauses)
    case Ok(m) => Some(DecideOutcome(m))
    case Err(_) => None
  }

  /** The datasets' outcomes in a round; only read when every program
      tested, so a failed test's entry is an arbitrary pair. */
  function SiteOutcomes(sites: seq<Site>, programs: seq<GenOutput>): (os: seq<Pair>)
    requires |programs| == |sites|
    ensures |os| == |sites|
    ensures forall i :: 0 <= i < |sites| && SiteOutcome(sites[i], programs[i]).Some? ==>
              SiteOutcome(sites[i], programs[i]) == Some(os[i])
  {
    seq(|sites|, i requires 0 <= i < |sites| =>
      match SiteOutcome(sites[i], programs[i])
      case Some(o) => o
      case None => (NONE, NONE))
  }

  /** What a completed round promises (see `Round`). */
  ghost predicate RoundFacts(sites: seq<Site>, m: RoundModels, r: RoundResult)
    requires |m.initial| == |sites|
  {
    && |r.programs| == |sites| == |r.constraints| == |r.grounded| == |r.improved|
    && (forall i :: 0 <= i < |sites| ==> GenerateFrom(m.initial[i]) == Ok(r.programs[i]))
    && (forall i :: 0 <= i < |sites| ==> SiteOutcome(sites[i], r.programs[i]).Some?)
    && IsMaxPair(r.outcome, SiteOutcomes(sites, r.programs))
    && (forall i :: 0 <= i < |sites| ==>
          BuildRules(sites[i].settings, sites[i].constrainer, sites[i].tester, r.programs[i].clauses,
                     r.programs[i].before, r.programs[i].minClause, r.outcome)
          == Ok(r.constraints[i]))
    && (r.converged <==> AllConverged(Clauses(r.programs), r.improved))
  }

  /** One round of the `while` loop: generate, test, aggregate, constrain
      every dataset with the one aggregated outcome, ground, generate again,
      compare. */
  function Round(sites: seq<Site>, m: RoundModels): (r: Result<RoundResult>)
    requires |m.initial| == |sites| && |m.improved| == |sites|
    ensures |sites| == 0 ==> r == Err(IndexError)
    ensures r.Ok? ==> |r.value.programs| == |sites|
  {
    var programs :- GenerateAll(m.initial);
    var outcomes :- TestAll(sites, Clauses(programs));
    var outcome :- AggregateOutcomes(outcomes);
    var constraints :- ConstrainAll(sites, programs, outcome);
    var improved :- GenerateAll(m.improved);
    var after := Clauses(improved);
    Ok(RoundResult(programs, outcome, constraints, GroundAll(sites, constraints), after,
                   AllConverged(Clauses(programs), after)))
  }

  /** A completed round has generated each dataset's program from its model
      and scored it with that dataset's own tester; the shared outcome is the
      component-wise maximum of the datasets' outcomes; every dataset's
      constraints are `build_rules` of its own program under that one shared
      outcome; and the round converged exactly when no program changed. */
  lemma RoundSound(sites: seq<Site>, m: RoundModels)
    requires |m.initial| == |sites| && |m.improved| == |sites|
    requires Round(sites, m).Ok?
    ensures RoundFacts(sites, m, Round(sites, m).value)
  {
    RoundSteps(sites, m);
    var r := Round(sites, m).value;
    TestedOutcomes(sites, r.programs);
    FactsOf(sites, m.initial, r.programs, TestAll(sites, Clauses(r.programs)).value, r.outcome, r.constraints);
  }

  /** What the testing step gave, dataset by dataset. */
  lemma TestedOutcomes(sites: seq<Site>, programs: seq<GenOutput>)
    requires |programs| == |sites| && TestAll(sites, Clauses(programs)).Ok?
    ensures forall i :: 0 <= i < |sites| ==> SiteOutcome(sites[i], programs[i]).Some?
    ensures TestAll(sites, Clauses(programs)).value == SiteOutcomes(sites, programs)
  {
    TestAllSound(sites, Clauses(programs));
  }

  /** The facts of `RoundFacts`, from what each step of the round gave. */
  lemma FactsOf(sites: seq<Site>, models: seq<Option<seq<Atom>>>, programs: seq<GenOutput>,
                outcomes: seq<Pair>, outcome: Pair, constraints: seq<set<Clause>>)
    requires |models| == |sites| == |programs| == |outcomes| > 0
    requires GenerateAll(models) == Ok(programs)
    requires outcomes == SiteOutcomes(sites, programs)
    requires AggregateOutcomes(outcomes) == Ok(outcome)
    requires ConstrainAll(sites, programs, outcome) == Ok(constraints)
    ensures |constraints| == |sites|
    ensures forall i :: 0 <= i < |sites| ==> GenerateFrom(models[i]) == Ok(programs[i])
    ensures IsMaxPair(outcome, SiteOutcomes(sites, programs))
    ensures forall i :: 0 <= i < |sites| ==>
              BuildRules(sites[i].settings, sites[i].constrainer, sites[i].tester, programs[i].clauses,
                         programs[i].before, programs[i].minClause, outcome)
              == Ok(constraints[i])
  {
    GenerateAllSound(models);
    AggregateIsMax(outcomes);
    ConstrainAllSound(sites, programs, outcome);
  }

  /** The steps of a completed round, each of which succeeded. */
  lemma RoundSteps(sites: seq<Site>, m: RoundModels)
    requires |m.initial| == |sites| && |m.improved| == |sites|
    requires Round(sites, m).Ok?
    ensures |sites| > 0 && GenerateAll(m.initial).Ok?
    ensures |GenerateAll(m.initial).value| == |sites|
    ensures TestAll(sites, Clauses(GenerateAll(m.initial).value)).Ok?
    ensures AggregateOutcomes(TestAll(sites, Clauses(GenerateAll(m.initial).value)).value).Ok?
    ensures
      var programs := GenerateAll(m.initial).value;
      var outcome := AggregateOutcomes(TestAll(sites, Clauses(programs)).value).value;
      && ConstrainAll(sites, programs, outcome).Ok?
      && GenerateAll(m.improved).Ok?
      && Round(sites, m).value.programs == programs
      && Round(sites, m).value.outcome == outcome
      && Round(sites, m).value.constraints == ConstrainAll(sites, programs, outcome).value
      && |Round(sites, m).value.grounded| == |sites|
      && |Round(sites, m).value.improved| == |sites|
      && Round(sites, m).value.improved == Clauses(GenerateAll(m.improved).value)
      && Round(sites, m).value.converged == AllConverged(Clauses(programs), Clauses(GenerateAll(m.improved).value))
  {
  }

  /** Round `i` of the script, for solvers whose models cover every
      dataset. */
  function RoundOf(sites: seq<Site>, solver: nat -> RoundModels, i: nat): (r: Result<RoundResult>)
    ensures |solver(i).initial| == |sites| && |solver(i).improved| == |sites| ==> r == Round(sites, solver(i))
  {
    if |solver(i).initial| == |sites| && |solver(i).improved| == |sites| then Round(sites, solver(i)) else Err(IndexError)
  }

  /** The script's `while not converged and iteration < max_iterations`
      loop from iteration `k` on, round `i` computing `round(i)`: stop after
      a round that converges, after the tenth round, or at the first
      raise. */
  function Iterate(round: nat -> Result<RoundResult>, k: nat): Result<seq<RoundResult>>
    decreases MaxIterations - k
  {
    if k >= MaxIterations then Ok([])
    else
      var rr :- round(k);
      if rr.converged then Ok([rr])
      else
        var rest :- Iterate(round, k + 1);
        Ok([rr] + rest)
  }

  /** A run from iteration `k` has at most `10 - k` rounds, and at least
      one when `k < 10`; every round but the last failed to converge; and a
      run that stops before the tenth round ended on a round that
      converged. */
  lemma {:induction false} IterateShape(round: nat -> Result<RoundResult>, k: nat)
    requires k <= MaxIterations && Iterate(round, k).Ok?
    ensures var rs := Iterate(round, k).value;
            && |rs| <= MaxIterations - k
            && (k < MaxIterations ==> |rs| >= 1)
            && (forall i :: 0 <= i < |rs| - 1 ==> !rs[i].converged)
            && (0 < |rs| < MaxIterations - k ==> rs[|rs| - 1].converged)
    decreases MaxIterations - k
  {
    if k < MaxIterations {
      var rr := round(k).value;
      if !rr.converged {
        IterateShape(round, k + 1);
        var rest := Iterate(round, k + 1).value;
        var all := [rr] + rest;
        assert Iterate(round, k).value == all;
        assert forall i :: 1 <= i < |all| ==> all[i] == rest[i - 1];
      }
    }
  }

  /** Round `i` of a run from iteration `k` is `round(k + i)`. */
  lemma {:induction false} IterateAt(round: nat -> Result<RoundResult>, k: nat, i: nat)
    requires Iterate(round, k).Ok? && i < |Iterate(round, k).value|
    ensures round(k + i) == Ok(Iterate(round, k).value[i])
    decreases MaxIterations - k
  {
    if i > 0 {
      var rr := round(k).value;
      var rest := Iterate(round, k + 1).value;
      assert Iterate(round, k).value == [rr] + rest;
      IterateAt(round, k + 1, i - 1);
    }
  }

  /** A raise comes from one of the rounds. */
  lemma {:induction false} IterateErr(round: nat -> Result<RoundResult>, k: nat)
    requires Iterate(round, k).Err?
    ensures exists i :: k <= i < MaxIterations && round(i) == Err(Iterate(round, k).error)
    decreases MaxIterations - k
  {
    if round(k).Ok? {
      IterateErr(round, k + 1);
    }
  }

  /** The whole script, with the solvers' models for round `i` given by
      `solver(i)`. */
  function Learn(sites: seq<Site>, solver: nat -> RoundModels): Result<seq<RoundResult>> {
    Iterate(Rounds(sites, solver), 0)
  }

  /** Round `i` of the script as a function of `i`. */
  function Rounds(sites: seq<Site>, solver: nat -> RoundModels): nat -> Result<RoundResult> {
    (i: nat) => RoundOf(sites, solver, i)
  }

  /** The script runs at least one round and at most ten. */
  lemma LearnRounds(sites: seq<Site>, solver: nat -> RoundModels)
    requires Learn(sites, solver).Ok?
    ensures 1 <= |Learn(sites, solver).value| <= MaxIterations
  {
    RunShape(Rounds(sites, solver));
  }

  /** Every round but the last failed to converge. */
  lemma LearnContinuesUnconverged(sites: seq<Site>, solver: nat -> RoundModels)
    requires Learn(sites, solver).Ok?
    ensures forall i :: 0 <= i < |Learn(sites, solver).value| - 1 ==> !Learn(sites, solver).value[i].converged
  {
    RunShape(Rounds(sites, solver));
  }

  /** A run shorter than ten rounds ended on a round that converged. */
  lemma LearnStopsConverged(sites: seq<Site>, solver: nat -> RoundModels)
    requires Learn(sites, solver).Ok?
    ensures EndsConverged(Learn(sites, solver).value)
  {
    RunShape(Rounds(sites, solver));
  }

  /** A run cut short of `MaxIterations` rounds has a last round, and it
      converged. */
  predicate EndsConverged(rs: seq<RoundResult>) {
    |rs| < MaxIterations ==> |rs| > 0 && rs[|rs| - 1].converged
  }

  /** `IterateShape` for a whole run. */
  lemma RunShape(round: nat -> Result<RoundResult>)
    requires Iterate(round, 0).Ok?
    ensures var rs := Iterate(round, 0).value;
            && 1 <= |rs| <= MaxIterations
            && (forall i :: 0 <= i < |rs| - 1 ==> !rs[i].converged)
            && EndsConverged(rs)
  {
    IterateShape(round, 0);
  }

  /** Round `i` of the run is `Round` of round `i`'s models. */
  lemma LearnAt(sites: seq<Site>, solver: nat -> RoundModels, i: nat)
    requires Learn(sites, solver).Ok? && i < |Learn(sites, solver).value|
    ensures RoundOf(sites, solver, i) == Ok(Learn(sites, solver).value[i])
  {
    IterateAt(Rounds(sites, solver), 0, i);
  }

  /** A raise comes from one of the ten rounds. */
  lemma LearnErr(sites: seq<Site>, solver: nat -> RoundModels)
    requires Learn(sites, solver).Err?
    ensures exists i :: 0 <= i < MaxIterations && RoundOf(sites, solver, i) == Err(Learn(sites, solver).error)
  {
    var round := Rounds(sites, solver);
    IterateErr(round, 0);
    var i :| 0 <= i < MaxIterations && round(i) == Err(Iterate(round, 0).error);
    assert RoundOf(sites, solver, i) == Err(Learn(sites, solver).error);
  }
}
