/** One round of centralised learning over several datasets, aggregating
    by Python's `max` on the outcome labels
    (centralizedlearning/aggtest.py).

    The labels are the strings 'all', 'some', 'none', so `max` follows
    their alphabetical order: 'some' wins over 'none', which wins over
    'all'. Every dataset's constraints are built with the `before` and
    `min_clause` of the last dataset's generation; since those are always
    empty, that is harmless. */
module LabelAggregation {
  import opened Wrappers
  import opened Core
  import opened Outcomes
  import opened Constraints
  import opened Generate
  import opened OutcomeLabels
  import opened TableAggregation

  // ---------------------------------------------------------------------------
  // max on labels
  // ---------------------------------------------------------------------------

  /** The position of an outcome's label in alphabetical order. */
  function LabelRank(o: Outcome): nat {
    match o
    case ALL => 0
    case NONE => 1
    case SOME => 2
  }

  /** Comparing labels as strings is comparing their ranks. */
  lemma LabelOrder(a: Outcome, b: Outcome)
    ensures StrLess(Label(a), Label(b)) <==> LabelRank(a) < LabelRank(b)
  {
    assert Label(ALL)[0] == 'a' && Label(NONE)[0] == 'n' && Label(SOME)[0] == 's';
  }

  /** `max(a, b)` on the labels of two outcomes: `b` when its label is
      greater, otherwise `a`. */
  function LabelMax(a: Outcome, b: Outcome): (r: Outcome)
    ensures r == a || r == b
    ensures LabelRank(r) == Max(LabelRank(a), LabelRank(b))
  {
    if LabelRank(a) < LabelRank(b) then b else a
  }

  /** It is Python's `max` on the label strings. */
  lemma LabelMaxIsStrMax(a: Outcome, b: Outcome)
    ensures Label(LabelMax(a, b)) == StrMax(Label(a), Label(b))
  {
    LabelOrder(a, b);
  }

  function LabelPairs(acc: Pair, p: Pair): Pair {
    (LabelMax(acc.0, p.0), LabelMax(acc.1, p.1))
  }

  /** The `for outcome in outcome_list[1:]` loop. */
  function FoldLabels(acc: Pair, rest: seq<Pair>): Pair
    decreases |rest|
  {
    if |rest| == 0 then acc else FoldLabels(LabelPairs(acc, rest[0]), rest[1..])
  }

  /** The aggregation: the empty list fails at `outcome_list[0]`. */
  function AggregateLabels(os: seq<Pair>): (r: Result<Pair>)
    ensures r.Err? <==> |os| == 0
    ensures r.Err? ==> r.error == IndexError
    ensures |os| == 1 ==> r == Ok(os[0])
  {
    if |os| == 0 then Err(IndexError) else Ok(FoldLabels(os[0], os[1..]))
  }

  /** The highest-ranked first and second components among `os`, ranked by
      label. */
  ghost predicate IsLabelMax(r: Pair, os: seq<Pair>) {
    && (exists i :: 0 <= i < |os| && os[i].0 == r.0)
    && (exists i :: 0 <= i < |os| && os[i].1 == r.1)
    && (forall i :: 0 <= i < |os| ==> LabelRank(os[i].0) <= LabelRank(r.0) && LabelRank(os[i].1) <= LabelRank(r.1))
  }

  lemma {:induction false} FoldLabelsIsMax(acc: Pair, rest: seq<Pair>)
    ensures IsLabelMax(FoldLabels(acc, rest), [acc] + rest)
    decreases |rest|
  {
    var whole := [acc] + rest;
    if |rest| > 0 {
      var acc' := LabelPairs(acc, rest[0]);
      FoldLabelsIsMax(acc', rest[1..]);
      var r := FoldLabels(acc, rest);
      var sub := [acc'] + rest[1..];
      assert forall i :: 1 <= i < |sub| ==> sub[i] == whole[i + 1];
      var i :| 0 <= i < |sub| && sub[i].0 == r.0;
      if i == 0 {
        if r.0 == acc.0 { assert whole[0].0 == r.0; } else { assert whole[1].0 == r.0; }
      } else {
        assert whole[i + 1].0 == r.0;
      }
      var j :| 0 <= j < |sub| && sub[j].1 == r.1;
      if j == 0 {
        if r.1 == acc.1 { assert whole[0].1 == r.1; } else { assert whole[1].1 == r.1; }
      } else {
        assert whole[j + 1].1 == r.1;
      }
      forall k | 0 <= k < |whole|
        ensures LabelRank(whole[k].0) <= LabelRank(r.0) && LabelRank(whole[k].1) <= LabelRank(r.1)
      {
        if k >= 2 {
          assert whole[k] == sub[k - 1];
        } else {
          assert LabelRank(sub[0].0) <= LabelRank(r.0) && LabelRank(sub[0].1) <= LabelRank(r.1);
        }
      }
    } else {
      assert whole[0] == acc;
    }
  }

  /** The aggregate is the component-wise maximum in the order
      ALL < NONE < SOME. */
  lemma AggregateLabelsIsMax(os: seq<Pair>)
    requires |os| > 0
    ensures IsLabelMax(AggregateLabels(os).value, os)
  {
    FoldLabelsIsMax(os[0], os[1..]);
    assert [os[0]] + os[1..] == os;
  }

  /** So one dataset reporting SOME makes the aggregate SOME, and ALL comes
      out only when every dataset reports ALL. */
  lemma SomeAbsorbs(os: seq<Pair>)
    requires |os| > 0
    ensures AggregateLabels(os).value.0 == SOME <==> exists i :: 0 <= i < |os| && os[i].0 == SOME
    ensures AggregateLabels(os).value.0 == ALL <==> forall i :: 0 <= i < |os| ==> os[i].0 == ALL
    ensures AggregateLabels(os).value.1 == SOME <==> exists i :: 0 <= i < |os| && os[i].1 == SOME
  {
    AggregateLabelsIsMax(os);
  }

  // ---------------------------------------------------------------------------
  // The script
  // ---------------------------------------------------------------------------

  /** `build_rules` for each dataset with the one aggregated outcome and the
      `before`, `min_clause` given. */
  function ConstrainShared(sites: seq<Site>, programs: seq<GenOutput>, b: Before, m: MinClause,
                           outcome: Pair): (r: Result<seq<set<Clause>>>)
    requires |programs| == |sites|
    ensures r.Ok? ==> |r.value| == |sites|
  {
    if |sites| == 0 then Ok([])
    else
      var s := sites[0];
      var cs :- BuildRules(s.settings, s.constrainer, s.tester, programs[0].clauses, b, m, outcome);
      var rest :- ConstrainShared(sites[1..], programs[1..], b, m, outcome);
      Ok([cs] + rest)
  }

  /** Building every dataset's constraints with the empty `before` and
      `min_clause` is building each with its own, when every program was
      generated (and so has empty ones). */
  lemma {:induction false} SharedIsOwn(sites: seq<Site>, programs: seq<GenOutput>, outcome: Pair)
    requires |programs| == |sites|
    requires forall i :: 0 <= i < |programs| ==> programs[i].before == map[] && programs[i].minClause == map[]
    ensures ConstrainShared(sites, programs, map[], map[], outcome) == ConstrainAll(sites, programs, outcome)
    decreases |sites|
  {
    if |sites| > 0 {
      assert forall i :: 1 <= i < |programs| ==> programs[i] == programs[1..][i - 1];
      SharedIsOwn(sites[1..], programs[1..], outcome);
    }
  }

  datatype ScriptRun = ScriptRun(
    programs: seq<GenOutput>,
    outcome: Pair,
    constraints: seq<set<Clause>>,
    grounded: seq<set<GroundClause>>,
    improved: seq<Program>,
    printed: Program)

  /** The `before` and `min_clause` the generation loop leaves behind: the
      last dataset's. */
  function Leftover(programs: seq<GenOutput>): (Before, MinClause)
    requires |programs| > 0
  {
    (programs[|programs| - 1].before, programs[|programs| - 1].minClause)
  }

  datatype Learnt = Learnt(programs: seq<GenOutput>, outcome: Pair, constraints: seq<set<Clause>>)

  /** Steps 1 to 4 of the script: generate and test on each dataset,
      aggregate the outcomes by label, and build each dataset's constraints
      with the aggregate and the last generation's `before` and
      `min_clause`. */
  function Learned(sites: seq<Site>, initial: seq<Option<seq<Atom>>>): (r: Result<Learnt>)
    requires |initial| == |sites|
    ensures |sites| == 0 ==> r == Err(IndexError)
    ensures r.Ok? ==> |r.value.programs| == |sites| == |r.value.constraints|
  {
    var programs :- GenerateAll(initial);
    var outcomes :- TestAll(sites, Clauses(programs));
    var outcome :- AggregateLabels(outcomes);
    var (b, m) := Leftover(programs);
    var constraints :- ConstrainShared(sites, programs, b, m, outcome);
    Ok(Learnt(programs, outcome, constraints))
  }

  /** When steps 1 to 4 complete, each dataset's program was generated from
      its model and scored by its own tester; the outcome is the label-wise
      maximum of theirs; and each dataset's constraints are `build_rules` of
      its own program under that outcome with its own (empty) `before` and
      `min_clause`, although the script passes the last dataset's. */
  lemma LearnedSound(sites: seq<Site>, initial: seq<Option<seq<Atom>>>)
    requires |initial| == |sites| && Learned(sites, initial).Ok?
    ensures var l := Learned(sites, initial).value;
            && (forall i :: 0 <= i < |sites| ==> GenerateFrom(initial[i]) == Ok(l.programs[i]))
            && (forall i :: 0 <= i < |sites| ==> SiteOutcome(sites[i], l.programs[i]).Some?)
            && IsLabelMax(l.outcome, SiteOutcomes(sites, l.programs))
            && (forall i :: 0 <= i < |sites| ==>
                  BuildRules(sites[i].settings, sites[i].constrainer, sites[i].tester, l.programs[i].clauses,
                             l.programs[i].before, l.programs[i].minClause, l.outcome)
                  == Ok(l.constraints[i]))
  {
    LearnedTested(sites, initial);
    LearnedConstraints(sites, initial);
  }

  /** The programs and the aggregated outcome of steps 1 to 3. */
  lemma LearnedTested(sites: seq<Site>, initial: seq<Option<seq<Atom>>>)
    requires |initial| == |sites| && Learned(sites, initial).Ok?
    ensures var l := Learned(sites, initial).value;
            && (forall i :: 0 <= i < |sites| ==> GenerateFrom(initial[i]) == Ok(l.programs[i]))
            && (forall i :: 0 <= i < |sites| ==> SiteOutcome(sites[i], l.programs[i]).Some?)
            && IsLabelMax(l.outcome, SiteOutcomes(sites, l.programs))
  {
    var programs := GenerateAll(initial).value;
    GenerateAllSound(initial);
    TestedOutcomes(sites, programs);
    AggregateLabelsIsMax(TestAll(sites, Clauses(programs)).value);
  }

  /** The constraints of step 4, each dataset's built from its own program. */
  lemma LearnedConstraints(sites: seq<Site>, initial: seq<Option<seq<Atom>>>)
    requires |initial| == |sites| && Learned(sites, initial).Ok?
    ensures var l := Learned(sites, initial).value;
            forall i :: 0 <= i < |sites| ==>
              BuildRules(sites[i].settings, sites[i].constrainer, sites[i].tester, l.programs[i].clauses,
                         l.programs[i].before, l.programs[i].minClause, l.outcome)
              == Ok(l.constraints[i])
  {
    var programs := GenerateAll(initial).value;
    GenerateAllSound(initial);
    var outcome := Learned(sites, initial).value.outcome;
    forall i | 0 <= i < |programs|
      ensures programs[i].before == map[] && programs[i].minClause == map[]
    {
      assert GenerateFrom(initial[i]) == Ok(programs[i]);
    }
    assert Leftover(programs) == (map[], map[]);
    SharedIsOwn(sites, programs, outcome);
    ConstrainAllSound(sites, programs, outcome);
  }

  /** The whole script: the learned constraints, rebuilt and grounded per
      dataset, and the programs decoded from the second models; the rules
      printed are the last dataset's. */
  function Script(sites: seq<Site>, initial: seq<Option<seq<Atom>>>, improved: seq<Option<seq<Atom>>>): (r: Result<ScriptRun>)
    requires |initial| == |sites| && |improved| == |sites|
    ensures |sites| == 0 ==> r == Err(IndexError)
    ensures r.Ok? ==> Learned(sites, initial) == Ok(Learnt(r.value.programs, r.value.outcome, r.value.constraints))
    ensures r.Ok? ==> |r.value.grounded| == |sites| == |r.value.improved|
    ensures r.Ok? ==> r.value.printed == r.value.improved[|sites| - 1]
  {
    var learnt :- Learned(sites, initial);
    var (programs, outcome, constraints) := (learnt.programs, learnt.outcome, learnt.constraints);
    var after :- GenerateAll(improved);
    var rules := Clauses(after);
    Ok(ScriptRun(programs, outcome, constraints, GroundAll(sites, constraints), rules, rules[|sites| - 1]))
  }

  /** Each dataset's ground rules are its own learned constraints rebuilt
      and grounded by its own grounder, and each improved program was
      decoded from its own second model. */
  lemma ScriptSound(sites: seq<Site>, initial: seq<Option<seq<Atom>>>, improved: seq<Option<seq<Atom>>>)
    requires |initial| == |sites| && |improved| == |sites| && Script(sites, initial, improved).Ok?
    ensures var r := Script(sites, initial, improved).value;
            && (forall i :: 0 <= i < |sites| ==>
                  r.grounded[i] == GroundedBy(sites[i].bindings, set c | c in r.constraints[i] :: Reconstruct(c)))
            && (forall i :: 0 <= i < |sites| ==>
                  GenerateFrom(improved[i]).Ok? && r.improved[i] == GenerateFrom(improved[i]).value.clauses)
  {
    GenerateAllSound(improved);
  }
}
