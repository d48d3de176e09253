/** The three centralised scripts combine the same two outcomes by three
    different rules: centralizedlearning/aggregate.py lets ALL win,
    centralizedlearning/testing.py lets NONE win (its codes put NONE
    highest) and centralizedlearning/aggtest.py lets SOME win (its labels
    sort 'some' last). */
module AggregationRules {
  import opened Wrappers
  import opened Outcomes
  import opened TableAggregation
  import opened EncodedAggregation
  import opened LabelAggregation

  /** The coded table picks the outcome that `AGGREGATION_TABLE` of
      aggregate.py ranks lower, so the two disagree on every pair of
      different outcomes. */
  lemma CodesReverseTable(a: Outcome, b: Outcome)
    ensures AggTable(CodeOf(a), CodeOf(b)) == Ok(CodeOf(if Rank(a) <= Rank(b) then a else b))
    ensures a != b ==> AggTable(CodeOf(a), CodeOf(b)) != Ok(CodeOf(Combine(a, b)))
  {
  }

  /** Label order and the table agree exactly on equal outcomes and on the
      pair SOME, NONE. */
  lemma LabelsVersusTable(a: Outcome, b: Outcome)
    ensures LabelMax(a, b) == Combine(a, b) <==> a == b || (a != ALL && b != ALL)
  {
  }

  /** Label order and the coded table agree exactly on equal outcomes and
      on pairs with ALL. */
  lemma LabelsVersusCodes(a: Outcome, b: Outcome)
    ensures AggTable(CodeOf(a), CodeOf(b)) == Ok(CodeOf(LabelMax(a, b))) <==> a == b || a == ALL || b == ALL
  {
  }
}
