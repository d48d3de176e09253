/** The outcome classifier of popper/loop.py: a confusion matrix is read as a
    pair (positive outcome, negative outcome), and the pair selects the
    families of constraints to learn from the program. */
module Outcomes {
  import opened Wrappers

  datatype Outcome = ALL | SOME | NONE

  /** `(tp, fn, tn, fp)`. */
  datatype ConfMatrix = ConfMatrix(tp: nat, fn: nat, tn: nat, fp: nat)

  /** `decide_outcome`: ALL when no positive is missed, NONE when none is
      covered, SOME otherwise; NONE when no negative is covered, SOME
      otherwise. The negative side never reports ALL (that branch is
      commented out in the source). */
  function DecideOutcome(m: ConfMatrix): (r: (Outcome, Outcome))
    ensures r.0 == ALL <==> m.fn == 0
    ensures r.0 == NONE <==> m.tp == 0 && m.fn > 0
    ensures r.0 == SOME <==> m.tp > 0 && m.fn > 0
    ensures r.1 == NONE <==> m.fp == 0
    ensures r.1 != ALL
  {
    var positive := if m.fn == 0 then ALL else if m.tp == 0 && m.fn > 0 then NONE else SOME;
    var negative := if m.fp == 0 then NONE else SOME;
    (positive, negative)
  }

  /** `calc_score`: the number of correctly classified examples. */
  function CalcScore(m: ConfMatrix): (s: nat)
    ensures s >= m.tp && s >= m.tn
    ensures s == (m.tp + m.fn + m.tn + m.fp) - (m.fn + m.fp)
  {
    m.tp + m.tn
  }

  /** A program is perfect (complete and consistent) exactly when its outcome
      is (ALL, NONE). */
  predicate Perfect(m: ConfMatrix) {
    m.fn == 0 && m.fp == 0
  }

  lemma PerfectIffAllNone(m: ConfMatrix)
    ensures DecideOutcome(m) == (ALL, NONE) <==> Perfect(m)
  {
  }

  /** Over a fixed set of examples (tp + fn and tn + fp fixed), the score
      is at most the number of examples and reaches it exactly for a perfect
      program. */
  lemma ScoreBound(m: ConfMatrix, numPos: nat, numNeg: nat)
    requires m.tp + m.fn == numPos && m.tn + m.fp == numNeg
    ensures CalcScore(m) <= numPos + numNeg
    ensures CalcScore(m) == numPos + numNeg <==> DecideOutcome(m) == (ALL, NONE)
  {
  }

  // ---------------------------------------------------------------------------
  // Constraint families
  // ---------------------------------------------------------------------------

  datatype Con = GENERALISATION | SPECIALISATION | REDUNDANCY | BANISH

  /** `OUTCOME_TO_CONSTRAINTS`, with a missing key as `None`. */
  function OutcomeToConstraints(o: (Outcome, Outcome)): (r: Option<seq<Con>>)
    ensures r.Some? <==> o.1 != ALL
    ensures r.Some? ==> |r.value| >= 1
    ensures r.Some? ==> (BANISH in r.value <==> o == (ALL, NONE))
    ensures r.Some? ==> (GENERALISATION in r.value <==> o.1 == SOME)
    ensures r.Some? ==> (SPECIALISATION in r.value <==> o.0 != ALL)
    ensures r.Some? ==> (REDUNDANCY in r.value <==> o.0 == NONE)
  {
    match o
    case (ALL, NONE) => Some([BANISH])
    case (ALL, SOME) => Some([GENERALISATION])
    case (SOME, NONE) => Some([SPECIALISATION])
    case (SOME, SOME) => Some([SPECIALISATION, GENERALISATION])
    case (NONE, NONE) => Some([SPECIALISATION, REDUNDANCY])
    case (NONE, SOME) => Some([SPECIALISATION, REDUNDANCY, GENERALISATION])
    case _ => None
  }

  /** `build_rules` reads a negative ALL as SOME before the lookup. */
  function Remap(o: (Outcome, Outcome)): (r: (Outcome, Outcome))
    ensures r.0 == o.0 && r.1 != ALL
    ensures o.1 != ALL ==> r == o
  {
    if o.1 == ALL then (o.0, SOME) else o
  }

  /** The table is defined on every outcome `decide_outcome` produces, and
      after the remapping on every pair at all. */
  lemma TableTotal(m: ConfMatrix, o: (Outcome, Outcome))
    ensures OutcomeToConstraints(DecideOutcome(m)).Some?
    ensures OutcomeToConstraints(Remap(o)).Some?
  {
  }

  /** Each table entry lists a family at most once. */
  lemma TableEntriesDistinct(o: (Outcome, Outcome))
    requires OutcomeToConstraints(o).Some?
    ensures var fs := OutcomeToConstraints(o).value;
            forall i, j :: 0 <= i < j < |fs| ==> fs[i] != fs[j]
  {
  }
}
