/** Outcomes as text: the lower-case values of `Outcome` in popper/loop.py,
    the upper-case names the centralised scripts use, and Python's ordering
    of strings, which one of those scripts aggregates by. */
module OutcomeLabels {
  import opened Wrappers
  import opened Strings
  import opened Outcomes

  /** `Outcome.ALL`, `Outcome.SOME`, `Outcome.NONE`: 'all', 'some', 'none';
      upper-cased, each gives the outcome's name. */
  function Label(o: Outcome): (r: string)
    ensures Upper(r) == Name(o)
  {
    match o
    case ALL => "all"
    case SOME => "some"
    case NONE => "none"
  }

  /** The upper-case names "ALL", "SOME", "NONE". */
  function Name(o: Outcome): string {
    match o
    case ALL => "ALL"
    case SOME => "SOME"
    case NONE => "NONE"
  }

  /** The outcome a name stands for; any other text stands for none. */
  function ParseName(s: string): (r: Option<Outcome>)
    ensures r.Some? ==> Name(r.value) == s
  {
    if s == "ALL" then Some(ALL)
    else if s == "SOME" then Some(SOME)
    else if s == "NONE" then Some(NONE)
    else None
  }

  lemma ParseNameOfName(o: Outcome)
    ensures ParseName(Name(o)) == Some(o)
  {
  }

  /** `OUTCOME_TO_CONSTRAINTS.get((positive, negative), default)` of the
      centralised scripts: the same six entries as popper/loop.py's table,
      keyed by names; a missing key gives no families. */
  function NamedFamilies(pos: string, neg: string): (r: seq<Con>)
    ensures (ParseName(pos).Some? && ParseName(neg).Some? &&
             OutcomeToConstraints((ParseName(pos).value, ParseName(neg).value)).Some?)
            || r == []
  {
    match (ParseName(pos), ParseName(neg))
    case (Some(a), Some(b)) => OutcomeToConstraints((a, b)).GetOr([])
    case _ => []
  }

  /** Looked up by the names of two outcomes, the named table is popper's
      table. */
  lemma NamedFamiliesOfNames(a: Outcome, b: Outcome)
    ensures NamedFamilies(Name(a), Name(b)) == OutcomeToConstraints((a, b)).GetOr([])
  {
    ParseNameOfName(a);
    ParseNameOfName(b);
  }

  /** Distinct outcomes have distinct labels and distinct names. */
  lemma TextsInjective(a: Outcome, b: Outcome)
    ensures Label(a) == Label(b) ==> a == b
    ensures Name(a) == Name(b) ==> a == b
  {
  }

  /** Python's `a < b` on strings: the first differing character decides,
      and a proper prefix comes first. */
  predicate StrLess(a: string, b: string)
    decreases |a|
  {
    if |a| == 0 then |b| > 0
    else if |b| == 0 then false
    else if a[0] != b[0] then a[0] < b[0]
    else StrLess(a[1..], b[1..])
  }

  /** Python's `max(a, b)` on strings: `b` only when it is greater. */
  function StrMax(a: string, b: string): (r: string)
    ensures r == a || r == b
    ensures !StrLess(r, a) && !StrLess(r, b)
  {
    StrLessTotal(a, b);
    StrLessTotal(b, b);
    if StrLess(a, b) then b else a
  }

  /** `StrLess` is a strict total order on strings. */
  lemma {:induction false} StrLessTotal(a: string, b: string)
    ensures !(StrLess(a, b) && StrLess(b, a))
    ensures a != b ==> StrLess(a, b) || StrLess(b, a)
    ensures !StrLess(a, a)
    decreases |a|
  {
    if |a| > 0 {
      StrLessTotal(a[1..], a[1..]);
    }
    if |a| > 0 && |b| > 0 && a[0] == b[0] {
      StrLessTotal(a[1..], b[1..]);
      assert a == [a[0]] + a[1..] && b == [b[0]] + b[1..];
    }
  }
}
