/** Centralised learning with integer-coded outcomes
    (centralizedlearning/testing.py): two clients test the same program,
    their outcomes are coded 1 (ALL), 2 (SOME), 3 (NONE) and combined by a
    table, and the combined outcome selects constraint families that are
    built for the empty program.

    The script feeds the constraints to `generate_program` as pairs of a
    literal and a one-literal tuple; a tuple has no `arguments`, so any
    constraint with a body literal makes the call raise, and otherwise the
    empty model yields no rules and the loop stops. Its body therefore runs
    once at most. */
module EncodedAggregation {
  import opened Wrappers
  import opened Strings
  import opened Core
  import opened Outcomes
  import opened Constraints
  import opened Generate
  import opened OutcomeLabels

  // ---------------------------------------------------------------------------
  // OUTCOME_ENCODING and OUTCOME_DECODING
  // ---------------------------------------------------------------------------

  /** `OUTCOME_ENCODING[name]`: a missing name raises `KeyError`. */
  function Encode(name: string): (r: Result<int>)
    ensures r.Ok? <==> ParseName(name).Some?
    ensures r.Err? ==> r.error == KeyError
    ensures r.Ok? ==> 1 <= r.value <= 3
  {
    if name == "ALL" then Ok(1)
    else if name == "SOME" then Ok(2)
    else if name == "NONE" then Ok(3)
    else Err(KeyError)
  }

  /** `OUTCOME_DECODING[code]`, the reversed dictionary. */
  function Decode(code: int): (r: Result<string>)
    ensures r.Ok? <==> 1 <= code <= 3
    ensures r.Err? ==> r.error == KeyError
  {
    if code == 1 then Ok("ALL")
    else if code == 2 then Ok("SOME")
    else if code == 3 then Ok("NONE")
    else Err(KeyError)
  }

  /** The two dictionaries are inverse to each other. */
  lemma DecodeEncode(name: string, code: int)
    ensures Encode(name).Ok? ==> Decode(Encode(name).value) == Ok(name)
    ensures Decode(code).Ok? ==> Encode(Decode(code).value) == Ok(code)
  {
  }

  /** The code of an outcome. */
  function CodeOf(o: Outcome): (c: int)
    ensures Encode(Name(o)) == Ok(c)
    ensures Decode(c) == Ok(Name(o))
  {
    match o
    case ALL => 1
    case SOME => 2
    case NONE => 3
  }

  /** The outcome of a code in 1..3. */
  function OutcomeOfCode(c: int): (o: Outcome)
    requires 1 <= c <= 3
    ensures CodeOf(o) == c
  {
    if c == 1 then ALL else if c == 2 then SOME else NONE
  }

  // ---------------------------------------------------------------------------
  // AGGREGATION_TABLE and aggregate_outcomes
  // ---------------------------------------------------------------------------

  const Table: map<(int, int), int> := map[
    (1, 1) := 1, (1, 2) := 2, (1, 3) := 3,
    (2, 1) := 2, (2, 2) := 2, (2, 3) := 3,
    (3, 1) := 3, (3, 2) := 3, (3, 3) := 3]

  predicate IsCode(c: int) {
    1 <= c <= 3
  }

  /** `AGGREGATION_TABLE[(a, b)]`: defined on codes, where it is the larger
      code, so NONE (3) wins over SOME (2), which wins over ALL (1). */
  function AggTable(a: int, b: int): (r: Result<int>)
    ensures r.Ok? <==> IsCode(a) && IsCode(b)
    ensures r.Err? ==> r.error == KeyError
    ensures r.Ok? ==> (r.value == a || r.value == b) && a <= r.value && b <= r.value
  {
    if (a, b) in Table then Ok(Table[(a, b)]) else Err(KeyError)
  }

  type Codes = (int, int)

  predicate CodesOk(p: Codes) {
    IsCode(p.0) && IsCode(p.1)
  }

  /** The `for` loop over `outcomes[1:]` from the accumulated pair. */
  function FoldCodes(acc: Codes, rest: seq<Codes>): Result<Codes>
    decreases |rest|
  {
    if |rest| == 0 then Ok(acc)
    else
      var p :- AggTable(acc.0, rest[0].0);
      var n :- AggTable(acc.1, rest[0].1);
      FoldCodes((p, n), rest[1..])
  }

  /** `aggregate_outcomes`: the empty list fails at `outcomes[0]`. */
  function AggregateCodes(os: seq<Codes>): (r: Result<Codes>)
    ensures |os| == 0 ==> r == Err(IndexError)
    ensures |os| == 1 ==> r == Ok(os[0])
  {
    if |os| == 0 then Err(IndexError) else FoldCodes(os[0], os[1..])
  }

  /** `r` holds the largest first code and the largest second code of `os`. */
  ghost predicate IsMaxCodes(r: Codes, os: seq<Codes>) {
    && (exists i :: 0 <= i < |os| && os[i].0 == r.0)
    && (exists i :: 0 <= i < |os| && os[i].1 == r.1)
    && (forall i :: 0 <= i < |os| ==> os[i].0 <= r.0 && os[i].1 <= r.1)
  }

  lemma {:induction false} FoldCodesMeaning(acc: Codes, rest: seq<Codes>)
    requires |rest| > 0
    ensures FoldCodes(acc, rest).Ok? <==> CodesOk(acc) && forall i :: 0 <= i < |rest| ==> CodesOk(rest[i])
    ensures FoldCodes(acc, rest).Ok? ==> IsMaxCodes(FoldCodes(acc, rest).value, [acc] + rest)
    ensures FoldCodes(acc, rest).Err? ==> FoldCodes(acc, rest).error == KeyError
    decreases |rest|
  {
    var whole := [acc] + rest;
    var step := AggTable(acc.0, rest[0].0);
    var step' := AggTable(acc.1, rest[0].1);
    if step.Ok? && step'.Ok? {
      var acc' := (step.value, step'.value);
      assert FoldCodes(acc, rest) == FoldCodes(acc', rest[1..]);
      if |rest| == 1 {
        assert whole[0] == acc && whole[1] == rest[0];
        var r := acc';
        if r.0 == acc.0 { assert whole[0].0 == r.0; } else { assert whole[1].0 == r.0; }
        if r.1 == acc.1 { assert whole[0].1 == r.1; } else { assert whole[1].1 == r.1; }
      } else {
        FoldCodesMeaning(acc', rest[1..]);
        assert forall i :: 1 <= i < |rest| ==> rest[i] == rest[1..][i - 1];
        if FoldCodes(acc, rest).Ok? {
          var r := FoldCodes(acc, rest).value;
          var sub := [acc'] + rest[1..];
          assert forall i :: 1 <= i < |sub| ==> sub[i] == whole[i + 1];
          var i :| 0 <= i < |sub| && sub[i].0 == r.0;
          if i == 0 {
            if r.0 == acc.0 { assert whole[0].0 == r.0; } else { assert whole[1].0 == r.0; }
          } else {
            assert whole[i + 1].0 == r.0;
          }
          var j :| 0 <= j < |sub| && sub[j].1 == r.1;
          if j == 0 {
            if r.1 == acc.1 { assert whole[0].1 == r.1; } else { assert whole[1].1 == r.1; }
          } else {
            assert whole[j + 1].1 == r.1;
          }
          forall k | 0 <= k < |whole| ensures whole[k].0 <= r.0 && whole[k].1 <= r.1 {
            if k >= 2 {
              assert whole[k] == sub[k - 1];
            } else {
              assert sub[0].0 <= r.0 && sub[0].1 <= r.1;
            }
          }
        }
      }
    } else {
      assert !CodesOk(acc) || !CodesOk(rest[0]);
    }
  }

  /** On codes, the aggregate is the component-wise largest code; any value
      that is not a code raises `KeyError` once there is something to
      combine it with. */
  lemma AggregateCodesMeaning(os: seq<Codes>)
    requires |os| >= 2
    ensures AggregateCodes(os).Ok? <==> forall i :: 0 <= i < |os| ==> CodesOk(os[i])
    ensures AggregateCodes(os).Ok? ==> IsMaxCodes(AggregateCodes(os).value, os)
    ensures AggregateCodes(os).Err? ==> AggregateCodes(os).error == KeyError
  {
    FoldCodesMeaning(os[0], os[1..]);
    assert [os[0]] + os[1..] == os;
  }

  // ---------------------------------------------------------------------------
  // test_rules and apply_constraints
  // ---------------------------------------------------------------------------

  /** `test_rules`: test, classify, upper-case the labels and encode them. */
  function TestRules(rules: Program, test: Program -> Result<ConfMatrix>): (r: Result<Codes>)
    ensures r.Ok? <==> test(rules).Ok?
    ensures r.Err? ==> r.error == test(rules).error
    ensures r.Ok? ==> var o := DecideOutcome(test(rules).value);
                      r.value == (CodeOf(o.0), CodeOf(o.1))
  {
    var m :- test(rules);
    var o := DecideOutcome(m);
    var p := Encode(Upper(Label(o.0)));
    var n := Encode(Upper(Label(o.1)));
    if p.Err? || n.Err? then Err(KeyError)
    else Ok((p.value, n.value))
  }

  /** The negative side of a tested outcome is never ALL, and this survives
      the aggregation: the table's `.get` default is never reached. */
  lemma NegativeNeverAll(os: seq<Codes>)
    requires |os| >= 1
    requires forall i :: 0 <= i < |os| ==> CodesOk(os[i]) && os[i].1 != 1
    ensures AggregateCodes(os).Ok? && AggregateCodes(os).value.1 != 1
  {
    if |os| >= 2 {
      AggregateCodesMeaning(os);
      var r := AggregateCodes(os).value;
      var j :| 0 <= j < |os| && os[j].1 == r.1;
    }
  }

  /** A family built for the empty program, as `apply_constraints` calls
      each constructor with `([], {}, {})`. */
  function OnEmpty(f: Con, c: Constrainer): set<Clause> {
    match f
    case GENERALISATION => c.generalisation([], map[], map[])
    case SPECIALISATION => c.specialisation([], map[], map[])
    case REDUNDANCY => c.redundancy([], map[], map[])
    case BANISH => c.banish([], map[], map[])
  }

  /** The `for constraint_type in constraints_to_apply` loop. */
  function FamiliesOnEmpty(fs: seq<Con>, c: Constrainer): (r: set<Clause>)
    ensures forall k :: k in r <==> exists i :: 0 <= i < |fs| && k in OnEmpty(fs[i], c)
    decreases |fs|
  {
    if |fs| == 0 then {}
    else
      var rest := FamiliesOnEmpty(fs[1..], c);
      assert forall i :: 1 <= i < |fs| ==> fs[i] == fs[1..][i - 1];
      OnEmpty(fs[0], c) + rest
  }

  /** `apply_constraints`: decode the aggregated codes and build the selected
      families for the empty program. */
  function ApplyConstraints(agg: Codes, c: Constrainer): (r: Result<set<Clause>>)
    ensures r.Ok? <==> CodesOk(agg)
    ensures r.Err? ==> r.error == KeyError
    ensures r.Ok? && agg.1 == 1 ==> r.value == {}
    ensures r.Ok? && agg.1 != 1 ==>
              var fs := OutcomeToConstraints((OutcomeOfCode(agg.0), OutcomeOfCode(agg.1))).value;
              forall k :: k in r.value <==> exists i :: 0 <= i < |fs| && k in OnEmpty(fs[i], c)
  {
    var pos :- Decode(agg.0);
    var neg :- Decode(agg.1);
    ParseNameOfName(OutcomeOfCode(agg.0));
    ParseNameOfName(OutcomeOfCode(agg.1));
    Ok(FamiliesOnEmpty(NamedFamilies(pos, neg), c))
  }

  // ---------------------------------------------------------------------------
  // generate_rules and main
  // ---------------------------------------------------------------------------

  /** `generate_rules`: the body literals of all constraints, wrapped as
      tuples and passed to `generate_program`, which raises on the first
      (a tuple has no `arguments`); with none it decodes the empty model. */
  function GenerateRules(constraints: set<Clause>): (r: Result<Program>)
    ensures r.Err? <==> exists k :: k in constraints && |k.body| > 0
    ensures r.Err? ==> r.error == AttributeError
    ensures r.Ok? ==> r.value == []
  {
    var flattened := Flatten(constraints);
    FlattenEmpty(constraints);
    if |flattened| > 0 then Err(AttributeError)
    else
      EmptyModel();
      Ok(GenerateProgram([]).value.clauses)
  }

  /** `{literal for body in bodies for literal in body}`. */
  function Flatten(constraints: set<Clause>): (r: set<Literal>)
    ensures forall l :: l in r <==> exists k :: k in constraints && l in k.body
  {
    set k, l | k in constraints && l in k.body :: l
  }

  lemma FlattenEmpty(constraints: set<Clause>)
    ensures |Flatten(constraints)| > 0 <==> exists k :: k in constraints && |k.body| > 0
  {
    if k :| k in constraints && |k.body| > 0 {
      assert k.body[0] in Flatten(constraints);
    }
    if |Flatten(constraints)| > 0 {
      var l :| l in Flatten(constraints);
    }
  }

  /** One pass of the loop body up to the constraints: test on both
      clients, aggregate, select and build. */
  function PassConstraints(rules: Program, test1: Program -> Result<ConfMatrix>,
                           test2: Program -> Result<ConfMatrix>, c: Constrainer): Result<set<Clause>>
  {
    var o1 :- TestRules(rules, test1);
    var o2 :- TestRules(rules, test2);
    var agg :- AggregateCodes([o1, o2]);
    ApplyConstraints(agg, c)
  }

  /** With both clients' tests succeeding, the pass always reaches the
      constraints. */
  lemma PassConstraintsOk(rules: Program, test1: Program -> Result<ConfMatrix>,
                          test2: Program -> Result<ConfMatrix>, c: Constrainer)
    requires test1(rules).Ok? && test2(rules).Ok?
    ensures PassConstraints(rules, test1, test2, c).Ok?
  {
    var o1 := TestRules(rules, test1).value;
    var o2 := TestRules(rules, test2).value;
    AggregateCodesMeaning([o1, o2]);
  }

  /** `main`: start from the rules of the empty model and loop while
      `iteration < 5`, stopping when no new rules come out. The loop body
      runs exactly once: it raises, or it stops with no rules learned. */
  method Pipeline(test1: Program -> Result<ConfMatrix>, test2: Program -> Result<ConfMatrix>, c: Constrainer)
    returns (r: Result<Program>, passes: nat)
    ensures passes == 1
    ensures r.Ok? <==> PassConstraints([], test1, test2, c).Ok? &&
                       forall k :: k in PassConstraints([], test1, test2, c).value ==> |k.body| == 0
    ensures r.Ok? ==> r.value == []
  {
    EmptyModel();
    var rules := GenerateProgram([]).value.clauses;
    var iteration := 0;
    var stop := false;
    passes := 0;
    while iteration < 5 && !stop
      invariant rules == []
      invariant iteration == 0 && passes == (if stop then 1 else 0)
      invariant stop ==> PassConstraints([], test1, test2, c).Ok? &&
                         forall k :: k in PassConstraints([], test1, test2, c).value ==> |k.body| == 0
      decreases if stop then 0 else 1
    {
      passes := passes + 1;
      var constraints := PassConstraints(rules, test1, test2, c);
      if constraints.Err? {
        return Err(constraints.error), passes;
      }
      var newRules := GenerateRules(constraints.value);
      if newRules.Err? {
        return Err(newRules.error), passes;
      }
      var next := newRules.value;
      stop := |next| == 0;
      if !stop {
        rules := next;
        iteration := iteration + 1;
      }
    }
    return Ok(rules), passes;
  }
}
