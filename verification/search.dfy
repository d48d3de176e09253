/** The generate–test–constrain loop (popper/loop.py: `popper`,
    `learn_solution`).

    The answer-set solver is replaced by the models it would return: for each
    program size, the list of models in the order `get_model` yields them.
    An empty model, or the end of the list, means the solver is exhausted at
    that size. The ground constraints handed back to the solver are returned
    in order, so what the loop would tell the solver is part of the result;
    how the solver reacts to them is what the list of models stands for. */
module Search {
  import opened Wrappers
  import opened Core
  import opened Outcomes
  import opened Constraints
  import opened Generate

  /** A program the loop tested, with the size it was generated at and its
      confusion matrix. */
  datatype Tested = Tested(size: nat, program: Program, matrix: ConfMatrix)

  /** The parts of `Stats` the loop writes: the solution, if any, and the
      best programs in the order they were registered. */
  datatype Stats = Stats(solution: Option<Tested>, bestPrograms: seq<Tested>)

  /** The models the solver returns at `size`. */
  function ModelsAt<A>(trace: seq<seq<seq<A>>>, size: nat): seq<seq<A>> {
    if 1 <= size <= |trace| then trace[size - 1] else []
  }

  /** The number of models the loop reads from `models`: it stops at the
      first empty one (`if not model: break`) or at the end of the list. */
  function FirstEmpty<A>(models: seq<seq<A>>): (n: nat)
    ensures n <= |models|
    ensures forall j :: 0 <= j < n ==> models[j] != []
    ensures n < |models| ==> models[n] == []
  {
    if |models| == 0 || models[0] == [] then 0 else 1 + FirstEmpty(models[1..])
  }

  /** The models read at `size`, each paired with the size. */
  function SizeSchedule<A>(trace: seq<seq<seq<A>>>, size: nat): (sch: seq<(nat, seq<A>)>)
    ensures |sch| == FirstEmpty(ModelsAt(trace, size))
    ensures forall j :: 0 <= j < |sch| ==> sch[j] == (size, ModelsAt(trace, size)[j])
  {
    ReadUntilEmpty(size, ModelsAt(trace, size))
  }

  /** `models` up to the first empty one, each paired with `size`. */
  function ReadUntilEmpty<A>(size: nat, models: seq<seq<A>>): (sch: seq<(nat, seq<A>)>)
    ensures |sch| == FirstEmpty(models)
    ensures forall j :: 0 <= j < |sch| ==> sch[j] == (size, models[j])
  {
    if |models| == 0 || models[0] == [] then [] else [(size, models[0])] + ReadUntilEmpty(size, models[1..])
  }

  /** Every model the loop reads, size by size from 1 to `maxSize`, each
      paired with the size it was read at. */
  function Schedule<A>(trace: seq<seq<seq<A>>>, maxSize: nat): (sch: seq<(nat, seq<A>)>)
    ensures forall i :: 0 <= i < |sch| ==> 1 <= sch[i].0 <= maxSize && sch[i].1 != []
  {
    if maxSize == 0 then [] else Schedule(trace, maxSize - 1) + SizeSchedule(trace, maxSize)
  }

  /** The schedule lists the sizes in increasing order. */
  lemma {:induction false} ScheduleSorted<A>(trace: seq<seq<seq<A>>>, maxSize: nat)
    ensures forall i, j :: 0 <= i < j < |Schedule(trace, maxSize)| ==>
              Schedule(trace, maxSize)[i].0 <= Schedule(trace, maxSize)[j].0
  {
    if maxSize > 0 {
      ScheduleSorted(trace, maxSize - 1);
      var a, b := Schedule(trace, maxSize - 1), SizeSchedule(trace, maxSize);
      var sch := Schedule(trace, maxSize);
      assert sch == a + b;
      forall i, j | 0 <= i < j < |sch| ensures sch[i].0 <= sch[j].0 {
        if j < |a| {
          assert sch[i] == a[i] && sch[j] == a[j];
        } else {
          assert sch[j] == b[j - |a|];
          assert sch[j].0 == maxSize;
          if i < |a| {
            assert sch[i] == a[i];
            assert a[i].0 <= maxSize - 1;
          } else {
            assert sch[i] == b[i - |a|];
            assert sch[i].0 == maxSize;
          }
        }
      }
    }
  }

  /** A size-`n` model is read exactly when it comes before the first empty
      model at its size, and `n` is one of the sizes searched. */
  lemma ScheduleMembers<A>(trace: seq<seq<seq<A>>>, maxSize: nat, p: (nat, seq<A>))
    ensures p in Schedule(trace, maxSize) <==>
              1 <= p.0 <= maxSize &&
              exists j :: 0 <= j < FirstEmpty(ModelsAt(trace, p.0)) && ModelsAt(trace, p.0)[j] == p.1
  {
    if p in Schedule(trace, maxSize) {
      ScheduleOnlyRead(trace, maxSize, p);
    }
    if 1 <= p.0 <= maxSize {
      forall j | 0 <= j < FirstEmpty(ModelsAt(trace, p.0)) && ModelsAt(trace, p.0)[j] == p.1
        ensures p in Schedule(trace, maxSize)
      {
        ScheduleReadsAll(trace, maxSize, p.0, j);
      }
    }
  }

  /** Everything scheduled is a model read at a searched size. */
  lemma {:induction false} ScheduleOnlyRead<A>(trace: seq<seq<seq<A>>>, maxSize: nat, p: (nat, seq<A>))
    requires p in Schedule(trace, maxSize)
    ensures 1 <= p.0 <= maxSize
    ensures exists j :: 0 <= j < FirstEmpty(ModelsAt(trace, p.0)) && ModelsAt(trace, p.0)[j] == p.1
  {
    var prefix, last := Schedule(trace, maxSize - 1), SizeSchedule(trace, maxSize);
    InAppend(prefix, last, p);
    if p in last {
      var j :| 0 <= j < |last| && last[j] == p;
      assert ModelsAt(trace, maxSize)[j] == p.1;
    } else {
      ScheduleOnlyRead(trace, maxSize - 1, p);
    }
  }

  /** Every model read at a searched size is scheduled. */
  lemma ScheduleReadsAll<A>(trace: seq<seq<seq<A>>>, maxSize: nat, n: nat, j: nat)
    requires 1 <= n <= maxSize && j < FirstEmpty(ModelsAt(trace, n))
    ensures (n, ModelsAt(trace, n)[j]) in Schedule(trace, maxSize)
  {
    var p := (n, ModelsAt(trace, n)[j]);
    assert SizeSchedule(trace, n)[j] == p;
    InAppend(Schedule(trace, n - 1), SizeSchedule(trace, n), p);
    SchedulePrefix(trace, n, maxSize);
    InPrefix(Schedule(trace, n), Schedule(trace, maxSize), p);
  }

  /** A prefix stays a prefix when the whole is extended. */
  lemma PrefixExtend<T>(a: seq<T>, b: seq<T>, c: seq<T>)
    requires a <= b
    ensures a <= b + c
  {
    assert forall k :: 0 <= k < |a| ==> (b + c)[k] == b[k];
  }

  lemma PrefixSelf<T>(a: seq<T>) ensures a <= a {}

  /** What a prefix holds, the whole holds. */
  lemma InPrefix<T>(a: seq<T>, b: seq<T>, x: T)
    requires a <= b && x in a
    ensures x in b
  {
    var k :| 0 <= k < |a| && a[k] == x;
    assert b[k] == x;
  }

  /** Membership in a concatenation. */
  lemma InAppend<T>(a: seq<T>, b: seq<T>, x: T)
    ensures x in a + b <==> x in a || x in b
  {
    if x in a + b {
      var k :| 0 <= k < |a + b| && (a + b)[k] == x;
      if k >= |a| {
        assert b[k - |a|] == x;
      }
    }
    if x in b {
      var k :| 0 <= k < |b| && b[k] == x;
      assert (a + b)[|a| + k] == x;
    }
  }

  /** A search up to a smaller size reads a prefix of what a larger one
      reads. */
  lemma {:induction false} SchedulePrefix<A>(trace: seq<seq<seq<A>>>, a: nat, b: nat)
    requires a <= b
    ensures Schedule(trace, a) <= Schedule(trace, b)
    decreases b
  {
    if a == b {
      PrefixSelf(Schedule(trace, a));
    } else {
      var before := Schedule(trace, b - 1);
      SchedulePrefix(trace, a, b - 1);
      assert Schedule(trace, b) == before + SizeSchedule(trace, b);
      PrefixExtend(Schedule(trace, a), before, SizeSchedule(trace, b));
    }
  }

  /** What the loop does with one model, apart from keeping the best score:
      the program `generate_program` decodes, the matrix `tester.test` gives
      it, and the ground constraints `build_rules` then `ground_rules` learn
      from it. `Err` is a raise while generating or testing; a raise while
      building the rules is in `ground`. */
  datatype ModelRun = ModelRun(program: Program, matrix: ConfMatrix, ground: Result<set<GroundClause>>)

  function RunModel(s: Settings, t: TesterOracle, c: Constrainer, bindings: Clause -> seq<Assignment>,
                    model: seq<Atom>): (r: Result<ModelRun>)
    ensures r.Ok? <==> GenerateProgram(model).Ok? && t.test(GenerateProgram(model).value.clauses).Ok?
    ensures GenerateProgram(model).Err? ==> r == Err(GenerateProgram(model).error)
    ensures r.Ok? ==> r.value.program == GenerateProgram(model).value.clauses
                      && t.test(r.value.program) == Ok(r.value.matrix)
  {
    var gen :- GenerateProgram(model);
    var m :- t.test(gen.clauses);
    Ok(ModelRun(gen.clauses, m, LearnedGround(s, t, c, bindings, gen, DecideOutcome(m))))
  }

  /** `build_rules` on a generated program, then `ground_rules`. */
  function LearnedGround(s: Settings, t: TesterOracle, c: Constrainer, bindings: Clause -> seq<Assignment>,
                         gen: GenOutput, outcome: (Outcome, Outcome)): Result<set<GroundClause>>
  {
    var rules :- BuildRules(s, c, t, gen.clauses, gen.before, gen.minClause, outcome);
    Ok(GroundedBy(bindings, rules))
  }

  /** `entry` is the program generated from the scheduled model, at its
      size, with the tester's matrix. */
  predicate TestedFrom(s: Settings, t: TesterOracle, c: Constrainer, bindings: Clause -> seq<Assignment>,
                       p: (nat, seq<Atom>), entry: Tested)
  {
    && RunModel(s, t, c, bindings, p.1).Ok?
    && entry == Tested(p.0, RunModel(s, t, c, bindings, p.1).value.program, RunModel(s, t, c, bindings, p.1).value.matrix)
  }

  /** `ground` is what was learned from the scheduled model. */
  predicate LearnedFrom(s: Settings, t: TesterOracle, c: Constrainer, bindings: Clause -> seq<Assignment>,
                        p: (nat, seq<Atom>), ground: Result<set<GroundClause>>)
  {
    RunModel(s, t, c, bindings, p.1).Ok? && RunModel(s, t, c, bindings, p.1).value.ground == ground
  }

  /** The first programs tested are those of the first scheduled models, and
      the constraints added are those learned from the first of them. */
  predicate FollowsSchedule(s: Settings, t: TesterOracle, c: Constrainer, bindings: Clause -> seq<Assignment>,
                            sch: seq<(nat, seq<Atom>)>, tested: seq<Tested>, added: seq<set<GroundClause>>)
  {
    && |added| <= |tested| <= |sch|
    && (forall i {:trigger TestedFrom(s, t, c, bindings, sch[i], tested[i])} ::
          0 <= i < |tested| ==> TestedFrom(s, t, c, bindings, sch[i], tested[i]))
    && (forall i {:trigger LearnedFrom(s, t, c, bindings, sch[i], Ok(added[i]))} ::
          0 <= i < |added| ==> LearnedFrom(s, t, c, bindings, sch[i], Ok(added[i])))
  }

  /** Every confusion matrix the tester returns counts each positive example
      once (tp + fn) and each negative example once (tn + fp). */
  ghost predicate CountsExamples(t: TesterOracle, numPos: nat, numNeg: nat) {
    forall p :: t.test(p).Ok? ==>
      t.test(p).value.tp + t.test(p).value.fn == numPos &&
      t.test(p).value.tn + t.test(p).value.fp == numNeg
  }

  /** Scores of registered best programs strictly increase. */
  predicate StrictlyImproving(best: seq<Tested>) {
    forall i, j :: 0 <= i < j < |best| ==> CalcScore(best[i].matrix) < CalcScore(best[j].matrix)
  }

  /** `learn_solution`'s choice: the solution, else the last best program,
      else nothing. */
  function LearnSolution(stats: Stats): (r: Option<Program>)
    ensures stats.solution.Some? ==> r == Some(stats.solution.value.program)
    ensures stats.solution.None? && |stats.bestPrograms| > 0 ==>
              r == Some(stats.bestPrograms[|stats.bestPrograms| - 1].program)
    ensures r.None? <==> stats.solution.None? && |stats.bestPrograms| == 0
  {
    if stats.solution.Some? then Some(stats.solution.value.program)
    else if |stats.bestPrograms| > 0 then Some(stats.bestPrograms[|stats.bestPrograms| - 1].program)
    else None
  }

  /** What the loop carries from one program to the next. */
  datatype LoopState = LoopState(
    bestScore: Option<nat>,
    best: seq<Tested>,
    tested: seq<Tested>,
    added: seq<set<GroundClause>>)

  /** Every tested program was generated at a size in 1..`maxSize`, the sizes
      never decrease, and its recorded matrix is what the tester says. */
  predicate TestedInOrder(t: TesterOracle, tested: seq<Tested>, maxSize: nat) {
    && (forall i :: 0 <= i < |tested| ==>
          1 <= tested[i].size <= maxSize && t.test(tested[i].program) == Ok(tested[i].matrix))
    && (forall i, j :: 0 <= i < j < |tested| ==> tested[i].size <= tested[j].size)
  }

  /** `best_score` is the score of the last registered best program, the
      best programs improve strictly, none is perfect, and no tested program
      scores higher. */
  predicate BestTracked(st: LoopState) {
    && StrictlyImproving(st.best)
    && (forall b :: b in st.best ==> b in st.tested && DecideOutcome(b.matrix) != (ALL, NONE))
    && (st.bestScore.None? <==> st.best == [])
    && (st.bestScore.Some? ==> st.bestScore.value == CalcScore(st.best[|st.best| - 1].matrix))
    && (|st.tested| > 0 ==> st.bestScore.Some?)
    && (st.bestScore.Some? ==> forall i :: 0 <= i < |st.tested| ==> CalcScore(st.tested[i].matrix) <= st.bestScore.value)
  }

  /** When the tester counts every example, no tested program so far was
      perfect. */
  ghost predicate NothingPerfect(t: TesterOracle, numPos: nat, numNeg: nat, tested: seq<Tested>) {
    CountsExamples(t, numPos, numNeg) ==>
      forall i :: 0 <= i < |tested| ==> DecideOutcome(tested[i].matrix) != (ALL, NONE)
  }

  ghost predicate Inv(t: TesterOracle, numPos: nat, numNeg: nat, st: LoopState, maxSize: nat) {
    TestedInOrder(t, st.tested, maxSize) && BestTracked(st) && NothingPerfect(t, numPos, numNeg, st.tested)
  }

  /** A freshly tested program beats the best so far: there is no best
      score yet, or its score is strictly higher. */
  predicate Beats(st: LoopState, entry: Tested) {
    st.bestScore.None? || CalcScore(entry.matrix) > st.bestScore.value
  }

  /** Registers a freshly tested program that is not the solution: it joins
      `tested` and, when it beats the best so far, also becomes the new best
      score and the newest best program. */
  function Register(st: LoopState, entry: Tested): (r: LoopState)
    ensures r.tested == st.tested + [entry] && r.added == st.added
    ensures Beats(st, entry) ==> r.best == st.best + [entry] && r.bestScore == Some(CalcScore(entry.matrix))
    ensures !Beats(st, entry) ==> r.best == st.best && r.bestScore == st.bestScore
  {
    if Beats(st, entry) then
      LoopState(Some(CalcScore(entry.matrix)), st.best + [entry], st.tested + [entry], st.added)
    else
      LoopState(st.bestScore, st.best, st.tested + [entry], st.added)
  }

  /** Appending a program tested at the current size keeps the tested
      programs in order. */
  lemma {:induction false} TestedAppend(t: TesterOracle, tested: seq<Tested>, entry: Tested, size: nat)
    requires TestedInOrder(t, tested, size)
    requires entry.size == size >= 1 && t.test(entry.program) == Ok(entry.matrix)
    ensures TestedInOrder(t, tested + [entry], size)
  {
    var ts := tested + [entry];
    assert forall i :: 0 <= i < |tested| ==> ts[i] == tested[i];
    assert ts[|tested|] == entry;
  }

  /** With fixed example counts, a perfect program reaches the largest
      possible score and no earlier best program did (none was perfect), so
      a perfect program always beats the best so far. */
  lemma PerfectBeats(t: TesterOracle, numPos: nat, numNeg: nat, st: LoopState, entry: Tested, size: nat)
    requires TestedInOrder(t, st.tested, size) && BestTracked(st)
    requires CountsExamples(t, numPos, numNeg)
    requires t.test(entry.program) == Ok(entry.matrix) && DecideOutcome(entry.matrix) == (ALL, NONE)
    ensures Beats(st, entry)
  {
    if st.bestScore.Some? {
      var last := st.best[|st.best| - 1];
      assert last in st.best;
      assert last in st.tested;
      var i :| 0 <= i < |st.tested| && st.tested[i] == last;
      assert t.test(last.program) == Ok(last.matrix);
      ScoreBound(last.matrix, numPos, numNeg);
      ScoreBound(entry.matrix, numPos, numNeg);
    }
  }

  /** The invariant at one size holds at every larger size. */
  lemma InvWiden(t: TesterOracle, numPos: nat, numNeg: nat, st: LoopState, size: nat, size': nat)
    requires Inv(t, numPos, numNeg, st, size) && size <= size'
    ensures Inv(t, numPos, numNeg, st, size')
  {
  }

  /** Registering a program that is not the returned solution keeps the
      loop invariant. */
  lemma RegisterKeepsInv(t: TesterOracle, numPos: nat, numNeg: nat, st: LoopState, entry: Tested, size: nat)
    requires Inv(t, numPos, numNeg, st, size)
    requires entry.size == size >= 1 && t.test(entry.program) == Ok(entry.matrix)
    requires !(Beats(st, entry) && DecideOutcome(entry.matrix) == (ALL, NONE))
    ensures Inv(t, numPos, numNeg, Register(st, entry), size)
  {
    TestedAppend(t, st.tested, entry, size);
    RegisterKeepsBest(st, entry);
    if CountsExamples(t, numPos, numNeg) && DecideOutcome(entry.matrix) == (ALL, NONE) {
      PerfectBeats(t, numPos, numNeg, st, entry, size);
    }
    RegisterKeepsNothingPerfect(t, numPos, numNeg, st, entry);
  }

  /** Registering a program that is not perfect, or does not beat the best
      so far, keeps the best programs tracked. */
  lemma RegisterKeepsBest(st: LoopState, entry: Tested)
    requires BestTracked(st)
    requires !(Beats(st, entry) && DecideOutcome(entry.matrix) == (ALL, NONE))
    ensures BestTracked(Register(st, entry))
  {
    var r := Register(st, entry);
    assert forall i :: 0 <= i < |st.tested| ==> r.tested[i] == st.tested[i];
    assert r.tested[|st.tested|] == entry;
    assert forall b :: b in st.tested ==> b in r.tested;
    if Beats(st, entry) {
      assert r.best[|r.best| - 1] == entry;
      assert forall i :: 0 <= i < |st.best| ==> r.best[i] == st.best[i];
      if st.best != [] {
        assert st.best[|st.best| - 1] in st.best;
      }
    }
  }

  /** Registering a program that is not perfect keeps every tested program
      imperfect. */
  lemma RegisterKeepsNothingPerfect(t: TesterOracle, numPos: nat, numNeg: nat, st: LoopState, entry: Tested)
    requires NothingPerfect(t, numPos, numNeg, st.tested)
    requires CountsExamples(t, numPos, numNeg) ==> DecideOutcome(entry.matrix) != (ALL, NONE)
    ensures NothingPerfect(t, numPos, numNeg, Register(st, entry).tested)
  {
    var ts := Register(st, entry).tested;
    assert forall i :: 0 <= i < |st.tested| ==> ts[i] == st.tested[i];
    assert ts[|st.tested|] == entry;
  }

  /** The constraint half of an iteration: `build_rules`, then
      `ground_rules`; what reaches the solver is the grounding of exactly the
      rules built. */
  method Learn(s: Settings, c: Constrainer, t: TesterOracle, bindings: Clause -> seq<Assignment>,
               program: Program, b: Before, m: MinClause, outcome: (Outcome, Outcome))
    returns (r: Result<set<GroundClause>>)
    ensures r.Err? <==> BuildRules(s, c, t, program, b, m, outcome).Err?
    ensures r.Err? ==> r.error == BuildRules(s, c, t, program, b, m, outcome).error
    ensures r.Ok? ==> r.value == GroundedBy(bindings, BuildRules(s, c, t, program, b, m, outcome).value)
  {
    var rules := BuildRules(s, c, t, program, b, m, outcome);
    if rules.Err? {
      return Err(rules.error);
    }
    var ground := GroundRules(bindings, rules.value);
    return Ok(ground);
  }

  /** What happened to one model. */
  datatype StepOutcome =
    | Continue(st: LoopState)
    | Solved(solution: Tested)
    | Failed(st: LoopState, error: Error)

  /** What one iteration does with `model`, measured against `RunModel`: a
      raise while generating or testing leaves the state as it was;
      otherwise the program is the solution when it is perfect and beats the
      best score, and else it is registered and its ground constraints are
      added, unless building them raised. */
  predicate StepAgrees(s: Settings, t: TesterOracle, c: Constrainer, bindings: Clause -> seq<Assignment>,
                       model: seq<Atom>, size: nat, st: LoopState, out: StepOutcome)
  {
    match RunModel(s, t, c, bindings, model)
    case Err(e) => out == Failed(st, e)
    case Ok(run) =>
      var entry := Tested(size, run.program, run.matrix);
      if Beats(st, entry) && DecideOutcome(run.matrix) == (ALL, NONE) then out == Solved(entry)
      else if run.ground.Err? then out == Failed(Register(st, entry), run.ground.error)
      else out == Continue(Register(st, entry).(added := st.added + [run.ground.value]))
  }

  /** One iteration of the inner `while True` loop, for a non-empty model:
      generate, test, register, and (unless the program is the solution)
      learn and ground the constraints. */
  method ProcessModel(s: Settings, t: TesterOracle, c: Constrainer, bindings: Clause -> seq<Assignment>,
                      model: seq<Atom>, size: nat, st: LoopState, ghost numPos: nat, ghost numNeg: nat)
    returns (out: StepOutcome)
    requires 1 <= size
    requires Inv(t, numPos, numNeg, st, size)
    ensures !out.Solved? ==> Inv(t, numPos, numNeg, out.st, size)
    ensures StepAgrees(s, t, c, bindings, model, size, st, out)
  {
    var gen := GenerateProgram(model);
    if gen.Err? {
      assert RunModel(s, t, c, bindings, model) == Err(gen.error);
      return Failed(st, gen.error);
    }
    var tr := t.test(gen.value.clauses);
    if tr.Err? {
      assert RunModel(s, t, c, bindings, model) == Err(tr.error);
      return Failed(st, tr.error);
    }
    assert RunModel(s, t, c, bindings, model)
        == Ok(ModelRun(gen.value.clauses, tr.value, LearnedGround(s, t, c, bindings, gen.value, DecideOutcome(tr.value))));
    out := Conclude(s, t, c, bindings, gen.value, tr.value, size, st, numPos, numNeg);
  }

  /** The rest of an iteration once the program is generated and tested:
      return it if it beats the best score and is perfect; otherwise
      register it, then learn and ground its constraints. */
  method Conclude(s: Settings, t: TesterOracle, c: Constrainer, bindings: Clause -> seq<Assignment>,
                  gen: GenOutput, m: ConfMatrix, size: nat, st: LoopState, ghost numPos: nat, ghost numNeg: nat)
    returns (out: StepOutcome)
    requires 1 <= size
    requires Inv(t, numPos, numNeg, st, size)
    requires t.test(gen.clauses) == Ok(m)
    ensures !out.Solved? ==> Inv(t, numPos, numNeg, out.st, size)
    ensures var entry := Tested(size, gen.clauses, m);
            if Beats(st, entry) && DecideOutcome(m) == (ALL, NONE) then out == Solved(entry)
            else match LearnedGround(s, t, c, bindings, gen, DecideOutcome(m))
                 case Err(e) => out == Failed(Register(st, entry), e)
                 case Ok(g) => out == Continue(Register(st, entry).(added := st.added + [g]))
  {
    var entry := Tested(size, gen.clauses, m);
    var outcome := DecideOutcome(m);
    if Beats(st, entry) && outcome == (ALL, NONE) {
      return Solved(entry);
    }
    RegisterKeepsInv(t, numPos, numNeg, st, entry, size);
    var next := Register(st, entry);
    var ground := Learn(s, c, t, bindings, gen.clauses, gen.before, gen.minClause, outcome);
    assert ground == LearnedGround(s, t, c, bindings, gen, outcome);
    if ground.Err? {
      return Failed(next, ground.error);
    }
    return Continue(next.(added := next.added + [ground.value]));
  }

  /** What an iteration's outcome says: a solution is the program tested at
      this size, perfect and beating the best score; an iteration that goes
      on has tested one more program and added one more set of ground
      constraints. */
  lemma StepFacts(s: Settings, t: TesterOracle, c: Constrainer, bindings: Clause -> seq<Assignment>,
                  model: seq<Atom>, size: nat, st: LoopState, out: StepOutcome)
    requires StepAgrees(s, t, c, bindings, model, size, st, out)
    ensures out.Solved? ==>
              out.solution.size == size && t.test(out.solution.program) == Ok(out.solution.matrix)
              && DecideOutcome(out.solution.matrix) == (ALL, NONE) && Beats(st, out.solution)
    ensures out.Continue? ==> |out.st.added| == |st.added| + 1 && |out.st.tested| == |st.tested| + 1
  {
  }

  /** What `popper` promises about a finished search: the tested programs
      are in order and were scored by the tester; the best programs improve
      strictly, are among the tested ones and none is perfect; the last best
      program scores highest among everything tested except a solution; a
      solution is the last program tested, is perfect and beats the last best
      program; the answer is `learn_solution`'s; and, when the tester counts
      every example, only the solution can be perfect. */
  ghost predicate SearchResult(t: TesterOracle, numPos: nat, numNeg: nat, maxLiterals: nat,
                               r: Result<Option<Program>>, stats: Stats, tested: seq<Tested>)
  {
    && TestedInOrder(t, tested, maxLiterals)
    && StrictlyImproving(stats.bestPrograms)
    && (forall b :: b in stats.bestPrograms ==> b in tested && DecideOutcome(b.matrix) != (ALL, NONE))
    && (forall i :: 0 <= i < |tested| && stats.bestPrograms != [] && (stats.solution.None? || i < |tested| - 1) ==>
          CalcScore(tested[i].matrix) <= CalcScore(stats.bestPrograms[|stats.bestPrograms| - 1].matrix))
    && (stats.solution.Some? ==>
          r == Ok(Some(stats.solution.value.program)) && |tested| > 0
          && stats.solution.value == tested[|tested| - 1]
          && DecideOutcome(stats.solution.value.matrix) == (ALL, NONE)
          && (stats.bestPrograms != [] ==>
                CalcScore(stats.bestPrograms[|stats.bestPrograms| - 1].matrix) < CalcScore(stats.solution.value.matrix)))
    && (r.Ok? ==> r.value == LearnSolution(stats))
    && (CountsExamples(t, numPos, numNeg) ==>
          forall i :: 0 <= i < |tested| && (stats.solution.None? || i < |tested| - 1) ==>
            DecideOutcome(tested[i].matrix) != (ALL, NONE))
  }

  /** A search that stops without a solution (exhausted or raised) reports
      the loop state as it stands. */
  lemma StoppedResult(t: TesterOracle, numPos: nat, numNeg: nat, st: LoopState, size: nat, maxLiterals: nat,
                      r: Result<Option<Program>>)
    requires Inv(t, numPos, numNeg, st, size) && size <= maxLiterals
    requires r.Ok? ==> r.value == LearnSolution(Stats(None, st.best))
    ensures SearchResult(t, numPos, numNeg, maxLiterals, r, Stats(None, st.best), st.tested)
  {
    if st.best != [] {
      assert st.best[|st.best| - 1] in st.best;
    }
  }

  /** A search that stops at a solution reports it after everything tested
      before it. */
  lemma {:induction false} SolvedResult(t: TesterOracle, numPos: nat, numNeg: nat, st: LoopState, sol: Tested,
                                        size: nat, maxLiterals: nat)
    requires Inv(t, numPos, numNeg, st, size) && 1 <= size <= maxLiterals
    requires sol.size == size && t.test(sol.program) == Ok(sol.matrix)
    requires DecideOutcome(sol.matrix) == (ALL, NONE) && Beats(st, sol)
    ensures SearchResult(t, numPos, numNeg, maxLiterals, Ok(Some(sol.program)), Stats(Some(sol), st.best), st.tested + [sol])
  {
    var tested := st.tested + [sol];
    TestedAppend(t, st.tested, sol, size);
    assert forall i :: 0 <= i < |st.tested| ==> tested[i] == st.tested[i];
    assert forall b :: b in st.tested ==> b in tested;
    if st.best != [] {
      assert st.best[|st.best| - 1] in st.best;
    }
  }

  /** A raise came from the first model not fully processed: generating or
      testing it (so nothing of it was recorded), or building the rules of
      the last program tested. */
  predicate RaisedAt(s: Settings, t: TesterOracle, c: Constrainer, bindings: Clause -> seq<Assignment>,
                     sch: seq<(nat, seq<Atom>)>, tested: seq<Tested>, added: seq<set<GroundClause>>, e: Error)
  {
    || (|added| == |tested| < |sch| && RunModel(s, t, c, bindings, sch[|tested|].1) == Err(e))
    || (|added| + 1 == |tested| <= |sch| && LearnedFrom(s, t, c, bindings, sch[|added|], Err(e)))
  }

  /** Recording the program of the next scheduled model keeps the record
      in step with the schedule. */
  lemma FollowsTested(s: Settings, t: TesterOracle, c: Constrainer, bindings: Clause -> seq<Assignment>,
                      sch: seq<(nat, seq<Atom>)>, tested: seq<Tested>, added: seq<set<GroundClause>>, entry: Tested)
    requires FollowsSchedule(s, t, c, bindings, sch, tested, added) && |tested| < |sch|
    requires TestedFrom(s, t, c, bindings, sch[|tested|], entry)
    ensures FollowsSchedule(s, t, c, bindings, sch, tested + [entry], added)
  {
    var tested' := tested + [entry];
    forall j | 0 <= j < |tested'| ensures TestedFrom(s, t, c, bindings, sch[j], tested'[j]) {
      if j < |tested| {
        assert tested'[j] == tested[j];
        assert TestedFrom(s, t, c, bindings, sch[j], tested[j]);
      }
    }
  }

  /** Recording what was learned from the next scheduled model keeps the
      record in step with the schedule. */
  lemma FollowsLearned(s: Settings, t: TesterOracle, c: Constrainer, bindings: Clause -> seq<Assignment>,
                       sch: seq<(nat, seq<Atom>)>, tested: seq<Tested>, added: seq<set<GroundClause>>,
                       ground: set<GroundClause>)
    requires FollowsSchedule(s, t, c, bindings, sch, tested, added) && |added| < |tested|
    requires LearnedFrom(s, t, c, bindings, sch[|added|], Ok(ground))
    ensures FollowsSchedule(s, t, c, bindings, sch, tested, added + [ground])
  {
    var added' := added + [ground];
    forall j | 0 <= j < |added'| ensures LearnedFrom(s, t, c, bindings, sch[j], Ok(added'[j])) {
      if j < |added| {
        assert added'[j] == added[j];
        assert LearnedFrom(s, t, c, bindings, sch[j], Ok(added[j]));
      }
    }
  }

  /** An iteration that goes on has recorded the next scheduled model,
      tested and learned from. */
  lemma StepContinues(s: Settings, t: TesterOracle, c: Constrainer, bindings: Clause -> seq<Assignment>,
                      sch: seq<(nat, seq<Atom>)>, i: nat, size: nat, model: seq<Atom>, st: LoopState, out: StepOutcome)
    requires FollowsSchedule(s, t, c, bindings, sch, st.tested, st.added)
    requires |st.tested| == |st.added| == i < |sch| && sch[i] == (size, model)
    requires StepAgrees(s, t, c, bindings, model, size, st, out)
    requires out.Continue?
    ensures FollowsSchedule(s, t, c, bindings, sch, out.st.tested, out.st.added)
    ensures |out.st.tested| == |out.st.added| == |st.tested| + 1
  {
    var run := RunModel(s, t, c, bindings, model).value;
    var entry := Tested(size, run.program, run.matrix);
    assert out.st.tested == st.tested + [entry];
    assert out.st.added == st.added + [run.ground.value];
    FollowsTested(s, t, c, bindings, sch, st.tested, st.added, entry);
    FollowsLearned(s, t, c, bindings, sch, st.tested + [entry], st.added, run.ground.value);
  }

  /** A solution is the program of the next scheduled model. */
  lemma StepSolves(s: Settings, t: TesterOracle, c: Constrainer, bindings: Clause -> seq<Assignment>,
                      sch: seq<(nat, seq<Atom>)>, i: nat, size: nat, model: seq<Atom>, st: LoopState, out: StepOutcome)
    requires FollowsSchedule(s, t, c, bindings, sch, st.tested, st.added)
    requires |st.tested| == |st.added| == i < |sch| && sch[i] == (size, model)
    requires StepAgrees(s, t, c, bindings, model, size, st, out)
    requires out.Solved?
    ensures FollowsSchedule(s, t, c, bindings, sch, st.tested + [out.solution], st.added)
  {
    FollowsTested(s, t, c, bindings, sch, st.tested, st.added, out.solution);
  }

  /** A raise is located at the next scheduled model, and what was recorded
      before it stays in step with the schedule. */
  lemma StepFails(s: Settings, t: TesterOracle, c: Constrainer, bindings: Clause -> seq<Assignment>,
                      sch: seq<(nat, seq<Atom>)>, i: nat, size: nat, model: seq<Atom>, st: LoopState, out: StepOutcome)
    requires FollowsSchedule(s, t, c, bindings, sch, st.tested, st.added)
    requires |st.tested| == |st.added| == i < |sch| && sch[i] == (size, model)
    requires StepAgrees(s, t, c, bindings, model, size, st, out)
    requires out.Failed?
    ensures FollowsSchedule(s, t, c, bindings, sch, out.st.tested, out.st.added)
    ensures RaisedAt(s, t, c, bindings, sch, out.st.tested, out.st.added, out.error)
  {
    var run := RunModel(s, t, c, bindings, model);
    if run.Ok? {
      var entry := Tested(size, run.value.program, run.value.matrix);
      assert out.st.tested == st.tested + [entry] && out.st.added == st.added;
      FollowsTested(s, t, c, bindings, sch, st.tested, st.added, entry);
    }
  }

  /** `ProcessModel` on the `i`th scheduled model, with what it means for
      the record of tested programs and added constraints. */
  method Advance(s: Settings, t: TesterOracle, c: Constrainer, bindings: Clause -> seq<Assignment>,
                 model: seq<Atom>, size: nat, st: LoopState, ghost numPos: nat, ghost numNeg: nat,
                 ghost sch: seq<(nat, seq<Atom>)>, ghost i: nat)
    returns (out: StepOutcome)
    requires 1 <= size
    requires Inv(t, numPos, numNeg, st, size)
    requires FollowsSchedule(s, t, c, bindings, sch, st.tested, st.added)
    requires |st.tested| == |st.added| == i < |sch| && sch[i] == (size, model)
    ensures !out.Solved? ==> Inv(t, numPos, numNeg, out.st, size)
    ensures out.Solved? ==>
              out.solution.size == size && t.test(out.solution.program) == Ok(out.solution.matrix)
              && DecideOutcome(out.solution.matrix) == (ALL, NONE) && Beats(st, out.solution)
    ensures out.Continue? ==>
              FollowsSchedule(s, t, c, bindings, sch, out.st.tested, out.st.added)
              && |out.st.tested| == |out.st.added| == i + 1
    ensures out.Solved? ==> FollowsSchedule(s, t, c, bindings, sch, st.tested + [out.solution], st.added)
    ensures out.Failed? ==>
              FollowsSchedule(s, t, c, bindings, sch, out.st.tested, out.st.added)
              && RaisedAt(s, t, c, bindings, sch, out.st.tested, out.st.added, out.error)
  {
    out := ProcessModel(s, t, c, bindings, model, size, st, numPos, numNeg);
    StepFacts(s, t, c, bindings, model, size, st, out);
    if out.Continue? {
      StepContinues(s, t, c, bindings, sch, i, size, model, st, out);
    } else if out.Solved? {
      StepSolves(s, t, c, bindings, sch, i, size, model, st, out);
    } else {
      StepFails(s, t, c, bindings, sch, i, size, model, st, out);
    }
  }

  /** `popper`: sizes 1 to `max_literals`; at each size, ask the solver for
      models until it has none, and for each generate a program, test it,
      keep it if its score beats the best so far (returning at once if it is
      also complete and consistent), then learn constraints from it and
      ground them. Any raise ends the search.

      The programs tested are those of the models the solver gave, in
      order, and the constraints added are those learned from them; a search
      that ends without a solution and without a raise has tested every
      model; a raise comes from the first model not fully processed. */
  method Popper(s: Settings, trace: seq<seq<seq<Atom>>>, t: TesterOracle, c: Constrainer,
                bindings: Clause -> seq<Assignment>, ghost numPos: nat, ghost numNeg: nat)
    returns (r: Result<Option<Program>>, stats: Stats, tested: seq<Tested>, added: seq<set<GroundClause>>)
    ensures SearchResult(t, numPos, numNeg, s.maxLiterals, r, stats, tested)
    ensures FollowsSchedule(s, t, c, bindings, Schedule(trace, s.maxLiterals), tested, added)
    ensures r.Ok? && stats.solution.None? ==> |added| == |tested| == |Schedule(trace, s.maxLiterals)|
    ensures stats.solution.Some? ==> |added| + 1 == |tested|
    ensures r.Err? ==> RaisedAt(s, t, c, bindings, Schedule(trace, s.maxLiterals), tested, added, r.error)
  {
    var sch := Schedule(trace, s.maxLiterals);
    ScheduleSorted(trace, s.maxLiterals);
    var st := LoopState(None, [], [], []);
    var i := 0;
    while i < |sch|
      invariant 0 <= i <= |sch|
      invariant Inv(t, numPos, numNeg, st, if i < |sch| then sch[i].0 else s.maxLiterals)
      invariant FollowsSchedule(s, t, c, bindings, sch, st.tested, st.added)
      invariant |st.tested| == |st.added| == i
    {
      var (size, model) := sch[i];
      var step := Advance(s, t, c, bindings, model, size, st, numPos, numNeg, sch, i);
      match step
      case Failed(st', e) =>
        StoppedResult(t, numPos, numNeg, st', size, s.maxLiterals, Err(e));
        return Err(e), Stats(None, st'.best), st'.tested, st'.added;
      case Solved(sol) =>
        SolvedResult(t, numPos, numNeg, st, sol, size, s.maxLiterals);
        return Ok(Some(sol.program)), Stats(Some(sol), st.best), st.tested + [sol], st.added;
      case Continue(st') =>
        InvWiden(t, numPos, numNeg, st', size, if i + 1 < |sch| then sch[i + 1].0 else s.maxLiterals);
        st := st';
      i := i + 1;
    }
    stats := Stats(None, st.best);
    r := Ok(LearnSolution(stats));
    StoppedResult(t, numPos, numNeg, st, s.maxLiterals, s.maxLiterals, r);
    tested := st.tested;
    added := st.added;
  }
}
