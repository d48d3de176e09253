/** The single-dataset script (centralizedlearning/test.py): generate a
    program from the solver's model, test it, classify the result with the
    script's own upper-case `decide_outcome`, build the selected constraint
    families in a fixed order, rewrite the constraints as a clingo-style
    model, and decode that model again.

    The rewriting loop inspects each atom's second argument but appends
    nothing, so the final `generate_program` always sees the empty model and
    the script always prints no rules. Decoding the rewritten model directly
    would have failed on its first atom, whose predicate is a string. */
module CentralScript {
  import opened Wrappers
  import opened Strings
  import opened Core
  import opened Outcomes
  import opened Constraints
  import opened Generate
  import opened OutcomeLabels

  // ---------------------------------------------------------------------------
  // decide_outcome and the families
  // ---------------------------------------------------------------------------

  /** The script's `decide_outcome`: popper's, with upper-case names. */
  function DecideNames(m: ConfMatrix): (r: (string, string))
    ensures r == (Name(DecideOutcome(m).0), Name(DecideOutcome(m).1))
  {
    var positive := if m.fn == 0 then "ALL" else if m.tp == 0 && m.fn > 0 then "NONE" else "SOME";
    var negative := if m.fp == 0 then "NONE" else "SOME";
    (positive, negative)
  }

  /** The constructors the script calls: generalisation and specialisation
      with `before` and `min_clause`, banish and redundancy with the program
      alone. */
  datatype ScriptConstrainer = ScriptConstrainer(
    generalisation: (Program, Before, MinClause) -> set<Clause>,
    specialisation: (Program, Before, MinClause) -> set<Clause>,
    banish: Program -> set<Clause>,
    redundancy: Program -> set<Clause>)

  /** What one family contributes. */
  function Family(f: Con, c: ScriptConstrainer, program: Program, b: Before, m: MinClause): set<Clause> {
    match f
    case GENERALISATION => c.generalisation(program, b, m)
    case SPECIALISATION => c.specialisation(program, b, m)
    case BANISH => c.banish(program)
    case REDUNDANCY => c.redundancy(program)
  }

  /** The four `if "<family>" in constraints_to_apply` blocks, in their fixed
      order: generalisation, specialisation, banish, redundancy. */
  function ApplyInOrder(fs: seq<Con>, c: ScriptConstrainer, program: Program, b: Before, m: MinClause): set<Clause> {
    (if GENERALISATION in fs then c.generalisation(program, b, m) else {})
    + (if SPECIALISATION in fs then c.specialisation(program, b, m) else {})
    + (if BANISH in fs then c.banish(program) else {})
    + (if REDUNDANCY in fs then c.redundancy(program) else {})
  }

  /** The fixed order does not matter: the result is the union of the
      selected families, in whatever order the table lists them, each
      counted once however often it is listed. */
  lemma ApplyIsUnionOfSelected(fs: seq<Con>, c: ScriptConstrainer, program: Program, b: Before, m: MinClause)
    ensures forall k :: k in ApplyInOrder(fs, c, program, b, m) <==>
                        exists i :: 0 <= i < |fs| && k in Family(fs[i], c, program, b, m)
  {
    forall k | k in ApplyInOrder(fs, c, program, b, m)
      ensures exists i :: 0 <= i < |fs| && k in Family(fs[i], c, program, b, m)
    {
      var f := if GENERALISATION in fs && k in c.generalisation(program, b, m) then GENERALISATION
               else if SPECIALISATION in fs && k in c.specialisation(program, b, m) then SPECIALISATION
               else if BANISH in fs && k in c.banish(program) then BANISH
               else REDUNDANCY;
      var i :| 0 <= i < |fs| && fs[i] == f;
      assert k in Family(fs[i], c, program, b, m);
    }
  }

  // ---------------------------------------------------------------------------
  // The model handed back to generate_program
  // ---------------------------------------------------------------------------

  /** `convert_to_string`: a variable by its name, a number as a number, and
      anything else by its `str()`, which for a tuple is `show` of its
      elements (Python's tuple formatting is not modelled). */
  function ConvertArg(a: Arg, show: seq<Arg> -> string): (r: Symbol)
    ensures a.Num? <==> r.Number?
    ensures !r.Function?
  {
    match a
    case Var(name, _) => Str(name)
    case Num(n) => Number(n)
    case Sym(s) => Str(s)
    case Tup(es) => Str(show(es))
  }

  function ConvertArgs(args: seq<Arg>, show: seq<Arg> -> string): (r: seq<Symbol>)
    ensures |r| == |args| && forall i :: 0 <= i < |args| ==> r[i] == ConvertArg(args[i], show)
  {
    seq(|args|, i requires 0 <= i < |args| => ConvertArg(args[i], show))
  }

  /** `Function(kind, [Number(id), String(pred), Number(len(args)),
      Function("args", converted)])`. */
  function LiteralAtom(kind: string, id: int, l: Literal, show: seq<Arg> -> string): Atom {
    Atom(kind, [Number(id), Str(l.pred), Number(|l.arguments|), Function("args", ConvertArgs(l.arguments, show))])
  }

  /** The head a headless constraint is given: `new_rule(X)`. */
  const DefaultHead: Literal := PlainLiteral("new_rule", [Sym("X")])

  /** The atoms of one constraint: its head (or the default), then one atom
      per body literal, all with the constraint's id. */
  function ClauseAtoms(id: int, k: Clause, show: seq<Arg> -> string): (r: seq<Atom>)
    ensures |r| == 1 + |k.body|
    ensures r[0].name == "head_literal"
    ensures forall i :: 1 <= i < |r| ==> r[i] == LiteralAtom("body_literal", id, k.body[i - 1], show)
  {
    var head := match k.head case None => DefaultHead case Some(h) => h;
    [LiteralAtom("head_literal", id, head, show)]
      + seq(|k.body|, i requires 0 <= i < |k.body| => LiteralAtom("body_literal", id, k.body[i], show))
  }

  /** The `for head, body in constraints` loop, with fake clause ids counting
      up from `id`. */
  function PopperModel(cs: seq<Clause>, id: int, show: seq<Arg> -> string): (r: seq<Atom>)
    ensures |cs| > 0 ==> |r| > 0 && r[0] == ClauseAtoms(id, cs[0], show)[0]
    ensures forall i :: 0 <= i < |r| ==> |r[i].arguments| == 4 && r[i].arguments[1].Str?
    decreases |cs|
  {
    if |cs| == 0 then []
    else ClauseAtoms(id, cs[0], show) + PopperModel(cs[1..], id + 1, show)
  }

  /** The number of atoms is the number of constraints plus the number of
      their body literals. */
  lemma {:induction false} PopperModelSize(cs: seq<Clause>, id: int, show: seq<Arg> -> string)
    ensures |PopperModel(cs, id, show)| == |cs| + BodySizes(cs)
    decreases |cs|
  {
    if |cs| > 0 {
      PopperModelSize(cs[1..], id + 1, show);
    }
  }

  function BodySizes(cs: seq<Clause>): nat
    decreases |cs|
  {
    if |cs| == 0 then 0 else |cs[0].body| + BodySizes(cs[1..])
  }

  /** If a prefix of the model raises, so does the model. */
  lemma {:induction false} RunPrefix(model: seq<Atom>, k: nat)
    requires k <= |model|
    requires Run(model).Ok?
    ensures Run(model[..k]).Ok?
    decreases |model|
  {
    if k < |model| {
      assert model[..|model| - 1][..k] == model[..k];
      RunPrefix(model[..|model| - 1], k);
    } else {
      assert model[..k] == model;
    }
  }

  /** Decoding the rewritten model directly raises: its first atom is a
      `head_literal` whose predicate is a string, and reading `.name` from
      a string symbol fails. */
  lemma PopperModelUndecodable(cs: seq<Clause>, id: int, show: seq<Arg> -> string)
    requires |cs| > 0
    ensures GenerateProgram(PopperModel(cs, id, show)).Err?
  {
    var model := PopperModel(cs, id, show);
    assert model[0].name == "head_literal";
    assert model[..1] == [model[0]];
    assert Run(model[..1]) == Step(EmptyState, model[0]);
    if Run(model).Ok? {
      RunPrefix(model, 1);
    }
  }

  /** The `for atom in popper_model` loop: it reads `atom.arguments[1]` and
      classifies it, and appends nothing. */
  function ConvertLoop(model: seq<Atom>): (r: Result<seq<Atom>>)
    ensures r.Err? <==> exists i :: 0 <= i < |model| && |model[i].arguments| < 2
    ensures r.Err? ==> r.error == IndexError
    ensures r.Ok? ==> r.value == []
    decreases |model|
  {
    if |model| == 0 then Ok([])
    else if |model[0].arguments| < 2 then Err(IndexError)
    else
      var rest :- ConvertLoop(model[1..]);
      assert forall i :: 1 <= i < |model| ==> model[i] == model[1..][i - 1];
      Ok(rest)
  }

  // ---------------------------------------------------------------------------
  // fix_arguments
  // ---------------------------------------------------------------------------

  /** `fix_arguments` (defined in the script, never called): functions are
      fixed recursively, and a string that starts with '(' and ends with ')'
      becomes a tuple of its stripped ", "-separated pieces. */
  function FixArguments(args: seq<Symbol>): (r: seq<Symbol>)
    ensures |r| == |args|
    ensures forall i :: 0 <= i < |args| && args[i].Number? ==> r[i] == args[i]
    ensures forall i :: 0 <= i < |args| && args[i].Function? ==>
              r[i].Function? && r[i].name == args[i].name && |r[i].args| == |args[i].args|
    decreases args
  {
    if |args| == 0 then []
    else [FixOne(args[0])] + FixArguments(args[1..])
  }

  function FixOne(a: Symbol): (r: Symbol)
    ensures a.Number? ==> r == a
    ensures a.Function? ==> r.Function? && r.name == a.name && |r.args| == |a.args|
    decreases a, 0
  {
    match a
    case Function(name, args) => Function(name, FixArguments(args))
    case Str(s) =>
      if StartsWith(s, "(") && EndsWith(s, ")")
      then TupleOf(SplitOn(StripChars(s, {'(', ')'}), ", "))
      else a
    case Number(_) => a
  }

  /** `clingo.Tuple_([String(e.strip()) for e in pieces])`. */
  function TupleOf(pieces: seq<string>): (r: Symbol)
    ensures r.Function? && r.name == "" && |r.args| == |pieces|
  {
    Function("", seq(|pieces|, i requires 0 <= i < |pieces| => Str(Strip(pieces[i]))))
  }

  /** The pieces of a tuple's text, joined by ", ", come back out of its
      parentheses. */
  lemma TupleTextInside(xs: seq<string>)
    requires forall i :: 0 <= i < |xs| ==> '(' !in xs[i] && ')' !in xs[i]
    ensures StripChars("(" + Join(xs, ", ") + ")", {'(', ')'}) == Join(xs, ", ")
  {
    var t := Join(xs, ", ");
    JoinNoChar(xs, ", ", '(');
    JoinNoChar(xs, ", ", ')');
    assert |t| > 0 ==> t[0] in t && t[|t| - 1] in t;
    StripCharsEnclosed('(', t, ')', {'(', ')'});
    assert "(" + t + ")" == ['('] + t + [')'];
  }

  lemma TupleOfStripped(xs: seq<string>)
    requires forall i :: 0 <= i < |xs| ==> IsStripped(xs[i])
    ensures TupleOf(xs) == Function("", seq(|xs|, i requires 0 <= i < |xs| => Str(xs[i])))
  {
    forall i | 0 <= i < |xs| ensures Strip(xs[i]) == xs[i] {
      StripOfStripped(xs[i]);
    }
  }

  /** A tuple written out as `(a, b, ...)` comes back as the tuple of its
      pieces, when the pieces hold no parentheses or commas and no
      surrounding blanks. */
  lemma FixTupleString(xs: seq<string>)
    requires |xs| >= 1
    requires forall i :: 0 <= i < |xs| ==> '(' !in xs[i] && ')' !in xs[i] && ',' !in xs[i] && IsStripped(xs[i])
    ensures FixArguments([Str("(" + Join(xs, ", ") + ")")]) ==
            [Function("", seq(|xs|, i requires 0 <= i < |xs| => Str(xs[i])))]
  {
    var t := Join(xs, ", ");
    var s := "(" + t + ")";
    TupleTextInside(xs);
    SplitJoin(xs, ", ");
    TupleOfStripped(xs);
    FixParenthesised(s);
    FixSingle(Str(s));
  }

  lemma FixParenthesised(s: string)
    requires |s| >= 2 && s[0] == '(' && s[|s| - 1] == ')'
    ensures FixOne(Str(s)) == TupleOf(SplitOn(StripChars(s, {'(', ')'}), ", "))
  {
    assert s[..1] == "(" && s[|s| - 1..] == ")";
  }

  lemma FixSingle(a: Symbol)
    ensures FixArguments([a]) == [FixOne(a)]
  {
    assert [a][1..] == [];
  }

  // ---------------------------------------------------------------------------
  // The script
  // ---------------------------------------------------------------------------

  datatype ScriptRun = ScriptRun(
    initial: Program,
    outcome: (string, string),
    constraints: set<Clause>,
    model: seq<Atom>,
    improved: Program)

  /** The script, with the solver's model given (`None` when it found none)
      and `enumerate` standing for the iteration order of the constraint
      set. It raises only where the first decoding or the test does, it
      prints no rules, and its constraints are the union of the families
      popper's table selects for the program's outcome. */
  function Script(model: Option<seq<Atom>>, test: Program -> Result<ConfMatrix>, c: ScriptConstrainer,
                  enumerate: set<Clause> -> seq<Clause>, show: seq<Arg> -> string): (r: Result<ScriptRun>)
    ensures r.Ok? <==> GenerateFrom(model).Ok? && test(GenerateFrom(model).value.clauses).Ok?
    ensures r.Ok? ==> r.value.initial == GenerateFrom(model).value.clauses
    ensures r.Ok? ==> r.value.improved == []
    ensures r.Ok? ==>
              var g := GenerateFrom(model).value;
              var fs := OutcomeToConstraints(DecideOutcome(test(g.clauses).value)).value;
              forall k :: k in r.value.constraints <==>
                          exists i :: 0 <= i < |fs| && k in Family(fs[i], c, g.clauses, g.before, g.minClause)
  {
    var g :- GenerateFrom(model);
    var m :- test(g.clauses);
    var outcome := DecideNames(m);
    var fs := NamedFamilies(outcome.0, outcome.1);
    NamedFamiliesOfNames(DecideOutcome(m).0, DecideOutcome(m).1);
    ApplyIsUnionOfSelected(fs, c, g.clauses, g.before, g.minClause);
    var constraints := ApplyInOrder(fs, c, g.clauses, g.before, g.minClause);
    var popperModel := PopperModel(enumerate(constraints), 1, show);
    var converted := ConvertLoop(popperModel);
    EmptyModel();
    if converted.Err? then Err(IndexError)
    else
      var improved := GenerateProgram(converted.value);
      Ok(ScriptRun(g.clauses, outcome, constraints, popperModel, improved.value.clauses))
  }
}
