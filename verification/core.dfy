/** Literals, clauses and grounding (popper/core.py).

    A literal argument is a variable (`ConstVar`), a plain symbol such as the
    generated names "A", "B", a number, or a tuple of arguments. Literal
    identity is the pair (predicate, arguments): directions, polarity and the
    meta flag never take part in it. */
module Core {
  import opened Wrappers
  import opened Strings

  datatype Arg =
    | Var(name: string, ty: string)
    | Sym(s: string)
    | Num(n: int)
    | Tup(elems: seq<Arg>)

  /** Mode tags: '+' input, '-' output, '?' unknown. */
  datatype Mode = In | Out | Unknown

  datatype Literal = Literal(
    pred: string,
    arguments: seq<Arg>,
    directions: seq<Mode>,
    positive: bool,
    meta: bool)

  /** What `Literal.my_hash` hashes; equal keys mean equal literals. */
  datatype LitKey = LitKey(pred: string, arguments: seq<Arg>)

  function Key(l: Literal): LitKey {
    LitKey(l.pred, l.arguments)
  }

  /** `Literal(predicate, arguments)` with the constructor's defaults. */
  function PlainLiteral(pred: string, arguments: seq<Arg>): Literal {
    Literal(pred, arguments, [], true, false)
  }

  /** `Literal.__eq__`: comparing with `None` is false, otherwise the hashes
      of (predicate, arguments) are compared. */
  function LiteralEquals(a: Literal, other: Option<Literal>): (r: bool)
    ensures r <==> other.Some? && a.pred == other.value.pred
                                && a.arguments == other.value.arguments
  {
    match other
    case None => false
    case Some(b) => Key(a) == Key(b)
  }

  /** Directions, polarity and the meta flag never affect equality. */
  lemma EqualityIgnoresAnnotations(a: Literal, dirs: seq<Mode>, pos: bool, meta: bool)
    ensures LiteralEquals(a, Some(a.(directions := dirs, positive := pos, meta := meta)))
    ensures LiteralEquals(a.(directions := dirs, positive := pos, meta := meta), Some(a))
  {
  }

  /** Literal equality is an equivalence relation. */
  lemma EqualityIsEquivalence(a: Literal, b: Literal, c: Literal)
    ensures LiteralEquals(a, Some(a))
    ensures LiteralEquals(a, Some(b)) ==> LiteralEquals(b, Some(a))
    ensures LiteralEquals(a, Some(b)) && LiteralEquals(b, Some(c)) ==> LiteralEquals(a, Some(c))
  {
  }

  // ---------------------------------------------------------------------------
  // Inputs and outputs
  // ---------------------------------------------------------------------------

  /** The arguments whose positionally aligned direction is `m`; `zip` stops at
      the shorter of the two sequences. */
  function ArgsWithMode(l: Literal, m: Mode): (r: set<Arg>)
    ensures forall a :: a in r <==>
      exists i :: 0 <= i < |l.directions| && i < |l.arguments|
                  && l.directions[i] == m && l.arguments[i] == a
  {
    set i | 0 <= i < |l.directions| && i < |l.arguments| && l.directions[i] == m
      :: l.arguments[i]
  }

  function Inputs(l: Literal): set<Arg> {
    ArgsWithMode(l, In)
  }

  function Outputs(l: Literal): set<Arg> {
    ArgsWithMode(l, Out)
  }

  /** Inputs and outputs are drawn from the arguments, and a literal without
      known directions has neither. */
  lemma InputsOutputsBounds(l: Literal)
    ensures Inputs(l) <= set a | a in l.arguments
    ensures Outputs(l) <= set a | a in l.arguments
    ensures (forall i :: 0 <= i < |l.directions| ==> l.directions[i] == Unknown)
            ==> Inputs(l) == {} && Outputs(l) == {}
  {
  }

  // ---------------------------------------------------------------------------
  // Clauses
  // ---------------------------------------------------------------------------

  /** A clause `(head, body)`; a missing head is a pure constraint. The body
      is kept in the order it is iterated. */
  datatype Clause = Clause(head: Option<Literal>, body: seq<Literal>)

  type Program = seq<Clause>

  /** `Clause.is_recursive`. */
  function IsRecursive(c: Clause): (r: bool)
    ensures r <==> (c.head.Some? &&
                    exists i :: 0 <= i < |c.body| && c.body[i].pred == c.head.value.pred)
  {
    match c.head
    case None => false
    case Some(h) =>
      var bodyPreds := set l | l in c.body :: l.pred;
      assert forall i :: 0 <= i < |c.body| ==> c.body[i].pred in bodyPreds;
      h.pred in bodyPreds
  }

  /** `Clause.is_separable`: reading `head.pred` of a headless clause that
      is not recursive raises. */
  function IsSeparable(c: Clause): (r: Result<bool>)
    ensures r.Err? <==> c.head.None?
    ensures r.Err? ==> r.error == AttributeError
    ensures r.Ok? ==> (r.value <==> !IsRecursive(c) && !StartsWith(c.head.value.pred, "inv"))
  {
    if IsRecursive(c) then Ok(false)
    else match c.head
      case None => Err(AttributeError)
      case Some(h) => Ok(!StartsWith(h.pred, "inv"))
  }

  /** A clause whose head predicate appears in its body is never separable. */
  lemma RecursiveNotSeparable(c: Clause, i: nat)
    requires c.head.Some? && i < |c.body| && c.body[i].pred == c.head.value.pred
    ensures IsSeparable(c) == Ok(false)
  {
  }

  /** What `Clause.clause_hash` hashes: the head's key (if any) and the set of
      body keys. */
  datatype ClauseKey = ClauseKey(head: Option<LitKey>, body: set<LitKey>)

  function ClauseHash(c: Clause): (k: ClauseKey)
    ensures forall l :: l in c.body ==> Key(l) in k.body
  {
    ClauseKey(
      match c.head case None => None case Some(h) => Some(Key(h)),
      set l | l in c.body :: Key(l))
  }

  /** The clause hash does not depend on the order of the body, nor on body
      duplicates, nor on annotations. */
  lemma ClauseHashIgnoresBodyOrder(c: Clause, body2: seq<Literal>)
    requires multiset(c.body) == multiset(body2)
    ensures ClauseHash(c) == ClauseHash(c.(body := body2))
  {
    forall l | l in c.body ensures l in body2 {
      assert l in multiset(c.body);
    }
    forall l | l in body2 ensures l in c.body {
      assert l in multiset(body2);
    }
  }

  /** The variables of one argument that `find_all_vars` sees: the argument
      itself, or the elements one level inside a tuple. */
  function ShallowVars(a: Arg): (r: set<Arg>)
    ensures forall v :: v in r <==> v.Var? && (v == a || (a.Tup? && v in a.elems))
  {
    match a
    case Var(_, _) => {a}
    case Tup(es) => set e | e in es && e.Var?
    case _ => {}
  }

  /** `Grounding.find_all_vars(body)`. */
  function FindAllVars(body: seq<Literal>): (r: set<Arg>)
    ensures forall v :: v in r ==> v.Var?
    ensures forall l, a :: l in body && a in l.arguments ==> ShallowVars(a) <= r
    ensures forall v :: v in r ==> exists l, a :: l in body && a in l.arguments && v in ShallowVars(a)
  {
    set l, a, v | l in body && a in l.arguments && v in ShallowVars(a) :: v
  }

  /** `Clause.all_vars`: every head argument (whatever its kind) and the
      variables found directly or one level inside a tuple in the body. */
  function AllVars(c: Clause): set<Arg> {
    var headArgs := match c.head case None => {} case Some(h) => set a | a in h.arguments;
    var direct := set l, a | l in c.body && a in l.arguments && a.Var? :: a;
    var nested := set l, a, e | l in c.body && a in l.arguments && a.Tup? && e in a.elems && e.Var? :: e;
    headArgs + direct + nested
  }

  /** `all_vars` is the head's arguments plus what `find_all_vars` reports for
      the body. */
  lemma AllVarsIsHeadArgsPlusBodyVars(c: Clause)
    ensures AllVars(c) == (match c.head case None => {} case Some(h) => set a | a in h.arguments)
                          + FindAllVars(c.body)
  {
    var fav := FindAllVars(c.body);
    forall v | v in fav
      ensures v in AllVars(c)
    {
      var l, a :| l in c.body && a in l.arguments && v in ShallowVars(a);
      if a == v {
        assert v in (set l, a | l in c.body && a in l.arguments && a.Var? :: a);
      } else {
        assert v in (set l, a, e | l in c.body && a in l.arguments && a.Tup? && e in a.elems && e.Var? :: e);
      }
    }
    forall l, a | l in c.body && a in l.arguments && a.Var?
      ensures a in fav
    {
      assert a in ShallowVars(a);
    }
    forall l, a, e | l in c.body && a in l.arguments && a.Tup? && e in a.elems && e.Var?
      ensures e in fav
    {
      assert e in ShallowVars(a);
    }
  }

  // ---------------------------------------------------------------------------
  // Grounding
  // ---------------------------------------------------------------------------

  /** An assignment maps (usually) variables to values. */
  type Assignment = map<Arg, Arg>

  /** `(positive, predicate, arguments)` tuples of ground clauses. */
  datatype GroundLit = GroundLit(positive: bool, pred: string, args: seq<Arg>)

  datatype GroundClause = GroundClause(head: Option<GroundLit>, body: set<GroundLit>)

  function GroundArg(a: Arg, asg: Assignment): Arg {
    if a in asg then asg[a]
    else match a
      case Tup(es) => Tup(seq(|es|, i requires 0 <= i < |es| =>
                                if es[i] in asg then asg[es[i]] else es[i]))
      case _ => a
  }

  /** `Grounding.ground_literal`. */
  function GroundLiteral(l: Literal, asg: Assignment): (g: GroundLit)
    ensures g.positive == l.positive && g.pred == l.pred
    ensures |g.args| == |l.arguments|
    ensures forall i :: 0 <= i < |l.arguments| && l.arguments[i] in asg ==>
              g.args[i] == asg[l.arguments[i]]
    ensures forall i :: 0 <= i < |l.arguments| && l.arguments[i] !in asg && !l.arguments[i].Tup? ==>
              g.args[i] == l.arguments[i]
    ensures forall i :: 0 <= i < |l.arguments| && l.arguments[i] !in asg && l.arguments[i].Tup? ==>
              g.args[i].Tup? && |g.args[i].elems| == |l.arguments[i].elems|
              && forall j :: 0 <= j < |l.arguments[i].elems| ==>
                   g.args[i].elems[j] == GroundArg(l.arguments[i].elems[j], asg) ||
                   (l.arguments[i].elems[j] !in asg && g.args[i].elems[j] == l.arguments[i].elems[j])
  {
    GroundLit(l.positive, l.pred,
              seq(|l.arguments|, i requires 0 <= i < |l.arguments| => GroundArg(l.arguments[i], asg)))
  }

  /** `Grounding.ground_clause`. */
  function GroundClauseOf(c: Clause, asg: Assignment): (g: GroundClause)
    ensures g.head.None? <==> c.head.None?
    ensures c.head.Some? ==> g.head == Some(GroundLiteral(c.head.value, asg))
    ensures forall l :: l in c.body ==> GroundLiteral(l, asg) in g.body
    ensures forall gl :: gl in g.body ==> exists l :: l in c.body && gl == GroundLiteral(l, asg)
  {
    GroundClause(
      match c.head case None => None case Some(h) => Some(GroundLiteral(h, asg)),
      set l | l in c.body :: GroundLiteral(l, asg))
  }

  /** An argument with no variable anywhere inside it. */
  predicate NoVar(a: Arg) {
    match a
    case Var(_, _) => false
    case Tup(es) => forall i :: 0 <= i < |es| ==> NoVar(es[i])
    case _ => true
  }

  /** Tuples nest at most one level, the depth `find_all_vars` looks at. */
  predicate Shallow(a: Arg) {
    a.Tup? ==> forall e :: e in a.elems ==> !e.Tup?
  }

  /** One argument: binding its shallow variables to variable-free values
      leaves none behind. */
  lemma GroundArgNoVar(a: Arg, asg: Assignment)
    requires Shallow(a) && ShallowVars(a) <= asg.Keys
    requires forall k :: k in asg ==> NoVar(asg[k])
    ensures NoVar(GroundArg(a, asg))
  {
    assert a.Var? ==> a in ShallowVars(a);
    if a !in asg && a.Tup? {
      var g := GroundArg(a, asg);
      forall j | 0 <= j < |a.elems| ensures NoVar(g.elems[j]) {
        var e := a.elems[j];
        assert e in a.elems;
        assert e.Var? ==> e in ShallowVars(a);
      }
    }
  }

  /** Grounding with an assignment that binds every variable `find_all_vars`
      reports, to variable-free values, leaves no variable in the body. */
  lemma GroundingCoversAllVars(c: Clause, asg: Assignment)
    requires forall l, a :: l in c.body && a in l.arguments ==> Shallow(a)
    requires FindAllVars(c.body) <= asg.Keys
    requires forall k :: k in asg ==> NoVar(asg[k])
    ensures forall gl, a :: gl in GroundClauseOf(c, asg).body && a in gl.args ==> NoVar(a)
  {
    forall gl, a | gl in GroundClauseOf(c, asg).body && a in gl.args
      ensures NoVar(a)
    {
      var l :| l in c.body && gl == GroundLiteral(l, asg);
      var i :| 0 <= i < |gl.args| && gl.args[i] == a;
      assert l.arguments[i] in l.arguments;
      assert ShallowVars(l.arguments[i]) <= FindAllVars(c.body);
      GroundArgNoVar(l.arguments[i], asg);
    }
  }

  // ---------------------------------------------------------------------------
  // Literal text
  // ---------------------------------------------------------------------------

  predicate AllSyms(args: seq<Arg>) {
    forall i :: 0 <= i < |args| ==> args[i].Sym?
  }

  function SymTexts(args: seq<Arg>): (r: seq<string>)
    requires AllSyms(args)
    ensures |r| == |args| && forall i :: 0 <= i < |args| ==> args[i] == Sym(r[i])
  {
    seq(|args|, i requires 0 <= i < |args| => args[i].s)
  }

  function SymsOf(texts: seq<string>): (r: seq<Arg>)
    ensures AllSyms(r) && SymTexts(r) == texts
  {
    seq(|texts|, i requires 0 <= i < |texts| => Sym(texts[i]))
  }

  /** `Literal.to_code`: `','.join` fails unless every argument is a string. */
  function ToCode(l: Literal): Option<string> {
    if AllSyms(l.arguments)
    then Some(l.pred + "(" + Join(SymTexts(l.arguments), ",") + ")")
    else None
  }

  /** `Literal.from_string`: exactly one '(' is required, trailing ')' are
      dropped and the rest is split on every ','. */
  function FromString(s: string): Result<Literal> {
    var parts := SplitOn(s, "(");
    if |parts| != 2 then Err(ValueError)
    else
      var argText := RStripChars(parts[1], {')'});
      Ok(PlainLiteral(Strip(parts[0]), SymsOf(SplitOn(argText, ","))))
  }

  lemma RStripParenOfClosed(b: string)
    requires ')' !in b
    ensures RStripChars(b + ")", {')'}) == b
  {
    var s := b + ")";
    assert TrimRight(s[..|s| - 1], c => c in {')'}) == TrimRight(b, c => c in {')'});
    assert s[..|s| - 1] == b;
    if |b| > 0 {
      assert b[|b| - 1] in b;
    }
  }

  /** Parsing `p(b)`: the predicate is `p` and the arguments are the pieces
      of `b` between commas. */
  lemma FromStringOfShape(p: string, b: string)
    requires '(' !in p && IsStripped(p)
    requires '(' !in b && ')' !in b
    ensures FromString(p + "(" + b + ")") == Ok(PlainLiteral(p, SymsOf(SplitOn(b, ","))))
  {
    var s := p + "(" + b + ")";
    assert s == p + "(" + (b + ")");
    SplitOnAfterPiece(p, "(", b + ")");
    assert '(' !in b + ")";
    SplitOnWithoutSep(b + ")", "(");
    assert SplitOn(s, "(") == [p, b + ")"];
    RStripParenOfClosed(b);
    StripOfStripped(p);
  }

  /** Printing a parsed literal gives back the text, for `p(args)` whose
      predicate has no '(' and no surrounding blanks and whose argument text
      has no parentheses. */
  lemma ToCodeFromString(p: string, b: string)
    requires '(' !in p && IsStripped(p)
    requires '(' !in b && ')' !in b
    ensures FromString(p + "(" + b + ")").Ok?
    ensures ToCode(FromString(p + "(" + b + ")").value) == Some(p + "(" + b + ")")
  {
    FromStringOfShape(p, b);
    var texts := SplitOn(b, ",");
    JoinSplit(b, ",");
    assert SymTexts(SymsOf(texts)) == texts;
  }

  /** The text of a literal whose argument names are free of '(' ')' ','
      parses back to a literal with the same predicate and arguments. */
  lemma FromStringToCode(l: Literal)
    requires AllSyms(l.arguments) && |l.arguments| >= 1
    requires '(' !in l.pred && IsStripped(l.pred)
    requires forall i :: 0 <= i < |l.arguments| ==>
               '(' !in l.arguments[i].s && ')' !in l.arguments[i].s && ',' !in l.arguments[i].s
    ensures ToCode(l).Some? && FromString(ToCode(l).value).Ok?
    ensures Key(FromString(ToCode(l).value).value) == Key(l)
  {
    var texts := SymTexts(l.arguments);
    var b := Join(texts, ",");
    JoinNoChar(texts, ",", '(');
    JoinNoChar(texts, ",", ')');
    assert ToCode(l) == Some(l.pred + "(" + b + ")");
    FromStringOfShape(l.pred, b);
    SplitJoin(texts, ",");
    assert SymsOf(texts) == l.arguments;
  }
}
