/** The model decoder (popper/generate.py): turns the atoms of one answer set
    into clauses.

    Clingo symbols are numbers, strings or functions; the accessors `.name`,
    `.number` and `.arguments` used on the wrong kind of symbol raise, which is
    modelled as `Err(SymbolError)`. The dictionaries the decoder fills are
    kept as maps, except `clause_id_to_head`, whose insertion order decides
    the order of the clauses and is kept as an association list. */
module Generate {
  import opened Wrappers
  import opened Core
  import Ordering

  datatype Symbol =
    | Number(n: int)
    | Str(s: string)
    | Function(name: string, args: seq<Symbol>)

  /** One atom of a model: a function symbol. */
  datatype Atom = Atom(name: string, arguments: seq<Symbol>)

  function NameOf(s: Symbol): (r: Result<string>)
    ensures r.Ok? <==> s.Function?
  {
    if s.Function? then Ok(s.name) else Err(SymbolError)
  }

  function NumberOf(s: Symbol): (r: Result<int>)
    ensures r.Ok? <==> s.Number?
  {
    if s.Number? then Ok(s.n) else Err(SymbolError)
  }

  function ArgumentsOf(s: Symbol): (r: Result<seq<Symbol>>)
    ensures r.Ok? <==> s.Function?
  {
    if s.Function? then Ok(s.args) else Err(SymbolError)
  }

  /** `atom.arguments[i]`. */
  function ArgAt(args: seq<Symbol>, i: nat): (r: Result<Symbol>)
    ensures r.Ok? <==> i < |args|
    ensures r.Ok? ==> r.value == args[i]
  {
    if i < |args| then Ok(args[i]) else Err(IndexError)
  }

  /** Python `chr(c)`, restricted to the code points Dafny's `char` holds (it
      has no surrogates). */
  predicate IsCodePoint(c: int) {
    (0 <= c < 0xD800) || (0xE000 <= c < 0x11_0000)
  }

  /** `gen_args`: argument number `n` is named by the single letter
      `chr(ord('A') + n)`. */
  function GenArgs(xs: seq<Symbol>): (r: Result<seq<string>>)
    ensures r.Ok? <==> forall i :: 0 <= i < |xs| ==> xs[i].Number? && IsCodePoint(65 + xs[i].n)
    ensures r.Ok? ==> |r.value| == |xs|
    ensures r.Ok? ==> forall i :: 0 <= i < |xs| ==> r.value[i] == [(65 + xs[i].n) as char]
    decreases |xs|
  {
    if |xs| == 0 then Ok([])
    else
      var n :- NumberOf(xs[0]);
      if !IsCodePoint(65 + n) then Err(ValueError)
      else
        var rest :- GenArgs(xs[1..]);
        assert forall i :: 1 <= i < |xs| ==> xs[i] == xs[1..][i - 1];
        Ok([[(65 + n) as char]] + rest)
  }

  /** Names depend only on the numbers, never on the order in which variables
      were met: equal numbers get equal names, distinct numbers distinct ones. */
  lemma GenArgsPositional(xs: seq<Symbol>, i: nat, j: nat)
    requires GenArgs(xs).Ok? && i < |xs| && j < |xs|
    ensures GenArgs(xs).value[i] == GenArgs(xs).value[j] <==> xs[i].n == xs[j].n
  {
    var r := GenArgs(xs).value;
    assert r[i] == [(65 + xs[i].n) as char] && r[j] == [(65 + xs[j].n) as char];
    assert IsCodePoint(65 + xs[i].n) && IsCodePoint(65 + xs[j].n);
    SingleLetters(65 + xs[i].n, 65 + xs[j].n);
  }

  /** One-letter names of code points are equal exactly when the code points
      are. */
  lemma SingleLetters(a: int, b: int)
    requires IsCodePoint(a) && IsCodePoint(b)
    ensures [a as char] == [b as char] <==> a == b
  {
    if [a as char] == [b as char] {
      assert [a as char][0] == [b as char][0];
    }
  }

  // ---------------------------------------------------------------------------
  // The decoder's state
  // ---------------------------------------------------------------------------

  /** The `(predicate, arguments, arity)` tuples stored for heads and bodies. */
  datatype RawLit = RawLit(pred: string, args: seq<string>, arity: int)

  datatype GenState = GenState(
    heads: seq<(int, RawLit)>,               // clause_id_to_head, in insertion order
    bodies: map<int, seq<RawLit>>,           // clause_id_to_body, each a set
    directions: map<string, map<int, Mode>>, // missing entries read as '?'
    before: map<int, set<int>>,
    minClause: map<int, int>)                // missing entries read as 0

  const EmptyState := GenState([], map[], map[], map[], map[])

  function HeadIds(heads: seq<(int, RawLit)>): set<int> {
    set p | p in heads :: p.0
  }

  predicate DistinctIds(heads: seq<(int, RawLit)>) {
    forall i, j :: 0 <= i < j < |heads| ==> heads[i].0 != heads[j].0
  }

  function LookupHead(heads: seq<(int, RawLit)>, id: int): Option<RawLit>
    decreases |heads|
  {
    if |heads| == 0 then None
    else if heads[0].0 == id then Some(heads[0].1)
    else LookupHead(heads[1..], id)
  }

  /** `clause_id_to_head[id] = lit`: an existing key keeps its place and gets
      the new value, a new key goes last. */
  function PutHead(heads: seq<(int, RawLit)>, id: int, lit: RawLit): (r: seq<(int, RawLit)>)
    ensures HeadIds(r) == HeadIds(heads) + {id}
    ensures id in HeadIds(heads) ==>
              (|r| == |heads| && forall i :: 0 <= i < |heads| ==> r[i].0 == heads[i].0)
    ensures id !in HeadIds(heads) ==> r == heads + [(id, lit)]
    decreases |heads|
  {
    if |heads| == 0 then [(id, lit)]
    else
      assert heads == [heads[0]] + heads[1..];
      HeadIdsConcat([heads[0]], heads[1..]);
      if heads[0].0 == id then
        HeadIdsConcat([(id, lit)], heads[1..]);
        [(id, lit)] + heads[1..]
      else
        var rest := PutHead(heads[1..], id, lit);
        HeadIdsConcat([heads[0]], rest);
        [heads[0]] + rest
  }

  lemma HeadIdsConcat(a: seq<(int, RawLit)>, b: seq<(int, RawLit)>)
    ensures HeadIds(a + b) == HeadIds(a) + HeadIds(b)
  {
    forall x | x in HeadIds(a + b) ensures x in HeadIds(a) + HeadIds(b) {
      var p :| p in a + b && p.0 == x;
      assert p in a || p in b;
    }
    forall x | x in HeadIds(a) + HeadIds(b) ensures x in HeadIds(a + b) {
      if x in HeadIds(a) {
        var p :| p in a && p.0 == x;
        assert p in a + b;
      } else {
        var p :| p in b && p.0 == x;
        assert p in a + b;
      }
    }
  }

  /** Putting a head keeps the ids distinct, so there is one entry per id. */
  lemma PutHeadDistinct(heads: seq<(int, RawLit)>, id: int, lit: RawLit)
    ensures DistinctIds(heads) ==> DistinctIds(PutHead(heads, id, lit))
  {
    var r := PutHead(heads, id, lit);
    if id !in HeadIds(heads) {
      forall i | 0 <= i < |heads| ensures r[i].0 != id {
        assert heads[i] in heads;
      }
    }
  }

  /** After `clause_id_to_head[id] = lit` the id maps to `lit`, whatever it
      held before, and no other id changes. */
  lemma {:induction false} PutHeadLookup(heads: seq<(int, RawLit)>, id: int, lit: RawLit, k: int)
    ensures LookupHead(PutHead(heads, id, lit), k) == if k == id then Some(lit) else LookupHead(heads, k)
    decreases |heads|
  {
    if |heads| > 0 && heads[0].0 != id {
      PutHeadLookup(heads[1..], id, lit, k);
      var r := PutHead(heads, id, lit);
      assert r[1..] == PutHead(heads[1..], id, lit);
    }
  }

  /** `clause_id_to_body[id].add(lit)`. */
  function AddBody(bodies: map<int, seq<RawLit>>, id: int, lit: RawLit): (r: map<int, seq<RawLit>>)
    ensures r.Keys == bodies.Keys + {id}
    ensures lit in r[id]
    ensures forall x :: x in r[id] <==> x == lit || (id in bodies && x in bodies[id])
    ensures forall k :: k in bodies && k != id ==> r[k] == bodies[k]
  {
    var prev := if id in bodies then bodies[id] else [];
    bodies[id := if lit in prev then prev else prev + [lit]]
  }

  // ---------------------------------------------------------------------------
  // One atom
  // ---------------------------------------------------------------------------

  /** `body_literal(Id, P, Arity, (V1, ..., Vn))` and the same shape for
      `head_literal`: the clause id and the decoded literal. */
  function DecodeLiteral(atom: Atom): Result<(int, RawLit)> {
    var a0 :- ArgAt(atom.arguments, 0);
    var id :- NumberOf(a0);
    var a1 :- ArgAt(atom.arguments, 1);
    var pred :- NameOf(a1);
    var a2 :- ArgAt(atom.arguments, 2);
    var arity :- NumberOf(a2);
    var a3 :- ArgAt(atom.arguments, 3);
    var vars :- ArgumentsOf(a3);
    var names :- GenArgs(vars);
    Ok((id, RawLit(pred, names, arity)))
  }

  /** The `direction_` branch's mapping of 'in'/'out'. */
  function DirectionOf(s: string): (r: Result<Mode>)
    ensures r.Ok? <==> s == "in" || s == "out"
    ensures r.Ok? ==> r.value != Unknown
  {
    if s == "in" then Ok(In)
    else if s == "out" then Ok(Out)
    else Err(RaisedException)
  }

  /** The atom filter: at least two arguments, the second a function or a
      string. */
  predicate PassesFilter(atom: Atom) {
    |atom.arguments| >= 2 && (atom.arguments[1].Function? || atom.arguments[1].Str?)
  }

  /** `directions[pred_name][arg_index] = arg_dir` for a
      `direction_(Pred, Index, Dir)` atom. */
  function RecordDirection(st: GenState, args: seq<Symbol>): (r: Result<GenState>)
    requires |args| >= 2
    ensures r.Ok? ==> args[1].Number?
  {
    var predName :- NameOf(args[0]);
    var argIndex :- NumberOf(args[1]);
    var a2 :- ArgAt(args, 2);
    var dirName :- NameOf(a2);
    var dir :- DirectionOf(dirName);
    var m := if predName in st.directions then st.directions[predName] else map[];
    Ok(st.(directions := st.directions[predName := m[argIndex := dir]]))
  }

  /** `before[clause1].add(clause2)` for a `before(C1, C2)` atom. */
  function RecordBefore(st: GenState, args: seq<Symbol>): (r: Result<GenState>)
    requires |args| >= 2
    ensures r.Ok? ==> args[1].Number?
  {
    var c1 :- NumberOf(args[0]);
    var c2 :- NumberOf(args[1]);
    var s := if c1 in st.before then st.before[c1] else {};
    Ok(st.(before := st.before[c1 := s + {c2}]))
  }

  /** `min_clause[clause] = max(min_clause[clause], n)` for a
      `min_clause(C, N)` atom. */
  function RecordMinClause(st: GenState, args: seq<Symbol>): (r: Result<GenState>)
    requires |args| >= 2
    ensures r.Ok? ==> args[0].Number? && args[1].Number?
    ensures r.Ok? && args[0].Number? ==> var c := args[0].n;
                      c in r.value.minClause && r.value.minClause[c] >= args[1].n
                      && (c in st.minClause ==> r.value.minClause[c] >= st.minClause[c])
  {
    var c :- NumberOf(args[0]);
    var m :- NumberOf(args[1]);
    var cur := if c in st.minClause then st.minClause[c] else 0;
    Ok(st.(minClause := st.minClause[c := if cur >= m then cur else m]))
  }

  /** An unrecognised direction name raises, and a recorded direction is
      '+' or '-'. */
  lemma RecordDirectionNames(st: GenState, args: seq<Symbol>)
    requires |args| >= 3 && args[0].Function? && args[1].Number? && args[2].Function?
    ensures RecordDirection(st, args).Ok? <==> args[2].name == "in" || args[2].name == "out"
    ensures RecordDirection(st, args).Ok? ==>
              RecordDirection(st, args).value.directions[args[0].name][args[1].n] != Unknown
  {
  }

  /** One iteration of `for atom in model`. */
  function Step(st: GenState, atom: Atom): (r: Result<GenState>)
    ensures r.Ok? ==> r.value.directions == st.directions
    ensures r.Ok? ==> r.value.before == st.before && r.value.minClause == st.minClause
    ensures r.Ok? && DistinctIds(st.heads) ==> DistinctIds(r.value.heads)
  {
    if !PassesFilter(atom) then Ok(st)
    else if atom.name == "body_literal" then
      var (id, lit) :- DecodeLiteral(atom);
      Ok(st.(bodies := AddBody(st.bodies, id, lit)))
    else if atom.name == "head_literal" then
      var (id, lit) :- DecodeLiteral(atom);
      PutHeadDistinct(st.heads, id, lit);
      Ok(st.(heads := PutHead(st.heads, id, lit)))
    else if atom.name == "direction_" then RecordDirection(st, atom.arguments)
    else if atom.name == "before" then RecordBefore(st, atom.arguments)
    else if atom.name == "min_clause" then RecordMinClause(st, atom.arguments)
    else Ok(st)
  }

  /** Atoms with fewer than two arguments or a numeric second argument are
      skipped without raising. */
  lemma FilteredAtomSkipped(st: GenState, atom: Atom)
    requires |atom.arguments| < 2 || atom.arguments[1].Number?
    ensures Step(st, atom) == Ok(st)
  {
  }

  /** A `direction_`, `before` or `min_clause` atom that passes the filter has
      a function or string second argument, and reading `.number` from it
      raises: none of the three can ever be recorded. */
  lemma DirectionBeforeMinNeverRecorded(st: GenState, atom: Atom)
    requires atom.name in {"direction_", "before", "min_clause"}
    ensures Step(st, atom).Ok? ==> Step(st, atom) == Ok(st)
    ensures PassesFilter(atom) ==> Step(st, atom).Err?
  {
  }

  /** A later `head_literal` for the same id overwrites the earlier one; a
      body fact is added to its id's set whether or not the id has a head. */
  lemma HeadAndBodyUpdate(st: GenState, atom: Atom)
    requires PassesFilter(atom) && DecodeLiteral(atom).Ok?
    ensures atom.name == "head_literal" ==>
              var (id, lit) := DecodeLiteral(atom).value;
              Step(st, atom).Ok? && LookupHead(Step(st, atom).value.heads, id) == Some(lit)
              && Step(st, atom).value.bodies == st.bodies
    ensures atom.name == "body_literal" ==>
              var (id, lit) := DecodeLiteral(atom).value;
              Step(st, atom).Ok? && lit in Step(st, atom).value.bodies[id]
              && Step(st, atom).value.heads == st.heads
  {
    var (id, lit) := DecodeLiteral(atom).value;
    PutHeadLookup(st.heads, id, lit, id);
  }

  // ---------------------------------------------------------------------------
  // The whole model
  // ---------------------------------------------------------------------------

  /** The loop over the model's atoms; the first raise ends the decoding. */
  function Run(model: seq<Atom>): (r: Result<GenState>)
    ensures r.Ok? ==> DistinctIds(r.value.heads)
    ensures r.Ok? ==> r.value.directions == map[] && r.value.before == map[] && r.value.minClause == map[]
    decreases |model|
  {
    if |model| == 0 then Ok(EmptyState)
    else
      var st :- Run(model[..|model| - 1]);
      Step(st, model[|model| - 1])
  }

  /** `directions[pred][i]` with the '?' default. */
  function ModeAt(dirs: map<string, map<int, Mode>>, pred: string, i: int): Mode {
    if pred in dirs && i in dirs[pred] then dirs[pred][i] else Unknown
  }

  /** The mode tuple for `range(arity)`; a negative arity gives none. */
  function Modes(dirs: map<string, map<int, Mode>>, pred: string, arity: int): (r: seq<Mode>)
    ensures |r| == if arity < 0 then 0 else arity
    ensures forall i :: 0 <= i < |r| ==> r[i] == ModeAt(dirs, pred, i)
  {
    seq(if arity < 0 then 0 else arity, i => ModeAt(dirs, pred, i))
  }

  function ToLiteral(dirs: map<string, map<int, Mode>>, raw: RawLit): Literal {
    Literal(raw.pred, SymsOf(raw.args), Modes(dirs, raw.pred, raw.arity), true, false)
  }

  function ToLiterals(dirs: map<string, map<int, Mode>>, raws: seq<RawLit>): (r: seq<Literal>)
    ensures |r| == |raws| && forall i :: 0 <= i < |raws| ==> r[i] == ToLiteral(dirs, raws[i])
  {
    seq(|raws|, i requires 0 <= i < |raws| => ToLiteral(dirs, raws[i]))
  }

  /** The body of clause `id`: its raw body literals turned into literals and
      collected into a set (equal literals collapse). */
  function BodyOf(st: GenState, id: int): (r: seq<Literal>)
    ensures Ordering.Distinct(r)
  {
    var raws := if id in st.bodies then st.bodies[id] else [];
    Ordering.Dedup(ToLiterals(st.directions, raws))
  }

  /** The final loop over `clause_id_to_head`: one clause per head id. */
  function Assemble(st: GenState): (clauses: Program)
    ensures |clauses| == |st.heads|
    ensures forall i :: 0 <= i < |clauses| ==>
              clauses[i].head == Some(ToLiteral(st.directions, st.heads[i].1))
              && clauses[i].body == BodyOf(st, st.heads[i].0)
  {
    seq(|st.heads|, i requires 0 <= i < |st.heads| =>
      Clause(Some(ToLiteral(st.directions, st.heads[i].1)), BodyOf(st, st.heads[i].0)))
  }

  datatype GenOutput = GenOutput(clauses: Program, before: map<int, set<int>>, minClause: map<int, int>)

  /** `generate_program`. */
  function GenerateProgram(model: seq<Atom>): (r: Result<GenOutput>)
    ensures r.Ok? ==> r.value.before == map[] && r.value.minClause == map[]
    ensures r.Ok? ==> forall c :: c in r.value.clauses ==> c.head.Some?
  {
    var st :- Run(model);
    Ok(GenOutput(Assemble(st), st.before, st.minClause))
  }

  /** With no recorded directions, a literal's modes are all unknown, so it
      has neither inputs nor outputs. */
  lemma ToLiteralUnknown(raw: RawLit)
    ensures forall i :: 0 <= i < |ToLiteral(map[], raw).directions| ==>
              ToLiteral(map[], raw).directions[i] == Unknown
    ensures Inputs(ToLiteral(map[], raw)) == {} && Outputs(ToLiteral(map[], raw)) == {}
  {
    InputsOutputsBounds(ToLiteral(map[], raw));
  }

  /** Every decoded literal, head or body, has only unknown ('?') modes; hence
      none has inputs or outputs. */
  lemma DecodedModesUnknown(model: seq<Atom>, k: nat, l: Literal)
    requires GenerateProgram(model).Ok? && k < |GenerateProgram(model).value.clauses|
    requires Some(l) == GenerateProgram(model).value.clauses[k].head
             || l in GenerateProgram(model).value.clauses[k].body
    ensures forall i :: 0 <= i < |l.directions| ==> l.directions[i] == Unknown
    ensures Inputs(l) == {} && Outputs(l) == {}
  {
    var st := Run(model).value;
    var c := Assemble(st)[k];
    if Some(l) == c.head {
      ToLiteralUnknown(st.heads[k].1);
    } else {
      var raws := if st.heads[k].0 in st.bodies then st.bodies[st.heads[k].0] else [];
      var lits := ToLiterals(st.directions, raws);
      assert l in lits;
      var i :| 0 <= i < |lits| && lits[i] == l;
      ToLiteralUnknown(raws[i]);
    }
  }

  /** Each mode tuple has one entry per argument position of the arity. */
  lemma ModesMatchArity(st: GenState, raw: RawLit)
    requires raw.arity >= 0
    ensures |ToLiteral(st.directions, raw).directions| == raw.arity
  {
  }

  /** One clause per distinct head id, in the order the ids were first seen;
      each clause's head is the last head literal read for its id and its
      body is that id's body facts. Body facts of ids without a head never
      reach a clause. */
  lemma OneClausePerHeadId(model: seq<Atom>)
    requires GenerateProgram(model).Ok?
    ensures var st := Run(model).value;
            var clauses := GenerateProgram(model).value.clauses;
            && |clauses| == |HeadIds(st.heads)| == |st.heads|
            && IdsOf(st.heads) == FirstSeenHeadIds(model)
            && forall i :: 0 <= i < |clauses| ==>
                 && LookupHead(st.heads, st.heads[i].0) == Some(st.heads[i].1)
                 && clauses[i].head == Some(ToLiteral(st.directions, st.heads[i].1))
                 && clauses[i].body == BodyOf(st, st.heads[i].0)
  {
    var st := Run(model).value;
    DistinctIdsCount(st.heads);
    HeadsFirstSeen(model);
    forall i | 0 <= i < |st.heads| ensures LookupHead(st.heads, st.heads[i].0) == Some(st.heads[i].1) {
      LookupDistinct(st.heads, i);
    }
  }

  /** The ids of `heads`, in order. */
  function IdsOf(heads: seq<(int, RawLit)>): (ids: seq<int>)
    ensures |ids| == |heads| && forall i :: 0 <= i < |heads| ==> ids[i] == heads[i].0
  {
    if |heads| == 0 then [] else [heads[0].0] + IdsOf(heads[1..])
  }

  /** The clause id of a `head_literal` atom the loop records, if `atom` is
      one. */
  function HeadLiteralId(atom: Atom): Option<int> {
    if PassesFilter(atom) && atom.name == "head_literal" && DecodeLiteral(atom).Ok? then
      Some(DecodeLiteral(atom).value.0)
    else None
  }

  /** The ids of the model's head literals, each at its first occurrence. */
  function FirstSeenHeadIds(model: seq<Atom>): (ids: seq<int>)
    decreases |model|
  {
    if |model| == 0 then []
    else
      var prev := FirstSeenHeadIds(model[..|model| - 1]);
      match HeadLiteralId(model[|model| - 1])
      case Some(id) => if id in prev then prev else prev + [id]
      case None => prev
  }

  /** Only a recorded head literal touches the heads. */
  lemma StepKeepsHeads(st: GenState, atom: Atom)
    requires HeadLiteralId(atom).None? && Step(st, atom).Ok?
    ensures Step(st, atom).value.heads == st.heads
  {
  }

  /** The decoder's heads list ids in the order the model first names them. */
  lemma {:induction false} HeadsFirstSeen(model: seq<Atom>)
    requires Run(model).Ok?
    ensures IdsOf(Run(model).value.heads) == FirstSeenHeadIds(model)
    decreases |model|
  {
    if |model| > 0 {
      var prefix, atom := model[..|model| - 1], model[|model| - 1];
      var st := Run(prefix).value;
      HeadsFirstSeen(prefix);
      var prev := IdsOf(st.heads);
      match HeadLiteralId(atom)
      case None =>
        StepKeepsHeads(st, atom);
      case Some(id) =>
        var lit := DecodeLiteral(atom).value.1;
        assert Run(model).value.heads == PutHead(st.heads, id, lit);
        PutHeadIds(st.heads, id, lit);
    }
  }

  /** Putting a head keeps the id order and appends a new id. */
  lemma PutHeadIds(heads: seq<(int, RawLit)>, id: int, lit: RawLit)
    ensures IdsOf(PutHead(heads, id, lit)) == if id in IdsOf(heads) then IdsOf(heads) else IdsOf(heads) + [id]
  {
    if id in HeadIds(heads) {
      PutHeadIdsKnown(heads, id, lit);
    } else {
      PutHeadIdsNew(heads, id, lit);
    }
  }

  lemma PutHeadIdsKnown(heads: seq<(int, RawLit)>, id: int, lit: RawLit)
    requires id in HeadIds(heads)
    ensures id in IdsOf(heads) && IdsOf(PutHead(heads, id, lit)) == IdsOf(heads)
  {
    var p :| p in heads && p.0 == id;
    var k :| 0 <= k < |heads| && heads[k] == p;
    assert IdsOf(heads)[k] == id;
  }

  lemma PutHeadIdsNew(heads: seq<(int, RawLit)>, id: int, lit: RawLit)
    requires id !in HeadIds(heads)
    ensures id !in IdsOf(heads) && IdsOf(PutHead(heads, id, lit)) == IdsOf(heads) + [id]
  {
    var prev := IdsOf(heads);
    forall k | 0 <= k < |prev| ensures prev[k] != id {
      assert heads[k] in heads;
    }
  }

  /** With distinct ids, the entry at position `i` is what its id looks up. */
  lemma {:induction false} LookupDistinct(heads: seq<(int, RawLit)>, i: nat)
    requires DistinctIds(heads) && i < |heads|
    ensures LookupHead(heads, heads[i].0) == Some(heads[i].1)
    decreases i
  {
    if i > 0 {
      assert heads[0].0 != heads[i].0;
      assert heads[i] == heads[1..][i - 1];
      LookupDistinct(heads[1..], i - 1);
    }
  }

  lemma {:induction false} DistinctIdsCount(heads: seq<(int, RawLit)>)
    requires DistinctIds(heads)
    ensures |HeadIds(heads)| == |heads|
    decreases |heads|
  {
    if |heads| > 0 {
      assert forall i :: 1 <= i < |heads| ==> heads[i] == heads[1..][i - 1];
      DistinctIdsCount(heads[1..]);
      assert HeadIds(heads) == {heads[0].0} + HeadIds(heads[1..]);
    }
  }

  /** The empty model decodes to no clauses. */
  lemma EmptyModel()
    ensures GenerateProgram([]) == Ok(GenOutput([], map[], map[]))
  {
  }

  /** `generate_program` of what the solver's `get_model` returns: `None`
      when the problem has no model, which `for atom in model` cannot
      iterate. */
  function GenerateFrom(model: Option<seq<Atom>>): (r: Result<GenOutput>)
    ensures model.None? ==> r == Err(TypeError)
    ensures r.Ok? ==> model.Some? && r.value.before == map[] && r.value.minClause == map[]
    ensures model.Some? ==> r == GenerateProgram(model.value)
  {
    match model
    case None => Err(TypeError)
    case Some(atoms) => GenerateProgram(atoms)
  }
}
