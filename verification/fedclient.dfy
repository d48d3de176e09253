/** The federated clients: each receives rules from the server as an array
    of strings, tests them on its own examples and replies with a payload
    and a weight. Three variants exist:

    - fedpopper/client2.py replies with its raw confusion matrix, weighted
      by the number of examples;
    - fedpopper/client3.py replies with its encoded outcome pair and keeps
      a best score across rounds;
    - fedpopper2clients/client1.py replies with its encoded outcome pair
      and its score, with weight 1.

    The tester and the number of examples come from the client's dataset
    and are parameters here. */
module FedClient {
  import opened Wrappers
  import opened Strings
  import opened Core
  import opened Outcomes
  import opened OutcomeLabels
  import opened EncodedAggregation
  import opened RuleText
  import ResultTable

  // ---------------------------------------------------------------------------
  // encode_outcome and decode_outcome
  // ---------------------------------------------------------------------------

  /** `encode_outcome`: upper-case both texts and look them up. */
  function EncodePair(o: (string, string)): (r: Result<(int, int)>)
    ensures r.Ok? <==> ParseName(Upper(o.0)).Some? && ParseName(Upper(o.1)).Some?
    ensures r.Err? ==> r.error == KeyError
    ensures r.Ok? ==> 1 <= r.value.0 <= 3 && 1 <= r.value.1 <= 3
  {
    var a := Encode(Upper(o.0));
    var b := Encode(Upper(o.1));
    if a.Err? || b.Err? then Err(KeyError) else Ok((a.value, b.value))
  }

  /** `decode_outcome`. */
  function DecodePair(e: (int, int)): (r: Result<(string, string)>)
    ensures r.Ok? <==> 1 <= e.0 <= 3 && 1 <= e.1 <= 3
    ensures r.Err? ==> r.error == KeyError
  {
    var a := Decode(e.0);
    var b := Decode(e.1);
    if a.Err? || b.Err? then Err(KeyError) else Ok((a.value, b.value))
  }

  /** Decoding an encoded pair gives the upper-cased pair back. */
  lemma DecodeEncodePair(o: (string, string))
    ensures EncodePair(o).Ok? ==> DecodePair(EncodePair(o).value) == Ok((Upper(o.0), Upper(o.1)))
  {
    DecodeEncode(Upper(o.0), 0);
    DecodeEncode(Upper(o.1), 0);
  }

  /** Any spelling of two outcome names, in any case, encodes to their
      codes and decodes to their upper-case names. */
  lemma EncodeAnyCase(a: string, b: string, x: Outcome, y: Outcome)
    requires Upper(a) == Name(x) && Upper(b) == Name(y)
    ensures EncodePair((a, b)) == Ok((CodeOf(x), CodeOf(y)))
    ensures DecodePair((CodeOf(x), CodeOf(y))) == Ok((Name(x), Name(y)))
  {
  }

  /** The labels popper's `decide_outcome` returns encode to the codes of
      their outcomes. */
  lemma EncodeLabels(o: (Outcome, Outcome))
    ensures EncodePair((Label(o.0), Label(o.1))) == Ok((CodeOf(o.0), CodeOf(o.1)))
  {
    EncodeAnyCase(Label(o.0), Label(o.1), o.0, o.1);
  }

  // ---------------------------------------------------------------------------
  // set_parameters
  // ---------------------------------------------------------------------------

  /** The first parameter array, by the kind of its elements: text strings
      (numpy kinds 'U' and 'O'), byte strings (kind 'S', which `tolist`
      turns into `bytes`) or numbers. */
  datatype Array = Texts(texts: seq<string>) | ByteTexts(items: seq<seq<bv8>>) | Numbers(numbers: seq<int>)

  function Size(a: Array): nat {
    match a
    case Texts(ts) => |ts|
    case ByteTexts(bs) => |bs|
    case Numbers(ns) => |ns|
  }

  /** The rules that parse, in order; the others are dropped. */
  function Parsed(ts: seq<string>): (r: seq<Clause>)
    ensures |r| <= |ts|
    ensures forall c :: c in r <==> exists i :: 0 <= i < |ts| && Transform(ts[i]) == Some(c)
  {
    Collect(ts, Transform)
  }

  /** The results `read` gives, in order, skipping the texts it rejects. */
  function Collect(ts: seq<string>, read: string -> Option<Clause>): (r: seq<Clause>)
    ensures |r| <= |ts|
    ensures forall c :: c in r <==> exists i :: 0 <= i < |ts| && read(ts[i]) == Some(c)
    decreases |ts|
  {
    if |ts| == 0 then []
    else
      var rest := Collect(ts[1..], read);
      assert forall i :: 1 <= i < |ts| ==> ts[i] == ts[1..][i - 1];
      match read(ts[0])
      case Some(c) => [c] + rest
      case None => rest
  }

  /** When every text is read, one result per text comes out, in order. */
  lemma {:induction false} CollectEach(ts: seq<string>, read: string -> Option<Clause>)
    requires forall i :: 0 <= i < |ts| ==> read(ts[i]).Some?
    ensures |Collect(ts, read)| == |ts|
    ensures forall i :: 0 <= i < |ts| ==> Collect(ts, read)[i] == read(ts[i]).value
    decreases |ts|
  {
    if |ts| > 0 {
      assert forall i :: 1 <= i < |ts| ==> ts[1..][i - 1] == ts[i];
      CollectEach(ts[1..], read);
    }
  }

  /** `set_parameters`: no array, an empty one or one that does not hold
      strings gives no rules; otherwise each string is transformed and the
      failures are dropped. A byte string makes `split(":-")` raise
      TypeError inside `transform_rule_to_tester_format`, which returns
      `None` for it, so byte strings give no rules either. */
  function SetParameters(params: seq<Array>): (r: seq<Clause>)
    ensures |params| == 0 || Size(params[0]) == 0 || !params[0].Texts? ==> r == []
    ensures |params| > 0 && params[0].Texts? ==> |r| <= |params[0].texts|
    ensures |params| > 0 && params[0].Texts? ==>
              forall c :: c in r <==> exists i :: 0 <= i < |params[0].texts| && Transform(params[0].texts[i]) == Some(c)
  {
    if |params| == 0 || Size(params[0]) == 0 then []
    else
      match params[0]
      case Numbers(_) => []
      case ByteTexts(_) => []
      case Texts(ts) => Parsed(ts)
  }

  /** Rules sent as `Clause.to_code` texts arrive whole: one clause per
      text, each with the same head and body. */
  lemma ParsedCodes(cs: seq<Clause>, ts: seq<string>)
    requires |ts| == |cs|
    requires forall i :: 0 <= i < |cs| ==> ClauseCode(cs[i]) == Ok(ts[i])
    requires forall i :: 0 <= i < |cs| ==>
               cs[i].head.Some? && Printable(cs[i].head.value) &&
               forall j :: 0 <= j < |cs[i].body| ==> Printable(cs[i].body[j])
    ensures |Parsed(ts)| == |cs|
    ensures forall i :: 0 <= i < |cs| ==> SameClause(Parsed(ts)[i], cs[i])
  {
    forall i | 0 <= i < |cs| ensures Transform(ts[i]).Some? && SameClause(Transform(ts[i]).value, cs[i]) {
      TransformClauseCode(cs[i]);
    }
    CollectEach(ts, Transform);
  }

  /** Two clauses with the same head and body, literal by literal, compared
      by predicate and arguments. */
  predicate SameClause(d: Clause, c: Clause) {
    && d.head.Some? == c.head.Some?
    && (d.head.Some? ==> Key(d.head.value) == Key(c.head.value))
    && |d.body| == |c.body|
    && forall i :: 0 <= i < |c.body| ==> Key(d.body[i]) == Key(c.body[i])
  }

  // ---------------------------------------------------------------------------
  // fedpopper/client2.py: fit replies with the confusion matrix
  // ---------------------------------------------------------------------------

  datatype Reply = Reply(payload: seq<int>, weight: int)

  function MatrixPayload(m: ConfMatrix): seq<int> {
    [m.tp, m.fn, m.tn, m.fp]
  }

  /** How the server can read a matrix payload back. */
  function MatrixOf(p: seq<int>): (r: Option<ConfMatrix>)
    ensures r.Some? <==> |p| == 4 && p[0] >= 0 && p[1] >= 0 && p[2] >= 0 && p[3] >= 0
  {
    if |p| == 4 && p[0] >= 0 && p[1] >= 0 && p[2] >= 0 && p[3] >= 0
    then Some(ConfMatrix(p[0], p[1], p[2], p[3]))
    else None
  }

  lemma MatrixOfPayload(m: ConfMatrix)
    ensures MatrixOf(MatrixPayload(m)) == Some(m)
  {
  }

  /** `fit` of fedpopper/client2.py: with no rules the zero matrix and
      weight 0; otherwise the tester's matrix, weighted by the number of
      examples it covers. */
  function FitMatrix(params: seq<Array>, test: Program -> Result<ConfMatrix>): (r: Result<Reply>)
    ensures SetParameters(params) == [] ==> r == Ok(Reply([0, 0, 0, 0], 0))
    ensures SetParameters(params) != [] ==> (r.Ok? <==> test(SetParameters(params)).Ok?)
    ensures SetParameters(params) != [] && r.Ok? ==>
              var m := test(SetParameters(params)).value;
              && MatrixOf(r.value.payload) == Some(m)
              && r.value.weight == m.tp + m.fn + m.tn + m.fp
  {
    var rules := SetParameters(params);
    if rules == [] then Ok(Reply([0, 0, 0, 0], 0))
    else
      var m :- test(rules);
      MatrixOfPayload(m);
      Ok(Reply(MatrixPayload(m), m.tp + m.fn + m.tn + m.fp))
  }

  /** The local diagnostic fedpopper/client2.py prints. */
  datatype Diagnostic = PerfectRule | UselessRule | PartialRule | OtherOutcome

  function Diagnose(m: ConfMatrix): (d: Diagnostic)
    ensures d == PerfectRule <==> Perfect(m)
    ensures d != OtherOutcome
  {
    if m.fn == 0 && m.fp == 0 then PerfectRule
    else if m.fn > 0 && m.tp == 0 then UselessRule
    else PartialRule
  }

  /** The diagnostic follows `decide_outcome`, except that a rule covering
      every positive and some negative is called partial. */
  lemma DiagnoseByOutcome(m: ConfMatrix)
    ensures Diagnose(m) == PerfectRule <==> DecideOutcome(m) == (ALL, NONE)
    ensures Diagnose(m) == UselessRule <==> DecideOutcome(m).0 == NONE
    ensures Diagnose(m) == PartialRule <==> DecideOutcome(m).0 == SOME || DecideOutcome(m) == (ALL, SOME)
  {
  }

  // ---------------------------------------------------------------------------
  // fedpopper/client3.py: fit replies with the encoded outcome
  // ---------------------------------------------------------------------------

  /** What `register_program`, `register_best_program` and
      `register_solution` record. */
  datatype Tested = Tested(program: Program, matrix: ConfMatrix)

  datatype ClientState = ClientState(
    encoded: Option<(int, int)>,
    bestScore: Option<nat>,
    tested: seq<Tested>,
    best: seq<Tested>,
    solutions: seq<Tested>)

  /** A client before its first round. */
  const Fresh := ClientState(None, None, [], [], [])

  /** `get_parameters`: the last encoded outcome, or an empty array before
      any `fit` computed one. */
  function GetParameters(st: ClientState): (r: seq<int>)
    ensures r == [] <==> st.encoded.None?
    ensures st.encoded.Some? ==> r == [st.encoded.value.0, st.encoded.value.1]
  {
    match st.encoded
    case None => []
    case Some((a, b)) => [a, b]
  }

  datatype Fitted = Fitted(state: ClientState, reply: Reply)

  /** The bookkeeping after a test: the program is recorded, and becomes
      the best one (and, if perfect, a solution) only when its score beats
      the best so far. */
  function Register(st: ClientState, rules: Program, m: ConfMatrix): (r: ClientState)
    ensures r.tested == st.tested + [Tested(rules, m)]
    ensures r.bestScore != st.bestScore ==> r.bestScore == Some(CalcScore(m))
    ensures r.best != st.best <==> st.bestScore.None? || CalcScore(m) > st.bestScore.value
    ensures r.best != st.best ==> r.best == st.best + [Tested(rules, m)] && r.bestScore == Some(CalcScore(m))
    ensures r.solutions != st.solutions <==>
              (st.bestScore.None? || CalcScore(m) > st.bestScore.value) && DecideOutcome(m) == (ALL, NONE)
    ensures r.solutions != st.solutions ==> r.solutions == st.solutions + [Tested(rules, m)]
    ensures r.encoded == st.encoded
  {
    var score := CalcScore(m);
    var st1 := st.(tested := st.tested + [Tested(rules, m)]);
    if st.bestScore.None? || score > st.bestScore.value then
      var solutions := if DecideOutcome(m) == (ALL, NONE) then st.solutions + [Tested(rules, m)] else st.solutions;
      st1.(bestScore := Some(score), best := st.best + [Tested(rules, m)], solutions := solutions)
    else st1
  }

  /** `fit` of fedpopper/client3.py: with no rules the pair (NONE, NONE) is
      stored and sent; otherwise the rules are tested, registered and their
      outcome stored and sent. The weight is the number of examples. */
  function FitOutcome(st: ClientState, params: seq<Array>, test: Program -> Result<ConfMatrix>,
                      numExamples: nat): (r: Result<Fitted>)
    ensures SetParameters(params) == [] ==>
              r == Ok(Fitted(st.(encoded := Some((CodeOf(NONE), CodeOf(NONE)))),
                             Reply([CodeOf(NONE), CodeOf(NONE)], numExamples)))
    ensures SetParameters(params) != [] ==> (r.Ok? <==> test(SetParameters(params)).Ok?)
    ensures SetParameters(params) != [] && r.Ok? ==>
              var m := test(SetParameters(params)).value;
              var o := DecideOutcome(m);
              && r.value.state == Register(st, SetParameters(params), m).(encoded := Some((CodeOf(o.0), CodeOf(o.1))))
              && r.value.reply == Reply([CodeOf(o.0), CodeOf(o.1)], numExamples)
    ensures r.Ok? ==> r.value.reply.payload == GetParameters(r.value.state)
  {
    var rules := SetParameters(params);
    if rules == [] then
      var enc := (CodeOf(NONE), CodeOf(NONE));
      Ok(Fitted(st.(encoded := Some(enc)), Reply([enc.0, enc.1], numExamples)))
    else
      var m :- test(rules);
      var o := DecideOutcome(m);
      var st1 := Register(st, rules, m);
      EncodeAnyCase(Label(o.0), Label(o.1), o.0, o.1);
      var enc := EncodePair((Label(o.0), Label(o.1)));
      if enc.Err? then Err(KeyError)
      else Ok(Fitted(st1.(encoded := Some(enc.value)), Reply([enc.value.0, enc.value.1], numExamples)))
  }

  /** The registers a client keeps stay consistent: best programs have
      strictly increasing scores, the best score is the last one's, and
      every solution is a perfect best program. */
  ghost predicate Consistent(st: ClientState) {
    && (forall i, j :: 0 <= i < j < |st.best| ==> CalcScore(st.best[i].matrix) < CalcScore(st.best[j].matrix))
    && (st.bestScore.None? <==> st.best == [])
    && (st.bestScore.Some? ==> st.bestScore.value == CalcScore(st.best[|st.best| - 1].matrix))
    && (forall s :: s in st.solutions ==> s in st.best && Perfect(s.matrix))
  }

  lemma FreshConsistent()
    ensures Consistent(Fresh)
    ensures GetParameters(Fresh) == []
  {
  }

  /** Every round keeps the registers consistent and leaves an outcome to
      send. */
  lemma FitKeepsConsistent(st: ClientState, params: seq<Array>, test: Program -> Result<ConfMatrix>, numExamples: nat)
    requires Consistent(st)
    requires FitOutcome(st, params, test, numExamples).Ok?
    ensures Consistent(FitOutcome(st, params, test, numExamples).value.state)
    ensures |GetParameters(FitOutcome(st, params, test, numExamples).value.state)| == 2
  {
    var rules := SetParameters(params);
    if rules != [] {
      var m := test(rules).value;
      RegisterKeepsConsistent(st, rules, m);
    }
  }

  lemma RegisterKeepsConsistent(st: ClientState, rules: Program, m: ConfMatrix)
    requires Consistent(st)
    ensures Consistent(Register(st, rules, m))
  {
    var r := Register(st, rules, m);
    if r.best != st.best {
      forall i, j | 0 <= i < j < |r.best|
        ensures CalcScore(r.best[i].matrix) < CalcScore(r.best[j].matrix)
      {
        if j == |r.best| - 1 && i < |st.best| {
          assert CalcScore(st.best[i].matrix) <= CalcScore(st.best[|st.best| - 1].matrix);
        }
      }
      forall s | s in r.solutions ensures s in r.best && Perfect(s.matrix) {
        if s !in st.solutions {
          PerfectIffAllNone(m);
        }
      }
    }
  }

  // ---------------------------------------------------------------------------
  // fedpopper2clients/client1.py: fit replies with outcome and score
  // ---------------------------------------------------------------------------

  /** `fit` of fedpopper2clients/client1.py: with no rules the payload
      [NONE, NONE, 0] and weight 0; otherwise the encoded outcome of the
      tested rules, their score, and weight 1. */
  function FitScore(params: seq<Array>, test: Program -> Result<ConfMatrix>): (r: Result<Reply>)
    ensures SetParameters(params) == [] ==> r == Ok(Reply([CodeOf(NONE), CodeOf(NONE), 0], 0))
    ensures SetParameters(params) != [] ==> (r.Ok? <==> test(SetParameters(params)).Ok?)
    ensures SetParameters(params) != [] && r.Ok? ==>
              var m := test(SetParameters(params)).value;
              r.value == Reply([CodeOf(DecideOutcome(m).0), CodeOf(DecideOutcome(m).1), CalcScore(m)], 1)
  {
    var rules := SetParameters(params);
    if rules == [] then Ok(Reply([CodeOf(NONE), CodeOf(NONE), 0], 0))
    else
      var m :- test(rules);
      var feedback := Feedback(m);
      if feedback.Err? then Err(KeyError) else Ok(Reply(feedback.value, 1))
  }

  /** The payload `[OUTCOME_ENCODING[eps_plus.upper()],
      OUTCOME_ENCODING[eps_minus.upper()], score]`: the codes of the
      outcome and the score. */
  function Feedback(m: ConfMatrix): (r: Result<seq<int>>)
    ensures r == Ok([CodeOf(DecideOutcome(m).0), CodeOf(DecideOutcome(m).1), CalcScore(m)])
  {
    var o := DecideOutcome(m);
    var enc := EncodePair((Label(o.0), Label(o.1)));
    EncodeLabels(o);
    if enc.Err? then Err(KeyError) else Ok([enc.value.0, enc.value.1, m.tp + m.tn])
  }

  /** The local diagnostic fedpopper2clients/client1.py prints, read off
      the outcome. */
  function DiagnoseOutcome(o: (Outcome, Outcome)): (d: Diagnostic)
    ensures d == PerfectRule <==> o == (ALL, NONE)
    ensures d == UselessRule <==> o.0 == NONE
    ensures d == PartialRule <==> o.0 == SOME
  {
    if o.0 == ALL && o.1 == NONE then PerfectRule
    else if o.0 == NONE then UselessRule
    else if o.0 == SOME then PartialRule
    else OtherOutcome
  }

  /** The two diagnostics differ only on a rule that covers every positive
      and some negative. */
  lemma DiagnosticsAgree(m: ConfMatrix)
    ensures Diagnose(m) == DiagnoseOutcome(DecideOutcome(m)) <==> DecideOutcome(m) != (ALL, SOME)
  {
  }

  /** What the score client sends is a function of what the matrix client
      sends: its outcome codes and its score `tp + tn`. */
  lemma ScoreReplyFromMatrixReply(params: seq<Array>, test: Program -> Result<ConfMatrix>)
    requires SetParameters(params) != []
    ensures FitScore(params, test).Ok? <==> FitMatrix(params, test).Ok?
    ensures FitMatrix(params, test).Ok? ==>
              var m := MatrixOf(FitMatrix(params, test).value.payload).value;
              && FitScore(params, test).value.payload == [CodeOf(DecideOutcome(m).0), CodeOf(DecideOutcome(m).1), CalcScore(m)]
              && DecodePair((FitScore(params, test).value.payload[0], FitScore(params, test).value.payload[1]))
                 == Ok((Name(DecideOutcome(m).0), Name(DecideOutcome(m).1)))
  {
  }

  // ---------------------------------------------------------------------------
  // evaluate
  // ---------------------------------------------------------------------------

  /** A quotient `num / den` with a positive denominator, kept exact. */
  datatype Fraction = Fraction(num: nat, den: nat)

  /** (loss, number of examples, accuracy). */
  datatype Evaluation = Evaluation(loss: Fraction, examples: nat, accuracy: Fraction)

  /** fedpopper2clients/client1.py: `(tp + tn) / total if total > 0 else
      0.0`. */
  function Accuracy(m: ConfMatrix): (a: Fraction)
    ensures a.den > 0 && a.num <= a.den
    ensures a.num == a.den <==> m.tp + m.fn + m.tn + m.fp > 0 && Perfect(m)
  {
    var total := m.tp + m.fn + m.tn + m.fp;
    if total > 0 then Fraction(m.tp + m.tn, total) else Fraction(0, 1)
  }

  /** fedpopper/client3.py and fedpopper/client2.py: the total is replaced
      by 1 when it is 0 before dividing. */
  function GuardedAccuracy(m: ConfMatrix): Fraction {
    var sum := m.tp + m.fn + m.tn + m.fp;
    var total := if sum > 0 then sum else 1;
    Fraction(m.tp + m.tn, total)
  }

  /** The two ways of guarding the division agree. */
  lemma AccuraciesAgree(m: ConfMatrix)
    ensures GuardedAccuracy(m) == Accuracy(m)
  {
  }

  /** `1 - accuracy`. */
  function Complement(a: Fraction): (r: Fraction)
    requires a.num <= a.den
    ensures r.den == a.den && r.num + a.num == a.den
  {
    Fraction(a.den - a.num, a.den)
  }

  /** The evaluation of one tested matrix: loss is one minus the accuracy
      over every tested example. */
  function EvaluateMatrix(m: ConfMatrix): (e: Evaluation)
    ensures e.examples == m.tp + m.fn + m.tn + m.fp
    ensures e.loss.den == e.accuracy.den > 0
    ensures e.loss.num + e.accuracy.num == e.accuracy.den
    ensures e.loss.num == 0 <==> e.examples > 0 && Perfect(m)
  {
    var accuracy := Accuracy(m);
    Evaluation(Complement(accuracy), m.tp + m.fn + m.tn + m.fp, accuracy)
  }

  /** `evaluate` of fedpopper2clients/client1.py on
      the rules `set_parameters` stored: with no rules loss 1, no examples
      and accuracy 0; otherwise it fails only where the test does. */
  function EvaluateRules(rules: Program, test: Program -> Result<ConfMatrix>): (r: Result<Evaluation>)
    ensures rules == [] ==> r == Ok(Evaluation(Fraction(1, 1), 0, Fraction(0, 1)))
    ensures rules != [] ==> (r.Ok? <==> test(rules).Ok?)
    ensures r.Err? ==> rules != [] && r.error == test(rules).error
    ensures rules != [] && r.Ok? ==> r.value == EvaluateMatrix(test(rules).value)
  {
    if rules == [] then Ok(Evaluation(Fraction(1, 1), 0, Fraction(0, 1)))
    else
      var m :- test(rules);
      Ok(EvaluateMatrix(m))
  }

  /** `evaluate` of fedpopper2clients/client1.py. */
  function Evaluate(params: seq<Array>, test: Program -> Result<ConfMatrix>): (r: Result<Evaluation>)
    ensures r.Ok? ==> r.value.loss.den == r.value.accuracy.den > 0
    ensures r.Ok? ==> r.value.loss.num + r.value.accuracy.num == r.value.accuracy.den
  {
    EvaluateRules(SetParameters(params), test)
  }

  /** `evaluate` of fedpopper/client3.py on the rules `set_parameters`
      stored: the same evaluation as fedpopper2clients/client1.py, after
      which the tested rules and matrix are saved to the results file.
      With no rules nothing is saved. */
  function EvaluateRules3(rules: Program, test: Program -> Result<ConfMatrix>, file: ResultTable.CsvFile,
                          timestamp: string, client: string, dataset: string): (r: Result<(Evaluation, ResultTable.CsvFile)>)
    ensures rules == [] ==> r == Ok((Evaluation(Fraction(1, 1), 0, Fraction(0, 1)), file))
    ensures r.Ok? ==> EvaluateRules(rules, test) == Ok(r.value.0)
    ensures test(rules).Err? && rules != [] ==> r.Err? && r.error == test(rules).error
    ensures rules != [] && r.Ok? ==> r.value.1.Table? && r.value.1.fieldnames == Some(ResultTable.Expected3)
  {
    if rules == [] then Ok((Evaluation(Fraction(1, 1), 0, Fraction(0, 1)), file))
    else
      var m :- test(rules);
      var saved :- ResultTable.Save3(file, timestamp, client, dataset, rules, m);
      Ok((EvaluateMatrix(m), saved))
  }

  /** On a results file as a reader produces it, client3's evaluation fails
      only where the test does or a rule cannot be printed, and the file then
      holds the other keys' rows followed by this client's new row. */
  lemma EvaluateRules3Saves(rules: Program, test: Program -> Result<ConfMatrix>, file: ResultTable.CsvFile,
                            timestamp: string, client: string, dataset: string)
    requires rules != [] && test(rules).Ok?
    requires ResultTable.ReaderShaped(file) && ResultTable.RuleString(rules).Ok?
    ensures EvaluateRules3(rules, test, file, timestamp, client, dataset).Ok?
    ensures EvaluateRules3(rules, test, file, timestamp, client, dataset).value.1
         == ResultTable.Table(Some(ResultTable.Expected3),
              ResultTable.KeepOthers(ResultTable.Load3(file), client, dataset).value
              + [ResultTable.BaseRow(timestamp, client, dataset, ResultTable.RuleString(rules).value, test(rules).value)])
  {
    ResultTable.Save3Succeeds(file, timestamp, client, dataset, rules, test(rules).value);
  }

  /** `evaluate` of fedpopper/client3.py. */
  function Evaluate3(params: seq<Array>, test: Program -> Result<ConfMatrix>, file: ResultTable.CsvFile,
                     timestamp: string, client: string, dataset: string): (r: Result<(Evaluation, ResultTable.CsvFile)>)
    ensures r.Ok? ==> r.value.0.loss.num + r.value.0.accuracy.num == r.value.0.accuracy.den
  {
    EvaluateRules3(SetParameters(params), test, file, timestamp, client, dataset)
  }

  /** The recall `tp / (tp + fn)` of fedpopper/client2.py as written, with no
      guard. */
  function EvaluateMatrixWithRecall(m: ConfMatrix): (r: Result<Evaluation>)
    ensures r.Err? <==> m.tp + m.fn == 0
    ensures r.Err? ==> r.error == ZeroDivision
    ensures r.Ok? ==> r.value == EvaluateMatrix(m)
  {
    var accuracy := GuardedAccuracy(m);
    AccuraciesAgree(m);
    if m.tp + m.fn == 0 then Err(ZeroDivision)
    else Ok(Evaluation(Complement(accuracy), m.tp + m.fn + m.tn + m.fp, accuracy))
  }

  /** `evaluate` of fedpopper/client2.py as written on the stored rules: it
      also computes the unguarded recall, which divides by zero when the
      client holds no positive example. */
  function EvaluateRulesWithRecall(rules: Program, test: Program -> Result<ConfMatrix>): (r: Result<Evaluation>)
    ensures rules == [] ==> r == Ok(Evaluation(Fraction(1, 1), 0, Fraction(0, 1)))
    ensures rules != [] && test(rules).Ok? ==> (r.Err? <==> test(rules).value.tp + test(rules).value.fn == 0)
    ensures r.Err? && test(rules).Ok? ==> r.error == ZeroDivision
  {
    if rules == [] then Ok(Evaluation(Fraction(1, 1), 0, Fraction(0, 1)))
    else
      var m :- test(rules);
      EvaluateMatrixWithRecall(m)
  }

  /** `evaluate` of fedpopper/client2.py as written. */
  function EvaluateWithRecall(params: seq<Array>, test: Program -> Result<ConfMatrix>): (r: Result<Evaluation>)
    ensures r.Ok? ==> r.value.loss.den == r.value.accuracy.den > 0
  {
    EvaluateRulesWithRecall(SetParameters(params), test)
  }

  /** Where it does not fail, it agrees with the other clients. */
  lemma RecallVariantAgrees(rules: Program, test: Program -> Result<ConfMatrix>)
    ensures EvaluateRulesWithRecall(rules, test).Ok? ==> EvaluateRulesWithRecall(rules, test) == EvaluateRules(rules, test)
  {
  }

  /** A client whose examples are all negative cannot be evaluated by
      fedpopper/client2.py, although the guarded evaluation scores a rule
      rejecting them all as perfect. */
  lemma NoPositivesBreaksRecall(rules: Program, m: ConfMatrix)
    requires rules != [] && m.tp == 0 && m.fn == 0 && m.fp == 0 && m.tn > 0
    ensures EvaluateRulesWithRecall(rules, _ => Ok(m)) == Err(ZeroDivision)
    ensures EvaluateRules(rules, _ => Ok(m)).Ok?
    ensures EvaluateRules(rules, _ => Ok(m)).value.loss.num == 0
  {
  }
}
