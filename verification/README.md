# Popper's learning loop and its federated variants, in Dafny

This project models the core of a federated extension of Popper, an
inductive logic programming system that learns Prolog programs by a
generate–test–constrain loop:

- **generate**: an answer-set solver proposes a program, and
  `generate_program` decodes the model's `head_literal`/`body_literal`
  atoms into clauses;
- **test**: a Prolog-backed tester counts the positive and negative examples
  the program covers, and `decide_outcome` reads the confusion matrix as a
  pair of outcomes (ALL/SOME/NONE);
- **constrain**: `build_rules` turns the outcome into constraint families
  (generalisation, specialisation, redundancy, banish), and
  `ground_rules` grounds them for the solver.

On top of that loop the repository has:

- three centralised scripts that run the loop over several datasets and
  aggregate their outcomes;
- Flower clients that receive rules as text, test them locally, and report
  a confusion matrix, an encoded outcome or a score;
- the clients' CSV results table.

Structure of the project, one module per source unit:

| module | file | models |
|---|---|---|
| `Wrappers` | wrappers.dfy | `Option`, `Result`, and the Python exceptions as an `Error` enum |
| `Strings` | strings.dfy | `str.strip`, `rstrip`, `split`, `join`, `upper` |
| `Core` | core.dfy | popper/core.py: literals, clauses, equality, variables, grounding, `from_string`/`to_code` |
| `Ordering` | ordering.dfy | popper/core.py `Clause.to_ordered` |
| `Generate` | generate.dfy | popper/generate.py |
| `Outcomes` | outcomes.dfy | popper/loop.py `decide_outcome`, `calc_score`, `OUTCOME_TO_CONSTRAINTS` |
| `Constraints` | constraints.dfy | popper/loop.py `build_rules`, `ground_rules` |
| `Search` | search.dfy | popper/loop.py `popper`, `learn_solution` |
| `Tester` | tester.dfy | popper/tester.py |
| `Stubs` | stubs.dfy | popper/structural_tester.py, popper/dummy_tester.py |
| `OutcomeLabels` | labels.dfy | outcome labels and names; Python string order |
| `TableAggregation` | aggregate.dfy | centralizedlearning/aggregate.py |
| `EncodedAggregation` | encoded.dfy | centralizedlearning/testing.py |
| `LabelAggregation` | labelagg.dfy | centralizedlearning/aggtest.py |
| `AggregationRules` | rules.dfy | how the three scripts' aggregation rules compare |
| `CentralScript` | script.dfy | centralizedlearning/test.py |
| `RuleText` | ruletext.dfy | the clients' `parse_clause` and `transform_rule_to_tester_format` |
| `FedClient` | fedclient.dfy | the clients' `FlowerClient` (fedpopper/client2.py, fedpopper/client3.py, fedpopper2clients/client1.py) |
| `ResultTable` | results.dfy | `save_client_result` |

Components whose code is not part of this model enter as parameters:

- the answer-set solver is the sequence of models it returns;
- the constraint constructors of `Constrain` form a record of functions;
- Prolog's answers are a success-set function and a redundancy predicate;
- the grounder's `find_bindings` is a function from clause to assignments.

Every fact proved holds for every choice of these parameters.

How the code behaves, stated by the contracts below:

- **`build_rules`, generalisation family.** It passes `[rule]`, where `rule`
  is the loop variable left over from the debug loop above it. The family is
  therefore built from the program's *last* clause only, and the call raises
  `UnboundLocalError` for an empty program (`Constraints.FamilyRules`,
  `Constraints.GeneralisationUsesLastClause`).
- **`to_ordered`.** The early return compares a frozenset with a list and
  never fires. The failure message names `self` inside a static method, so
  the error raised is a `NameError` rather than `ValueError`. Ordering fails
  exactly when no valid order exists (`Ordering.ToOrderedSucceedsIff`).
- **`generate_program`.**
  - A `direction_`, `before` or `min_clause` atom that passes the
    second-argument filter has a non-numeric second argument, so reading
    `.number` raises. `before` and `min_clause` are therefore always empty,
    and every mode is '?' (`Generate.DirectionBeforeMinNeverRecorded`,
    `Generate.DecodedModesUnknown`).
  - It follows that a decoded clause is always orderable
    (`Ordering.NoInputsAlwaysOrdered`).
- **The three centralised scripts aggregate by three different rules.**
  - aggregate.py lets ALL win.
  - testing.py lets NONE win: its codes put NONE highest.
  - aggtest.py lets SOME win: Python's `max` on the labels sorts 'some'
    last.
  - `AggregationRules` states on which pairs each two of them agree.
- **centralizedlearning/testing.py.**
  - It feeds `generate_program` pairs whose second component is a tuple.
    Any constraint with a body therefore makes it raise, and otherwise the
    empty model yields no rules.
  - Its loop body runs exactly once (`EncodedAggregation.Pipeline`).
- **centralizedlearning/test.py.** It never appends to `converted_model`,
  so it always prints no rules (`CentralScript.Script`,
  `CentralScript.ConvertLoop`).
- **centralizedlearning/aggtest.py.**
  - It builds every dataset's constraints with the last dataset's `before`
    and `min_clause`. This is harmless, because both are always empty
    (`LabelAggregation.LearnedSound`).
  - It prints the last dataset's improved rules under every dataset's
    heading (`LabelAggregation.Script`).
- **fedpopper2clients/client1.py.** Lines 39-172 (`parse_clause`,
  `transform_rule_to_tester_format`, `CSV_COLUMNS`, `save_client_result`)
  are identical to those of fedpopper/client2.py. The rows below cite
  client2.

The three clients differ in what they reply:

- client2's `fit` replies with the confusion matrix;
- client3's `fit` replies with the encoded outcome;
- client1's `fit` replies with the outcome and the score;
- client2's `get_parameters` always sends an empty array: the encoding
  variant is inside a string literal.

## Model

| member | source | states |
|---|---|---|
| `Core.LiteralEquals` | popper/core.py:114-123 | Equality with `None` is false; otherwise literals are equal exactly when predicate and arguments agree |
| `Core.EqualityIgnoresAnnotations` | popper/core.py:114-123 | Changing directions, polarity or the meta flag never changes equality, in either direction |
| `Core.EqualityIsEquivalence` | popper/core.py:114-123 | Literal equality is reflexive, symmetric and transitive |
| `Core.InputsOutputsBounds` | popper/core.py:60-68 | Inputs and outputs are drawn from the arguments; with every direction unknown there are none |
| `Core.IsRecursive` | popper/core.py:164-168 | A clause is recursive exactly when it has a head whose predicate occurs among the body predicates |
| `Core.IsSeparable` | popper/core.py:171-177 | Raises AttributeError exactly for a headless clause; otherwise separable iff not recursive and the head predicate does not start with "inv" |
| `Core.RecursiveNotSeparable` | popper/core.py:171-173 | A clause whose head predicate appears in its body is never separable |
| `Core.ClauseHash` | popper/core.py:155-161 | Every body literal's key is among the hashed body keys |
| `Core.ClauseHashIgnoresBodyOrder` | popper/core.py:155-161 | Reordering or permuting the body never changes the clause hash |
| `Core.ShallowVars` | popper/core.py:50-56 | The variables seen in one argument are the argument itself or the variables directly inside a tuple |
| `Core.FindAllVars` | popper/core.py:47-57 | Exactly the variables that occur as a body argument or one level inside a tuple argument |
| `Core.AllVarsIsHeadArgsPlusBodyVars` | popper/core.py:188-201 | `all_vars` is every head argument plus what `find_all_vars` finds in the body |
| `Core.GroundLiteral` | popper/core.py:8-26 | Keeps polarity, predicate and arity; a bound argument is replaced, a tuple has its bound elements replaced, anything else stays |
| `Core.GroundArgNoVar` | popper/core.py:8-26 | Binding every shallow variable of an argument to variable-free values leaves no variable in it |
| `Core.GroundingCoversAllVars` | popper/core.py:8-57 | An assignment covering `find_all_vars` with variable-free values grounds the body completely |
| `Core.FromStringOfShape` | popper/core.py:75-79 | Parsing `p(b)` gives predicate `p` and the comma-separated pieces of `b` as arguments |
| `Core.ToCodeFromString` | popper/core.py:71-79 | Printing a parsed `p(b)` gives back the same text |
| `Core.FromStringToCode` | popper/core.py:71-79 | Parsing a printed literal with plain argument names gives a literal equal to it |
| `Ordering.DedupFrom` | popper/core.py:208 | The scan behind `set(body)`: pairwise distinct, drawn from the body, covering every key not yet seen |
| `Ordering.Dedup` | popper/core.py:208 | `set(body)` keeps one literal per key, each drawn from the body, and loses no key |
| `Ordering.DedupFromKeepsFirst` | popper/core.py:208 | Of several equal literals, the scan keeps the first occurrence |
| `Ordering.DedupKeepsFirst` | popper/core.py:208 | Of several equal literals, `set(body)` keeps the first one |
| `Ordering.RemoveKey` | popper/core.py:232 | Removing the selected literal drops exactly the literals equal to it, keeps distinctness and shrinks the set |
| `Ordering.SelectFrom` | popper/core.py:215-224 | The scan finds a ready literal exactly when one exists; a non-recursive pick is the first ready non-recursive literal; a recursive pick means none of those is ready |
| `Ordering.Select` | popper/core.py:214-224 | The selected literal is ready; none is selected only when none is ready; non-recursive ready literals take precedence |
| `Ordering.Place` | popper/core.py:213-232 | The `while` loop either raises the ordering error or places at most the pending literals |
| `Ordering.PlaceSound` | popper/core.py:213-232 | What the loop places is a valid order, one literal per key, of exactly the pending literals |
| `Ordering.PlaceValid` | popper/core.py:213-232 | Each placed literal is ready once those before it have bound their outputs |
| `Ordering.PlaceMembers` | popper/core.py:213-232 | Only pending literals are placed, and every pending key is placed |
| `Ordering.PlaceDistinct` | popper/core.py:213-232 | No two placed literals are equal |
| `Ordering.PlaceComplete` | popper/core.py:213-228 | The greedy loop never gets stuck while some valid order of the remaining literals exists |
| `Ordering.ToOrdered` | popper/core.py:204-234 | A headless clause raises AttributeError; otherwise it fails only with the ordering error and keeps the head |
| `Ordering.ToOrderedSound` | popper/core.py:204-234 | A reordered body is a valid order of the body's distinct literals, with the same keys |
| `Ordering.ToOrderedComplete` | popper/core.py:226-228 | The ordering error is raised only when no valid order exists |
| `Ordering.ToOrderedSucceedsIff` | popper/core.py:204-234 | Ordering succeeds exactly when the clause has a valid order |
| `Ordering.NoInputsAlwaysOrdered` | popper/core.py:210-217 | A headed clause whose body literals have no inputs is always ordered |
| `Generate.NameOf` | popper/generate.py:42 | `.name` succeeds exactly on function symbols |
| `Generate.NumberOf` | popper/generate.py:41 | `.number` succeeds exactly on number symbols |
| `Generate.ArgumentsOf` | popper/generate.py:44 | `.arguments` succeeds exactly on function symbols |
| `Generate.ArgAt` | popper/generate.py:41-44 | Indexing the arguments succeeds exactly within range and gives that argument |
| `Generate.GenArgs` | popper/generate.py:4-5 | Succeeds exactly when every argument is a number naming a code point; each name is the single letter `chr(65 + n)` |
| `Generate.GenArgsPositional` | popper/generate.py:4-5 | Two generated names are equal exactly when their numbers are equal |
| `Generate.PutHead` | popper/generate.py:55 | Assigning a head adds the id; an existing id keeps its place, a new id goes last |
| `Generate.PutHeadDistinct` | popper/generate.py:55 | Assigning a head keeps one entry per id |
| `Generate.PutHeadLookup` | popper/generate.py:48-55 | After the assignment the id maps to the new head and every other id is unchanged |
| `Generate.AddBody` | popper/generate.py:40-46 | Adding a body literal puts it in its id's set, adds nothing else, and leaves other ids unchanged |
| `Generate.DirectionOf` | popper/generate.py:62-67 | Only 'in' and 'out' are accepted, and they map to known modes |
| `Generate.RecordDirection` | popper/generate.py:57-68 | A direction is recorded only when the argument index is a number |
| `Generate.RecordBefore` | popper/generate.py:70-73 | A `before` fact is recorded only when both clause ids are numbers |
| `Generate.RecordMinClause` | popper/generate.py:75-78 | A `min_clause` fact needs two numbers and keeps the maximum seen for the clause |
| `Generate.RecordDirectionNames` | popper/generate.py:57-68 | An unrecognised direction name raises; a recorded direction is '+' or '-' |
| `Generate.Step` | popper/generate.py:17-78 | An iteration never records directions, `before` or `min_clause`, and keeps one head per id |
| `Generate.FilteredAtomSkipped` | popper/generate.py:22-37 | An atom with fewer than two arguments or a numeric second argument is skipped |
| `Generate.DirectionBeforeMinNeverRecorded` | popper/generate.py:27-78 | A `direction_`, `before` or `min_clause` atom that passes the filter always raises; otherwise it is skipped |
| `Generate.HeadAndBodyUpdate` | popper/generate.py:40-55 | A later head for an id overwrites the earlier one; a body literal is added whether or not the id has a head |
| `Generate.Run` | popper/generate.py:17-78 | The decoded heads have distinct ids, and directions, `before` and `min_clause` stay empty |
| `Generate.BodyOf` | popper/generate.py:87-91 | The body of a clause is a set: no two of its literals are equal |
| `Generate.GenerateProgram` | popper/generate.py:7-94 | A decoded program has only headed clauses, and empty `before` and `min_clause` |
| `Generate.GenerateFrom` | popper/generate.py:7-17 | `None` from a solver that found no model raises TypeError; a model is decoded as `generate_program` does |
| `Generate.ToLiteralUnknown` | popper/generate.py:84-90 | With no recorded direction, a literal's modes are all '?', so it has no inputs or outputs |
| `Generate.DecodedModesUnknown` | popper/generate.py:7-94 | Every decoded head literal has only '?' modes, so no inputs or outputs |
| `Generate.ModesMatchArity` | popper/generate.py:84-89 | A literal's mode tuple has exactly arity entries |
| `Generate.OneClausePerHeadId` | popper/generate.py:48-92 | One clause per distinct head id, in the order the model first names the ids; each clause's head is the last head literal read for its id, with its modes, and its body is that id's body literals; bodies of ids without a head are dropped |
| `Generate.HeadsFirstSeen` | popper/generate.py:17-55 | The decoder lists head ids in the order the model first names them |
| `Generate.PutHeadIds` | popper/generate.py:55 | `clause_id_to_head[id] = lit` keeps the order of the keys and appends a new key |
| `Generate.StepKeepsHeads` | popper/generate.py:17-78 | Only a recorded `head_literal` changes the heads |
| `Generate.EmptyModel` | popper/generate.py:7-94 | The empty model decodes to no clauses |
| `Outcomes.DecideOutcome` | popper/loop.py:51-67 | Positive outcome ALL iff fn = 0, NONE iff tp = 0 < fn, else SOME; negative NONE iff fp = 0, never ALL |
| `Outcomes.CalcScore` | popper/loop.py:156-158 | The score is the number of examples minus the misclassified ones (fn + fp), so exactly tp + tn, at least tp and at least tn |
| `Outcomes.PerfectIffAllNone` | popper/loop.py:51-67 | The outcome is (ALL, NONE) exactly when fn = 0 and fp = 0 |
| `Outcomes.ScoreBound` | popper/loop.py:156-158 | On fixed examples the score is at most their number, and reaches it exactly for outcome (ALL, NONE) |
| `Outcomes.OutcomeToConstraints` | popper/loop.py:24-31 | Defined iff the negative outcome is not ALL; banish iff (ALL, NONE), generalisation iff negative SOME, specialisation iff positive not ALL, redundancy iff positive NONE |
| `Outcomes.Remap` | popper/loop.py:73-74 | A negative ALL becomes SOME; anything else is unchanged |
| `Outcomes.TableTotal` | popper/loop.py:24-31 | The table is defined on every outcome `decide_outcome` yields, and on every remapped pair |
| `Outcomes.TableEntriesDistinct` | popper/loop.py:24-31 | Each table entry lists every family at most once |
| `Constraints.FamilyRules` | popper/loop.py:75-103 | A family raises UnboundLocalError exactly when it is generalisation and the program is empty |
| `Constraints.TableRules` | popper/loop.py:81-103 | The table loop raises only UnboundLocalError |
| `Constraints.RedundantLiteralRules` | popper/loop.py:112-115 | Exactly the redundant-literal constraints of the flagged clauses |
| `Constraints.FirstPass` | popper/loop.py:123-135 | The first per-clause pass raises only AttributeError |
| `Constraints.InconsistentPass` | popper/loop.py:138-141 | The inconsistency pass raises only AttributeError |
| `Constraints.AllSeparable` | popper/loop.py:144 | True exactly when every clause is separable; raises only when some clause is headless and not recursive |
| `Constraints.SecondPass` | popper/loop.py:136-148 | The multi-clause block raises only AttributeError |
| `Constraints.BuildRules` | popper/loop.py:69-152 | `build_rules` raises only UnboundLocalError or AttributeError |
| `Constraints.TableRulesMeaning` | popper/loop.py:81-103 | The table loop fails iff generalisation is asked of an empty program; otherwise it gives the union of the families |
| `Constraints.FirstPassMeaning` | popper/loop.py:123-135 | The first pass fails iff some clause cannot be tested for separability; otherwise it gives every separable clause's constraints |
| `Constraints.InconsistentPassWithin` | popper/loop.py:136-141 | Without a failing clause, the inconsistency pass adds nothing the first pass did not |
| `Constraints.IncompletePassWithin` | popper/loop.py:143-148 | When all clauses are separable, the incompleteness pass adds nothing the first pass did not |
| `Constraints.SecondPassRedundant` | popper/loop.py:123-148 | The multi-clause block only repeats constraints of the first per-clause pass |
| `Constraints.BuildRulesMeaning` | popper/loop.py:69-152 | Result = table families (generalisation from the last clause) + functional and redundancy extras + per-clause constraints of separable clauses; the raise conditions exactly |
| `Constraints.GeneralisationUsesLastClause` | popper/loop.py:75-88 | With negative SOME and a non-empty program, the last clause's generalisation constraints are in the result |
| `Constraints.NonMeta` | popper/loop.py:41 | Exactly the body literals that are not meta |
| `Constraints.StripMeta` | popper/loop.py:36-41 | The head is kept and the body loses exactly its meta literals |
| `Constraints.GroundEach` | popper/loop.py:44-45 | One ground clause per assignment of the constraint without meta literals |
| `Constraints.GroundRules` | popper/loop.py:33-49 | The output is every constraint, meta literals dropped, grounded by every assignment found for it |
| `Constraints.GroundRulesDropMeta` | popper/loop.py:33-49 | Every ground clause grounds some input constraint's head and non-meta body literals under one of its assignments |
| `Search.FirstEmpty` | popper/loop.py:173-178 | At one size the loop reads models until the first empty one or the end of the list: every model before the count is non-empty, the one at the count is empty |
| `Search.Schedule` | popper/loop.py:168-178 | Every model read is non-empty and was read at a size between 1 and `max_literals` |
| `Search.ScheduleSorted` | popper/loop.py:168-173 | Models are read size by size, in increasing order of size |
| `Search.ScheduleMembers` | popper/loop.py:168-178 | A (size, model) pair is read exactly when the size is between 1 and `max_literals` and the model comes before the first empty one at that size |
| `Search.ScheduleOnlyRead` | popper/loop.py:168-178 | Everything read is a model before the first empty one at a searched size |
| `Search.ScheduleReadsAll` | popper/loop.py:168-178 | Every model before the first empty one at a searched size is read |
| `Search.SchedulePrefix` | popper/loop.py:168 | A search with a smaller `max_literals` reads a prefix of what a larger one reads |
| `Search.RunModel` | popper/loop.py:179-206 | Running one model succeeds exactly when `generate_program` and `tester.test` do; a decoding raise is passed on; the program is the decoded one and the matrix is the tester's for it |
| `Search.LearnSolution` | popper/loop.py:219-232 | The solution if any, else the last best program, else nothing |
| `Search.Register` | popper/loop.py:188-198 | Every program is logged as tested; it becomes the best score and newest best program exactly when it beats the best so far |
| `Search.TestedAppend` | popper/loop.py:183-188 | Appending a program tested at the current size keeps the tested list in size order with its tester's matrices |
| `Search.PerfectBeats` | popper/loop.py:190-196 | A perfect program always beats the best score so far |
| `Search.RegisterKeepsInv` | popper/loop.py:188-198 | Registering a program that is not returned as the solution keeps the loop invariant |
| `Search.RegisterKeepsBest` | popper/loop.py:188-198 | Registering such a program keeps the best score equal to the last best program's, the best programs strictly improving and imperfect, and no tested program above the best score |
| `Search.RegisterKeepsNothingPerfect` | popper/loop.py:188-196 | Registering an imperfect program keeps every tested program imperfect |
| `Search.Learn` | popper/loop.py:200-210 | What reaches the solver is exactly the grounding of the rules `build_rules` returns; `build_rules` raising raises the same error |
| `Search.ProcessModel` | popper/loop.py:174-210 | One iteration keeps the invariant and does what `RunModel` says: a raise in `generate_program` or `tester.test` fails with that error and the state unchanged; a perfect program that beats the best is the solution; otherwise the program is registered, and then a raise in `build_rules` fails, or the grounding is added |
| `Search.Conclude` | popper/loop.py:188-210 | After a successful test: the solution exactly when the program is perfect and beats the best; otherwise it is registered, then either `build_rules` raises or its grounding is added |
| `Search.StepFacts` | popper/loop.py:188-210 | A solution was tested at this size, is perfect and beats the best; a continuation has one more program tested and one more constraint set added |
| `Search.Advance` | popper/loop.py:174-210 | One iteration extends the run along the models read: a continuation has tested and learned from one more model, a solution is the next model's program, a raise comes from the next model |
| `Search.StoppedResult` | popper/loop.py:168-213 | A search that ends without a solution reports the last best program, and, when the tester counts each example once, nothing tested was perfect |
| `Search.SolvedResult` | popper/loop.py:190-196 | A search that ends at a solution returns it, after everything tested before it |
| `Search.Popper` | popper/loop.py:160-213 | The programs tested are `generate_program` of the models read, size 1 to `max_literals` and at each size up to the first empty model, with the tester's matrices; the constraints added are those learned from them, in order; an exhausted search tested every model read; a raise comes from the first model not fully processed; tested programs are in size order; best programs strictly improve and none is perfect; a solution is the last program tested and is perfect; the answer is `learn_solution`'s |
| `Tester.Fresh` | popper/tester.py:20-53 | A new tester has the given examples and coherent, empty caches |
| `Tester.SuccessSet` | popper/tester.py:97-102 | Answers from the memo when the rule set was seen, otherwise asks once and remembers; caches only grow |
| `Tester.SuccessSetMemo` | popper/tester.py:97-102 | The memoised answer is always Prolog's answer, and a repeated call asks nothing new |
| `Tester.CountIn` | popper/tester.py:116-126 | The count is between 0 and the list length, 0 iff nothing is covered, full iff everything is |
| `Tester.UnionCovered` | popper/tester.py:108-112 | Exactly the examples in some single rule's success set |
| `Tester.Covered` | popper/tester.py:107-114 | Raises iff the separability test does; per-rule union when all are separable, else the whole program's success set |
| `Tester.Matrix` | popper/tester.py:116-128 | tp + fn is the positives and tn + fp the negatives; tp and fp count the covered ones |
| `Tester.TestResult` | popper/tester.py:104-128 | `test` raises only AttributeError; its matrix counts every example exactly once |
| `Tester.PerfectIffCoversExactly` | popper/tester.py:104-128 | The outcome is (ALL, NONE) exactly when every positive and no negative is covered |
| `Tester.Count` | popper/tester.py:116-126 | The counting loop's hits are the covered examples and hits + misses is the list length |
| `Tester.CoverEach` | popper/tester.py:109-112 | The per-rule loop collects the union of single-rule success sets and keeps the memo sound |
| `Tester.Collect` | popper/tester.py:107-114 | The covered set is the one `Covered` describes, gathered through a sound memo |
| `Tester.Test` | popper/tester.py:104-128 | The method's matrix equals `TestResult`, and the caches stay sound and only grow |
| `Tester.IsTotallyIncomplete` | popper/tester.py:130-133 | Raises iff the rule is headless; true means separable and covering no positive |
| `Tester.IsInconsistent` | popper/tester.py:135-138 | Raises iff the rule is headless; true means separable and covering some negative |
| `Tester.CoversNothing` | popper/tester.py:130-138 | A separable rule covering nothing is totally incomplete and not inconsistent |
| `Tester.RedundantLiterals` | popper/tester.py:72-82 | Only the checked-keys cache and query log change, and every clause key of the program becomes checked |
| `Tester.RedundantLiteralsSound` | popper/tester.py:72-82 | Only flagged program clauses whose key was not checked before are yielded |
| `Tester.RedundantLiteralsComplete` | popper/tester.py:72-82 | Every flagged clause that is the first of its key, not checked before, is yielded |
| `Tester.RedundantLiteralsLog` | popper/tester.py:72-82 | The checked-keys cache and the query log grow together |
| `Tester.RedundantLiteralsCoherent` | popper/tester.py:72-82 | No clause key is ever queried twice |
| `Tester.RedundantLiteralsOnce` | popper/tester.py:72-82 | Checking the same program again yields nothing and queries nothing |
| `Tester.RedundantLiteralsChecked` | popper/tester.py:72-82 | A program whose keys are all checked leaves the tester unchanged |
| `Tester.AsOracle` | popper/tester.py:104-138 | The loop's tester interface answers `test` exactly as `TestResult` |
| `Tester.TesterCountsExamples` | popper/tester.py:116-128 | This tester's matrices always count each positive and each negative once |
| `Tester.TestAgreesWithOracle` | popper/tester.py:97-128 | The memoised `test` method and the oracle agree on every program |
| `Stubs.StructuralTester` | popper/structural_tester.py:27-72 | Every query answers no and `test` raises RuntimeError |
| `Stubs.DummyTester` | popper/dummy_tester.py:20-42 | Every query answers no and `test` (absent) raises AttributeError |
| `Stubs.StubExamples` | popper/structural_tester.py:77-85 | The stubs have no positive and no negative examples |
| `Stubs.StubsSilent` | popper/structural_tester.py:27-58 | Both stubs answer every query about a program's rules negatively |
| `Stubs.SilentPerClause` | popper/loop.py:123-148 | With a silent tester the per-clause passes add nothing |
| `Stubs.SilentBuildRules` | popper/loop.py:69-152 | On the server, `build_rules` gives exactly the outcome table's families |
| `Stubs.StubSearchTestsNothing` | popper/loop.py:160-213 | The search loop on a stub tester tests nothing, registers nothing and returns no program |
| `OutcomeLabels.Label` | popper/loop.py:13-16 | Each label upper-cases to its outcome's name |
| `OutcomeLabels.ParseName` | centralizedlearning/testing.py:31 | A parsed name is the name of the outcome it gives |
| `OutcomeLabels.NamedFamilies` | centralizedlearning/test.py:61-73 | The name-keyed table with an empty default agrees with popper's table on names and is empty elsewhere |
| `OutcomeLabels.NamedFamiliesOfNames` | centralizedlearning/test.py:61-73 | Looked up by two outcomes' names, the named table is popper's table |
| `OutcomeLabels.TextsInjective` | popper/loop.py:13-16 | Distinct outcomes have distinct labels and distinct names |
| `OutcomeLabels.StrMax` | centralizedlearning/aggtest.py:60 | Python's `max` on strings returns one of its arguments, and neither is greater |
| `OutcomeLabels.StrLessTotal` | centralizedlearning/aggtest.py:60 | Python's string order is a strict total order |
| `TableAggregation.Combine` | centralizedlearning/aggregate.py:43-53 | The table returns one of its two inputs, the higher in the order NONE < SOME < ALL |
| `TableAggregation.CombineLaws` | centralizedlearning/aggregate.py:43-53 | The table is commutative, idempotent and associative; ALL absorbs and NONE is neutral |
| `TableAggregation.AggregateOutcomes` | centralizedlearning/aggregate.py:56-76 | Fails with IndexError iff the list is empty; a single pair is returned as is |
| `TableAggregation.FoldFromIsMax` | centralizedlearning/aggregate.py:65-69 | The loop computes the component-wise maximum of everything folded |
| `TableAggregation.AggregateIsMax` | centralizedlearning/aggregate.py:56-76 | The aggregate is the component-wise maximum of the datasets' outcomes |
| `TableAggregation.AggregateAllDominates` | centralizedlearning/aggregate.py:56-76 | The positive aggregate is ALL iff some dataset says ALL, and NONE iff all say NONE |
| `TableAggregation.AggregateOrderFree` | centralizedlearning/aggregate.py:56-76 | Lists holding the same outcomes aggregate alike, whatever the dataset order |
| `TableAggregation.RankInjective` | centralizedlearning/aggregate.py:43-53 | The table's order ranks distinct outcomes differently |
| `TableAggregation.Plain` | centralizedlearning/aggregate.py:136-137 | A rebuilt literal equals the original and carries default directions, polarity and meta flag |
| `TableAggregation.Reconstruct` | centralizedlearning/aggregate.py:133-138 | The rebuilt constraint keeps whether it has a head; its body is a set of plain literals |
| `TableAggregation.PlainAllKeys` | centralizedlearning/aggregate.py:137 | Rebuilding keeps the body's keys |
| `TableAggregation.ReconstructKeepsKey` | centralizedlearning/aggregate.py:133-138 | The rebuilt constraint hashes like the original |
| `TableAggregation.GenerateAll` | centralizedlearning/aggregate.py:91-97 | One program per dataset when nothing raises; a dataset whose solver found no model makes it raise |
| `TableAggregation.GenerateAllSound` | centralizedlearning/aggregate.py:91-97 | Each program is decoded from its own dataset's model; a raise comes from some model |
| `TableAggregation.TestAll` | centralizedlearning/aggregate.py:100-107 | One outcome per dataset when nothing raises |
| `TableAggregation.TestAllSound` | centralizedlearning/aggregate.py:100-107 | Each outcome classifies the dataset's own tester's matrix for its own program |
| `TableAggregation.ConstrainAll` | centralizedlearning/aggregate.py:114-125 | One constraint set per dataset when nothing raises |
| `TableAggregation.ConstrainAllSound` | centralizedlearning/aggregate.py:114-125 | Each dataset's constraints are `build_rules` of its own program under the one shared outcome |
| `TableAggregation.Round` | centralizedlearning/aggregate.py:88-159 | A round over no datasets raises IndexError; a completed round covers every dataset |
| `TableAggregation.RoundSound` | centralizedlearning/aggregate.py:88-156 | Programs from own models, outcome = component-wise max, constraints under the shared outcome, one grounding and one improved program per dataset, converged iff no program changed |
| `TableAggregation.RoundSteps` | centralizedlearning/aggregate.py:88-156 | Every step of a completed round succeeded; the round's programs, outcome and constraints are those steps' results, the improved programs are decoded from the second models, there is one grounding per dataset, and convergence compares the improved programs with the initial ones |
| `TableAggregation.RoundOf` | centralizedlearning/aggregate.py:94-149 | Round i is `Round` on round i's models when they cover every dataset |
| `TableAggregation.IterateShape` | centralizedlearning/aggregate.py:83-159 | A run from iteration k has 1 to 10 - k rounds; every round but the last failed to converge; a short run ended converged |
| `TableAggregation.IterateAt` | centralizedlearning/aggregate.py:87-159 | Round i of a run from iteration k is the round computed at k + i |
| `TableAggregation.IterateErr` | centralizedlearning/aggregate.py:87-159 | A raise comes from one of the remaining rounds |
| `TableAggregation.LearnRounds` | centralizedlearning/aggregate.py:83-159 | The script runs at least one round and at most 10 |
| `TableAggregation.LearnContinuesUnconverged` | centralizedlearning/aggregate.py:83-159 | Every round but the last failed to converge |
| `TableAggregation.LearnStopsConverged` | centralizedlearning/aggregate.py:83-159 | A run of fewer than 10 rounds has a last round, and that round converged |
| `TableAggregation.LearnAt` | centralizedlearning/aggregate.py:87-159 | Round i of the run is `Round` on round i's models |
| `TableAggregation.LearnErr` | centralizedlearning/aggregate.py:87-159 | A raise comes from one of the ten rounds |
| `EncodedAggregation.Encode` | centralizedlearning/testing.py:31 | Succeeds iff the text is an outcome name, with a code 1 to 3; otherwise KeyError |
| `EncodedAggregation.Decode` | centralizedlearning/testing.py:32 | Succeeds iff the code is 1 to 3; otherwise KeyError |
| `EncodedAggregation.DecodeEncode` | centralizedlearning/testing.py:31-32 | The two dictionaries are inverse to each other in both directions |
| `EncodedAggregation.CodeOf` | centralizedlearning/testing.py:31 | An outcome's code encodes its name and decodes back to it |
| `EncodedAggregation.OutcomeOfCode` | centralizedlearning/testing.py:32 | Every code 1 to 3 is the code of some outcome |
| `EncodedAggregation.AggTable` | centralizedlearning/testing.py:35-39 | Defined iff both are codes (else KeyError); the result is one of them and the larger |
| `EncodedAggregation.AggregateCodes` | centralizedlearning/testing.py:65-74 | No pairs raises IndexError; a single pair is returned as is |
| `EncodedAggregation.FoldCodesMeaning` | centralizedlearning/testing.py:70-72 | The loop succeeds iff every pair is made of codes, and then gives the component-wise largest codes; otherwise KeyError |
| `EncodedAggregation.AggregateCodesMeaning` | centralizedlearning/testing.py:65-74 | From two pairs on: succeeds iff every pair is made of codes, and gives the component-wise largest code |
| `EncodedAggregation.TestRules` | centralizedlearning/testing.py:53-61 | Raises iff the test does; otherwise the codes of the outcome's upper-cased labels |
| `EncodedAggregation.NegativeNeverAll` | centralizedlearning/testing.py:65-83 | Tested outcomes never aggregate to a negative ALL, so the table lookup's default is never used |
| `EncodedAggregation.FamiliesOnEmpty` | centralizedlearning/testing.py:86-96 | The union of the selected families, each built for the empty program |
| `EncodedAggregation.ApplyConstraints` | centralizedlearning/testing.py:78-99 | Raises KeyError iff a code is not 1 to 3; a negative ALL gives nothing; otherwise the selected families on the empty program |
| `EncodedAggregation.GenerateRules` | centralizedlearning/testing.py:103-121 | Raises AttributeError iff some constraint has a body literal; otherwise no rules |
| `EncodedAggregation.FlattenEmpty` | centralizedlearning/testing.py:105-106 | Something is flattened iff some constraint has a body |
| `EncodedAggregation.PassConstraintsOk` | centralizedlearning/testing.py:147-161 | When both clients' tests succeed, a pass always reaches its constraints |
| `EncodedAggregation.Pipeline` | centralizedlearning/testing.py:125-177 | The loop body runs exactly once; it succeeds iff that pass does, and then learns no rules |
| `LabelAggregation.LabelOrder` | centralizedlearning/aggtest.py:60 | Comparing labels as strings compares outcomes in the order ALL < NONE < SOME |
| `LabelAggregation.LabelMax` | centralizedlearning/aggtest.py:60 | `max` on labels returns one of the two outcomes, the higher by label |
| `LabelAggregation.LabelMaxIsStrMax` | centralizedlearning/aggtest.py:60 | It is Python's `max` on the label strings |
| `LabelAggregation.AggregateLabels` | centralizedlearning/aggtest.py:58-60 | Fails with IndexError iff the list is empty; a single pair is returned as is |
| `LabelAggregation.FoldLabelsIsMax` | centralizedlearning/aggtest.py:59-60 | The loop computes the component-wise label maximum |
| `LabelAggregation.AggregateLabelsIsMax` | centralizedlearning/aggtest.py:58-60 | The aggregate is the component-wise maximum in the order ALL < NONE < SOME |
| `LabelAggregation.SomeAbsorbs` | centralizedlearning/aggtest.py:58-60 | SOME comes out iff some dataset says SOME; a positive ALL comes out iff every dataset says ALL |
| `LabelAggregation.ConstrainShared` | centralizedlearning/aggtest.py:68-75 | One constraint set per dataset when nothing raises |
| `LabelAggregation.SharedIsOwn` | centralizedlearning/aggtest.py:70-73 | With every program's `before` and `min_clause` empty, building with the empty ones equals building with each program's own |
| `LabelAggregation.Learned` | centralizedlearning/aggtest.py:31-75 | No dataset raises IndexError; otherwise one program and one constraint set per dataset |
| `LabelAggregation.LearnedTested` | centralizedlearning/aggtest.py:31-62 | Each program is decoded from its own model and tested by its own tester; the outcome is the label-wise max of theirs |
| `LabelAggregation.LearnedConstraints` | centralizedlearning/aggtest.py:65-75 | Each dataset's constraints are `build_rules` of its own program under the shared outcome |
| `LabelAggregation.LearnedSound` | centralizedlearning/aggtest.py:31-75 | Programs from own models, outcome = label-wise max, each dataset's constraints are `build_rules` of its own program with its own (empty) `before`/`min_clause` |
| `LabelAggregation.Script` | centralizedlearning/aggtest.py:31-102 | No dataset raises IndexError; steps 1-4 are `Learned`; one ground set and one improved program per dataset; the printed rules are the last dataset's |
| `LabelAggregation.ScriptSound` | centralizedlearning/aggtest.py:80-96 | Each dataset's ground rules are its own rebuilt constraints grounded by its own grounder; each improved program is decoded from its own second model |
| `AggregationRules.CodesReverseTable` | centralizedlearning/testing.py:35-39 | The coded table picks the outcome ranked lower by aggregate.py's table, so the two disagree on every pair of distinct outcomes |
| `AggregationRules.LabelsVersusTable` | centralizedlearning/aggtest.py:58-60 | Label max and aggregate.py's table agree iff the outcomes are equal or neither is ALL |
| `AggregationRules.LabelsVersusCodes` | centralizedlearning/aggtest.py:58-60 | Label max and the coded table agree iff the outcomes are equal or one is ALL |
| `CentralScript.DecideNames` | centralizedlearning/test.py:16-30 | The script's classifier gives the upper-case names of popper's outcome |
| `CentralScript.ApplyIsUnionOfSelected` | centralizedlearning/test.py:77-97 | The fixed order of the four blocks gives the union of the selected families |
| `CentralScript.ConvertArg` | centralizedlearning/test.py:108-114 | Numbers become number symbols, everything else a string symbol; never a function |
| `CentralScript.ClauseAtoms` | centralizedlearning/test.py:116-143 | One head atom then one body atom per body literal, all with the clause's id |
| `CentralScript.PopperModel` | centralizedlearning/test.py:116-143 | Every atom has four arguments, the second a string; the first atom is the first clause's head |
| `CentralScript.PopperModelSize` | centralizedlearning/test.py:116-143 | The model has one atom per constraint plus one per body literal |
| `CentralScript.PopperModelUndecodable` | centralizedlearning/test.py:124-129 | Decoding the rewritten model directly would raise: its predicates are strings |
| `CentralScript.ConvertLoop` | centralizedlearning/test.py:173-189 | Raises IndexError iff some atom has fewer than two arguments; otherwise appends nothing |
| `CentralScript.FixArguments` | centralizedlearning/test.py:148-165 | One result per argument; numbers are kept, functions keep their name and arity |
| `CentralScript.FixOne` | centralizedlearning/test.py:151-164 | A number is kept; a function keeps its name and arity |
| `CentralScript.TupleOf` | centralizedlearning/test.py:160 | A tuple symbol with one element per piece |
| `CentralScript.FixTupleString` | centralizedlearning/test.py:157-160 | A tuple written as `(a, b, ...)` comes back as the tuple of its pieces |
| `CentralScript.FixParenthesised` | centralizedlearning/test.py:157-160 | A parenthesised string becomes the tuple of its stripped ", "-separated pieces |
| `CentralScript.Script` | centralizedlearning/test.py:46-197 | Raises iff the solver found no model, or its decoding or the test raises; constraints are the table's families for the outcome; the improved rules are always empty |
| `RuleText.Unterminated` | fedpopper/client2.py:43-45 | Stripping and dropping one final '.' never lengthens the text |
| `RuleText.ParseClause` | fedpopper/client2.py:39-55 | Fails with ValueError iff there are two or more ":-"; no body iff there is no ":-" |
| `RuleText.BodyPieces` | fedpopper/client2.py:50 | The body text of a reported rule splits back into its stripped pieces |
| `RuleText.ParseRuleLine` | fedpopper/client2.py:39-55 | `parse_clause` reads back the head and body pieces of a rule in the report format |
| `RuleText.WordRun` | fedpopper/client2.py:71 | The longest leading run of word characters |
| `RuleText.CloseAt` | fedpopper/client2.py:71 | The first ')' not preceded by a line break, or none when every ')' follows one |
| `RuleText.MatchAt` | fedpopper/client2.py:71 | A match of `\w+\(.*?\)` starts with a word character, ends with ')' and has length at least 3 |
| `RuleText.FindLiterals` | fedpopper/client2.py:71 | Every text `findall` returns starts with a word character and ends with ')' |
| `RuleText.MatchOfCall` | fedpopper/client2.py:71 | `p(b)` followed by anything matches exactly up to its ')' |
| `RuleText.FindCallThen` | fedpopper/client2.py:71 | A literal text at the start is found first and the search resumes after it |
| `RuleText.SkipSeparator` | fedpopper/client2.py:71 | Characters that are not word characters are skipped |
| `RuleText.FindJoinedCalls` | fedpopper/client2.py:71 | `findall` over literal texts joined by non-word separators gives back the texts |
| `RuleText.ParseAll` | fedpopper/client2.py:78 | Succeeds iff every text parses (else ValueError), one literal per text |
| `RuleText.ParseAllValues` | fedpopper/client2.py:78 | Each parsed literal is `from_string` of the text at its position |
| `RuleText.Transform` | fedpopper/client2.py:58-86 | A result requires exactly one ":-" and has a head; without ":-" there is none |
| `RuleText.Codes` | popper/core.py:132 | Succeeds iff every literal prints (else TypeError), each to its `to_code` text |
| `RuleText.ClauseCode` | popper/core.py:127-133 | `Clause.to_code` succeeds iff the body and the head (when present) print |
| `RuleText.TransformClauseCode` | fedpopper/client2.py:58-86 | Reading back a printable clause's `to_code` text gives the same head and body, literal by literal |
| `RuleText.ReadBackLiteral` | popper/core.py:71-79 | A printable literal's text parses back to an equal literal |
| `FedClient.EncodePair` | fedpopper/client3.py:176-178 | Succeeds iff both upper-cased texts are outcome names, giving their codes; otherwise KeyError |
| `FedClient.DecodePair` | fedpopper/client3.py:180-181 | Succeeds iff both are codes 1 to 3, giving their names; otherwise KeyError |
| `FedClient.DecodeEncodePair` | fedpopper/client3.py:176-181 | Decoding an encoded pair gives the upper-cased pair back |
| `FedClient.EncodeAnyCase` | fedpopper/client3.py:176-178 | Outcome names in any case encode to their codes, which decode to the names |
| `FedClient.EncodeLabels` | fedpopper2clients/client1.py:290-297 | popper's outcome labels always encode, to their outcomes' codes |
| `FedClient.Parsed` | fedpopper/client2.py:226-227 | At most one clause per text, exactly the successful transformations |
| `FedClient.Collect` | fedpopper/client2.py:226-227 | The successful reads, dropping failures; none invented |
| `FedClient.SetParameters` | fedpopper/client3.py:190-221 | No array, an empty one, a numeric one or one of byte strings gives no rules; otherwise exactly the transformed texts that parse |
| `FedClient.ParsedCodes` | fedpopper/client2.py:202-233 | Rules sent as `to_code` texts arrive whole: one clause per text with the same head and body |
| `FedClient.MatrixOf` | fedpopper/client2.py:305 | A payload reads back as a matrix iff it has four non-negative entries |
| `FedClient.MatrixOfPayload` | fedpopper/client2.py:280-305 | The matrix payload reads back as the same matrix |
| `FedClient.FitMatrix` | fedpopper/client2.py:269-305 | No rules gives the zero matrix with weight 0; otherwise fails iff the test does, else the test's matrix weighted by the example count |
| `FedClient.Diagnose` | fedpopper/client2.py:296-301 | "Perfect" iff fn = fp = 0; the fallback branch is never taken |
| `FedClient.DiagnoseByOutcome` | fedpopper/client2.py:296-301 | Perfect iff (ALL, NONE); useless iff positive NONE; partial iff positive SOME or (ALL, SOME) |
| `FedClient.GetParameters` | fedpopper/client3.py:183-188 | Empty iff no outcome was computed yet; otherwise the stored pair of codes |
| `FedClient.Register` | fedpopper/client3.py:242-249 | Always logged; it becomes best exactly when it beats the best score; a solution exactly when it also is (ALL, NONE); the stored outcome is unchanged |
| `FedClient.FitOutcome` | fedpopper/client3.py:227-255 | No rules stores and sends (NONE, NONE); otherwise fails iff the test does, else registers and stores and sends the outcome's codes; what is sent is what `get_parameters` then returns |
| `FedClient.FreshConsistent` | fedpopper/client3.py:169-174 | A new client's registers are consistent and it has no parameters to send |
| `FedClient.FitKeepsConsistent` | fedpopper/client3.py:227-255 | Every successful round keeps the registers consistent and leaves a pair of codes to send |
| `FedClient.RegisterKeepsConsistent` | fedpopper/client3.py:242-249 | Best scores strictly increase, the best score is the last one's, and every solution is a perfect best program |
| `FedClient.FitScore` | fedpopper2clients/client1.py:235-302 | No rules sends [NONE, NONE, 0] with weight 0; otherwise fails iff the test does, else the outcome codes and score with weight 1 |
| `FedClient.Feedback` | fedpopper2clients/client1.py:266-297 | The payload is always the codes of the outcome and the score tp + tn |
| `FedClient.DiagnoseOutcome` | fedpopper2clients/client1.py:274-281 | Perfect iff (ALL, NONE); useless iff positive NONE; partial iff positive SOME |
| `FedClient.DiagnosticsAgree` | fedpopper2clients/client1.py:274-281 | The two clients' diagnostics differ exactly on outcome (ALL, SOME) |
| `FedClient.ScoreReplyFromMatrixReply` | fedpopper2clients/client1.py:235-302 | The score client's reply is a function of the matrix client's: outcome codes and score of the same matrix |
| `FedClient.Accuracy` | fedpopper2clients/client1.py:315-316 | A fraction between 0 and 1, equal to 1 iff there are examples and the rules are perfect |
| `FedClient.AccuraciesAgree` | fedpopper/client3.py:266-267 | Replacing a zero total by 1 before dividing gives the same accuracy as testing the total first |
| `FedClient.Complement` | fedpopper2clients/client1.py:322 | Loss and accuracy add up to 1 |
| `FedClient.EvaluateMatrix` | fedpopper2clients/client1.py:312-322 | Examples are the matrix total; loss + accuracy = 1; loss 0 iff there are examples and the rules are perfect |
| `FedClient.EvaluateRules` | fedpopper2clients/client1.py:305-322 | No rules gives loss 1, no examples, accuracy 0; otherwise it fails exactly where the test does, with the test's error, and evaluates the tested matrix |
| `FedClient.Evaluate` | fedpopper2clients/client1.py:305-322 | Whatever rules arrive, a successful evaluation has loss + accuracy = 1 over a positive denominator |
| `FedClient.EvaluateRules3` | fedpopper/client3.py:258-277 | No rules gives loss 1, no examples, accuracy 0 and leaves the file alone; otherwise the evaluation is fedpopper2clients/client1.py's, a failing test fails with its error, and the saved file has client3's header |
| `FedClient.EvaluateRules3Saves` | fedpopper/client3.py:266-277 | On a readable results file and printable rules, the evaluation succeeds and the file holds the other keys' rows followed by this client's new row |
| `FedClient.Evaluate3` | fedpopper/client3.py:258-277 | Whatever rules arrive, a successful evaluation has loss + accuracy = 1 |
| `FedClient.EvaluateMatrixWithRecall` | fedpopper/client2.py:318-325 | Raises ZeroDivisionError exactly when the matrix has no positive example; otherwise the guarded evaluation of the same matrix |
| `FedClient.EvaluateRulesWithRecall` | fedpopper/client2.py:308-325 | After a successful test, it raises ZeroDivisionError exactly when the client has no positive example |
| `FedClient.EvaluateWithRecall` | fedpopper/client2.py:308-325 | A successful evaluation has a positive denominator |
| `FedClient.RecallVariantAgrees` | fedpopper/client2.py:308-325 | Where it does not raise, it agrees with the guarded evaluation |
| `FedClient.NoPositivesBreaksRecall` | fedpopper/client2.py:320 | A client with only negative examples raises, although the guarded evaluation scores its rules as perfect |
| `ResultTable.SameKey` | fedpopper/client3.py:135-136 | Raises KeyError iff a field it reads is missing; otherwise true iff the row has this client and dataset |
| `ResultTable.KeepOthers` | fedpopper/client3.py:134-136 | Succeeds iff every row can be compared; never adds rows |
| `ResultTable.KeepOthersMembers` | fedpopper/client3.py:134-136 | The kept rows are exactly the rows of other keys |
| `ResultTable.KeepOthersAppend` | fedpopper/client3.py:134-136 | Filtering a concatenation filters each part and keeps their order |
| `ResultTable.KeepOthersIdempotent` | fedpopper/client3.py:134-136 | Filtering twice gives the same as filtering once |
| `ResultTable.Upsert` | fedpopper/client2.py:133-160 | The new row goes last; the others are exactly the old rows of other keys |
| `ResultTable.UpsertTwice` | fedpopper/client2.py:133-160 | Saving the same key twice leaves only the second row |
| `ResultTable.KeepOthersUnique` | fedpopper/client3.py:134-136 | Filtering keeps keys unique |
| `ResultTable.UpsertKeepsKeysUnique` | fedpopper/client2.py:133-160 | A table with unique keys keeps them unique through a save |
| `ResultTable.CompletedFull` | fedpopper/client2.py:165-168 | A row with exactly the header's fields is written unchanged |
| `ResultTable.Write` | fedpopper/client2.py:165-168 | Raises ValueError iff a row has a field outside the header; otherwise the file holds the header and every row's cells |
| `ResultTable.WriteFull` | fedpopper/client2.py:165-168 | Rows with exactly the header's fields are written unchanged |
| `ResultTable.RuleLineOf` | fedpopper/client2.py:122-126 | A headless rule raises AttributeError; a printable rule gives `head :- body.` |
| `ResultTable.RuleLines` | fedpopper/client2.py:128 | Succeeds iff every rule prints, one line per rule |
| `ResultTable.RuleString` | fedpopper/client2.py:128 | Succeeds iff every rule prints; no rules gives ""; one rule gives its line |
| `ResultTable.RuleLineReadsBack` | fedpopper/client2.py:58-126 | A logged rule line reads back through `transform_rule_to_tester_format` as the same head and body |
| `ResultTable.BaseRow` | fedpopper/client3.py:139-149 | The new row has exactly the expected fields, the client's key, and no `None` cell |
| `ResultTable.NewRow2` | fedpopper/client2.py:146-158 | client2's row has exactly its columns, the client's key and the rule count |
| `ResultTable.CleanRow` | fedpopper/client3.py:151-154 | Every `None` cell becomes empty and no other cell changes |
| `ResultTable.CleanBaseRow` | fedpopper/client3.py:139-154 | The cleaning never changes the new row |
| `ResultTable.Load3` | fedpopper/client3.py:99-117 | Rows are kept only from a readable file with exactly the expected header |
| `ResultTable.Save3` | fedpopper/client3.py:84-164 | A successful save writes the expected header; an unprintable rule raises |
| `ResultTable.Save3Succeeds` | fedpopper/client3.py:84-164 | On a readable file without over-long lines, the save fails only on an unprintable rule and writes the other keys' rows, then the new one |
| `ResultTable.Save3Twice` | fedpopper/client3.py:84-164 | A file client3 wrote is read back whole, and the next save replaces only the row of the same key |
| `ResultTable.Load2` | fedpopper/client2.py:133-141 | An unreadable file raises the csv error; otherwise its rows |
| `ResultTable.Save2` | fedpopper/client2.py:97-168 | A successful save writes client2's columns; an unprintable rule or unreadable file raises |
| `ResultTable.Save2Succeeds` | fedpopper/client2.py:97-168 | On its own file or none, the save fails only on an unprintable rule and keeps one row per key |
| `ResultTable.Save2ForeignField` | fedpopper/client2.py:165-168 | A kept row with a field outside client2's columns makes the save raise ValueError |
| `ResultTable.Save3ByLoad` | fedpopper/client3.py:99-117 | Files from which client3 loads the same rows are saved alike |
| `ResultTable.ForeignColumnRejected` | fedpopper/client2.py:133-168 | A foreign column makes client2's save raise, where client3 resets the file and saves |
| `ResultTable.ForeignRowKept` | fedpopper/client2.py:137-141 | client2 keeps another client's row even when it has a foreign field |
| `ResultTable.ForeignHeaderReset` | fedpopper/client3.py:107-117 | client3 treats a file with a foreign header as no file |

## Left out

- The answer-set solver (`ClingoSolver`, `get_model`, `add_ground_clauses`,
  `update_number_of_literals`): replaced by the models it returns. In the
  search loop these are listed per size, and an empty model or the end of a
  size's list stands for `not model`. In the centralised scripts `None`
  stands for no model. How the solver reacts to the ground constraints it
  is handed is not modelled. The constraints themselves are part of the
  result (`Search.Popper`).
- The constraint constructors (`Constrain`), the grounder's `find_bindings`
  and Prolog: these are parameters. A rule's assertion into Prolog
  (`Tester.using`, which orders each rule with `to_ordered`) is part of the
  Prolog answer.
- The Flower transport, the server scripts (`server.py`) and
  `fl.client.start_client`: these are network code. The clients' replies are
  modelled as values.
- Timing, logging, printing and `stats.duration`: they change no result.
  Their messages are formatted eagerly; the only message whose formatting
  can raise is popper/tester.py:111 (see the `Tester.TestResult` line). The
  others format strings, numbers and containers, whose formatting cannot
  fail. `learn_solution`'s `timeout` wrapper is left out too: the search is
  modelled to completion.
- Floating-point metrics: accuracy and loss are exact fractions. Precision,
  recall, F1 and the mean rule length in the results row are opaque cells.
- Files and the clock: a CSV file is a value (missing, unreadable, or header
  and rows), and `datetime.now()` is a parameter.
- Python set and dict iteration order: sets are iterated in the order of
  the sequence that holds them. Results that only depend on the set are
  proved independent of the order where it matters
  (`TableAggregation.AggregateOrderFree`, `Core.ClauseHashIgnoresBodyOrder`,
  `CentralScript.ApplyIsUnionOfSelected`).
- Python's string hash and `hash()` collisions: two literals are taken to
  be equal exactly when predicate and arguments agree. This is what
  `Core.LiteralEquals` states about literal equality; the sets of
  constraints below do not follow it.
- `Core.ClauseHash`: states only that body keys are hashed; the order
  independence is `Core.ClauseHashIgnoresBodyOrder`.
- `Tester.TestResult`: the Prolog timeout (`eval_timeout`) and Prolog
  errors are not modelled, and Prolog answers are total. That includes the
  raises of `Tester.using`: `to_ordered` raises NameError for a rule that
  has no valid order (and AttributeError for a headless one), and
  `Clause.to_code` raises TypeError for a rule with a non-string argument.
  The same TypeError can come from the debug message at
  popper/tester.py:111, which prints each rule of a separable program. A
  decoded program never has the ordering raise
  (`Ordering.NoInputsAlwaysOrdered`).
- `Tester.RedundantLiterals`: the query text is built with `Literal.to_code`
  (popper/tester.py:79), whose TypeError on a non-string argument is not
  modelled; the answer is a given predicate.
- `Constraints.TableRules`: the result is a Dafny set of clause values.
  Python's `rules = set()` (popper/loop.py:80) holds `(head, body)` tuples
  whose literals compare by predicate and arguments only. So of two
  constraints that differ only in polarity, directions or the meta flag,
  Python keeps the first inserted and the model keeps both.
- `Constraints.BuildRules`: the same structural set, for every constraint
  `build_rules` adds (popper/loop.py:80-148).
- `Constraints.TableRulesMeaning`: states the structural union; Python's set
  keeps one clause per class of key-equal clauses.
- `Constraints.BuildRulesMeaning`: states the structural union; Python's set
  keeps one clause per class of key-equal clauses.
- `Search.Learn`: grounds every clause of the structural set, where Python
  grounds one clause per class of key-equal clauses.
- `CentralScript.Script`: its constraints are the structural union; the
  `set()` at centralizedlearning/test.py:77 merges key-equal clauses.
- `TableAggregation.RoundSound`: each dataset's constraints are the
  structural set above. The reconstructed and grounded sets
  (centralizedlearning/aggregate.py:134-142) are sets of clause values, so
  two rebuilt clauses whose bodies list the same literals in another order
  stay distinct, where Python's frozensets make them one.
- `LabelAggregation.ScriptSound`: the same holds for the reconstructed and
  grounded sets of centralizedlearning/aggtest.py:84-88.
- `Generate.GenArgs`: Dafny's `char` has no surrogate code points, so `GenArgs`
  raises for a number n with 65 + n between 0xD800 and 0xDFFF, where
  Python's `chr` returns a lone surrogate.
- `FedClient.EncodePair`: `Upper` maps only the ASCII letters. Python's `str.upper`
  also maps other characters (it turns 'ſ' into 'S'), so a text such as
  "ſome" that Python encodes is a KeyError in the model.
- `RuleText.WordRun`: a word character is an ASCII letter, digit or '_'. Python's
  `\w` also matches non-ASCII letters and digits, as in a predicate named
  `café`.
- `RuleText.FindLiterals`: finds no match starting at a non-ASCII letter or digit,
  where Python's `re.findall` does.
- `RuleText.SkipSeparator`: skips non-ASCII letters and digits, which start a match
  in Python.
- `RuleText.FindJoinedCalls`: holds for separators without non-ASCII letters or
  digits only.
- CSV rows longer than their header: `csv.DictReader` puts the extra cells
  under the key `None`, and `DictWriter` then raises ValueError. A row of
  the model is a map from field names, so such files are not represented;
  `Save3Succeeds` and `Save2Succeeds` hold for files without them.
- The `show_hspace` helper, `Literal.__str__`, `to_hashable` and
  `grounding_hash`: the loop never uses them.
- The other scripts under centralizedlearning/ (client1.py, helper.py,
  ptest.py, server.py, setting.py, testprogram.py), and the federatedlearning/,
  federatedpopper/ and bach/ directories: these are not part of this model.

## Findings

| source | as written | input that shows it | evidently intended | confidence | as-written member | corrected member |
|---|---|---|---|---|---|---|
| fedpopper/client2.py:320 | `recall = tp / (tp + fn)` with no guard, so `evaluate` raises when the client has no positive example | a client holding only negative examples, with confusion matrix (0, 0, 5, 0) | the guard the other client uses (fedpopper2clients/client1.py:318), so that evaluation fails only where the test does | high (not executed) | `FedClient.NoPositivesBreaksRecall` | `FedClient.EvaluateRules` |
