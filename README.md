# Planning and SMT metrics, modelled in Dafny

This project models the two metric engines of the PDDL-and-SMT metrics framework and proves properties of them.
Both engines turn an already-parsed document into numbers.

- **Planning metrics** (`PDDLAnalyzer`, `pddl_metrics.py`). The inputs are the action schemas of a planning problem, the number of objects of each type, and the number of all objects. The model computes:
  - the number of ground operators. This is a nested loop: over schemas, and within each schema over its parameters. Each parameter's object count is floored at 1.
  - the branching factor and the operator density. Both are quotients with a guarded denominator.
  - the ratio of positive to negative effects. This is a nested loop over effects. Durative actions count only boolean literals. Instantaneous actions also count numeric constants.
  - the composite complexity score.
  - the non-ASCII byte test and the umlaut rewrite that the analyzer applies to its input files.
- **Formula metrics** (`SMTAnalyzer`, `smt_metrics.py`). The input is the last formula of an SMT-LIB script, a DAG of hash-consed nodes. A Dafny datatype value stands for a node, because structural equality coincides with node identity. The model computes:
  - the number of constraints.
  - the operator statistics. This is a walk with a visited set that counts each distinct reachable node once under its node type.
  - the path-based depth of the formula.
  - the composite complexity score.

Files:
- `pddl_metrics.dfy` (module `PddlMetrics`): the planning data model, the counting loops as methods, and the quotients and score as functions. The effect-counting loop of each action kind is its own method (`CountDurativeEffects`, `CountInstantaneousEffects`), called from the loop over schemas in `EffectRatio`.
- `pddl_encoding.dfy` (module `PddlEncoding`): the byte test and the umlaut rewrite.
- `smt_formula.dfy` (module `SmtFormula`): formula nodes and the specification the walk is proved against. It defines the reachable nodes (`Subterms`), the node-type histogram and the depth.
- `smt_metrics.dfy` (module `SmtMetrics`): the walk, modelled as the class `StatisticsWalk`. It holds the `stats` map and the `visited` set that `_walk` mutates. `Walk` is one call of `_walk`; its loop over the arguments is the method `WalkArguments`. The file also holds the constraint count and the complexity score.

Notes on what the code does:
- The operator statistics deduplicate through the visited set. A shared node is counted once, not once per parent edge.
- The statistics count every node type, symbols and constants included.
- The constraint count is the arity of a top-level conjunction in the single analysed formula, and 1 for any other formula.
- The operator density is 0 for a problem with objects but no schemas. So it is not always positive: `OperatorDensity` states exactly when it is.
- The umlaut rewrite does not make the text ASCII-only, although its docstring and log line say so (pddl_metrics.py:145, 152). Only ö, ä, ü and ß are rewritten; Ä, Ö, Ü (`CapitalUmlautsKept`) and every other non-ASCII character, such as é (`KeepsOtherCharacters`), pass through.
- The constraint count is 0 only for a conjunction without arguments. The SMT library collapses such a conjunction when it builds formulas, so the parsed formulas the source sees do not reach that case.

## Model

| member | source | states |
|---|---|---|
| PddlMetrics.Factor | pddl_metrics.py:59-60 | a parameter contributes the object count of its type; a type with no objects contributes 1, never 0 |
| PddlMetrics.Combinations | pddl_metrics.py:57-60 | a schema's ground count is at least 1, and exactly 1 without parameters |
| PddlMetrics.GroundTotal | pddl_metrics.py:55-62 | the ground operator count is at least the number of schemas, and 0 without schemas |
| PddlMetrics.CountGroundOperators | pddl_metrics.py:53-62 | the nested accumulator loops compute the sum over schemas of the floored per-parameter products |
| PddlMetrics.EmptyTypesAreNeutral | pddl_metrics.py:57-60 | the floored product equals the plain product over only the parameters whose type has objects |
| PddlMetrics.GroundTotalAppend | pddl_metrics.py:56-61 | the ground count of two schema lists concatenated is the sum of their ground counts |
| PddlMetrics.GroundTotalExtract | pddl_metrics.py:56-61 | a schema adds its ground count wherever it stands in the schema list |
| PddlMetrics.GroundTotalReorder | pddl_metrics.py:56-61 | the ground count does not depend on the order of the schemas |
| PddlMetrics.TwoSchemaExample | pddl_metrics.py:53-68 | a 3-object parameter schema plus a parameterless schema give 4 ground operators and branching factor 2 |
| PddlMetrics.BranchingFactor | pddl_metrics.py:64-68 | ground count divided by the number of schemas when there are schemas, 1 otherwise; always at least 1 |
| PddlMetrics.OperatorDensity | pddl_metrics.py:70-74 | ground count divided by the number of objects when there are objects, 1 otherwise; non-negative, and positive exactly when there are schemas or no objects |
| PddlMetrics.ReorderedActionsKeepRatios | pddl_metrics.py:64-74 | reordering the schemas changes neither the branching factor nor the density |
| PddlMetrics.Classify | pddl_metrics.py:81-99 | an effect counts positive exactly when it is true or, in an instantaneous action, a constant above 0; negative exactly when it is false or, in an instantaneous action, a constant at most 0 |
| PddlMetrics.EffectRatioOf | pddl_metrics.py:101-102 | the ratio is at least 0.1, at least positives over the negatives floored at 1, and equal to that quotient whenever it exceeds 0.1 |
| PddlMetrics.EffectRatio | pddl_metrics.py:77-102 | the loop over schemas computes the ratio of the positive and negative effect counts of all schemas |
| PddlMetrics.CountDurativeEffects | pddl_metrics.py:82-88 | the loops over timings and effects add the durative action's counts of true and false literals to the running counts |
| PddlMetrics.CountInstantaneousEffects | pddl_metrics.py:89-99 | the loop over effects adds the instantaneous action's literal and signed-constant counts to the running counts |
| PddlMetrics.EffectsTallyAppend | pddl_metrics.py:90-99 | the counts of two effect lists concatenated are the sums of their counts |
| PddlMetrics.ActionsTallyAppend | pddl_metrics.py:81-99 | the counts of two schema lists concatenated are the sums of their counts |
| PddlMetrics.UncountedEffectIsIgnored | pddl_metrics.py:84-99 | an effect that is not counted changes neither count, wherever it stands |
| PddlMetrics.OtherActionIsIgnored | pddl_metrics.py:81-89 | a schema that is neither durative nor instantaneous changes neither count |
| PddlMetrics.EffectsTallyBound | pddl_metrics.py:81-99 | each effect is counted at most once |
| PddlMetrics.BooleanEffectsCountAlike | pddl_metrics.py:82-94 | without numeric constants, durative and instantaneous counting agree |
| PddlMetrics.LiteralEffectsAllCounted | pddl_metrics.py:89-99 | in an instantaneous action every boolean or numeric literal effect is counted exactly once |
| PddlMetrics.FlooredProductBound | pddl_metrics.py:106-110 | with branching factor at least 1, the product of the three floored factors is at least 0.01 |
| PddlMetrics.ComplexityLogArgument | pddl_metrics.py:104-110 | the argument of the complexity logarithm is at least 0.1 * 1 * 0.1 > 0, so the logarithm is defined |
| PddlEncoding.NonAsciiBytes | pddl_metrics.py:138 | lists, in increasing position order, exactly the (position, byte) pairs whose byte exceeds 127 |
| PddlEncoding.CheckNonAsciiChars | pddl_metrics.py:134-142 | true exactly when no byte of the data exceeds 127 |
| PddlEncoding.ReplaceChar | pddl_metrics.py:149 | text without the replaced character is unchanged; a character in neither the replacement nor (unless it is the replaced one) the input is absent from the output |
| PddlEncoding.ReplaceUmlauts | pddl_metrics.py:149 | the rewritten content contains no ö, ä, ü or ß, and content without them is unchanged |
| PddlEncoding.ReplaceCharAppend | pddl_metrics.py:149 | one character replacement distributes over concatenation |
| PddlEncoding.ReplaceUmlautsAppend | pddl_metrics.py:149 | the rewrite distributes over concatenation |
| PddlEncoding.ReplaceUmlautsSingle | pddl_metrics.py:149 | on a single character the chain of replacements gives that character's spelling |
| PddlEncoding.ReplaceUmlautsIsTransliteration | pddl_metrics.py:149 | the chain of four replacements equals a single pass mapping each of ö, ä, ü, ß to oe, ae, ue, ss |
| PddlEncoding.ReplaceUmlautsIdempotent | pddl_metrics.py:149 | rewriting twice is the same as rewriting once |
| PddlEncoding.ReplaceUmlautsLength | pddl_metrics.py:149 | the text grows by exactly one character per replaced letter |
| PddlEncoding.KeepsOtherCharacters | pddl_metrics.py:149 | every other character is kept, in order, between the rewrites of its neighbours |
| PddlEncoding.CapitalUmlautsKept | pddl_metrics.py:149 | the capitals Ä, Ö and Ü are not rewritten |
| SmtMetrics.CountConstraints | smt_metrics.py:51-60 | the arity of a top-level conjunction, 1 for any other formula; 0 exactly for the empty conjunction |
| SmtMetrics.StatisticsWalk.constructor | smt_metrics.py:67-68 | the walk starts with empty statistics and an empty visited set |
| SmtMetrics.StatisticsWalk.Walk | smt_metrics.py:70-78 | a visited node is skipped; otherwise the node is counted under its type and its arguments are walked; afterwards exactly the nodes reachable from it are added to the visited set, and the statistics stay the histogram of the visited set |
| SmtMetrics.StatisticsWalk.WalkArguments | smt_metrics.py:77-78 | walking the arguments in order adds exactly the nodes reachable from them to the visited set, keeping the statistics the histogram of the visited set |
| SmtMetrics.VisitedIsFinished | smt_metrics.py:71-73 | a node that is already visited and is not an ancestor of the current node has all its reachable nodes visited, so skipping it loses nothing |
| SmtMetrics.OperatorStatistics | smt_metrics.py:62-81 | the statistics are the node-type histogram of the distinct nodes reachable from the formula |
| SmtMetrics.OperatorStatisticsMeaning | smt_metrics.py:70-81 | each type's count is the number of distinct reachable nodes of that type, every present type has count at least 1, and the counts sum to the number of distinct reachable nodes, which is at least 1 |
| SmtMetrics.CountVariables | smt_metrics.py:45-49 | for a quantifier-free formula, the number of distinct symbols, which equals the statistics' count for symbols |
| SmtMetrics.EstimatedComplexity | smt_metrics.py:94-108 | the guard returns 0.0 exactly when there are no variables or no constraints; otherwise the score is the base-2 logarithm of the product of variables, constraints, total operator count and depth, a product of at least 1, so the score is also 0.0 when that product is 1 (as for a lone symbol, see `LoneSymbolScore`) |
| SmtMetrics.LoneSymbolScore | smt_metrics.py:105-108 | a lone symbol has product 1 and passes the guard, so its score is log2(1), which is 0.0 |
| SmtMetrics.ProductZero | smt_metrics.py:105-107 | with the total operator count and the depth at least 1, the product is zero exactly when the variable or constraint count is |
| SmtFormula.Subterms | smt_metrics.py:70-78 | the reachable nodes include the root |
| SmtFormula.SubtermsOfSeqContains | smt_metrics.py:77-78 | every node reachable from an argument is reachable from the argument list |
| SmtFormula.HistogramLookup | smt_metrics.py:75-76 | the histogram gives a node type the number of nodes of that type, 0 when absent, and at least 1 when present |
| SmtFormula.HistogramCounts | smt_metrics.py:75-76 | the histogram gives every node type the number of nodes of that type, and each present type at least 1 |
| SmtFormula.HistogramInsert | smt_metrics.py:72-76 | visiting a new node adds 1 to its type's count, starting from 0 |
| SmtFormula.HistogramTotal | smt_metrics.py:102 | the histogram's values add up to the number of nodes |
| SmtFormula.RepeatedArgumentCountedOnce | smt_metrics.py:71-74 | an argument repeated at a second position does not change the statistics |
| SmtFormula.SharedDisjunctionSubterms | smt_metrics.py:70-78 | the nodes reachable from (and (or x y) (or x y)) with a shared disjunction are the conjunction, the disjunction and the two symbols |
| SmtFormula.SharedDisjunctionCounts | smt_metrics.py:67-81 | for distinct symbols x and y, the statistics of that formula count one conjunction, one disjunction and two symbols |
| SmtFormula.SharedDisjunctionDepth | smt_metrics.py:87-92 | that formula has depth 3 |
| SmtFormula.AstDepth | smt_metrics.py:87-91 | the depth is at least 1 |
| SmtFormula.MaxDepthBound | smt_metrics.py:91 | the largest argument depth is at least the depth of every argument |
| SmtFormula.MaxDepthAttained | smt_metrics.py:91 | the largest argument depth of a non-empty argument list is the depth of one of the arguments |
| SmtFormula.ArgumentShallower | smt_metrics.py:87-91 | an operator is strictly deeper than each of its arguments |
| SmtFormula.AstDepthCases | smt_metrics.py:87-91 | the depth is 1 exactly for symbols, constants and operators without arguments; otherwise it is 1 plus the depth of some argument |
| SmtFormula.SubtermDepth | smt_metrics.py:87-91 | no node reachable from a node is deeper than it |
| SmtFormula.NotBelowItself | smt_metrics.py:77-78 | an operator is not reachable from its own arguments |
| SmtFormula.DeeperIsNotSubterm | smt_metrics.py:71-78 | a node is never reachable from a node of smaller depth, so the DAG is acyclic |
| SmtFormula.DepthAtMostSubterms | smt_metrics.py:87-92 | the depth is at most the number of distinct reachable nodes |

## Left out

- File reading and writing, the planning and SMT-LIB parsers, the logging setup, and the log calls of the modelled routines are not modelled. The log calls are `logging.error` with the first five offending byte positions (pddl_metrics.py:140) and `logging.info` after the rewrite (pddl_metrics.py:152). These are I/O and calls into external libraries. The byte test takes the file's bytes as input. The rewrite takes the decoded text as input.
- `process_pddl_files` and the output path built with `os.path.splitext` are not modelled. They only compose file operations.
- `supports_temporal_logic`, `has_durative_actions`, `has_fluents`, `count_actions` and both `get_metrics` are not modelled. They are pass-throughs over the planning library's feature flags, a list length, or dictionary assembly.
- PddlMetrics.ComplexityLogArgument: states only that the logarithm's argument is at least 0.01. `math.log2` and float rounding are not modelled.
- SmtMetrics.EstimatedComplexity: returns the integer the logarithm is taken of, not the floating-point logarithm.
- Ratios are exact reals. Python float rounding is not modelled, nor is the `OverflowError` that int-to-float conversion raises once a ground count exceeds about 1.8e308 (pddl_metrics.py:68, 74, 110).
- An effect whose value is an object constant is not modelled. On such an effect the source fails: comparing the object with 0 raises a type error in `effect_ratio` (pddl_metrics.py:96). Effect values are boolean literals, numeric constants, or other expressions.
- SmtMetrics.CountVariables: covers only quantifier-free formulas without uninterpreted functions. The source's free variables also include the function symbol of each uninterpreted-function application, which the model has no field for and does not count: for `(= (f x) y)` the source counts 3 (f, x, y) and the model 2. The complexity score takes the variable count as an input.
- Node payloads are not modelled. These include the function symbol of an application, the variables bound by a quantifier, and bit-vector indices. Two nodes that differ only in payload are one node in the model.
- Python's recursion limit on `_walk` and `depth` is not modelled.
