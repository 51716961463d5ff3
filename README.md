# Engineering formula calculator: a verified model

This project models the server side of an engineering-formula calculator web
application:

- **Formula calculation.** A client picks a formula from a seeded catalog
  (Ohm's law, power, force, pressure, kinetic and potential energy, work,
  efficiency, series and parallel resistance). It names the variable to solve
  for and supplies values for the others. The server then runs its steps in
  order:
  1. choose the output parameter;
  2. check the QUICK calculator when one is named;
  3. resolve the formula, which must be present and active;
  4. pick the first relation that solves for the output;
  5. report every missing required input;
  6. check each supplied value against its variable's constraints;
  7. substitute the values into the relation's expression as text;
  8. evaluate the expression and look up the unit;
  9. when both a calculator and a user are known, store one QUICK calculation
     record and bump the formula's usage count.
- **Formula reads.** The formula read routes are: by id, by category, the
  filtered and paged listing sorted by usage, and the per-formula
  "calculation options".
- **Calculator routes.** These are: create with a default name, a field-wise
  patch update, soft delete, the owner's active calculators newest first,
  the basic-expression calculation (carets become `**`, the angle mode falls
  back to the calculator's), and the paged calculation history.
- **User model.** It covers the e-mail validator regular expression, the
  trim and lower-case setters that run before it, the required fields and
  defaults, and the JSON transform that hides the password hash.

## How the model is organised

- `wrappers.dfy`: `Option`.
- `js_text.dfy`: the JavaScript string operations the code relies on:
  - global replace of a metacharacter-free pattern;
  - `trim` with JavaScript's white-space set;
  - ASCII case mapping;
  - truthiness of a string.
- `formula_model.dfy`: the Formula, Variable, Constraints, Relation and
  Example records, the category and difficulty enums, and the schema
  defaults.
- `records.dfy`: calculator and calculation records, the kind and angle-mode
  enums, the settings defaults, and an `inputs` object as the sequence of its
  entries in `Object.entries` order; the request's object has distinct keys,
  as a parsed JSON body does.
- `store.dfy`: the collections as a class `Db` holding:
  - formulas with ids;
  - calculators and calculations in insertion order, so "newest first" is
    reverse order;
  - the next free id.

  It also holds the lookups the routes use (`findById`, `findOne`,
  `findByIdAndUpdate` with `$inc`).
- `paging.dfy`: `skip((page - 1) * limit).limit(limit)` and
  `Math.ceil(total / limit)`.
- `seq_util.dfy`: filter, reverse, and a descending sort with its
  permutation proof. The store does not specify the order of equal keys; the
  model's sort puts them in reverse input order.
- `formula_controller.dfy`: the formula routes. Pure steps are functions. The
  constraint loop and the substitution loop are methods proved against those
  functions. The calculate route is a method on `Db`.
- `calculator_controller.dfy`: the calculator routes. Create, update, delete
  and basic calculation are methods on `Db`; listing and history are
  functions over its sequences.
- `seeds.dfy`: the ten seed formulas as constants, with their well-formedness
  proved formula by formula, and the catalog's consequences for the
  calculation pipeline.
- `user_model.dfy`: the e-mail pattern read structurally and proved equal to
  a split-based characterisation, the validation of a new user, and `toJSON`.

Numeric evaluation of the substituted expression (`eval`) is a parameter
`evaluate: string -> Option<real>`. `None` stands for a thrown error. The
decimal text of a number is a parameter `render: real -> string`. A request
without an `inputs` object is refused with 400, as the route's `try` block
does with the `TypeError` it raises (lemma `InputsAbsentRefused`).

## Model

| member | source | states |
|---|---|---|
| JsText.ReplaceAllAbsent | controllers/formula.js:192 | a global replace of a pattern that does not occur leaves the text unchanged |
| JsText.ReplaceAll | controllers/formula.js:192 | the global replace of a pattern without metacharacters; its meaning is stated by ReplaceAllAbsent, ReplaceAllKeepsPrefix, ReplaceAllFirstMatch, ReplaceAllOneChar and the Interleave lemmas |
| JsText.ReplaceAllKeepsPrefix | controllers/formula.js:192 | the text before the first match is copied unchanged and the scan continues from there |
| JsText.ReplaceAllFirstMatch | controllers/formula.js:192 | the leftmost match wins: when the first occurrence starts at i, the result is the text before i, the replacement, and the replace of the text after the occurrence, so matches never overlap |
| JsText.ReplaceAllOneChar | controllers/calculator.js:145 | replacing a one-character pattern globally is replacing that character at every position |
| JsText.ReplaceCharLength | controllers/calculator.js:145 | each replaced character grows the text by the replacement's length minus one |
| JsText.ReplaceCharAppend | controllers/calculator.js:145 | character replacement works piece by piece over a concatenation |
| JsText.ReplaceCharAbsent | controllers/calculator.js:145 | replacing a character that is absent changes nothing |
| JsText.Count | controllers/calculator.js:145 | the count of a character is at most the length, and zero exactly when the character is absent |
| JsText.InterleaveLength | controllers/formula.js:192 | an empty global pattern keeps every character and adds one more copy of the replacement than there are characters |
| JsText.InterleaveBlock | controllers/formula.js:192 | with an empty pattern, block k of width replacement-length + 1 is the replacement followed by character k |
| JsText.InterleaveEnd | controllers/formula.js:192 | with an empty pattern, the text ends with one more copy of the replacement after the last character |
| JsText.TrimStart | models/user.js:10 | the result is a suffix that does not start with white space, and everything removed is white space |
| JsText.TrimEnd | models/user.js:25 | the result is a prefix that does not end with white space, and everything removed is white space |
| JsText.Trim | models/formula.js:6 | the result is a middle slice with white space only cut off on each side, and it neither starts nor ends with white space |
| JsText.TrimmedFixed | models/formula.js:6 | a text that neither starts nor ends with white space is unchanged by trimming |
| JsText.ToLower | models/user.js:26 | lower-casing keeps the length and maps each character on its own |
| JsText.ToUpper | controllers/formula.js:76 | upper-casing keeps the length and maps each character on its own |
| JsText.ToUpperAbsorbs | controllers/formula.js:76 | upper-casing is idempotent and forgets an earlier lower-casing |
| FormulaModel.ParseCategory | models/formula.js:8-22 | a text is accepted as a category exactly when it is the name of one of the nine enumerated categories |
| FormulaModel.ParseDifficulty | models/formula.js:47 | a text is accepted as a difficulty exactly when it is BEGINNER, INTERMEDIATE or ADVANCED |
| FormulaModel.NewConstraints | models/formula.js:32-36 | min and max are kept as given (optional); mustBePositive holds only when given as true, otherwise it defaults to false |
| FormulaModel.NewVariable | models/formula.js:26-37 | key, name, unit and description are kept; isOutput holds only when given as true; without a constraints object nothing is constrained |
| FormulaModel.NewFormula | models/formula.js:6-58 | a new formula is active, has usage count 0, gets difficulty BEGINNER unless one is given, has its name trimmed, and keeps every other field |
| FormulaModel.Keys | models/formula.js:27 | the declared keys, one per variable, in declaration order |
| FormulaModel.FindVariable | controllers/formula.js:160 | the first variable with the key, or none exactly when no variable has it |
| FormulaModel.FindRelation | controllers/formula.js:135-137 | the first relation solving for the key, or none exactly when no relation does |
| Records.ParseKind | models/calculator.js:7 | a text is accepted as a calculator kind exactly when it is BASIC or QUICK |
| Records.ParseAngleMode | models/calculator.js:10 | a text passes the angle-mode enum exactly when it is RAD or DEG |
| Records.WithDefaults | models/calculator.js:9-12 | a missing angle mode defaults to DEG and a missing precision to 10; given values are kept |
| Seqs.FirstIndex | controllers/formula.js:135-137 | the position of the first element satisfying the test, or none exactly when no element does |
| Seqs.Filter | controllers/formula.js:16-25 | the kept elements are exactly those of the input that satisfy the test |
| Seqs.FilterAppend | controllers/calculator.js:35-38 | filtering works piece by piece over a concatenation |
| Seqs.FilterSamePredicate | controllers/formula.js:76-79 | two tests that agree on every element keep the same elements |
| Seqs.Reverse | controllers/calculator.js:38 | position i of the result is position length-1-i of the input |
| Seqs.ReverseSameElements | controllers/calculator.js:38 | reversing keeps the same elements with the same multiplicities |
| Seqs.InsertDescending | controllers/formula.js:26 | inserting adds exactly the new element to the multiset |
| Seqs.InsertBounded | controllers/formula.js:26 | inserting an element under a bound into elements under that bound keeps every element under it |
| Seqs.InsertKeepsSorted | controllers/formula.js:26 | inserting into a sequence sorted by descending key keeps it sorted |
| Seqs.SortDescending | controllers/formula.js:26 | the result is sorted by descending key and is a permutation of the input |
| Store.Numbered | seeds/formulaSeeds.js:3-461 | the catalog inserted into an empty collection: one document per formula, in order, with consecutive ids |
| Store.FindFormula | controllers/formula.js:126 | the document with the requested id; none exactly when no id is given or no document has it |
| Store.IncrementUsage | controllers/formula.js:225-227 | only the document with that id has its usage count raised by one; ids and all other documents are unchanged |
| Store.IncrementUsageLookup | controllers/formula.js:225-227 | after the increment, ids stay unique; looking up that formula gives it with the raised count, and looking up any other gives the same result as before |
| Store.FindCalculator | controllers/formula.js:111-115 | the first calculator matching every given key (id, owner, kind); a key that is not given is dropped from the filter, as `findOne` drops undefined values; none exactly when no calculator matches |
| Store.RecordKeepsConsistent | controllers/formula.js:209-228 | storing a record under the next free id and bumping a usage count keeps ids unique and below the next free id |
| Store.Db.constructor | seeds/formulaSeeds.js:463-476 | a store seeded with the catalog, with no calculators or calculations, and consistent |
| Store.Db.FreshId | controllers/formula.js:222 | a new id above every stored one; the store stays consistent |
| Paging.Abs | controllers/formula.js:27 | the number of documents a limit admits is the limit or its negation, never negative: the store runs a negative limit as its absolute value |
| Paging.SkipSign | controllers/formula.js:28 | the skip is negative exactly when the page is below 1 with a positive limit, or above 1 with a negative limit |
| Paging.Window | controllers/formula.js:27-28 | a window holds at most limit elements (no bound when the limit is 0), each the input element at skip plus its position; its length is stated exactly |
| Paging.Page | controllers/calculator.js:192-193 | a request fails exactly when the skip would be negative; otherwise the page is the window at (page-1)*limit holding at most the absolute limit |
| Paging.TotalPages | controllers/formula.js:35 | there is no page count exactly when the limit is 0; otherwise it is the ceiling n of total/limit, characterised by n-1 < total/limit <= n for either sign of the limit; with a positive limit it is 0 exactly when there is nothing, with a negative limit it is 0 or below |
| Paging.NegativeLimitMirrors | controllers/formula.js:27-28 | with a negative limit, page p up to 1 is page 2-p of the absolute limit: page 1 is the first documents, page 0 the next ones |
| Paging.PageNonEmptyIffInRange | controllers/calculator.js:192-203 | a page from 1 on is non-empty exactly when its number is at most the page count |
| Paging.ElementOnItsPage | controllers/calculator.js:192-193 | element k appears on page k/limit+1 at position k mod limit |
| FormulaController.OutputParam | controllers/formula.js:105 | outputVariable when it is truthy, otherwise outputKey |
| FormulaController.MissingInputs | controllers/formula.js:147-149 | the missing keys are exactly the required keys the inputs lack; it is empty exactly when every required key is supplied |
| FormulaController.MissingInputsInOrder | controllers/formula.js:147-149 | the missing keys keep requiredInputs order: the list for a concatenation is the two lists concatenated |
| FormulaController.CheckValue | controllers/formula.js:161-179 | a value is rejected exactly when it is not admissible; positivity is checked first, then min, then max, and a min or max of 0 is ignored; the violation carries the variable's name and bound |
| FormulaController.FirstViolation | controllers/formula.js:159-181 | there is no violation exactly when every supplied entry passes its variable's checks; keys without a variable always pass |
| FormulaController.FirstViolationIsFirst | controllers/formula.js:159-181 | a reported violation is the one of the first failing entry, and every earlier entry passes |
| FormulaController.CheckConstraints | controllers/formula.js:159-181 | the loop with early returns reports exactly the scan's first violation |
| FormulaController.Substitute | controllers/formula.js:190-193 | each input's key replaced globally by its rendered value, one input after the other in entry order; its meaning is stated by SubstituteAppend, SubstituteUnusedKeys, SubstituteRewritesInsideIdentifiers and SubstituteInputs |
| FormulaController.SubstituteAppend | controllers/formula.js:190-193 | substituting two groups of inputs is substituting the first group, then the second |
| FormulaController.SubstituteUnusedKeys | controllers/formula.js:190-193 | inputs whose non-empty keys do not occur in the expression leave it unchanged |
| FormulaController.SubstituteRewritesInsideIdentifiers | controllers/formula.js:192 | substitution is not token-aware: key I rewrites the I inside the word Input |
| FormulaController.SubstituteInputs | controllers/formula.js:190-193 | the loop reassigning the expression once per input, in entry order, computes the substitution |
| FormulaController.UnitOf | controllers/formula.js:205-206 | the unit of the declared output variable, or the empty text when the output is not a declared key |
| FormulaController.Status | controllers/formula.js:117-156 | missing calculator and missing formula are 404; every other refusal is 400 |
| FormulaController.ActiveFormula | controllers/formula.js:126-127 | a formula that is found is stored, has the requested id and is active; none exactly when the lookup fails or the formula is inactive |
| FormulaController.ChosenRelation | controllers/formula.js:135-137 | a chosen relation is one of the formula's and solves for the output parameter; none exactly when there is no output parameter or no relation solves for it |
| FormulaController.Compute | controllers/formula.js:105-206 | the outcome is "quick calculator not found" exactly when a calculator id is given and no QUICK calculator matches it; a result names the requested formula and output parameter |
| FormulaController.FormulaNotFoundCases | controllers/formula.js:126-132 | once the calculator check passes, a missing or inactive formula is refused as not found |
| FormulaController.InputsAbsentRefused | controllers/formula.js:146-148 | past the calculator, formula and relation checks, the request is refused because `inputs` is not an object exactly when it has none, with status 400 |
| FormulaController.CannotCalculateIffNoRelation | controllers/formula.js:135-144 | for an active formula the request is refused as "cannot calculate" exactly when no relation solves for the output parameter, and the refusal names that parameter |
| FormulaController.MissingInputsStopBeforeEvaluation | controllers/formula.js:147-156 | when a required input is missing, the refusal lists every missing key, and the outcome does not depend on the evaluator |
| FormulaController.ComputedMeansAllChecksPassed | controllers/formula.js:94-239 | a computed result implies: the calculator check passed; the formula is active; the first relation for the output was used; no input was missing; every input was admissible; the result is the evaluation of the substituted expression; the unit is the output's unit |
| FormulaController.ConstraintsDecideAfterInputs | controllers/formula.js:158-206 | once the inputs are complete, the first constraint violation decides a refusal; with none, the outcome is a result exactly when the substituted expression evaluates, and then it carries that value, the output key, the formula's id, name and text and the output's unit; otherwise it is an evaluation error |
| FormulaController.QuickRecord | controllers/formula.js:211-220 | the QUICK record carries the new id, user, calculator, formula id, inputs, output key, result and unit |
| FormulaController.RunCalculation | controllers/formula.js:105-206 | the route's steps with one early return per refusal compute exactly the specified outcome |
| FormulaController.PerformFormulaCalculation | controllers/formula.js:94-246 | a refusal changes nothing; a result without both calculator and user changes nothing; otherwise exactly one QUICK record is appended and exactly that formula's usage count rises by one; the store stays consistent |
| FormulaController.DescribeInput | controllers/formula.js:265-272 | a key is described with its variable's name, unit and constraints when declared, and with none of them otherwise |
| FormulaController.DescribeInputs | controllers/formula.js:265-273 | one description per required key, in order |
| FormulaController.CalculationOptions | controllers/formula.js:261-274 | one option per relation, in relation order; each option's output is annotated with its variable's name and unit, and its required inputs keep the relation's length and order, each annotated |
| FormulaController.OptionsOf | controllers/formula.js:261-274 | each option is built from its relation's output and its required inputs |
| FormulaController.DescribeDeclared | controllers/formula.js:266-271 | a declared key is always described with a name and a unit |
| FormulaController.OptionsFullyAnnotated | controllers/formula.js:261-274 | when every relation uses declared keys, every option and every input in it has a name and a unit |
| FormulaController.GetFormulaCalculationOptions | controllers/formula.js:249-293 | not found exactly when the formula is missing or inactive; otherwise the formula with its calculation options |
| FormulaController.GetFormulaById | controllers/formula.js:47-69 | the stored, active formula with that id; not found exactly when it is missing or inactive |
| FormulaController.FormulasByCategory | controllers/formula.js:72-91 | exactly the active formulas whose category is the upper-cased parameter, most used first, as a permutation of the filtered formulas |
| FormulaController.FormulasByCategoryIgnoresCase | controllers/formula.js:76-79 | the category lookup gives the same answer for the parameter, its upper-case and its lower-case form |
| FormulaController.Listed | controllers/formula.js:16-26 | exactly the active formulas matching the truthy category and difficulty filters, most used first, as a permutation of the filtered formulas |
| FormulaController.GetFormulas | controllers/formula.js:6-44 | a store error exactly when the skip is negative (page below 1 with a positive limit, or above 1 with a negative one); otherwise the page number echoed, the page count of the matching formulas, and the page itself: element i is element skip+i of the sorted listing, and the length is the absolute limit, or what remains after skip, or 0 |
| FormulaController.PageOfListed | controllers/formula.js:25-28 | a page of the listing is sorted by usage and holds only active, matching formulas |
| CalculatorController.CalculatorName | controllers/calculator.js:14 | a truthy name is kept; otherwise "Basic Calculator" exactly for kind BASIC and "Formula Calculator" for anything else; never empty |
| CalculatorController.InitialSettings | controllers/calculator.js:15 | without settings the calculator gets angle mode DEG and precision 10; given fields are kept as sent |
| CalculatorController.CreateErrors | models/calculator.js:7-11 | the failing paths of a new calculator: kind exactly when it is missing or not BASIC/QUICK, the angle mode exactly when it is not RAD/DEG, the precision exactly when it is outside 1..15 |
| CalculatorController.CreateCalculator | controllers/calculator.js:6-29 | with any failing path the answer is 400 naming every failing path, and nothing changes; otherwise exactly one active calculator is appended with a fresh id, the caller as owner, the parsed kind, the default name and the settings with defaults |
| CalculatorController.CreatedIsValid | models/calculator.js:7-11 | a calculator the route stores has the requested kind, a valid angle mode and precision, and a non-empty name |
| CalculatorController.UserCalculators | controllers/calculator.js:32-50 | exactly the caller's active calculators, newest first |
| CalculatorController.NewestListedFirst | controllers/calculator.js:35-38 | a newly created calculator of the caller heads their listing, followed by the earlier listing |
| CalculatorController.ApplyPatch | controllers/calculator.js:59-67 | only a truthy name, present settings and a present selected formula overwrite their fields; id, owner, kind and active flag never change |
| CalculatorController.ApplyPatchIdempotent | controllers/calculator.js:59-67 | applying a patch twice is applying it once; an empty patch, or one with an empty name only, changes nothing |
| CalculatorController.UpdateCalculator | controllers/calculator.js:53-86 | with no calculator of that id owned by the caller, nothing changes and 404 follows; otherwise exactly that calculator is patched and nothing else changes |
| CalculatorController.DeleteCalculator | controllers/calculator.js:89-117 | the deletion succeeds exactly when the caller owns a calculator with that id; that calculator is kept with its active flag cleared, and nothing else changes |
| CalculatorController.DeletedNotListed | controllers/calculator.js:94-98 | a soft-deleted calculator stays in the store but leaves the owner's listing, and every other listed calculator stays listed |
| CalculatorController.NormalizeCaret | controllers/calculator.js:145 | `expression.replace(/\^/g, '**')`; its meaning is stated by NormalizeCaretSpec and NormalizeCaretIdempotent |
| CalculatorController.NormalizeCaretSpec | controllers/calculator.js:145 | caret normalisation turns each caret into ** and keeps every other character: no caret remains, the length grows by one per caret, it works piece by piece, and a text is unchanged exactly when it has no caret |
| CalculatorController.NormalizeCaretIdempotent | controllers/calculator.js:145 | normalising twice is normalising once |
| CalculatorController.RecordedAngleMode | controllers/calculator.js:158 | the requested angle mode when it is a non-empty text, otherwise the calculator's stored one |
| CalculatorController.RecordErrors | controllers/calculator.js:153-164 | the failing paths of the BASIC record: calculator_id exactly when no id was sent, the angle mode exactly when the recorded one is not RAD/DEG |
| CalculatorController.BasicStatus | controllers/calculator.js:132-176 | a missing calculator is 404; an invalid expression and a rejected record are 400 |
| CalculatorController.BasicCalculation | controllers/calculator.js:126-164 | not found exactly when no BASIC calculator of the caller matches the id (any of them when no id is sent); an invalid expression exactly when one is found and the expression is missing or does not evaluate after caret normalisation; a rejected record exactly when it evaluates and the record fails validation, naming the failing paths; otherwise a result from that very calculator, carrying the evaluation and the recorded angle mode |
| CalculatorController.MissingCalculatorIdRejectedOnSave | controllers/calculator.js:126-164 | without a calculator id, a caller owning a BASIC calculator passes the lookup and the evaluation and is refused with 400 for the missing calculator_id, not 404 |
| CalculatorController.BasicRecord | controllers/calculator.js:153-162 | the BASIC record keeps the original, un-normalised expression, the result, the recorded angle mode, the calculator id, the user, usedAns and the previous answer |
| CalculatorController.PerformBasicCalculation | controllers/calculator.js:120-177 | a refusal answers with its status and changes nothing; a result appends exactly one BASIC record and leaves calculators and formulas unchanged |
| CalculatorController.History | controllers/calculator.js:186-191 | exactly the records of this calculator and this user, newest first |
| CalculatorController.GetCalculationHistory | controllers/calculator.js:180-212 | a store error exactly when the skip is negative (page below 1 with a positive limit, or above 1 with a negative one); otherwise the page number echoed, the page count of the matching records, and the page itself: element i is element skip+i of the newest-first history, and the length is the absolute limit, or what remains after skip, or 0 |
| CalculatorController.NewRecordHeadsHistory | controllers/calculator.js:186-191 | a newly stored record heads its calculator's history for its user |
| Seeds.SeedVarAsCreated | models/formula.js:26-37 | a seed variable is what the schema stores for it |
| Seeds.SeedFormulaAsCreated | models/formula.js:6-58 | a seed formula whose name has no surrounding white space is what the schema stores for it |
| Seeds.OhmsLawWellFormed | seeds/formulaSeeds.js:4-62 | Ohm's law has its required fields, unique keys, one relation per output, relations using declared keys only, no self-input, a relation exactly for each output variable, and expressions that mention exactly their inputs |
| Seeds.PowerFormulaWellFormed | seeds/formulaSeeds.js:64-114 | the same well-formedness for electrical power |
| Seeds.ForceCalculationWellFormed | seeds/formulaSeeds.js:116-166 | the same well-formedness for force |
| Seeds.PressureFormulaWellFormed | seeds/formulaSeeds.js:168-218 | the same well-formedness for pressure |
| Seeds.KineticEnergyWellFormed | seeds/formulaSeeds.js:219-257 | the same well-formedness for kinetic energy (square root only around the inputs) |
| Seeds.PotentialEnergyWellFormed | seeds/formulaSeeds.js:259-304 | the same well-formedness for potential energy, where g is declared but has no relation |
| Seeds.WorkWellFormed | seeds/formulaSeeds.js:306-344 | the same well-formedness for work |
| Seeds.EfficiencyWellFormed | seeds/formulaSeeds.js:346-384 | the same well-formedness for efficiency |
| Seeds.SeriesResistanceWellFormed | seeds/formulaSeeds.js:386-422 | the same well-formedness for series resistance, where R1 and R2 have no relation |
| Seeds.ParallelResistanceWellFormed | seeds/formulaSeeds.js:424-460 | the same well-formedness for parallel resistance, where R1 and R2 have no relation |
| Seeds.CatalogWellFormed | seeds/formulaSeeds.js:3-461 | every formula of the catalog is well formed |
| Seeds.SeededLookup | seeds/formulaSeeds.js:3-461 | in the seeded store, id k resolves to the k-th catalog formula, active |
| Seeds.FindDeclared | controllers/formula.js:160 | with unique keys, looking up a declared key finds that very variable |
| Seeds.FindSolved | controllers/formula.js:135-137 | with one relation per output, looking up an output finds that very relation |
| Seeds.CannotCalculateIffNotOutput | controllers/formula.js:135-144 | for a well-formed formula, asking for a declared variable is refused as "cannot calculate" exactly when it is not flagged as an output |
| Seeds.SeriesResistanceCannotSolveR1 | seeds/formulaSeeds.js:400-419 | solving the seeded series-resistance formula for R1 is refused as "cannot calculate", whatever the inputs |
| Seeds.EntriesOf | seeds/formulaSeeds.js:54-61 | an example's input pairs as entries, in order |
| Seeds.SubstituteTwo | controllers/formula.js:191-193 | two inputs are substituted one after the other |
| Seeds.OhmsLawExampleText | seeds/formulaSeeds.js:54-61 | with I=2 and R=10 the expression for V becomes 2 * 10 |
| Seeds.FirstViolationPair | controllers/formula.js:159-181 | with two inputs, the first one's violation wins over the second's |
| Seeds.OhmsLawExampleComplete | seeds/formulaSeeds.js:54-61 | the example supplies every input the V relation requires |
| Seeds.OhmsLawExampleAdmissible | seeds/formulaSeeds.js:54-61 | the example's values pass every constraint |
| Seeds.OhmsLawExample | seeds/formulaSeeds.js:54-61 | running the example yields the evaluation of 2 * 10 in volts with the formula's name and text, and the expected 20 when evaluation is exact |
| Seeds.OhmsLawCurrentChecks | seeds/formulaSeeds.js:35-51 | solving for I with V and R supplied misses nothing, and only R's constraint can fail |
| Seeds.ResistanceCheck | seeds/formulaSeeds.js:26-33 | a resistance is rejected as not positive at or below 0, below its minimum of 0.001 under it, and accepted from 0.001 on |
| Seeds.OhmsLawResistanceChecks | seeds/formulaSeeds.js:26-50 | solving Ohm's law for I: R at or below 0 is refused as not positive, R under 0.001 as below the minimum, and otherwise the outcome is a result or an evaluation error |
| Seeds.SeededOhmsLaw | seeds/formulaSeeds.js:4-62 | the seeded store resolves id 0 to Ohm's law |
| UserModel.IndexOf | models/user.js:20 | the position of the first occurrence, or the length when the character is absent |
| UserModel.Split | models/user.js:20 | at least one piece, none containing the separator |
| UserModel.SplitJoin | models/user.js:20 | joining the pieces with the separator gives back the text |
| UserModel.SplitCount | models/user.js:20 | the number of pieces is one more than the number of separators |
| UserModel.CountAppend | models/user.js:20 | character counts add over concatenation |
| UserModel.LabelsShapeCons | models/user.js:20 | the domain shape read one label at a time |
| UserModel.DomainMatchesShape | models/user.js:20 | the domain part of the pattern matches exactly the texts made of at least two dot-separated non-empty labels over letters, digits, _ and -, the last of 2 to 4 characters |
| UserModel.DomainMatchesHasShape | models/user.js:20 | a domain the pattern matches has that shape |
| UserModel.DomainShapeMatches | models/user.js:20 | a domain of that shape is matched by the pattern |
| UserModel.EmailMatchesShape | models/user.js:20 | the whole pattern matches exactly the texts with one @ splitting them into a non-empty local part over letters, digits, _, - and . and a domain of that shape |
| UserModel.EmailMatchesHasShape | models/user.js:20 | an accepted address has that shape |
| UserModel.EmailShapeMatches | models/user.js:20 | an address of that shape is accepted |
| UserModel.SplitNoAt | models/user.js:20 | a domain of that shape holds no @ |
| UserModel.AcceptedHasOneAt | models/user.js:20 | an accepted address holds exactly one @ |
| UserModel.EmailMatches | models/user.js:20 | the pattern read structurally: an @ with an accepted local part before it and a matching domain after it; its meaning is stated by EmailMatchesShape and the lemmas around it |
| UserModel.NormalizeEmail | models/user.js:25-26 | the stored address is no longer than the input, has no upper-case letter, and neither starts nor ends with white space |
| UserModel.NormalizeEmailIdempotent | models/user.js:25-26 | normalising a stored address again changes nothing |
| UserModel.LowerFixed | models/user.js:26 | lower-casing a text without upper-case letters changes nothing |
| UserModel.EmailValidIffShape | models/user.js:16-27 | an address is valid exactly when, after trimming and lower-casing, it has the accepted shape |
| UserModel.EmailValidIgnoresCaseAndPadding | models/user.js:16-27 | an address and its normalised form are valid together |
| UserModel.InvalidFields | models/user.js:6-35 | each path fails on its own check: username when missing or empty after trimming, hashedPassword when missing or empty, email when not valid, bio when longer than 500 |
| UserModel.NewUser | models/user.js:4-41 | a new user is rejected exactly when some field fails, listing every failing field; a saved user has a trimmed non-empty username, the hash, the normalised address of the accepted shape, avatar and bio defaulting to empty, and a bio of at most 500 characters |
| UserModel.SavedEmailRevalidates | models/user.js:16-27 | a stored address is valid again and already normalised |
| UserModel.ToJSON | models/user.js:43-48 | the JSON form drops hashedPassword and keeps every other field with its value |
| UserModel.ToJSONIdempotent | models/user.js:43-48 | the transform is idempotent and leaves a document without a hash as it is |
| UserModel.UserJSONHidesHash | models/user.js:43-48 | of the schema's own fields, a user's JSON keeps exactly username, email, avatar, bio and savedPosts, with their stored values, and drops hashedPassword |

## Left out

- Numeric evaluation: `eval` of the substituted text is the parameter `evaluate`, so IEEE double arithmetic, `Infinity` on division by zero and JavaScript operator syntax are not modelled. The worked Ohm's law example holds under stated assumptions about `evaluate` and `render`.
- Number-to-text conversion: the parameter `render`.
- Regular-expression metacharacters in variable keys are not modelled, because `new RegExp(key, 'g')` is read as a literal pattern. Every seed key is a plain identifier.
- Seeds.MentionsExactlyInputs: this is weaker than "the identifiers of each expression are its required inputs". It is stated over the text: each declared key occurs in the expression exactly when it is a required input. This is what matters for textual substitution. `Math.sqrt` is not a declared key.
- Text search (`search`, `$text` and the `textScore` sort) in the listing is not modelled, because ranking is database-defined. The listing model ignores the search parameter.
- Query strings: the coercion of `page` and `limit` from query text is not modelled, because the model takes them as integers; a text that is not a whole number is left out. A negative skip is a store error. A limit of 0 means "no limit" and gives no page count, the counterpart of `Infinity`. A negative limit returns at most its absolute value of documents, and its page count is 0 or below.
- Timestamps: `createdAt` ordering is insertion order, because no clock is modelled.
- `$inc` atomicity and other concurrent requests are not modelled: the store is sequential.
- `seedFormulasDB` is delete-and-insert I/O. It is represented only by `Store.Db.constructor` over the catalog.
- `populate('formulaId', ...)` in the history route is not modelled, because it only joins display fields.
- JsText.ToLower and JsText.ToUpper map ASCII letters only, which is weaker than full Unicode case mapping. For example, the Kelvin sign lower-cases to `k` in JavaScript.
- UserModel.NewUser: the bio length is counted in code points, not UTF-16 code units.
- UserModel.NewUser: the unique indexes on username and email are not checked, because they need the whole user collection.
- CalculatorController.UpdateCalculator: patched settings are stored without validation, as the route does (update validators are off by default), so a calculator can hold an angle mode outside RAD/DEG; the basic route then rejects its records.
- UserModel.UserDocument: `_id`, `__v`, `createdAt` and `updatedAt` are not modelled; the real `toJSON` keeps them too.
- CalculatorController.BasicCalculation: `eval` returning something that is not a number (such as `undefined` for an empty expression) is not modelled; `evaluate` yields a number or fails. The save would then reject the required `result`.
- Natural order: `findOne` returns the first matching document in the store's natural order, taken here as insertion order.
- CalculatorController.CreateCalculator: a settings object of the wrong type is not modelled. Neither are Mongoose's cast errors, such as an id that is not an ObjectId; these surface as 400 or 500 and are left out.
- FormulaController.Compute: input values are modelled as numbers only. The route compares and substitutes the raw JSON values before anything is saved, and the record's `inputs` map takes any value. So JavaScript's coercion in `value <= 0` and `value < min` is not captured: `null` is refused as not positive. Nor is the verbatim substitution of a value that is not a number: a text `"1 + 1"` becomes part of the expression.
- FormulaController.PerformFormulaCalculation: `eval` returning `NaN` or a value that is not a number is not modelled; `evaluate` yields a number or fails. With a calculator and a user, the save then rejects the required `result` with 400. The same request without a calculator answers 200.
- The schema default name "My Calculator" is never reached, because the create route always supplies a name.
- The other routes and models are not part of this model: posts, comments, private chats, profile (with its image upload), users, the server wiring, the routes and the token middleware.
