/**
 * The formula routes: the calculation pipeline (choose the output parameter,
 * check the QUICK calculator, resolve the active formula, pick the relation,
 * collect missing inputs, check constraints, substitute the inputs into the
 * expression as text, evaluate, look up the unit, and record the calculation
 * when a calculator and a user are given), the calculation-options
 * projection, and the three read paths: by id, by category, and the filtered,
 * sorted, paged listing.
 *
 * Evaluating the substituted text (JavaScript's `eval`) and rendering a number
 * as text (`String(value)`) are outside the model: both are parameters,
 * `evaluate` returning `None` where `eval` throws.
 */
module FormulaController {
  import opened Wrappers
  import opened JsText
  import opened FormulaModel
  import opened Records
  import opened Store
  import Seqs
  import Paging

  // ---------------------------------------------------------------------------
  // Steps of the calculation
  // ---------------------------------------------------------------------------

  /** `outputVariable || outputKey`: the requested output when truthy, otherwise the other name. */
  function OutputParam(outputVariable: Option<string>, outputKey: Option<string>): (r: Option<string>)
    ensures Truthy(outputVariable) ==> r == outputVariable
    ensures !Truthy(outputVariable) ==> r == outputKey
  {
    if Truthy(outputVariable) then outputVariable else outputKey
  }

  /**
   * `requiredInputs.filter(input => !inputs.hasOwnProperty(input))`: every
   * required key that the inputs lack, in the order they are required.
   */
  function MissingInputs(required: seq<Key>, inputs: Inputs): (r: seq<Key>)
    ensures forall k :: k in r <==> k in required && !HasKey(inputs, k)
    ensures r == [] <==> forall k :: k in required ==> HasKey(inputs, k)
  {
    var r := Seqs.Filter(required, (k: Key) => !HasKey(inputs, k));
    assert r != [] ==> r[0] in r;
    r
  }

  /**
   * The missing keys of a concatenated list are those of each part, one after
   * the other: the report keeps the order of `requiredInputs`.
   */
  lemma MissingInputsInOrder(a: seq<Key>, b: seq<Key>, inputs: Inputs)
    ensures MissingInputs(a + b, inputs) == MissingInputs(a, inputs) + MissingInputs(b, inputs)
  {
    Seqs.FilterAppend(a, b, (k: Key) => !HasKey(inputs, k));
  }

  /** The three ways a value can break its variable's constraints, in checking order. */
  datatype Violation =
    | NotPositive(name: string)
    | BelowMin(name: string, min: real)
    | AboveMax(name: string, max: real)

  /** A bound is enforced only when truthy: present and not 0. */
  predicate BoundSet(b: Option<real>) {
    b.Some? && b.value != 0.0
  }

  /** Whether a value satisfies all the constraints that are enforced. */
  predicate Admissible(c: Constraints, x: real) {
    && !(c.mustBePositive && x <= 0.0)
    && !(BoundSet(c.min) && x < c.min.value)
    && !(BoundSet(c.max) && x > c.max.value)
  }

  /**
   * The constraint checks of one variable, in order: positivity, then `min`,
   * then `max`; the first that fails is reported with the variable's name.
   */
  function CheckValue(v: Variable, x: real): (r: Option<Violation>)
    ensures r.None? <==> Admissible(v.constraints, x)
    ensures v.constraints.mustBePositive && x <= 0.0 ==> r == Some(NotPositive(v.name))
    ensures r.Some? && r.value.BelowMin? ==>
              !(v.constraints.mustBePositive && x <= 0.0)
              && BoundSet(v.constraints.min) && x < v.constraints.min.value
              && r.value == BelowMin(v.name, v.constraints.min.value)
    ensures r.Some? && r.value.AboveMax? ==>
              !(v.constraints.mustBePositive && x <= 0.0)
              && !(BoundSet(v.constraints.min) && x < v.constraints.min.value)
              && BoundSet(v.constraints.max) && x > v.constraints.max.value
              && r.value == AboveMax(v.name, v.constraints.max.value)
  {
    var c := v.constraints;
    if c.mustBePositive && x <= 0.0 then Some(NotPositive(v.name))
    else if BoundSet(c.min) && x < c.min.value then Some(BelowMin(v.name, c.min.value))
    else if BoundSet(c.max) && x > c.max.value then Some(AboveMax(v.name, c.max.value))
    else None
  }

  /** An input entry passes when it names no declared variable or its value is admissible. */
  predicate EntryPasses(vars: seq<Variable>, e: Entry) {
    var v := FindVariable(vars, e.key);
    v.None? || Admissible(v.value.constraints, e.value)
  }

  /**
   * The constraint scan over every supplied input, in entry order, including
   * inputs that are not required: the first violation found, or none.
   */
  function FirstViolation(inputs: Inputs, vars: seq<Variable>): (r: Option<Violation>)
    ensures r.None? <==> forall i :: 0 <= i < |inputs| ==> EntryPasses(vars, inputs[i])
  {
    if inputs == [] then None
    else
      var v := FindVariable(vars, inputs[0].key);
      var here := if v.Some? then CheckValue(v.value, inputs[0].value) else None;
      if here.Some? then here
      else
        assert forall i :: 1 <= i < |inputs| ==> inputs[i] == inputs[1..][i - 1];
        FirstViolation(inputs[1..], vars)
  }

  /**
   * A reported violation is that of the first input that fails its checks:
   * every earlier input passes, and the report is that input's first failing
   * check.
   */
  lemma {:induction false} FirstViolationIsFirst(inputs: Inputs, vars: seq<Variable>)
    requires FirstViolation(inputs, vars).Some?
    ensures exists i :: && 0 <= i < |inputs|
                        && (forall j :: 0 <= j < i ==> EntryPasses(vars, inputs[j]))
                        && FindVariable(vars, inputs[i].key).Some?
                        && FirstViolation(inputs, vars)
                             == CheckValue(FindVariable(vars, inputs[i].key).value, inputs[i].value)
    decreases |inputs|
  {
    var v := FindVariable(vars, inputs[0].key);
    if v.Some? && CheckValue(v.value, inputs[0].value).Some? {
      assert 0 < |inputs| && FindVariable(vars, inputs[0].key).Some?;
    } else {
      var rest := inputs[1..];
      FirstViolationIsFirst(rest, vars);
      var i :| && 0 <= i < |rest|
               && (forall j :: 0 <= j < i ==> EntryPasses(vars, rest[j]))
               && FindVariable(vars, rest[i].key).Some?
               && FirstViolation(rest, vars) == CheckValue(FindVariable(vars, rest[i].key).value, rest[i].value);
      assert EntryPasses(vars, inputs[0]);
      assert FirstViolation(inputs, vars) == FirstViolation(rest, vars);
      forall j | 0 <= j < i + 1 ensures EntryPasses(vars, inputs[j]) {
        if j > 0 { assert inputs[j] == rest[j - 1]; }
      }
      var k := i + 1;
      assert inputs[k] == rest[i];
      assert FirstViolation(inputs, vars) == CheckValue(FindVariable(vars, inputs[k].key).value, inputs[k].value);
    }
  }

  /**
   * The constraint loop: scan the inputs in entry order, look up each key's
   * variable, and stop at the first failing check.
   */
  method CheckConstraints(inputs: Inputs, vars: seq<Variable>) returns (violation: Option<Violation>)
    ensures violation == FirstViolation(inputs, vars)
  {
    for i := 0 to |inputs|
      invariant FirstViolation(inputs, vars) == FirstViolation(inputs[i..], vars)
    {
      assert inputs[i..][1..] == inputs[i + 1..];
      var key, value := inputs[i].key, inputs[i].value;
      var variable := FindVariable(vars, key);
      if variable.Some? {
        var c := variable.value.constraints;
        if c.mustBePositive && value <= 0.0 {
          return Some(NotPositive(variable.value.name));
        }
        if BoundSet(c.min) && value < c.min.value {
          return Some(BelowMin(variable.value.name, c.min.value));
        }
        if BoundSet(c.max) && value > c.max.value {
          return Some(AboveMax(variable.value.name, c.max.value));
        }
      }
    }
    violation := None;
  }

  /**
   * Textual substitution: for each input in entry order, every occurrence of
   * its key's text in the expression is replaced by its value's text.
   */
  function Substitute(expression: string, inputs: Inputs, render: real -> string): string
    decreases |inputs|
  {
    if inputs == [] then expression
    else Substitute(ReplaceAll(expression, inputs[0].key, render(inputs[0].value)), inputs[1..], render)
  }

  /** Substituting two groups of inputs is substituting one group, then the other. */
  lemma {:induction false} SubstituteAppend(e: string, a: Inputs, b: Inputs, render: real -> string)
    ensures Substitute(e, a + b, render) == Substitute(Substitute(e, a, render), b, render)
    decreases |a|
  {
    if a == [] {
      assert a + b == b;
    } else {
      assert (a + b)[1..] == a[1..] + b;
      SubstituteAppend(ReplaceAll(e, a[0].key, render(a[0].value)), a[1..], b, render);
    }
  }

  /** Inputs whose (non-empty) keys do not occur in the expression leave it untouched. */
  lemma {:induction false} SubstituteUnusedKeys(e: string, inputs: Inputs, render: real -> string)
    requires forall i :: 0 <= i < |inputs| ==> inputs[i].key != [] && !Occurs(e, inputs[i].key)
    ensures Substitute(e, inputs, render) == e
    decreases |inputs|
  {
    if inputs != [] {
      ReplaceAllAbsent(e, inputs[0].key, render(inputs[0].value));
      SubstituteUnusedKeys(e, inputs[1..], render);
    }
  }

  /**
   * The substitution is not token-aware: an input key "I" rewrites the "I"
   * inside the identifier "Input", whatever the value's text is.
   */
  lemma SubstituteRewritesInsideIdentifiers(x: real, render: real -> string)
    ensures Substitute("Input", [Entry("I", x)], render) == render(x) + "nput"
  {
    var rest: string := "nput";
    assert !Occurs(rest, "I") by {
      forall i | 0 <= i <= |rest| ensures !OccursAt(rest, "I", i) {
        if i + 1 <= |rest| { assert rest[i..i + 1] == [rest[i]]; }
      }
    }
    ReplaceAllAbsent(rest, "I", render(x));
    assert "Input"[|"I"|..] == rest;
    ReplaceAllFirstMatch("Input", "I", render(x), 0);
  }

  /** The substitution loop, reassigning the expression once per input. */
  method SubstituteInputs(expression: string, inputs: Inputs, render: real -> string) returns (e: string)
    ensures e == Substitute(expression, inputs, render)
  {
    e := expression;
    for i := 0 to |inputs|
      invariant Substitute(e, inputs[i..], render) == Substitute(expression, inputs, render)
    {
      assert inputs[i..][1..] == inputs[i + 1..];
      e := ReplaceAll(e, inputs[i].key, render(inputs[i].value));
    }
    assert inputs[|inputs|..] == [];
  }

  /** The result's unit: the output variable's unit, or "" when it is not a declared variable. */
  function UnitOf(vars: seq<Variable>, output: Option<string>): (u: string)
    ensures output.Some? && FindVariable(vars, output.value).Some? ==>
              exists i :: 0 <= i < |vars| && vars[i].key == output.value && u == vars[i].unit
    ensures output.None? || FindVariable(vars, output.value).None? ==> u == ""
  {
    if output.None? then ""
    else
      var v := FindVariable(vars, output.value);
      if v.Some? then v.value.unit else ""
  }

  // ---------------------------------------------------------------------------
  // The calculation pipeline
  // ---------------------------------------------------------------------------

  datatype CalculateRequest = CalculateRequest(
    calculatorId: Option<Id>,
    formulaId: Option<Id>,
    inputs: Option<ObjectEntries>,
    outputKey: Option<string>,
    outputVariable: Option<string>)

  /** Why a calculation request is refused. */
  datatype CalcError =
    | QuickCalculatorNotFound
    | FormulaNotFound
    | CannotCalculate(output: Option<string>)
    | InputsNotAnObject
    | MissingRequiredInputs(keys: seq<Key>)
    | ConstraintViolated(violation: Violation)
    | CalculationError

  /** The HTTP status of each refusal. */
  function Status(e: CalcError): (code: nat)
    ensures code == 404 <==> e.QuickCalculatorNotFound? || e.FormulaNotFound?
    ensures code == 400 <==> !(e.QuickCalculatorNotFound? || e.FormulaNotFound?)
  {
    if e.QuickCalculatorNotFound? || e.FormulaNotFound? then 404 else 400
  }

  /** The outcome of steps 1 to 8, before anything is stored. */
  datatype Outcome =
    | Failed(error: CalcError)
    | Computed(formulaId: Id, outputKey: Key, result: real, unit: string, name: string, formulaText: string)

  /** Whether a calculator id is given and no QUICK calculator of this user has it. */
  predicate QuickCalculatorMissing(calculators: seq<Calculator>, req: CalculateRequest, userId: Option<Id>) {
    req.calculatorId.Some? && FindCalculator(calculators, req.calculatorId, userId, Some(Quick)).None?
  }

  /** The formula the request names, when it exists and is active. */
  function ActiveFormula(formulas: seq<FormulaDoc>, id: Option<Id>): (r: Option<FormulaDoc>)
    ensures r.Some? ==> r.value in formulas && id == Some(r.value.id) && r.value.formula.isActive
    ensures r.None? <==> FindFormula(formulas, id).None? || !FindFormula(formulas, id).value.formula.isActive
  {
    var doc := FindFormula(formulas, id);
    if doc.Some? && doc.value.formula.isActive then doc else None
  }

  /** The relation solving for the chosen output parameter, if any. */
  function ChosenRelation(f: Formula, req: CalculateRequest): (r: Option<Relation>)
    ensures r.Some? ==> OutputParam(req.outputVariable, req.outputKey) == Some(r.value.outputVariable)
                        && r.value in f.calculations
    ensures r.None? <==> || OutputParam(req.outputVariable, req.outputKey).None?
                         || forall i :: 0 <= i < |f.calculations| ==>
                              f.calculations[i].outputVariable != OutputParam(req.outputVariable, req.outputKey).value
  {
    var param := OutputParam(req.outputVariable, req.outputKey);
    if param.None? then None else FindRelation(f.calculations, param.value)
  }

  /** Steps 1 to 8 of the calculation, in the order the route runs them. */
  function Compute(formulas: seq<FormulaDoc>, calculators: seq<Calculator>, req: CalculateRequest,
                   userId: Option<Id>, evaluate: string -> Option<real>, render: real -> string): (o: Outcome)
    ensures QuickCalculatorMissing(calculators, req, userId) <==> o == Failed(QuickCalculatorNotFound)
    ensures o.Computed? ==> req.formulaId == Some(o.formulaId)
                            && OutputParam(req.outputVariable, req.outputKey) == Some(o.outputKey)
  {
    var param := OutputParam(req.outputVariable, req.outputKey);
    if QuickCalculatorMissing(calculators, req, userId) then Failed(QuickCalculatorNotFound)
    else
      var doc := ActiveFormula(formulas, req.formulaId);
      if doc.None? then Failed(FormulaNotFound)
      else
        var f := doc.value.formula;
        var rel := ChosenRelation(f, req);
        if rel.None? then Failed(CannotCalculate(param))
        else if req.inputs.None? then Failed(InputsNotAnObject)
        else
          var inputs := req.inputs.value;
          var missing := MissingInputs(rel.value.requiredInputs, inputs);
          if missing != [] then Failed(MissingRequiredInputs(missing))
          else
            var violation := FirstViolation(inputs, f.variables);
            if violation.Some? then Failed(ConstraintViolated(violation.value))
            else
              var value := evaluate(Substitute(rel.value.expression, inputs, render));
              if value.None? then Failed(CalculationError)
              else Computed(doc.value.id, param.value, value.value, UnitOf(f.variables, param), f.name, f.formula)
  }

  /**
   * A missing or inactive formula is refused with "not found", unless the
   * calculator check has refused the request first.
   */
  lemma FormulaNotFoundCases(formulas: seq<FormulaDoc>, calculators: seq<Calculator>, req: CalculateRequest,
                             userId: Option<Id>, evaluate: string -> Option<real>, render: real -> string)
    requires !QuickCalculatorMissing(calculators, req, userId)
    requires var doc := FindFormula(formulas, req.formulaId); doc.None? || !doc.value.formula.isActive
    ensures Compute(formulas, calculators, req, userId, evaluate, render) == Failed(FormulaNotFound)
  {
  }

  /**
   * Past the calculator and formula checks, the request is refused with
   * "cannot calculate" exactly when the formula has no relation for the
   * requested output.
   */
  lemma CannotCalculateIffNoRelation(formulas: seq<FormulaDoc>, calculators: seq<Calculator>,
                                     req: CalculateRequest, userId: Option<Id>,
                                     evaluate: string -> Option<real>, render: real -> string)
    requires !QuickCalculatorMissing(calculators, req, userId)
    requires ActiveFormula(formulas, req.formulaId).Some?
    ensures var o := Compute(formulas, calculators, req, userId, evaluate, render);
            o.Failed? && o.error.CannotCalculate?
            <==> ChosenRelation(ActiveFormula(formulas, req.formulaId).value.formula, req).None?
    ensures var o := Compute(formulas, calculators, req, userId, evaluate, render);
            o.Failed? && o.error.CannotCalculate? ==> o.error.output == OutputParam(req.outputVariable, req.outputKey)
  {
  }

  /**
   * Past the calculator, formula and relation checks, the request is refused
   * with 400 because `inputs` is not an object exactly when it has none.
   */
  lemma InputsAbsentRefused(formulas: seq<FormulaDoc>, calculators: seq<Calculator>,
                            req: CalculateRequest, userId: Option<Id>,
                            evaluate: string -> Option<real>, render: real -> string)
    requires !QuickCalculatorMissing(calculators, req, userId)
    requires ActiveFormula(formulas, req.formulaId).Some?
    requires ChosenRelation(ActiveFormula(formulas, req.formulaId).value.formula, req).Some?
    ensures Compute(formulas, calculators, req, userId, evaluate, render) == Failed(InputsNotAnObject)
            <==> req.inputs.None?
    ensures Status(InputsNotAnObject) == 400
  {
  }

  /**
   * When required inputs are missing the request is refused with all of them,
   * and nothing is evaluated: the outcome does not depend on the evaluator.
   */
  lemma MissingInputsStopBeforeEvaluation(formulas: seq<FormulaDoc>, calculators: seq<Calculator>,
                                          req: CalculateRequest, userId: Option<Id>,
                                          evaluate: string -> Option<real>, evaluate': string -> Option<real>,
                                          render: real -> string)
    requires !QuickCalculatorMissing(calculators, req, userId)
    requires ActiveFormula(formulas, req.formulaId).Some?
    requires ChosenRelation(ActiveFormula(formulas, req.formulaId).value.formula, req).Some?
    requires req.inputs.Some?
    requires var rel := ChosenRelation(ActiveFormula(formulas, req.formulaId).value.formula, req).value;
             exists k :: k in rel.requiredInputs && !HasKey(req.inputs.value, k)
    ensures var rel := ChosenRelation(ActiveFormula(formulas, req.formulaId).value.formula, req).value;
            Compute(formulas, calculators, req, userId, evaluate, render)
              == Failed(MissingRequiredInputs(MissingInputs(rel.requiredInputs, req.inputs.value)))
    ensures Compute(formulas, calculators, req, userId, evaluate, render)
              == Compute(formulas, calculators, req, userId, evaluate', render)
  {
  }

  /**
   * A computed result means every check passed: the calculator (when named)
   * exists, the formula is active, the first relation for the output was
   * used, no required input is missing, every input is admissible, and the
   * result is what the evaluator gives for the substituted expression.
   */
  lemma ComputedMeansAllChecksPassed(formulas: seq<FormulaDoc>, calculators: seq<Calculator>,
                                     req: CalculateRequest, userId: Option<Id>,
                                     evaluate: string -> Option<real>, render: real -> string)
    requires Compute(formulas, calculators, req, userId, evaluate, render).Computed?
    ensures var o := Compute(formulas, calculators, req, userId, evaluate, render);
      && !QuickCalculatorMissing(calculators, req, userId)
      && req.formulaId == Some(o.formulaId)
      && ActiveFormula(formulas, req.formulaId).Some?
      && var f := ActiveFormula(formulas, req.formulaId).value.formula;
         && OutputParam(req.outputVariable, req.outputKey) == Some(o.outputKey)
         && FindRelation(f.calculations, o.outputKey).Some?
         && req.inputs.Some?
         && var rel := FindRelation(f.calculations, o.outputKey).value;
            && rel.outputVariable == o.outputKey
            && (forall k :: k in rel.requiredInputs ==> HasKey(req.inputs.value, k))
            && (forall i :: 0 <= i < |req.inputs.value| ==> EntryPasses(f.variables, req.inputs.value[i]))
            && evaluate(Substitute(rel.expression, req.inputs.value, render)) == Some(o.result)
            && o.unit == UnitOf(f.variables, Some(o.outputKey))
  {
  }

  /**
   * Once the output has a relation and no required input is missing, the
   * first constraint violation decides the refusal; with none, only the
   * evaluator can still fail.
   */
  lemma ConstraintsDecideAfterInputs(formulas: seq<FormulaDoc>, calculators: seq<Calculator>,
                                     req: CalculateRequest, userId: Option<Id>,
                                     evaluate: string -> Option<real>, render: real -> string)
    requires !QuickCalculatorMissing(calculators, req, userId)
    requires ActiveFormula(formulas, req.formulaId).Some?
    requires ChosenRelation(ActiveFormula(formulas, req.formulaId).value.formula, req).Some?
    requires req.inputs.Some?
    requires MissingInputs(ChosenRelation(ActiveFormula(formulas, req.formulaId).value.formula, req).value.requiredInputs,
                           req.inputs.value) == []
    ensures var o := Compute(formulas, calculators, req, userId, evaluate, render);
            var violation := FirstViolation(req.inputs.value, ActiveFormula(formulas, req.formulaId).value.formula.variables);
            && (violation.Some? ==> o == Failed(ConstraintViolated(violation.value)))
            && (violation.None? ==> o.Computed? || o == Failed(CalculationError))
  ensures var o := Compute(formulas, calculators, req, userId, evaluate, render);
          var f := ActiveFormula(formulas, req.formulaId).value.formula;
          var rel := ChosenRelation(f, req).value;
          var value := evaluate(Substitute(rel.expression, req.inputs.value, render));
          FirstViolation(req.inputs.value, f.variables).None? ==>
            && (o.Computed? <==> value.Some?)
            && (value.None? ==> o == Failed(CalculationError))
            && (value.Some? ==> && o.result == value.value && o.outputKey == rel.outputVariable
                                && Some(o.formulaId) == req.formulaId
                                && o.unit == UnitOf(f.variables, Some(rel.outputVariable))
                                && o.name == f.name && o.formulaText == f.formula)
  {
  }

  /** The response of the calculate route. */
  datatype CalcResponse =
    | CalcRefused(status: nat, error: CalcError)
    | CalcDone(result: real, unit: string, name: string, formulaText: string, calculation: Option<Calculation>)

  /** The QUICK record a successful, attributed calculation stores. */
  function QuickRecord(id: Id, userId: Id, calculatorId: Id, o: Outcome, inputs: Inputs): (c: Calculation)
    requires o.Computed?
    ensures c.kind == Quick && c.formulaId == Some(o.formulaId) && c.inputs == inputs
    ensures c.outputKey == Some(o.outputKey) && c.result == o.result && c.unit == o.unit
    ensures c.id == id && c.userId == Some(userId) && c.calculatorId == calculatorId
  {
    Calculation(id, Some(userId), calculatorId, Quick, None, DefaultAngleMode, false, None,
                Some(o.formulaId), inputs, Some(o.outputKey), o.result, o.unit)
  }

  /**
   * Steps 1 to 8 as the route runs them, one early return per refusal, with
   * the constraint loop and the substitution loop.
   */
  method RunCalculation(formulas: seq<FormulaDoc>, calculators: seq<Calculator>, req: CalculateRequest,
                        userId: Option<Id>, evaluate: string -> Option<real>, render: real -> string)
    returns (o: Outcome)
    ensures o == Compute(formulas, calculators, req, userId, evaluate, render)
  {
    var param := OutputParam(req.outputVariable, req.outputKey);

    if req.calculatorId.Some? {
      var calculator := FindCalculator(calculators, req.calculatorId, userId, Some(Quick));
      if calculator.None? {
        return Failed(QuickCalculatorNotFound);
      }
    }

    var doc := FindFormula(formulas, req.formulaId);
    if doc.None? || !doc.value.formula.isActive {
      return Failed(FormulaNotFound);
    }
    var formula := doc.value.formula;

    var calculation := if param.None? then None else FindRelation(formula.calculations, param.value);
    if calculation.None? {
      return Failed(CannotCalculate(param));
    }
    if req.inputs.None? {
      return Failed(InputsNotAnObject);
    }
    var inputs := req.inputs.value;

    var missing := MissingInputs(calculation.value.requiredInputs, inputs);
    if missing != [] {
      return Failed(MissingRequiredInputs(missing));
    }

    var violation := CheckConstraints(inputs, formula.variables);
    if violation.Some? {
      return Failed(ConstraintViolated(violation.value));
    }

    var expression := SubstituteInputs(calculation.value.expression, inputs, render);
    var result := evaluate(expression);
    if result.None? {
      return Failed(CalculationError);
    }

    var unit := UnitOf(formula.variables, param);
    o := Computed(doc.value.id, param.value, result.value, unit, formula.name, formula.formula);
  }

  /**
   * The calculate route. On a refusal nothing changes. On success, when both
   * a calculator id and a user id are present, exactly one QUICK record is
   * appended and that formula's usage count goes up by one; otherwise the
   * store is left as it was.
   */
  method PerformFormulaCalculation(db: Db, req: CalculateRequest, userId: Option<Id>,
                                   evaluate: string -> Option<real>, render: real -> string)
    returns (resp: CalcResponse)
    requires db.Valid()
    modifies db
    ensures db.Valid()
    ensures var o := Compute(old(db.formulas), old(db.calculators), req, userId, evaluate, render);
      && (o.Failed? ==> resp == CalcRefused(Status(o.error), o.error) && unchanged(db))
      && (o.Computed? && (req.calculatorId.None? || userId.None?) ==>
            resp == CalcDone(o.result, o.unit, o.name, o.formulaText, None) && unchanged(db))
      && (o.Computed? && req.calculatorId.Some? && userId.Some? ==>
            var record := QuickRecord(old(db.nextId), userId.value, req.calculatorId.value, o, req.inputs.value);
            && resp == CalcDone(o.result, o.unit, o.name, o.formulaText, Some(record))
            && db.calculations == old(db.calculations) + [record]
            && db.formulas == IncrementUsage(old(db.formulas), o.formulaId)
            && db.calculators == old(db.calculators)
            && db.nextId == old(db.nextId) + 1)
  {
    var o := RunCalculation(db.formulas, db.calculators, req, userId, evaluate, render);
    if o.Failed? {
      return CalcRefused(Status(o.error), o.error);
    }
    assert req.inputs.Some? by {
      ComputedMeansAllChecksPassed(db.formulas, db.calculators, req, userId, evaluate, render);
    }

    if req.calculatorId.Some? && userId.Some? {
      var id := db.FreshId();
      var record := QuickRecord(id, userId.value, req.calculatorId.value, o, req.inputs.value);
      RecordKeepsConsistent(db.formulas, db.calculators, db.calculations, id, o.formulaId, record);
      db.calculations := db.calculations + [record];
      db.formulas := IncrementUsage(db.formulas, o.formulaId);
      resp := CalcDone(o.result, o.unit, o.name, o.formulaText, Some(record));
    } else {
      resp := CalcDone(o.result, o.unit, o.name, o.formulaText, None);
    }
  }

  // ---------------------------------------------------------------------------
  // Calculation options
  // ---------------------------------------------------------------------------

  /** What the options route tells a client about one required input. */
  datatype InputInfo = InputInfo(key: Key, name: Option<string>, unit: Option<string>,
                                 constraints: Option<Constraints>)

  /** One solvable output and the inputs it needs. */
  datatype CalcOption = CalcOption(outputVariable: Key, outputName: Option<string>,
                                   outputUnit: Option<string>, requiredInputs: seq<InputInfo>)

  /** `variables.find(v => v.key === key)?.field` for the three annotated fields. */
  function DescribeInput(vars: seq<Variable>, key: Key): (info: InputInfo)
    ensures info.key == key
    ensures info.name.Some? <==> FindVariable(vars, key).Some?
    ensures info.name.Some? ==> && info.name.value == FindVariable(vars, key).value.name
                                && info.unit == Some(FindVariable(vars, key).value.unit)
                                && info.constraints == Some(FindVariable(vars, key).value.constraints)
    ensures info.name.None? ==> info.unit.None? && info.constraints.None?
  {
    var v := FindVariable(vars, key);
    if v.Some? then InputInfo(key, Some(v.value.name), Some(v.value.unit), Some(v.value.constraints))
    else InputInfo(key, None, None, None)
  }

  function DescribeInputs(vars: seq<Variable>, keys: seq<Key>): (infos: seq<InputInfo>)
    ensures |infos| == |keys|
    ensures forall j :: 0 <= j < |keys| ==> infos[j] == DescribeInput(vars, keys[j])
  {
    if keys == [] then [] else [DescribeInput(vars, keys[0])] + DescribeInputs(vars, keys[1..])
  }

  /**
   * The options projection: one entry per relation, in relation order, each
   * listing the relation's required inputs in the same order, annotated with
   * the matching variable's name, unit and constraints.
   */
  function CalculationOptions(f: Formula): (opts: seq<CalcOption>)
    ensures |opts| == |f.calculations|
    ensures forall i :: 0 <= i < |opts| ==>
              && opts[i].outputVariable == f.calculations[i].outputVariable
              && |opts[i].requiredInputs| == |f.calculations[i].requiredInputs|
              && forall j :: 0 <= j < |opts[i].requiredInputs| ==>
                   opts[i].requiredInputs[j] == DescribeInput(f.variables, f.calculations[i].requiredInputs[j])
    ensures forall i :: 0 <= i < |opts| ==>
              var out := DescribeInput(f.variables, f.calculations[i].outputVariable);
              opts[i].outputName == out.name && opts[i].outputUnit == out.unit
  {
    OptionsOf(f.variables, f.calculations)
  }

  function OptionsOf(vars: seq<Variable>, rels: seq<Relation>): (opts: seq<CalcOption>)
    ensures |opts| == |rels|
    ensures forall i :: 0 <= i < |opts| ==>
              var out := DescribeInput(vars, rels[i].outputVariable);
              opts[i] == CalcOption(rels[i].outputVariable, out.name, out.unit,
                                    DescribeInputs(vars, rels[i].requiredInputs))
  {
    if rels == [] then []
    else
      var out := DescribeInput(vars, rels[0].outputVariable);
      [CalcOption(rels[0].outputVariable, out.name, out.unit, DescribeInputs(vars, rels[0].requiredInputs))]
        + OptionsOf(vars, rels[1..])
  }

  /** Every key a formula's relations mention is one of its declared variables. */
  predicate RelationsUseDeclaredKeys(f: Formula) {
    forall r :: r in f.calculations ==>
      r.outputVariable in Keys(f.variables) && forall k :: k in r.requiredInputs ==> k in Keys(f.variables)
  }

  /** A declared key is described with its variable's name and unit. */
  lemma DescribeDeclared(vars: seq<Variable>, key: Key)
    requires key in Keys(vars)
    ensures DescribeInput(vars, key).name.Some? && DescribeInput(vars, key).unit.Some?
  {
    var ks := Keys(vars);
    var p :| 0 <= p < |ks| && ks[p] == key;
    assert vars[p].key == key;
  }

  /** When the relations mention only declared keys, every option is fully annotated. */
  lemma OptionsFullyAnnotated(f: Formula)
    requires RelationsUseDeclaredKeys(f)
    ensures forall i :: 0 <= i < |CalculationOptions(f)| ==>
              var o := CalculationOptions(f)[i];
              && o.outputName.Some? && o.outputUnit.Some?
              && forall j :: 0 <= j < |o.requiredInputs| ==>
                   o.requiredInputs[j].name.Some? && o.requiredInputs[j].unit.Some?
  {
    var opts := CalculationOptions(f);
    forall i | 0 <= i < |opts|
      ensures opts[i].outputName.Some? && opts[i].outputUnit.Some?
      ensures forall j :: 0 <= j < |opts[i].requiredInputs| ==>
                opts[i].requiredInputs[j].name.Some? && opts[i].requiredInputs[j].unit.Some?
    {
      var r := f.calculations[i];
      assert r in f.calculations;
      DescribeDeclared(f.variables, r.outputVariable);
      forall j | 0 <= j < |opts[i].requiredInputs|
        ensures opts[i].requiredInputs[j].name.Some? && opts[i].requiredInputs[j].unit.Some?
      {
        assert r.requiredInputs[j] in r.requiredInputs;
        DescribeDeclared(f.variables, r.requiredInputs[j]);
      }
    }
  }

  /** Why a read of one formula is refused. */
  datatype ReadError = NotFound

  /** The options route: 404 for a missing or inactive formula, otherwise the projection. */
  function GetFormulaCalculationOptions(formulas: seq<FormulaDoc>, id: Option<Id>): (r: Option<(FormulaDoc, seq<CalcOption>)>)
    ensures r.None? <==> ActiveFormula(formulas, id).None?
    ensures r.Some? ==> r.value.0 == ActiveFormula(formulas, id).value
                        && r.value.1 == CalculationOptions(r.value.0.formula)
  {
    var doc := ActiveFormula(formulas, id);
    if doc.None? then None else Some((doc.value, CalculationOptions(doc.value.formula)))
  }

  // ---------------------------------------------------------------------------
  // Read paths
  // ---------------------------------------------------------------------------

  /** `getFormulaById`: the formula with that id when it exists and is active; otherwise 404. */
  function GetFormulaById(formulas: seq<FormulaDoc>, id: Option<Id>): (r: Option<FormulaDoc>)
    ensures r.Some? ==> r.value in formulas && Some(r.value.id) == id && r.value.formula.isActive
    ensures r.None? <==> FindFormula(formulas, id).None? || !FindFormula(formulas, id).value.formula.isActive
  {
    ActiveFormula(formulas, id)
  }

  function Usage(d: FormulaDoc): int {
    d.formula.usageCount
  }

  /** Active formulas of the category `ToUpper(category)`. */
  predicate InCategory(d: FormulaDoc, category: string) {
    d.formula.isActive && CategoryName(d.formula.category) == ToUpper(category)
  }

  /**
   * `getFormulasByCategory`: the active formulas whose category is the
   * upper-cased parameter, most used first.
   */
  function FormulasByCategory(formulas: seq<FormulaDoc>, category: string): (r: seq<FormulaDoc>)
    ensures forall d :: d in r <==> d in formulas && InCategory(d, category)
    ensures Seqs.SortedDescending(r, Usage)
    ensures multiset(r) == multiset(Seqs.Filter(formulas, (d: FormulaDoc) => InCategory(d, category)))
  {
    var matching := Seqs.Filter(formulas, (d: FormulaDoc) => InCategory(d, category));
    var r := Seqs.SortDescending(matching, Usage);
    assert forall d :: d in r <==> d in matching by {
      forall d ensures d in r <==> d in matching {
        assert d in r <==> d in multiset(r);
        assert d in matching <==> d in multiset(matching);
      }
    }
    r
  }

  /** The category lookup ignores the case of the ASCII letters in the parameter. */
  lemma FormulasByCategoryIgnoresCase(formulas: seq<FormulaDoc>, category: string)
    ensures FormulasByCategory(formulas, category) == FormulasByCategory(formulas, ToUpper(category))
    ensures FormulasByCategory(formulas, category) == FormulasByCategory(formulas, ToLower(category))
  {
    ToUpperAbsorbs(category);
    var p1 := (d: FormulaDoc) => InCategory(d, category);
    Seqs.FilterSamePredicate(formulas, p1, (d: FormulaDoc) => InCategory(d, ToUpper(category)));
    Seqs.FilterSamePredicate(formulas, p1, (d: FormulaDoc) => InCategory(d, ToLower(category)));
  }

  /** The query of the listing route; `page` defaults to 1 and `limit` to 20. */
  datatype ListQuery = ListQuery(category: Option<string>, difficulty: Option<string>,
                                 page: Option<int>, limit: Option<int>)

  /** The listing's filter: active, and the category and difficulty when they are given. */
  predicate ListMatches(d: FormulaDoc, q: ListQuery) {
    && d.formula.isActive
    && (Truthy(q.category) ==> CategoryName(d.formula.category) == q.category.value)
    && (Truthy(q.difficulty) ==> DifficultyName(d.formula.difficulty) == q.difficulty.value)
  }

  /** All formulas the listing's filter keeps, most used first. */
  function Listed(formulas: seq<FormulaDoc>, q: ListQuery): (r: seq<FormulaDoc>)
    ensures forall d :: d in r <==> d in formulas && ListMatches(d, q)
    ensures Seqs.SortedDescending(r, Usage)
    ensures multiset(r) == multiset(Seqs.Filter(formulas, (d: FormulaDoc) => ListMatches(d, q)))
  {
    var matching := Seqs.Filter(formulas, (d: FormulaDoc) => ListMatches(d, q));
    var r := Seqs.SortDescending(matching, Usage);
    assert forall d :: d in r <==> d in matching by {
      forall d ensures d in r <==> d in matching {
        assert d in r <==> d in multiset(r);
        assert d in matching <==> d in multiset(matching);
      }
    }
    r
  }

  datatype ListResponse = ListResponse(formulas: seq<FormulaDoc>, totalPages: Option<int>, currentPage: int)

  /**
   * `getFormulas` without text search: the requested page of the filtered,
   * sorted formulas, with the page count of the whole filtered list; a
   * negative skip is the store's error (500), here `None`.
   */
  function GetFormulas(formulas: seq<FormulaDoc>, q: ListQuery): (r: Option<ListResponse>)
    ensures var page, limit := q.page.GetOr(1), q.limit.GetOr(20);
      && (r.None? <==> (page < 1 && limit > 0) || (page > 1 && limit < 0))
      && (r.Some? ==> && r.value.currentPage == page
                      && r.value.totalPages == Paging.TotalPages(|Listed(formulas, q)|, limit)
                      && (limit != 0 ==> |r.value.formulas| <= Paging.Abs(limit))
                      && Seqs.SortedDescending(r.value.formulas, Usage)
                      && (forall d :: d in r.value.formulas ==> d in formulas && ListMatches(d, q))
                      && var all, skip := Listed(formulas, q), Paging.Skip(page, limit);
                         && skip >= 0
                         && |r.value.formulas| == (if skip >= |all| then 0
                                                   else if limit == 0 || skip + Paging.Abs(limit) > |all| then |all| - skip
                                                   else Paging.Abs(limit))
                         && forall i :: 0 <= i < |r.value.formulas| ==>
                              skip + i < |all| && r.value.formulas[i] == all[skip + i])
  {
    var page, limit := q.page.GetOr(1), q.limit.GetOr(20);
    var all := Listed(formulas, q);
    var items := Paging.Page(all, page, limit);
    if items.None? then None
    else
      PageOfListed(formulas, q, page, limit);
      Some(ListResponse(items.value, Paging.TotalPages(|all|, limit), page))
  }

  /** A page of the listing is itself sorted, and holds only listed formulas. */
  lemma PageOfListed(formulas: seq<FormulaDoc>, q: ListQuery, page: int, limit: int)
    requires Paging.Page(Listed(formulas, q), page, limit).Some?
    ensures var w := Paging.Page(Listed(formulas, q), page, limit).value;
      && Seqs.SortedDescending(w, Usage)
      && forall d :: d in w ==> d in formulas && ListMatches(d, q)
  {
    var all := Listed(formulas, q);
    var w := Paging.Page(all, page, limit).value;
    var skip := Paging.Skip(page, limit);
    forall i, j | 0 <= i < j < |w| ensures Usage(w[i]) >= Usage(w[j]) {
      assert w[i] == all[skip + i] && w[j] == all[skip + j];
    }
    forall d | d in w ensures d in all {
      var i :| 0 <= i < |w| && w[i] == d;
      assert all[skip + i] == d;
    }
  }
}
