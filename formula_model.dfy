/**
 * The record shapes of a formula document: its category and difficulty tags,
 * its variables with their constraints, its relations (one solved-for output
 * each) and its worked examples, with the defaults the schema fills in and the
 * schema's required-field check. Also the `find` lookups the controllers run
 * over a formula's variable and relation lists.
 */
module FormulaModel {
  import opened Wrappers
  import JsText

  /** A variable key, such as "V" or "R_total". */
  type Key = string

  datatype Category =
    | Electrical | Mechanical | Civil | Chemical | Physics | Mathematics
    | Thermodynamics | FluidMechanics | MaterialScience

  /** The tag under which a category is stored. */
  function CategoryName(c: Category): string {
    match c
    case Electrical => "ELECTRICAL"
    case Mechanical => "MECHANICAL"
    case Civil => "CIVIL"
    case Chemical => "CHEMICAL"
    case Physics => "PHYSICS"
    case Mathematics => "MATHEMATICS"
    case Thermodynamics => "THERMODYNAMICS"
    case FluidMechanics => "FLUID_MECHANICS"
    case MaterialScience => "MATERIAL_SCIENCE"
  }

  /** The schema's enum check on `category`: the category a tag names, if any. */
  function ParseCategory(s: string): (r: Option<Category>)
    ensures forall c :: r == Some(c) <==> s == CategoryName(c)
  {
    if s == "ELECTRICAL" then Some(Electrical)
    else if s == "MECHANICAL" then Some(Mechanical)
    else if s == "CIVIL" then Some(Civil)
    else if s == "CHEMICAL" then Some(Chemical)
    else if s == "PHYSICS" then Some(Physics)
    else if s == "MATHEMATICS" then Some(Mathematics)
    else if s == "THERMODYNAMICS" then Some(Thermodynamics)
    else if s == "FLUID_MECHANICS" then Some(FluidMechanics)
    else if s == "MATERIAL_SCIENCE" then Some(MaterialScience)
    else None
  }

  datatype Difficulty = Beginner | Intermediate | Advanced

  function DifficultyName(d: Difficulty): string {
    match d
    case Beginner => "BEGINNER"
    case Intermediate => "INTERMEDIATE"
    case Advanced => "ADVANCED"
  }

  /** The schema's enum check on `difficulty`. */
  function ParseDifficulty(s: string): (r: Option<Difficulty>)
    ensures forall d :: r == Some(d) <==> s == DifficultyName(d)
  {
    if s == "BEGINNER" then Some(Beginner)
    else if s == "INTERMEDIATE" then Some(Intermediate)
    else if s == "ADVANCED" then Some(Advanced)
    else None
  }

  /** Optional bounds on a variable's value; `min` and `max` may be absent. */
  datatype Constraints = Constraints(min: Option<real>, max: Option<real>, mustBePositive: bool)

  datatype Variable = Variable(
    key: Key,
    name: string,
    unit: string,
    description: Option<string>,
    isOutput: bool,
    constraints: Constraints)

  /** One solved-for form of a formula: `outputVariable = expression`. */
  datatype Relation = Relation(outputVariable: Key, expression: string, requiredInputs: seq<Key>)

  datatype Example = Example(
    description: string,
    inputs: seq<(Key, real)>,
    expectedOutput: real,
    outputVariable: Key)

  datatype Formula = Formula(
    name: string,
    description: string,
    category: Category,
    formula: string,
    variables: seq<Variable>,
    calculations: seq<Relation>,
    difficulty: Difficulty,
    tags: seq<string>,
    isActive: bool,
    usageCount: nat,
    examples: seq<Example>)

  /** A constraints record as stored: `mustBePositive` defaults to false. */
  function NewConstraints(min: Option<real>, max: Option<real>, mustBePositive: Option<bool>): (c: Constraints)
    ensures c.min == min && c.max == max
    ensures c.mustBePositive <==> mustBePositive == Some(true)
  {
    Constraints(min, max, mustBePositive.GetOr(false))
  }

  /** A variable as stored: `isOutput` defaults to false, absent constraints to none at all. */
  function NewVariable(key: Key, name: string, unit: string, description: Option<string>,
                       isOutput: Option<bool>, constraints: Option<Constraints>): (v: Variable)
    ensures v.key == key && v.name == name && v.unit == unit && v.description == description
    ensures v.isOutput <==> isOutput == Some(true)
    ensures !v.constraints.mustBePositive && v.constraints.min.None? && v.constraints.max.None?
            <== constraints.None?
  {
    Variable(key, name, unit, description, isOutput.GetOr(false),
             constraints.GetOr(NewConstraints(None, None, None)))
  }

  /**
   * A new formula document: the name is trimmed, the difficulty defaults to
   * BEGINNER, and the formula starts active with a usage count of zero.
   */
  function NewFormula(name: string, description: string, category: Category, formula: string,
                      variables: seq<Variable>, calculations: seq<Relation>,
                      difficulty: Option<Difficulty>, tags: seq<string>, examples: seq<Example>): (f: Formula)
    ensures f.isActive && f.usageCount == 0
    ensures f.difficulty == (if difficulty.Some? then difficulty.value else Beginner)
    ensures f.name == JsText.Trim(name)
    ensures f.description == description && f.category == category && f.formula == formula
    ensures f.variables == variables && f.calculations == calculations
    ensures f.tags == tags && f.examples == examples
  {
    Formula(JsText.Trim(name), description, category, formula, variables, calculations,
            difficulty.GetOr(Beginner), tags, true, 0, examples)
  }

  /** The schema's `required: true` string fields are all non-empty. */
  predicate RequiredFieldsPresent(f: Formula) {
    && f.name != [] && f.description != [] && f.formula != []
    && (forall v :: v in f.variables ==> v.key != [] && v.name != [] && v.unit != [])
    && (forall r :: r in f.calculations ==> r.outputVariable != [] && r.expression != [])
  }

  /** The declared variable keys, in declaration order. */
  function Keys(vs: seq<Variable>): (ks: seq<Key>)
    ensures |ks| == |vs|
    ensures forall i :: 0 <= i < |vs| ==> ks[i] == vs[i].key
  {
    if vs == [] then [] else [vs[0].key] + Keys(vs[1..])
  }

  /**
   * `variables.find(v => v.key === key)`: the first variable with that key,
   * or nothing when no variable has it.
   */
  function FindVariable(vs: seq<Variable>, key: Key): (r: Option<Variable>)
    ensures r.None? <==> forall i :: 0 <= i < |vs| ==> vs[i].key != key
    ensures r.Some? ==> exists i :: 0 <= i < |vs| && vs[i] == r.value && r.value.key == key
                                  && forall j :: 0 <= j < i ==> vs[j].key != key
  {
    if vs == [] then None
    else if vs[0].key == key then Some(vs[0])
    else
      var r := FindVariable(vs[1..], key);
      assert r.Some? ==> exists i :: 0 <= i < |vs[1..]| && vs[1..][i] == r.value && r.value.key == key
                                  && forall j :: 0 <= j < i ==> vs[1..][j].key != key;
      assert r.Some? ==> exists i :: 0 <= i < |vs| && vs[i] == r.value && r.value.key == key
                                  && forall j :: 0 <= j < i ==> vs[j].key != key by {
        if r.Some? {
          var i :| 0 <= i < |vs[1..]| && vs[1..][i] == r.value && r.value.key == key
                   && forall j :: 0 <= j < i ==> vs[1..][j].key != key;
          assert vs[i + 1] == r.value;
          assert forall j :: 0 <= j < i + 1 ==> vs[j].key != key by {
            forall j | 0 <= j < i + 1 ensures vs[j].key != key {
              if j > 0 { assert vs[j] == vs[1..][j - 1]; }
            }
          }
        }
      }
      r
  }

  /**
   * `calculations.find(calc => calc.outputVariable === key)`: the first
   * relation that solves for `key`, or nothing when none does.
   */
  function FindRelation(rs: seq<Relation>, key: Key): (r: Option<Relation>)
    ensures r.None? <==> forall i :: 0 <= i < |rs| ==> rs[i].outputVariable != key
    ensures r.Some? ==> exists i :: 0 <= i < |rs| && rs[i] == r.value && r.value.outputVariable == key
                                  && forall j :: 0 <= j < i ==> rs[j].outputVariable != key
  {
    if rs == [] then None
    else if rs[0].outputVariable == key then Some(rs[0])
    else
      var r := FindRelation(rs[1..], key);
      assert r.Some? ==> exists i :: 0 <= i < |rs| && rs[i] == r.value && r.value.outputVariable == key
                                  && forall j :: 0 <= j < i ==> rs[j].outputVariable != key by {
        if r.Some? {
          var i :| 0 <= i < |rs[1..]| && rs[1..][i] == r.value && r.value.outputVariable == key
                   && forall j :: 0 <= j < i ==> rs[1..][j].outputVariable != key;
          assert rs[i + 1] == r.value;
          forall j | 0 <= j < i + 1 ensures rs[j].outputVariable != key {
            if j > 0 { assert rs[j] == rs[1..][j - 1]; }
          }
        }
      }
      r
  }
}
