/**
 * The seed catalog: the ten formulas the store is filled with, as a constant,
 * and the well-formedness the calculation pipeline relies on, proved for each
 * of them.
 */
module Seeds {
  import opened Wrappers
  import opened JsText
  import opened FormulaModel
  import opened Records
  import opened Store
  import opened FormulaController

  // ---------------------------------------------------------------------------
  // Building blocks
  // ---------------------------------------------------------------------------

  /** `{ mustBePositive: false }` */
  const AnySign: Constraints := Constraints(None, None, false)
  /** `{ mustBePositive: true }` */
  const Positive: Constraints := Constraints(None, None, true)
  /** `{ mustBePositive: true, min: 0.001 }` */
  const PositiveFromMilli: Constraints := Constraints(Some(0.001), None, true)

  /** No `constraints` object at all: the schema's defaults. */
  const Unconstrained: Constraints := Constraints(None, None, false)

  /** A seed variable with its description and constraints given. */
  function SeedVar(key: Key, name: string, unit: string, description: string, isOutput: bool,
                   constraints: Constraints): Variable {
    Variable(key, name, unit, Some(description), isOutput, constraints)
  }

  /** A seed formula as stored: active, never used yet, the name kept as written. */
  function SeedFormula(name: string, description: string, category: Category, formula: string,
                       variables: seq<Variable>, calculations: seq<Relation>,
                       difficulty: Option<Difficulty>, tags: seq<string>, examples: seq<Example>): Formula {
    Formula(name, description, category, formula, variables, calculations,
            difficulty.GetOr(Beginner), tags, true, 0, examples)
  }

  /** A seed variable is what creating that variable stores. */
  lemma SeedVarAsCreated(key: Key, name: string, unit: string, description: string, isOutput: bool,
                         constraints: Constraints)
    ensures SeedVar(key, name, unit, description, isOutput, constraints)
            == NewVariable(key, name, unit, Some(description), Some(isOutput), Some(constraints))
  {
  }

  /** A seed formula whose name has no surrounding white space is what creating it stores. */
  lemma SeedFormulaAsCreated(name: string, description: string, category: Category, formula: string,
                             variables: seq<Variable>, calculations: seq<Relation>,
                             difficulty: Option<Difficulty>, tags: seq<string>, examples: seq<Example>)
    requires name == [] || (!IsJsWhitespace(name[0]) && !IsJsWhitespace(name[|name| - 1]))
    ensures SeedFormula(name, description, category, formula, variables, calculations, difficulty, tags, examples)
            == NewFormula(name, description, category, formula, variables, calculations, difficulty, tags, examples)
  {
    TrimmedFixed(name);
  }

  // ---------------------------------------------------------------------------
  // The catalog
  // ---------------------------------------------------------------------------

  const OhmsLawVariables: seq<Variable> := [
    SeedVar("V", "Voltage", "V", "Electrical potential difference", true, AnySign),
    SeedVar("I", "Current", "A", "Electric current", true, Positive),
    SeedVar("R", "Resistance", "\U{3A9}", "Electrical resistance", true, PositiveFromMilli) ]

  const OhmsLawRelations: seq<Relation> := [
    Relation("V", "I * R", ["I", "R"]),
    Relation("I", "V / R", ["V", "R"]),
    Relation("R", "V / I", ["V", "I"]) ]

  const OhmsLaw: Formula := SeedFormula(
    "Ohm's Law", "Relationship between voltage, current, and resistance in electrical circuits",
    Electrical, "V = I \U{D7} R", OhmsLawVariables, OhmsLawRelations,
    Some(Beginner), ["ohm", "electrical", "voltage", "current", "resistance"],
    [Example("Calculate voltage with 2A current through 10\U{3A9} resistor", [("I", 2.0), ("R", 10.0)], 20.0, "V")])

  const PowerFormulaVariables: seq<Variable> := [
    SeedVar("P", "Power", "W", "Electrical power", true, Positive),
    SeedVar("V", "Voltage", "V", "Electrical potential difference", true, AnySign),
    SeedVar("I", "Current", "A", "Electric current", true, Positive) ]

  const PowerFormulaRelations: seq<Relation> := [
    Relation("P", "V * I", ["V", "I"]),
    Relation("V", "P / I", ["P", "I"]),
    Relation("I", "P / V", ["P", "V"]) ]

  const PowerFormula: Formula := SeedFormula(
    "Power Formula", "Electrical power calculations",
    Electrical, "P = V \U{D7} I", PowerFormulaVariables, PowerFormulaRelations,
    Some(Beginner), ["power", "electrical", "voltage", "current"],
    [])

  const ForceCalculationVariables: seq<Variable> := [
    SeedVar("F", "Force", "N", "Applied force", true, AnySign),
    SeedVar("m", "Mass", "kg", "Object mass", true, PositiveFromMilli),
    SeedVar("a", "Acceleration", "m/s\U{B2}", "Object acceleration", true, AnySign) ]

  const ForceCalculationRelations: seq<Relation> := [
    Relation("F", "m * a", ["m", "a"]),
    Relation("m", "F / a", ["F", "a"]),
    Relation("a", "F / m", ["F", "m"]) ]

  const ForceCalculation: Formula := SeedFormula(
    "Force Calculation", "Newton's second law of motion",
    Physics, "F = m \U{D7} a", ForceCalculationVariables, ForceCalculationRelations,
    Some(Beginner), ["force", "physics", "newton", "mass", "acceleration"],
    [])

  const PressureFormulaVariables: seq<Variable> := [
    SeedVar("P", "Pressure", "Pa", "Fluid pressure", true, Positive),
    SeedVar("F", "Force", "N", "Applied force", true, Positive),
    SeedVar("A", "Area", "m\U{B2}", "Contact area", true, PositiveFromMilli) ]

  const PressureFormulaRelations: seq<Relation> := [
    Relation("P", "F / A", ["F", "A"]),
    Relation("F", "P * A", ["P", "A"]),
    Relation("A", "F / P", ["F", "P"]) ]

  const PressureFormula: Formula := SeedFormula(
    "Pressure Formula", "Pressure calculation for fluids",
    FluidMechanics, "P = F / A", PressureFormulaVariables, PressureFormulaRelations,
    Some(Intermediate), ["pressure", "fluid", "force", "area"],
    [])

  const KineticEnergyVariables: seq<Variable> := [
    SeedVar("KE", "Kinetic Energy", "J", "Energy of motion", true, Positive),
    SeedVar("m", "Mass", "kg", "Object mass", true, PositiveFromMilli),
    SeedVar("v", "Velocity", "m/s", "Object velocity", true, AnySign) ]

  const KineticEnergyRelations: seq<Relation> := [
    Relation("KE", "0.5 * m * (v ** 2)", ["m", "v"]),
    Relation("m", "(2 * KE) / (v ** 2)", ["KE", "v"]),
    Relation("v", "Math.sqrt((2 * KE) / m)", ["KE", "m"]) ]

  const KineticEnergy: Formula := SeedFormula(
    "Kinetic Energy", "Energy of an object due to its motion",
    Physics, "KE = 0.5 \U{D7} m \U{D7} v\U{B2}", KineticEnergyVariables, KineticEnergyRelations,
    Some(Intermediate), ["kinetic", "energy", "physics", "mass", "velocity"],
    [])

  /** `g` is declared with no constraints object, and is not an output. */
  const PotentialEnergyVariables: seq<Variable> := [
    SeedVar("PE", "Potential Energy", "J", "Stored energy", true, Positive),
    SeedVar("m", "Mass", "kg", "Object mass", true, PositiveFromMilli),
    SeedVar("g", "Gravity", "m/s\U{B2}", "Acceleration due to gravity", false, Unconstrained),
    SeedVar("h", "Height", "m", "Height above reference", true, AnySign) ]

  const PotentialEnergyRelations: seq<Relation> := [
    Relation("PE", "m * g * h", ["m", "g", "h"]),
    Relation("m", "PE / (g * h)", ["PE", "g", "h"]),
    Relation("h", "PE / (m * g)", ["PE", "m", "g"]) ]

  const PotentialEnergy: Formula := SeedFormula(
    "Potential Energy", "Stored energy due to position",
    Physics, "PE = m \U{D7} g \U{D7} h", PotentialEnergyVariables, PotentialEnergyRelations,
    Some(Intermediate), ["potential", "energy", "physics", "mass", "gravity", "height"],
    [])

  const WorkVariables: seq<Variable> := [
    SeedVar("W", "Work", "J", "Work done", true, AnySign),
    SeedVar("F", "Force", "N", "Applied force", true, AnySign),
    SeedVar("d", "Distance", "m", "Displacement", true, Positive) ]

  const WorkRelations: seq<Relation> := [
    Relation("W", "F * d", ["F", "d"]),
    Relation("F", "W / d", ["W", "d"]),
    Relation("d", "W / F", ["W", "F"]) ]

  const Work: Formula := SeedFormula(
    "Work", "Work done when a force moves an object",
    Physics, "W = F \U{D7} d", WorkVariables, WorkRelations,
    Some(Beginner), ["work", "physics", "force", "distance"],
    [])

  const EfficiencyVariables: seq<Variable> := [
    SeedVar("\U{3B7}", "Efficiency", "%", "Efficiency percentage", true, Positive),
    SeedVar("Output", "Useful Output Energy", "J", "Energy obtained", true, Positive),
    SeedVar("Input", "Input Energy", "J", "Energy supplied", true, Positive) ]

  const EfficiencyRelations: seq<Relation> := [
    Relation("\U{3B7}", "(Output / Input) * 100", ["Output", "Input"]),
    Relation("Output", "(\U{3B7}/100) * Input", ["\U{3B7}", "Input"]),
    Relation("Input", "Output / (\U{3B7}/100)", ["Output", "\U{3B7}"]) ]

  const Efficiency: Formula := SeedFormula(
    "Efficiency", "Ratio of useful output energy to input energy",
    Physics, "\U{3B7} = (Output / Input) \U{D7} 100%", EfficiencyVariables, EfficiencyRelations,
    Some(Beginner), ["efficiency", "energy", "ratio", "percentage"],
    [])

  /** Only the total is solved for; `R1` and `R2` are inputs only. */
  const SeriesResistanceVariables: seq<Variable> := [
    SeedVar("R_total", "Total Resistance", "\U{3A9}", "Sum of resistances", true, Positive),
    SeedVar("R1", "Resistance 1", "\U{3A9}", "First resistor", false, Positive),
    SeedVar("R2", "Resistance 2", "\U{3A9}", "Second resistor", false, Positive) ]

  const SeriesResistanceRelations: seq<Relation> := [
    Relation("R_total", "R1 + R2", ["R1", "R2"]) ]

  const SeriesResistance: Formula := SeedFormula(
    "Series Resistance", "Total resistance in a series circuit",
    Electrical, "R_total = R1 + R2 + ... + Rn", SeriesResistanceVariables, SeriesResistanceRelations,
    Some(Beginner), ["resistance", "series", "electrical"],
    [])

  /** Only the total is solved for; `R1` and `R2` are inputs only. */
  const ParallelResistanceVariables: seq<Variable> := [
    SeedVar("R_total", "Total Resistance", "\U{3A9}", "Equivalent resistance", true, Positive),
    SeedVar("R1", "Resistance 1", "\U{3A9}", "First resistor", false, Positive),
    SeedVar("R2", "Resistance 2", "\U{3A9}", "Second resistor", false, Positive) ]

  const ParallelResistanceRelations: seq<Relation> := [
    Relation("R_total", "1 / ((1/R1) + (1/R2))", ["R1", "R2"]) ]

  const ParallelResistance: Formula := SeedFormula(
    "Parallel Resistance", "Total resistance in a parallel circuit",
    Electrical, "1/R_total = 1/R1 + 1/R2 + ... + 1/Rn", ParallelResistanceVariables, ParallelResistanceRelations,
    Some(Intermediate), ["resistance", "parallel", "electrical"],
    [])

  /** `seedFormulas`, in the order it is written. */
  const Catalog: seq<Formula> := [
    OhmsLaw, PowerFormula, ForceCalculation, PressureFormula, KineticEnergy, PotentialEnergy, Work, Efficiency, SeriesResistance, ParallelResistance ]

  // ---------------------------------------------------------------------------
  // Well-formedness
  // ---------------------------------------------------------------------------

  predicate KeysDistinct(vs: seq<Variable>) {
    forall i, j :: 0 <= i < j < |vs| ==> vs[i].key != vs[j].key
  }

  /** No two relations solve for the same variable, so `find` on the output is unambiguous. */
  predicate OutputsDistinct(rs: seq<Relation>) {
    forall i, j :: 0 <= i < j < |rs| ==> rs[i].outputVariable != rs[j].outputVariable
  }

  /** Every relation solves for, and reads, declared variables only. */
  predicate UsesDeclaredKeys(vs: seq<Variable>, rs: seq<Relation>) {
    forall i :: 0 <= i < |rs| ==>
      rs[i].outputVariable in Keys(vs) && forall k :: k in rs[i].requiredInputs ==> k in Keys(vs)
  }

  /** No relation needs the value it computes. */
  predicate NoSelfInput(rs: seq<Relation>) {
    forall i :: 0 <= i < |rs| ==> rs[i].outputVariable !in rs[i].requiredInputs
  }

  /** A relation solves for a variable exactly when the variable is flagged as an output. */
  predicate RelationIffOutput(vs: seq<Variable>, rs: seq<Relation>) {
    forall j :: 0 <= j < |vs| ==> (FindRelation(rs, vs[j].key).Some? <==> vs[j].isOutput)
  }

  /**
   * Of the declared keys, exactly the required inputs occur in a relation's
   * expression text, so substituting any other declared key leaves it unchanged.
   */
  predicate MentionsExactlyInputs(vs: seq<Variable>, rs: seq<Relation>) {
    forall i :: 0 <= i < |rs| ==> MentionsExactly(vs, rs[i])
  }

  predicate MentionsExactly(vs: seq<Variable>, r: Relation) {
    forall j :: 0 <= j < |vs| ==> (Occurs(r.expression, vs[j].key) <==> vs[j].key in r.requiredInputs)
  }

  predicate WellFormed(f: Formula) {
    && RequiredFieldsPresent(f)
    && KeysDistinct(f.variables)
    && OutputsDistinct(f.calculations)
    && UsesDeclaredKeys(f.variables, f.calculations)
    && NoSelfInput(f.calculations)
    && RelationIffOutput(f.variables, f.calculations)
    && MentionsExactlyInputs(f.variables, f.calculations)
  }

  /** A one-character key occurs in a text exactly when that character does. */
  lemma OccursChar(s: string, c: char)
    ensures Occurs(s, [c]) <==> c in s
  {
    if c in s {
      var i :| 0 <= i < |s| && s[i] == c;
      assert OccursAt(s, [c], i);
    }
    if Occurs(s, [c]) {
      var i :| 0 <= i <= |s| && OccursAt(s, [c], i);
      assert s[i] == s[i..i + 1][0];
    }
  }

  /** `MentionsExactly` checked against the declared keys spelled out. */
  lemma MentionsExactlyByKeys(vs: seq<Variable>, r: Relation, keys: seq<Key>)
    requires Keys(vs) == keys
    requires forall j :: 0 <= j < |keys| ==> (Occurs(r.expression, keys[j]) <==> keys[j] in r.requiredInputs)
    ensures MentionsExactly(vs, r)
  {
    forall j | 0 <= j < |vs| ensures Occurs(r.expression, vs[j].key) <==> vs[j].key in r.requiredInputs {
      assert vs[j].key == keys[j];
    }
  }

  /** A key spelled out character by character at position `i` occurs there. */
  lemma Witness(s: string, pat: string, i: nat)
    requires i + |pat| <= |s| && forall k :: 0 <= k < |pat| ==> s[i + k] == pat[k]
    ensures Occurs(s, pat)
  {
    assert s[i..i + |pat|] == pat;
    assert OccursAt(s, pat, i);
  }

  /** A key with a character the text lacks does not occur in it. */
  lemma AbsentChar(s: string, pat: string, k: nat)
    requires k < |pat| && pat[k] !in s
    ensures !Occurs(s, pat)
  {
    forall i | 0 <= i <= |s| ensures !OccursAt(s, pat, i) {
      if i + |pat| <= |s| {
        assert s[i..i + |pat|][k] == s[i + k];
        assert s[i + k] in s;
      }
    }
  }

  lemma OhmsLawDistinct()
    ensures KeysDistinct(OhmsLawVariables) && OutputsDistinct(OhmsLawRelations)
  {
  }

  lemma OhmsLawDeclared()
    ensures UsesDeclaredKeys(OhmsLawVariables, OhmsLawRelations)
  {
    assert Keys(OhmsLawVariables) == ["V", "I", "R"];
  }

  lemma OhmsLawSolvable()
    ensures NoSelfInput(OhmsLawRelations) && RelationIffOutput(OhmsLawVariables, OhmsLawRelations)
  {
    assert "V" !in ["I", "R"] && "I" !in ["V", "R"] && "R" !in ["V", "I"];
  }

  /** Which keys occur in the text of relation 0. */
  lemma OhmsLawOccurrences0()
    ensures !Occurs("I * R", "V")
    ensures Occurs("I * R", "I")
    ensures Occurs("I * R", "R")
  {
    AbsentChar("I * R", "V", 0);
    Witness("I * R", "I", 0);
    Witness("I * R", "R", 4);
  }

  lemma OhmsLawText0()
    ensures MentionsExactly(OhmsLawVariables, OhmsLawRelations[0])
  {
    OhmsLawOccurrences0();
    assert OhmsLawRelations[0] == Relation("V", "I * R", ["I", "R"]);
    MentionsExactlyByKeys(OhmsLawVariables, OhmsLawRelations[0], ["V", "I", "R"]);
  }

  /** Which keys occur in the text of relation 1. */
  lemma OhmsLawOccurrences1()
    ensures Occurs("V / R", "V")
    ensures !Occurs("V / R", "I")
    ensures Occurs("V / R", "R")
  {
    Witness("V / R", "V", 0);
    AbsentChar("V / R", "I", 0);
    Witness("V / R", "R", 4);
  }

  lemma OhmsLawText1()
    ensures MentionsExactly(OhmsLawVariables, OhmsLawRelations[1])
  {
    OhmsLawOccurrences1();
    assert OhmsLawRelations[1] == Relation("I", "V / R", ["V", "R"]);
    MentionsExactlyByKeys(OhmsLawVariables, OhmsLawRelations[1], ["V", "I", "R"]);
  }

  /** Which keys occur in the text of relation 2. */
  lemma OhmsLawOccurrences2()
    ensures Occurs("V / I", "V")
    ensures Occurs("V / I", "I")
    ensures !Occurs("V / I", "R")
  {
    Witness("V / I", "V", 0);
    Witness("V / I", "I", 4);
    AbsentChar("V / I", "R", 0);
  }

  lemma OhmsLawText2()
    ensures MentionsExactly(OhmsLawVariables, OhmsLawRelations[2])
  {
    OhmsLawOccurrences2();
    assert OhmsLawRelations[2] == Relation("R", "V / I", ["V", "I"]);
    MentionsExactlyByKeys(OhmsLawVariables, OhmsLawRelations[2], ["V", "I", "R"]);
  }

  lemma OhmsLawText()
    ensures MentionsExactlyInputs(OhmsLawVariables, OhmsLawRelations)
  {
    OhmsLawText0(); OhmsLawText1(); OhmsLawText2();
  }

  lemma PowerFormulaDistinct()
    ensures KeysDistinct(PowerFormulaVariables) && OutputsDistinct(PowerFormulaRelations)
  {
  }

  lemma PowerFormulaDeclared()
    ensures UsesDeclaredKeys(PowerFormulaVariables, PowerFormulaRelations)
  {
    assert Keys(PowerFormulaVariables) == ["P", "V", "I"];
  }

  lemma PowerFormulaSolvable()
    ensures NoSelfInput(PowerFormulaRelations) && RelationIffOutput(PowerFormulaVariables, PowerFormulaRelations)
  {
    assert "P" !in ["V", "I"] && "V" !in ["P", "I"] && "I" !in ["P", "V"];
  }

  /** Which keys occur in the text of relation 0. */
  lemma PowerFormulaOccurrences0()
    ensures !Occurs("V * I", "P")
    ensures Occurs("V * I", "V")
    ensures Occurs("V * I", "I")
  {
    AbsentChar("V * I", "P", 0);
    Witness("V * I", "V", 0);
    Witness("V * I", "I", 4);
  }

  lemma PowerFormulaText0()
    ensures MentionsExactly(PowerFormulaVariables, PowerFormulaRelations[0])
  {
    PowerFormulaOccurrences0();
    assert PowerFormulaRelations[0] == Relation("P", "V * I", ["V", "I"]);
    MentionsExactlyByKeys(PowerFormulaVariables, PowerFormulaRelations[0], ["P", "V", "I"]);
  }

  /** Which keys occur in the text of relation 1. */
  lemma PowerFormulaOccurrences1()
    ensures Occurs("P / I", "P")
    ensures !Occurs("P / I", "V")
    ensures Occurs("P / I", "I")
  {
    Witness("P / I", "P", 0);
    AbsentChar("P / I", "V", 0);
    Witness("P / I", "I", 4);
  }

  lemma PowerFormulaText1()
    ensures MentionsExactly(PowerFormulaVariables, PowerFormulaRelations[1])
  {
    PowerFormulaOccurrences1();
    assert PowerFormulaRelations[1] == Relation("V", "P / I", ["P", "I"]);
    MentionsExactlyByKeys(PowerFormulaVariables, PowerFormulaRelations[1], ["P", "V", "I"]);
  }

  /** Which keys occur in the text of relation 2. */
  lemma PowerFormulaOccurrences2()
    ensures Occurs("P / V", "P")
    ensures Occurs("P / V", "V")
    ensures !Occurs("P / V", "I")
  {
    Witness("P / V", "P", 0);
    Witness("P / V", "V", 4);
    AbsentChar("P / V", "I", 0);
  }

  lemma PowerFormulaText2()
    ensures MentionsExactly(PowerFormulaVariables, PowerFormulaRelations[2])
  {
    PowerFormulaOccurrences2();
    assert PowerFormulaRelations[2] == Relation("I", "P / V", ["P", "V"]);
    MentionsExactlyByKeys(PowerFormulaVariables, PowerFormulaRelations[2], ["P", "V", "I"]);
  }

  lemma PowerFormulaText()
    ensures MentionsExactlyInputs(PowerFormulaVariables, PowerFormulaRelations)
  {
    PowerFormulaText0(); PowerFormulaText1(); PowerFormulaText2();
  }

  lemma ForceCalculationDistinct()
    ensures KeysDistinct(ForceCalculationVariables) && OutputsDistinct(ForceCalculationRelations)
  {
  }

  lemma ForceCalculationDeclared()
    ensures UsesDeclaredKeys(ForceCalculationVariables, ForceCalculationRelations)
  {
    assert Keys(ForceCalculationVariables) == ["F", "m", "a"];
  }

  lemma ForceCalculationSolvable()
    ensures NoSelfInput(ForceCalculationRelations) && RelationIffOutput(ForceCalculationVariables, ForceCalculationRelations)
  {
    assert "F" !in ["m", "a"] && "m" !in ["F", "a"] && "a" !in ["F", "m"];
  }

  /** Which keys occur in the text of relation 0. */
  lemma ForceCalculationOccurrences0()
    ensures !Occurs("m * a", "F")
    ensures Occurs("m * a", "m")
    ensures Occurs("m * a", "a")
  {
    AbsentChar("m * a", "F", 0);
    Witness("m * a", "m", 0);
    Witness("m * a", "a", 4);
  }

  lemma ForceCalculationText0()
    ensures MentionsExactly(ForceCalculationVariables, ForceCalculationRelations[0])
  {
    ForceCalculationOccurrences0();
    assert ForceCalculationRelations[0] == Relation("F", "m * a", ["m", "a"]);
    MentionsExactlyByKeys(ForceCalculationVariables, ForceCalculationRelations[0], ["F", "m", "a"]);
  }

  /** Which keys occur in the text of relation 1. */
  lemma ForceCalculationOccurrences1()
    ensures Occurs("F / a", "F")
    ensures !Occurs("F / a", "m")
    ensures Occurs("F / a", "a")
  {
    Witness("F / a", "F", 0);
    AbsentChar("F / a", "m", 0);
    Witness("F / a", "a", 4);
  }

  lemma ForceCalculationText1()
    ensures MentionsExactly(ForceCalculationVariables, ForceCalculationRelations[1])
  {
    ForceCalculationOccurrences1();
    assert ForceCalculationRelations[1] == Relation("m", "F / a", ["F", "a"]);
    MentionsExactlyByKeys(ForceCalculationVariables, ForceCalculationRelations[1], ["F", "m", "a"]);
  }

  /** Which keys occur in the text of relation 2. */
  lemma ForceCalculationOccurrences2()
    ensures Occurs("F / m", "F")
    ensures Occurs("F / m", "m")
    ensures !Occurs("F / m", "a")
  {
    Witness("F / m", "F", 0);
    Witness("F / m", "m", 4);
    AbsentChar("F / m", "a", 0);
  }

  lemma ForceCalculationText2()
    ensures MentionsExactly(ForceCalculationVariables, ForceCalculationRelations[2])
  {
    ForceCalculationOccurrences2();
    assert ForceCalculationRelations[2] == Relation("a", "F / m", ["F", "m"]);
    MentionsExactlyByKeys(ForceCalculationVariables, ForceCalculationRelations[2], ["F", "m", "a"]);
  }

  lemma ForceCalculationText()
    ensures MentionsExactlyInputs(ForceCalculationVariables, ForceCalculationRelations)
  {
    ForceCalculationText0(); ForceCalculationText1(); ForceCalculationText2();
  }

  lemma PressureFormulaDistinct()
    ensures KeysDistinct(PressureFormulaVariables) && OutputsDistinct(PressureFormulaRelations)
  {
  }

  lemma PressureFormulaDeclared()
    ensures UsesDeclaredKeys(PressureFormulaVariables, PressureFormulaRelations)
  {
    assert Keys(PressureFormulaVariables) == ["P", "F", "A"];
  }

  lemma PressureFormulaSolvable()
    ensures NoSelfInput(PressureFormulaRelations) && RelationIffOutput(PressureFormulaVariables, PressureFormulaRelations)
  {
    assert "P" !in ["F", "A"] && "F" !in ["P", "A"] && "A" !in ["F", "P"];
  }

  /** Which keys occur in the text of relation 0. */
  lemma PressureFormulaOccurrences0()
    ensures !Occurs("F / A", "P")
    ensures Occurs("F / A", "F")
    ensures Occurs("F / A", "A")
  {
    AbsentChar("F / A", "P", 0);
    Witness("F / A", "F", 0);
    Witness("F / A", "A", 4);
  }

  lemma PressureFormulaText0()
    ensures MentionsExactly(PressureFormulaVariables, PressureFormulaRelations[0])
  {
    PressureFormulaOccurrences0();
    assert PressureFormulaRelations[0] == Relation("P", "F / A", ["F", "A"]);
    MentionsExactlyByKeys(PressureFormulaVariables, PressureFormulaRelations[0], ["P", "F", "A"]);
  }

  /** Which keys occur in the text of relation 1. */
  lemma PressureFormulaOccurrences1()
    ensures Occurs("P * A", "P")
    ensures !Occurs("P * A", "F")
    ensures Occurs("P * A", "A")
  {
    Witness("P * A", "P", 0);
    AbsentChar("P * A", "F", 0);
    Witness("P * A", "A", 4);
  }

  lemma PressureFormulaText1()
    ensures MentionsExactly(PressureFormulaVariables, PressureFormulaRelations[1])
  {
    PressureFormulaOccurrences1();
    assert PressureFormulaRelations[1] == Relation("F", "P * A", ["P", "A"]);
    MentionsExactlyByKeys(PressureFormulaVariables, PressureFormulaRelations[1], ["P", "F", "A"]);
  }

  /** Which keys occur in the text of relation 2. */
  lemma PressureFormulaOccurrences2()
    ensures Occurs("F / P", "P")
    ensures Occurs("F / P", "F")
    ensures !Occurs("F / P", "A")
  {
    Witness("F / P", "P", 4);
    Witness("F / P", "F", 0);
    AbsentChar("F / P", "A", 0);
  }

  lemma PressureFormulaText2()
    ensures MentionsExactly(PressureFormulaVariables, PressureFormulaRelations[2])
  {
    PressureFormulaOccurrences2();
    assert PressureFormulaRelations[2] == Relation("A", "F / P", ["F", "P"]);
    MentionsExactlyByKeys(PressureFormulaVariables, PressureFormulaRelations[2], ["P", "F", "A"]);
  }

  lemma PressureFormulaText()
    ensures MentionsExactlyInputs(PressureFormulaVariables, PressureFormulaRelations)
  {
    PressureFormulaText0(); PressureFormulaText1(); PressureFormulaText2();
  }

  lemma KineticEnergyDistinct()
    ensures KeysDistinct(KineticEnergyVariables) && OutputsDistinct(KineticEnergyRelations)
  {
  }

  lemma KineticEnergyDeclared()
    ensures UsesDeclaredKeys(KineticEnergyVariables, KineticEnergyRelations)
  {
    assert Keys(KineticEnergyVariables) == ["KE", "m", "v"];
  }

  lemma KineticEnergySolvable()
    ensures NoSelfInput(KineticEnergyRelations) && RelationIffOutput(KineticEnergyVariables, KineticEnergyRelations)
  {
    assert "KE" !in ["m", "v"] && "m" !in ["KE", "v"] && "v" !in ["KE", "m"];
  }

  /** Which keys occur in the text of relation 0. */
  lemma KineticEnergyOccurrences0()
    ensures !Occurs("0.5 * m * (v ** 2)", "KE")
    ensures Occurs("0.5 * m * (v ** 2)", "m")
    ensures Occurs("0.5 * m * (v ** 2)", "v")
  {
    AbsentChar("0.5 * m * (v ** 2)", "KE", 0);
    Witness("0.5 * m * (v ** 2)", "m", 6);
    Witness("0.5 * m * (v ** 2)", "v", 11);
  }

  lemma KineticEnergyText0()
    ensures MentionsExactly(KineticEnergyVariables, KineticEnergyRelations[0])
  {
    KineticEnergyOccurrences0();
    assert KineticEnergyRelations[0] == Relation("KE", "0.5 * m * (v ** 2)", ["m", "v"]);
    MentionsExactlyByKeys(KineticEnergyVariables, KineticEnergyRelations[0], ["KE", "m", "v"]);
  }

  /** Which keys occur in the text of relation 1. */
  lemma KineticEnergyOccurrences1()
    ensures Occurs("(2 * KE) / (v ** 2)", "KE")
    ensures !Occurs("(2 * KE) / (v ** 2)", "m")
    ensures Occurs("(2 * KE) / (v ** 2)", "v")
  {
    Witness("(2 * KE) / (v ** 2)", "KE", 5);
    AbsentChar("(2 * KE) / (v ** 2)", "m", 0);
    Witness("(2 * KE) / (v ** 2)", "v", 12);
  }

  lemma KineticEnergyText1()
    ensures MentionsExactly(KineticEnergyVariables, KineticEnergyRelations[1])
  {
    KineticEnergyOccurrences1();
    assert KineticEnergyRelations[1] == Relation("m", "(2 * KE) / (v ** 2)", ["KE", "v"]);
    MentionsExactlyByKeys(KineticEnergyVariables, KineticEnergyRelations[1], ["KE", "m", "v"]);
  }

  /** Which keys occur in the text of relation 2. */
  lemma KineticEnergyOccurrences2()
    ensures Occurs("Math.sqrt((2 * KE) / m)", "KE")
    ensures Occurs("Math.sqrt((2 * KE) / m)", "m")
    ensures !Occurs("Math.sqrt((2 * KE) / m)", "v")
  {
    Witness("Math.sqrt((2 * KE) / m)", "KE", 15);
    Witness("Math.sqrt((2 * KE) / m)", "m", 21);
    AbsentChar("Math.sqrt((2 * KE) / m)", "v", 0);
  }

  lemma KineticEnergyText2()
    ensures MentionsExactly(KineticEnergyVariables, KineticEnergyRelations[2])
  {
    KineticEnergyOccurrences2();
    assert KineticEnergyRelations[2] == Relation("v", "Math.sqrt((2 * KE) / m)", ["KE", "m"]);
    MentionsExactlyByKeys(KineticEnergyVariables, KineticEnergyRelations[2], ["KE", "m", "v"]);
  }

  lemma KineticEnergyText()
    ensures MentionsExactlyInputs(KineticEnergyVariables, KineticEnergyRelations)
  {
    KineticEnergyText0(); KineticEnergyText1(); KineticEnergyText2();
  }

  lemma PotentialEnergyDistinct()
    ensures KeysDistinct(PotentialEnergyVariables) && OutputsDistinct(PotentialEnergyRelations)
  {
  }

  lemma PotentialEnergyDeclared()
    ensures UsesDeclaredKeys(PotentialEnergyVariables, PotentialEnergyRelations)
  {
    assert Keys(PotentialEnergyVariables) == ["PE", "m", "g", "h"];
  }

  lemma PotentialEnergySolvable()
    ensures NoSelfInput(PotentialEnergyRelations) && RelationIffOutput(PotentialEnergyVariables, PotentialEnergyRelations)
  {
    assert "PE" !in ["m", "g", "h"] && "m" !in ["PE", "g", "h"] && "h" !in ["PE", "m", "g"];
  }

  /** Which keys occur in the text of relation 0. */
  lemma PotentialEnergyOccurrences0()
    ensures !Occurs("m * g * h", "PE")
    ensures Occurs("m * g * h", "m")
    ensures Occurs("m * g * h", "g")
    ensures Occurs("m * g * h", "h")
  {
    AbsentChar("m * g * h", "PE", 0);
    Witness("m * g * h", "m", 0);
    Witness("m * g * h", "g", 4);
    Witness("m * g * h", "h", 8);
  }

  lemma PotentialEnergyText0()
    ensures MentionsExactly(PotentialEnergyVariables, PotentialEnergyRelations[0])
  {
    PotentialEnergyOccurrences0();
    assert PotentialEnergyRelations[0] == Relation("PE", "m * g * h", ["m", "g", "h"]);
    MentionsExactlyByKeys(PotentialEnergyVariables, PotentialEnergyRelations[0], ["PE", "m", "g", "h"]);
  }

  /** Which keys occur in the text of relation 1. */
  lemma PotentialEnergyOccurrences1()
    ensures Occurs("PE / (g * h)", "PE")
    ensures !Occurs("PE / (g * h)", "m")
    ensures Occurs("PE / (g * h)", "g")
    ensures Occurs("PE / (g * h)", "h")
  {
    Witness("PE / (g * h)", "PE", 0);
    AbsentChar("PE / (g * h)", "m", 0);
    Witness("PE / (g * h)", "g", 6);
    Witness("PE / (g * h)", "h", 10);
  }

  lemma PotentialEnergyText1()
    ensures MentionsExactly(PotentialEnergyVariables, PotentialEnergyRelations[1])
  {
    PotentialEnergyOccurrences1();
    assert PotentialEnergyRelations[1] == Relation("m", "PE / (g * h)", ["PE", "g", "h"]);
    MentionsExactlyByKeys(PotentialEnergyVariables, PotentialEnergyRelations[1], ["PE", "m", "g", "h"]);
  }

  /** Which keys occur in the text of relation 2. */
  lemma PotentialEnergyOccurrences2()
    ensures Occurs("PE / (m * g)", "PE")
    ensures Occurs("PE / (m * g)", "m")
    ensures Occurs("PE / (m * g)", "g")
    ensures !Occurs("PE / (m * g)", "h")
  {
    Witness("PE / (m * g)", "PE", 0);
    Witness("PE / (m * g)", "m", 6);
    Witness("PE / (m * g)", "g", 10);
    AbsentChar("PE / (m * g)", "h", 0);
  }

  lemma PotentialEnergyText2()
    ensures MentionsExactly(PotentialEnergyVariables, PotentialEnergyRelations[2])
  {
    PotentialEnergyOccurrences2();
    assert PotentialEnergyRelations[2] == Relation("h", "PE / (m * g)", ["PE", "m", "g"]);
    MentionsExactlyByKeys(PotentialEnergyVariables, PotentialEnergyRelations[2], ["PE", "m", "g", "h"]);
  }

  lemma PotentialEnergyText()
    ensures MentionsExactlyInputs(PotentialEnergyVariables, PotentialEnergyRelations)
  {
    PotentialEnergyText0(); PotentialEnergyText1(); PotentialEnergyText2();
  }

  lemma WorkDistinct()
    ensures KeysDistinct(WorkVariables) && OutputsDistinct(WorkRelations)
  {
  }

  lemma WorkDeclared()
    ensures UsesDeclaredKeys(WorkVariables, WorkRelations)
  {
    assert Keys(WorkVariables) == ["W", "F", "d"];
  }

  lemma WorkSolvable()
    ensures NoSelfInput(WorkRelations) && RelationIffOutput(WorkVariables, WorkRelations)
  {
    assert "W" !in ["F", "d"] && "F" !in ["W", "d"] && "d" !in ["W", "F"];
  }

  /** Which keys occur in the text of relation 0. */
  lemma WorkOccurrences0()
    ensures !Occurs("F * d", "W")
    ensures Occurs("F * d", "F")
    ensures Occurs("F * d", "d")
  {
    AbsentChar("F * d", "W", 0);
    Witness("F * d", "F", 0);
    Witness("F * d", "d", 4);
  }

  lemma WorkText0()
    ensures MentionsExactly(WorkVariables, WorkRelations[0])
  {
    WorkOccurrences0();
    assert WorkRelations[0] == Relation("W", "F * d", ["F", "d"]);
    MentionsExactlyByKeys(WorkVariables, WorkRelations[0], ["W", "F", "d"]);
  }

  /** Which keys occur in the text of relation 1. */
  lemma WorkOccurrences1()
    ensures Occurs("W / d", "W")
    ensures !Occurs("W / d", "F")
    ensures Occurs("W / d", "d")
  {
    Witness("W / d", "W", 0);
    AbsentChar("W / d", "F", 0);
    Witness("W / d", "d", 4);
  }

  lemma WorkText1()
    ensures MentionsExactly(WorkVariables, WorkRelations[1])
  {
    WorkOccurrences1();
    assert WorkRelations[1] == Relation("F", "W / d", ["W", "d"]);
    MentionsExactlyByKeys(WorkVariables, WorkRelations[1], ["W", "F", "d"]);
  }

  /** Which keys occur in the text of relation 2. */
  lemma WorkOccurrences2()
    ensures Occurs("W / F", "W")
    ensures Occurs("W / F", "F")
    ensures !Occurs("W / F", "d")
  {
    Witness("W / F", "W", 0);
    Witness("W / F", "F", 4);
    AbsentChar("W / F", "d", 0);
  }

  lemma WorkText2()
    ensures MentionsExactly(WorkVariables, WorkRelations[2])
  {
    WorkOccurrences2();
    assert WorkRelations[2] == Relation("d", "W / F", ["W", "F"]);
    MentionsExactlyByKeys(WorkVariables, WorkRelations[2], ["W", "F", "d"]);
  }

  lemma WorkText()
    ensures MentionsExactlyInputs(WorkVariables, WorkRelations)
  {
    WorkText0(); WorkText1(); WorkText2();
  }

  lemma EfficiencyDistinct()
    ensures KeysDistinct(EfficiencyVariables) && OutputsDistinct(EfficiencyRelations)
  {
  }

  lemma EfficiencyDeclared()
    ensures UsesDeclaredKeys(EfficiencyVariables, EfficiencyRelations)
  {
    assert Keys(EfficiencyVariables) == ["\U{3B7}", "Output", "Input"];
  }

  lemma EfficiencySolvable()
    ensures NoSelfInput(EfficiencyRelations) && RelationIffOutput(EfficiencyVariables, EfficiencyRelations)
  {
    assert "\U{3B7}" !in ["Output", "Input"] && "Output" !in ["\U{3B7}", "Input"] && "Input" !in ["Output", "\U{3B7}"];
  }

  /** Which keys occur in the text of relation 0. */
  lemma EfficiencyOccurrences0()
    ensures !Occurs("(Output / Input) * 100", "\U{3B7}")
    ensures Occurs("(Output / Input) * 100", "Output")
    ensures Occurs("(Output / Input) * 100", "Input")
  {
    AbsentChar("(Output / Input) * 100", "\U{3B7}", 0);
    Witness("(Output / Input) * 100", "Output", 1);
    Witness("(Output / Input) * 100", "Input", 10);
  }

  lemma EfficiencyText0()
    ensures MentionsExactly(EfficiencyVariables, EfficiencyRelations[0])
  {
    EfficiencyOccurrences0();
    assert EfficiencyRelations[0] == Relation("\U{3B7}", "(Output / Input) * 100", ["Output", "Input"]);
    MentionsExactlyByKeys(EfficiencyVariables, EfficiencyRelations[0], ["\U{3B7}", "Output", "Input"]);
  }

  /** Which keys occur in the text of relation 1. */
  lemma EfficiencyOccurrences1()
    ensures Occurs("(\U{3B7}/100) * Input", "\U{3B7}")
    ensures !Occurs("(\U{3B7}/100) * Input", "Output")
    ensures Occurs("(\U{3B7}/100) * Input", "Input")
  {
    Witness("(\U{3B7}/100) * Input", "\U{3B7}", 1);
    AbsentChar("(\U{3B7}/100) * Input", "Output", 0);
    Witness("(\U{3B7}/100) * Input", "Input", 10);
  }

  lemma EfficiencyText1()
    ensures MentionsExactly(EfficiencyVariables, EfficiencyRelations[1])
  {
    EfficiencyOccurrences1();
    assert EfficiencyRelations[1] == Relation("Output", "(\U{3B7}/100) * Input", ["\U{3B7}", "Input"]);
    MentionsExactlyByKeys(EfficiencyVariables, EfficiencyRelations[1], ["\U{3B7}", "Output", "Input"]);
  }

  /** Which keys occur in the text of relation 2. */
  lemma EfficiencyOccurrences2()
    ensures Occurs("Output / (\U{3B7}/100)", "\U{3B7}")
    ensures Occurs("Output / (\U{3B7}/100)", "Output")
    ensures !Occurs("Output / (\U{3B7}/100)", "Input")
  {
    Witness("Output / (\U{3B7}/100)", "\U{3B7}", 10);
    Witness("Output / (\U{3B7}/100)", "Output", 0);
    AbsentChar("Output / (\U{3B7}/100)", "Input", 0);
  }

  lemma EfficiencyText2()
    ensures MentionsExactly(EfficiencyVariables, EfficiencyRelations[2])
  {
    EfficiencyOccurrences2();
    assert EfficiencyRelations[2] == Relation("Input", "Output / (\U{3B7}/100)", ["Output", "\U{3B7}"]);
    MentionsExactlyByKeys(EfficiencyVariables, EfficiencyRelations[2], ["\U{3B7}", "Output", "Input"]);
  }

  lemma EfficiencyText()
    ensures MentionsExactlyInputs(EfficiencyVariables, EfficiencyRelations)
  {
    EfficiencyText0(); EfficiencyText1(); EfficiencyText2();
  }

  lemma SeriesResistanceDistinct()
    ensures KeysDistinct(SeriesResistanceVariables) && OutputsDistinct(SeriesResistanceRelations)
  {
  }

  lemma SeriesResistanceDeclared()
    ensures UsesDeclaredKeys(SeriesResistanceVariables, SeriesResistanceRelations)
  {
    assert Keys(SeriesResistanceVariables) == ["R_total", "R1", "R2"];
  }

  lemma SeriesResistanceSolvable()
    ensures NoSelfInput(SeriesResistanceRelations) && RelationIffOutput(SeriesResistanceVariables, SeriesResistanceRelations)
  {
    assert "R_total" !in ["R1", "R2"];
  }

  /** Which keys occur in the text of relation 0. */
  lemma SeriesResistanceOccurrences0()
    ensures !Occurs("R1 + R2", "R_total")
    ensures Occurs("R1 + R2", "R1")
    ensures Occurs("R1 + R2", "R2")
  {
    AbsentChar("R1 + R2", "R_total", 1);
    Witness("R1 + R2", "R1", 0);
    Witness("R1 + R2", "R2", 5);
  }

  lemma SeriesResistanceText0()
    ensures MentionsExactly(SeriesResistanceVariables, SeriesResistanceRelations[0])
  {
    SeriesResistanceOccurrences0();
    assert SeriesResistanceRelations[0] == Relation("R_total", "R1 + R2", ["R1", "R2"]);
    MentionsExactlyByKeys(SeriesResistanceVariables, SeriesResistanceRelations[0], ["R_total", "R1", "R2"]);
  }

  lemma SeriesResistanceText()
    ensures MentionsExactlyInputs(SeriesResistanceVariables, SeriesResistanceRelations)
  {
    SeriesResistanceText0();
  }

  lemma ParallelResistanceDistinct()
    ensures KeysDistinct(ParallelResistanceVariables) && OutputsDistinct(ParallelResistanceRelations)
  {
  }

  lemma ParallelResistanceDeclared()
    ensures UsesDeclaredKeys(ParallelResistanceVariables, ParallelResistanceRelations)
  {
    assert Keys(ParallelResistanceVariables) == ["R_total", "R1", "R2"];
  }

  lemma ParallelResistanceSolvable()
    ensures NoSelfInput(ParallelResistanceRelations) && RelationIffOutput(ParallelResistanceVariables, ParallelResistanceRelations)
  {
    assert "R_total" !in ["R1", "R2"];
  }

  /** Which keys occur in the text of relation 0. */
  lemma ParallelResistanceOccurrences0()
    ensures !Occurs("1 / ((1/R1) + (1/R2))", "R_total")
    ensures Occurs("1 / ((1/R1) + (1/R2))", "R1")
    ensures Occurs("1 / ((1/R1) + (1/R2))", "R2")
  {
    AbsentChar("1 / ((1/R1) + (1/R2))", "R_total", 1);
    Witness("1 / ((1/R1) + (1/R2))", "R1", 8);
    Witness("1 / ((1/R1) + (1/R2))", "R2", 17);
  }

  lemma ParallelResistanceText0()
    ensures MentionsExactly(ParallelResistanceVariables, ParallelResistanceRelations[0])
  {
    ParallelResistanceOccurrences0();
    assert ParallelResistanceRelations[0] == Relation("R_total", "1 / ((1/R1) + (1/R2))", ["R1", "R2"]);
    MentionsExactlyByKeys(ParallelResistanceVariables, ParallelResistanceRelations[0], ["R_total", "R1", "R2"]);
  }

  lemma ParallelResistanceText()
    ensures MentionsExactlyInputs(ParallelResistanceVariables, ParallelResistanceRelations)
  {
    ParallelResistanceText0();
  }

  lemma OhmsLawFields()
    ensures RequiredFieldsPresent(OhmsLaw)
  {
  }

  lemma PowerFormulaFields()
    ensures RequiredFieldsPresent(PowerFormula)
  {
  }

  lemma ForceCalculationFields()
    ensures RequiredFieldsPresent(ForceCalculation)
  {
  }

  lemma PressureFormulaFields()
    ensures RequiredFieldsPresent(PressureFormula)
  {
  }

  lemma KineticEnergyFields()
    ensures RequiredFieldsPresent(KineticEnergy)
  {
  }

  lemma PotentialEnergyFields()
    ensures RequiredFieldsPresent(PotentialEnergy)
  {
  }

  lemma WorkFields()
    ensures RequiredFieldsPresent(Work)
  {
  }

  lemma EfficiencyFields()
    ensures RequiredFieldsPresent(Efficiency)
  {
  }

  lemma SeriesResistanceFields()
    ensures RequiredFieldsPresent(SeriesResistance)
  {
  }

  lemma ParallelResistanceFields()
    ensures RequiredFieldsPresent(ParallelResistance)
  {
  }

  lemma OhmsLawWellFormed()
    ensures WellFormed(OhmsLaw)
  {
    OhmsLawFields(); OhmsLawDistinct(); OhmsLawDeclared(); OhmsLawSolvable(); OhmsLawText();
  }

  lemma PowerFormulaWellFormed()
    ensures WellFormed(PowerFormula)
  {
    PowerFormulaFields(); PowerFormulaDistinct(); PowerFormulaDeclared(); PowerFormulaSolvable(); PowerFormulaText();
  }

  lemma ForceCalculationWellFormed()
    ensures WellFormed(ForceCalculation)
  {
    ForceCalculationFields(); ForceCalculationDistinct(); ForceCalculationDeclared(); ForceCalculationSolvable(); ForceCalculationText();
  }

  lemma PressureFormulaWellFormed()
    ensures WellFormed(PressureFormula)
  {
    PressureFormulaFields(); PressureFormulaDistinct(); PressureFormulaDeclared(); PressureFormulaSolvable(); PressureFormulaText();
  }

  lemma KineticEnergyWellFormed()
    ensures WellFormed(KineticEnergy)
  {
    KineticEnergyFields(); KineticEnergyDistinct(); KineticEnergyDeclared(); KineticEnergySolvable(); KineticEnergyText();
  }

  lemma PotentialEnergyWellFormed()
    ensures WellFormed(PotentialEnergy)
  {
    PotentialEnergyFields(); PotentialEnergyDistinct(); PotentialEnergyDeclared(); PotentialEnergySolvable(); PotentialEnergyText();
  }

  lemma WorkWellFormed()
    ensures WellFormed(Work)
  {
    WorkFields(); WorkDistinct(); WorkDeclared(); WorkSolvable(); WorkText();
  }

  lemma EfficiencyWellFormed()
    ensures WellFormed(Efficiency)
  {
    EfficiencyFields(); EfficiencyDistinct(); EfficiencyDeclared(); EfficiencySolvable(); EfficiencyText();
  }

  lemma SeriesResistanceWellFormed()
    ensures WellFormed(SeriesResistance)
  {
    SeriesResistanceFields(); SeriesResistanceDistinct(); SeriesResistanceDeclared(); SeriesResistanceSolvable(); SeriesResistanceText();
  }

  lemma ParallelResistanceWellFormed()
    ensures WellFormed(ParallelResistance)
  {
    ParallelResistanceFields(); ParallelResistanceDistinct(); ParallelResistanceDeclared(); ParallelResistanceSolvable(); ParallelResistanceText();
  }

  /** Every seed formula is well formed. */
  lemma CatalogWellFormed()
    ensures forall f :: f in Catalog ==> WellFormed(f)
  {
    OhmsLawWellFormed();
    PowerFormulaWellFormed();
    ForceCalculationWellFormed();
    PressureFormulaWellFormed();
    KineticEnergyWellFormed();
    PotentialEnergyWellFormed();
    WorkWellFormed();
    EfficiencyWellFormed();
    SeriesResistanceWellFormed();
    ParallelResistanceWellFormed();
  }

  // ---------------------------------------------------------------------------
  // The catalog in the calculation pipeline
  // ---------------------------------------------------------------------------

  /** The catalog inserted into an empty collection: seed `k` gets id `k`. */
  const Seeded: seq<FormulaDoc> := Numbered(Catalog, 0)

  /** Every seed is stored active, so looking one up by its id finds it. */
  lemma SeededLookup(k: nat)
    requires k < |Catalog|
    ensures ActiveFormula(Seeded, Some(k)) == Some(FormulaDoc(k, Catalog[k]))
  {
    assert Seeded[k].id == k;
    var r := FindFormula(Seeded, Some(k));
    var i :| 0 <= i < |Seeded| && Seeded[i] == r.value;
    assert Catalog[k].isActive;
  }

  /** With distinct keys, a key's lookup finds the variable that declares it. */
  lemma FindDeclared(vs: seq<Variable>, j: nat)
    requires KeysDistinct(vs) && j < |vs|
    ensures FindVariable(vs, vs[j].key) == Some(vs[j])
  {
  }

  /** With distinct outputs, the relation chosen for an output is the one solving for it. */
  lemma FindSolved(rs: seq<Relation>, i: nat)
    requires OutputsDistinct(rs) && i < |rs|
    ensures FindRelation(rs, rs[i].outputVariable) == Some(rs[i])
  {
  }

  /**
   * On a well-formed formula, asking for a declared variable fails with
   * "Cannot calculate" exactly when the variable is not flagged as an output.
   */
  lemma CannotCalculateIffNotOutput(formulas: seq<FormulaDoc>, calculators: seq<Calculator>,
                                    req: CalculateRequest, userId: Option<Id>,
                                    evaluate: string -> Option<real>, render: real -> string, j: nat)
    requires !QuickCalculatorMissing(calculators, req, userId)
    requires ActiveFormula(formulas, req.formulaId).Some?
    requires var f := ActiveFormula(formulas, req.formulaId).value.formula;
             && WellFormed(f) && j < |f.variables|
             && OutputParam(req.outputVariable, req.outputKey) == Some(f.variables[j].key)
    ensures var v := ActiveFormula(formulas, req.formulaId).value.formula.variables[j];
            Compute(formulas, calculators, req, userId, evaluate, render) == Failed(CannotCalculate(Some(v.key)))
            <==> !v.isOutput
  {
    var f := ActiveFormula(formulas, req.formulaId).value.formula;
    assert RelationIffOutput(f.variables, f.calculations);
    assert ChosenRelation(f, req) == FindRelation(f.calculations, f.variables[j].key);
    CannotCalculateIffNoRelation(formulas, calculators, req, userId, evaluate, render);
  }

  /** Solving Series Resistance for `R1` is refused: only the total has a relation. */
  lemma SeriesResistanceCannotSolveR1(inputs: Option<ObjectEntries>, evaluate: string -> Option<real>, render: real -> string)
    ensures Compute(Seeded, [], CalculateRequest(None, Some(8), inputs, Some("R1"), None), None, evaluate, render)
            == Failed(CannotCalculate(Some("R1")))
  {
    SeededLookup(8);
    SeriesResistanceWellFormed();
    assert SeriesResistanceVariables[1].key == "R1" && !SeriesResistanceVariables[1].isOutput;
    CannotCalculateIffNotOutput(Seeded, [], CalculateRequest(None, Some(8), inputs, Some("R1"), None),
                                None, evaluate, render, 1);
  }

  /** An example's key/value pairs as request inputs, in order. */
  function EntriesOf(pairs: seq<(Key, real)>): (es: Inputs)
    ensures |es| == |pairs|
    ensures forall i :: 0 <= i < |pairs| ==> es[i] == Entry(pairs[i].0, pairs[i].1)
  {
    if pairs == [] then [] else [Entry(pairs[0].0, pairs[0].1)] + EntriesOf(pairs[1..])
  }

  /**
   * A catalog example as a request: solve for its output from its inputs, with
   * no calculator. The example's inputs are a map, so each key occurs once.
   */
  function ExampleRequest(id: Id, ex: Example): CalculateRequest
    requires DistinctKeys(EntriesOf(ex.inputs))
  {
    CalculateRequest(None, Some(id), Some(EntriesOf(ex.inputs)), None, Some(ex.outputVariable))
  }

  /** Two inputs are substituted one after the other. */
  lemma SubstituteTwo(e: string, a: Entry, b: Entry, render: real -> string)
    ensures Substitute(e, [a, b], render) == ReplaceAll(ReplaceAll(e, a.key, render(a.value)), b.key, render(b.value))
  {
    var e1 := ReplaceAll(e, a.key, render(a.value));
    assert [a, b][1..] == [b] && [b][1..] == [];
    assert Substitute(e, [a, b], render) == Substitute(e1, [b], render);
    assert Substitute(e1, [b], render) == Substitute(ReplaceAll(e1, b.key, render(b.value)), [], render);
  }

  /** The first step of the Ohm's-law example: `I` becomes `2`. */
  lemma OhmsLawExampleCurrent()
    ensures ReplaceAll("I * R", "I", "2") == "2 * R"
  {
    ReplaceAllFirstMatch("I * R", "I", "2", 0);
    assert "I * R"[1..] == " * R";
    AbsentChar(" * R", "I", 0);
    ReplaceAllAbsent(" * R", "I", "2");
  }

  /** The second step of the Ohm's-law example: `R` becomes `10`. */
  lemma OhmsLawExampleResistance()
    ensures ReplaceAll("2 * R", "R", "10") == "2 * 10"
  {
    assert "2 * " + "R" == "2 * R";
    ReplaceAllOneChar("2 * R", 'R', "10");
    ReplaceCharAppend("2 * ", "R", 'R', "10");
    ReplaceCharAbsent("2 * ", 'R', "10");
  }

  /** The text the Ohm's-law example hands to the evaluator. */
  lemma OhmsLawExampleText(render: real -> string)
    requires render(2.0) == "2" && render(10.0) == "10"
    ensures Substitute("I * R", [Entry("I", 2.0), Entry("R", 10.0)], render) == "2 * 10"
  {
    SubstituteTwo("I * R", Entry("I", 2.0), Entry("R", 10.0), render);
    OhmsLawExampleCurrent();
    OhmsLawExampleResistance();
  }

  /** The constraint scan over two entries: the first entry's report, else the second's. */
  lemma FirstViolationPair(a: Entry, b: Entry, vars: seq<Variable>)
    ensures FirstViolation([a, b], vars) ==
            if FirstViolation([a], vars).Some? then FirstViolation([a], vars) else FirstViolation([b], vars)
  {
    assert [a, b][1..] == [b] && [a][1..] == [];
  }

  /** The Ohm's-law example's inputs are complete. */
  lemma OhmsLawExampleComplete()
    ensures MissingInputs(["I", "R"], [Entry("I", 2.0), Entry("R", 10.0)]) == []
  {
    var inputs := [Entry("I", 2.0), Entry("R", 10.0)];
    assert HasKey(inputs, "I") && HasKey(inputs, "R") by {
      assert inputs[0].key == "I" && inputs[1].key == "R";
    }
  }

  /** The Ohm's-law example's inputs are within their constraints. */
  lemma OhmsLawExampleAdmissible()
    ensures FirstViolation([Entry("I", 2.0), Entry("R", 10.0)], OhmsLawVariables) == None
  {
    OhmsLawDistinct();
    FindDeclared(OhmsLawVariables, 1);
    FindDeclared(OhmsLawVariables, 2);
    assert OhmsLawVariables[1].key == "I" && OhmsLawVariables[2].key == "R";
    assert FirstViolation([Entry("I", 2.0)], OhmsLawVariables) == None by {
      assert [Entry("I", 2.0)][1..] == [];
    }
    assert FirstViolation([Entry("R", 10.0)], OhmsLawVariables) == None by {
      assert [Entry("R", 10.0)][1..] == [];
    }
    FirstViolationPair(Entry("I", 2.0), Entry("R", 10.0), OhmsLawVariables);
  }

  /**
   * The Ohm's-law example: 2 and 10 are put into `I * R`, and the result is
   * whatever the evaluator makes of `2 * 10`, in volts; an evaluator that
   * multiplies gives the expected 20.
   */
  lemma OhmsLawExample(formulas: seq<FormulaDoc>, id: Id, evaluate: string -> Option<real>, render: real -> string)
    requires ActiveFormula(formulas, Some(id)) == Some(FormulaDoc(id, OhmsLaw))
    requires render(2.0) == "2" && render(10.0) == "10"
    ensures var ex := OhmsLaw.examples[0];
            && DistinctKeys(EntriesOf(ex.inputs))
            && var o := Compute(formulas, [], ExampleRequest(id, ex), None, evaluate, render);
            && (evaluate("2 * 10").None? ==> o == Failed(CalculationError))
            && (evaluate("2 * 10").Some? ==>
                  o == Computed(id, "V", evaluate("2 * 10").value, "V", "Ohm's Law", "V = I \U{D7} R"))
            && (evaluate("2 * 10") == Some(2.0 * 10.0) ==> o.Computed? && o.result == ex.expectedOutput)
  {
    var ex := OhmsLaw.examples[0];
    assert ex.inputs == [("I", 2.0), ("R", 10.0)] && ex.outputVariable == "V" && ex.expectedOutput == 20.0;
    assert EntriesOf(ex.inputs) == [Entry("I", 2.0), Entry("R", 10.0)];
    OhmsLawDistinct();
    FindSolved(OhmsLawRelations, 0);
    OhmsLawExampleComplete();
    OhmsLawExampleAdmissible();
    OhmsLawExampleText(render);
    FindDeclared(OhmsLawVariables, 0);
  }

  /** Of a voltage of any sign and a resistance, only the resistance can be refused. */
  lemma OhmsLawCurrentChecks(v: real, r: real)
    ensures MissingInputs(["V", "R"], [Entry("V", v), Entry("R", r)]) == []
    ensures FirstViolation([Entry("V", v), Entry("R", r)], OhmsLawVariables) == CheckValue(OhmsLawVariables[2], r)
  {
    var inputs := [Entry("V", v), Entry("R", r)];
    assert HasKey(inputs, "V") && HasKey(inputs, "R") by {
      assert inputs[0].key == "V" && inputs[1].key == "R";
    }
    OhmsLawDistinct();
    FindDeclared(OhmsLawVariables, 0);
    FindDeclared(OhmsLawVariables, 2);
    assert OhmsLawVariables[0].key == "V" && OhmsLawVariables[2].key == "R";
    assert FirstViolation([Entry("V", v)], OhmsLawVariables) == None by {
      assert [Entry("V", v)][1..] == [];
    }
    assert FirstViolation([Entry("R", r)], OhmsLawVariables) == CheckValue(OhmsLawVariables[2], r) by {
      assert [Entry("R", r)][1..] == [];
    }
    FirstViolationPair(Entry("V", v), Entry("R", r), OhmsLawVariables);
  }

  /**
   * Solving Ohm's law for the current: the resistance is checked for
   * positivity before its minimum of 0.001, so 0 is reported as not positive
   * and 0.0005 as below the minimum; the voltage may have any sign.
   */
  lemma OhmsLawResistanceChecks(formulas: seq<FormulaDoc>, id: Id, v: real, r: real,
                                 evaluate: string -> Option<real>, render: real -> string)
    requires ActiveFormula(formulas, Some(id)) == Some(FormulaDoc(id, OhmsLaw))
    ensures var req := CalculateRequest(None, Some(id), Some([Entry("V", v), Entry("R", r)]), None, Some("I"));
            var o := Compute(formulas, [], req, None, evaluate, render);
            && (r <= 0.0 ==> o == Failed(ConstraintViolated(NotPositive("Resistance"))))
            && (0.0 < r < 0.001 ==> o == Failed(ConstraintViolated(BelowMin("Resistance", 0.001))))
            && (r >= 0.001 ==> o.Computed? || o == Failed(CalculationError))
  {
    var req := CalculateRequest(None, Some(id), Some([Entry("V", v), Entry("R", r)]), None, Some("I"));
    OhmsLawDistinct();
    FindSolved(OhmsLawRelations, 1);
    assert ChosenRelation(OhmsLaw, req) == Some(OhmsLawRelations[1]);
    OhmsLawCurrentChecks(v, r);
    ConstraintsDecideAfterInputs(formulas, [], req, None, evaluate, render);
    ResistanceCheck(r);
  }

  /** The checks on a resistance: positive first, then at least 0.001. */
  lemma ResistanceCheck(r: real)
    ensures CheckValue(OhmsLawVariables[2], r) ==
            if r <= 0.0 then Some(NotPositive("Resistance"))
            else if r < 0.001 then Some(BelowMin("Resistance", 0.001))
            else None
  {
    assert OhmsLawVariables[2] == SeedVar("R", "Resistance", "\U{3A9}", "Electrical resistance", true, PositiveFromMilli);
  }

  /** In the seeded store, Ohm's law is the active formula with id 0. */
  lemma SeededOhmsLaw()
    ensures ActiveFormula(Seeded, Some(0)) == Some(FormulaDoc(0, OhmsLaw))
  {
    SeededLookup(0);
  }
}
