/**
 * The calculator and calculation documents: the BASIC/QUICK kind, the RAD/DEG
 * angle mode, a calculator's settings with their defaults, and the input map
 * of a formula calculation as the ordered entries of a JavaScript object.
 */
module Records {
  import opened Wrappers

  /** A document id. */
  type Id = nat

  datatype Kind = Basic | Quick

  function KindName(k: Kind): string {
    match k
    case Basic => "BASIC"
    case Quick => "QUICK"
  }

  /** The schema's enum check on `kind`. */
  function ParseKind(s: string): (r: Option<Kind>)
    ensures forall k :: r == Some(k) <==> s == KindName(k)
  {
    if s == "BASIC" then Some(Basic) else if s == "QUICK" then Some(Quick) else None
  }

  datatype AngleMode = Rad | Deg

  function AngleModeName(m: AngleMode): string {
    match m
    case Rad => "RAD"
    case Deg => "DEG"
  }

  /** The schema's enum check on `angleMode`. */
  function ParseAngleMode(s: string): (r: Option<AngleMode>)
    ensures forall m :: r == Some(m) <==> s == AngleModeName(m)
  {
    if s == "RAD" then Some(Rad) else if s == "DEG" then Some(Deg) else None
  }

  const DefaultAngleMode: AngleMode := Deg
  const DefaultPrecision: real := 10.0

  /**
   * The settings a calculator document holds once the schema's defaults are
   * filled in, as stored: the angle mode is the text the request sent (the
   * enum is checked only when a document is validated on save), the
   * precision a JavaScript number.
   */
  datatype Settings = Settings(angleMode: string, precision: real)

  /** A `settings` object as a request sends it: either field may be missing. */
  datatype SettingsInput = SettingsInput(angleMode: Option<string>, precision: Option<real>)

  /** A missing angle mode reads as DEG and a missing precision as 10. */
  function WithDefaults(s: SettingsInput): (r: Settings)
    ensures s.angleMode.Some? ==> r.angleMode == s.angleMode.value
    ensures s.angleMode.None? ==> r.angleMode == AngleModeName(DefaultAngleMode)
    ensures s.precision.Some? ==> r.precision == s.precision.value
    ensures s.precision.None? ==> r.precision == DefaultPrecision
  {
    Settings(s.angleMode.GetOr(AngleModeName(DefaultAngleMode)), s.precision.GetOr(DefaultPrecision))
  }

  /** The schema's `min: 1, max: 15` validators on `settings.precision`. */
  predicate PrecisionValid(s: Settings) {
    1.0 <= s.precision <= 15.0
  }

  datatype Calculator = Calculator(
    id: Id,
    userId: Id,
    kind: Kind,
    name: string,
    settings: Settings,
    selectedFormulaId: Option<Id>,
    isActive: bool)

  /** One `[key, value]` pair of `Object.entries(inputs)`. */
  datatype Entry = Entry(key: string, value: real)

  /** The entries of an `inputs` object, in the order `Object.entries` lists them. */
  type Inputs = seq<Entry>

  /** `inputs.hasOwnProperty(key)`. */
  predicate HasKey(inputs: Inputs, key: string) {
    exists i | 0 <= i < |inputs| :: inputs[i].key == key
  }

  /** The keys of a JavaScript object are distinct. */
  predicate DistinctKeys(inputs: Inputs) {
    forall i, j :: 0 <= i < j < |inputs| ==> inputs[i].key != inputs[j].key
  }

  /** The entries of an object parsed from a JSON body, which names each key once. */
  type ObjectEntries = e: Inputs | DistinctKeys(e)

  /** A calculation record: BASIC records carry the expression, QUICK records the formula fields. */
  datatype Calculation = Calculation(
    id: Id,
    userId: Option<Id>,
    calculatorId: Id,
    kind: Kind,
    expression: Option<string>,
    angleMode: AngleMode,
    usedAns: bool,
    previousAnswer: Option<real>,
    formulaId: Option<Id>,
    inputs: Inputs,
    outputKey: Option<string>,
    result: real,
    unit: string)
}
