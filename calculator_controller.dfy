/**
 * The calculator routes: create (with a default name), the field-wise patch
 * update, the soft delete, the owner's active calculators newest first, the
 * basic calculation (caret normalisation, evaluation, one BASIC record) and
 * the paged calculation history.
 *
 * Evaluating an expression (JavaScript's `eval`) is a parameter, returning
 * `None` where `eval` throws.
 */
module CalculatorController {
  import opened Wrappers
  import opened JsText
  import opened Records
  import opened Store
  import Seqs
  import Paging

  // ---------------------------------------------------------------------------
  // Create
  // ---------------------------------------------------------------------------

  /**
   * The name a new calculator gets: a given non-empty name is kept;
   * otherwise "Basic Calculator" for the BASIC kind and "Formula Calculator"
   * for anything else.
   */
  function CalculatorName(kind: Option<string>, name: Option<string>): (r: string)
    ensures r != []
    ensures Truthy(name) ==> r == name.value
    ensures !Truthy(name) ==> (r == "Basic Calculator" <==> kind == Some("BASIC"))
    ensures !Truthy(name) ==> (r == "Formula Calculator" <==> kind != Some("BASIC"))
  {
    if Truthy(name) then name.value
    else if kind == Some("BASIC") then "Basic Calculator"
    else "Formula Calculator"
  }

  datatype CreateRequest = CreateRequest(kind: Option<string>, name: Option<string>, settings: Option<SettingsInput>)

  /** The document the schema validates: `settings || {}` with its defaults filled in. */
  function InitialSettings(req: CreateRequest): (s: Settings)
    ensures req.settings.None? ==> s == Settings(AngleModeName(DefaultAngleMode), DefaultPrecision)
    ensures req.settings.Some? && req.settings.value.angleMode.Some? ==> s.angleMode == req.settings.value.angleMode.value
    ensures req.settings.Some? && req.settings.value.precision.Some? ==> s.precision == req.settings.value.precision.value
  {
    WithDefaults(req.settings.GetOr(SettingsInput(None, None)))
  }

  /** The paths of a calculator document that its validation on save can reject. */
  datatype CalculatorPath = KindPath | AngleModePath | PrecisionPath

  /**
   * The paths a new calculator fails on: `kind` missing or outside
   * BASIC/QUICK, `settings.angleMode` outside RAD/DEG, `settings.precision`
   * outside 1 to 15. Validation reports all of them together.
   */
  function CreateErrors(req: CreateRequest): (paths: set<CalculatorPath>)
    ensures KindPath in paths <==> ParseKind(req.kind.GetOr("")).None?
    ensures AngleModePath in paths <==> ParseAngleMode(InitialSettings(req).angleMode).None?
    ensures PrecisionPath in paths <==> !PrecisionValid(InitialSettings(req))
  {
    (if ParseKind(req.kind.GetOr("")).None? then {KindPath} else {})
    + (if ParseAngleMode(InitialSettings(req).angleMode).None? then {AngleModePath} else {})
    + (if PrecisionValid(InitialSettings(req)) then {} else {PrecisionPath})
  }

  datatype CreateResponse =
    | Created(calculator: Calculator)
    | CreateRefused(status: nat, paths: set<CalculatorPath>)

  /**
   * The create route: a new active calculator of the caller, appended to the
   * store with a fresh id; a failed validation (status 400, naming every
   * failing path) changes nothing.
   */
  method CreateCalculator(db: Db, userId: Id, req: CreateRequest) returns (resp: CreateResponse)
    requires db.Valid()
    modifies db
    ensures db.Valid()
    ensures CreateErrors(req) != {} ==> resp == CreateRefused(400, CreateErrors(req)) && unchanged(db)
    ensures CreateErrors(req) == {} ==>
              var c := Calculator(old(db.nextId), userId, ParseKind(req.kind.GetOr("")).value,
                                  CalculatorName(req.kind, req.name), InitialSettings(req), None, true);
              && resp == Created(c)
              && db.calculators == old(db.calculators) + [c]
              && db.formulas == old(db.formulas) && db.calculations == old(db.calculations)
  {
    var errors := CreateErrors(req);
    if errors != {} {
      return CreateRefused(400, errors);
    }
    var kind := ParseKind(req.kind.GetOr(""));
    var id := db.FreshId();
    var calculator := Calculator(id, userId, kind.value, CalculatorName(req.kind, req.name), InitialSettings(req), None, true);
    db.calculators := db.calculators + [calculator];
    resp := Created(calculator);
  }

  /** A calculator the create route stores passes its own validation. */
  lemma CreatedIsValid(req: CreateRequest, id: Id, userId: Id)
    requires CreateErrors(req) == {}
    ensures var c := Calculator(id, userId, ParseKind(req.kind.GetOr("")).value,
                                CalculatorName(req.kind, req.name), InitialSettings(req), None, true);
            && KindName(c.kind) == req.kind.value
            && ParseAngleMode(c.settings.angleMode).Some? && PrecisionValid(c.settings)
            && c.name != []
  {
    var k := ParseKind(req.kind.GetOr("")).value;
    assert req.kind.GetOr("") == KindName(k);
  }

  // ---------------------------------------------------------------------------
  // Listing
  // ---------------------------------------------------------------------------

  predicate OwnedAndActive(c: Calculator, userId: Id) {
    c.userId == userId && c.isActive
  }

  /**
   * `getUserCalculators`: the caller's active calculators, newest first (the
   * store keeps them in creation order).
   */
  function UserCalculators(cs: seq<Calculator>, userId: Id): (r: seq<Calculator>)
    ensures forall c :: c in r <==> c in cs && OwnedAndActive(c, userId)
    ensures r == Seqs.Reverse(Seqs.Filter(cs, (c: Calculator) => OwnedAndActive(c, userId)))
  {
    var owned := Seqs.Filter(cs, (c: Calculator) => OwnedAndActive(c, userId));
    Seqs.ReverseSameElements(owned);
    Seqs.Reverse(owned)
  }

  /** A calculator created after all others is listed first. */
  lemma NewestListedFirst(cs: seq<Calculator>, c: Calculator, userId: Id)
    requires OwnedAndActive(c, userId)
    ensures UserCalculators(cs + [c], userId) == [c] + UserCalculators(cs, userId)
  {
    var p := (x: Calculator) => OwnedAndActive(x, userId);
    Seqs.FilterAppend(cs, [c], p);
    assert Seqs.Filter([c], p) == [c];
    var f := Seqs.Filter(cs, p);
    assert Seqs.Reverse(f + [c]) == [c] + Seqs.Reverse(f);
  }

  // ---------------------------------------------------------------------------
  // Update and delete
  // ---------------------------------------------------------------------------

  /** The fields of an update request; only the truthy ones are written. */
  datatype Patch = Patch(name: Option<string>, settings: Option<SettingsInput>, selectedFormulaId: Option<Id>)

  /**
   * The update document applied to a calculator: each of the three fields
   * that is truthy in the request overwrites the stored one (a new settings
   * object replaces the old one whole), every other field is kept.
   */
  function ApplyPatch(c: Calculator, p: Patch): (r: Calculator)
    ensures r.id == c.id && r.userId == c.userId && r.kind == c.kind && r.isActive == c.isActive
    ensures r.name == (if Truthy(p.name) then p.name.value else c.name)
    ensures r.settings == (if p.settings.Some? then WithDefaults(p.settings.value) else c.settings)
    ensures r.selectedFormulaId == (if p.selectedFormulaId.Some? then p.selectedFormulaId else c.selectedFormulaId)
  {
    c.(name := if Truthy(p.name) then p.name.value else c.name,
       settings := if p.settings.Some? then WithDefaults(p.settings.value) else c.settings,
       selectedFormulaId := if p.selectedFormulaId.Some? then p.selectedFormulaId else c.selectedFormulaId)
  }

  /** Applying the same patch twice is applying it once; an empty patch changes nothing. */
  lemma ApplyPatchIdempotent(c: Calculator, p: Patch)
    ensures ApplyPatch(ApplyPatch(c, p), p) == ApplyPatch(c, p)
    ensures ApplyPatch(c, Patch(None, None, None)) == c
    ensures ApplyPatch(c, Patch(Some([]), None, None)) == c
  {
  }

  /**
   * The update route: the first calculator with this id owned by the caller
   * (active or not) is patched in place; when there is none, the answer is
   * 404 (`None`) and nothing changes.
   */
  method UpdateCalculator(db: Db, id: Id, userId: Id, patch: Patch) returns (updated: Option<Calculator>)
    requires db.Valid()
    modifies db`calculators
    ensures db.Valid()
    ensures var k := FindCalculator(old(db.calculators), Some(id), Some(userId), None);
      && (k.None? ==> updated.None? && db.calculators == old(db.calculators))
      && (k.Some? ==> && updated == Some(ApplyPatch(old(db.calculators)[k.value], patch))
                      && db.calculators == old(db.calculators)[k.value := updated.value])
  {
    var k := FindCalculator(db.calculators, Some(id), Some(userId), None);
    if k.None? {
      return None;
    }
    var c := ApplyPatch(db.calculators[k.value], patch);
    db.calculators := db.calculators[k.value := c];
    updated := Some(c);
  }

  /**
   * The delete route: soft. The first calculator with this id owned by the
   * caller stays in the store with `isActive` false; when there is none, the
   * answer is 404 (`false`) and nothing changes.
   */
  method DeleteCalculator(db: Db, id: Id, userId: Id) returns (deleted: bool)
    requires db.Valid()
    modifies db`calculators
    ensures db.Valid()
    ensures var k := FindCalculator(old(db.calculators), Some(id), Some(userId), None);
      && (deleted <==> k.Some?)
      && (k.None? ==> db.calculators == old(db.calculators))
      && (k.Some? ==> db.calculators == old(db.calculators)[k.value := old(db.calculators)[k.value].(isActive := false)])
  {
    var k := FindCalculator(db.calculators, Some(id), Some(userId), None);
    if k.None? {
      return false;
    }
    db.calculators := db.calculators[k.value := db.calculators[k.value].(isActive := false)];
    deleted := true;
  }

  /**
   * After a soft delete the record is still stored, but the owner's listing
   * omits it; every other listed calculator is still listed.
   */
  lemma DeletedNotListed(cs: seq<Calculator>, k: nat, userId: Id)
    requires k < |cs|
    ensures var cs' := cs[k := cs[k].(isActive := false)];
      && |cs'| == |cs| && cs'[k].id == cs[k].id
      && cs'[k] !in UserCalculators(cs', userId)
      && forall c :: c in UserCalculators(cs, userId) && c != cs[k] ==> c in UserCalculators(cs', userId)
  {
    var cs' := cs[k := cs[k].(isActive := false)];
    forall c | c in UserCalculators(cs, userId) && c != cs[k] ensures c in cs' {
      var i :| 0 <= i < |cs| && cs[i] == c;
      assert cs'[i] == c;
    }
  }

  // ---------------------------------------------------------------------------
  // Basic calculation
  // ---------------------------------------------------------------------------

  /** `expression.replace(/\^/g, '**')`: every caret becomes the `**` operator. */
  function NormalizeCaret(s: string): string {
    ReplaceAll(s, "^", "**")
  }

  /**
   * Caret normalisation rewrites each caret to `**` and keeps every other
   * character: it works piece by piece, the result has no caret, its length
   * grows by one per caret, and a text without carets is left as it is.
   */
  lemma NormalizeCaretSpec(s: string, t: string)
    ensures '^' !in NormalizeCaret(s)
    ensures |NormalizeCaret(s)| == |s| + Count(s, '^')
    ensures NormalizeCaret(s + t) == NormalizeCaret(s) + NormalizeCaret(t)
    ensures NormalizeCaret("^") == "**"
    ensures forall c :: c != '^' ==> NormalizeCaret([c]) == [c]
    ensures NormalizeCaret(s) == s <==> '^' !in s
  {
    ReplaceAllOneChar(s, '^', "**");
    ReplaceCharLength(s, '^', "**");
    ReplaceAllOneChar(t, '^', "**");
    ReplaceAllOneChar(s + t, '^', "**");
    ReplaceCharAppend(s, t, '^', "**");
    ReplaceAllOneChar("^", '^', "**");
    forall c | c != '^' ensures NormalizeCaret([c]) == [c] {
      ReplaceAllOneChar([c], '^', "**");
    }
    if '^' !in s {
      ReplaceCharAbsent(s, '^', "**");
    }
  }

  /** Normalising twice is normalising once. */
  lemma NormalizeCaretIdempotent(s: string)
    ensures NormalizeCaret(NormalizeCaret(s)) == NormalizeCaret(s)
  {
    NormalizeCaretSpec(s, []);
    NormalizeCaretSpec(NormalizeCaret(s), []);
  }

  datatype BasicRequest = BasicRequest(
    calculatorId: Option<Id>,
    expression: Option<string>,
    angleMode: Option<string>,
    usedAns: Option<bool>,
    previousAnswer: Option<real>)

  /** `angleMode || calculator.settings.angleMode`. */
  function RecordedAngleMode(requested: Option<string>, calculator: Calculator): (m: string)
    ensures Truthy(requested) ==> m == requested.value
    ensures !Truthy(requested) ==> m == calculator.settings.angleMode
  {
    if Truthy(requested) then requested.value else calculator.settings.angleMode
  }

  /** The paths of a calculation record that its validation on save can reject. */
  datatype CalculationPath = CalculatorIdPath | AngleModeRecordPath

  /**
   * The paths the BASIC record fails on: `calculator_id` is required, and the
   * recorded angle mode must be RAD or DEG.
   */
  function RecordErrors(req: BasicRequest, calculator: Calculator): (paths: set<CalculationPath>)
    ensures CalculatorIdPath in paths <==> req.calculatorId.None?
    ensures AngleModeRecordPath in paths <==> ParseAngleMode(RecordedAngleMode(req.angleMode, calculator)).None?
  {
    (if req.calculatorId.None? then {CalculatorIdPath} else {})
    + (if ParseAngleMode(RecordedAngleMode(req.angleMode, calculator)).None? then {AngleModeRecordPath} else {})
  }

  datatype BasicError = BasicCalculatorNotFound | InvalidExpression | RecordRejected(paths: set<CalculationPath>)

  /** The HTTP status of each refusal. */
  function BasicStatus(e: BasicError): (code: nat)
    ensures code == 404 <==> e.BasicCalculatorNotFound?
    ensures code == 400 <==> !e.BasicCalculatorNotFound?
  {
    if e.BasicCalculatorNotFound? then 404 else 400
  }

  /** What a basic calculation decides before anything is stored. */
  datatype BasicOutcome =
    | BasicFailed(error: BasicError)
    | BasicComputed(calculator: Calculator, calculatorId: Id, expression: string, result: real, angleMode: AngleMode)

  /**
   * The checks of a basic calculation, in order: the first BASIC calculator
   * of the caller (active or not) with this id must exist, where a missing id
   * matches any of the caller's BASIC calculators; the expression, with its
   * carets normalised, must evaluate (a missing expression is an invalid
   * one); the record must then pass validation.
   */
  function BasicCalculation(calculators: seq<Calculator>, userId: Id, req: BasicRequest,
                            evaluate: string -> Option<real>): (o: BasicOutcome)
    ensures var k := FindCalculator(calculators, req.calculatorId, Some(userId), Some(Basic));
      && (k.None? <==> o == BasicFailed(BasicCalculatorNotFound))
      && (o == BasicFailed(InvalidExpression) <==>
            k.Some? && (req.expression.None? || evaluate(NormalizeCaret(req.expression.value)).None?))
      && (o.BasicFailed? && o.error.RecordRejected? <==>
            && k.Some? && req.expression.Some? && evaluate(NormalizeCaret(req.expression.value)).Some?
            && RecordErrors(req, calculators[k.value]) != {})
      && (o.BasicFailed? && o.error.RecordRejected? ==> o.error.paths == RecordErrors(req, calculators[k.value]))
      && (o.BasicComputed? <==>
            && k.Some? && req.expression.Some? && evaluate(NormalizeCaret(req.expression.value)).Some?
            && RecordErrors(req, calculators[k.value]) == {})
      && (o.BasicComputed? ==>
            && o.calculator == calculators[k.value]
            && req.calculatorId == Some(o.calculatorId) && o.calculator.id == o.calculatorId
            && o.calculator.kind == Basic && o.calculator.userId == userId
            && req.expression == Some(o.expression)
            && evaluate(NormalizeCaret(o.expression)) == Some(o.result)
            && AngleModeName(o.angleMode) == RecordedAngleMode(req.angleMode, o.calculator))
  {
    var k := FindCalculator(calculators, req.calculatorId, Some(userId), Some(Basic));
    if k.None? then BasicFailed(BasicCalculatorNotFound)
    else if req.expression.None? then BasicFailed(InvalidExpression)
    else
      var result := evaluate(NormalizeCaret(req.expression.value));
      if result.None? then BasicFailed(InvalidExpression)
      else
        var calculator := calculators[k.value];
        var errors := RecordErrors(req, calculator);
        if errors != {} then BasicFailed(RecordRejected(errors))
        else
          var mode := ParseAngleMode(RecordedAngleMode(req.angleMode, calculator)).value;
          assert RecordedAngleMode(req.angleMode, calculator) == AngleModeName(mode);
          BasicComputed(calculator, req.calculatorId.value, req.expression.value, result.value, mode)
  }

  /** The BASIC record: the expression as the user typed it, not normalised. */
  function BasicRecord(id: Id, userId: Id, req: BasicRequest, o: BasicOutcome): (c: Calculation)
    requires o.BasicComputed?
    ensures c.kind == Basic && c.expression == Some(o.expression) && c.result == o.result
    ensures c.angleMode == o.angleMode
    ensures c.calculatorId == o.calculatorId && c.userId == Some(userId)
    ensures c.usedAns == (req.usedAns == Some(true)) && c.previousAnswer == req.previousAnswer
  {
    Calculation(id, Some(userId), o.calculatorId, Basic, Some(o.expression),
                o.angleMode, req.usedAns.GetOr(false),
                req.previousAnswer, None, [], None, o.result, "")
  }

  datatype BasicResponse =
    | BasicRefused(status: nat, error: BasicError)
    | BasicDone(result: real, calculation: Calculation)

  /**
   * The basic-calculation route: a refusal changes nothing; a success
   * appends exactly one BASIC record.
   */
  method PerformBasicCalculation(db: Db, userId: Id, req: BasicRequest, evaluate: string -> Option<real>)
    returns (resp: BasicResponse)
    requires db.Valid()
    modifies db
    ensures db.Valid()
    ensures var o := BasicCalculation(old(db.calculators), userId, req, evaluate);
      && (o.BasicFailed? ==> resp == BasicRefused(BasicStatus(o.error), o.error) && unchanged(db))
      && (o.BasicComputed? ==>
            var record := BasicRecord(old(db.nextId), userId, req, o);
            && resp == BasicDone(o.result, record)
            && db.calculations == old(db.calculations) + [record]
            && db.calculators == old(db.calculators) && db.formulas == old(db.formulas))
  {
    var k := FindCalculator(db.calculators, req.calculatorId, Some(userId), Some(Basic));
    if k.None? {
      return BasicRefused(404, BasicCalculatorNotFound);
    }
    var calculator := db.calculators[k.value];
    if req.expression.None? {
      return BasicRefused(400, InvalidExpression);
    }
    var result := evaluate(NormalizeCaret(req.expression.value));
    if result.None? {
      return BasicRefused(400, InvalidExpression);
    }
    var errors := RecordErrors(req, calculator);
    if errors != {} {
      return BasicRefused(400, RecordRejected(errors));
    }
    var o := BasicCalculation(db.calculators, userId, req, evaluate);
    var id := db.FreshId();
    var record := BasicRecord(id, userId, req, o);
    db.calculations := db.calculations + [record];
    resp := BasicDone(result.value, record);
  }

  /**
   * Without a calculator id, a caller who owns a BASIC calculator gets past
   * the lookup and the evaluation, and the record is then rejected for its
   * missing `calculator_id` (400, not 404).
   */
  lemma MissingCalculatorIdRejectedOnSave(calculators: seq<Calculator>, userId: Id, req: BasicRequest,
                                          evaluate: string -> Option<real>, k: nat)
    requires req.calculatorId.None? && k < |calculators|
    requires calculators[k].userId == userId && calculators[k].kind == Basic
    requires req.expression.Some? && evaluate(NormalizeCaret(req.expression.value)).Some?
    ensures var o := BasicCalculation(calculators, userId, req, evaluate);
            o.BasicFailed? && o.error.RecordRejected? && CalculatorIdPath in o.error.paths
            && BasicStatus(o.error) == 400
  {
    assert CalculatorMatches(calculators[k], req.calculatorId, Some(userId), Some(Basic));
  }

  // ---------------------------------------------------------------------------
  // History
  // ---------------------------------------------------------------------------

  predicate InHistory(c: Calculation, calculatorId: Id, userId: Id) {
    c.calculatorId == calculatorId && c.userId == Some(userId)
  }

  /** The calculations of this calculator and this user, newest first. */
  function History(calcs: seq<Calculation>, calculatorId: Id, userId: Id): (r: seq<Calculation>)
    ensures forall c :: c in r <==> c in calcs && InHistory(c, calculatorId, userId)
    ensures r == Seqs.Reverse(Seqs.Filter(calcs, (c: Calculation) => InHistory(c, calculatorId, userId)))
  {
    var mine := Seqs.Filter(calcs, (c: Calculation) => InHistory(c, calculatorId, userId));
    Seqs.ReverseSameElements(mine);
    Seqs.Reverse(mine)
  }

  datatype HistoryResponse = HistoryResponse(calculations: seq<Calculation>, totalPages: Option<int>, currentPage: int)

  /**
   * `getCalculationHistory`: page `page` (default 1) of at most `|limit|`
   * (default 20) records of the history, skipping `(page - 1) * limit`, with
   * `ceil(total / limit)` pages; a negative skip is the store's error (500).
   */
  function GetCalculationHistory(calcs: seq<Calculation>, calculatorId: Id, userId: Id,
                                 page: Option<int>, limit: Option<int>): (r: Option<HistoryResponse>)
    ensures var p, l := page.GetOr(1), limit.GetOr(20);
      && (r.None? <==> (p < 1 && l > 0) || (p > 1 && l < 0))
      && (r.Some? ==> && r.value.currentPage == p
                      && r.value.totalPages == Paging.TotalPages(|History(calcs, calculatorId, userId)|, l)
                      && (l != 0 ==> |r.value.calculations| <= Paging.Abs(l))
                      && (forall c :: c in r.value.calculations ==> c in calcs && InHistory(c, calculatorId, userId))
                      && var all, skip := History(calcs, calculatorId, userId), Paging.Skip(p, l);
                         && skip >= 0
                         && |r.value.calculations| == (if skip >= |all| then 0
                                                       else if l == 0 || skip + Paging.Abs(l) > |all| then |all| - skip
                                                       else Paging.Abs(l))
                         && forall i :: 0 <= i < |r.value.calculations| ==>
                              skip + i < |all| && r.value.calculations[i] == all[skip + i])
  {
    var p, l := page.GetOr(1), limit.GetOr(20);
    var all := History(calcs, calculatorId, userId);
    var items := Paging.Page(all, p, l);
    if items.None? then None
    else
      assert forall c :: c in items.value ==> c in all;
      Some(HistoryResponse(items.value, Paging.TotalPages(|all|, l), p))
  }

  /** A record the basic route just appended heads its calculator's history. */
  lemma NewRecordHeadsHistory(calcs: seq<Calculation>, c: Calculation)
    requires c.userId.Some?
    ensures History(calcs + [c], c.calculatorId, c.userId.value) == [c] + History(calcs, c.calculatorId, c.userId.value)
  {
    var p := (x: Calculation) => InHistory(x, c.calculatorId, c.userId.value);
    Seqs.FilterAppend(calcs, [c], p);
    assert Seqs.Filter([c], p) == [c];
    var f := Seqs.Filter(calcs, p);
    assert Seqs.Reverse(f + [c]) == [c] + Seqs.Reverse(f);
  }
}
