/**
 * The document store the controllers read and write: the formula,
 * calculator and calculation collections, each in insertion order, and the
 * supply of fresh document ids.
 */
module Store {
  import opened Wrappers
  import opened FormulaModel
  import opened Records
  import Seqs

  /** A stored formula with its document id. */
  datatype FormulaDoc = FormulaDoc(id: Id, formula: Formula)

  predicate UniqueIds(docs: seq<FormulaDoc>) {
    forall i, j :: 0 <= i < j < |docs| ==> docs[i].id != docs[j].id
  }

  /** The catalog as inserted into an empty collection: consecutive ids from `start`. */
  function Numbered(catalog: seq<Formula>, start: Id): (docs: seq<FormulaDoc>)
    ensures |docs| == |catalog|
    ensures forall i :: 0 <= i < |catalog| ==> docs[i] == FormulaDoc(start + i, catalog[i])
  {
    if catalog == [] then []
    else [FormulaDoc(start, catalog[0])] + Numbered(catalog[1..], start + 1)
  }

  /**
   * `Formula.findById(id)`: the document with that id; an absent id
   * (`findById(undefined)`) finds nothing.
   */
  function FindFormula(docs: seq<FormulaDoc>, id: Option<Id>): (r: Option<FormulaDoc>)
    ensures r.None? <==> id.None? || forall i :: 0 <= i < |docs| ==> docs[i].id != id.value
    ensures r.Some? ==> r.value in docs && id == Some(r.value.id)
  {
    if id.None? then None
    else
      var k := Seqs.FirstIndex(docs, (d: FormulaDoc) => d.id == id.value);
      if k.None? then None else Some(docs[k.value])
  }

  /** The same document with its usage count one higher. */
  function Bumped(d: FormulaDoc): FormulaDoc {
    d.(formula := d.formula.(usageCount := d.formula.usageCount + 1))
  }

  /** `Formula.findByIdAndUpdate(id, { $inc: { usageCount: 1 } })`. */
  function IncrementUsage(docs: seq<FormulaDoc>, id: Id): (r: seq<FormulaDoc>)
    ensures |r| == |docs|
    ensures forall i :: 0 <= i < |docs| ==> r[i] == if docs[i].id == id then Bumped(docs[i]) else docs[i]
    ensures forall i :: 0 <= i < |docs| ==> r[i].id == docs[i].id
  {
    if docs == [] then []
    else [if docs[0].id == id then Bumped(docs[0]) else docs[0]] + IncrementUsage(docs[1..], id)
  }

  /**
   * After the increment, looking up `id` finds the same formula with a usage
   * count one higher, and every other lookup finds what it found before.
   */
  lemma IncrementUsageLookup(docs: seq<FormulaDoc>, id: Id, other: Option<Id>)
    requires UniqueIds(docs)
    ensures UniqueIds(IncrementUsage(docs, id))
    ensures FindFormula(IncrementUsage(docs, id), other) ==
            if other == Some(id) && FindFormula(docs, other).Some?
            then Some(Bumped(FindFormula(docs, other).value))
            else FindFormula(docs, other)
  {
    var r := IncrementUsage(docs, id);
    assert UniqueIds(r) by {
      forall i, j | 0 <= i < j < |r| ensures r[i].id != r[j].id {
        assert r[i].id == docs[i].id && r[j].id == docs[j].id;
      }
    }
    if other.Some? {
      var f := FindFormula(docs, other);
      var g := FindFormula(r, other);
      if f.Some? {
        var i :| 0 <= i < |docs| && docs[i] == f.value;
        assert r[i].id == other.value;
        var j :| 0 <= j < |r| && r[j] == g.value;
        assert docs[j].id == other.value;
        assert i == j;
      }
    }
  }

  /**
   * The filter of `Calculator.findOne({ _id, user_id[, kind] })`. A key whose
   * value is `undefined` is dropped from the filter before it reaches the
   * store, so a missing id or user matches every calculator on that key.
   */
  predicate CalculatorMatches(c: Calculator, id: Option<Id>, userId: Option<Id>, kind: Option<Kind>) {
    && (id.None? || c.id == id.value)
    && (userId.None? || c.userId == userId.value)
    && (kind.None? || c.kind == kind.value)
  }

  /** The position of the first calculator the filter matches, if any. */
  function FindCalculator(cs: seq<Calculator>, id: Option<Id>, userId: Option<Id>, kind: Option<Kind>): (r: Option<nat>)
    ensures r.None? <==> forall i :: 0 <= i < |cs| ==> !CalculatorMatches(cs[i], id, userId, kind)
    ensures r.Some? ==> r.value < |cs| && CalculatorMatches(cs[r.value], id, userId, kind)
                        && forall j :: 0 <= j < r.value ==> !CalculatorMatches(cs[j], id, userId, kind)
  {
    Seqs.FirstIndex(cs, (c: Calculator) => CalculatorMatches(c, id, userId, kind))
  }

  ghost predicate Consistent(formulas: seq<FormulaDoc>, calculators: seq<Calculator>,
                             calculations: seq<Calculation>, nextId: Id) {
    && UniqueIds(formulas)
    && (forall i :: 0 <= i < |formulas| ==> formulas[i].id < nextId)
    && (forall i :: 0 <= i < |calculators| ==> calculators[i].id < nextId)
    && (forall i :: 0 <= i < |calculations| ==> calculations[i].id < nextId)
  }

  /** Recording a calculation under a fresh id and bumping a usage count keeps the store consistent. */
  lemma RecordKeepsConsistent(formulas: seq<FormulaDoc>, calculators: seq<Calculator>,
                              calculations: seq<Calculation>, nextId: Id, formulaId: Id, c: Calculation)
    requires Consistent(formulas, calculators, calculations, nextId) && c.id == nextId
    ensures Consistent(IncrementUsage(formulas, formulaId), calculators, calculations + [c], nextId + 1)
  {
    IncrementUsageLookup(formulas, formulaId, None);
    var cs := calculations + [c];
    assert forall i :: 0 <= i < |cs| ==> cs[i].id < nextId + 1 by {
      forall i | 0 <= i < |cs| ensures cs[i].id < nextId + 1 {
        if i < |calculations| {
          assert cs[i] == calculations[i];
        }
      }
    }
  }

  class Db {
    var formulas: seq<FormulaDoc>
    var calculators: seq<Calculator>
    var calculations: seq<Calculation>
    var nextId: Id

    ghost predicate Valid()
      reads this
    {
      Consistent(formulas, calculators, calculations, nextId)
    }

    /** A store holding just the given catalog. */
    constructor (catalog: seq<Formula>)
      ensures Valid()
      ensures formulas == Numbered(catalog, 0)
      ensures calculators == [] && calculations == []
    {
      formulas := Numbered(catalog, 0);
      calculators := [];
      calculations := [];
      nextId := |catalog|;
    }

    /** Hand out an id no stored document has. */
    method FreshId() returns (id: Id)
      requires Valid()
      modifies this`nextId
      ensures Valid() && id == old(nextId) && nextId == id + 1
      ensures forall i :: 0 <= i < |calculators| ==> calculators[i].id < id
      ensures forall i :: 0 <= i < |calculations| ==> calculations[i].id < id
    {
      id := nextId;
      nextId := nextId + 1;
    }
  }
}
