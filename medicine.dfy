/** The medicine record, its id-less form and the partial update applied to it. */
module Medicines {
  import opened Wrappers
  import Seqs
  import Text

  /** A catalogue entry. `stock` is a JavaScript number, kept here as an integer. */
  datatype Medicine = Medicine(id: string, name: string, formula: string, dosage: string, formulation: string, stock: int)

  /** A record before the store assigns its id (`Omit<Medicine, 'id'>`). */
  datatype Draft = Draft(name: string, formula: string, dosage: string, formulation: string, stock: int)

  /** `Partial<Medicine>`: a field that is `None` is absent and keeps its old value under spreading. */
  datatype Update = Update(id: Option<string>, name: Option<string>, formula: Option<string>,
                           dosage: Option<string>, formulation: Option<string>, stock: Option<int>)

  /** `{ ...draft, id }`. */
  function WithId(d: Draft, id: string): (m: Medicine)
    ensures m.id == id && Fields(m) == d
  {
    Medicine(id, d.name, d.formula, d.dosage, d.formulation, d.stock)
  }

  /** The record without its id. */
  function Fields(m: Medicine): Draft {
    Draft(m.name, m.formula, m.dosage, m.formulation, m.stock)
  }

  /** `{ ...m, ...u }`: every field present in `u` overrides, every absent one is kept. */
  function Merge(m: Medicine, u: Update): (r: Medicine)
    ensures r.id == u.id.GetOr(m.id) && r.name == u.name.GetOr(m.name)
    ensures r.formula == u.formula.GetOr(m.formula) && r.dosage == u.dosage.GetOr(m.dosage)
    ensures r.formulation == u.formulation.GetOr(m.formulation) && r.stock == u.stock.GetOr(m.stock)
  {
    Medicine(u.id.GetOr(m.id), u.name.GetOr(m.name), u.formula.GetOr(m.formula),
             u.dosage.GetOr(m.dosage), u.formulation.GetOr(m.formulation), u.stock.GetOr(m.stock))
  }

  /** Applying the same update twice is the same as applying it once. */
  lemma MergeIdempotent(m: Medicine, u: Update)
    ensures Merge(Merge(m, u), u) == Merge(m, u)
  {
  }

  /** An edit of one form field; the field's key is `FieldKey(e)`. */
  datatype Edit =
    | SetName(name: string)
    | SetFormula(formula: string)
    | SetDosage(dosage: string)
    | SetFormulation(formulation: string)
    | SetStock(stock: int)

  /** The property name the edit writes (`[field]: value`). */
  function FieldKey(e: Edit): string {
    match e
    case SetName(_) => "name"
    case SetFormula(_) => "formula"
    case SetDosage(_) => "dosage"
    case SetFormulation(_) => "formulation"
    case SetStock(_) => "stock"
  }

  /** `{ ...d, [field]: value }`: the named field takes the value, the other four are kept. */
  function ApplyEdit(d: Draft, e: Edit): (r: Draft)
    ensures FieldKey(e) != "name" ==> r.name == d.name
    ensures FieldKey(e) != "formula" ==> r.formula == d.formula
    ensures FieldKey(e) != "dosage" ==> r.dosage == d.dosage
    ensures FieldKey(e) != "formulation" ==> r.formulation == d.formulation
    ensures FieldKey(e) != "stock" ==> r.stock == d.stock
    ensures e.SetName? ==> r.name == e.name
    ensures e.SetFormula? ==> r.formula == e.formula
    ensures e.SetDosage? ==> r.dosage == e.dosage
    ensures e.SetFormulation? ==> r.formulation == e.formulation
    ensures e.SetStock? ==> r.stock == e.stock
  {
    match e
    case SetName(v) => d.(name := v)
    case SetFormula(v) => d.(formula := v)
    case SetDosage(v) => d.(dosage := v)
    case SetFormulation(v) => d.(formulation := v)
    case SetStock(v) => d.(stock := v)
  }

  /** What both entry forms accept: a name that is not blank and a stock that is not negative. */
  predicate Acceptable(d: Draft) {
    !Text.IsBlank(d.name) && d.stock >= 0
  }

  /** The error messages after an edit of the field `key`: a message that is set (non-empty) is
      blanked, anything else is kept. */
  function ClearedError(errors: map<string, string>, key: string): (r: map<string, string>)
    ensures r.Keys == errors.Keys
    ensures key in r ==> r[key] == ""
    ensures forall k :: k in errors && k != key ==> r[k] == errors[k]
  {
    if key in errors && errors[key] != "" then errors[key := ""] else errors
  }

  /** `medicines.findIndex(m => m.id === id)`, with `None` for -1. */
  function FindIndex(ms: seq<Medicine>, id: string): (r: Option<nat>)
    ensures r.None? <==> forall i :: 0 <= i < |ms| ==> ms[i].id != id
    ensures r.Some? ==> r.value < |ms| && ms[r.value].id == id
    ensures r.Some? ==> forall i :: 0 <= i < r.value ==> ms[i].id != id
  {
    Seqs.FirstIndex((m: Medicine) => m.id == id, ms)
  }
}
