/**
 * The home page's search filter and the small guards around its handlers:
 * which medicine a delete request names, when a click opens the related-medicines
 * popup, and the record an edit produces.
 */
module Home {
  import opened Wrappers
  import opened Text
  import opened Seqs
  import opened Medicines

  /** One of the four searched fields, lower-cased, includes `query` (already lower-cased). */
  predicate Matches(m: Medicine, query: string) {
    || Contains(ToLower(m.name), query)
    || Contains(ToLower(m.formula), query)
    || Contains(ToLower(m.dosage), query)
    || Contains(ToLower(m.formulation), query)
  }

  /** `filteredMedicines`: a query that trims to nothing leaves the list alone; otherwise the
      lower-cased query, untrimmed, must occur in a searched field. */
  function FilteredMedicines(ms: seq<Medicine>, searchQuery: string): (r: seq<Medicine>)
    ensures IsBlank(searchQuery) ==> r == ms
    ensures !IsBlank(searchQuery) ==> forall m :: m in r <==> m in ms && Matches(m, ToLower(searchQuery))
  {
    TrimFacts(searchQuery);
    if Trim(searchQuery) != [] then
      var query := ToLower(searchQuery);
      Filter((m: Medicine) => Matches(m, query), ms)
    else
      ms
  }

  /** The search result keeps the list's order. */
  lemma SearchKeepsOrder(ms: seq<Medicine>, searchQuery: string)
    ensures IsSubsequence(FilteredMedicines(ms, searchQuery), ms)
  {
    TrimFacts(searchQuery);
    if Trim(searchQuery) != [] {
      var query := ToLower(searchQuery);
      FilterIsSubsequence((m: Medicine) => Matches(m, query), ms);
    } else {
      SubsequenceOfItself(ms);
    }
  }

  /** Stock is never searched: records that differ only in stock are kept or dropped together. */
  lemma StockNotSearched(ms: seq<Medicine>, searchQuery: string, m: Medicine, stock: int)
    requires m in ms && m.(stock := stock) in ms
    ensures m in FilteredMedicines(ms, searchQuery) <==> m.(stock := stock) in FilteredMedicines(ms, searchQuery)
  {
  }

  /** A non-blank query equal to a record's name up to letter case finds the record. */
  lemma NameFoundIgnoringCase(ms: seq<Medicine>, searchQuery: string, m: Medicine)
    requires m in ms && !IsBlank(searchQuery) && ToLower(m.name) == ToLower(searchQuery)
    ensures m in FilteredMedicines(ms, searchQuery)
  {
    assert OccursAt(ToLower(m.name), ToLower(searchQuery), 0);
  }

  /** `handleDelete(id)`: the medicine asked about for confirmation, `medicines.find(m => m.id === id)`;
      with none the handler does nothing. */
  function DeleteTarget(ms: seq<Medicine>, id: string): (r: Option<Medicine>)
    ensures r.None? <==> forall m :: m in ms ==> m.id != id
    ensures r.Some? ==> r.value in ms && r.value.id == id
    ensures r.Some? ==> exists i :: 0 <= i < |ms| && ms[i] == r.value && forall j :: 0 <= j < i ==> ms[j].id != id
  {
    match FindIndex(ms, id)
    case None => None
    case Some(i) => Some(ms[i])
  }

  /** `handleMedicineClick(medicine)`: the formula the related popup opens with, when the formula
      is not blank; the formula is passed on untrimmed. */
  function RelatedFormula(m: Medicine): (r: Option<string>)
    ensures r.Some? <==> !IsBlank(m.formula)
    ensures r.Some? ==> r.value == m.formula
  {
    TrimFacts(m.formula);
    if m.formula != "" && Trim(m.formula) != "" then Some(m.formula) else None
  }

  /** The form data as a spread source: every field but the id present. */
  function AsUpdate(d: Draft): (u: Update)
    ensures u.id.None?
    ensures u.name == Some(d.name) && u.formula == Some(d.formula) && u.dosage == Some(d.dosage)
    ensures u.formulation == Some(d.formulation) && u.stock == Some(d.stock)
  {
    Update(None, Some(d.name), Some(d.formula), Some(d.dosage), Some(d.formulation), Some(d.stock))
  }

  /** The edited record `{ ...editingMedicine, ...medicineData }` keeps the id of the record being
      edited and takes every other field from the form. */
  lemma EditedRecord(editing: Medicine, data: Draft)
    ensures Merge(editing, AsUpdate(data)) == WithId(data, editing.id)
  {
  }
}
