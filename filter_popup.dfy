/**
 * The "similar medicines" popup (`FilterPopup`): three toggles choosing which
 * fields must equal the selected medicine's, and the list they select.
 */
module FilterPopup {
  import opened Wrappers
  import opened Seqs
  import opened Medicines

  /** `localFilters`. */
  datatype Filters = Filters(formula: bool, dosage: bool, formulation: bool)

  /** The toggle names `'formula' | 'dosage' | 'formulation'`. */
  datatype FilterKind = ByFormula | ByDosage | ByFormulation

  predicate AnyActive(f: Filters) {
    f.formula || f.dosage || f.formulation
  }

  /** Every active field of `med` equals the selected medicine's, exactly (case included). */
  predicate SameOnActive(med: Medicine, selected: Medicine, f: Filters) {
    && (f.formula ==> med.formula == selected.formula)
    && (f.dosage ==> med.dosage == selected.dosage)
    && (f.formulation ==> med.formulation == selected.formulation)
  }

  /** The filter callback of `getFilteredMedicines`. */
  predicate Keep(med: Medicine, selected: Medicine, f: Filters) {
    if med.id == selected.id then true
    else if !AnyActive(f) then false
    else SameOnActive(med, selected, f)
  }

  /** `getFilteredMedicines()`: the selected medicine (by id) is always kept; with no toggle on
      nothing else is; otherwise another record is kept when it agrees on every active field. */
  function FilteredMedicines(ms: seq<Medicine>, selected: Medicine, f: Filters): (r: seq<Medicine>)
    ensures forall m :: m in ms && m.id == selected.id ==> m in r
    ensures !AnyActive(f) ==> forall m :: m in r <==> m in ms && m.id == selected.id
    ensures AnyActive(f) ==> forall m :: m in r <==> m in ms && (m.id == selected.id || SameOnActive(m, selected, f))
  {
    Filter((med: Medicine) => Keep(med, selected, f), ms)
  }

  /** The selection keeps the list's order. */
  lemma FilteredKeepsOrder(ms: seq<Medicine>, selected: Medicine, f: Filters)
    ensures IsSubsequence(FilteredMedicines(ms, selected, f), ms)
  {
    FilterIsSubsequence((med: Medicine) => Keep(med, selected, f), ms);
  }

  /** Turning a toggle on never adds a record, as long as another toggle is already on. */
  lemma MoreFiltersFewerRecords(ms: seq<Medicine>, selected: Medicine, f: Filters, k: FilterKind)
    requires AnyActive(f) && !IsOn(f, k)
    ensures multiset(FilteredMedicines(ms, selected, Toggled(f, k))) <= multiset(FilteredMedicines(ms, selected, f))
  {
    FilterStronger((med: Medicine) => Keep(med, selected, Toggled(f, k)), (med: Medicine) => Keep(med, selected, f), ms);
  }

  predicate IsOn(f: Filters, k: FilterKind) {
    match k
    case ByFormula => f.formula
    case ByDosage => f.dosage
    case ByFormulation => f.formulation
  }

  /** `{ ...prev, [filterType]: !prev[filterType] }`. */
  function Toggled(f: Filters, k: FilterKind): (r: Filters)
    ensures IsOn(r, k) == !IsOn(f, k)
    ensures forall j :: j != k ==> IsOn(r, j) == IsOn(f, j)
  {
    match k
    case ByFormula => f.(formula := !f.formula)
    case ByDosage => f.(dosage := !f.dosage)
    case ByFormulation => f.(formulation := !f.formulation)
  }

  /** Toggling twice restores the filters. */
  lemma ToggleTwice(f: Filters, k: FilterKind)
    ensures Toggled(Toggled(f, k), k) == f
  {
  }

  /** The formula-only filters the popup opens with. */
  const OnOpen := Filters(true, false, false)

  class FilterPopupState {
    var filters: Filters

    constructor()
      ensures filters == Filters(false, false, false)
    {
      filters := Filters(false, false, false);
    }

    /** The reset effect: opening with a medicine turns on the formula toggle only. */
    method Reset(isOpen: bool, medicine: Option<Medicine>)
      modifies this
      ensures isOpen && medicine.Some? ==> filters == OnOpen
      ensures !(isOpen && medicine.Some?) ==> filters == old(filters)
    {
      if isOpen && medicine.Some? {
        filters := OnOpen;
      }
    }

    /** `toggleFilter(filterType)`. */
    method ToggleFilter(k: FilterKind)
      modifies this
      ensures filters == Toggled(old(filters), k)
    {
      filters := Toggled(filters, k);
    }
  }
}
