/**
 * One medicine card (`MedicineItem`): its stock label, whether its formula is
 * highlighted, when a click on it opens the related medicines, and what an empty
 * field shows.
 */
module MedicineItem {
  import opened Text
  import opened Medicines
  import opened Wrappers
  import Related
  import Home

  /** The card's stock label. */
  datatype StockStatus = OutOfStock | LowStock | InStock

  function Label(s: StockStatus): string {
    match s
    case OutOfStock => "Out of Stock"
    case LowStock => "Low Stock"
    case InStock => "In Stock"
  }

  /** `getStockStatus(stock)`: exactly 0 is out of stock, anything else up to 5 (negatives
      included) is low, more is in stock. */
  function StockStatusOf(stock: int): (s: StockStatus)
    ensures s == OutOfStock <==> stock == 0
    ensures s == LowStock <==> stock != 0 && stock <= 5
    ensures s == InStock <==> stock > 5
  {
    if stock == 0 then OutOfStock else if stock <= 5 then LowStock else InStock
  }

  /** The card and the related popup agree on what is out of stock, but not on what is low: a
      stock from 6 to 10 is "In Stock" on the card and yellow in the popup. */
  lemma CardAndPopupBands(stock: int)
    ensures StockStatusOf(stock) == OutOfStock <==> Related.StockBand(stock) == Related.Red
    ensures StockStatusOf(stock) == LowStock ==> Related.StockBand(stock) == Related.Yellow
    ensures 5 < stock <= 10 ==> StockStatusOf(stock) == InStock && Related.StockBand(stock) == Related.Yellow
    ensures Related.StockBand(stock) == Related.Green ==> StockStatusOf(stock) == InStock
  {
  }

  const NotSpecified := "Not specified"

  /** `hasFormula`: a formula that is not blank and is not literally `'Not specified'`. */
  predicate HasFormula(formula: string) {
    Trim(formula) != "" && formula != NotSpecified
  }

  /** `handleCardClick`: in admin mode a click on one of the card's buttons is ignored; otherwise
      the click reaches `onMedicineClick` when the formula is not blank and a callback is given. */
  function CardClickOpens(formula: string, isAdmin: bool, onButton: bool, hasCallback: bool): (opens: bool)
    ensures opens <==> !(isAdmin && onButton) && !IsBlank(formula) && hasCallback
  {
    TrimFacts(formula);
    if isAdmin && onButton then false
    else Trim(formula) != "" && hasCallback
  }

  /** A highlighted formula is always clickable, but the converse fails for the literal
      `'Not specified'`: that card is not highlighted and still opens the popup. */
  lemma HighlightedIsClickable(formula: string, onButton: bool)
    ensures HasFormula(formula) ==> CardClickOpens(formula, false, onButton, true)
    ensures !HasFormula(NotSpecified) && CardClickOpens(NotSpecified, false, onButton, true)
  {
    TrimFacts(formula);
    assert !IsBlank(NotSpecified) by {
      assert NotSpecified[0] == 'N' && !IsSpace('N');
    }
  }

  /** A click that gets through the card's guard always opens the related popup on the page,
      with the card's formula as written: the card and `handleMedicineClick` test the same thing. */
  lemma ClickOpensPopup(m: Medicine, isAdmin: bool, onButton: bool)
    ensures CardClickOpens(m.formula, isAdmin, onButton, true) ==> Home.RelatedFormula(m) == Some(m.formula)
    ensures Home.RelatedFormula(m).None? ==> !CardClickOpens(m.formula, isAdmin, onButton, true)
  {
  }

  /** `value || 'Not specified'` for formula, dosage and formulation. */
  function Displayed(field: string): (shown: string)
    ensures field == "" ==> shown == NotSpecified
    ensures field != "" ==> shown == field
  {
    if field == "" then NotSpecified else field
  }
}
