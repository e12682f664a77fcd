/**
 * The related-medicines popup (`RelatedMedicinesPopup`): the medicines that share
 * a formula, ignoring letter case, their stock colour bands and the heading that
 * counts them.
 */
module Related {
  import opened Text
  import opened Seqs
  import opened Medicines

  /** `medicines.filter(m => m.formula.toLowerCase() === formula.toLowerCase())`: no trimming. */
  function RelatedMedicines(ms: seq<Medicine>, formula: string): (r: seq<Medicine>)
    ensures forall m :: m in r <==> m in ms && ToLower(m.formula) == ToLower(formula)
  {
    Filter((m: Medicine) => ToLower(m.formula) == ToLower(formula), ms)
  }

  /** The related list keeps the list's order. */
  lemma RelatedKeepsOrder(ms: seq<Medicine>, formula: string)
    ensures IsSubsequence(RelatedMedicines(ms, formula), ms)
  {
    FilterIsSubsequence((m: Medicine) => ToLower(m.formula) == ToLower(formula), ms);
  }

  /** Opening the popup from a medicine lists that medicine, and the list does not depend on the
      letter case of the formula it was opened with. */
  lemma RelatedIncludesOrigin(ms: seq<Medicine>, m: Medicine, formula: string)
    requires m in ms && ToLower(formula) == ToLower(m.formula)
    ensures m in RelatedMedicines(ms, formula)
    ensures RelatedMedicines(ms, formula) == RelatedMedicines(ms, m.formula)
  {
    FilterCongruent((x: Medicine) => ToLower(x.formula) == ToLower(formula),
                    (x: Medicine) => ToLower(x.formula) == ToLower(m.formula), ms);
  }

  /** The colour of a stock badge. */
  datatype Band = Red | Yellow | Green

  /** `getStockStatus(stock)`: exactly 0 is red, anything else up to 10 (negatives included) is
      yellow, more is green. */
  function StockBand(stock: int): (b: Band)
    ensures b == Red <==> stock == 0
    ensures b == Yellow <==> stock != 0 && stock <= 10
    ensures b == Green <==> stock > 10
  {
    if stock == 0 then Red else if stock <= 10 then Yellow else Green
  }

  /** What the popup body shows. */
  datatype Listing = NoneFound | Found(count: nat, noun: string)

  /** The body: the "No medicines found" panel for an empty list, otherwise the count with
      `medicine` or `medicines`. */
  function ListingOf(related: seq<Medicine>): (r: Listing)
    ensures r == NoneFound <==> related == []
    ensures r.Found? ==> r.count == |related|
    ensures r.Found? ==> (r.noun == "medicine" <==> |related| == 1)
    ensures r.Found? ==> r.noun == "medicine" || r.noun == "medicines"
  {
    if |related| == 0 then NoneFound
    else Found(|related|, "medicine" + (if |related| == 1 then "" else "s"))
  }
}
