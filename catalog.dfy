/** The agronomy catalog `crop_details` and its lookup with general advice
    for crops it does not list. Yields are in quintals; areas in acres. */
module Catalog {

  datatype AgronomyRecord = AgronomyRecord(fertilizer: string, pesticide: string, yieldPerAcre: real)

  /** The five crops the catalog knows. */
  const CropDetails: map<string, AgronomyRecord> := map[
    "Maize" := AgronomyRecord("DAP, Urea, Potash", "Chlorpyrifos, Cypermethrin", 25.0),
    "Soyabean" := AgronomyRecord("SSP, Potash, Ammonium Sulphate", "Imidacloprid, Lambda-cyhalothrin", 10.0),
    "Jowar" := AgronomyRecord("Urea, DAP, Zinc Sulphate", "Dimethoate, Acephate", 18.0),
    "Wheat" := AgronomyRecord("Urea, DAP, MOP", "Chlorpyrifos, Malathion", 22.0),
    "Rice" := AgronomyRecord("Urea, Potash, DAP", "Buprofezin, Imidacloprid", 30.0)
  ]

  /** The advice given for a crop outside the catalog. */
  const GeneralFertilizer: string := "Urea or DAP (General Purpose)"
  const GeneralPesticide: string := "Neem Oil or Bio-Pesticide (General Use)"
  const GeneralYieldPerAcre: real := 18.0

  /** Whether the advice comes from the catalog or is the general advice
      shown as a warning. */
  datatype AdviceSource = FromCatalog | GeneralAdvice

  datatype AgronomyDetail = AgronomyDetail(
    fertilizer: string,
    pesticide: string,
    estYield: real,
    source: AdviceSource)

  /** Every yield rate the catalog holds is positive. */
  lemma CatalogRatesPositive()
    ensures forall crop :: crop in CropDetails ==> CropDetails[crop].yieldPerAcre > 0.0
  {
  }

  /** `crop_details.get(crop)` followed by the two-way choice: a listed crop gets
      its own fertilizer and pesticide and its own rate times the area; any other
      crop gets the general advice and 18 quintals per acre, tagged as general.
      A positive area always gives a positive yield estimate. */
  function Lookup(crop: string, area: real): (d: AgronomyDetail)
    ensures d.source == FromCatalog <==> crop in CropDetails
    ensures crop in CropDetails ==>
      var rec := CropDetails[crop];
      d.fertilizer == rec.fertilizer && d.pesticide == rec.pesticide && d.estYield == rec.yieldPerAcre * area
    ensures crop !in CropDetails ==>
      d.fertilizer == GeneralFertilizer && d.pesticide == GeneralPesticide && d.estYield == GeneralYieldPerAcre * area
    ensures area > 0.0 ==> d.estYield > 0.0
  {
    if crop in CropDetails then
      var rec := CropDetails[crop];
      CatalogRatesPositive();
      AgronomyDetail(rec.fertilizer, rec.pesticide, rec.yieldPerAcre * area, FromCatalog)
    else
      AgronomyDetail(GeneralFertilizer, GeneralPesticide, GeneralYieldPerAcre * area, GeneralAdvice)
  }

  /** The yield rate the lookup applies to a crop. */
  function RateOf(crop: string): real {
    if crop in CropDetails then CropDetails[crop].yieldPerAcre else GeneralYieldPerAcre
  }

  /** The advice texts do not depend on the area, and the yield estimate is
      proportional to it: dividing by the area recovers the per-acre rate, and
      the estimate for two plots together is the sum of their estimates. */
  lemma LookupScalesWithArea(crop: string, a1: real, a2: real)
    requires a1 > 0.0
    ensures Lookup(crop, a1).fertilizer == Lookup(crop, a2).fertilizer
    ensures Lookup(crop, a1).pesticide == Lookup(crop, a2).pesticide
    ensures Lookup(crop, a1).source == Lookup(crop, a2).source
    ensures Lookup(crop, a1).estYield / a1 == RateOf(crop)
    ensures Lookup(crop, a1 + a2).estYield == Lookup(crop, a1).estYield + Lookup(crop, a2).estYield
  {
  }

  /** A crop outside the catalog, on two acres: general advice, 36 quintals. */
  lemma BarleyOnTwoAcres()
    ensures Lookup("Barley", 2.0) == AgronomyDetail(GeneralFertilizer, GeneralPesticide, 36.0, GeneralAdvice)
  {
  }

  /** A catalog crop on five acres: its own advice, 25 quintals per acre. */
  lemma MaizeOnFiveAcres()
    ensures Lookup("Maize", 5.0) == AgronomyDetail("DAP, Urea, Potash", "Chlorpyrifos, Cypermethrin", 125.0, FromCatalog)
  {
  }
}
