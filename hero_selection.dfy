/** The vehicle selector sheet of the hero form
    (src/hooks/heroFormHooks/useHeroSelectionSheet.ts): the wizard step
    (none, brand, model or fuel), the values derived from the store's
    selection, and the handlers that move between steps and drive the
    store's selection actions. */
module HeroSelection {
  import opened Wrappers
  import opened VehicleCatalog
  import opened VehicleStore

  datatype Step = BrandStep | ModelStep | FuelStep

  /** `getSheetTitle` */
  function SheetTitle(step: Option<Step>, brand: Option<VehicleBrand>): string {
    match step
    case None => ""
    case Some(BrandStep) => "Popular Brands"
    case Some(ModelStep) => "Choose a " + (if brand.Some? then brand.value.name else "") + " model"
    case Some(FuelStep) => "Select fuel type"
  }

  /** `getSheetSubtitle` */
  function SheetSubtitle(step: Option<Step>): string {
    match step
    case None => ""
    case Some(BrandStep) => "Tap a brand to continue"
    case Some(ModelStep) => "Pick the exact model you drive"
    case Some(FuelStep) => "What fuel does your car use?"
  }

  /** A fuel type counts as selected when it is a non-empty string. */
  predicate HasFuel(s: StoreState) {
    s.selectedFuelType.Some? && s.selectedFuelType.value != ""
  }

  /** `hasCompletedSelection` */
  predicate HasCompletedSelection(s: StoreState) {
    s.selectedBrand.Some? && s.selectedModel.Some? && HasFuel(s)
  }

  /** `selectionSummary` */
  function SelectionSummary(s: StoreState): string {
    if s.selectedBrand.Some? && s.selectedModel.Some? && HasFuel(s) then
      s.selectedFuelType.value + " " + s.selectedBrand.value.name + " " + s.selectedModel.value.name
    else if s.selectedBrand.Some? && s.selectedModel.Some? then
      s.selectedBrand.value.name + " " + s.selectedModel.value.name
    else if s.selectedBrand.Some? then s.selectedBrand.value.name
    else ""
  }

  /** `availableModels`: the selected brand's bucket. */
  function AvailableModels(s: StoreState): seq<VehicleModel> {
    if s.selectedBrand.None? then [] else Bucket(s.modelsByBrand, s.selectedBrand.value.slug)
  }

  /** `availableFuelTypes` */
  function AvailableFuelTypes(s: StoreState): seq<string> {
    if s.selectedModel.None? then [] else s.selectedModel.value.fuelTypes
  }

  /** The step `openSelector` opens: the first part of the selection that
      is missing, else the fuel step. */
  function NextStep(s: StoreState): Step {
    if s.selectedBrand.None? then BrandStep
    else if s.selectedModel.None? then ModelStep
    else FuelStep
  }

  /** `STEP_SEQUENCE[STEP_SEQUENCE.indexOf(step) - 1]`, for the steps after
      the first. */
  function PreviousStep(step: Step): Step
    requires step != BrandStep
  {
    if step == ModelStep then BrandStep else ModelStep
  }

  /** What the sheet's handlers touch: the store, the active step and the
      form's message, which they clear. */
  datatype Sheet = Sheet(store: StoreState, step: Option<Step>, message: string)

  /** A handler's new sheet, and whether it started a catalogue fetch. */
  datatype SheetStep = SheetStep(sheet: Sheet, fetchRequested: bool)

  /** `goToStep`: clear the message, set the step, and fetch the catalogue
      when arriving at the brand step with nothing loaded or loading. */
  function GoToStep(s: Sheet, step: Option<Step>): SheetStep {
    SheetStep(s.(message := "", step := step),
              step == Some(BrandStep) && !s.store.hasLoadedCatalog && !s.store.isLoadingCatalog)
  }

  /** `openSelector` */
  function OpenSelector(s: Sheet): SheetStep {
    GoToStep(s, Some(NextStep(s.store)))
  }

  /** `handleBack`: the brand step closes the sheet; a later step goes to
      the previous one through `goToStep`. */
  function Back(s: Sheet): SheetStep {
    match s.step
    case None => SheetStep(s, false)
    case Some(BrandStep) => SheetStep(s.(step := None), false)
    case Some(step) => GoToStep(s, Some(PreviousStep(step)))
  }

  /** `handleCloseSheet` */
  function CloseSheet(s: Sheet): Sheet {
    s.(step := None)
  }

  /** `handleBrandSelect` */
  function BrandSelect(s: Sheet, brand: VehicleBrand): Sheet {
    Sheet(BrandSelected(s.store, brand), Some(ModelStep), "")
  }

  /** `handleModelSelect` */
  function ModelSelect(s: Sheet, model: VehicleModel): Sheet {
    if s.store.selectedBrand.None? then s
    else Sheet(ModelSelected(s.store, model), Some(FuelStep), "")
  }

  /** `handleFuelSelect` */
  function FuelSelect(s: Sheet, fuelType: string): Sheet {
    if s.store.selectedModel.None? then s
    else Sheet(FuelTypeSet(s.store, fuelType), None, "")
  }

  // ---------------------------------------------------------------------
  // Properties

  /** `openSelector` opens the first missing step, clears the message and
      fetches only for the brand step of a catalogue neither loaded nor
      loading; the selection is untouched. */
  lemma OpenSelectorSpec(s: Sheet)
    ensures var r := OpenSelector(s);
      && (s.store.selectedBrand.None? ==> r.sheet.step == Some(BrandStep))
      && (s.store.selectedBrand.Some? && s.store.selectedModel.None? ==> r.sheet.step == Some(ModelStep))
      && (s.store.selectedBrand.Some? && s.store.selectedModel.Some? ==> r.sheet.step == Some(FuelStep))
      && r.sheet.message == "" && r.sheet.store == s.store
      && (r.fetchRequested <==> s.store.selectedBrand.None? && !s.store.hasLoadedCatalog && !s.store.isLoadingCatalog)
  {
  }

  /** `handleBack` walks the steps backwards and closes the sheet from the
      brand step; only stepping back onto the brand step can fetch. */
  lemma BackSpec(s: Sheet)
    ensures s.step.None? ==> Back(s) == SheetStep(s, false)
    ensures s.step == Some(BrandStep) ==> Back(s) == SheetStep(s.(step := None), false)
    ensures s.step == Some(ModelStep) ==>
      && Back(s).sheet == s.(step := Some(BrandStep), message := "")
      && (Back(s).fetchRequested <==> !s.store.hasLoadedCatalog && !s.store.isLoadingCatalog)
    ensures s.step == Some(FuelStep) ==> Back(s) == SheetStep(s.(step := Some(ModelStep), message := ""), false)
  {
  }

  /** Each pick moves the wizard on: a brand to the model step, a model
      (when a brand is selected) to the fuel step, and a fuel type (when a
      model is selected) closes the sheet. */
  lemma SelectAdvances(s: Sheet, brand: VehicleBrand, model: VehicleModel, fuelType: string)
    ensures BrandSelect(s, brand).step == Some(ModelStep)
    ensures s.store.selectedBrand.None? ==> ModelSelect(s, model) == s
    ensures s.store.selectedBrand.Some? ==> ModelSelect(s, model).step == Some(FuelStep)
    ensures s.store.selectedModel.None? ==> FuelSelect(s, fuelType) == s
    ensures s.store.selectedModel.Some? ==>
      FuelSelect(s, fuelType).step.None? && FuelSelect(s, fuelType).store.selectedFuelType == Some(fuelType)
  {
  }

  /** The four summaries, by how much of the selection is present. */
  lemma SelectionSummarySpec(s: StoreState)
    ensures HasCompletedSelection(s) ==>
      SelectionSummary(s) == s.selectedFuelType.value + " " + s.selectedBrand.value.name + " " + s.selectedModel.value.name
    ensures s.selectedBrand.Some? && s.selectedModel.Some? && !HasFuel(s) ==>
      SelectionSummary(s) == s.selectedBrand.value.name + " " + s.selectedModel.value.name
    ensures s.selectedBrand.Some? && s.selectedModel.None? ==> SelectionSummary(s) == s.selectedBrand.value.name
    ensures s.selectedBrand.None? ==> SelectionSummary(s) == ""
  {
  }

  /** No brand, no models; with a consistent catalogue every available
      model belongs to the selected brand. */
  lemma AvailableModelsSpec(s: StoreState)
    ensures s.selectedBrand.None? ==> AvailableModels(s) == []
    ensures CatalogConsistent(s) && s.selectedBrand.Some? ==>
      forall v :: v in AvailableModels(s) ==> v.brandSlug == s.selectedBrand.value.slug
  {
  }

  /** Brand, then a model of it, then a non-empty fuel type completes the
      selection and closes the sheet, whatever was selected before. */
  lemma {:induction false} WizardCompletes(s: Sheet, brand: VehicleBrand, model: VehicleModel, fuelType: string)
    requires brand.slug != "" && model.brandSlug == brand.slug && fuelType != ""
    ensures var done := FuelSelect(ModelSelect(BrandSelect(s, brand), model), fuelType);
      HasCompletedSelection(done.store) && done.step.None? && done.message == ""
      && done.store.selectedBrand.value.slug == brand.slug && done.store.selectedModel.value.slug == model.slug
  {
    var a := BrandSelect(s, brand);
    SelectBrandSpec(s.store, brand);
    var b := ModelSelect(a, model);
    SelectModelSpec(a.store, model);
    var c := FuelSelect(b, fuelType);
    SetFuelTypeSpec(b.store, fuelType);
  }
}
