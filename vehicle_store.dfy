/** The vehicle store of src/store/vehicleStore.ts: the catalogue, its
    loading flags and error, and the brand, model and fuel type the visitor
    has selected. Each action is a step function on `StoreState`; the
    `Store` class holds the same fields and performs the steps in
    place. */
module VehicleStore {
  import opened Wrappers
  import opened Seqs
  import opened VehicleCatalog

  /** A response envelope: `success`, an optional `message`, optional `data`. */
  datatype Envelope<T> = Envelope(success: bool, message: Option<string>, data: Option<seq<T>>)

  /** How the two requests of `fetchVehicleCatalog` end: both answered, or
      one threw (`message` is `None` when the thrown value is not an
      `Error`). */
  datatype FetchOutcome =
    | Received(brandResponse: Envelope<RawBrand>, modelResponse: Envelope<RawModel>)
    | Thrown(message: Option<string>)

  datatype StoreState = StoreState(
    brands: seq<VehicleBrand>,
    modelsByBrand: ModelsByBrand,
    isLoadingCatalog: bool,
    hasLoadedCatalog: bool,
    catalogError: Option<string>,
    selectedBrand: Option<VehicleBrand>,
    selectedModel: Option<VehicleModel>,
    selectedFuelType: Option<string>)

  const InitialState: StoreState := StoreState([], [], false, false, None, None, None, None)

  const BrandsFailed: string := "Unable to fetch car brands."
  const ModelsFailed: string := "Unable to fetch car models."
  const LoadFailed: string := "Unable to load vehicle catalogue."

  /** The `try` block: the brands and grouped models, or the message the
      `catch` block stores. */
  function CatalogResult(outcome: FetchOutcome, resolve: Resolver): Result<(seq<VehicleBrand>, ModelsByBrand), string> {
    match outcome
    case Thrown(message) => Failure(message.GetOr(LoadFailed))
    case Received(b, m) =>
      if !b.success then Failure(b.message.GetOr(BrandsFailed))
      else if !m.success then Failure(m.message.GetOr(ModelsFailed))
      else
        var brands := NormalizeBrands(b.data, resolve);
        Success((brands, Grouped(NormalizeModelsAsWritten(m.data, BrandLookup(brands), resolve))))
  }

  /** The `try` block with `normalizeModels` corrected to carry each
      model's service links over: the same checks and brands, and the
      models grouped from `NormalizeModels`. */
  function CatalogResultCorrected(outcome: FetchOutcome, resolve: Resolver): Result<(seq<VehicleBrand>, ModelsByBrand), string> {
    match CatalogResult(outcome, resolve)
    case Failure(e) => Failure(e)
    case Success(c) =>
      Success((c.0, Grouped(NormalizeModels(outcome.modelResponse.data, BrandLookup(c.0), resolve))))
  }

  /** `fetchVehicleCatalog`, taken as one step: the guard, the start, the
      outcome, and the `finally` block. */
  function Fetched(s: StoreState, outcome: FetchOutcome, resolve: Resolver): StoreState {
    if s.isLoadingCatalog || s.hasLoadedCatalog then s
    else
      var started := s.(isLoadingCatalog := true, catalogError := None);
      var settled := match CatalogResult(outcome, resolve)
        case Success(c) => started.(brands := c.0, modelsByBrand := c.1, hasLoadedCatalog := true)
        case Failure(e) => started.(catalogError := Some(e));
      settled.(isLoadingCatalog := false)
  }

  /** `brands.find(item => item.slug === slug)` */
  function FindBrand(brands: seq<VehicleBrand>, slug: string): (r: Option<VehicleBrand>)
    ensures r.Some? ==> r.value in brands && r.value.slug == slug
    ensures r.None? ==> forall b :: b in brands ==> b.slug != slug
    ensures r.Some? ==> exists i :: (0 <= i < |brands| && brands[i] == r.value
                                     && forall j :: 0 <= j < i ==> brands[j].slug != slug)
  {
    if brands == [] then None
    else if brands[0].slug == slug then Some(brands[0])
    else
      var r := FindBrand(brands[1..], slug);
      assert forall b :: b in brands ==> b == brands[0] || b in brands[1..];
      if r.Some? then
        var i :| 0 <= i < |brands[1..]| && brands[1..][i] == r.value
                 && forall j :: 0 <= j < i ==> brands[1..][j].slug != slug;
        assert brands[i + 1] == r.value;
        assert forall j :: 1 <= j < i + 1 ==> brands[j] == brands[1..][j - 1];
        r
      else r
  }

  /** `models.find(item => item.slug === slug)` */
  function FindModel(models: seq<VehicleModel>, slug: string): (r: Option<VehicleModel>)
    ensures r.Some? ==> r.value in models && r.value.slug == slug
    ensures r.None? ==> forall m :: m in models ==> m.slug != slug
    ensures r.Some? ==> exists i :: (0 <= i < |models| && models[i] == r.value
                                     && forall j :: 0 <= j < i ==> models[j].slug != slug)
  {
    if models == [] then None
    else if models[0].slug == slug then Some(models[0])
    else
      var r := FindModel(models[1..], slug);
      assert forall m :: m in models ==> m == models[0] || m in models[1..];
      if r.Some? then
        var i :| 0 <= i < |models[1..]| && models[1..][i] == r.value
                 && forall j :: 0 <= j < i ==> models[1..][j].slug != slug;
        assert models[i + 1] == r.value;
        assert forall j :: 1 <= j < i + 1 ==> models[j] == models[1..][j - 1];
        r
      else r
  }

  /** `selectBrand` */
  function BrandSelected(s: StoreState, brand: VehicleBrand): StoreState {
    s.(selectedBrand := Some(FindBrand(s.brands, brand.slug).GetOr(brand)),
       selectedModel := None, selectedFuelType := None)
  }

  /** `selectModel`: ignored without a selected brand with a non-empty slug,
      or for a model of another brand. */
  function ModelSelected(s: StoreState, model: VehicleModel): StoreState {
    if s.selectedBrand.None? || s.selectedBrand.value.slug == [] || model.brandSlug != s.selectedBrand.value.slug then s
    else
      var slug := s.selectedBrand.value.slug;
      s.(selectedModel := Some(FindModel(Bucket(s.modelsByBrand, slug), model.slug).GetOr(model)),
         selectedFuelType := None)
  }

  /** `setFuelType`: ignored without a selected model. */
  function FuelTypeSet(s: StoreState, fuelType: string): StoreState {
    if s.selectedModel.None? then s else s.(selectedFuelType := Some(fuelType))
  }

  /** `resetSelection` */
  function SelectionReset(s: StoreState): StoreState {
    s.(selectedBrand := None, selectedModel := None, selectedFuelType := None)
  }

  /** The catalogue fields, which the selection actions never touch. */
  predicate SameCatalog(s: StoreState, t: StoreState) {
    && s.brands == t.brands && s.modelsByBrand == t.modelsByBrand
    && s.isLoadingCatalog == t.isLoadingCatalog && s.hasLoadedCatalog == t.hasLoadedCatalog
    && s.catalogError == t.catalogError
  }

  predicate SameSelection(s: StoreState, t: StoreState) {
    s.selectedBrand == t.selectedBrand && s.selectedModel == t.selectedModel && s.selectedFuelType == t.selectedFuelType
  }

  // ---------------------------------------------------------------------
  // fetchVehicleCatalog

  /** A load in progress or a loaded catalogue makes the fetch a no-op. */
  lemma FetchGuard(s: StoreState, outcome: FetchOutcome, resolve: Resolver)
    requires s.isLoadingCatalog || s.hasLoadedCatalog
    ensures Fetched(s, outcome, resolve) == s
  {
  }

  /** A fetch that gets past the guard always ends with the loading flag
      cleared, and never touches the selection. */
  lemma FetchSettles(s: StoreState, outcome: FetchOutcome, resolve: Resolver)
    requires !s.isLoadingCatalog
    ensures !Fetched(s, outcome, resolve).isLoadingCatalog
    ensures SameSelection(Fetched(s, outcome, resolve), s)
  {
  }

  /** Both envelopes successful: the catalogue is the normalised brands and
      the grouped normalised models, marked loaded, with no error. */
  lemma FetchSuccess(s: StoreState, b: Envelope<RawBrand>, m: Envelope<RawModel>, resolve: Resolver)
    requires !s.isLoadingCatalog && !s.hasLoadedCatalog && b.success && m.success
    ensures var t := Fetched(s, Received(b, m), resolve);
      && t.brands == NormalizeBrands(b.data, resolve)
      && t.modelsByBrand == Grouped(NormalizeModelsAsWritten(m.data, BrandLookup(t.brands), resolve))
      && t.hasLoadedCatalog && !t.isLoadingCatalog && t.catalogError.None?
  {
  }

  /** Any failure stores its message and leaves the catalogue and the loaded
      flag as they were: the brand envelope is checked first, then the
      model envelope, and a thrown non-`Error` gets the generic message. */
  lemma FetchFailure(s: StoreState, outcome: FetchOutcome, resolve: Resolver)
    requires !s.isLoadingCatalog && !s.hasLoadedCatalog
    requires CatalogResult(outcome, resolve).Failure?
    ensures var t := Fetched(s, outcome, resolve);
      && t.brands == s.brands && t.modelsByBrand == s.modelsByBrand
      && !t.hasLoadedCatalog && !t.isLoadingCatalog && t.catalogError.Some?
    ensures outcome == Thrown(None) ==> Fetched(s, outcome, resolve).catalogError == Some(LoadFailed)
    ensures outcome.Received? && !outcome.brandResponse.success ==>
      Fetched(s, outcome, resolve).catalogError == Some(outcome.brandResponse.message.GetOr(BrandsFailed))
    ensures outcome.Received? && outcome.brandResponse.success && !outcome.modelResponse.success ==>
      Fetched(s, outcome, resolve).catalogError == Some(outcome.modelResponse.message.GetOr(ModelsFailed))
  {
  }

  /** Every model of a bucket has that bucket's slug, which is the slug of a
      catalogue brand. */
  ghost predicate CatalogConsistent(s: StoreState) {
    forall slug, v :: v in Bucket(s.modelsByBrand, slug) ==>
      v.brandSlug == slug && exists b :: b in s.brands && b.slug == slug
  }

  lemma InitialConsistent()
    ensures CatalogConsistent(InitialState)
  {
  }

  /** A fetched catalogue is consistent: grouping files each model under its
      own slug, and that slug was taken from a looked-up brand. */
  lemma FetchKeepsCatalogConsistent(s: StoreState, outcome: FetchOutcome, resolve: Resolver)
    requires CatalogConsistent(s)
    ensures CatalogConsistent(Fetched(s, outcome, resolve))
  {
    var t := Fetched(s, outcome, resolve);
    if !s.isLoadingCatalog && !s.hasLoadedCatalog && CatalogResult(outcome, resolve).Success? {
      var b, m := outcome.brandResponse, outcome.modelResponse;
      var brands := NormalizeBrands(b.data, resolve);
      var lookup := BrandLookup(brands);
      var models := NormalizeModelsAsWritten(m.data, lookup, resolve);
      forall slug, v | v in Bucket(t.modelsByBrand, slug)
        ensures v.brandSlug == slug && exists x :: x in t.brands && x.slug == slug
      {
        GroupedSpec(models, slug);
        WithSlugMembers(models, slug, v);
        NormalizeModelsAsWrittenMembers(m.data.GetOr([]), lookup, resolve, v);
        var raw :| raw in m.data.GetOr([]) && raw.status && ModelBrandKey(raw) in lookup
          && v.brandSlug == lookup[ModelBrandKey(raw)].slug;
        BrandLookupSpec(brands, ModelBrandKey(raw));
        var i :| 0 <= i < |brands| && lookup[ModelBrandKey(raw)] == brands[i];
        assert brands[i] in t.brands;
      }
    }
  }

  /** The models a fetch stores carry no `services` property: every bucket
      holds models that `normalizeModels` built as written. */
  lemma FetchedModelsLackServices(
    s: StoreState, b: Envelope<RawBrand>, m: Envelope<RawModel>, resolve: Resolver, slug: string, v: VehicleModel)
    requires !s.isLoadingCatalog && !s.hasLoadedCatalog && b.success && m.success
    requires v in Bucket(Fetched(s, Received(b, m), resolve).modelsByBrand, slug)
    ensures v.services.None?
  {
    var lookup := BrandLookup(NormalizeBrands(b.data, resolve));
    var models := NormalizeModelsAsWritten(m.data, lookup, resolve);
    GroupedSpec(models, slug);
    WithSlugMembers(models, slug, v);
    AsWrittenHasNoServices(m.data.GetOr([]), lookup, resolve, v);
  }

  /** The corrected block fails exactly when the code does, with the same
      message, and keeps the same brands; every model it stores carries
      the service links of an active raw model with its slug. */
  lemma CorrectedCatalogSpec(outcome: FetchOutcome, resolve: Resolver, slug: string, v: VehicleModel)
    ensures CatalogResult(outcome, resolve).Failure? ==> CatalogResultCorrected(outcome, resolve) == CatalogResult(outcome, resolve)
    ensures CatalogResult(outcome, resolve).Success? ==>
      CatalogResultCorrected(outcome, resolve).Success?
      && CatalogResultCorrected(outcome, resolve).value.0 == CatalogResult(outcome, resolve).value.0
    ensures CatalogResultCorrected(outcome, resolve).Success? && v in Bucket(CatalogResultCorrected(outcome, resolve).value.1, slug) ==>
      outcome.Received? && exists raw :: (raw in outcome.modelResponse.data.GetOr([]) && raw.status
                                          && raw.slug == v.slug && v.services == Some(raw.services.GetOr([])))
  {
    var c := CatalogResultCorrected(outcome, resolve);
    if c.Success? && v in Bucket(c.value.1, slug) {
      var m := outcome.modelResponse;
      var lookup := BrandLookup(c.value.0);
      var models := NormalizeModels(m.data, lookup, resolve);
      GroupedSpec(models, slug);
      WithSlugMembers(models, slug, v);
      NormalizeModelsMembers(m.data.GetOr([]), lookup, resolve, v);
      var raw :| raw in m.data.GetOr([]) && raw.status && ToVehicleModel(raw, lookup, resolve, true) == Some(v);
      assert raw.slug == v.slug;
    }
  }

  // ---------------------------------------------------------------------
  // Selection

  /** `selectBrand` takes the catalogue's brand with the same slug (the
      first one) or else the argument, and clears the model and fuel type. */
  lemma SelectBrandSpec(s: StoreState, brand: VehicleBrand)
    ensures var t := BrandSelected(s, brand);
      && t.selectedBrand.Some? && t.selectedBrand.value.slug == brand.slug
      && ((exists i :: 0 <= i < |s.brands| && s.brands[i] == t.selectedBrand.value
                       && forall j :: 0 <= j < i ==> s.brands[j].slug != brand.slug)
          || (t.selectedBrand == Some(brand) && forall b :: b in s.brands ==> b.slug != brand.slug))
      && t.selectedModel.None? && t.selectedFuelType.None?
      && SameCatalog(t, s)
  {
  }

  /** `selectModel` changes nothing unless a brand with a non-empty slug is
      selected and the model carries that slug. */
  lemma SelectModelIgnored(s: StoreState, model: VehicleModel)
    requires s.selectedBrand.None? || s.selectedBrand.value.slug == [] || model.brandSlug != s.selectedBrand.value.slug
    ensures ModelSelected(s, model) == s
  {
  }

  /** Otherwise it selects the bucket's first model with the same slug, or
      the argument when none has it, keeps the brand and clears the fuel
      type. */
  lemma SelectModelSpec(s: StoreState, model: VehicleModel)
    requires s.selectedBrand.Some? && s.selectedBrand.value.slug != [] && model.brandSlug == s.selectedBrand.value.slug
    ensures var t := ModelSelected(s, model);
      var bucket := Bucket(s.modelsByBrand, model.brandSlug);
      && t.selectedBrand == s.selectedBrand && t.selectedFuelType.None? && SameCatalog(t, s)
      && t.selectedModel.Some? && t.selectedModel.value.slug == model.slug
      && (FirstWithSlug(bucket, t.selectedModel.value)
          || (t.selectedModel == Some(model) && forall v :: v in bucket ==> v.slug != model.slug))
  {
    var bucket := Bucket(s.modelsByBrand, model.brandSlug);
    var found := FindModel(bucket, model.slug);
    if found.Some? {
      var i :| 0 <= i < |bucket| && bucket[i] == found.value
               && forall j :: 0 <= j < i ==> bucket[j].slug != model.slug;
      assert ModelSelected(s, model).selectedModel == found;
    }
  }

  /** `m` stands in `models` before every other model with its slug. */
  predicate FirstWithSlug(models: seq<VehicleModel>, m: VehicleModel) {
    exists i :: 0 <= i < |models| && models[i] == m && forall j :: 0 <= j < i ==> models[j].slug != m.slug
  }

  /** `setFuelType` records the fuel type exactly when a model is selected,
      whether or not the model offers it. */
  lemma SetFuelTypeSpec(s: StoreState, fuelType: string)
    ensures s.selectedModel.None? ==> FuelTypeSet(s, fuelType) == s
    ensures s.selectedModel.Some? ==>
      FuelTypeSet(s, fuelType).selectedFuelType == Some(fuelType)
      && FuelTypeSet(s, fuelType).selectedModel == s.selectedModel
      && FuelTypeSet(s, fuelType).selectedBrand == s.selectedBrand
      && SameCatalog(FuelTypeSet(s, fuelType), s)
  {
  }

  /** `resetSelection` clears the three selection fields and nothing else. */
  lemma ResetSelectionSpec(s: StoreState)
    ensures var t := SelectionReset(s);
      t.selectedBrand.None? && t.selectedModel.None? && t.selectedFuelType.None? && SameCatalog(t, s)
  {
  }

  /** The cascade the actions keep: a model only with a brand, and then of
      that brand; a fuel type only with a model. */
  predicate SelectionConsistent(s: StoreState) {
    && (s.selectedModel.Some? ==> s.selectedBrand.Some? && s.selectedModel.value.brandSlug == s.selectedBrand.value.slug)
    && (s.selectedFuelType.Some? ==> s.selectedModel.Some?)
  }

  /** Every action keeps the selection consistent, given a consistent
      catalogue (the model found in a bucket has the bucket's slug). */
  lemma ActionsKeepSelectionConsistent(s: StoreState, brand: VehicleBrand, model: VehicleModel, fuelType: string,
                                       outcome: FetchOutcome, resolve: Resolver)
    requires SelectionConsistent(s) && CatalogConsistent(s)
    ensures SelectionConsistent(BrandSelected(s, brand))
    ensures SelectionConsistent(ModelSelected(s, model))
    ensures SelectionConsistent(FuelTypeSet(s, fuelType))
    ensures SelectionConsistent(SelectionReset(s))
    ensures SelectionConsistent(Fetched(s, outcome, resolve))
  {
    if !s.isLoadingCatalog {
      FetchSettles(s, outcome, resolve);
    }
    if !(s.selectedBrand.None? || s.selectedBrand.value.slug == [] || model.brandSlug != s.selectedBrand.value.slug) {
      var slug := s.selectedBrand.value.slug;
      var found := FindModel(Bucket(s.modelsByBrand, slug), model.slug);
      if found.Some? {
        assert found.value in Bucket(s.modelsByBrand, slug);
      }
    }
  }

  // ---------------------------------------------------------------------
  // The store object

  /** The body of the `try` block: check the envelopes in order, normalise
      the brands, index them, normalise the models and group them. */
  method LoadCatalog(outcome: FetchOutcome, resolve: Resolver) returns (r: Result<(seq<VehicleBrand>, ModelsByBrand), string>)
    ensures r == CatalogResult(outcome, resolve)
  {
    match outcome {
      case Thrown(message) =>
        return Failure(message.GetOr(LoadFailed));
      case Received(b, m) =>
        if !b.success {
          return Failure(b.message.GetOr(BrandsFailed));
        }
        if !m.success {
          return Failure(m.message.GetOr(ModelsFailed));
        }
        var normalizedBrands := NormalizeBrands(b.data, resolve);
        var brandLookup := CreateBrandLookup(normalizedBrands);
        var normalizedModels := NormalizeModelsAsWritten(m.data, brandLookup, resolve);
        var grouped := GroupModelsByBrand(normalizedModels);
        return Success((normalizedBrands, grouped));
    }
  }

  class Store {
    var brands: seq<VehicleBrand>
    var modelsByBrand: ModelsByBrand
    var isLoadingCatalog: bool
    var hasLoadedCatalog: bool
    var catalogError: Option<string>
    var selectedBrand: Option<VehicleBrand>
    var selectedModel: Option<VehicleModel>
    var selectedFuelType: Option<string>

    function State(): StoreState
      reads this
    {
      StoreState(brands, modelsByBrand, isLoadingCatalog, hasLoadedCatalog, catalogError,
                 selectedBrand, selectedModel, selectedFuelType)
    }

    constructor ()
      ensures State() == InitialState
    {
      brands := [];
      modelsByBrand := [];
      isLoadingCatalog := false;
      hasLoadedCatalog := false;
      catalogError := None;
      selectedBrand := None;
      selectedModel := None;
      selectedFuelType := None;
    }

    method FetchVehicleCatalog(outcome: FetchOutcome, resolve: Resolver)
      modifies this
      ensures State() == Fetched(old(State()), outcome, resolve)
    {
      if isLoadingCatalog || hasLoadedCatalog {
        return;
      }
      isLoadingCatalog := true;
      catalogError := None;
      var result := LoadCatalog(outcome, resolve);
      match result {
        case Success(c) =>
          brands := c.0;
          modelsByBrand := c.1;
          hasLoadedCatalog := true;
        case Failure(e) =>
          catalogError := Some(e);
      }
      isLoadingCatalog := false;
    }

    method SelectBrand(brand: VehicleBrand)
      modifies this
      ensures State() == BrandSelected(old(State()), brand)
    {
      var updatedBrand := FindBrand(brands, brand.slug);
      selectedBrand := Some(updatedBrand.GetOr(brand));
      selectedModel := None;
      selectedFuelType := None;
    }

    method SelectModel(model: VehicleModel)
      modifies this
      ensures State() == ModelSelected(old(State()), model)
    {
      if selectedBrand.None? || selectedBrand.value.slug == [] || model.brandSlug != selectedBrand.value.slug {
        return;
      }
      var brandSlug := selectedBrand.value.slug;
      var models := Bucket(modelsByBrand, brandSlug);
      var matchedModel := FindModel(models, model.slug);
      selectedModel := Some(matchedModel.GetOr(model));
      selectedFuelType := None;
    }

    method SetFuelType(fuelType: string)
      modifies this
      ensures State() == FuelTypeSet(old(State()), fuelType)
    {
      if selectedModel.None? {
        return;
      }
      selectedFuelType := Some(fuelType);
    }

    method ResetSelection()
      modifies this
      ensures State() == SelectionReset(old(State()))
    {
      selectedBrand := None;
      selectedModel := None;
      selectedFuelType := None;
    }
  }
}
