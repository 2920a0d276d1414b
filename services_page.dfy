/** What src/hooks/useServicesPageState.ts derives for the services page:
    the vehicle the page is about (from the URL slug, else from the route
    state), the services scoped to it, the category filters, the services
    shown for the active category, and the loading, not-found and empty
    flags. */
module ServicesPage {
  import opened Wrappers
  import opened Text
  import opened Seqs
  import opened CategoryKey
  import opened ServiceCatalog
  import VehicleCatalog
  import opened VehicleSlug

  /** The route state the hero form navigates with; only the fields the
      page reads. */
  datatype RouteState = RouteState(
    selectedBrandSlug: Option<string>, selectedModelSlug: Option<string>, selectedFuelType: Option<string>)

  /** The hook's parameters, apart from the fetch callback. */
  datatype PageInputs = PageInputs(
    catalog: Option<Catalog>, isCatalogLoading: bool, vehicleSlug: Option<string>,
    routeState: Option<RouteState>, modelsByBrand: VehicleCatalog.ModelsByBrand,
    hasLoadedVehicleCatalog: bool, isLoadingVehicleCatalog: bool)

  datatype CategoryFilter = CategoryFilter(key: string, labelText: string)

  datatype EmptyState = EmptyState(heading: string, description: string)

  /** The part of the hook's result this model derives. */
  datatype PageView = PageView(
    vehicleSelection: Option<SlugMatch>, categoryFilters: seq<CategoryFilter>,
    activeCategoryKey: Option<string>, showCategoryFilters: bool, showLoadingState: bool,
    vehicleNotFound: bool, displayServices: seq<CatalogService>, emptyState: Option<EmptyState>)

  /** What reading `.map` of a missing `services` property throws. */
  const MissingServicesError: string := "TypeError: cannot read properties of undefined (reading 'map')"

  const VehicleEmptyHeading: string := "No services listed for this vehicle yet"
  const VehicleEmptyDescription: string := "We are syncing the service catalogue for this vehicle. Please check back soon or reach out to our advisors for assistance."
  const CategoryEmptyHeading: string := "No services in this category yet"
  const CategoryEmptyDescription: string := "We are adding services under this category for your city. Please explore another category or check back soon."
  const CatalogEmptyHeading: string := "Service catalogue coming online soon"
  const CatalogEmptyDescription: string := "Our team is syncing the live service catalogue for your city. Please check back shortly or reach out to our advisors for assistance."

  /** A JavaScript string that is truthy: present and non-empty. */
  predicate Given(s: Option<string>) { s.Some? && s.value != "" }

  /** The catalogue fetch the page's effect starts. */
  predicate ShouldFetchVehicles(p: PageInputs) {
    !p.hasLoadedVehicleCatalog && !p.isLoadingVehicleCatalog
  }

  // ---------------------------------------------------------------------
  // The vehicle selection

  predicate ModelIs(m: VehicleCatalog.VehicleModel, brandSlug: string, modelSlug: string) {
    m.brandSlug == brandSlug && m.slug == modelSlug
  }

  /** `allModels.find(...)`, as the index of the first model with both
      slugs, searching from `from`. */
  function FindModel(models: seq<VehicleCatalog.VehicleModel>, brandSlug: string, modelSlug: string, from: nat): (r: Option<nat>)
    requires from <= |models|
    ensures r.Some? ==> from <= r.value < |models| && ModelIs(models[r.value], brandSlug, modelSlug)
    ensures r.Some? ==> forall i :: from <= i < r.value ==> !ModelIs(models[i], brandSlug, modelSlug)
    ensures r.None? ==> forall i :: from <= i < |models| ==> !ModelIs(models[i], brandSlug, modelSlug)
    decreases |models| - from
  {
    if from == |models| then None
    else if ModelIs(models[from], brandSlug, modelSlug) then Some(from)
    else FindModel(models, brandSlug, modelSlug, from + 1)
  }

  /** The fuel type the route state implies for model `m`: the route's
      own, else the model's first, else `''`. */
  function RouteFuel(route: RouteState, m: VehicleCatalog.VehicleModel): string {
    if route.selectedFuelType.Some? then route.selectedFuelType.value
    else if m.fuelTypes != [] then m.fuelTypes[0]
    else ""
  }

  /** `stateMatch` */
  function StateMatch(route: Option<RouteState>, models: seq<VehicleCatalog.VehicleModel>): Option<SlugMatch> {
    if route.None? || !Given(route.value.selectedBrandSlug) || !Given(route.value.selectedModelSlug) then None
    else
      match FindModel(models, route.value.selectedBrandSlug.value, route.value.selectedModelSlug.value, 0)
      case None => None
      case Some(i) =>
        var fuel := RouteFuel(route.value, models[i]);
        if fuel == "" then None else Some(SlugMatch(models[i], fuel))
  }

  /** `vehicleSelection = slugMatch ?? stateMatch ?? null` */
  function VehicleSelection(p: PageInputs): Option<SlugMatch> {
    var models := VehicleCatalog.AllModels(p.modelsByBrand);
    var slugMatch := MatchSlug(p.vehicleSlug, models);
    if slugMatch.Some? then slugMatch else StateMatch(p.routeState, models)
  }

  predicate IsVehicleRoute(p: PageInputs) { Given(p.vehicleSlug) }

  /** `isVehicleDataLoading` */
  predicate IsVehicleDataLoading(p: PageInputs) {
    IsVehicleRoute(p) && VehicleSelection(p).None? && (!p.hasLoadedVehicleCatalog || p.isLoadingVehicleCatalog)
  }

  /** `vehicleNotFound` */
  predicate VehicleNotFound(p: PageInputs) {
    IsVehicleRoute(p) && VehicleSelection(p).None? && !IsVehicleDataLoading(p)
  }

  /** `showLoadingState` */
  predicate ShowLoadingState(p: PageInputs) {
    p.isCatalogLoading || IsVehicleDataLoading(p)
  }

  // ---------------------------------------------------------------------
  // Services by id and the vehicle's services

  function ServiceIdOf(s: CatalogService): string { s.service.id }

  /** `servicesById`: a `Map` filled with `set(service.id, service)`. */
  method BuildServicesById(services: seq<CatalogService>) returns (byId: map<string, CatalogService>)
    ensures byId == LastWins(services, ServiceIdOf)
  {
    byId := map[];
    for i := 0 to |services|
      invariant byId == LastWins(services[..i], ServiceIdOf)
    {
      assert services[..i + 1][..i] == services[..i];
      byId := byId[services[i].service.id := services[i]];
    }
    assert services[..|services|] == services;
  }

  /** One link of the selected model: the catalogue service it names, with
      the link's own pricing (non-finite numbers as 0), or nothing for an
      id the catalogue does not know. */
  function ScopedEntry(byId: map<string, CatalogService>): Link -> Option<CatalogService> {
    (link: Link) =>
      if link.servicesId in byId then Some(byId[link.servicesId].(pricing := Some(ToPricing(link)))) else None
  }

  /** `vehicleScopedServices`: `None` without a selection; reading the
      services of a model that carries none throws. */
  function VehicleScoped(selection: Option<SlugMatch>, byId: map<string, CatalogService>): Result<Option<seq<CatalogService>>, string> {
    if selection.None? then Success(None)
    else if selection.value.model.services.None? then Failure(MissingServicesError)
    else Success(Some(FilterMap(selection.value.model.services.value, ScopedEntry(byId))))
  }

  /** The scoped services are the known links' catalogue services with the
      link's pricing; when every link is known there is one per link, in
      link order. */
  lemma ScopedSpec(links: seq<Link>, byId: map<string, CatalogService>)
    ensures forall x :: x in FilterMap(links, ScopedEntry(byId)) <==>
      exists i :: (0 <= i < |links| && links[i].servicesId in byId
                   && x == byId[links[i].servicesId].(pricing := Some(ToPricing(links[i]))))
    ensures (forall i :: 0 <= i < |links| ==> links[i].servicesId in byId) ==>
      var r := FilterMap(links, ScopedEntry(byId));
      |r| == |links| && forall i :: 0 <= i < |links| ==>
        r[i] == byId[links[i].servicesId].(pricing := Some(ToPricing(links[i])))
  {
    var f := ScopedEntry(byId);
    forall x ensures x in FilterMap(links, f) <==>
      exists i :: (0 <= i < |links| && links[i].servicesId in byId
                   && x == byId[links[i].servicesId].(pricing := Some(ToPricing(links[i]))))
    {
      FilterMapMembers(links, f, x);
    }
    if forall i :: 0 <= i < |links| ==> links[i].servicesId in byId {
      FilterMapAllSome(links, f);
    }
  }

  /** A model from `normalizeModels` as written has no `services`, so
      selecting any of them makes the page throw. */
  lemma AsWrittenStoreBreaksPage(
    models: seq<VehicleCatalog.RawModel>, lookup: map<string, VehicleCatalog.VehicleBrand>,
    resolve: VehicleCatalog.Resolver, v: VehicleCatalog.VehicleModel, fuelType: string, byId: map<string, CatalogService>)
    requires v in VehicleCatalog.NormalizeModelsAsWritten(Some(models), lookup, resolve)
    ensures VehicleScoped(Some(SlugMatch(v, fuelType)), byId) == Failure(MissingServicesError)
  {
    VehicleCatalog.AsWrittenHasNoServices(models, lookup, resolve, v);
  }

  /** With the store carrying each model's service links, selecting any
      catalogue model scopes the services to exactly its links. */
  lemma CorrectedStoreScopes(
    models: seq<VehicleCatalog.RawModel>, lookup: map<string, VehicleCatalog.VehicleBrand>,
    resolve: VehicleCatalog.Resolver, v: VehicleCatalog.VehicleModel, fuelType: string, byId: map<string, CatalogService>)
    requires v in VehicleCatalog.NormalizeModels(Some(models), lookup, resolve)
    ensures var r := VehicleScoped(Some(SlugMatch(v, fuelType)), byId);
      r.Success? && exists m :: (m in models && m.status
                                 && r.value == Some(FilterMap(m.services.GetOr([]), ScopedEntry(byId))))
  {
    VehicleCatalog.NormalizeModelsMembers(models, lookup, resolve, v);
  }

  // ---------------------------------------------------------------------
  // Category filters

  /** The trimmed name a filter would carry, `''` for a missing name. */
  function LabelOf(name: Option<string>): string { Trim(name.GetOr("")) }

  function KeyOf(name: Option<string>): string { NormalizeCategoryKey(LabelOf(name)) }

  /** A name yields a filter unless its label or its key is empty. */
  predicate Counts(name: Option<string>) { LabelOf(name) != "" && KeyOf(name) != "" }

  function FilterKeys(fs: seq<CategoryFilter>): (r: seq<string>)
    ensures |r| == |fs| && forall i :: 0 <= i < |fs| ==> r[i] == fs[i].key
  {
    seq(|fs|, i requires 0 <= i < |fs| => fs[i].key)
  }

  /** One step of a `forEach` filling `collected`: a new key is added with
      its label, a known key is left alone. */
  function Collect(fs: seq<CategoryFilter>, name: Option<string>): seq<CategoryFilter> {
    if !Counts(name) || KeyOf(name) in FilterKeys(fs) then fs
    else fs + [CategoryFilter(KeyOf(name), LabelOf(name))]
  }

  /** The entries of `collected` after every name, in insertion order. */
  function CollectAll(names: seq<Option<string>>): seq<CategoryFilter> {
    if names == [] then [] else Collect(CollectAll(names[..|names| - 1]), names[|names| - 1])
  }

  function CategoryName(c: ServiceCategory): Option<string> { c.name }

  function ServiceCategoryName(s: CatalogService): Option<string> { s.service.categoryName }

  /** `categoryFilters`: the catalogue's categories, or, when they yield
      none, the categories of the vehicle's services. */
  function CategoryFilters(categories: seq<ServiceCategory>, scoped: Option<seq<CatalogService>>): seq<CategoryFilter> {
    var collected := CollectAll(MapSeq(categories, CategoryName));
    if collected == [] && scoped.Some? then CollectAll(MapSeq(scoped.value, ServiceCategoryName))
    else collected
  }

  lemma CollectAllSnoc(names: seq<Option<string>>, i: nat)
    requires i < |names|
    ensures CollectAll(names[..i + 1]) == Collect(CollectAll(names[..i]), names[i])
  {
    assert names[..i + 1][..i] == names[..i];
  }

  /** One `forEach` over names, adding each new key. */
  method CollectNames(names: seq<Option<string>>) returns (collected: seq<CategoryFilter>)
    ensures collected == CollectAll(names)
  {
    collected := [];
    for i := 0 to |names|
      invariant collected == CollectAll(names[..i])
    {
      CollectAllSnoc(names, i);
      var text := Trim(names[i].GetOr(""));
      if text != "" {
        var key := NormalizeCategoryKey(text);
        if key != "" && key !in FilterKeys(collected) {
          collected := collected + [CategoryFilter(key, text)];
        }
      }
    }
    assert names[..|names|] == names;
  }

  /** `categoryFilters`, with its two loops. */
  method CollectCategoryFilters(categories: seq<ServiceCategory>, scoped: Option<seq<CatalogService>>) returns (filters: seq<CategoryFilter>)
    ensures filters == CategoryFilters(categories, scoped)
  {
    filters := CollectNames(MapSeq(categories, CategoryName));
    if |filters| == 0 && scoped.Some? {
      filters := CollectNames(MapSeq(scoped.value, ServiceCategoryName));
    }
  }

  /** The keys collected are distinct and are exactly the keys of the
      names that count. */
  lemma {:induction false} CollectAllKeys(names: seq<Option<string>>)
    ensures NoDup(FilterKeys(CollectAll(names)))
    ensures forall k :: k in FilterKeys(CollectAll(names)) <==>
      exists j :: 0 <= j < |names| && Counts(names[j]) && KeyOf(names[j]) == k
  {
    if names != [] {
      var n := |names|;
      var prefix := names[..n - 1];
      CollectAllKeys(prefix);
      CollectKeysStep(CollectAll(prefix), names[n - 1]);
      forall k ensures k in FilterKeys(CollectAll(names)) <==>
        exists j :: 0 <= j < n && Counts(names[j]) && KeyOf(names[j]) == k
      {
        if k in FilterKeys(CollectAll(prefix)) {
          var j :| 0 <= j < n - 1 && Counts(prefix[j]) && KeyOf(prefix[j]) == k;
          assert names[j] == prefix[j];
        }
        if exists j :: 0 <= j < n && Counts(names[j]) && KeyOf(names[j]) == k {
          var j :| 0 <= j < n && Counts(names[j]) && KeyOf(names[j]) == k;
          if j < n - 1 {
            assert prefix[j] == names[j];
          }
        }
      }
    }
  }

  /** One step keeps the keys distinct and adds the new name's key, if it
      counts, and nothing else. */
  lemma CollectKeysStep(fs: seq<CategoryFilter>, x: Option<string>)
    requires NoDup(FilterKeys(fs))
    ensures NoDup(FilterKeys(Collect(fs, x)))
    ensures forall k :: k in FilterKeys(Collect(fs, x)) <==> k in FilterKeys(fs) || (Counts(x) && KeyOf(x) == k)
  {
    if Counts(x) && KeyOf(x) !in FilterKeys(fs) {
      assert FilterKeys(Collect(fs, x)) == FilterKeys(fs) + [KeyOf(x)];
    }
  }

  /** Name `j` counts and has key `k`. */
  predicate Named(names: seq<Option<string>>, j: int, k: string) {
    0 <= j < |names| && Counts(names[j]) && KeyOf(names[j]) == k
  }

  /** Name `j` is the first one with the filter's key, and gave its label. */
  predicate FirstNamedAt(names: seq<Option<string>>, j: int, f: CategoryFilter) {
    Named(names, j, f.key) && LabelOf(names[j]) == f.labelText
    && forall l :: 0 <= l < j ==> !Named(names, l, f.key)
  }

  /** A filter whose key is that of its non-empty label. */
  predicate WellLabelled(f: CategoryFilter) {
    f.key == NormalizeCategoryKey(f.labelText) && f.labelText != "" && f.key != ""
  }

  lemma FirstNamedExtends(names: seq<Option<string>>, j: int, f: CategoryFilter)
    requires names != [] && FirstNamedAt(names[..|names| - 1], j, f)
    ensures FirstNamedAt(names, j, f)
  {
    var prefix := names[..|names| - 1];
    assert names[j] == prefix[j];
    forall l | 0 <= l < j ensures !Named(names, l, f.key) {
      assert names[l] == prefix[l];
      assert !Named(prefix, l, f.key);
    }
  }

  lemma FirstNamedLast(prefix: seq<Option<string>>, x: Option<string>, f: CategoryFilter)
    requires Counts(x) && f == CategoryFilter(KeyOf(x), LabelOf(x))
    requires forall l :: 0 <= l < |prefix| ==> !Named(prefix, l, f.key)
    ensures FirstNamedAt(prefix + [x], |prefix|, f)
  {
    var names := prefix + [x];
    forall l | 0 <= l < |prefix| ensures !Named(names, l, f.key) {
      assert names[l] == prefix[l];
      assert !Named(prefix, l, f.key);
    }
  }

  /** Each filter's label is that of the first name with its key, and its
      key is the key of that label: the first label wins. */
  lemma {:induction false} CollectAllFirstLabel(names: seq<Option<string>>)
    ensures forall f :: f in CollectAll(names) ==> WellLabelled(f) && exists j :: FirstNamedAt(names, j, f)
  {
    if names != [] {
      var prefix := names[..|names| - 1];
      var x := names[|names| - 1];
      CollectAllFirstLabel(prefix);
      assert names == prefix + [x];
      forall f | f in CollectAll(names)
        ensures WellLabelled(f) && exists j :: FirstNamedAt(names, j, f)
      {
        FirstLabelStep(prefix, x, f);
      }
    }
  }

  /** The step of `CollectAllFirstLabel`: a filter kept from before still
      has its first name, and a filter added now is named by the new,
      last name, whose key no earlier name has. */
  lemma FirstLabelStep(prefix: seq<Option<string>>, x: Option<string>, f: CategoryFilter)
    requires forall g :: g in CollectAll(prefix) ==> WellLabelled(g) && exists j :: FirstNamedAt(prefix, j, g)
    requires f in Collect(CollectAll(prefix), x)
    ensures WellLabelled(f) && exists j :: FirstNamedAt(prefix + [x], j, f)
  {
    var names := prefix + [x];
    assert names[..|names| - 1] == prefix;
    var before := CollectAll(prefix);
    if f in before {
      var j :| FirstNamedAt(prefix, j, f);
      FirstNamedExtends(names, j, f);
    } else {
      CollectAllKeys(prefix);
      assert f == CategoryFilter(KeyOf(x), LabelOf(x));
      assert f.key !in FilterKeys(before);
      assert forall l :: 0 <= l < |prefix| ==> !Named(prefix, l, f.key);
      FirstNamedLast(prefix, x, f);
    }
  }

  /** The filters have distinct, non-empty keys, each the key of its label;
      the vehicle's categories are used exactly when the catalogue's yield
      none and a vehicle is selected. */
  lemma CategoryFiltersSpec(categories: seq<ServiceCategory>, scoped: Option<seq<CatalogService>>)
    ensures var r := CategoryFilters(categories, scoped);
      && NoDup(FilterKeys(r))
      && (forall f :: f in r ==> WellLabelled(f))
      && (CollectAll(MapSeq(categories, CategoryName)) != [] ==> r == CollectAll(MapSeq(categories, CategoryName)))
      && (CollectAll(MapSeq(categories, CategoryName)) == [] ==>
            r == if scoped.Some? then CollectAll(MapSeq(scoped.value, ServiceCategoryName)) else [])
  {
    var names := MapSeq(categories, CategoryName);
    CollectAllKeys(names);
    CollectAllFirstLabel(names);
    if scoped.Some? {
      CollectAllKeys(MapSeq(scoped.value, ServiceCategoryName));
      CollectAllFirstLabel(MapSeq(scoped.value, ServiceCategoryName));
    }
  }

  // ---------------------------------------------------------------------
  // The active category

  /** The effect that drops an active key that no filter has; an empty key
      is falsy and stays. */
  function KeepKnownKey(key: Option<string>, filters: seq<CategoryFilter>): Option<string> {
    if Given(key) && key.value !in FilterKeys(filters) then None else key
  }

  /** After the effect the active key is unset, empty or a filter's key;
      a key that was valid is kept. */
  lemma KeepKnownKeySpec(key: Option<string>, filters: seq<CategoryFilter>)
    ensures var k := KeepKnownKey(key, filters);
      !Given(k) || k.value in FilterKeys(filters)
    ensures !Given(key) || key.value in FilterKeys(filters) ==> KeepKnownKey(key, filters) == key
    ensures Given(key) && key.value !in FilterKeys(filters) ==> KeepKnownKey(key, filters) == None
  {
  }

  /** The `activeCategoryKey` state with its setter and its two effects. */
  class CategorySelection {
    var activeCategoryKey: Option<string>

    constructor()
      ensures activeCategoryKey == None
    {
      activeCategoryKey := None;
    }

    /** `handleCategorySelect` */
    method HandleCategorySelect(key: Option<string>)
      modifies this
      ensures activeCategoryKey == key
    {
      activeCategoryKey := key;
    }

    /** The effect on a new vehicle selection. */
    method OnVehicleSelection(selection: Option<SlugMatch>)
      modifies this
      ensures activeCategoryKey == if selection.Some? then None else old(activeCategoryKey)
    {
      if selection.Some? {
        activeCategoryKey := None;
      }
    }

    /** The effect on new filters. */
    method OnFiltersChanged(filters: seq<CategoryFilter>)
      modifies this
      ensures activeCategoryKey == KeepKnownKey(old(activeCategoryKey), filters)
    {
      if activeCategoryKey.Some? && activeCategoryKey.value != "" && activeCategoryKey.value !in FilterKeys(filters) {
        activeCategoryKey := None;
      }
    }
  }

  // ---------------------------------------------------------------------
  // Displayed services and the page flags

  /** The key a service is filtered by. */
  function ServiceKey(s: CatalogService): string {
    NormalizeCategoryKey(s.service.categoryName.GetOr(""))
  }

  /** The services of the active category; all of them without one. */
  function InCategory(services: seq<CatalogService>, key: Option<string>): seq<CatalogService> {
    if !Given(key) then services
    else
      var k := key.value;
      FilterSeq(services, (s: CatalogService) => ServiceKey(s) == k)
  }

  /** With an active key the services shown are exactly those whose
      normalised category is that key; without one all are shown. */
  lemma InCategorySpec(services: seq<CatalogService>, key: Option<string>)
    ensures !Given(key) ==> InCategory(services, key) == services
    ensures Given(key) ==> forall s :: s in InCategory(services, key) <==> s in services && ServiceKey(s) == key.value
  {
    if Given(key) {
      var k := key.value;
      forall s ensures s in InCategory(services, key) <==> s in services && ServiceKey(s) == k {
        FilterSeqMembers(services, (s: CatalogService) => ServiceKey(s) == k, s);
      }
    }
  }

  /** `displayServices`: the vehicle's services when a vehicle is
      selected, else the whole catalogue, narrowed to the active category. */
  function DisplayServices(all: seq<CatalogService>, selection: Option<SlugMatch>, scoped: Option<seq<CatalogService>>, key: Option<string>): seq<CatalogService> {
    if selection.Some? then InCategory(scoped.GetOr([]), key) else InCategory(all, key)
  }

  /** `emptyState` */
  function EmptyStateOf(showLoading: bool, notFound: bool, display: seq<CatalogService>, selection: Option<SlugMatch>, key: Option<string>): Option<EmptyState> {
    if !showLoading && !notFound && |display| == 0 then
      Some(if selection.Some? then EmptyState(VehicleEmptyHeading, VehicleEmptyDescription)
           else if Given(key) then EmptyState(CategoryEmptyHeading, CategoryEmptyDescription)
           else EmptyState(CatalogEmptyHeading, CatalogEmptyDescription))
    else None
  }

  /** The page as the hook derives it for an active category key; it throws
      when the selected model carries no services. */
  function Derive(p: PageInputs, key: Option<string>): Result<PageView, string> {
    var services := if p.catalog.Some? then p.catalog.value.services else [];
    var selection := VehicleSelection(p);
    match VehicleScoped(selection, LastWins(services, ServiceIdOf))
    case Failure(e) => Failure(e)
    case Success(scoped) =>
      var filters := CategoryFilters(if p.catalog.Some? then p.catalog.value.categories else [], scoped);
      var display := DisplayServices(services, selection, scoped, key);
      var notFound := VehicleNotFound(p);
      Success(PageView(
        selection, filters, key, !notFound, ShowLoadingState(p), notFound, display,
        EmptyStateOf(ShowLoadingState(p), notFound, display, selection, key)))
  }

  // ---------------------------------------------------------------------
  // Properties

  /** The route state gives a vehicle exactly when both slugs are given, a
      model has both, and the fuel it implies is non-empty; the vehicle is
      the first such model, with the route's fuel or else its first. */
  lemma StateMatchSpec(route: Option<RouteState>, models: seq<VehicleCatalog.VehicleModel>)
    ensures var r := StateMatch(route, models);
      r.Some? <==>
        (route.Some? && Given(route.value.selectedBrandSlug) && Given(route.value.selectedModelSlug)
         && exists i :: (0 <= i < |models|
                         && ModelIs(models[i], route.value.selectedBrandSlug.value, route.value.selectedModelSlug.value)
                         && (forall l :: 0 <= l < i ==>
                               !ModelIs(models[l], route.value.selectedBrandSlug.value, route.value.selectedModelSlug.value))
                         && RouteFuel(route.value, models[i]) != ""))
    ensures var r := StateMatch(route, models);
      r.Some? ==> exists i :: (0 <= i < |models| && r.value.model == models[i]
                               && ModelIs(models[i], route.value.selectedBrandSlug.value, route.value.selectedModelSlug.value)
                               && (forall l :: 0 <= l < i ==>
                                     !ModelIs(models[l], route.value.selectedBrandSlug.value, route.value.selectedModelSlug.value))
                               && r.value.fuelType == RouteFuel(route.value, models[i]) && r.value.fuelType != "")
  {
    if route.Some? && Given(route.value.selectedBrandSlug) && Given(route.value.selectedModelSlug) {
      var b, m := route.value.selectedBrandSlug.value, route.value.selectedModelSlug.value;
      var found := FindModel(models, b, m, 0);
      if found.Some? {
        forall i | 0 <= i < |models| && ModelIs(models[i], b, m) && (forall l :: 0 <= l < i ==> !ModelIs(models[l], b, m))
          ensures i == found.value
        {
        }
      }
    }
  }

  /** The URL slug's match takes precedence; the route state is used only
      when the slug matches nothing. */
  lemma SelectionPrefersSlug(p: PageInputs)
    ensures var models := VehicleCatalog.AllModels(p.modelsByBrand);
      && (MatchSlug(p.vehicleSlug, models).Some? ==> VehicleSelection(p) == MatchSlug(p.vehicleSlug, models))
      && (MatchSlug(p.vehicleSlug, models).None? ==> VehicleSelection(p) == StateMatch(p.routeState, models))
  {
  }

  /** The page throws exactly when the selected model carries no services;
      otherwise vehicle-not-found means a vehicle route with nothing
      selected once the vehicle catalogue has loaded, the filters show
      exactly when the vehicle is not missing, and the empty state shows
      exactly when nothing is loading or missing and no service is
      displayed. */
  lemma DeriveSpec(p: PageInputs, key: Option<string>)
    ensures var r := Derive(p, key);
      && (r.Failure? <==> VehicleSelection(p).Some? && VehicleSelection(p).value.model.services.None?)
      && (r.Success? ==>
            && r.value.vehicleSelection == VehicleSelection(p)
            && (r.value.vehicleNotFound <==>
                  IsVehicleRoute(p) && VehicleSelection(p).None? && p.hasLoadedVehicleCatalog && !p.isLoadingVehicleCatalog)
            && r.value.showCategoryFilters == !r.value.vehicleNotFound
            && (r.value.showLoadingState <==> p.isCatalogLoading || IsVehicleDataLoading(p))
            && (r.value.emptyState.Some? <==>
                  !r.value.showLoadingState && !r.value.vehicleNotFound && r.value.displayServices == []))
  {
  }

  /** Without a selected vehicle the page shows the catalogue's services of
      the active category, and the empty state says which case it is. */
  lemma DeriveWithoutVehicle(p: PageInputs, key: Option<string>)
    requires VehicleSelection(p).None?
    ensures var r := Derive(p, key);
      var services := if p.catalog.Some? then p.catalog.value.services else [];
      && r.Success?
      && r.value.displayServices == InCategory(services, key)
      && (r.value.emptyState.Some? ==>
            r.value.emptyState.value.heading == if Given(key) then CategoryEmptyHeading else CatalogEmptyHeading)
  {
  }

  /** With a selected vehicle whose model carries links the page shows the
      scoped services of the active category, under the vehicle heading
      when there are none. */
  lemma DeriveWithVehicle(p: PageInputs, key: Option<string>)
    requires VehicleSelection(p).Some? && VehicleSelection(p).value.model.services.Some?
    ensures var r := Derive(p, key);
      var services := if p.catalog.Some? then p.catalog.value.services else [];
      var links := VehicleSelection(p).value.model.services.value;
      && r.Success?
      && r.value.displayServices == InCategory(FilterMap(links, ScopedEntry(LastWins(services, ServiceIdOf))), key)
      && !r.value.vehicleNotFound && !IsVehicleDataLoading(p)
      && (r.value.emptyState.Some? ==> r.value.emptyState.value.heading == VehicleEmptyHeading)
  {
  }
}
