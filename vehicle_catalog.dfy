/** The vehicle catalogue as src/store/vehicleStore.ts builds it from the
    brand and model endpoints: active brands sorted by name, a lookup from
    lower-cased brand name to brand, models joined to their brand, and the
    models grouped by brand slug. */
module VehicleCatalog {
  import opened Wrappers
  import opened Text
  import opened Seqs
  import TitleCase

  /** A brand as the backend sends it. */
  datatype RawBrand = RawBrand(name: string, slug: string, status: bool, icon: Option<string>)

  /** One service a model offers, with its prices (which may be NaN). */
  datatype ModelService = ModelService(servicesId: string, discount: Num, originalPrice: Num, discountPrice: Num)

  /** A model as the backend sends it; `None` stands for `null`/`undefined`. */
  datatype RawModel = RawModel(
    id: int, name: string, slug: string, brandName: Option<string>,
    fuelType: Option<seq<string>>, thumbnail: Option<string>, image: Option<string>,
    services: Option<seq<ModelService>>, status: bool)

  datatype VehicleBrand = VehicleBrand(name: string, slug: string, iconUrl: Option<string>)

  /** A catalogue model. `services` is `None` when the object carries no
      `services` property at all. */
  datatype VehicleModel = VehicleModel(
    id: int, name: string, slug: string, brandName: string, brandSlug: string,
    fuelTypes: seq<string>, thumbnailUrl: Option<string>, services: Option<seq<ModelService>>)

  /** `resolveBackendAssetUrl`, which is not part of this model: any function
      from an optional path to an optional URL. */
  type Resolver = Option<string> -> Option<string>

  predicate IsActiveBrand(b: RawBrand) { b.status }

  predicate IsActiveModel(m: RawModel) { m.status }

  /** The sort key of `localeCompare(..., { sensitivity: 'base' })`, taken
      here as the lower-cased name. */
  function BrandKey(b: VehicleBrand): string { Lower(b.name) }

  function ModelKey(m: VehicleModel): string { Lower(m.name) }

  function ToVehicleBrand(b: RawBrand, resolve: Resolver): VehicleBrand {
    VehicleBrand(Trim(b.name), b.slug, resolve(b.icon))
  }

  function BrandConverter(resolve: Resolver): RawBrand -> VehicleBrand {
    b => ToVehicleBrand(b, resolve)
  }

  /** `normalizeBrands`: the active brands, trimmed and resolved, sorted by
      name. */
  function NormalizeBrands(brands: Option<seq<RawBrand>>, resolve: Resolver): (r: seq<VehicleBrand>)
    ensures SortedBy(r, BrandKey)
    ensures multiset(r) == multiset(MapSeq(FilterSeq(brands.GetOr([]), IsActiveBrand), BrandConverter(resolve)))
  {
    SortBy(MapSeq(FilterSeq(brands.GetOr([]), IsActiveBrand), BrandConverter(resolve)), BrandKey)
  }

  /** A normalised brand is exactly the conversion of an active raw brand. */
  lemma NormalizeBrandsMembers(brands: seq<RawBrand>, resolve: Resolver, b: VehicleBrand)
    ensures b in NormalizeBrands(Some(brands), resolve) <==>
      exists raw :: raw in brands && raw.status && b == ToVehicleBrand(raw, resolve)
  {
    var mapped := MapSeq(FilterSeq(brands, IsActiveBrand), BrandConverter(resolve));
    SortByMembers(mapped, BrandKey, b);
    MapFilterMembers(brands, IsActiveBrand, BrandConverter(resolve), b);
  }

  /** The key `createBrandLookup` files a brand under. */
  function LookupKey(b: VehicleBrand): string { Lower(Trim(b.name)) }

  /** The lookup after setting every brand in order: a later brand with the
      same key replaces an earlier one. */
  function BrandLookup(brands: seq<VehicleBrand>): map<string, VehicleBrand>
  {
    LastWins(brands, LookupKey)
  }

  /** `createBrandLookup`: fills a map with `lookup.set(key, brand)`. */
  method CreateBrandLookup(brands: seq<VehicleBrand>) returns (lookup: map<string, VehicleBrand>)
    ensures lookup == BrandLookup(brands)
  {
    lookup := map[];
    for i := 0 to |brands|
      invariant lookup == LastWins(brands[..i], LookupKey)
    {
      assert brands[..i + 1][..i] == brands[..i];
      lookup := lookup[LookupKey(brands[i]) := brands[i]];
    }
    assert brands[..|brands|] == brands;
  }

  /** A key is present exactly when some brand has it, and it maps to the
      last such brand. */
  lemma BrandLookupSpec(brands: seq<VehicleBrand>, key: string)
    ensures key in BrandLookup(brands) <==> exists i :: 0 <= i < |brands| && LookupKey(brands[i]) == key
    ensures key in BrandLookup(brands) ==>
      exists i :: (0 <= i < |brands| && BrandLookup(brands)[key] == brands[i]
                   && LookupKey(brands[i]) == key && forall j :: i < j < |brands| ==> LookupKey(brands[j]) != key)
  {
    LastWinsSpec(brands, LookupKey, key);
  }

  /** What `normalizeFuelTypes` makes of one entry: the title case of the
      trimmed entry, or nothing for a blank one. */
  function FuelEntry(entry: string): Option<string> {
    var trimmed := Trim(entry);
    if trimmed == [] then None else Some(TitleCase.ToTitleCase(trimmed))
  }

  /** The result of `normalizeFuelTypes`. */
  function FuelTypes(fuels: Option<seq<string>>): seq<string> {
    Dedup(FilterMap(fuels.GetOr([]), FuelEntry))
  }

  /** `normalizeFuelTypes`: adds each non-blank entry's title case to an
      insertion-ordered set. */
  method NormalizeFuelTypes(fuels: Option<seq<string>>) returns (unique: seq<string>)
    ensures unique == FuelTypes(fuels)
  {
    var list := fuels.GetOr([]);
    unique := [];
    for i := 0 to |list|
      invariant unique == Dedup(FilterMap(list[..i], FuelEntry))
    {
      DedupFilterMapStep(list[..i], list[i], FuelEntry);
      TakeSnoc(list, i);
      var trimmed := Trim(list[i]);
      if trimmed != [] {
        var normalized := TitleCase.ToTitleCase(trimmed);
        if normalized !in unique {
          unique := unique + [normalized];
        }
      }
    }
    assert list[..|list|] == list;
  }

  /** Fuel types are distinct, title-cased, each the title case of a non-blank
      entry, and every non-blank entry is represented. */
  lemma FuelTypesSpec(fuels: seq<string>, f: string)
    ensures NoDup(FuelTypes(Some(fuels)))
    ensures f in FuelTypes(Some(fuels)) <==>
      exists i :: 0 <= i < |fuels| && Trim(fuels[i]) != [] && f == TitleCase.ToTitleCase(Trim(fuels[i]))
    ensures f in FuelTypes(Some(fuels)) ==> TitleCase.IsTitleCased(f)
  {
    FilterMapMembers(fuels, FuelEntry, f);
    if f in FuelTypes(Some(fuels)) {
      var i :| 0 <= i < |fuels| && FuelEntry(fuels[i]) == Some(f);
      TitleCase.TitleCaseShape(Trim(fuels[i]));
    }
  }

  /** Entries that differ only in case or surrounding blanks collapse into
      one fuel type. */
  lemma FuelTypesCaseInsensitive(a: string, b: string)
    requires Trim(a) != [] && Lower(Trim(a)) == Lower(Trim(b))
    ensures FuelTypes(Some([a, b])) == [TitleCase.ToTitleCase(Trim(a))]
  {
    var ta, tb := Trim(a), Trim(b);
    TitleCase.TitleCaseSameLower(ta, tb);
    assert tb != [] by {
      assert |Lower(tb)| == |ta|;
    }
    var t := TitleCase.ToTitleCase(ta);
    assert FuelEntry(a) == Some(t);
    assert FuelEntry(b) == Some(t);
    FuelTypesOfTwins(a, b, t);
  }

  /** Two entries with the same fuel type give that one fuel type. */
  lemma FuelTypesOfTwins(a: string, b: string, t: string)
    requires FuelEntry(a) == Some(t) && FuelEntry(b) == Some(t)
    ensures FuelTypes(Some([a, b])) == [t]
  {
    assert [a, b][..1] == [a];
    assert [a][..0] == [];
    assert FilterMap([a], FuelEntry) == [t];
    assert FilterMap([a, b], FuelEntry) == [t, t];
    assert [t, t][..1] == [t];
    assert Dedup([t]) == [t];
  }

  /** The lookup key of a model: its trimmed, lower-cased `brand_name`. */
  function ModelBrandKey(m: RawModel): string { Lower(Trim(m.brandName.GetOr(""))) }

  /** The per-model step of `normalizeModels`: `None` for a model whose brand
      is not in the lookup. `copyServices` says whether the model's
      `services` are carried over. */
  function ToVehicleModel(m: RawModel, lookup: map<string, VehicleBrand>, resolve: Resolver, copyServices: bool): (r: Option<VehicleModel>)
    ensures r.Some? <==> ModelBrandKey(m) in lookup
    ensures r.Some? ==> r.value.brandSlug == lookup[ModelBrandKey(m)].slug
    ensures r.Some? ==> r.value.fuelTypes == FuelTypes(m.fuelType)
    ensures r.Some? ==> r.value.name == Trim(m.name) && r.value.slug == m.slug && r.value.id == m.id
  {
    var key := ModelBrandKey(m);
    if key !in lookup then None
    else
      var brand := lookup[key];
      Some(VehicleModel(
        m.id, Trim(m.name), m.slug, m.brandName.GetOr(brand.name), brand.slug,
        FuelTypes(m.fuelType),
        resolve(if m.thumbnail.Some? then m.thumbnail else m.image),
        if copyServices then Some(m.services.GetOr([])) else None))
  }

  function ModelConverter(lookup: map<string, VehicleBrand>, resolve: Resolver, copyServices: bool): RawModel -> Option<VehicleModel> {
    m => ToVehicleModel(m, lookup, resolve, copyServices)
  }

  /** The models `normalizeModels` builds, before sorting: the active models
      whose brand is found, converted. */
  function BuiltModels(models: Option<seq<RawModel>>, lookup: map<string, VehicleBrand>, resolve: Resolver, copyServices: bool): seq<VehicleModel> {
    FilterMap(FilterSeq(models.GetOr([]), IsActiveModel), ModelConverter(lookup, resolve, copyServices))
  }

  /** Membership in the built models, for either choice of `copyServices`. */
  lemma BuiltModelsMembers(models: seq<RawModel>, lookup: map<string, VehicleBrand>, resolve: Resolver, copyServices: bool, v: VehicleModel)
    ensures v in BuiltModels(Some(models), lookup, resolve, copyServices) <==>
      exists m :: m in models && m.status && ToVehicleModel(m, lookup, resolve, copyServices) == Some(v)
  {
    var f := ModelConverter(lookup, resolve, copyServices);
    FilterThenFilterMapMembers(models, IsActiveModel, f, v);
    if v in BuiltModels(Some(models), lookup, resolve, copyServices) {
      var m :| m in models && IsActiveModel(m) && f(m) == Some(v);
      assert m.status && ToVehicleModel(m, lookup, resolve, copyServices) == Some(v);
    }
    if m :| m in models && m.status && ToVehicleModel(m, lookup, resolve, copyServices) == Some(v) {
      assert IsActiveModel(m) && f(m) == Some(v);
    }
  }

  /** `normalizeModels` exactly as written: the built models carry no
      `services` property. */
  function NormalizeModelsAsWritten(models: Option<seq<RawModel>>, lookup: map<string, VehicleBrand>, resolve: Resolver): (r: seq<VehicleModel>)
    ensures SortedBy(r, ModelKey)
    ensures multiset(r) == multiset(BuiltModels(models, lookup, resolve, false))
  {
    SortBy(BuiltModels(models, lookup, resolve, false), ModelKey)
  }

  /** No model that `normalizeModels` returns has a `services` property. */
  lemma AsWrittenHasNoServices(models: seq<RawModel>, lookup: map<string, VehicleBrand>, resolve: Resolver, v: VehicleModel)
    requires v in NormalizeModelsAsWritten(Some(models), lookup, resolve)
    ensures v.services.None?
  {
    SortByMembers(BuiltModels(Some(models), lookup, resolve, false), ModelKey, v);
    BuiltModelsMembers(models, lookup, resolve, false, v);
  }

  /** A model the code keeps is exactly the conversion, without services,
      of an active raw model whose trimmed, lower-cased brand name is a
      lookup key; it takes that brand's slug and its own fuel types. */
  lemma NormalizeModelsAsWrittenMembers(models: seq<RawModel>, lookup: map<string, VehicleBrand>, resolve: Resolver, v: VehicleModel)
    ensures v in NormalizeModelsAsWritten(Some(models), lookup, resolve) <==>
      exists m :: m in models && m.status && ToVehicleModel(m, lookup, resolve, false) == Some(v)
    ensures v in NormalizeModelsAsWritten(Some(models), lookup, resolve) ==>
      exists m :: (m in models && m.status && ModelBrandKey(m) in lookup
                   && v.brandSlug == lookup[ModelBrandKey(m)].slug && v.fuelTypes == FuelTypes(m.fuelType))
  {
    SortByMembers(BuiltModels(Some(models), lookup, resolve, false), ModelKey, v);
    BuiltModelsMembers(models, lookup, resolve, false, v);
  }

  /** `normalizeModels` with the model's service links carried over, the
      shape the services page reads: active models whose brand is in the
      lookup, sorted by name. */
  function NormalizeModels(models: Option<seq<RawModel>>, lookup: map<string, VehicleBrand>, resolve: Resolver): (r: seq<VehicleModel>)
    ensures SortedBy(r, ModelKey)
    ensures multiset(r) == multiset(BuiltModels(models, lookup, resolve, true))
  {
    SortBy(BuiltModels(models, lookup, resolve, true), ModelKey)
  }

  /** A catalogue model is exactly the conversion of an active raw model
      whose trimmed, lower-cased brand name is a lookup key; it takes that
      brand's slug and carries the raw model's services. */
  lemma NormalizeModelsMembers(models: seq<RawModel>, lookup: map<string, VehicleBrand>, resolve: Resolver, v: VehicleModel)
    ensures v in NormalizeModels(Some(models), lookup, resolve) <==>
      exists m :: m in models && m.status && ToVehicleModel(m, lookup, resolve, true) == Some(v)
    ensures v in NormalizeModels(Some(models), lookup, resolve) ==>
      exists m :: (m in models && m.status && ModelBrandKey(m) in lookup
                   && v.brandSlug == lookup[ModelBrandKey(m)].slug && v.fuelTypes == FuelTypes(m.fuelType)
                   && v.services == Some(m.services.GetOr([])))
  {
    SortByMembers(BuiltModels(Some(models), lookup, resolve, true), ModelKey, v);
    BuiltModelsMembers(models, lookup, resolve, true, v);
  }

  /** An active model with no fuel list at all still reaches the catalogue,
      with no fuel types. */
  lemma NormalizeModelsKeepsFuelless(m: RawModel, lookup: map<string, VehicleBrand>, resolve: Resolver)
    requires m.status && m.fuelType.None? && ModelBrandKey(m) in lookup
    ensures exists v :: v in NormalizeModelsAsWritten(Some([m]), lookup, resolve) && v.fuelTypes == []
  {
    var v := ToVehicleModel(m, lookup, resolve, false).value;
    assert [m][0] == m;
    NormalizeModelsAsWrittenMembers([m], lookup, resolve, v);
  }

  /** The JavaScript object `modelsByBrand`: buckets keyed by brand slug, in
      key insertion order. */
  type ModelsByBrand = seq<(string, seq<VehicleModel>)>

  function Keys(g: ModelsByBrand): (r: seq<string>)
    ensures |r| == |g| && forall i :: 0 <= i < |g| ==> r[i] == g[i].0
  {
    seq(|g|, i requires 0 <= i < |g| => g[i].0)
  }

  /** `modelsByBrand[slug] ?? []` */
  function Bucket(g: ModelsByBrand, slug: string): seq<VehicleModel>
  {
    if g == [] then []
    else if g[0].0 == slug then g[0].1
    else Bucket(g[1..], slug)
  }

  /** `if (!grouped[k]) grouped[k] = []; grouped[k].push(model)`: an existing
      key keeps its position, a new one goes last. */
  function Push(g: ModelsByBrand, m: VehicleModel): (r: ModelsByBrand)
    ensures |r| >= |g|
  {
    if g == [] then [(m.brandSlug, [m])]
    else if g[0].0 == m.brandSlug then [(g[0].0, g[0].1 + [m])] + g[1..]
    else [g[0]] + Push(g[1..], m)
  }

  /** The grouping after pushing every model in order. */
  function Grouped(models: seq<VehicleModel>): ModelsByBrand
  {
    if models == [] then []
    else Push(Grouped(models[..|models| - 1]), models[|models| - 1])
  }

  /** `groupModelsByBrand` */
  method GroupModelsByBrand(models: seq<VehicleModel>) returns (grouped: ModelsByBrand)
    ensures grouped == Grouped(models)
  {
    grouped := [];
    for i := 0 to |models|
      invariant grouped == Grouped(models[..i])
    {
      TakeSnoc(models, i);
      grouped := Push(grouped, models[i]);
    }
    TakeAll(models);
  }

  /** The models with a given brand slug, in input order. */
  function WithSlug(models: seq<VehicleModel>, slug: string): seq<VehicleModel>
  {
    if models == [] then []
    else
      var rest := WithSlug(models[..|models| - 1], slug);
      if models[|models| - 1].brandSlug == slug then rest + [models[|models| - 1]] else rest
  }

  /** Pushing a model appends it to its own bucket and leaves the others. */
  lemma {:induction false} PushBucket(g: ModelsByBrand, m: VehicleModel, slug: string)
    ensures Bucket(Push(g, m), slug) == if slug == m.brandSlug then Bucket(g, slug) + [m] else Bucket(g, slug)
    decreases |g|
  {
    if g != [] && g[0].0 != m.brandSlug {
      PushBucket(g[1..], m, slug);
    }
  }

  /** Pushing a model adds its slug as the last key when it is new, and
      keeps the keys otherwise. */
  lemma {:induction false} PushKeys(g: ModelsByBrand, m: VehicleModel)
    ensures Keys(Push(g, m)) == if m.brandSlug in Keys(g) then Keys(g) else Keys(g) + [m.brandSlug]
    decreases |g|
  {
    if g != [] {
      var r := Push(g, m);
      if g[0].0 == m.brandSlug {
        assert Keys(r) == Keys(g);
      } else {
        PushKeys(g[1..], m);
        assert Keys(g) == [g[0].0] + Keys(g[1..]);
        assert Keys(r) == [g[0].0] + Keys(Push(g[1..], m));
      }
    }
  }

  /** Each bucket holds exactly the models with its slug, in input order; the
      keys are the distinct brand slugs in order of first appearance. */
  lemma {:induction false} GroupedSpec(models: seq<VehicleModel>, slug: string)
    ensures Bucket(Grouped(models), slug) == WithSlug(models, slug)
    ensures Keys(Grouped(models)) == Dedup(SlugsOf(models))
  {
    if models != [] {
      var n := |models|;
      var init := models[..n - 1];
      GroupedSpec(init, slug);
      PushBucket(Grouped(init), models[n - 1], slug);
      PushKeys(Grouped(init), models[n - 1]);
      assert SlugsOf(models)[..n - 1] == SlugsOf(init);
    }
  }

  function SlugsOf(models: seq<VehicleModel>): (r: seq<string>)
    ensures |r| == |models| && forall i :: 0 <= i < |models| ==> r[i] == models[i].brandSlug
  {
    seq(|models|, i requires 0 <= i < |models| => models[i].brandSlug)
  }

  lemma {:induction false} WithSlugMembers(models: seq<VehicleModel>, slug: string, v: VehicleModel)
    ensures v in WithSlug(models, slug) <==> v in models && v.brandSlug == slug
  {
    if models != [] {
      var n := |models|;
      WithSlugMembers(models[..n - 1], slug, v);
      SplitLast(models);
    }
  }

  /** `Object.values(modelsByBrand).flatMap(list => list)` */
  function AllModels(g: ModelsByBrand): seq<VehicleModel>
  {
    if g == [] then [] else g[0].1 + AllModels(g[1..])
  }

  lemma {:induction false} PushAll(g: ModelsByBrand, m: VehicleModel)
    ensures multiset(AllModels(Push(g, m))) == multiset(AllModels(g)) + multiset{m}
    decreases |g|
  {
    if g != [] {
      var r := Push(g, m);
      if g[0].0 == m.brandSlug {
        assert r[1..] == g[1..];
      } else {
        PushAll(g[1..], m);
        assert r[1..] == Push(g[1..], m);
      }
    }
  }

  /** Flattening the grouping gives back every model exactly once. */
  lemma {:induction false} AllModelsOfGrouped(models: seq<VehicleModel>)
    ensures multiset(AllModels(Grouped(models))) == multiset(models)
  {
    if models != [] {
      var n := |models|;
      AllModelsOfGrouped(models[..n - 1]);
      PushAll(Grouped(models[..n - 1]), models[n - 1]);
      SplitLast(models);
    }
  }
}
