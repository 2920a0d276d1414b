/** The sitemap generator (scripts/seo/generate-sitemaps.mjs): it normalises
    the brand and model responses, joins URLs onto the site's base, and
    writes one entry per static route and one per (model, fuel type)
    service page. */
module Sitemap {
  import opened Wrappers
  import opened Text
  import opened Seqs
  import opened Slug
  import TitleCase
  import VehicleSlug

  // ---------------------------------------------------------------------
  // Slug values

  /** `value` as the response carries it: `None` when it is not a string. */
  type Field = Option<string>

  /** `normalizeSlugValue`: the trimmed, lower-cased value when it is a
      non-blank string other than `null` or `undefined`, else the fallback;
      either way slugified. */
  function NormalizeSlugValue(value: Field, fallback: string): string {
    var trimmed := if value.Some? then Lower(Trim(value.value)) else "";
    if trimmed == [] || trimmed == "null" || trimmed == "undefined" then Slugify(fallback)
    else Slugify(trimmed)
  }

  /** The result is a slug; it is the fallback's slug exactly in the cases
      the source lists, and the value's own slug otherwise. */
  lemma NormalizeSlugValueSpec(value: Field, fallback: string)
    ensures IsSlug(NormalizeSlugValue(value, fallback))
    ensures value.None? ==> NormalizeSlugValue(value, fallback) == Slugify(fallback)
    ensures value.Some? && Lower(Trim(value.value)) in {"", "null", "undefined"} ==>
      NormalizeSlugValue(value, fallback) == Slugify(fallback)
    ensures value.Some? && Lower(Trim(value.value)) !in {"", "null", "undefined"} ==>
      NormalizeSlugValue(value, fallback) == Slugify(Lower(Trim(value.value)))
  {
    SlugifyIsSlug(fallback);
    if value.Some? {
      SlugifyIsSlug(Lower(Trim(value.value)));
    }
  }

  // ---------------------------------------------------------------------
  // Brands

  /** A brand as the response carries it; a `null` element counts as an
      inactive one. */
  datatype SourceBrand = SourceBrand(name: Field, slug: Field, status: bool)

  datatype SiteBrand = SiteBrand(name: string, slug: string)

  predicate IsActiveBrand(b: SourceBrand) { b.status }

  function ToSiteBrand(b: SourceBrand): SiteBrand {
    SiteBrand(Trim(b.name.GetOr("")), NormalizeSlugValue(b.slug, b.name.GetOr("")))
  }

  predicate HasNameAndSlug(b: SiteBrand) { b.name != [] && b.slug != [] }

  /** `normalizeBrands`: active brands, converted, keeping those with a name
      and a slug; the response order is kept. */
  function NormalizeBrands(brands: Option<seq<SourceBrand>>): seq<SiteBrand> {
    FilterSeq(MapSeq(FilterSeq(brands.GetOr([]), IsActiveBrand), ToSiteBrand), HasNameAndSlug)
  }

  /** A kept brand is the conversion of an active source brand, has a
      non-empty name and slug, and its slug is a well-formed slug. */
  lemma NormalizeBrandsMembers(brands: seq<SourceBrand>, b: SiteBrand)
    ensures b in NormalizeBrands(Some(brands)) <==>
      (exists raw :: raw in brands && raw.status && b == ToSiteBrand(raw)) && b.name != [] && b.slug != []
    ensures b in NormalizeBrands(Some(brands)) ==> IsSlug(b.slug)
  {
    var mapped := MapSeq(FilterSeq(brands, IsActiveBrand), ToSiteBrand);
    FilterSeqMembers(mapped, HasNameAndSlug, b);
    MapFilterMembers(brands, IsActiveBrand, ToSiteBrand, b);
    if b in NormalizeBrands(Some(brands)) {
      var raw :| raw in brands && raw.status && b == ToSiteBrand(raw);
      NormalizeSlugValueSpec(raw.slug, raw.name.GetOr(""));
    }
  }

  function SiteKey(b: SiteBrand): string { Lower(Trim(b.name)) }

  /** `createBrandLookup`: `lookup.set(key, brand)` for every brand in order. */
  method CreateBrandLookup(brands: seq<SiteBrand>) returns (lookup: map<string, SiteBrand>)
    ensures lookup == LastWins(brands, SiteKey)
  {
    lookup := map[];
    for i := 0 to |brands|
      invariant lookup == LastWins(brands[..i], SiteKey)
    {
      TakeSnoc(brands, i);
      lookup := lookup[SiteKey(brands[i]) := brands[i]];
    }
    TakeAll(brands);
  }

  /** A key is present exactly when some brand has it, and names the last
      such brand. */
  lemma BrandLookupSpec(brands: seq<SiteBrand>, key: string)
    ensures key in LastWins(brands, SiteKey) <==> exists i :: 0 <= i < |brands| && SiteKey(brands[i]) == key
    ensures key in LastWins(brands, SiteKey) ==>
      exists i :: (0 <= i < |brands| && LastWins(brands, SiteKey)[key] == brands[i]
                   && forall j :: i < j < |brands| ==> SiteKey(brands[j]) != key)
  {
    LastWinsSpec(brands, SiteKey, key);
  }

  // ---------------------------------------------------------------------
  // Fuel types

  /** One entry of `fuel_type`: skipped when it is not a string or is empty;
      otherwise the title case of its trimmed text, kept when non-empty. */
  function FuelEntry(fuel: Field): Option<string> {
    if fuel.None? || fuel.value == [] then None
    else
      var normalized := TitleCase.ToTitleCase(Trim(fuel.value));
      if normalized == [] then None else Some(normalized)
  }

  function FuelTypes(fuels: Option<seq<Field>>): seq<string> {
    Dedup(FilterMap(fuels.GetOr([]), FuelEntry))
  }

  /** `normalizeFuelTypes`: fills an insertion-ordered set in `forEach`. */
  method NormalizeFuelTypes(fuels: Option<seq<Field>>) returns (unique: seq<string>)
    ensures unique == FuelTypes(fuels)
  {
    var list := fuels.GetOr([]);
    unique := [];
    for i := 0 to |list|
      invariant unique == Dedup(FilterMap(list[..i], FuelEntry))
    {
      DedupFilterMapStep(list[..i], list[i], FuelEntry);
      TakeSnoc(list, i);
      var fuel := list[i];
      if fuel.Some? && fuel.value != [] {
        var normalized := TitleCase.ToTitleCase(Trim(fuel.value));
        if normalized != [] && normalized !in unique {
          unique := unique + [normalized];
        }
      }
    }
    TakeAll(list);
  }

  /** Distinct, non-empty, title-cased, and each the title case of a string
      entry; every string entry with a non-empty title case is represented. */
  lemma FuelTypesSpec(fuels: seq<Field>, f: string)
    ensures NoDup(FuelTypes(Some(fuels)))
    ensures f in FuelTypes(Some(fuels)) <==>
      exists i :: (0 <= i < |fuels| && fuels[i].Some? && f != []
                   && f == TitleCase.ToTitleCase(Trim(fuels[i].value)))
    ensures f in FuelTypes(Some(fuels)) ==> TitleCase.IsTitleCased(f)
  {
    FilterMapMembers(fuels, FuelEntry, f);
    if f in FuelTypes(Some(fuels)) {
      var i :| 0 <= i < |fuels| && FuelEntry(fuels[i]) == Some(f);
      TitleCase.TitleCaseShape(Trim(fuels[i].value));
    }
    if i :| (0 <= i < |fuels| && fuels[i].Some? && f != []
             && f == TitleCase.ToTitleCase(Trim(fuels[i].value))) {
      assert FuelEntry(fuels[i]) == Some(f);
    }
  }

  // ---------------------------------------------------------------------
  // Models

  /** A model as the response carries it; a `null` element counts as an
      inactive one. */
  datatype SourceModel = SourceModel(
    name: Field, slug: Field, brandName: Field, fuelType: Option<seq<Field>>,
    updatedDate: Field, createdDate: Field, status: bool)

  datatype SiteModel = SiteModel(
    brandName: string, brandSlug: string, modelName: string, modelSlug: string,
    fuelTypes: seq<string>, updatedAt: Field)

  predicate IsActiveModel(m: SourceModel) { m.status }

  function ModelBrandKey(m: SourceModel): string { Lower(Trim(m.brandName.GetOr(""))) }

  /** The `map` step: `null` for an unknown brand or no fuel types. */
  function ToSiteModel(m: SourceModel, lookup: map<string, SiteBrand>): Option<SiteModel> {
    var key := ModelBrandKey(m);
    if key !in lookup then None
    else
      var fuelTypes := FuelTypes(m.fuelType);
      if fuelTypes == [] then None
      else
        var brand := lookup[key];
        Some(SiteModel(brand.name, brand.slug, Trim(m.name.GetOr("")),
                       NormalizeSlugValue(m.slug, m.name.GetOr("")), fuelTypes,
                       if m.updatedDate.Some? then m.updatedDate else m.createdDate))
  }

  function SiteModelConverter(lookup: map<string, SiteBrand>): SourceModel -> Option<SiteModel> {
    m => ToSiteModel(m, lookup)
  }

  predicate HasNameAndModelSlug(m: SiteModel) { m.modelName != [] && m.modelSlug != [] }

  /** `normalizeModels` */
  function NormalizeModels(models: Option<seq<SourceModel>>, lookup: map<string, SiteBrand>): seq<SiteModel> {
    FilterSeq(FilterMap(FilterSeq(models.GetOr([]), IsActiveModel), SiteModelConverter(lookup)), HasNameAndModelSlug)
  }

  /** A kept model comes from an active source model whose trimmed,
      lower-cased brand name is a lookup key; it takes the brand's name and
      slug, and it has a name, a slug and at least one fuel type. */
  lemma NormalizeModelsMembers(models: seq<SourceModel>, lookup: map<string, SiteBrand>, v: SiteModel)
    ensures v in NormalizeModels(Some(models), lookup) <==>
      (exists m :: m in models && m.status && ToSiteModel(m, lookup) == Some(v)) && v.modelName != [] && v.modelSlug != []
    ensures v in NormalizeModels(Some(models), lookup) ==>
      exists m :: (m in models && m.status && ModelBrandKey(m) in lookup
                   && v.brandName == lookup[ModelBrandKey(m)].name && v.brandSlug == lookup[ModelBrandKey(m)].slug
                   && v.fuelTypes == FuelTypes(m.fuelType) && v.fuelTypes != [])
  {
    var built := FilterMap(FilterSeq(models, IsActiveModel), SiteModelConverter(lookup));
    FilterSeqMembers(built, HasNameAndModelSlug, v);
    FilterThenFilterMapMembers(models, IsActiveModel, SiteModelConverter(lookup), v);
  }

  /** A model without string fuel types is dropped, unlike in the store. */
  lemma NormalizeModelsDropsFuelless(m: SourceModel, lookup: map<string, SiteBrand>)
    requires m.fuelType.None? || m.fuelType == Some([])
    ensures NormalizeModels(Some([m]), lookup) == []
  {
    assert FilterSeq([m], IsActiveModel) == [m] || FilterSeq([m], IsActiveModel) == [];
    assert FuelTypes(m.fuelType) == [];
    assert FilterMap([m], SiteModelConverter(lookup)) == [];
  }

  // ---------------------------------------------------------------------
  // URLs

  predicate IsSlash(c: char) { c == '/' }

  /** `ensureTrailingSlash` */
  function EnsureTrailingSlash(value: string): string {
    if EndsWith(value, "/") then value else value + "/"
  }

  /** `trimTrailingSlash`: `replace(/\/+$/, '')`. */
  function TrimTrailingSlash(value: string): string {
    DropWhileEnd(value, IsSlash)
  }

  /** `ensureLeadingSlash` */
  function EnsureLeadingSlash(value: string): string {
    if StartsWith(value, "/") then value else "/" + value
  }

  /** The result ends in `/`, extends the input by at most that slash, and
      a second application changes nothing. */
  lemma EnsureTrailingSlashSpec(value: string)
    ensures EndsWith(EnsureTrailingSlash(value), "/")
    ensures EnsureTrailingSlash(value) == value || EnsureTrailingSlash(value) == value + "/"
    ensures EndsWith(value, "/") ==> EnsureTrailingSlash(value) == value
    ensures EnsureTrailingSlash(EnsureTrailingSlash(value)) == EnsureTrailingSlash(value)
  {
    var r := value + "/";
    assert r[|r| - 1..] == "/";
  }

  /** The result starts with `/`, is the input with at most that slash in
      front, and a second application changes nothing. */
  lemma EnsureLeadingSlashSpec(value: string)
    ensures StartsWith(EnsureLeadingSlash(value), "/")
    ensures StartsWith(value, "/") ==> EnsureLeadingSlash(value) == value
    ensures !StartsWith(value, "/") ==> EnsureLeadingSlash(value) == "/" + value
    ensures EnsureLeadingSlash(EnsureLeadingSlash(value)) == EnsureLeadingSlash(value)
  {
    var r := "/" + value;
    assert r[..1] == "/";
  }

  /** The result is a prefix of the input that does not end in `/`, and
      everything removed is slashes. */
  lemma TrimTrailingSlashSpec(value: string)
    ensures var r := TrimTrailingSlash(value);
      r == value[..|r|] && !EndsWith(r, "/")
      && forall i :: |r| <= i < |value| ==> value[i] == '/'
    ensures TrimTrailingSlash(TrimTrailingSlash(value)) == TrimTrailingSlash(value)
  {
    var r := TrimTrailingSlash(value);
    CountWhileEndAll(value, IsSlash);
    if r != [] {
      assert r[|r| - 1] == value[|value| - 1 - CountWhileEnd(value, IsSlash)];
      assert r[|r| - 1..] == [r[|r| - 1]];
      assert !IsSlash(r[|r| - 1]);
    }
    assert CountWhileEnd(r, IsSlash) == 0;
  }

  /** `toAbsoluteUrl` */
  function ToAbsoluteUrl(baseUrl: string, route: string): string {
    var normalizedBase := TrimTrailingSlash(baseUrl);
    if route == "/" then normalizedBase + "/"
    else normalizedBase + EnsureLeadingSlash(route)
  }

  /** The root special case agrees with the general rule: every absolute URL
      is the base without trailing slashes followed by the route with a
      leading slash. */
  lemma ToAbsoluteUrlSpec(baseUrl: string, route: string)
    ensures ToAbsoluteUrl(baseUrl, route) == TrimTrailingSlash(baseUrl) + EnsureLeadingSlash(route)
    ensures StartsWith(route, "/") ==> ToAbsoluteUrl(baseUrl, route) == TrimTrailingSlash(baseUrl) + route
    ensures !StartsWith(route, "/") ==> ToAbsoluteUrl(baseUrl, route) == TrimTrailingSlash(baseUrl) + "/" + route
  {
    EnsureLeadingSlashSpec(route);
    if route == "/" {
      assert StartsWith(route, "/");
    }
  }

  /** Exactly one slash at the join: the base part does not end in `/` and
      the character after it is `/`. */
  lemma ToAbsoluteUrlJoin(baseUrl: string, route: string)
    ensures var b := TrimTrailingSlash(baseUrl);
      b != [] ==> ToAbsoluteUrl(baseUrl, route)[|b| - 1] != '/' && ToAbsoluteUrl(baseUrl, route)[|b|] == '/'
  {
    var b := TrimTrailingSlash(baseUrl);
    ToAbsoluteUrlSpec(baseUrl, route);
    var e := EnsureLeadingSlash(route);
    assert e[0] == '/' by {
      EnsureLeadingSlashSpec(route);
      assert e[..1] == "/";
    }
    if b != [] {
      assert !EndsWith(b, "/") by {
        TrimTrailingSlashSpec(baseUrl);
      }
      assert b[|b| - 1..] == [b[|b| - 1]];
      var r := b + e;
      assert r[|b| - 1] == b[|b| - 1];
      assert r[|b|] == e[0];
    }
  }

  // ---------------------------------------------------------------------
  // Entries and XML

  datatype UrlEntry = UrlEntry(loc: string, lastmod: string, changefreq: string, priority: string)

  datatype IndexEntry = IndexEntry(loc: string, lastmod: string)

  const XmlNamespaces: string := "xmlns=\"http://www.sitemaps.org/schemas/sitemap/0.9\""
  const XmlDeclaration: string := "<?xml version=\"1.0\" encoding=\"UTF-8\"?>\n"
  const UrlHead: string := "  <url>\n    <loc>"
  const IndexHead: string := "  <sitemap>\n    <loc>"

  /** `buildUrlEntry` */
  function BuildUrlEntry(e: UrlEntry): string {
    UrlHead + e.loc + "</loc>\n    <lastmod>" + e.lastmod + "</lastmod>\n    <changefreq>"
      + e.changefreq + "</changefreq>\n    <priority>" + e.priority + "</priority>\n  </url>"
  }

  /** `buildSitemapIndexEntry` */
  function BuildIndexEntry(e: IndexEntry): string {
    IndexHead + e.loc + "</loc>\n    <lastmod>" + e.lastmod + "</lastmod>\n  </sitemap>"
  }

  function UrlBody(entries: seq<UrlEntry>): string {
    Join(MapSeq(entries, BuildUrlEntry), "\n")
  }

  function IndexBody(entries: seq<IndexEntry>): string {
    Join(MapSeq(entries, BuildIndexEntry), "\n")
  }

  const UrlSetHead: string := XmlDeclaration + "<urlset " + XmlNamespaces + ">\n"
  const UrlSetTail: string := "\n</urlset>\n"
  const IndexSetHead: string := XmlDeclaration + "<sitemapindex " + XmlNamespaces + ">\n"
  const IndexSetTail: string := "\n</sitemapindex>\n"

  /** `buildUrlSet` */
  function BuildUrlSet(entries: seq<UrlEntry>): string {
    UrlSetHead + UrlBody(entries) + UrlSetTail
  }

  /** `buildSitemapIndex` */
  function BuildSitemapIndex(entries: seq<IndexEntry>): string {
    IndexSetHead + IndexBody(entries) + IndexSetTail
  }

  predicate NotLt(c: char) { c != '<' }

  predicate NoMarkup(s: string) { forall i :: 0 <= i < |s| ==> s[i] != '<' }

  /** Reads back the `<loc>` text after a given entry head. */
  function ReadLoc(s: string, head: string): Option<string> {
    if StartsWith(s, head) then Some(TakeWhile(s[|head|..], NotLt)) else None
  }

  lemma ReadLocAfter(head: string, loc: string, rest: string)
    requires NoMarkup(loc) && rest != [] && rest[0] == '<'
    ensures ReadLoc(head + (loc + rest), head) == Some(loc)
  {
    var s := head + (loc + rest);
    assert s[..|head|] == head;
    assert s[|head|..] == loc + rest;
    CountWhileConcat(loc, rest, NotLt);
    assert (loc + rest)[..|loc|] == loc;
  }

  /** Round trip: the location of an entry without markup characters can be
      read back from its XML. */
  lemma UrlEntryRoundTrip(e: UrlEntry)
    requires NoMarkup(e.loc)
    ensures ReadLoc(BuildUrlEntry(e), UrlHead) == Some(e.loc)
  {
    var rest := "</loc>\n    <lastmod>" + e.lastmod + "</lastmod>\n    <changefreq>"
      + e.changefreq + "</changefreq>\n    <priority>" + e.priority + "</priority>\n  </url>";
    assert BuildUrlEntry(e) == UrlHead + (e.loc + rest);
    ReadLocAfter(UrlHead, e.loc, rest);
  }

  lemma IndexEntryRoundTrip(e: IndexEntry)
    requires NoMarkup(e.loc)
    ensures ReadLoc(BuildIndexEntry(e), IndexHead) == Some(e.loc)
  {
    var rest := "</loc>\n    <lastmod>" + e.lastmod + "</lastmod>\n  </sitemap>";
    assert BuildIndexEntry(e) == IndexHead + (e.loc + rest);
    ReadLocAfter(IndexHead, e.loc, rest);
  }

  /** The URL set is the XML declaration and `<urlset>` head, then every
      entry, then the closing tag. */
  lemma UrlSetContains(entries: seq<UrlEntry>, i: nat)
    requires i < |entries|
    ensures StartsWith(BuildUrlSet(entries), UrlSetHead)
    ensures EndsWith(BuildUrlSet(entries), UrlSetTail)
    ensures Includes(BuildUrlSet(entries), BuildUrlEntry(entries[i]))
  {
    FramedJoin(UrlSetHead, MapSeq(entries, BuildUrlEntry), "\n", UrlSetTail, i);
  }

  /** The sitemap index likewise holds every index entry. */
  lemma SitemapIndexContains(entries: seq<IndexEntry>, i: nat)
    requires i < |entries|
    ensures StartsWith(BuildSitemapIndex(entries), IndexSetHead)
    ensures EndsWith(BuildSitemapIndex(entries), IndexSetTail)
    ensures Includes(BuildSitemapIndex(entries), BuildIndexEntry(entries[i]))
  {
    FramedJoin(IndexSetHead, MapSeq(entries, BuildIndexEntry), "\n", IndexSetTail, i);
  }

  // ---------------------------------------------------------------------
  // Static entries

  function Itself(s: string): string { s }

  function StaticEntry(baseUrl: string, generatedOn: string, route: string): UrlEntry {
    UrlEntry(ToAbsoluteUrl(baseUrl, route), generatedOn, "weekly", if route == "/" then "1.0" else "0.8")
  }

  function StaticEntryMaker(baseUrl: string, generatedOn: string): string -> UrlEntry {
    route => StaticEntry(baseUrl, generatedOn, route)
  }

  /** The routes `collectStaticEntries` covers: each once, in code-unit order,
      the order of the default `sort()`. */
  function StaticRoutes(routes: seq<string>): seq<string> {
    SortBy(Dedup(routes), Itself)
  }

  /** `collectStaticEntries` */
  function CollectStaticEntries(routes: seq<string>, baseUrl: string, generatedOn: string): seq<UrlEntry> {
    MapSeq(StaticRoutes(routes), StaticEntryMaker(baseUrl, generatedOn))
  }

  /** Each route once, sorted, every given route covered; entry `i` is the
      absolute URL of route `i` with priority `1.0` for `/` and `0.8`
      otherwise. */
  lemma CollectStaticEntriesSpec(routes: seq<string>, baseUrl: string, generatedOn: string)
    ensures var sorted := StaticRoutes(routes);
      && NoDup(sorted)
      && (forall i, j :: 0 <= i < j < |sorted| ==> LexLeq(sorted[i], sorted[j]))
      && (forall r :: r in sorted <==> r in routes)
    ensures var sorted := StaticRoutes(routes);
      var entries := CollectStaticEntries(routes, baseUrl, generatedOn);
      |entries| == |sorted| && forall i :: 0 <= i < |entries| ==>
        && entries[i].loc == ToAbsoluteUrl(baseUrl, sorted[i])
        && entries[i].lastmod == generatedOn
        && entries[i].changefreq == "weekly"
        && (entries[i].priority == "1.0" <==> sorted[i] == "/")
        && (entries[i].priority == "0.8" <==> sorted[i] != "/")
  {
    var d := Dedup(routes);
    var sorted := StaticRoutes(routes);
    NoDupMultiset(d, sorted);
    forall r ensures r in sorted <==> r in routes {
      SortByMembers(d, Itself, r);
    }
    forall i, j | 0 <= i < j < |sorted| ensures LexLeq(sorted[i], sorted[j]) {
      assert LexLeq(Itself(sorted[i]), Itself(sorted[j]));
    }
  }

  // ---------------------------------------------------------------------
  // Service entries

  /** `formatDate`, which is not part of this model: the date text for an
      optional timestamp and a fallback. */
  type DateFormat = (Field, string) -> string

  function ServiceEntry(baseUrl: string, generatedOn: string, formatDate: DateFormat, m: SiteModel, fuelType: string): UrlEntry {
    var slug := VehicleSlug.BuildVehicleSlug(fuelType, m.brandSlug, m.modelSlug);
    UrlEntry(ToAbsoluteUrl(baseUrl, "/services/" + slug), formatDate(m.updatedAt, generatedOn), "weekly", "0.7")
  }

  function ServiceEntryMaker(baseUrl: string, generatedOn: string, formatDate: DateFormat): (make: (SiteModel, string) -> UrlEntry)
    ensures forall m, f :: make(m, f) == ServiceEntry(baseUrl, generatedOn, formatDate, m, f)
  {
    (m, f) => ServiceEntry(baseUrl, generatedOn, formatDate, m, f)
  }

  function FuelsOf(m: SiteModel): seq<string> { m.fuelTypes }

  function EntryLoc(e: UrlEntry): string { e.loc }

  /** The entries the nested `forEach` pushes, before sorting. */
  function ServiceEntries(models: seq<SiteModel>, baseUrl: string, generatedOn: string, formatDate: DateFormat): seq<UrlEntry> {
    Pairs(models, FuelsOf, ServiceEntryMaker(baseUrl, generatedOn, formatDate))
  }

  /** `collectServiceEntries`: one entry per model and fuel type, pushed in
      nested `forEach` loops, then sorted by location. */
  method CollectServiceEntries(models: seq<SiteModel>, baseUrl: string, generatedOn: string, formatDate: DateFormat)
    returns (entries: seq<UrlEntry>)
    ensures entries == SortBy(ServiceEntries(models, baseUrl, generatedOn, formatDate), EntryLoc)
  {
    var pushed := PushPairs(models, FuelsOf, ServiceEntryMaker(baseUrl, generatedOn, formatDate));
    entries := SortBy(pushed, EntryLoc);
  }

  /** Exactly one entry per (model, fuel type) pair, sorted by location. */
  lemma ServiceEntriesSorted(models: seq<SiteModel>, baseUrl: string, generatedOn: string, formatDate: DateFormat)
    ensures var all := SortBy(ServiceEntries(models, baseUrl, generatedOn, formatDate), EntryLoc);
      |all| == PairCount(models, FuelsOf)
      && forall i, j :: 0 <= i < j < |all| ==> LexLeq(all[i].loc, all[j].loc)
  {
    var all := SortBy(ServiceEntries(models, baseUrl, generatedOn, formatDate), EntryLoc);
    SortedPairsSpec(models, FuelsOf, ServiceEntryMaker(baseUrl, generatedOn, formatDate), EntryLoc, UrlEntry([], [], [], []));
    forall i, j | 0 <= i < j < |all| ensures LexLeq(all[i].loc, all[j].loc) {
      assert LexLeq(EntryLoc(all[i]), EntryLoc(all[j]));
    }
  }

  /** An entry is listed exactly when it is the entry of some model of the
      list and one of its fuel types. */
  lemma ServiceEntriesMembers(models: seq<SiteModel>, baseUrl: string, generatedOn: string, formatDate: DateFormat, e: UrlEntry)
    ensures e in SortBy(ServiceEntries(models, baseUrl, generatedOn, formatDate), EntryLoc) <==>
      exists i, j :: (0 <= i < |models| && 0 <= j < |models[i].fuelTypes|
                      && e == ServiceEntry(baseUrl, generatedOn, formatDate, models[i], models[i].fuelTypes[j]))
  {
    var make := ServiceEntryMaker(baseUrl, generatedOn, formatDate);
    SortedPairsSpec(models, FuelsOf, make, EntryLoc, e);
    if e in SortBy(Pairs(models, FuelsOf, make), EntryLoc) {
      var i, j :| 0 <= i < |models| && 0 <= j < |FuelsOf(models[i])| && e == make(models[i], FuelsOf(models[i])[j]);
      assert e == ServiceEntry(baseUrl, generatedOn, formatDate, models[i], models[i].fuelTypes[j]);
    }
    if i, j :| (0 <= i < |models| && 0 <= j < |models[i].fuelTypes|
                && e == ServiceEntry(baseUrl, generatedOn, formatDate, models[i], models[i].fuelTypes[j])) {
      assert e == make(models[i], FuelsOf(models[i])[j]);
    }
  }

  /** A service entry's location is the trimmed base followed by the
      vehicle path built from the same model and fuel type. */
  lemma ServiceEntryLoc(baseUrl: string, generatedOn: string, formatDate: DateFormat, m: SiteModel, fuelType: string)
    ensures ServiceEntry(baseUrl, generatedOn, formatDate, m, fuelType).loc
      == TrimTrailingSlash(baseUrl) + VehicleSlug.BuildVehiclePath(fuelType, m.brandSlug, m.modelSlug)
    ensures EndsWith(ServiceEntry(baseUrl, generatedOn, formatDate, m, fuelType).loc, VehicleSlug.Suffix)
  {
    var path := VehicleSlug.BuildVehiclePath(fuelType, m.brandSlug, m.modelSlug);
    VehicleSlug.BuildVehiclePathShape(fuelType, m.brandSlug, m.modelSlug);
    ToAbsoluteUrlSpec(baseUrl, path);
    VehicleSlug.PrefixedShape(TrimTrailingSlash(baseUrl), path);
  }
}
