/** The service catalogue of src/hooks/useServiceCatalog.ts: the four
    backend replies (services, categories, brands, models) turned into the
    catalogue the pages read. A pricing map keeps, for each service, the
    first price offered by an active model, replaced only by a strictly
    cheaper positive discount price. */
module ServiceCatalog {
  import opened Wrappers
  import opened Seqs
  import VehicleCatalog
  import VehicleStore

  /** A service as the backend sends it; `None` is `null`/`undefined`. The
      descriptive fields the code only passes through are not modelled. */
  datatype Service = Service(
    id: string, name: string, categoryId: int, categoryName: Option<string>,
    serviceImages: Option<seq<string>>, thumbnail: Option<string>, status: bool)

  datatype ServiceCategory = ServiceCategory(id: int, name: Option<string>)

  /** `ServicePricing`, with every non-finite number replaced by 0. */
  datatype Pricing = Pricing(discount: int, originalPrice: int, discountPrice: int)

  /** `ServiceWithMetadata`: the service, its resolved thumbnail and images,
      and its pricing if any. */
  datatype CatalogService = CatalogService(
    service: Service, thumbnailUrl: Option<string>, serviceImages: seq<string>, pricing: Option<Pricing>)

  datatype BrandSummary = BrandSummary(name: string, slug: string, iconUrl: Option<string>)

  datatype Catalog = Catalog(
    services: seq<CatalogService>, categories: seq<ServiceCategory>,
    brands: seq<BrandSummary>, pricingByServiceId: map<string, Pricing>)

  type Link = VehicleCatalog.ModelService

  type PricingMap = map<string, Pricing>

  const ServicesFailed: string := "Unable to fetch services from backend."
  const CategoriesFailed: string := "Unable to fetch service categories from backend."
  const BrandsFailed: string := "Unable to fetch brand catalogue from backend."

  // ---------------------------------------------------------------------
  // createPricingMap

  /** The pricing stored for a link: its three numbers, non-finite ones
      replaced by 0. */
  function ToPricing(link: Link): Pricing {
    Pricing(FiniteOrZero(link.discount), FiniteOrZero(link.originalPrice), FiniteOrZero(link.discountPrice))
  }

  /** A link replaces the stored pricing only with a positive discount
      price below the stored one (NaN and infinities never do). */
  predicate Undercuts(link: Link, existing: Pricing) {
    link.discountPrice.Finite? && 0 < link.discountPrice.n < existing.discountPrice
  }

  /** A finite, positive discount price. */
  predicate PositivePrice(link: Link) {
    link.discountPrice.Finite? && link.discountPrice.n > 0
  }

  /** One step of the inner `forEach`. */
  function Offer(m: PricingMap, link: Link): PricingMap {
    if link.servicesId !in m || Undercuts(link, m[link.servicesId]) then m[link.servicesId := ToPricing(link)]
    else m
  }

  /** The map after offering every link in order. */
  function OfferAll(links: seq<Link>): PricingMap {
    if links == [] then map[] else Offer(OfferAll(links[..|links| - 1]), links[|links| - 1])
  }

  /** `model.services ?? []` */
  function LinksOf(m: VehicleCatalog.RawModel): seq<Link> { m.services.GetOr([]) }

  /** The links of the given models, model by model. */
  function Links(models: seq<VehicleCatalog.RawModel>): seq<Link> {
    if models == [] then [] else Links(models[..|models| - 1]) + LinksOf(models[|models| - 1])
  }

  /** The map `createPricingMap` builds. */
  function PricingOf(models: seq<VehicleCatalog.RawModel>): PricingMap {
    OfferAll(Links(FilterSeq(models, VehicleCatalog.IsActiveModel)))
  }

  lemma OfferAllSnoc(links: seq<Link>, link: Link)
    ensures OfferAll(links + [link]) == Offer(OfferAll(links), link)
  {
    assert (links + [link])[..|links|] == links;
  }

  lemma LinksSnoc(models: seq<VehicleCatalog.RawModel>, i: nat)
    requires i < |models|
    ensures Links(models[..i + 1]) == Links(models[..i]) + LinksOf(models[i])
  {
    assert models[..i + 1][..i] == models[..i];
  }

  /** `createPricingMap`: the active models' links offered one at a time
      in nested loops. */
  method CreatePricingMap(models: seq<VehicleCatalog.RawModel>) returns (pricing: PricingMap)
    ensures pricing == PricingOf(models)
  {
    var active := FilterSeq(models, VehicleCatalog.IsActiveModel);
    pricing := map[];
    for i := 0 to |active|
      invariant pricing == OfferAll(Links(active[..i]))
    {
      pricing := OfferLinks(pricing, Links(active[..i]), LinksOf(active[i]));
      LinksSnoc(active, i);
    }
    assert active[..|active|] == active;
  }

  /** The inner `forEach` of `createPricingMap`: offers one model's links
      to the map built from the links before them. */
  method OfferLinks(pricing: PricingMap, done: seq<Link>, links: seq<Link>) returns (updated: PricingMap)
    requires pricing == OfferAll(done)
    ensures updated == OfferAll(done + links)
  {
    updated := pricing;
    assert done + links[..0] == done;
    for j := 0 to |links|
      invariant updated == OfferAll(done + links[..j])
    {
      var link := links[j];
      if link.servicesId !in updated
         || (link.discountPrice.Finite? && link.discountPrice.n > 0
             && link.discountPrice.n < updated[link.servicesId].discountPrice)
      {
        updated := updated[link.servicesId := ToPricing(link)];
      }
      OfferAllSnoc(done + links[..j], link);
      assert done + links[..j + 1] == (done + links[..j]) + [link];
    }
    assert links[..|links|] == links;
  }

  /** A service has pricing exactly when some offered link names it. */
  lemma {:induction false} OfferAllKeys(links: seq<Link>, id: string)
    ensures id in OfferAll(links) <==> exists j :: 0 <= j < |links| && links[j].servicesId == id
  {
    if links != [] {
      var n := |links|;
      var front := links[..n - 1];
      OfferAllKeys(front, id);
      if exists j :: 0 <= j < n - 1 && front[j].servicesId == id {
        var j :| 0 <= j < n - 1 && front[j].servicesId == id;
        assert links[j].servicesId == id;
      }
      if exists j :: 0 <= j < n && links[j].servicesId == id {
        var j :| 0 <= j < n && links[j].servicesId == id;
        if j < n - 1 {
          assert front[j].servicesId == id;
        }
      }
    }
  }

  /** Link `j` is the one whose pricing the map keeps for `id`, when the
      first link naming `id` is `f`: `f` itself or a later link with a
      positive price, strictly cheaper than every earlier candidate. */
  predicate StoredLink(links: seq<Link>, id: string, f: nat, j: int) {
    && f <= j < |links| && links[j].servicesId == id && (j == f || PositivePrice(links[j]))
    && forall k :: f <= k < j && links[k].servicesId == id && (k == f || PositivePrice(links[k])) ==>
         ToPricing(links[k]).discountPrice > ToPricing(links[j]).discountPrice
  }

  lemma StoredLinkExtend(links: seq<Link>, last: Link, id: string, f: nat, j: int)
    requires StoredLink(links, id, f, j)
    ensures StoredLink(links + [last], id, f, j)
  {
    var u := links + [last];
    assert forall k :: 0 <= k < |links| ==> u[k] == links[k];
  }

  /** The price stored for a service whose first link is at `f` is at
      most the first link's (as stored) and at most every later positive
      one. */
  lemma {:induction false} OfferAllBounds(links: seq<Link>, id: string, f: nat)
    requires f < |links| && links[f].servicesId == id
    requires forall j :: 0 <= j < f ==> links[j].servicesId != id
    ensures id in OfferAll(links)
    ensures OfferAll(links)[id].discountPrice <= ToPricing(links[f]).discountPrice
    ensures forall j :: f < j < |links| && links[j].servicesId == id && PositivePrice(links[j]) ==>
                        OfferAll(links)[id].discountPrice <= links[j].discountPrice.n
  {
    var n := |links|;
    var front := links[..n - 1];
    var last := links[n - 1];
    assert links == front + [last];
    assert OfferAll(links) == Offer(OfferAll(front), last);
    if f == n - 1 {
      forall j | 0 <= j < n - 1 ensures front[j].servicesId != id {
        assert front[j] == links[j];
      }
      OfferAllKeys(front, id);
      assert id !in OfferAll(front);
    } else {
      forall j | 0 <= j < f ensures front[j].servicesId != id {
        assert front[j] == links[j];
      }
      OfferAllBounds(front, id, f);
      assert links[f] == front[f];
      forall j | f < j < n && links[j].servicesId == id && PositivePrice(links[j])
        ensures OfferAll(links)[id].discountPrice <= links[j].discountPrice.n
      {
        if j < n - 1 {
          assert links[j] == front[j];
        }
      }
    }
  }

  /** Which pricing is stored: that of the first link or of a later one
      with a positive discount price, and on a tie the earliest such link,
      since every candidate before the stored one is strictly dearer. */
  lemma {:induction false} OfferAllValue(links: seq<Link>, id: string, f: nat)
    requires f < |links| && links[f].servicesId == id
    requires forall j :: 0 <= j < f ==> links[j].servicesId != id
    ensures id in OfferAll(links)
    ensures exists j :: 0 <= j < |links| && StoredLink(links, id, f, j) && OfferAll(links)[id] == ToPricing(links[j])
  {
    var n := |links|;
    var front := links[..n - 1];
    var last := links[n - 1];
    assert links == front + [last];
    assert OfferAll(links) == Offer(OfferAll(front), last);
    if f == n - 1 {
      forall j | 0 <= j < n - 1 ensures front[j].servicesId != id {
        assert front[j] == links[j];
      }
      OfferAllKeys(front, id);
      assert id !in OfferAll(front);
      assert OfferAll(links)[id] == ToPricing(last);
      assert StoredLink(links, id, f, f);
    } else {
      forall j | 0 <= j < f ensures front[j].servicesId != id {
        assert front[j] == links[j];
      }
      OfferAllValue(front, id, f);
      var before := OfferAll(front)[id];
      var k :| 0 <= k < |front| && StoredLink(front, id, f, k) && before == ToPricing(front[k]);
      if last.servicesId == id && Undercuts(last, before) {
        OfferAllBounds(front, id, f);
        assert links[f] == front[f];
        forall i | f <= i < n - 1 && links[i].servicesId == id && (i == f || PositivePrice(links[i]))
          ensures ToPricing(links[i]).discountPrice > ToPricing(last).discountPrice
        {
          assert links[i] == front[i];
        }
        assert StoredLink(links, id, f, n - 1);
      } else {
        StoredLinkExtend(front, last, id, f, k);
      }
    }
  }

  /** A first link whose discount price is 0, negative or not finite keeps
      its pricing for good: no later link undercuts it. */
  lemma FirstUnpricedSticks(links: seq<Link>, id: string, f: nat)
    requires f < |links| && links[f].servicesId == id
    requires forall j :: 0 <= j < f ==> links[j].servicesId != id
    requires ToPricing(links[f]).discountPrice <= 0
    ensures id in OfferAll(links)
    ensures OfferAll(links)[id] == ToPricing(links[f])
  {
    OfferAllBounds(links, id, f);
    OfferAllValue(links, id, f);
  }

  /** Every link of the given models, and only those, is offered. */
  lemma {:induction false} LinksMembers(models: seq<VehicleCatalog.RawModel>, link: Link)
    ensures link in Links(models) <==> exists m :: m in models && link in LinksOf(m)
  {
    if models != [] {
      var n := |models|;
      var front := models[..n - 1];
      LinksMembers(front, link);
      assert models == front + [models[n - 1]];
      if m :| m in front && link in LinksOf(m) {
        assert m in models;
      }
    }
  }

  /** Only active models contribute: a service is priced exactly when an
      active model links to it. */
  lemma PricingKeys(models: seq<VehicleCatalog.RawModel>, id: string)
    ensures id in PricingOf(models) <==>
      exists m, link :: m in models && m.status && link in LinksOf(m) && link.servicesId == id
  {
    var active := FilterSeq(models, VehicleCatalog.IsActiveModel);
    var links := Links(active);
    OfferAllKeys(links, id);
    if id in PricingOf(models) {
      var j :| 0 <= j < |links| && links[j].servicesId == id;
      LinksMembers(active, links[j]);
      var m :| m in active && links[j] in LinksOf(m);
      FilterSeqMembers(models, VehicleCatalog.IsActiveModel, m);
    }
    if m, link :| m in models && m.status && link in LinksOf(m) && link.servicesId == id {
      FilterSeqMembers(models, VehicleCatalog.IsActiveModel, m);
      LinksMembers(active, link);
      var j :| 0 <= j < |links| && links[j] == link;
    }
  }

  /** `pricingByServiceId`: the pricing map copied into a record, one key
      at a time. */
  method CopyPricing(pricing: PricingMap) returns (record: PricingMap)
    ensures record.Keys == pricing.Keys
    ensures forall id :: id in record ==> record[id] == pricing[id]
    ensures record == pricing
  {
    record := map[];
    var pending := pricing.Keys;
    while pending != {}
      invariant pending <= pricing.Keys
      invariant record.Keys == pricing.Keys - pending
      invariant forall id :: id in record ==> record[id] == pricing[id]
      decreases pending
    {
      var id :| id in pending;
      record := record[id := pricing[id]];
      pending := pending - {id};
    }
  }

  // ---------------------------------------------------------------------
  // normalizeBrands and normalizeServices

  /** A resolved URL counts only when it is a non-empty string. */
  predicate Present(url: Option<string>) { url.Some? && url.value != "" }

  /** One brand through `filter(status)`, `map` and `filter(iconUrl)`. */
  function BrandEntry(resolve: VehicleCatalog.Resolver): VehicleCatalog.RawBrand -> Option<BrandSummary> {
    (b: VehicleCatalog.RawBrand) => var url := resolve(b.icon);
         if b.status && Present(url) then Some(BrandSummary(b.name, b.slug, url)) else None
  }

  /** `normalizeBrands` */
  function NormalizeBrands(brands: seq<VehicleCatalog.RawBrand>, resolve: VehicleCatalog.Resolver): seq<BrandSummary> {
    FilterMap(brands, BrandEntry(resolve))
  }

  /** The brands kept are exactly the active brands whose icon resolves,
      with their name and slug. */
  lemma NormalizeBrandsMembers(brands: seq<VehicleCatalog.RawBrand>, resolve: VehicleCatalog.Resolver, b: BrandSummary)
    ensures b in NormalizeBrands(brands, resolve) <==>
      exists raw :: raw in brands && raw.status && Present(resolve(raw.icon))
                    && b == BrandSummary(raw.name, raw.slug, resolve(raw.icon))
  {
    FilterMapMembers(brands, BrandEntry(resolve), b);
    if b in NormalizeBrands(brands, resolve) {
      var i :| 0 <= i < |brands| && BrandEntry(resolve)(brands[i]) == Some(b);
      assert brands[i] in brands;
    }
    if raw :| raw in brands && raw.status && Present(resolve(raw.icon))
              && b == BrandSummary(raw.name, raw.slug, resolve(raw.icon)) {
      var i :| 0 <= i < |brands| && brands[i] == raw;
      assert BrandEntry(resolve)(brands[i]) == Some(b);
    }
  }

  predicate IsActiveService(s: Service) { s.status }

  /** An image URL is kept when it resolves to a non-empty string. */
  function ImageEntry(resolve: VehicleCatalog.Resolver): string -> Option<string> {
    (image: string) => var url := resolve(Some(image)); if Present(url) then Some(url.value) else None
  }

  /** One active service with its metadata and pricing. */
  function ToCatalogService(s: Service, pricing: PricingMap, resolve: VehicleCatalog.Resolver): CatalogService {
    CatalogService(
      s, resolve(s.thumbnail), FilterMap(s.serviceImages.GetOr([]), ImageEntry(resolve)),
      if s.id in pricing then Some(pricing[s.id]) else None)
  }

  function ServiceConverter(pricing: PricingMap, resolve: VehicleCatalog.Resolver): Service -> CatalogService {
    s => ToCatalogService(s, pricing, resolve)
  }

  /** `normalizeServices` */
  function NormalizeServices(services: seq<Service>, pricing: PricingMap, resolve: VehicleCatalog.Resolver): seq<CatalogService> {
    MapSeq(FilterSeq(services, IsActiveService), ServiceConverter(pricing, resolve))
  }

  /** Every kept image is a non-empty resolved URL of one of the service's
      images. */
  lemma ImagesResolved(s: Service, resolve: VehicleCatalog.Resolver, url: string)
    ensures url in FilterMap(s.serviceImages.GetOr([]), ImageEntry(resolve)) <==>
      exists image :: image in s.serviceImages.GetOr([]) && resolve(Some(image)) == Some(url) && url != ""
  {
    var images := s.serviceImages.GetOr([]);
    FilterMapMembers(images, ImageEntry(resolve), url);
    if url in FilterMap(images, ImageEntry(resolve)) {
      var i :| 0 <= i < |images| && ImageEntry(resolve)(images[i]) == Some(url);
      assert images[i] in images;
    }
    if image :| image in images && resolve(Some(image)) == Some(url) && url != "" {
      var i :| 0 <= i < |images| && images[i] == image;
      assert ImageEntry(resolve)(images[i]) == Some(url);
    }
  }

  /** The catalogue holds the active services in order, each with the
      pricing stored under its id exactly when there is one. */
  lemma NormalizeServicesSpec(services: seq<Service>, pricing: PricingMap, resolve: VehicleCatalog.Resolver)
    ensures var r := NormalizeServices(services, pricing, resolve);
      var active := FilterSeq(services, IsActiveService);
      && |r| == |active|
      && forall i :: 0 <= i < |r| ==>
           && r[i].service == active[i] && r[i].service.status
           && r[i].thumbnailUrl == resolve(active[i].thumbnail)
           && (r[i].pricing.Some? <==> active[i].id in pricing)
           && (r[i].pricing.Some? ==> r[i].pricing.value == pricing[active[i].id])
  {
  }

  /** A service reaches the catalogue exactly when it is active. */
  lemma NormalizeServicesMembers(services: seq<Service>, pricing: PricingMap, resolve: VehicleCatalog.Resolver, s: Service)
    ensures ToCatalogService(s, pricing, resolve) in NormalizeServices(services, pricing, resolve) <==>
      s in services && s.status
  {
    var y := ToCatalogService(s, pricing, resolve);
    MapFilterMembers(services, IsActiveService, ServiceConverter(pricing, resolve), y);
  }

  // ---------------------------------------------------------------------
  // fetchServiceCatalog

  /** The catalogue built from the four replies. `models` is `None` when
      the models request fails, which the code turns into an empty list. */
  function CatalogOf(
    services: VehicleStore.Envelope<Service>, categories: VehicleStore.Envelope<ServiceCategory>,
    brands: VehicleStore.Envelope<VehicleCatalog.RawBrand>, models: Option<VehicleStore.Envelope<VehicleCatalog.RawModel>>,
    resolve: VehicleCatalog.Resolver): Result<Catalog, string>
  {
    if !services.success then Failure(services.message.GetOr(ServicesFailed))
    else if !categories.success then Failure(categories.message.GetOr(CategoriesFailed))
    else if !brands.success then Failure(brands.message.GetOr(BrandsFailed))
    else
      var pricing := PricingOf(if models.Some? then models.value.data.GetOr([]) else []);
      Success(Catalog(
        NormalizeServices(services.data.GetOr([]), pricing, resolve),
        categories.data.GetOr([]),
        NormalizeBrands(brands.data.GetOr([]), resolve),
        pricing))
  }

  /** `fetchServiceCatalog` after its requests settle. */
  method FetchServiceCatalog(
    services: VehicleStore.Envelope<Service>, categories: VehicleStore.Envelope<ServiceCategory>,
    brands: VehicleStore.Envelope<VehicleCatalog.RawBrand>, models: Option<VehicleStore.Envelope<VehicleCatalog.RawModel>>,
    resolve: VehicleCatalog.Resolver) returns (r: Result<Catalog, string>)
    ensures r == CatalogOf(services, categories, brands, models, resolve)
  {
    if !services.success {
      return Failure(services.message.GetOr(ServicesFailed));
    }
    if !categories.success {
      return Failure(categories.message.GetOr(CategoriesFailed));
    }
    if !brands.success {
      return Failure(brands.message.GetOr(BrandsFailed));
    }
    var pricingMap := CreatePricingMap(if models.Some? then models.value.data.GetOr([]) else []);
    var normalizedServices := NormalizeServices(services.data.GetOr([]), pricingMap, resolve);
    var normalizedBrands := NormalizeBrands(brands.data.GetOr([]), resolve);
    var pricingByServiceId := CopyPricing(pricingMap);
    r := Success(Catalog(normalizedServices, categories.data.GetOr([]), normalizedBrands, pricingByServiceId));
  }

  /** The first failed reply, in the order services, categories, brands,
      decides the error; its own message wins over the default. */
  lemma FetchFailsInOrder(
    services: VehicleStore.Envelope<Service>, categories: VehicleStore.Envelope<ServiceCategory>,
    brands: VehicleStore.Envelope<VehicleCatalog.RawBrand>, models: Option<VehicleStore.Envelope<VehicleCatalog.RawModel>>,
    resolve: VehicleCatalog.Resolver)
    ensures var r := CatalogOf(services, categories, brands, models, resolve);
      && (r.Failure? <==> !services.success || !categories.success || !brands.success)
      && (!services.success ==> r.error == services.message.GetOr(ServicesFailed))
      && (services.success && !categories.success ==> r.error == categories.message.GetOr(CategoriesFailed))
      && (services.success && categories.success && !brands.success ==> r.error == brands.message.GetOr(BrandsFailed))
  {
  }

  /** A failed models request does not fail the catalogue: it leaves every
      service without pricing and the pricing record empty. */
  lemma ModelsFailureOnlyDropsPricing(
    services: VehicleStore.Envelope<Service>, categories: VehicleStore.Envelope<ServiceCategory>,
    brands: VehicleStore.Envelope<VehicleCatalog.RawBrand>, resolve: VehicleCatalog.Resolver)
    requires services.success && categories.success && brands.success
    ensures var r := CatalogOf(services, categories, brands, None, resolve);
      && r.Success? && r.value.pricingByServiceId == map[]
      && (forall i :: 0 <= i < |r.value.services| ==> r.value.services[i].pricing.None?)
      && |r.value.services| == |FilterSeq(services.data.GetOr([]), IsActiveService)|
      && r.value.categories == categories.data.GetOr([])
  {
    assert FilterSeq([], VehicleCatalog.IsActiveModel) == [];
    NormalizeServicesSpec(services.data.GetOr([]), map[], resolve);
  }
}
