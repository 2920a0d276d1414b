/** The home page content of src/hooks/useHomeContent.ts, derived from the
    service catalogue: service cards in two groups, brand logos and the hero
    brands, each with its fallback; the static sections pass through. */
module HomeContent {
  import opened Wrappers
  import opened Seqs
  import opened ServiceCatalog

  datatype ServiceCard = ServiceCard(name: string, icon: string, href: string)

  datatype ServiceGroups = ServiceGroups(primary: seq<ServiceCard>, custom: seq<ServiceCard>)

  datatype HeroBrand = HeroBrand(name: string, logo: string)

  datatype Hero = Hero(headline: string, subheadline: string, description: string, ctaText: string, brands: seq<HeroBrand>)

  /** The content; the static sections (selling points, cost comparisons,
      testimonials and the rest) are the value `statics`, of any type. */
  datatype Content<S> = Content(hero: Hero, services: ServiceGroups, brandLogos: seq<string>, statics: S)

  const ServicesHrefPrefix: string := "/services?service="
  const FallbackIcon: string := "/images/icons/services/default.svg"

  const Headline: string := "24/7 On-Spot Car & Bike Mechanic Repair Service"
  const Subheadline: string := "Experience the best car service in Kolkata"
  const Description: string := "Look no further! Get a free personalized quote for your car and enjoy genuine spares, transparent pricing, and doorstep pick-up."
  const CtaText: string := "Get a Quote"

  const FallbackHeroBrands: seq<HeroBrand> := [
    HeroBrand("Audi", "/images/logos/brands/brand-1.svg"),
    HeroBrand("BMW", "/images/logos/brands/brand-2.svg"),
    HeroBrand("Honda", "/images/logos/brands/brand-3.svg"),
    HeroBrand("Hyundai", "/images/logos/brands/brand-4.svg"),
    HeroBrand("Maruti Suzuki", "/images/logos/brands/brand-5.svg")
  ]

  const FallbackPrimary: seq<ServiceCard> := [
    ServiceCard("Periodic Service", "/images/icons/services/clutch-disc.svg", "/services"),
    ServiceCard("Engine Repair", "/images/icons/services/s2.svg", "/services"),
    ServiceCard("Electrical & Diagnostics", "/images/icons/services/s3.svg", "/services"),
    ServiceCard("Denting & Painting", "/images/icons/services/s4.svg", "/services"),
    ServiceCard("Wheel Care", "/images/icons/services/t-s-4.svg", "/services"),
    ServiceCard("AC Service", "/images/icons/services/t-s-6.svg", "/services")
  ]

  const FallbackCustom: seq<ServiceCard> := [
    ServiceCard("Clutch Service", "/images/icons/services/clutch-disc.svg", "/services"),
    ServiceCard("Gearbox", "/images/icons/services/s2.svg", "/services"),
    ServiceCard("Spark Plug", "/images/icons/services/s3.svg", "/services"),
    ServiceCard("Denting Painting", "/images/icons/services/s4.svg", "/services"),
    ServiceCard("Wheel Service", "/images/icons/services/t-s-4.svg", "/services"),
    ServiceCard("AC Service", "/images/icons/services/t-s-6.svg", "/services")
  ]

  const FallbackGroups: ServiceGroups := ServiceGroups(FallbackPrimary, FallbackCustom)

  const FallbackBrandLogos: seq<string> := [
    "/images/logos/brands/brand-1.svg", "/images/logos/brands/brand-2.svg", "/images/logos/brands/brand-3.svg",
    "/images/logos/brands/brand-4.svg", "/images/logos/brands/brand-5.svg", "/images/logos/brands/brand-6.svg",
    "/images/logos/brands/brand-7.svg", "/images/logos/brands/brand-8.svg", "/images/logos/brands/brand-9.svg",
    "/images/logos/brands/brand-10.svg", "/images/logos/brands/brand-11.svg", "/images/logos/brands/brand-12.svg",
    "/images/logos/brands/brand-13.svg", "/images/logos/brands/brand-14.svg", "/images/logos/brands/brand-15.svg"
  ]

  /** At most `n` leading elements, as `slice(0, n)`. */
  function Take<T>(s: seq<T>, n: nat): (r: seq<T>)
    ensures |r| == if |s| < n then |s| else n
    ensures forall i :: 0 <= i < |r| ==> r[i] == s[i]
  {
    if |s| < n then s else s[..n]
  }

  /** `slice(lo, hi)` for `lo <= hi`: what lies between, possibly nothing. */
  function Slice<T>(s: seq<T>, lo: nat, hi: nat): (r: seq<T>)
    requires lo <= hi
    ensures |r| == if |s| <= lo then 0 else if |s| < hi then |s| - lo else hi - lo
    ensures forall i :: 0 <= i < |r| ==> r[i] == s[lo + i]
  {
    if |s| <= lo then [] else if |s| < hi then s[lo..] else s[lo..hi]
  }

  /** `thumbnailUrl ?? serviceImages[0] ?? fallback`: an empty thumbnail is
      not nullish and is kept. */
  function CardIcon(s: CatalogService): string {
    if s.thumbnailUrl.Some? then s.thumbnailUrl.value
    else if s.serviceImages != [] then s.serviceImages[0]
    else FallbackIcon
  }

  /** `toServiceCard`; `encode` stands for `encodeURIComponent`. */
  function ToServiceCard(encode: string -> string): CatalogService -> ServiceCard {
    (s: CatalogService) => ServiceCard(s.service.name, CardIcon(s), ServicesHrefPrefix + encode(s.service.id))
  }

  predicate HasIcon(c: ServiceCard) { c.icon != "" }

  /** The cards with an icon, in service order, before the cut at 12. */
  function Cards(services: seq<CatalogService>, encode: string -> string): seq<ServiceCard> {
    FilterSeq(MapSeq(services, ToServiceCard(encode)), HasIcon)
  }

  /** `createServiceGroups` */
  function ServiceGroupsOf(services: seq<CatalogService>, encode: string -> string): ServiceGroups {
    if services == [] then FallbackGroups
    else
      var cards := Take(Cards(services, encode), 12);
      var primary := Take(cards, 6);
      var custom := Slice(cards, 6, 12);
      ServiceGroups(if primary != [] then primary else FallbackPrimary,
                    if custom != [] then custom else FallbackCustom)
  }

  /** `brandLogos` before its fallback: the brands' icons that are given. */
  function LogoEntry(b: BrandSummary): Option<string> {
    if Present(b.iconUrl) then Some(b.iconUrl.value) else None
  }

  function BrandLogos(brands: seq<BrandSummary>): seq<string> {
    var logos := FilterMap(brands, LogoEntry);
    if logos != [] then logos else FallbackBrandLogos
  }

  predicate HasBrandIcon(b: BrandSummary) { Present(b.iconUrl) }

  function ToHeroBrand(b: BrandSummary): HeroBrand {
    HeroBrand(b.name, b.iconUrl.GetOr(""))
  }

  /** The hero brands: the first five brands with an icon. */
  function HeroBrands(brands: seq<BrandSummary>): seq<HeroBrand> {
    var heroBrands := MapSeq(Take(FilterSeq(brands, HasBrandIcon), 5), ToHeroBrand);
    if heroBrands != [] then heroBrands else FallbackHeroBrands
  }

  /** `toHomeContent` */
  function ToHomeContent<S>(catalog: Catalog, statics: S, encode: string -> string): Content<S> {
    Content(Hero(Headline, Subheadline, Description, CtaText, HeroBrands(catalog.brands)),
            ServiceGroupsOf(catalog.services, encode), BrandLogos(catalog.brands), statics)
  }

  // ---------------------------------------------------------------------
  // Properties

  /** A card shows the service's name; its icon is the thumbnail when there
      is one, else the first image, else the fallback; its link names the
      encoded id. */
  lemma ServiceCardSpec(s: CatalogService, encode: string -> string)
    ensures var c := ToServiceCard(encode)(s);
      && c.name == s.service.name
      && c.href == ServicesHrefPrefix + encode(s.service.id)
      && (s.thumbnailUrl.Some? ==> c.icon == s.thumbnailUrl.value)
      && (s.thumbnailUrl.None? && s.serviceImages != [] ==> c.icon == s.serviceImages[0])
      && (s.thumbnailUrl.None? && s.serviceImages == [] ==> c.icon == FallbackIcon)
  {
  }

  /** The cards are those of the services with a non-empty icon. */
  lemma CardsMembers(services: seq<CatalogService>, encode: string -> string, c: ServiceCard)
    ensures c in Cards(services, encode) <==> c.icon != "" && exists s :: s in services && c == ToServiceCard(encode)(s)
  {
    var all := MapSeq(services, ToServiceCard(encode));
    FilterSeqMembers(all, HasIcon, c);
    if c in all {
      var i :| 0 <= i < |all| && all[i] == c;
      assert services[i] in services;
    }
  }

  /** Without services the fallback groups are used. Otherwise the primary
      group is the first six cards, the custom group the next six, and a
      group left empty is replaced by its fallback; there are never more
      than six cards in a group. */
  lemma ServiceGroupsSpec(services: seq<CatalogService>, encode: string -> string)
    ensures services == [] ==> ServiceGroupsOf(services, encode) == FallbackGroups
    ensures var g := ServiceGroupsOf(services, encode);
      |g.primary| <= 6 && |g.custom| <= 6
    ensures services != [] ==>
      var cards := Cards(services, encode);
      var g := ServiceGroupsOf(services, encode);
      && (cards == [] ==> g == FallbackGroups)
      && (cards != [] ==> g.primary == Take(cards, 6))
      && (|cards| <= 6 ==> g.custom == FallbackCustom)
      && (6 < |cards| ==> g.custom == Slice(cards, 6, 12) && g.primary + g.custom == Take(cards, 12))
  {
    if services != [] {
      var cards := Cards(services, encode);
      var first := Take(cards, 12);
      assert Take(first, 6) == Take(cards, 6);
      assert Slice(first, 6, 12) == Slice(cards, 6, 12);
      if 6 < |cards| {
        assert Take(cards, 6) + Slice(cards, 6, 12) == first;
      }
    }
  }

  /** The logos are exactly the icons the brands give, in brand order, and
      the fallback list when no brand gives one. */
  lemma BrandLogosSpec(brands: seq<BrandSummary>, logo: string)
    ensures (forall i :: 0 <= i < |brands| ==> !Present(brands[i].iconUrl)) ==> BrandLogos(brands) == FallbackBrandLogos
    ensures (exists i :: 0 <= i < |brands| && Present(brands[i].iconUrl)) ==>
      (logo in BrandLogos(brands) <==> exists i :: 0 <= i < |brands| && brands[i].iconUrl == Some(logo) && logo != "")
  {
    FilterMapMembers(brands, LogoEntry, logo);
    if exists i :: 0 <= i < |brands| && Present(brands[i].iconUrl) {
      var i :| 0 <= i < |brands| && Present(brands[i].iconUrl);
      FilterMapMembers(brands, LogoEntry, brands[i].iconUrl.value);
    } else {
      if FilterMap(brands, LogoEntry) != [] {
        FilterMapMembers(brands, LogoEntry, FilterMap(brands, LogoEntry)[0]);
      }
    }
  }

  /** The hero shows the first five brands that have an icon, each with its
      name and icon, and the fallback brands when none has one. */
  lemma HeroBrandsSpec(brands: seq<BrandSummary>)
    ensures var withIcon := FilterSeq(brands, HasBrandIcon);
      var h := HeroBrands(brands);
      && (withIcon == [] ==> h == FallbackHeroBrands)
      && (withIcon != [] ==>
            && |h| == (if |withIcon| < 5 then |withIcon| else 5)
            && forall i :: 0 <= i < |h| ==> h[i] == HeroBrand(withIcon[i].name, withIcon[i].iconUrl.value) && h[i].logo != "")
    ensures forall b :: b in FilterSeq(brands, HasBrandIcon) <==> b in brands && Present(b.iconUrl)
  {
    forall b ensures b in FilterSeq(brands, HasBrandIcon) <==> b in brands && Present(b.iconUrl) {
      FilterSeqMembers(brands, HasBrandIcon, b);
    }
  }

  /** The hero copy is fixed, and the static sections pass through. */
  lemma ToHomeContentSpec<S>(catalog: Catalog, statics: S, encode: string -> string)
    ensures var c := ToHomeContent(catalog, statics, encode);
      && c.statics == statics
      && c.hero.headline == Headline && c.hero.subheadline == Subheadline
      && c.hero.description == Description && c.hero.ctaText == CtaText
      && c.hero.brands == HeroBrands(catalog.brands)
      && c.services == ServiceGroupsOf(catalog.services, encode)
      && c.brandLogos == BrandLogos(catalog.brands)
      && c.brandLogos != [] && c.hero.brands != [] && c.services.primary != [] && c.services.custom != []
  {
    var withIcon := FilterSeq(catalog.brands, HasBrandIcon);
    if withIcon != [] {
      assert |Take(withIcon, 5)| > 0;
    }
    if catalog.services != [] {
      var cards := Take(Cards(catalog.services, encode), 12);
      assert cards == [] ==> Take(cards, 6) == [];
    }
  }
}
