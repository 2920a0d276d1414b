/** Vehicle URL slugs (src/utils/vehicleSlug.ts): a slug names a fuel type,
    a brand and a model, and ends in `-services`; matching a slug searches
    the catalogue's models and their fuel types for the pair that builds it. */
module VehicleSlug {
  import opened Wrappers
  import opened Text
  import opened Slug
  import opened VehicleCatalog

  const Suffix: string := "-services"

  /** `buildVehicleSlug` */
  function BuildVehicleSlug(fuelType: string, brandSlug: string, modelSlug: string): string {
    Compose(Slugify(fuelType), Slugify(brandSlug), Slugify(modelSlug))
  }

  /** `buildVehiclePath` */
  function BuildVehiclePath(fuelType: string, brandSlug: string, modelSlug: string): string {
    "/services/" + BuildVehicleSlug(fuelType, brandSlug, modelSlug)
  }

  /** The layout of a vehicle slug around its three slugified parts. */
  function Compose(a: string, b: string, c: string): string {
    a + "-" + b + "-" + c + Suffix
  }

  lemma ComposeShape(a: string, b: string, c: string)
    requires NoUpper(a) && NoUpper(b) && NoUpper(c)
    ensures EndsWith(Compose(a, b, c), Suffix)
    ensures NoUpper(Compose(a, b, c))
  {
    var s := Compose(a, b, c);
    assert s[|s| - |Suffix|..] == Suffix;
    forall i | 0 <= i < |s| ensures !IsUpper(s[i]) {
      if i < |a| {
        assert s[i] == a[i];
      } else if i == |a| {
      } else if i < |a| + 1 + |b| {
        assert s[i] == b[i - |a| - 1];
      } else if i == |a| + 1 + |b| {
      } else if i < |a| + 2 + |b| + |c| {
        assert s[i] == c[i - |a| - |b| - 2];
      } else {
        assert s[i] == Suffix[i - |a| - |b| - |c| - 2];
      }
    }
  }

  lemma SlugNoUpper(s: string)
    requires IsSlug(s)
    ensures NoUpper(s)
  {
    forall i | 0 <= i < |s| ensures !IsUpper(s[i]) {
      assert IsSlugChar(s[i]);
    }
  }

  lemma SlugifyNoUpper(value: string)
    ensures NoUpper(Slugify(value))
  {
    SlugifyIsSlug(value);
    SlugNoUpper(Slugify(value));
  }

  /** A built slug ends in `-services` and has no upper case letter, so
      lower-casing it changes nothing. */
  lemma BuildVehicleSlugShape(fuelType: string, brandSlug: string, modelSlug: string)
    ensures EndsWith(BuildVehicleSlug(fuelType, brandSlug, modelSlug), Suffix)
    ensures NoUpper(BuildVehicleSlug(fuelType, brandSlug, modelSlug))
    ensures Lower(BuildVehicleSlug(fuelType, brandSlug, modelSlug)) == BuildVehicleSlug(fuelType, brandSlug, modelSlug)
  {
    SlugifyNoUpper(fuelType);
    SlugifyNoUpper(brandSlug);
    SlugifyNoUpper(modelSlug);
    ComposeShape(Slugify(fuelType), Slugify(brandSlug), Slugify(modelSlug));
    LowerOfLower(BuildVehicleSlug(fuelType, brandSlug, modelSlug));
  }

  lemma PrefixedShape(prefix: string, s: string)
    requires EndsWith(s, Suffix)
    ensures StartsWith(prefix + s, prefix) && (prefix + s)[|prefix|..] == s
    ensures EndsWith(prefix + s, Suffix)
  {
    var t := prefix + s;
    assert t[|t| - |Suffix|..] == s[|s| - |Suffix|..];
  }

  /** A vehicle path is `/services/` followed by the vehicle slug, and so ends
      in `-services` too. */
  lemma BuildVehiclePathShape(fuelType: string, brandSlug: string, modelSlug: string)
    ensures StartsWith(BuildVehiclePath(fuelType, brandSlug, modelSlug), "/services/")
    ensures BuildVehiclePath(fuelType, brandSlug, modelSlug)[10..] == BuildVehicleSlug(fuelType, brandSlug, modelSlug)
    ensures EndsWith(BuildVehiclePath(fuelType, brandSlug, modelSlug), Suffix)
  {
    BuildVehicleSlugShape(fuelType, brandSlug, modelSlug);
    PrefixedShape("/services/", BuildVehicleSlug(fuelType, brandSlug, modelSlug));
  }

  datatype SlugMatch = SlugMatch(model: VehicleModel, fuelType: string)

  /** Which (model, fuel type) pairs a search accepts. */
  type PairTest = (VehicleModel, string) -> bool

  /** The pair `(m, f)` builds `target`. */
  predicate Builds(m: VehicleModel, f: string, target: string) {
    BuildVehicleSlug(f, m.brandSlug, m.slug) == target
  }

  function BuildsTarget(target: string): (ok: PairTest)
    ensures forall m, f :: ok(m, f) == Builds(m, f, target)
  {
    (m: VehicleModel, f: string) => Builds(m, f, target)
  }

  /** The first fuel type of `m`, among `fuels`, that `ok` accepts. */
  function FirstFuel(m: VehicleModel, fuels: seq<string>, ok: PairTest): Option<string>
  {
    if fuels == [] then None
    else if ok(m, fuels[0]) then Some(fuels[0])
    else FirstFuel(m, fuels[1..], ok)
  }

  /** The first accepted (model, fuel type) pair, models in the outer loop. */
  function FirstMatch(models: seq<VehicleModel>, ok: PairTest): Option<SlugMatch>
  {
    if models == [] then None
    else match FirstFuel(models[0], models[0].fuelTypes, ok)
      case Some(f) => Some(SlugMatch(models[0], f))
      case None => FirstMatch(models[1..], ok)
  }

  /** What `matchVehicleSlug` returns. */
  function MatchSlug(slug: Option<string>, models: seq<VehicleModel>): Option<SlugMatch> {
    if slug.None? || slug.value == [] || !EndsWith(slug.value, Suffix) then None
    else FirstMatch(models, BuildsTarget(Lower(slug.value)))
  }

  lemma {:induction false} FirstFuelAt(m: VehicleModel, fuels: seq<string>, ok: PairTest, j: nat)
    requires j < |fuels| && ok(m, fuels[j])
    requires forall l :: 0 <= l < j ==> !ok(m, fuels[l])
    ensures FirstFuel(m, fuels, ok) == Some(fuels[j])
  {
    if j > 0 {
      assert !ok(m, fuels[0]);
      FirstFuelAt(m, fuels[1..], ok, j - 1);
    }
  }

  lemma {:induction false} FirstFuelNone(m: VehicleModel, fuels: seq<string>, ok: PairTest)
    requires forall l :: 0 <= l < |fuels| ==> !ok(m, fuels[l])
    ensures FirstFuel(m, fuels, ok) == None
  {
    if fuels != [] {
      assert !ok(m, fuels[0]);
      FirstFuelNone(m, fuels[1..], ok);
    }
  }

  lemma {:induction false} FirstMatchAt(models: seq<VehicleModel>, ok: PairTest, i: nat, f: string)
    requires i < |models| && FirstFuel(models[i], models[i].fuelTypes, ok) == Some(f)
    requires forall k :: 0 <= k < i ==> FirstFuel(models[k], models[k].fuelTypes, ok).None?
    ensures FirstMatch(models, ok) == Some(SlugMatch(models[i], f))
  {
    if i > 0 {
      assert FirstFuel(models[0], models[0].fuelTypes, ok).None?;
      FirstMatchAt(models[1..], ok, i - 1, f);
    }
  }

  lemma {:induction false} FirstMatchNone(models: seq<VehicleModel>, ok: PairTest)
    requires forall k :: 0 <= k < |models| ==> FirstFuel(models[k], models[k].fuelTypes, ok).None?
    ensures FirstMatch(models, ok) == None
  {
    if models != [] {
      assert FirstFuel(models[0], models[0].fuelTypes, ok).None?;
      FirstMatchNone(models[1..], ok);
    }
  }

  /** The nested `for ... of` loops of `matchVehicleSlug`, models outside,
      fuel types inside, returning the first pair `ok` accepts. */
  method FindPair(models: seq<VehicleModel>, ok: PairTest) returns (r: Option<SlugMatch>)
    ensures r == FirstMatch(models, ok)
  {
    for i := 0 to |models|
      invariant forall k :: 0 <= k < i ==> FirstFuel(models[k], models[k].fuelTypes, ok).None?
    {
      var model := models[i];
      for j := 0 to |model.fuelTypes|
        invariant forall l :: 0 <= l < j ==> !ok(model, model.fuelTypes[l])
      {
        var fuelType := model.fuelTypes[j];
        if ok(model, fuelType) {
          FirstFuelAt(model, model.fuelTypes, ok, j);
          FirstMatchAt(models, ok, i, fuelType);
          return Some(SlugMatch(model, fuelType));
        }
      }
      FirstFuelNone(model, model.fuelTypes, ok);
    }
    FirstMatchNone(models, ok);
    return None;
  }

  /** `matchVehicleSlug`: reject a missing slug or one without the suffix,
      lower-case it, then search for the pair whose built slug equals it. */
  method MatchVehicleSlug(slug: Option<string>, models: seq<VehicleModel>) returns (r: Option<SlugMatch>)
    ensures r == MatchSlug(slug, models)
  {
    if slug.None? || slug.value == [] || !EndsWith(slug.value, Suffix) {
      return None;
    }
    var normalizedSlug := Lower(slug.value);
    r := FindPair(models, BuildsTarget(normalizedSlug));
  }

  /** A missing or empty slug, or one whose raw text does not end in
      `-services`, matches nothing. */
  lemma MatchRejects(slug: Option<string>, models: seq<VehicleModel>)
    requires slug.None? || slug.value == [] || !EndsWith(slug.value, Suffix)
    ensures MatchSlug(slug, models) == None
  {
  }

  lemma {:induction false} FirstFuelSound(m: VehicleModel, fuels: seq<string>, ok: PairTest)
    requires FirstFuel(m, fuels, ok).Some?
    ensures exists j :: (0 <= j < |fuels| && fuels[j] == FirstFuel(m, fuels, ok).value
                         && ok(m, fuels[j]) && forall l :: 0 <= l < j ==> !ok(m, fuels[l]))
  {
    if ok(m, fuels[0]) {
      assert fuels[0] == FirstFuel(m, fuels, ok).value;
    } else {
      var rest := fuels[1..];
      FirstFuelSound(m, rest, ok);
      var j :| (0 <= j < |rest| && rest[j] == FirstFuel(m, fuels, ok).value
                && ok(m, rest[j]) && forall l :: 0 <= l < j ==> !ok(m, rest[l]));
      forall l | 0 <= l < j + 1 ensures !ok(m, fuels[l]) {
        if l > 0 { assert fuels[l] == rest[l - 1]; }
      }
      assert fuels[j + 1] == rest[j];
    }
  }

  lemma {:induction false} FirstMatchSound(models: seq<VehicleModel>, ok: PairTest)
    requires FirstMatch(models, ok).Some?
    ensures exists i :: (0 <= i < |models| && models[i] == FirstMatch(models, ok).value.model
                         && FirstFuel(models[i], models[i].fuelTypes, ok) == Some(FirstMatch(models, ok).value.fuelType)
                         && forall k :: 0 <= k < i ==> FirstFuel(models[k], models[k].fuelTypes, ok).None?)
  {
    if FirstFuel(models[0], models[0].fuelTypes, ok).None? {
      var rest := models[1..];
      var x := FirstMatch(models, ok).value;
      FirstMatchSound(rest, ok);
      var i :| (0 <= i < |rest| && rest[i] == x.model
                && FirstFuel(rest[i], rest[i].fuelTypes, ok) == Some(x.fuelType)
                && forall k :: 0 <= k < i ==> FirstFuel(rest[k], rest[k].fuelTypes, ok).None?);
      forall k | 0 <= k < i + 1 ensures FirstFuel(models[k], models[k].fuelTypes, ok).None? {
        if k > 0 { assert models[k] == rest[k - 1]; }
      }
      assert models[i + 1] == rest[i];
    }
  }

  /** If `ok` accepts some fuel type, the search over fuel types finds one. */
  lemma {:induction false} FirstFuelComplete(m: VehicleModel, fuels: seq<string>, ok: PairTest, j: nat)
    requires j < |fuels| && ok(m, fuels[j])
    ensures FirstFuel(m, fuels, ok).Some?
  {
    if j > 0 && !ok(m, fuels[0]) {
      FirstFuelComplete(m, fuels[1..], ok, j - 1);
    }
  }

  /** If `ok` accepts some pair, the search finds one. */
  lemma {:induction false} FirstMatchComplete(models: seq<VehicleModel>, ok: PairTest, i: nat, j: nat)
    requires i < |models| && j < |models[i].fuelTypes| && ok(models[i], models[i].fuelTypes[j])
    ensures FirstMatch(models, ok).Some?
  {
    if FirstFuel(models[0], models[0].fuelTypes, ok).None? {
      if i == 0 {
        FirstFuelComplete(models[0], models[0].fuelTypes, ok, j);
      } else {
        FirstMatchComplete(models[1..], ok, i - 1, j);
      }
    }
  }

  /** The pair a search returns is accepted, comes from the list, and no
      pair before it (earlier models, or earlier fuel types of its model) is
      accepted. */
  lemma FirstMatchSpec(models: seq<VehicleModel>, ok: PairTest)
    requires FirstMatch(models, ok).Some?
    ensures var x := FirstMatch(models, ok).value;
      exists i, j :: (0 <= i < |models| && models[i] == x.model
                      && 0 <= j < |x.model.fuelTypes| && x.model.fuelTypes[j] == x.fuelType
                      && ok(x.model, x.fuelType)
                      && (forall k, l :: 0 <= k < i && 0 <= l < |models[k].fuelTypes| ==>
                            !ok(models[k], models[k].fuelTypes[l]))
                      && forall l :: 0 <= l < j ==> !ok(x.model, x.model.fuelTypes[l]))
  {
    var x := FirstMatch(models, ok).value;
    FirstMatchSound(models, ok);
    var i :| (0 <= i < |models| && models[i] == x.model
              && FirstFuel(models[i], models[i].fuelTypes, ok) == Some(x.fuelType)
              && forall k :: 0 <= k < i ==> FirstFuel(models[k], models[k].fuelTypes, ok).None?);
    FirstFuelSound(x.model, x.model.fuelTypes, ok);
    var j :| (0 <= j < |x.model.fuelTypes| && x.model.fuelTypes[j] == x.fuelType
              && ok(x.model, x.model.fuelTypes[j])
              && forall l :: 0 <= l < j ==> !ok(x.model, x.model.fuelTypes[l]));
    forall k, l | 0 <= k < i && 0 <= l < |models[k].fuelTypes|
      ensures !ok(models[k], models[k].fuelTypes[l])
    {
      if ok(models[k], models[k].fuelTypes[l]) {
        FirstFuelComplete(models[k], models[k].fuelTypes, ok, l);
      }
    }
  }

  /** A match names a model of the list and one of its fuel types whose
      built slug is the lower-cased input, and it is the first such pair. */
  lemma MatchSound(slug: Option<string>, models: seq<VehicleModel>)
    requires MatchSlug(slug, models).Some?
    ensures var x := MatchSlug(slug, models).value;
      var ok := BuildsTarget(Lower(slug.value));
      exists i, j :: (0 <= i < |models| && models[i] == x.model
                      && 0 <= j < |x.model.fuelTypes| && x.model.fuelTypes[j] == x.fuelType
                      && Builds(x.model, x.fuelType, Lower(slug.value))
                      && (forall k, l :: 0 <= k < i && 0 <= l < |models[k].fuelTypes| ==>
                            !ok(models[k], models[k].fuelTypes[l]))
                      && forall l :: 0 <= l < j ==> !ok(x.model, x.model.fuelTypes[l]))
  {
    FirstMatchSpec(models, BuildsTarget(Lower(slug.value)));
  }

  /** Round trip: the slug built from any model of the list and any of its
      fuel types is matched. */
  lemma MatchRoundTrip(models: seq<VehicleModel>, i: nat, j: nat)
    requires i < |models| && j < |models[i].fuelTypes|
    ensures var m := models[i];
      MatchSlug(Some(BuildVehicleSlug(m.fuelTypes[j], m.brandSlug, m.slug)), models).Some?
  {
    var m := models[i];
    var s := BuildVehicleSlug(m.fuelTypes[j], m.brandSlug, m.slug);
    BuildVehicleSlugShape(m.fuelTypes[j], m.brandSlug, m.slug);
    FirstMatchComplete(models, BuildsTarget(s), i, j);
  }

  /** Two slugs that end in `-services` as written and differ only in case
      match the same pair. */
  lemma MatchIgnoresCase(a: string, b: string, models: seq<VehicleModel>)
    requires EndsWith(a, Suffix) && EndsWith(b, Suffix)
    requires Lower(a) == Lower(b)
    ensures MatchSlug(Some(a), models) == MatchSlug(Some(b), models)
  {
  }

  /** With no models nothing matches. */
  lemma MatchEmpty(slug: Option<string>)
    ensures MatchSlug(slug, []) == None
  {
  }
}
