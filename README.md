# Car Service Wale front end: a Dafny model of its logic

Car Service Wale is a marketing and booking front end for a doorstep car
service. Most of it is rendering. Beneath that sits a set of small,
sequential pieces of logic, and this project models and proves them:

- **Vehicle slugs.** A vehicle page's slug is
  `slugify(fuel)-slugify(brand)-slugify(model)-services`.
  `matchVehicleSlug` inverts it by searching every model and fuel type
  (modules `Slug`, `VehicleSlug`).
- **Vehicle catalogue store.** Brands and models are normalised: active
  only, brand lookup by lower-cased name, title-cased and de-duplicated
  fuel types, models grouped by brand slug (`VehicleCatalog`). On top sits
  the zustand store with its loading guard and the brand → model → fuel
  selection cascade (`VehicleStore`). The shared helpers are
  `TitleCase`, `Endpoint` (the query-string builder) and `Text`.
- **Sitemap generator.** The script that writes `sitemap.xml`: slug
  normalisation, brand and model normalisation, URL joining, and the XML
  entries (`Sitemap`).
- **Hero form.**
  - The selector wizard's steps (`HeroSelection`).
  - The four-slot OTP buffer and its verification gate (`HeroOtp`).
  - The phone field, the submit decision and the button label (`HeroForm`).
  - The monolithic form component that the page actually renders
    (`HeroFormPage`).
  - The headline split around the city name (`HeroHeadline`).
- **Services page.**
  - The category-key normaliser (`CategoryKey`).
  - The service catalogue and its pricing map (`ServiceCatalog`).
  - The page's derivation: vehicle selection, scoping to the vehicle,
    category filters, the flags and the empty state (`ServicesPage`).
- **Home page content** (`HomeContent`), the **app store** (city, location
  modal, cart counter; `AppStore`) and the **hero carousel** store
  (`HeroCarousel`).

Code that changes state step by step becomes imperative Dafny:

- The zustand stores and the form component are classes whose methods
  are proved equal to a step function on a state value. Those classes
  are `VehicleStore.Store`, `AppStore.Store`,
  `HeroCarousel.CarouselStore`, `HeroOtp.OtpFlow`,
  `HeroFormPage.HeroFormPage` and `ServicesPage.CategorySelection`. The
  properties are proved about the step functions.
- Handlers that fill a `Map` or `Set` in a `forEach` are methods with
  loops, proved equal to a specification function. Examples are
  `createBrandLookup`, `normalizeFuelTypes`, `createPricingMap`,
  `servicesById`, `categoryFilters`, `collectServiceEntries`,
  `matchVehicleSlug` and `buildEndpoint`.
- Map/filter chains are functions.

The OTP buffer is an `array<string>` of four slots.

Inputs the code gets from outside are parameters:

- network replies, as response envelopes or a settled outcome;
- `resolveBackendAssetUrl`, as a function that may give no URL;
- `encodeURIComponent` and the `URLSearchParams` encoder;
- `formatDate`.

A JavaScript number that may be NaN or infinite is `Num`, either
`Finite(int)` or `NonFinite`. Strings are `seq<char>`, with ASCII case
mapping and ASCII whitespace.

Three behaviours of the code worth noting:

- Reopening the selector does not reset the OTP flow.
- `setFuelType` does not check that the fuel type is one of the model's.
- `fetchServiceCatalog` never checks the models reply's `success` flag;
  it only uses its data.

## Model

| member | source | states |
|---|---|---|
| Slug.SlugifyIsSlug | scripts/seo/generate-sitemaps.mjs:36-43 | `slugifySegment` output uses only `a-z`, `0-9` and `-`, never starts or ends with `-`, and never contains `--` |
| Slug.SlugifyOfSlug | scripts/seo/generate-sitemaps.mjs:36-43 | every stage of `slugifySegment` leaves a slug unchanged, so a slug slugifies to itself |
| Slug.SlugifyIdempotent | scripts/seo/generate-sitemaps.mjs:36-43 | slugifying twice is slugifying once |
| VehicleSlug.BuildVehicleSlugShape | src/utils/vehicleSlug.ts:4-9 | the vehicle slug ends in `-services` and has no upper-case letter, so lower-casing it changes nothing (the sitemap script's `buildVehicleSlug` is the same expression) |
| VehicleSlug.BuildVehiclePathShape | src/utils/vehicleSlug.ts:11-12 | the path starts with `/services/`, continues with exactly the vehicle slug of the same arguments, and ends in `-services` |
| VehicleSlug.FindPair | src/utils/vehicleSlug.ts:24-31 | the nested `for…of` search returns the first model-then-fuel pair that passes the test |
| VehicleSlug.FirstMatchSpec | src/utils/vehicleSlug.ts:24-31 | a found pair is a model of the list with one of its fuel types, it passes the test, and no earlier pair does |
| VehicleSlug.MatchVehicleSlug | src/utils/vehicleSlug.ts:14-34 | the method computes the match the specification function `MatchSlug` defines |
| VehicleSlug.MatchRejects | src/utils/vehicleSlug.ts:18-20 | a missing or empty slug, or one not ending in `-services`, matches nothing |
| VehicleSlug.MatchSound | src/utils/vehicleSlug.ts:22-31 | a match is a listed model and one of its fuel types whose built slug equals the lower-cased input, and it is the first such pair |
| VehicleSlug.MatchRoundTrip | src/utils/vehicleSlug.ts:22-31 | the slug built from any listed model and any of its fuel types is matched: build then match succeeds |
| VehicleSlug.MatchIgnoresCase | src/utils/vehicleSlug.ts:22 | two slugs that agree after lower-casing match the same pair |
| VehicleSlug.MatchEmpty | src/utils/vehicleSlug.ts:33 | with no models nothing matches |
| TitleCase.TitleCaseShape | src/store/vehicleStore.ts:77-83 | `toTitleCase` output is trimmed and separated by single spaces, and each word has an upper-case first letter with the rest lower case |
| TitleCase.TitleCaseIgnoresCase | src/store/vehicleStore.ts:77-83 | title-casing a lower-cased value gives the same result as title-casing the value |
| TitleCase.TitleCaseWords | src/store/vehicleStore.ts:77-83 | up to case, the output is the lower-cased input with every whitespace run made one space and the ends trimmed: the input's words, in order, and nothing else |
| TitleCase.TitleCasedUnique | src/store/vehicleStore.ts:77-83 | two title-cased strings with the same lower case are equal, since the capitals sit exactly at word starts |
| TitleCase.TitleCaseDetermined | src/store/vehicleStore.ts:77-83 | `toTitleCase(value)` is the only title-cased string whose lower case is the input's words one space apart |
| TitleCase.TitleCaseSameLower | scripts/seo/generate-sitemaps.mjs:60-66 | values that agree after lower-casing title-case alike, which is how `petrol` and `PETROL` collapse |
| VehicleCatalog.NormalizeBrands | src/store/vehicleStore.ts:59-67 | the brands are sorted by lower-cased name and are a permutation of the converted active brands |
| VehicleCatalog.NormalizeBrandsMembers | src/store/vehicleStore.ts:59-67 | a brand is kept exactly when it is the conversion of an active raw brand |
| VehicleCatalog.CreateBrandLookup | src/store/vehicleStore.ts:69-75 | the `forEach` over `lookup.set` computes the last-wins map `BrandLookup` |
| VehicleCatalog.BrandLookupSpec | src/store/vehicleStore.ts:69-75 | a key is present exactly when some brand's trimmed lower-cased name is that key, and it maps to the last such brand |
| VehicleCatalog.NormalizeFuelTypes | src/store/vehicleStore.ts:85-100 | the loop that fills the insertion-ordered `Set` computes `FuelTypes` |
| VehicleCatalog.FuelTypesSpec | src/store/vehicleStore.ts:85-100 | fuel types have no duplicates, each is title-cased, and a value is listed exactly when it is the title case of a non-blank trimmed entry |
| VehicleCatalog.FuelTypesCaseInsensitive | src/store/vehicleStore.ts:85-100 | two entries with the same trimmed lower case collapse to the first one's title case |
| VehicleCatalog.ToVehicleModel | src/store/vehicleStore.ts:105-122 | a model is built exactly when its trimmed lower-cased brand name is a lookup key, and it takes the looked-up brand's slug, the normalised fuel types and the trimmed name |
| VehicleCatalog.BuiltModelsMembers | src/store/vehicleStore.ts:102-124 | a model is built exactly when it comes from an active raw model whose brand is known |
| VehicleCatalog.NormalizeModelsAsWritten | src/store/vehicleStore.ts:102-124 | the models as the code builds them (without `services`) are sorted by lower-cased name and are a permutation of the built models |
| VehicleCatalog.AsWrittenHasNoServices | src/store/vehicleStore.ts:108-121 | no model the code builds carries a `services` list |
| VehicleCatalog.NormalizeModels | src/store/vehicleStore.ts:102-124 | the corrected models (with `services` copied) are sorted and a permutation of the built models |
| VehicleCatalog.NormalizeModelsMembers | src/store/vehicleStore.ts:102-124 | a kept model comes from an active raw model with a known brand; it takes that brand's slug, the normalised fuel types and the model's service links |
| VehicleCatalog.NormalizeModelsAsWrittenMembers | src/store/vehicleStore.ts:102-124 | a model the code keeps is exactly the conversion, without services, of an active raw model whose trimmed, lower-cased brand name is known; it takes that brand's slug and its own normalised fuel types |
| VehicleCatalog.NormalizeModelsKeepsFuelless | src/store/vehicleStore.ts:102-124 | an active model of a known brand with no fuel list is still kept by the code, with no fuel types, unlike in the sitemap script |
| VehicleCatalog.GroupModelsByBrand | src/store/vehicleStore.ts:126-137 | the loop computes `Grouped` |
| VehicleCatalog.PushBucket | src/store/vehicleStore.ts:129-134 | pushing a model appends it to its own slug's bucket and changes no other bucket |
| VehicleCatalog.PushKeys | src/store/vehicleStore.ts:129-134 | a new slug becomes the last key; a known slug keeps the key order |
| VehicleCatalog.GroupedSpec | src/store/vehicleStore.ts:126-137 | each bucket holds exactly the models with that slug, in input order, and the keys are the distinct slugs in first-seen order |
| VehicleCatalog.WithSlugMembers | src/store/vehicleStore.ts:126-137 | a model is in a slug's bucket exactly when it is an input model with that brand slug |
| VehicleCatalog.AllModelsOfGrouped | src/store/vehicleStore.ts:126-137 | flattening the buckets gives back a permutation of the input models |
| VehicleStore.LoadCatalog | src/store/vehicleStore.ts:157-192 | the `try` block computes `CatalogResult`: the envelopes checked in order, then normalise the brands, index them, normalise the models as the code does (without `services`) and group them |
| VehicleStore.FindBrand | src/store/vehicleStore.ts:203 | `find` returns the first brand with the slug, or none when no brand has it |
| VehicleStore.FindModel | src/store/vehicleStore.ts:221 | `find` returns the first model with the slug, or none when no model has it |
| VehicleStore.FetchGuard | src/store/vehicleStore.ts:150-153 | a load in progress or a loaded catalogue makes the fetch a no-op |
| VehicleStore.FetchSettles | src/store/vehicleStore.ts:155-198 | a fetch past the guard always ends with the loading flag cleared and never touches the selection |
| VehicleStore.FetchSuccess | src/store/vehicleStore.ts:183-192 | with both envelopes successful, the catalogue becomes the normalised brands and the grouped models as the code normalises them, marked loaded with no error |
| VehicleStore.FetchFailure | src/store/vehicleStore.ts:175-195 | a failure keeps the catalogue and the loaded flag. It stores the brands envelope's message (checked first), then the models envelope's, or the generic message for a thrown non-`Error` |
| VehicleStore.InitialConsistent | src/store/vehicleStore.ts:139-147 | the initial state's empty catalogue is consistent |
| VehicleStore.FetchKeepsCatalogConsistent | src/store/vehicleStore.ts:183-192 | after a fetch, each bucket holds only models with the bucket's slug |
| VehicleStore.FetchedModelsLackServices | src/store/vehicleStore.ts:183-192 | after a successful fetch no stored model carries a `services` list, since `normalizeModels` (lines 108-121) builds none |
| VehicleStore.CorrectedCatalogSpec | src/store/vehicleStore.ts:175-192 | the corrected `try` block fails exactly as the code does and keeps its brands; every model it stores carries the service links of an active raw model with the same slug |
| VehicleStore.SelectBrandSpec | src/store/vehicleStore.ts:201-210 | the selected brand is the catalogue's first brand with the slug, or else the argument; model and fuel type are cleared; the catalogue is unchanged |
| VehicleStore.SelectModelIgnored | src/store/vehicleStore.ts:214-218 | without a selected brand, with an empty brand slug, or for a model of another brand, nothing changes |
| VehicleStore.SelectModelSpec | src/store/vehicleStore.ts:220-227 | otherwise the model becomes the bucket's first model with that slug, or the argument when none has it; the brand is kept and the fuel type cleared |
| VehicleStore.SetFuelTypeSpec | src/store/vehicleStore.ts:230-240 | the fuel type is recorded exactly when a model is selected, whether or not the model offers it |
| VehicleStore.ResetSelectionSpec | src/store/vehicleStore.ts:242-247 | only the three selection fields are cleared |
| VehicleStore.ActionsKeepSelectionConsistent | src/store/vehicleStore.ts:201-247 | every action keeps the cascade: a model only with a brand and of that brand, and a fuel type only with a model |
| VehicleStore.Store.constructor | src/store/vehicleStore.ts:139-147 | the store starts empty, not loading, not loaded, with nothing selected |
| VehicleStore.Store.FetchVehicleCatalog | src/store/vehicleStore.ts:149-198 | the store's new state is `Fetched` of the old state and the outcome |
| VehicleStore.Store.SelectBrand | src/store/vehicleStore.ts:201-210 | the new state is `BrandSelected` of the old one |
| VehicleStore.Store.SelectModel | src/store/vehicleStore.ts:212-228 | the new state is `ModelSelected` of the old one |
| VehicleStore.Store.SetFuelType | src/store/vehicleStore.ts:230-240 | the new state is `FuelTypeSet` of the old one |
| VehicleStore.Store.ResetSelection | src/store/vehicleStore.ts:242-247 | the new state is `SelectionReset` of the old one |
| Endpoint.BuildEndpoint | src/store/vehicleStore.ts:41-57 | the `forEach` over `searchParams.set` computes `Endpoint` (the catalogue hook's `buildEndpoint` is the same code) |
| Endpoint.EndpointWithoutParams | src/store/vehicleStore.ts:42-44 | without parameters the path is returned unchanged |
| Endpoint.EndpointQuestionMark | src/store/vehicleStore.ts:48-56 | when every parameter is omitted there is no `?`; otherwise the path is followed by `?` and a non-empty query |
| Endpoint.SearchPairsMembers | src/store/vehicleStore.ts:48-53 | the query holds exactly the parameters whose value is not `undefined`, `null` or `''`, with their `String` values |
| Sitemap.NormalizeSlugValueSpec | scripts/seo/generate-sitemaps.mjs:52-58 | the result is always a slug. It is the slugified fallback for a non-string, a blank value or the words `null`/`undefined`, and otherwise the slugified trimmed lower-cased value |
| Sitemap.NormalizeBrandsMembers | scripts/seo/generate-sitemaps.mjs:101-108 | a brand is kept exactly when it converts from an active brand and has a name and a slug; its slug is a slug |
| Sitemap.CreateBrandLookup | scripts/seo/generate-sitemaps.mjs:110-116 | the loop computes the last-wins map keyed by trimmed lower-cased name |
| Sitemap.BrandLookupSpec | scripts/seo/generate-sitemaps.mjs:110-116 | a key is present exactly when some brand has it; it maps to the last such brand |
| Sitemap.NormalizeFuelTypes | scripts/seo/generate-sitemaps.mjs:68-80 | the loop that fills the `Set` computes `FuelTypes` |
| Sitemap.FuelTypesSpec | scripts/seo/generate-sitemaps.mjs:68-80 | no duplicates; non-strings and empty values are skipped; each entry is title-cased; a value is listed exactly when it is the title case of a trimmed string entry |
| Sitemap.NormalizeModelsMembers | scripts/seo/generate-sitemaps.mjs:118-142 | a kept model comes from an active model with a known brand and fuel types. It takes the looked-up brand's name and slug and has a name and a slug |
| Sitemap.NormalizeModelsDropsFuelless | scripts/seo/generate-sitemaps.mjs:128-131 | a model without fuel types is dropped |
| Sitemap.EnsureTrailingSlashSpec | scripts/seo/generate-sitemaps.mjs:33 | the result ends in `/`, adds at most that slash, and is idempotent |
| Sitemap.TrimTrailingSlashSpec | scripts/seo/generate-sitemaps.mjs:34 | the result is a prefix without a trailing `/`, only slashes were removed, and it is idempotent |
| Sitemap.EnsureLeadingSlashSpec | scripts/seo/generate-sitemaps.mjs:212 | the result starts with `/`, adds at most that slash, and is idempotent |
| Sitemap.ToAbsoluteUrlSpec | scripts/seo/generate-sitemaps.mjs:214-220 | every absolute URL, the root included, is the base with its trailing slashes removed followed by the route with a leading `/` |
| Sitemap.ToAbsoluteUrlJoin | scripts/seo/generate-sitemaps.mjs:214-220 | exactly one `/` at the join: the base part does not end in `/`, and the next character is `/` |
| Sitemap.UrlEntryRoundTrip | scripts/seo/generate-sitemaps.mjs:180-186 | the location of a `<url>` entry without markup characters reads back from the entry |
| Sitemap.IndexEntryRoundTrip | scripts/seo/generate-sitemaps.mjs:197-201 | the location of a `<sitemap>` entry reads back likewise |
| Sitemap.UrlSetContains | scripts/seo/generate-sitemaps.mjs:188-195 | the URL set starts with the XML head, ends with `</urlset>`, and contains every entry |
| Sitemap.SitemapIndexContains | scripts/seo/generate-sitemaps.mjs:203-210 | the sitemap index starts and ends likewise and contains every entry |
| Sitemap.CollectStaticEntriesSpec | scripts/seo/generate-sitemaps.mjs:222-230 | routes are listed once each, sorted, and every route is covered; entry `i` has the absolute URL, the generation date, `weekly`, and priority `1.0` exactly for `/` and `0.8` otherwise |
| Sitemap.CollectServiceEntries | scripts/seo/generate-sitemaps.mjs:232-250 | the nested `forEach` with `push`, then the sort, computes the sorted `ServiceEntries` |
| Sitemap.ServiceEntriesSorted | scripts/seo/generate-sitemaps.mjs:249 | there is one entry per (model, fuel type) pair, sorted by location |
| Sitemap.ServiceEntriesMembers | scripts/seo/generate-sitemaps.mjs:235-247 | an entry is listed exactly when it is the entry of some model and one of its fuel types |
| Sitemap.ServiceEntryLoc | scripts/seo/generate-sitemaps.mjs:238-241 | a service entry's location is the trimmed base followed by the vehicle path, so it ends in `-services` |
| HeroSelection.OpenSelectorSpec | src/hooks/heroFormHooks/useHeroSelectionSheet.ts:76-87 | opens `brand` without a brand, else `model` without a model, else `fuel`. It clears the message and requests a fetch exactly for `brand` with the catalogue neither loaded nor loading |
| HeroSelection.BackSpec | src/hooks/heroFormHooks/useHeroSelectionSheet.ts:89-97 | no step stays put; `brand` closes the sheet; `model` goes to `brand` (and may fetch); `fuel` goes to `model` |
| HeroSelection.SelectAdvances | src/hooks/heroFormHooks/useHeroSelectionSheet.ts:101-119 | a brand always advances to `model`. A model advances to `fuel`, but only with a brand. A fuel type is recorded and closes the sheet, but only with a model; otherwise nothing changes |
| HeroSelection.SelectionSummarySpec | src/hooks/heroFormHooks/useHeroSelectionSheet.ts:58-65 | `fuel brand model`, `brand model`, the brand name, or `''`, according to what is selected |
| HeroSelection.AvailableModelsSpec | src/hooks/heroFormHooks/useHeroSelectionSheet.ts:67-70 | empty without a brand; otherwise only models of the selected brand |
| HeroSelection.WizardCompletes | src/hooks/heroFormHooks/useHeroSelectionSheet.ts:101-119 | choosing a brand, one of its models and a fuel type completes the selection and closes the sheet |
| HeroOtp.LastDigit | src/hooks/heroFormHooks/useHeroOtp.ts:54 | the slot value is empty or one digit, and it is empty exactly when the input has no digit |
| HeroOtp.LastDigitSpec | src/hooks/heroFormHooks/useHeroOtp.ts:54 | a non-empty slot value is the input's last digit character |
| HeroOtp.PastedPrefix | src/hooks/heroFormHooks/useHeroOtp.ts:97 | the pasted digits are at most four, all digits |
| HeroOtp.PastedDigits | src/hooks/heroFormHooks/useHeroOtp.ts:99 | the paste buffer is four well-formed slots |
| HeroOtp.FilledBound | src/hooks/heroFormHooks/useHeroOtp.ts:107-108 | the filled count is at most the slot count, and equal exactly when every slot is filled |
| HeroOtp.EnteredComplete | src/hooks/heroFormHooks/useHeroOtp.ts:107-108 | the joined code has four characters exactly when all four slots are filled |
| HeroOtp.EnteredIsMock | src/hooks/heroFormHooks/useHeroOtp.ts:114 | the joined code is `1234` exactly when the slots are `1`, `2`, `3`, `4` |
| HeroOtp.HandlersKeepWellFormed | src/hooks/heroFormHooks/useHeroOtp.ts:32-119 | every handler keeps four slots, each empty or one digit |
| HeroOtp.ResetAndStartSpec | src/hooks/heroFormHooks/useHeroOtp.ts:32-45 | reset leaves four empty slots, no error, nothing pending, the modal closed and not verifying. Start clears digits and error, stores the navigation and opens the modal |
| HeroOtp.DigitChangeSpec | src/hooks/heroFormHooks/useHeroOtp.ts:53-62 | only slot `index` changes. It becomes the input's last digit, or `''` when the input has no digit, and the error is cleared |
| HeroOtp.BackspaceSpec | src/hooks/heroFormHooks/useHeroOtp.ts:70-82 | on a filled slot or at index 0 nothing changes; on an empty slot past 0 only the previous slot is cleared |
| HeroOtp.PasteSpec | src/hooks/heroFormHooks/useHeroOtp.ts:93-104 | a paste without digits changes nothing. Otherwise the first min(4, n) digits fill slots 0.. in order, the rest are empty, and the error is cleared |
| HeroOtp.VerifyIncomplete | src/hooks/heroFormHooks/useHeroOtp.ts:107-113 | with an empty slot only the error is set |
| HeroOtp.VerifyWrong | src/hooks/heroFormHooks/useHeroOtp.ts:114-119 | four digits other than `1234` set the error and clear all digits; no session results |
| HeroOtp.VerifySuccess | src/hooks/heroFormHooks/useHeroOtp.ts:120-145 | a verification succeeds exactly with `1234`, a pending navigation, a complete vehicle and a logged reply. It then resets the flow and navigates with the session's phone |
| HeroOtp.VerifyWithoutPending | src/hooks/heroFormHooks/useHeroOtp.ts:120 | the correct code with nothing pending changes nothing |
| HeroOtp.OtpFlow.constructor | src/hooks/heroFormHooks/useHeroOtp.ts:17-21 | four empty slots, no error, modal closed, nothing pending |
| HeroOtp.OtpFlow.ResetOtpFlow | src/hooks/heroFormHooks/useHeroOtp.ts:32-38 | the new state is `Reset` of the old one |
| HeroOtp.OtpFlow.StartOtpFlow | src/hooks/heroFormHooks/useHeroOtp.ts:40-45 | the new state is `Start` of the old one |
| HeroOtp.OtpFlow.HandleDigitChange | src/hooks/heroFormHooks/useHeroOtp.ts:53-62 | assigns one array slot; the new state is `DigitChange` of the old one |
| HeroOtp.OtpFlow.HandleBackspace | src/hooks/heroFormHooks/useHeroOtp.ts:70-82 | the new state is `Backspace` of the old one |
| HeroOtp.OtpFlow.HandlePaste | src/hooks/heroFormHooks/useHeroOtp.ts:93-104 | the new state is `Paste` of the old one |
| HeroOtp.OtpFlow.HandleVerify | src/hooks/heroFormHooks/useHeroOtp.ts:106-154 | the new state and the navigation handed back are `Verify` of the old state |
| HeroForm.BuildVehiclePayload | src/hooks/heroFormHooks/useHeroFormState.ts:17-26 | a payload exists exactly when brand, model and fuel type are all selected, and it copies their slugs and names |
| HeroForm.SanitizePhoneSpec | src/hooks/heroFormHooks/useHeroFormState.ts:79 | the phone is the input's digits, at most 10 of them: a prefix of the digits, and exactly 10 when there are that many |
| HeroForm.SanitizedPhoneValid | src/hooks/heroFormHooks/useHeroFormState.ts:59-61 | a sanitised phone needs no trimming, and it is valid exactly when it has 10 digits |
| HeroForm.PhoneChangeSpec | src/hooks/heroFormHooks/useHeroFormState.ts:78-85 | stores the sanitised phone and clears the message. It resets the OTP flow exactly when the modal is open, a navigation is pending, a digit is filled or an error shows |
| HeroForm.SubmitButtonLabelSpec | src/hooks/heroFormHooks/useHeroFormState.ts:63-69 | `Saving...` while processing; otherwise `Get OTP` exactly without a session and with a valid phone, else `Get A Quote` |
| HeroForm.SubmitEnabledSpec | src/hooks/heroFormHooks/useHeroFormState.ts:62 | the button is disabled exactly when the selection is incomplete or a submission is processing |
| HeroForm.EnsureSelectionSpec | src/hooks/heroFormHooks/useHeroFormState.ts:87-104 | the first missing field, in the order brand, model, fuel, sets its prompt and opens its step, and nothing is navigated |
| HeroForm.EnsureSelectionLosesPrompt | src/hooks/heroFormHooks/useHeroFormState.ts:87-104 | as written, a prompt shown while a message was already showing is cleared again; the corrected version keeps it |
| HeroForm.EnsureSelectionCounterexample | src/hooks/heroFormHooks/useHeroFormState.ts:106-108 | submitting twice without a brand: the second submit as written ends with no message at all |
| HeroForm.SubmitWithSession | src/hooks/heroFormHooks/useHeroFormState.ts:122-137 | with a session, a logged reply stores the new session and navigates with the session's phone. A rejected reply shows its message. Both end not processing |
| HeroForm.SubmitInvalidPhone | src/hooks/heroFormHooks/useHeroFormState.ts:140-143 | without a session, a non-empty invalid phone only sets the message |
| HeroForm.SubmitStartsOtp | src/hooks/heroFormHooks/useHeroFormState.ts:145-149 | without a session, a valid phone opens the OTP modal with empty slots and the vehicle path pending |
| HeroForm.SubmitWithoutPhone | src/hooks/heroFormHooks/useHeroFormState.ts:151 | without a session or a phone, the submit navigates directly with an empty phone |
| HeroForm.NavigationTargetsServicePage | src/hooks/heroFormHooks/useHeroFormState.ts:114-118 | a submit navigates only with a complete selection, and only to its `/services/…-services` path |
| HeroForm.NavigateToTargetSpec | src/hooks/heroFormHooks/useHeroFormState.ts:48-54 | navigating closes the sheet and clears the message, the phone and the selection, keeping the catalogue |
| HeroForm.VerifyOtpNavigates | src/hooks/heroFormHooks/useHeroOtp.ts:106-145 | the form navigates after verification exactly with `1234`, a pending navigation, a complete selection and a logged reply. It uses the pending path, the session's phone and a reset OTP flow |
| HeroFormPage.PageBackSpec | src/pages/HomePage/HeroSection/HeroForm/index.tsx:284-297 | `brand` closes the sheet; `model` and `fuel` go back one step, keeping the message and requesting no fetch |
| HeroFormPage.PageClearSelectionSpec | src/pages/HomePage/HeroSection/HeroForm/index.tsx:327-333 | the selection, the phone, the message and the OTP state are cleared, and the sheet closes |
| HeroFormPage.PageSubmitPrompts | src/pages/HomePage/HeroSection/HeroForm/index.tsx:352-368 | a missing brand, model or fuel type (checked in that order) sets its prompt and opens its step |
| HeroFormPage.PageSubmitMatchesHook | src/pages/HomePage/HeroSection/HeroForm/index.tsx:370-415 | with a complete selection, the component's submit branches are the hook's (session, invalid phone, OTP, navigate), after the OTP error is cleared |
| HeroFormPage.HeroFormPage.constructor | src/pages/HomePage/HeroSection/HeroForm/index.tsx:119-129 | the form starts with an empty phone and message, no session, the sheet closed and a fresh OTP flow |
| HeroFormPage.HeroFormPage.OpenSelector | src/pages/HomePage/HeroSection/HeroForm/index.tsx:274-282 | the new state and the fetch request are `PageOpenSelector` of the old state |
| HeroFormPage.HeroFormPage.HandleBack | src/pages/HomePage/HeroSection/HeroForm/index.tsx:284-297 | the new state is `PageBack` of the old one |
| HeroFormPage.HeroFormPage.HandleCloseSheet | src/pages/HomePage/HeroSection/HeroForm/index.tsx:299-301 | only the sheet closes |
| HeroFormPage.HeroFormPage.HandleBrandSelect | src/pages/HomePage/HeroSection/HeroForm/index.tsx:303-307 | the sheet becomes `BrandSelect` of the old sheet |
| HeroFormPage.HeroFormPage.HandleModelSelect | src/pages/HomePage/HeroSection/HeroForm/index.tsx:309-316 | the sheet becomes `ModelSelect` of the old sheet |
| HeroFormPage.HeroFormPage.HandleFuelSelect | src/pages/HomePage/HeroSection/HeroForm/index.tsx:318-325 | the sheet becomes `FuelSelect` of the old sheet |
| HeroFormPage.HeroFormPage.HandleClearSelection | src/pages/HomePage/HeroSection/HeroForm/index.tsx:327-333 | the new state is `PageClearSelection` of the old one |
| HeroFormPage.HeroFormPage.HandlePhoneChange | src/pages/HomePage/HeroSection/HeroForm/index.tsx:837-846 | the new state is `PhoneChange` of the old one |
| HeroFormPage.HeroFormPage.NavigateToTarget | src/pages/HomePage/HeroSection/HeroForm/index.tsx:258-264 | the new state and the navigation are `NavigateToTarget` of the old state |
| HeroFormPage.HeroFormPage.HandleSubmit | src/pages/HomePage/HeroSection/HeroForm/index.tsx:349-424 | the new state and the navigation are `PageSubmit` of the old state |
| HeroFormPage.HeroFormPage.TryBranches | src/pages/HomePage/HeroSection/HeroForm/index.tsx:385-415 | the branch part of the submit performs `SubmitBranches` |
| HeroFormPage.HeroFormPage.LogSearch | src/pages/HomePage/HeroSection/HeroForm/index.tsx:385-423 | a logged reply stores the session and navigates with its phone; a rejected reply shows its message; either way processing ends |
| HeroFormPage.HeroFormPage.HandleOtpDigitChange | src/pages/HomePage/HeroSection/HeroForm/index.tsx:430-446 | the OTP state becomes `DigitChange` of the old one |
| HeroFormPage.HeroFormPage.HandleOtpBackspace | src/pages/HomePage/HeroSection/HeroForm/index.tsx:455-470 | the OTP state becomes `Backspace` of the old one |
| HeroFormPage.HeroFormPage.HandleOtpPaste | src/pages/HomePage/HeroSection/HeroForm/index.tsx:484-504 | the OTP state becomes `Paste` of the old one |
| HeroFormPage.HeroFormPage.HandleOtpVerify | src/pages/HomePage/HeroSection/HeroForm/index.tsx:506-555 | the new state and the navigation are `PageVerifyOtp` of the old state |
| HeroHeadline.NotMentioned | src/hooks/heroFormHooks/useHeroHeadline.ts:5-7 | a headline without the city name gives `(false, headline, '')` |
| HeroHeadline.Mentioned | src/hooks/heroFormHooks/useHeroHeadline.ts:9-10 | with the name present, `beforeCity` is the text before its first occurrence and `afterCity` the text from its end to the next occurrence or the end |
| HeroHeadline.SplitFromHead | src/hooks/heroFormHooks/useHeroHeadline.ts:9 | `split`'s first piece runs to the next separator, and the next piece starts past it |
| HeroHeadline.FirstOccurrence | src/hooks/heroFormHooks/useHeroHeadline.ts:9 | the first occurrence is where `indexOf` finds the name |
| HeroHeadline.PiecesArePrefix | src/hooks/heroFormHooks/useHeroHeadline.ts:9-10 | when mentioned, `beforeCity + cityName + afterCity` is a prefix of the headline |
| HeroHeadline.EmptyCityName | src/hooks/heroFormHooks/useHeroHeadline.ts:5-10 | an empty name counts as mentioned and the pieces are the first two characters, `undefined` where missing |
| CategoryKey.NormalizedIsKey | src/utils/normalizeCategoryKey.ts:1-6 | a normalised key is lower case and trimmed, its whitespace is single spaces, and every inner `&` has a space on each side |
| CategoryKey.KeyIsFixed | src/utils/normalizeCategoryKey.ts:1-6 | a key normalises to itself |
| CategoryKey.NormalizeIdempotent | src/utils/normalizeCategoryKey.ts:1-6 | normalising twice is normalising once |
| CategoryKey.NormalizeIgnoresCase | src/utils/normalizeCategoryKey.ts:2-3 | values that agree after lower-casing normalise alike |
| ServiceCatalog.CreatePricingMap | src/hooks/useServiceCatalog.ts:61-81 | the nested `forEach` over the active models' links computes `PricingOf` |
| ServiceCatalog.OfferLinks | src/hooks/useServiceCatalog.ts:67-77 | the inner loop offers one model's links in order |
| ServiceCatalog.OfferAllKeys | src/hooks/useServiceCatalog.ts:66-77 | a service has pricing exactly when some offered link names it |
| ServiceCatalog.OfferAllBounds | src/hooks/useServiceCatalog.ts:68-76 | the stored discount price is no higher than the first link's and no higher than any later positive price |
| ServiceCatalog.OfferAllValue | src/hooks/useServiceCatalog.ts:68-76 | the stored pricing is the first link's or a later positive one's; on ties the earliest such link is kept, since every candidate before it is strictly dearer |
| ServiceCatalog.FirstUnpricedSticks | src/hooks/useServiceCatalog.ts:70 | a first link whose discount price is 0, negative or not finite is never replaced |
| ServiceCatalog.LinksMembers | src/hooks/useServiceCatalog.ts:64-67 | every link of the given models, and only those, is offered |
| ServiceCatalog.PricingKeys | src/hooks/useServiceCatalog.ts:64-78 | a service is priced exactly when an active model links to it |
| ServiceCatalog.CopyPricing | src/hooks/useServiceCatalog.ts:171-174 | the record has exactly the keys and values of the pricing map |
| ServiceCatalog.NormalizeBrandsMembers | src/hooks/useServiceCatalog.ts:83-91 | a brand is kept exactly when it is active and its icon resolves to a non-empty URL |
| ServiceCatalog.ImagesResolved | src/hooks/useServiceCatalog.ts:102-104 | a kept image is exactly a non-empty resolved URL of one of the service's images |
| ServiceCatalog.NormalizeServicesSpec | src/hooks/useServiceCatalog.ts:93-112 | the active services, in order, each with its resolved thumbnail and with exactly the pricing the map holds for its id |
| ServiceCatalog.NormalizeServicesMembers | src/hooks/useServiceCatalog.ts:97-98 | a service reaches the catalogue exactly when it is active |
| ServiceCatalog.FetchServiceCatalog | src/hooks/useServiceCatalog.ts:155-181 | the post-processing computes `CatalogOf` |
| ServiceCatalog.FetchFailsInOrder | src/hooks/useServiceCatalog.ts:155-165 | the catalogue fails exactly when the services, categories or brands reply fails, with the first failure's message in that order |
| ServiceCatalog.ModelsFailureOnlyDropsPricing | src/hooks/useServiceCatalog.ts:140-152 | a failed models request still gives a catalogue, with every active service and category but no pricing |
| ServicesPage.FindModel | src/hooks/useServicesPageState.ts:70-72 | `find` gives the first model with the route's brand and model slugs, or none |
| ServicesPage.StateMatchSpec | src/hooks/useServicesPageState.ts:65-87 | a route match exists exactly when both slugs are given and the first matching model has a fuel (the route's, else its first). It is that model and that fuel |
| ServicesPage.SelectionPrefersSlug | src/hooks/useServicesPageState.ts:89 | the slug match wins; the route match is used only without one |
| ServicesPage.BuildServicesById | src/hooks/useServicesPageState.ts:101-107 | the loop computes the last-wins map by service id |
| ServicesPage.ScopedSpec | src/hooks/useServicesPageState.ts:114-132 | one entry per link whose id is in the catalogue, in link order, with the link's prices (non-finite as 0); unknown ids are dropped |
| ServicesPage.AsWrittenStoreBreaksPage | src/hooks/useServicesPageState.ts:114 | with the store's models as written, any vehicle selection makes the scoping throw |
| ServicesPage.CorrectedStoreScopes | src/hooks/useServicesPageState.ts:109-135 | with the corrected store, a selected model scopes its own service links |
| ServicesPage.CollectNames | src/hooks/useServicesPageState.ts:140-150 | the `forEach` over the `Map` computes `CollectAll` |
| ServicesPage.CollectCategoryFilters | src/hooks/useServicesPageState.ts:137-167 | the two loops compute `CategoryFilters` |
| ServicesPage.CollectAllKeys | src/hooks/useServicesPageState.ts:140-150 | filter keys are distinct, and a key is present exactly when some name with a non-empty label normalises to it |
| ServicesPage.CollectKeysStep | src/hooks/useServicesPageState.ts:145-149 | one `forEach` step keeps keys distinct and adds at most the name's key |
| ServicesPage.FirstNamedExtends | src/hooks/useServicesPageState.ts:140-150 | a filter first named by an earlier name stays first named when names follow |
| ServicesPage.FirstNamedLast | src/hooks/useServicesPageState.ts:145-149 | a new key's filter is first named by the name that adds it |
| ServicesPage.CollectAllFirstLabel | src/hooks/useServicesPageState.ts:140-150 | each filter's label is the trimmed name of the first name with that key |
| ServicesPage.FirstLabelStep | src/hooks/useServicesPageState.ts:145-149 | one step keeps every filter well labelled and first named |
| ServicesPage.CategoryFiltersSpec | src/hooks/useServicesPageState.ts:137-167 | keys are distinct and labels well formed. The catalogue's categories are used when they yield filters; otherwise the vehicle's services are, and with neither there are none |
| ServicesPage.KeepKnownKeySpec | src/hooks/useServicesPageState.ts:169-173 | a key not among the filters is reset to none; a known key or none is kept |
| ServicesPage.CategorySelection.constructor | src/hooks/useServicesPageState.ts:93 | no category is active at first |
| ServicesPage.CategorySelection.HandleCategorySelect | src/hooks/useServicesPageState.ts:251 | the chosen key becomes active |
| ServicesPage.CategorySelection.OnVehicleSelection | src/hooks/useServicesPageState.ts:95-99 | a vehicle selection resets the key |
| ServicesPage.CategorySelection.OnFiltersChanged | src/hooks/useServicesPageState.ts:169-173 | the key becomes `KeepKnownKey` of the old key |
| ServicesPage.InCategorySpec | src/hooks/useServicesPageState.ts:175-182 | with no key all services are shown; with a key, exactly those whose normalised category equals it |
| ServicesPage.DeriveSpec | src/hooks/useServicesPageState.ts:197-239 | the page fails only on the store bug. `vehicleNotFound` holds exactly on a vehicle route without a selection once vehicles are loaded; the filters show exactly when it is false; loading and the empty state are as the code says |
| ServicesPage.DeriveWithoutVehicle | src/hooks/useServicesPageState.ts:175-182 | without a vehicle the catalogue's services in the active category are shown, and the empty heading depends on the key |
| ServicesPage.DeriveWithVehicle | src/hooks/useServicesPageState.ts:184-197 | with a vehicle its scoped services in the active category are shown, and the empty heading is the vehicle's |
| HomeContent.ServiceCardSpec | src/hooks/useHomeContent.ts:237-246 | the card has the service's name. Its icon is the thumbnail, else the first image, else the fallback icon. Its href is `/services?service=` plus the encoded id |
| HomeContent.CardsMembers | src/hooks/useHomeContent.ts:253 | a card is kept exactly when it is some service's card with a non-empty icon |
| HomeContent.ServiceGroupsSpec | src/hooks/useHomeContent.ts:248-262 | no services give the fallback groups. Primary is cards 0-5 and custom is cards 6-11, at most six each, and an empty group is its fallback |
| HomeContent.BrandLogosSpec | src/hooks/useHomeContent.ts:267-269 | the logos are the brands' non-empty icon URLs, or the fallback list when there are none |
| HomeContent.HeroBrandsSpec | src/hooks/useHomeContent.ts:271-279 | the first five brands with an icon, as name and logo, or the fallback brands when none has one |
| HomeContent.ToHomeContentSpec | src/hooks/useHomeContent.ts:264-290 | the hero copy, the groups, the logos and the hero brands as above; the static sections are passed through; no list is empty |
| AppStore.FindCity | src/store/appStore.ts:38 | `find` gives the first city with the slug, or none when no city has it |
| AppStore.InitialSound | src/store/appStore.ts:24-35 | the store starts in Kolkata, which is active, with the modal closed and an empty cart |
| AppStore.SetCitySpec | src/store/appStore.ts:36-47 | an unknown slug or an upcoming city changes nothing; an active city becomes current and the modal closes |
| AppStore.CartSpec | src/store/appStore.ts:50-58 | increment adds the count (1 when omitted), set takes the count, reset gives 0, never below 0, and nothing else changes |
| AppStore.ModalSpec | src/store/appStore.ts:48-49 | opening and closing change only the modal flag |
| AppStore.ApplySound | src/store/appStore.ts:36-58 | every action keeps the cart non-negative and the current city an active city of the list |
| AppStore.RunSound | src/store/appStore.ts:31-58 | after any sequence of actions both still hold |
| AppStore.Store.constructor | src/store/appStore.ts:31-35 | the store's initial state |
| AppStore.Store.SetCityBySlug | src/store/appStore.ts:36-47 | the new state is `SetCity` of the old one |
| AppStore.Store.OpenModal | src/store/appStore.ts:48 | the new state is `OpenLocationModal` of the old one |
| AppStore.Store.CloseModal | src/store/appStore.ts:49 | the new state is `CloseLocationModal` of the old one |
| AppStore.Store.Increment | src/store/appStore.ts:50-53 | the new state is `IncrementCart` of the old one |
| AppStore.Store.SetCart | src/store/appStore.ts:54-57 | the new state is `SetCartItems` of the old one |
| AppStore.Store.ResetCartItems | src/store/appStore.ts:58 | the new state is `ResetCart` of the old one |
| HeroCarousel.JsRem | src/store/heroCarouselStore.ts:13 | JavaScript's `%`: smaller than the divisor in magnitude, with the dividend's sign |
| HeroCarousel.NextIndexRange | src/store/heroCarouselStore.ts:13 | with slides and an index that is not negative, the next index is in `[0, total)`; from a slide it is one on, or 0 after the last |
| HeroCarousel.NextIndexNaN | src/store/heroCarouselStore.ts:13 | no slides, or an index that is not finite, give NaN |
| HeroCarousel.NegativeIndexStep | src/store/heroCarouselStore.ts:13 | from any index below -1 the next index is minus the remainder of `-(i + 1)` by the slide count: never positive, and above minus the count |
| HeroCarousel.AdvanceWithin | src/store/heroCarouselStore.ts:12-16 | before the last slide each step moves one slide on |
| HeroCarousel.AdvanceWraps | src/store/heroCarouselStore.ts:12-16 | from slide `i`, `total - i` steps return to slide 0 |
| HeroCarousel.CycleReturns | src/store/heroCarouselStore.ts:10-16 | from the initial 0, `k < total` steps reach slide `k` and `total` steps return to 0 |
| HeroCarousel.CarouselStore.constructor | src/store/heroCarouselStore.ts:10 | the index starts at 0 |
| HeroCarousel.CarouselStore.SetActiveIndex | src/store/heroCarouselStore.ts:11 | the index becomes exactly the given value |
| HeroCarousel.CarouselStore.NextSlide | src/store/heroCarouselStore.ts:12-16 | stores and returns `NextIndex` of the old index |

## Left out

- **Rendering.** JSX, styling, dialogs, animations and the sheet's
  `translateX` are presentation only. The sheet titles and subtitles are
  modelled but have no contract of their own.
- **Focus and timers.** `focusOtpInput`, the input refs, the `setTimeout`
  focus and the `setInterval` that drives the carousel are DOM and timer
  effects.
- **Network I/O.** `apiRequest`, `logCustomerActivity`, `fetchJson`, the
  sitemap script's `main`, and its file writes. Replies are inputs, and
  the `Promise.all` join is one outcome value.
- **Concurrency.** The check-then-set race on the loading flags, and
  stale replies: event-loop ordering, not sequential logic. A submission
  or verification is one step, so the transient `isProcessing` and
  `isOtpVerifying` flags are not observed in between.
- **Browser storage.** The session's localStorage persistence. The
  session is the form's token and phone fields.
- **Foreign functions.** `resolveBackendAssetUrl` is a function parameter.
  `encodeURIComponent`, the `URLSearchParams` encoder and `formatDate` are
  parameters too. `src/utils/slug` is not part of this model; the script's
  identical `slugifySegment` stands in for it.
- **Collation.** `localeCompare` is modelled as lexicographic order on the
  ASCII-lower-cased text. `.sort()` is modelled as code-unit order.
  Unicode case mapping and `\s` beyond ASCII are not modelled.
- **Object key order.** `modelsByBrand` is an association list in
  insertion order. JavaScript's ordering of integer-like keys first is
  not modelled.
- **URLSearchParams.** `set` on a key seen before is modelled as an
  append. `Object.entries` never repeats a key, so this does not arise.
- **Numbers.** Prices and counts are integers; `Number.isFinite` is the
  `Num` constructor. A fractional or NaN cart count and a fractional or
  NaN carousel total are not modelled.
- **Services-page copy.** `heroTitle`, `metaTitle`, `heroDescription`,
  `metaDescription`, `packagesTitle` and `packagesDescription` are
  string templates with no logic. The vehicle-catalogue fetch effect is
  the predicate `ShouldFetchVehicles`.
- **Home page statics.** The static sections are a type parameter passed
  through unchanged.
- **Service fields.** Service fields the logic never reads are not
  modelled.
- **Hook `handleClearSelection`.** It is modelled as `HeroForm.ClearSelection`
  (hero_form.dfy), and the component's version, which also closes the
  sheet, is `HeroFormPage.PageClearSelection`, built on it.
- **Old forms.** The older non-wizard hero forms and `isRouteProtected`
  have no logic worth stating.

## Findings

| source | as written | input that shows it | evidently intended | confidence | as-written member | corrected member |
|---|---|---|---|---|---|---|
| src/hooks/useServicesPageState.ts:114 | `vehicleSelection.model.services.map(...)` reads `services`, but `normalizeModels` (src/store/vehicleStore.ts:102-124) builds models without it, so the read is `undefined.map` and throws | any vehicle slug or route state that selects a model of the store's catalogue | the store copies each raw model's `services` (or `[]`) into the normalised model, so the page scopes them | not executed | VehicleCatalog.NormalizeModelsAsWritten, VehicleCatalog.AsWrittenHasNoServices, VehicleStore.FetchedModelsLackServices, ServicesPage.AsWrittenStoreBreaksPage | VehicleCatalog.NormalizeModels, VehicleCatalog.NormalizeModelsMembers, VehicleStore.CorrectedCatalogSpec, ServicesPage.CorrectedStoreScopes |
| src/hooks/heroFormHooks/useHeroFormState.ts:87-104 | `ensureSelection` calls `setMessage(prompt)` and then `goToStep`, whose `clearMessage` (line 45) sees the render's old, non-empty `message` and queues `setMessage('')` last | submitting twice with no brand chosen: the second submit shows no prompt | the prompt stays visible after the step opens | not executed | HeroForm.EnsureSelectionAsWritten, HeroForm.EnsureSelectionLosesPrompt, HeroForm.EnsureSelectionCounterexample | HeroForm.EnsureSelection, HeroForm.EnsureSelectionSpec |
