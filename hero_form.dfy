/** The hero form's own state and its submit decision
    (src/hooks/heroFormHooks/useHeroFormState.ts): the phone field, the
    message, the processing flag and the session, joined with the selector
    sheet and the OTP flow. Each handler is a step on `Form`; what it asks
    the router or the store to do comes back as an `Effect`. */
module HeroForm {
  import opened Wrappers
  import opened Text
  import opened VehicleCatalog
  import opened VehicleStore
  import opened VehicleSlug
  import opened HeroOtp
  import opened HeroSelection

  const PhoneLength: nat := 10
  const BrandMissing: string := "Please choose your car brand so we can personalise your quote."
  const ModelMissing: string := "Select your car model to continue."
  const FuelMissing: string := "Pick the fuel type for your vehicle."
  const InvalidPhone: string := "Please enter a valid 10-digit mobile number."
  const SubmitFailed: string := "We could not log this search right now. Please try again."
  const HookVehicleIncomplete: string := "Vehicle selection is incomplete. Please try again."

  datatype Form = Form(
    sheet: Sheet, phone: string, isProcessing: bool,
    sessionToken: Option<string>, sessionPhone: Option<string>, otp: OtpState)

  /** A handler's new form, the navigation it performed, and whether it
      started a catalogue fetch. */
  datatype Effect = Effect(form: Form, navigation: Option<PendingNavigation>, fetchRequested: bool)

  function Quiet(f: Form): Effect {
    Effect(f, None, false)
  }

  /** `Boolean(sessionToken)` */
  predicate HasActiveSession(f: Form) {
    f.sessionToken.Some? && f.sessionToken.value != ""
  }

  /** `PHONE_NUMBER_PATTERN.test(phone)`, the pattern `^\d{10}$`. */
  predicate IsPhoneValid(phone: string) {
    |phone| == PhoneLength && forall i :: 0 <= i < |phone| ==> IsDigit(phone[i])
  }

  function TrimmedPhone(f: Form): string {
    Trim(f.phone)
  }

  /** `buildVehiclePayload` */
  function BuildVehiclePayload(s: StoreState): (r: Option<VehiclePayload>)
    ensures r.Some? <==> HasCompletedSelection(s)
    ensures r.Some? ==> r.value == VehiclePayload(
      s.selectedBrand.value.slug, s.selectedBrand.value.name,
      s.selectedModel.value.slug, s.selectedModel.value.name, s.selectedFuelType.value)
  {
    if !HasCompletedSelection(s) then None
    else Some(VehiclePayload(s.selectedBrand.value.slug, s.selectedBrand.value.name,
                             s.selectedModel.value.slug, s.selectedModel.value.name, s.selectedFuelType.value))
  }

  /** `createNavigationState`; its callers have checked the selection. */
  function CreateNavigationState(s: StoreState, phone: string): NavigationState
    requires HasCompletedSelection(s)
  {
    NavigationState(s.selectedBrand.value.slug, s.selectedBrand.value.name,
                    s.selectedModel.value.slug, s.selectedModel.value.name,
                    s.selectedFuelType.value, phone)
  }

  /** The page a completed selection leads to. */
  function TargetPath(s: StoreState): string
    requires HasCompletedSelection(s)
  {
    BuildVehiclePath(s.selectedFuelType.value, s.selectedBrand.value.slug, s.selectedModel.value.slug)
  }

  /** `submitButtonLabel` */
  function SubmitButtonLabel(f: Form): string {
    if f.isProcessing then "Saving..."
    else if HasActiveSession(f) then "Get A Quote"
    else if IsPhoneValid(TrimmedPhone(f)) then "Get OTP"
    else "Get A Quote"
  }

  /** `isSubmitDisabled` */
  predicate IsSubmitDisabled(f: Form) {
    !HasCompletedSelection(f.sheet.store) || f.isProcessing
  }

  /** `shouldShowPhoneField` */
  predicate ShouldShowPhoneField(f: Form) {
    HasCompletedSelection(f.sheet.store) && !HasActiveSession(f)
  }

  /** `value.replace(/\D/g, '').slice(0, 10)` */
  function SanitizePhone(value: string): string {
    var ds := Filter(value, IsDigit);
    if |ds| <= PhoneLength then ds else ds[..PhoneLength]
  }

  /** Whether any OTP state is showing or pending. */
  predicate HasOtpState(o: OtpState) {
    o.isOpen || o.pending.Some? || (exists i :: 0 <= i < |o.digits| && o.digits[i] != "") || o.error != ""
  }

  /** `handlePhoneChange` */
  function PhoneChange(f: Form, value: string): Form {
    f.(phone := SanitizePhone(value),
       sheet := f.sheet.(message := ""),
       otp := if HasOtpState(f.otp) then Reset(f.otp) else f.otp)
  }

  /** `navigateToTarget`: close the sheet, clear the message, navigate,
      clear the phone and the vehicle selection. */
  function NavigateToTarget(f: Form, navigation: PendingNavigation): Effect {
    Effect(f.(sheet := Sheet(SelectionReset(f.sheet.store), None, ""), phone := ""), Some(navigation), false)
  }

  /** `handleClearSelection`: the sheet's step is left as it is. */
  function ClearSelection(f: Form): Form {
    f.(sheet := f.sheet.(store := SelectionReset(f.sheet.store), message := ""), phone := "", otp := Reset(f.otp))
  }

  /** The first missing part of the selection, its prompt, and its step. */
  function MissingStep(s: StoreState): (Step, string)
    requires !HasCompletedSelection(s)
  {
    if s.selectedBrand.None? then (BrandStep, BrandMissing)
    else if s.selectedModel.None? then (ModelStep, ModelMissing)
    else (FuelStep, FuelMissing)
  }

  /** `ensureSelection` as written: `setMessage(prompt)` is queued, then
      `goToStep` runs `clearMessage`, which tests the message of the render
      the handler belongs to and, when that one was not empty, queues
      `setMessage('')` after the prompt. */
  function EnsureSelectionAsWritten(f: Form): Effect
    requires !HasCompletedSelection(f.sheet.store)
  {
    var (step, prompt) := MissingStep(f.sheet.store);
    var g := GoToStep(f.sheet, Some(step));
    Effect(f.(sheet := g.sheet.(message := if f.sheet.message != "" then "" else prompt)), None, g.fetchRequested)
  }

  /** `ensureSelection` as intended: the prompt stays and the sheet opens
      on the missing step. */
  function EnsureSelection(f: Form): Effect
    requires !HasCompletedSelection(f.sheet.store)
  {
    var (step, prompt) := MissingStep(f.sheet.store);
    var g := GoToStep(f.sheet, Some(step));
    Effect(f.(sheet := g.sheet.(message := prompt)), None, g.fetchRequested)
  }

  /** The branches of a submit with a complete selection, once the message
      has been cleared: log with the session, reject a malformed phone, ask
      for an OTP, or navigate. `response` is how the activity log settles;
      it matters only in the session branch. */
  function SubmitBranches(f: Form, response: ActivityResponse): Effect
    requires HasCompletedSelection(f.sheet.store)
  {
    var store := f.sheet.store;
    var path := TargetPath(store);
    var trimmed := TrimmedPhone(f);
    var state := CreateNavigationState(store, if HasActiveSession(f) then f.sessionPhone.GetOr("") else trimmed);
    if HasActiveSession(f) then
      match response
      case Logged(token, phone) =>
        NavigateToTarget(f.(sessionToken := Some(token), sessionPhone := Some(phone), isProcessing := false),
                         PendingNavigation(path, state.(phone := phone)))
      case Rejected(message) =>
        Quiet(f.(sheet := f.sheet.(message := message.GetOr(SubmitFailed)), isProcessing := false))
    else if trimmed != "" && !IsPhoneValid(trimmed) then
      Quiet(f.(sheet := f.sheet.(message := InvalidPhone)))
    else if IsPhoneValid(trimmed) then
      Quiet(f.(otp := Start(f.otp, PendingNavigation(path, state))))
    else
      NavigateToTarget(f, PendingNavigation(path, state))
  }

  /** `handleSubmit` of the hook, with `ensureSelection` as written. */
  function SubmitAsWritten(f: Form, response: ActivityResponse): Effect {
    if !HasCompletedSelection(f.sheet.store) then EnsureSelectionAsWritten(f)
    else SubmitBranches(f.(sheet := f.sheet.(message := "")), response)
  }

  /** `handleSubmit` with the intended `ensureSelection`. */
  function Submit(f: Form, response: ActivityResponse): Effect {
    if !HasCompletedSelection(f.sheet.store) then EnsureSelection(f)
    else SubmitBranches(f.(sheet := f.sheet.(message := "")), response)
  }

  /** `handleOtpVerify` with its success callback: a verified code stores
      the session and navigates. `incompleteVehicle` is the message for a
      missing vehicle. */
  function VerifyOtp(f: Form, response: ActivityResponse, incompleteVehicle: string): Effect {
    var (o, verified) := Verify(f.otp, BuildVehiclePayload(f.sheet.store), response, incompleteVehicle);
    var g := f.(otp := o);
    if verified.None? then Quiet(g)
    else
      NavigateToTarget(g.(sessionToken := Some(verified.value.sessionToken), sessionPhone := Some(verified.value.sessionPhone)),
                       verified.value.navigation)
  }

  // ---------------------------------------------------------------------
  // Properties

  /** The phone field keeps only digits, at most ten of them, in order. */
  lemma SanitizePhoneSpec(value: string)
    ensures var p := SanitizePhone(value);
      |p| <= PhoneLength && (forall i :: 0 <= i < |p| ==> IsDigit(p[i]))
      && (|Filter(value, IsDigit)| >= PhoneLength ==> |p| == PhoneLength)
      && p == Filter(value, IsDigit)[..|p|]
  {
  }

  /** A sanitised phone of ten digits is valid, and trimming does not
      change it. */
  lemma SanitizedPhoneValid(value: string)
    ensures TrimmedPhoneOf(SanitizePhone(value)) == SanitizePhone(value)
    ensures IsPhoneValid(SanitizePhone(value)) <==> |SanitizePhone(value)| == PhoneLength
  {
    var p := SanitizePhone(value);
    DigitsHaveNoSpace(p);
  }

  function TrimmedPhoneOf(phone: string): string {
    Trim(phone)
  }

  lemma DigitsHaveNoSpace(p: string)
    requires forall i :: 0 <= i < |p| ==> IsDigit(p[i])
    ensures Trim(p) == p
  {
    CountWhileNone(p, IsSpace);
    CountWhileEndNone(p, IsSpace);
  }

  lemma CountWhileNone(s: string, p: char -> bool)
    requires s == [] || !p(s[0])
    ensures CountWhile(s, p) == 0
  {
  }

  lemma CountWhileEndNone(s: string, p: char -> bool)
    requires s == [] || !p(s[|s| - 1])
    ensures CountWhileEnd(s, p) == 0
  {
  }

  /** A phone change stores the sanitised digits, clears the message, and
      resets the OTP flow exactly when any OTP state exists. */
  lemma PhoneChangeSpec(f: Form, value: string)
    ensures var g := PhoneChange(f, value);
      && g.phone == SanitizePhone(value) && g.sheet.message == ""
      && (HasOtpState(f.otp) ==> g.otp == InitialOtp)
      && (!HasOtpState(f.otp) ==> g.otp == f.otp)
      && g.sheet.store == f.sheet.store && g.sheet.step == f.sheet.step && g.sessionToken == f.sessionToken
  {
  }

  /** The label: saving while processing, otherwise the OTP prompt exactly
      for a ten-digit phone without a session. */
  lemma SubmitButtonLabelSpec(f: Form)
    ensures f.isProcessing ==> SubmitButtonLabel(f) == "Saving..."
    ensures !f.isProcessing ==>
      (SubmitButtonLabel(f) == "Get OTP" <==> !HasActiveSession(f) && IsPhoneValid(TrimmedPhone(f)))
    ensures !f.isProcessing && SubmitButtonLabel(f) != "Get OTP" ==> SubmitButtonLabel(f) == "Get A Quote"
  {
  }

  /** Submitting is disabled exactly for an incomplete selection or while
      processing; the payload exists exactly for a complete selection. */
  lemma SubmitEnabledSpec(f: Form)
    ensures IsSubmitDisabled(f) <==> BuildVehiclePayload(f.sheet.store).None? || f.isProcessing
  {
  }

  /** Intended `ensureSelection`: the prompt of the first missing part is
      shown and the sheet opens on that step; nothing else changes. */
  lemma EnsureSelectionSpec(f: Form)
    requires !HasCompletedSelection(f.sheet.store)
    ensures var e := EnsureSelection(f);
      var s := f.sheet.store;
      && e.navigation.None? && e.form.sheet.store == s && e.form.otp == f.otp && e.form.phone == f.phone
      && (s.selectedBrand.None? ==> e.form.sheet.step == Some(BrandStep) && e.form.sheet.message == BrandMissing)
      && (s.selectedBrand.Some? && s.selectedModel.None? ==> e.form.sheet.step == Some(ModelStep) && e.form.sheet.message == ModelMissing)
      && (s.selectedBrand.Some? && s.selectedModel.Some? ==> e.form.sheet.step == Some(FuelStep) && e.form.sheet.message == FuelMissing)
      && e.form.sheet.message != ""
  {
  }

  /** As written, the prompt is lost whenever a message was already showing
      (for instance a second submit after the first prompt). */
  lemma EnsureSelectionLosesPrompt(f: Form)
    requires !HasCompletedSelection(f.sheet.store) && f.sheet.message != ""
    ensures EnsureSelectionAsWritten(f).form.sheet.message == ""
    ensures EnsureSelection(f).form.sheet.message != ""
  {
  }

  /** A concrete case: no brand selected and the brand prompt already
      showing; submitting again leaves the form without any message. */
  lemma EnsureSelectionCounterexample(f: Form, response: ActivityResponse)
    requires f.sheet.store.selectedBrand.None? && f.sheet.message == BrandMissing
    ensures SubmitAsWritten(f, response).form.sheet.message == ""
    ensures Submit(f, response).form.sheet.message == BrandMissing
  {
  }

  /** With a session, a submit logs the search: on success it navigates
      to the vehicle page with the server's phone and stores the new
      session; on failure it shows the error. */
  lemma SubmitWithSession(f: Form, response: ActivityResponse)
    requires HasCompletedSelection(f.sheet.store) && HasActiveSession(f)
    ensures var e := Submit(f, response);
      var s := f.sheet.store;
      && (response.Logged? ==>
            && e.navigation == Some(PendingNavigation(TargetPath(s), CreateNavigationState(s, response.sessionPhone)))
            && e.form.sessionToken == Some(response.sessionToken) && e.form.sessionPhone == Some(response.sessionPhone)
            && e.form.sheet.store.selectedBrand.None? && e.form.phone == "" && !e.form.isProcessing)
      && (response.Rejected? ==>
            && e.navigation.None? && !e.form.isProcessing
            && e.form.sheet.message == response.message.GetOr(SubmitFailed))
  {
  }

  /** Without a session, a non-empty phone that is not ten digits only sets
      the message. */
  lemma SubmitInvalidPhone(f: Form, response: ActivityResponse)
    requires HasCompletedSelection(f.sheet.store) && !HasActiveSession(f)
    requires TrimmedPhone(f) != "" && !IsPhoneValid(TrimmedPhone(f))
    ensures Submit(f, response) == Quiet(f.(sheet := f.sheet.(message := InvalidPhone)))
  {
  }

  /** Without a session, a valid phone opens the OTP flow with the vehicle
      page pending; nothing navigates yet. */
  lemma SubmitStartsOtp(f: Form, response: ActivityResponse)
    requires HasCompletedSelection(f.sheet.store) && !HasActiveSession(f) && IsPhoneValid(TrimmedPhone(f))
    ensures var e := Submit(f, response);
      var s := f.sheet.store;
      && e.navigation.None? && e.form.otp.isOpen && e.form.otp.digits == EmptyDigits && e.form.otp.error == ""
      && e.form.otp.pending == Some(PendingNavigation(TargetPath(s), CreateNavigationState(s, TrimmedPhone(f))))
      && e.form.sheet.store == s
  {
  }

  /** Without a session or a phone, a submit navigates at once. */
  lemma SubmitWithoutPhone(f: Form, response: ActivityResponse)
    requires HasCompletedSelection(f.sheet.store) && !HasActiveSession(f) && TrimmedPhone(f) == ""
    ensures var s := f.sheet.store;
      Submit(f, response).navigation == Some(PendingNavigation(TargetPath(s), CreateNavigationState(s, "")))
  {
  }

  /** Every navigation a submit or a verified OTP performs goes to the
      vehicle's service page, which ends in the services suffix. */
  lemma NavigationTargetsServicePage(f: Form, response: ActivityResponse, message: string)
    ensures var n := Submit(f, response).navigation;
      n.Some? ==> HasCompletedSelection(f.sheet.store) && n.value.path == TargetPath(f.sheet.store)
                  && StartsWith(n.value.path, "/services/") && EndsWith(n.value.path, Suffix)
  {
    if HasCompletedSelection(f.sheet.store) {
      var s := f.sheet.store;
      BuildVehiclePathShape(s.selectedFuelType.value, s.selectedBrand.value.slug, s.selectedModel.value.slug);
    }
  }

  /** `navigateToTarget` closes the sheet and clears the message, the phone
      and the vehicle selection; the catalogue and the OTP state stay. */
  lemma NavigateToTargetSpec(f: Form, navigation: PendingNavigation)
    ensures var e := NavigateToTarget(f, navigation);
      && e.navigation == Some(navigation) && e.form.sheet.step.None? && e.form.sheet.message == ""
      && e.form.phone == "" && e.form.sheet.store.selectedBrand.None? && e.form.sheet.store.selectedModel.None?
      && e.form.sheet.store.selectedFuelType.None? && SameCatalog(e.form.sheet.store, f.sheet.store)
      && e.form.otp == f.otp
  {
  }

  /** A verified OTP navigates to the pending path with the server's phone
      and leaves the OTP flow reset. */
  lemma VerifyOtpNavigates(f: Form, response: ActivityResponse, message: string)
    requires WellFormed(f.otp.digits)
    ensures var e := VerifyOtp(f, response, message);
      && (e.navigation.Some? <==> f.otp.digits == ["1", "2", "3", "4"] && f.otp.pending.Some?
                                  && HasCompletedSelection(f.sheet.store) && response.Logged?)
      && (e.navigation.Some? ==>
            && e.navigation.value.path == f.otp.pending.value.path
            && e.navigation.value.state == f.otp.pending.value.state.(phone := response.sessionPhone)
            && e.form.otp == InitialOtp && e.form.sessionToken == Some(response.sessionToken))
  {
    VerifySuccess(f.otp, BuildVehiclePayload(f.sheet.store), response, message);
  }
}
