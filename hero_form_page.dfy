/** The live hero form, src/pages/HomePage/HeroSection/HeroForm/index.tsx:
    one component that keeps the selector step, phone, message, session,
    processing flag and OTP fields itself and drives the vehicle store.
    Where it behaves like the hooks it reuses their steps; the page-specific
    steps are `PageBack`, `PageClearSelection`, `PageSubmit` and
    `PageVerifyOtp`. The `HeroFormPage` class performs them in place. */
module HeroFormPage {
  import opened Wrappers
  import opened Text
  import opened VehicleCatalog
  import opened VehicleStore
  import opened HeroOtp
  import opened HeroSelection
  import opened HeroForm

  /** The message of the error `buildVehiclePayload` throws here. */
  const PageVehicleIncomplete: string := "Vehicle selection is incomplete."

  /** `openSelector`: the same step, message and fetch as the hook's. */
  function PageOpenSelector(f: Form): Effect {
    var r := OpenSelector(f.sheet);
    Effect(f.(sheet := r.sheet), None, r.fetchRequested)
  }

  /** `handleBack`: moves to the previous step directly, without clearing the
      message or fetching. */
  function PageBack(f: Form): Form {
    match f.sheet.step
    case None => f
    case Some(BrandStep) => f.(sheet := f.sheet.(step := None))
    case Some(step) => f.(sheet := f.sheet.(step := Some(PreviousStep(step))))
  }

  /** `handleClearSelection`: the hook's, and the sheet closes too. */
  function PageClearSelection(f: Form): Form {
    var g := ClearSelection(f);
    g.(sheet := g.sheet.(step := None))
  }

  /** `handleSubmit`: a missing part sets its prompt and opens its step
      (no fetch); otherwise the message and the OTP error are cleared and
      the branches are tried. */
  function PageSubmit(f: Form, response: ActivityResponse): Effect {
    if !HasCompletedSelection(f.sheet.store) then
      var (step, prompt) := MissingStep(f.sheet.store);
      Quiet(f.(sheet := f.sheet.(step := Some(step), message := prompt)))
    else SubmitBranches(f.(sheet := f.sheet.(message := ""), otp := f.otp.(error := "")), response)
  }

  /** `handleOtpVerify` of the page. */
  function PageVerifyOtp(f: Form, response: ActivityResponse): Effect {
    VerifyOtp(f, response, PageVehicleIncomplete)
  }

  // ---------------------------------------------------------------------
  // Properties

  /** Back from the model or fuel step goes one step back and keeps the
      message; the step reached is the hook's, but nothing is fetched. */
  lemma PageBackSpec(f: Form)
    ensures f.sheet.step.None? ==> PageBack(f) == f
    ensures f.sheet.step == Some(BrandStep) ==> PageBack(f).sheet.step.None?
    ensures f.sheet.step == Some(ModelStep) ==> PageBack(f).sheet.step == Some(BrandStep)
    ensures f.sheet.step == Some(FuelStep) ==> PageBack(f).sheet.step == Some(ModelStep)
    ensures PageBack(f).sheet.message == f.sheet.message && PageBack(f).sheet.store == f.sheet.store
    ensures PageBack(f).sheet.step == Back(f.sheet).sheet.step
  {
  }

  /** Clearing empties the selection, the phone, the message and the OTP
      state, and closes the sheet; the catalogue stays. */
  lemma PageClearSelectionSpec(f: Form)
    ensures var g := PageClearSelection(f);
      && g.sheet.store.selectedBrand.None? && g.sheet.store.selectedModel.None? && g.sheet.store.selectedFuelType.None?
      && SameCatalog(g.sheet.store, f.sheet.store)
      && g.phone == "" && g.sheet.message == "" && g.otp == InitialOtp && g.sheet.step.None?
      && g.sessionToken == f.sessionToken
  {
  }

  /** A submit with a missing part always shows that part's prompt and
      opens its step, whatever message was showing. */
  lemma PageSubmitPrompts(f: Form, response: ActivityResponse)
    requires !HasCompletedSelection(f.sheet.store)
    ensures var e := PageSubmit(f, response);
      var s := f.sheet.store;
      && e.navigation.None? && !e.fetchRequested && e.form.sheet.store == s && e.form.otp == f.otp
      && (s.selectedBrand.None? ==> e.form.sheet.step == Some(BrandStep) && e.form.sheet.message == BrandMissing)
      && (s.selectedBrand.Some? && s.selectedModel.None? ==> e.form.sheet.step == Some(ModelStep) && e.form.sheet.message == ModelMissing)
      && (s.selectedBrand.Some? && s.selectedModel.Some? ==> e.form.sheet.step == Some(FuelStep) && e.form.sheet.message == FuelMissing)
    ensures PageSubmit(f, response).form.sheet == EnsureSelection(f).form.sheet
  {
  }

  /** With a complete selection the page takes the hook's branches, after
      also clearing the OTP error. */
  lemma PageSubmitMatchesHook(f: Form, response: ActivityResponse)
    requires HasCompletedSelection(f.sheet.store)
    ensures PageSubmit(f, response) == Submit(f.(otp := f.otp.(error := "")), response)
  {
  }

  // ---------------------------------------------------------------------
  // The component

  class HeroFormPage {
    const vehicles: Store
    const otp: OtpFlow
    var activeStep: Option<Step>
    var phone: string
    var message: string
    var isProcessing: bool
    var sessionToken: Option<string>
    var sessionPhone: Option<string>

    predicate Valid()
      reads this, otp
    {
      otp.Valid()
    }

    function State(): Form
      reads this, vehicles, otp, otp.digits
    {
      Form(Sheet(vehicles.State(), activeStep, message), phone, isProcessing, sessionToken, sessionPhone, otp.State())
    }

    /** The first render: nothing entered, no session, the sheet closed. */
    constructor (store: Store)
      ensures Valid() && vehicles == store && fresh(otp) && fresh(otp.digits)
      ensures State() == Form(Sheet(store.State(), None, ""), "", false, None, None, InitialOtp)
    {
      vehicles := store;
      otp := new OtpFlow();
      activeStep := None;
      phone := "";
      message := "";
      isProcessing := false;
      sessionToken := None;
      sessionPhone := None;
    }

    method OpenSelector() returns (fetchRequested: bool)
      requires Valid()
      modifies this
      ensures Valid() && Effect(State(), None, fetchRequested) == PageOpenSelector(old(State()))
    {
      var nextStep := NextStep(vehicles.State());
      message := "";
      activeStep := Some(nextStep);
      fetchRequested := nextStep == BrandStep && !vehicles.hasLoadedCatalog && !vehicles.isLoadingCatalog;
    }

    method HandleBack()
      requires Valid()
      modifies this
      ensures Valid() && State() == PageBack(old(State()))
    {
      if activeStep.None? {
        return;
      }
      if activeStep == Some(BrandStep) {
        activeStep := None;
        return;
      }
      activeStep := Some(PreviousStep(activeStep.value));
    }

    method HandleCloseSheet()
      requires Valid()
      modifies this
      ensures Valid() && State() == old(State()).(sheet := CloseSheet(old(State()).sheet))
    {
      activeStep := None;
    }

    method HandleBrandSelect(brand: VehicleBrand)
      requires Valid()
      modifies this, vehicles
      ensures Valid() && State() == old(State()).(sheet := BrandSelect(old(State()).sheet, brand))
    {
      vehicles.SelectBrand(brand);
      message := "";
      activeStep := Some(ModelStep);
    }

    method HandleModelSelect(model: VehicleModel)
      requires Valid()
      modifies this, vehicles
      ensures Valid() && State() == old(State()).(sheet := ModelSelect(old(State()).sheet, model))
    {
      if vehicles.selectedBrand.None? {
        return;
      }
      vehicles.SelectModel(model);
      message := "";
      activeStep := Some(FuelStep);
    }

    method HandleFuelSelect(fuelType: string)
      requires Valid()
      modifies this, vehicles
      ensures Valid() && State() == old(State()).(sheet := FuelSelect(old(State()).sheet, fuelType))
    {
      if vehicles.selectedModel.None? {
        return;
      }
      vehicles.SetFuelType(fuelType);
      message := "";
      activeStep := None;
    }

    method HandleClearSelection()
      requires Valid()
      modifies this, vehicles, otp, otp.digits
      ensures Valid() && State() == PageClearSelection(old(State()))
    {
      vehicles.ResetSelection();
      phone := "";
      message := "";
      otp.ResetOtpFlow();
      activeStep := None;
    }

    /** The phone field's `onChange`. */
    method HandlePhoneChange(value: string)
      requires Valid()
      modifies this, otp, otp.digits
      ensures Valid() && State() == PhoneChange(old(State()), value)
    {
      phone := SanitizePhone(value);
      message := "";
      if HasOtpState(otp.State()) {
        otp.ResetOtpFlow();
      }
    }

    /** `navigateToTarget`; returns the navigation performed. */
    method NavigateToTarget(navigation: PendingNavigation) returns (navigated: Option<PendingNavigation>)
      requires Valid()
      modifies this, vehicles
      ensures Valid() && Effect(State(), navigated, false) == HeroForm.NavigateToTarget(old(State()), navigation)
    {
      activeStep := None;
      message := "";
      navigated := Some(navigation);
      phone := "";
      vehicles.ResetSelection();
    }

    method HandleSubmit(response: ActivityResponse) returns (navigated: Option<PendingNavigation>)
      requires Valid()
      modifies this, vehicles, otp, otp.digits
      ensures Valid() && Effect(State(), navigated, false) == PageSubmit(old(State()), response)
    {
      var store := vehicles.State();
      if !HasCompletedSelection(store) {
        var (step, prompt) := MissingStep(store);
        message := prompt;
        activeStep := Some(step);
        return None;
      }
      message := "";
      otp.error := "";
      navigated := TryBranches(response);
    }

    /** The branches of `handleSubmit` past the selection check. */
    method TryBranches(response: ActivityResponse) returns (navigated: Option<PendingNavigation>)
      requires Valid() && HasCompletedSelection(vehicles.State())
      modifies this, vehicles, otp, otp.digits
      ensures Valid() && Effect(State(), navigated, false) == SubmitBranches(old(State()), response)
    {
      var store := vehicles.State();
      var path := TargetPath(store);
      var trimmedPhone := Trim(phone);
      if HasActiveSession(State()) {
        var state := CreateNavigationState(store, sessionPhone.GetOr(""));
        navigated := LogSearch(response, PendingNavigation(path, state));
        return;
      }
      var state := CreateNavigationState(store, trimmedPhone);
      if trimmedPhone != "" && !IsPhoneValid(trimmedPhone) {
        message := InvalidPhone;
        return None;
      }
      if IsPhoneValid(trimmedPhone) {
        otp.StartOtpFlow(PendingNavigation(path, state));
        return None;
      }
      navigated := NavigateToTarget(PendingNavigation(path, state));
    }

    /** The session branch: `response` is how the activity log settles. */
    method LogSearch(response: ActivityResponse, target: PendingNavigation) returns (navigated: Option<PendingNavigation>)
      requires Valid()
      modifies this, vehicles
      ensures Valid()
      ensures response.Logged? ==>
        Effect(State(), navigated, false)
        == HeroForm.NavigateToTarget(old(State()).(sessionToken := Some(response.sessionToken),
                                                   sessionPhone := Some(response.sessionPhone), isProcessing := false),
                                     PendingNavigation(target.path, target.state.(phone := response.sessionPhone)))
      ensures response.Rejected? ==>
        Effect(State(), navigated, false)
        == Quiet(old(State()).(sheet := old(State()).sheet.(message := response.message.GetOr(SubmitFailed)), isProcessing := false))
    {
      match response {
        case Logged(token, phone) =>
          sessionToken := Some(token);
          sessionPhone := Some(phone);
          isProcessing := false;
          navigated := NavigateToTarget(PendingNavigation(target.path, target.state.(phone := phone)));
        case Rejected(errorMessage) =>
          message := errorMessage.GetOr(SubmitFailed);
          isProcessing := false;
          navigated := None;
      }
    }

    method HandleOtpDigitChange(value: string, index: nat)
      requires Valid() && index < OtpLength
      modifies otp, otp.digits
      ensures Valid() && State() == old(State()).(otp := DigitChange(old(State()).otp, value, index))
    {
      otp.HandleDigitChange(value, index);
    }

    method HandleOtpBackspace(index: nat)
      requires Valid() && index < OtpLength
      modifies otp.digits
      ensures Valid() && State() == old(State()).(otp := Backspace(old(State()).otp, index))
    {
      otp.HandleBackspace(index);
    }

    method HandleOtpPaste(pasted: string)
      requires Valid()
      modifies otp, otp.digits
      ensures Valid() && State() == old(State()).(otp := Paste(old(State()).otp, pasted))
    {
      otp.HandlePaste(pasted);
    }

    method HandleOtpVerify(response: ActivityResponse) returns (navigated: Option<PendingNavigation>)
      requires Valid()
      modifies this, vehicles, otp, otp.digits
      ensures Valid() && Effect(State(), navigated, false) == PageVerifyOtp(old(State()), response)
    {
      var payload := BuildVehiclePayload(vehicles.State());
      var verified := otp.HandleVerify(payload, response, PageVehicleIncomplete);
      if verified.None? {
        return None;
      }
      sessionToken := Some(verified.value.sessionToken);
      sessionPhone := Some(verified.value.sessionPhone);
      navigated := NavigateToTarget(verified.value.navigation);
    }
  }
}
